/**
  What a RETURN leaves with and which clause of a CASE runs, said of the expressions written there:
  for a turn of the loop from any state, for what a statement means, and for the flat run.
 */
module ReturnsAndCases {
  import opened Phrases
  import opened Machine
  import opened Structured
  import opened Textbook
  import opened WholeRuns
  import opened TailCalls

  // ---------------------------------------------------------------- RETURN, one turn

  /** The next turn of a call runs this phrase. */
  ghost predicate RunsNext(prog: seq<Phrase>, c: Config, p: Phrase) {
    c.status == Running && c.breakIn == None && 0 <= c.pc + 1 < |prog| && prog[c.pc + 1] == p
  }

  /** RETURN list leaves with the values the list has, and fails when it has none. */
  lemma ReturnTurn(prog: seq<Phrase>, c: Config, list: ListExpr, w: seq<Word>)
    requires RunsNext(prog, c, PReturn(Values(list), w))
    ensures forall vals :: Step(prog, c).status == Exited(Answer(vals)) <==> list(c.store) == Some(vals)
    ensures Step(prog, c).status == Failed(EvalFault) <==> list(c.store).None?
    ensures Step(prog, c).status != Running && Step(prog, c).store == c.store
  {
    assert Step(prog, c) == StepReturn(c.(pc := c.pc + 1), Values(list));
  }

  /** RETURN IF cond, list does so when the condition is true, and goes on when it is false. */
  lemma ReturnIfTurn(prog: seq<Phrase>, c: Config, cond: Cond, list: ListExpr, w: seq<Word>)
    requires RunsNext(prog, c, PReturn(ValuesIf(cond, list), w))
    ensures forall vals ::
      Step(prog, c).status == Exited(Answer(vals)) <==> cond(c.store) == Some(true) && list(c.store) == Some(vals)
    ensures Step(prog, c) == c.(pc := c.pc + 1) <==> cond(c.store) == Some(false)
    ensures Step(prog, c).status == Failed(EvalFault)
       <==> cond(c.store).None? || (cond(c.store) == Some(true) && list(c.store).None?)
  {
    assert Step(prog, c) == StepReturn(c.(pc := c.pc + 1), ValuesIf(cond, list));
  }

  /** A call of the function to itself asks to start over with the values of its arguments. */
  lemma SelfCallTurn(prog: seq<Phrase>, c: Config, args: ListExpr, w: seq<Word>)
    requires RunsNext(prog, c, PReturn(CallSelf(args), w))
    ensures forall vals :: Step(prog, c).status == Exited(Again(vals)) <==> args(c.store) == Some(vals)
    ensures Step(prog, c).status == Failed(EvalFault) <==> args(c.store).None?
    ensures Step(prog, c).status != Running
  {
    assert Step(prog, c) == StepReturn(c.(pc := c.pc + 1), CallSelf(args));
  }

  // ---------------------------------------------------------------- RETURN, whole runs

  lemma NextTurn(prog: seq<Phrase>, store: Store, n: nat)
    ensures Run(prog, Initial(store), n + 1) == Step(prog, Run(prog, Initial(store), n))
  {
    hide Step;
    RunAdd(prog, Initial(store), n, 1);
    RunOne(prog, Run(prog, Initial(store), n));
  }

  /**
    A flat program that comes to a RETURN after any number of turns returns what the list has there,
    and the structured program means to return that.
   */
  lemma RunReturnsList(s: Stmt, store: Store, n: nat, list: ListExpr, w: seq<Word>, vals: seq<Value>)
    requires RunsNext(Flatten(s), Run(Flatten(s), Initial(store), n), PReturn(Values(list), w))
    ensures var c := Run(Flatten(s), Initial(store), n);
      && (HaltsWith(Flatten(s), store, n + 1, Exited(Answer(vals))) <==> list(c.store) == Some(vals))
      && (list(c.store) == Some(vals) <==>
            exists fuel: nat :: Meaning(fuel, s, store).Returned? && Meaning(fuel, s, store).exit == Answer(vals))
  {
    hide Step, Run, Meaning, Flatten;
    var c := Run(Flatten(s), Initial(store), n);
    NextTurn(Flatten(s), store, n);
    ReturnTurn(Flatten(s), c, list, w);
    FlatRunReturnsIffMeaning(s, store, Answer(vals));
    if m: nat :| HaltsWith(Flatten(s), store, m, Exited(Answer(vals))) {
      OneEnd(Flatten(s), Initial(store), n + 1, m);
    }
  }

  /** And one that comes to a call of the function to itself starts over with its arguments. */
  lemma RunCallsAgain(s: Stmt, store: Store, n: nat, args: ListExpr, w: seq<Word>, vals: seq<Value>)
    requires RunsNext(Flatten(s), Run(Flatten(s), Initial(store), n), PReturn(CallSelf(args), w))
    ensures var c := Run(Flatten(s), Initial(store), n);
      && (HaltsWith(Flatten(s), store, n + 1, Exited(Again(vals))) <==> args(c.store) == Some(vals))
      && (args(c.store) == Some(vals) <==>
            exists fuel: nat :: Meaning(fuel, s, store).Returned? && Meaning(fuel, s, store).exit == Again(vals))
  {
    hide Step, Run, Meaning, Flatten;
    var c := Run(Flatten(s), Initial(store), n);
    NextTurn(Flatten(s), store, n);
    SelfCallTurn(Flatten(s), c, args, w);
    FlatRunReturnsIffMeaning(s, store, Again(vals));
    if m: nat :| HaltsWith(Flatten(s), store, m, Exited(Again(vals))) {
      OneEnd(Flatten(s), Initial(store), n + 1, m);
    }
  }

  // ---------------------------------------------------------------- CASE, one turn

  /** The guard is true of the value of its CASE. OR is neither this nor the next. */
  ghost predicate Holds(g: Guard, x: Value, store: Store) {
    match g
    case Is(e) => e(store) == Some(x) && !x.ListV?
    case Has(cond) => cond(store) == Some(true)
    case Contains(p) => p(x, store) == Some(true)
    case Or => false
  }

  /** The guard is false of it. */
  ghost predicate Fails(g: Guard, x: Value, store: Store) {
    match g
    case Is(e) => e(store).Some? && e(store).value != x && !(x.ListV? && e(store).value.ListV?)
    case Has(cond) => cond(store) == Some(false)
    case Contains(p) => p(x, store) == Some(false)
    case Or => false
  }

  /** The next turn runs a clause of an open CASE none of whose clauses has run. */
  ghost predicate AtClause(prog: seq<Phrase>, c: Config, g: Guard, w: seq<Word>) {
    && RunsNext(prog, c, PClause(g, w)) && 0 <= c.wccount < |c.wc| && !c.wc[c.wccount].performed
    && |c.lastConstruct| > 0 && c.lastConstruct[|c.lastConstruct| - 1] == CCase
  }

  /** The turn goes into the body of the clause, and has noted that a clause has run. */
  ghost predicate Entered(prog: seq<Phrase>, c: Config) {
    var c1 := Step(prog, c);
    c1.status == Running && c1.pc == c.pc + 1 && 0 <= c1.wccount < |c1.wc| && c1.wc[c1.wccount].performed
  }

  /** A clause is entered if and only if its guard is true of the value; it fails exactly when the guard cannot tell. */
  lemma ClauseEntered(prog: seq<Phrase>, c: Config, g: Guard, w: seq<Word>)
    requires AtClause(prog, c, g, w) && !g.Or?
    ensures Entered(prog, c) <==> Holds(g, c.wc[c.wccount].value, c.store)
    ensures Step(prog, c).status == Failed(EvalFault)
       <==> !Holds(g, c.wc[c.wccount].value, c.store) && !Fails(g, c.wc[c.wccount].value, c.store)
    ensures Step(prog, c).store == c.store
  {
    hide Scan, NextClause;
    assert Step(prog, c) == StepClause(prog, c.(pc := c.pc + 1), g);
  }

  // ---------------------------------------------------------------- CASE, what it means

  function Count(cls: Clauses): nat { if cls.EndCase? then 0 else 1 + Count(cls.rest) }

  /** The clauses from number k on. */
  function From(cls: Clauses, k: nat): (r: Clauses)
    requires k < Count(cls)
    ensures r.Clause?
    decreases k
  {
    if k == 0 then cls else From(cls.rest, k - 1)
  }

  /** Clause k is the first whose guard is true of the value, those before it being false of it. */
  ghost predicate FirstTrue(cls: Clauses, k: nat, x: Value, store: Store)
    requires k < Count(cls)
  {
    Holds(From(cls, k).guard, x, store) && forall j :: 0 <= j < k ==> Fails(From(cls, j).guard, x, store)
  }

  ghost predicate NoneTrue(cls: Clauses, x: Value, store: Store) {
    forall j :: 0 <= j < Count(cls) ==> Fails(From(cls, j).guard, x, store)
  }

  /** What a CASE comes to when the body of one clause has come to r. */
  function AfterBody(r: Result): Result { if r.Broken? then Normal(r.s) else r }

  function AfterClause(t: Outcome): Outcome { if t.Brk? then Ok(t.store) else t }

  lemma LaterClause(cls: Clauses, k: nat)
    requires 0 < k < Count(cls)
    ensures k - 1 < Count(cls.rest) && From(cls, k) == From(cls.rest, k - 1)
  {
  }

  /** The first clause whose guard is true is the one that runs, by the interpreter and by the textbook. */
  lemma {:induction false} FirstTrueRuns(fuel: nat, last: seq<Construct>, x: Value, cls: Clauses, k: nat, st: State)
    requires 0 < |last| && last[|last| - 1] == CCase && k < Count(cls) && FirstTrue(cls, k, x, st.store)
    ensures ExecClauses(fuel, last, x, false, cls, st) == AfterBody(Exec(fuel, last, From(cls, k).body, st))
    ensures EvalClauses(fuel, x, cls, st.store) == AfterClause(Eval(fuel, From(cls, k).body, st.store))
    decreases k
  {
    hide Exec, Eval;
    if k == 0 {
      ClauseRuns(fuel, last, x, cls, st);
    } else {
      assert Fails(From(cls, 0).guard, x, st.store);
      ClausePasses(fuel, last, x, cls, st);
      LaterClause(cls, k);
      forall j | 0 <= j < k - 1
        ensures Fails(From(cls.rest, j).guard, x, st.store)
      {
        LaterClause(cls, j + 1);
      }
      FirstTrueRuns(fuel, last, x, cls.rest, k - 1, st);
    }
  }

  lemma ClauseRuns(fuel: nat, last: seq<Construct>, x: Value, cls: Clauses, st: State)
    requires 0 < |last| && last[|last| - 1] == CCase && cls.Clause? && Holds(cls.guard, x, st.store)
    ensures ExecClauses(fuel, last, x, false, cls, st) == AfterBody(Exec(fuel, last, cls.body, st))
    ensures EvalClauses(fuel, x, cls, st.store) == AfterClause(Eval(fuel, cls.body, st.store))
  {
    hide Exec, Eval;
    var r := Exec(fuel, last, cls.body, st);
    if r.Normal? {
      assert ExecClauses(fuel, last, x, true, cls.rest, r.s) == Normal(r.s);
    }
  }

  lemma ClausePasses(fuel: nat, last: seq<Construct>, x: Value, cls: Clauses, st: State)
    requires 0 < |last| && last[|last| - 1] == CCase && cls.Clause? && Fails(cls.guard, x, st.store)
    ensures ExecClauses(fuel, last, x, false, cls, st) == ExecClauses(fuel, last, x, false, cls.rest, st)
    ensures EvalClauses(fuel, x, cls, st.store) == EvalClauses(fuel, x, cls.rest, st.store)
  {
    hide Exec, Eval;
  }

  /** With no guard true, nothing runs. */
  lemma {:induction false} NoneTrueRunsNone(fuel: nat, last: seq<Construct>, x: Value, cls: Clauses, st: State)
    requires 0 < |last| && last[|last| - 1] == CCase && NoneTrue(cls, x, st.store)
    ensures ExecClauses(fuel, last, x, false, cls, st) == Normal(st)
    ensures EvalClauses(fuel, x, cls, st.store) == Ok(st.store)
    decreases cls
  {
    hide Exec, Eval;
    if cls.Clause? {
      assert Fails(From(cls, 0).guard, x, st.store);
      ClausePasses(fuel, last, x, cls, st);
      forall j | 0 <= j < Count(cls.rest)
        ensures Fails(From(cls.rest, j).guard, x, st.store)
      {
        LaterClause(cls, j + 1);
      }
      NoneTrueRunsNone(fuel, last, x, cls.rest, st);
    }
  }

  // ---------------------------------------------------------------- CASE, the flat run

  /** Body k, run inside its CASE, ends with these variables. */
  ghost predicate BodyLeaves(fuel: nat, body: Stmt, store: Store, store': Store) {
    var r := AfterBody(Exec(fuel, [CCase], body, State(store, [])));
    r.Normal? && r.s.store == store'
  }

  lemma CaseMeans(fuel: nat, s: Stmt, store: Store, x: Value)
    requires s.Case? && s.value(store) == Some(x)
    ensures Meaning(fuel, s, store) == ExecClauses(fuel, [CCase], x, false, s.clauses, State(store, []))
  {
    assert [] + [CCase] == [CCase];
  }

  /**
    The flat program of a CASE ends with given variables if and only if the body of the first clause
    whose guard is true of the value does: for IS clauses the first that equals it, for HAS clauses
    the first that is true.
   */
  lemma FlatCaseRunsFirstTrue(s: Stmt, store: Store, x: Value, k: nat, store': Store)
    requires s.Case? && s.value(store) == Some(x) && k < Count(s.clauses) && FirstTrue(s.clauses, k, x, store)
    ensures (exists n: nat :: EndsWith(Flatten(s), store, n, Done, store'))
       <==> (exists fuel: nat :: BodyLeaves(fuel, From(s.clauses, k).body, store, store'))
  {
    hide Exec, Flatten, EndsWith, Meaning, FirstTrue;
    FlatRunIffMeaning(s, store, store');
    forall fuel: nat
      ensures Meaning(fuel, s, store) == AfterBody(Exec(fuel, [CCase], From(s.clauses, k).body, State(store, [])))
    {
      CaseMeans(fuel, s, store, x);
      FirstTrueRuns(fuel, [CCase], x, s.clauses, k, State(store, []));
    }
    if fuel: nat :| Meaning(fuel, s, store).Normal? && Meaning(fuel, s, store).s.store == store' {
      assert BodyLeaves(fuel, From(s.clauses, k).body, store, store');
    }
    if fuel: nat :| BodyLeaves(fuel, From(s.clauses, k).body, store, store') {
      assert Meaning(fuel, s, store).Normal? && Meaning(fuel, s, store).s.store == store';
    }
  }

  /** And with no guard true of the value it ends, with the variables as they were. */
  lemma FlatCaseRunsNone(s: Stmt, store: Store, x: Value, store': Store)
    requires s.Case? && s.value(store) == Some(x) && NoneTrue(s.clauses, x, store)
    ensures (exists n: nat :: EndsWith(Flatten(s), store, n, Done, store')) <==> store' == store
  {
    hide Exec, Flatten, EndsWith, Meaning, NoneTrue;
    FlatRunIffMeaning(s, store, store');
    forall fuel: nat
      ensures Meaning(fuel, s, store) == Normal(State(store, []))
    {
      CaseMeans(fuel, s, store, x);
      NoneTrueRunsNone(fuel, [CCase], x, s.clauses, State(store, []));
    }
    assert Meaning(0, s, store) == Normal(State(store, []));
  }
}
