/**
  Starting over from inside a loop or CASE: the constructs stay on the stack while the depth
  starts again, so the next pass takes the outermost of them for its own.
 */
module Reentry {
  import opened Phrases
  import opened Machine
  import opened Structured
  import opened WholeRuns
  import opened TailCalls

  /** Started over from c, the body comes to what it means, from any variables. */
  ghost predicate KeepsMeaning(c: Config, s: Stmt) {
    forall store: Store, fuel: nat :: !Meaning(fuel, s, store).OutOfFuel? ==>
      exists n: nat :: EndsAs(Meaning(fuel, s, store), Run(Flatten(s), Reentered(c, store), n))
  }

  // ---------------------------------------------------------------- bodies that show the stack

  function Zero(): ValueExpr { (s: Store) => Some(IntV(0)) }

  function One(): IntExpr { (s: Store) => Some(1) }

  function SetX(): Action { (s: Store) => Some(s["x" := IntV(1)]) }

  /** CASE 0 / OR / BREAK / ENDCASE / x = 1 */
  function CaseThenSet(): Stmt {
    Seq(Case(Zero(), [], Clause(Or, [], Break(None, []), EndCase)), Act(SetX(), []))
  }

  /** FOR i = 1 TO 1 / BREAK / ENDFOR / x = 1 */
  function LoopThenSet(): Stmt {
    Seq(For("i", One(), One(), One(), [], Break(None, [])), Act(SetX(), []))
  }

  /** A body whose meaning is lost when k is at the bottom of the stack. */
  function CounterBody(k: Construct): Stmt { if k == CCase then LoopThenSet() else CaseThenSet() }

  lemma CounterMeans(k: Construct)
    ensures var r := Meaning(0, CounterBody(k), map[]); r.Normal? && "x" in r.s.store
  {
    if k == CCase {
      LoopMeans();
    } else {
      CaseMeans();
    }
  }

  lemma CaseMeans()
    ensures var r := Meaning(0, CaseThenSet(), map[]); r.Normal? && "x" in r.s.store
  {
    var st := State(map[], []);
    BrokenCase(st);
    assert Exec(0, [], CaseThenSet().first, st) == Normal(st);
  }

  /** CASE 0 / OR / BREAK / ENDCASE does nothing. */
  lemma BrokenCase(st: State)
    ensures Exec(0, [], Case(Zero(), [], Clause(Or, [], Break(None, []), EndCase)), st) == Normal(st)
  {
    var cls := Clause(Or, [], Break(None, []), EndCase);
    BrokenClause(st);
    assert [] + [CCase] == [CCase];
  }

  lemma BrokenClause(st: State)
    ensures ExecClauses(0, [CCase], IntV(0), false, Clause(Or, [], Break(None, []), EndCase), st) == Normal(st)
  {
    assert Exec(0, [CCase], Break(None, []), st) == Broken(st);
  }

  lemma LoopMeans()
    ensures var r := Meaning(0, LoopThenSet(), map[]); r.Normal? && "x" in r.s.store
  {
    var st := State(map["i" := IntV(1)], []);
    assert [] + [CFor] == [CFor];
    assert Exec(0, [CFor], Break(None, []), st) == Broken(st);
    assert map[]["i" := IntV(1)] == st.store;
  }

  lemma CaseCode()
    ensures Flatten(CaseThenSet()) ==
      [PCase(Zero(), []), PClause(Or, []), PBreak(None, []), PEndcase(Keyword(KEndcase)), PAct(SetX(), [])]
  {
    var cls := Clause(Or, [], Break(None, []), EndCase);
    assert FlattenClauses(cls) == [PClause(Or, []), PBreak(None, []), PEndcase(Keyword(KEndcase))];
    assert Flatten(CaseThenSet().first) ==
      [PCase(Zero(), []), PClause(Or, []), PBreak(None, []), PEndcase(Keyword(KEndcase))];
  }

  lemma LoopCode()
    ensures Flatten(LoopThenSet()) ==
      [PFor("i", One(), One(), One(), []), PBreak(None, []), PEndfor(Keyword(KEndfor)), PAct(SetX(), [])]
  {
    assert Flatten(LoopThenSet().first) ==
      [PFor("i", One(), One(), One(), []), PBreak(None, []), PEndfor(Keyword(KEndfor))];
  }

  // ---------------------------------------------------------------- passing over the rest

  /** A BREAK that looks for a closer the body has none of passes over everything; the call ends or panics. */
  lemma {:induction false} PassesOver(prog: seq<Phrase>, c: Config, k: Construct) returns (n: nat)
    requires c.status == Running && c.breakIn == Some(k)
    requires forall i :: 0 <= i < |prog| ==> Skipped(Some(k), prog[i].Kind())
    ensures var final := Run(prog, c, n); final.status != Running && final.store == c.store
    decreases |prog| - c.pc
  {
    hide Dispatch;
    var c1 := Step(prog, c);
    if c.pc + 1 >= |prog| || c.pc + 1 < 0 {
      n := 1;
      RunOne(prog, c);
    } else {
      var m := PassesOver(prog, c1, k);
      n := 1 + m;
    }
  }

  lemma CaseEndFound(prog: seq<Phrase>)
    requires |prog| >= 4 && prog[0].PCase? && prog[1].PClause? && prog[2].PBreak? && prog[3].PEndcase?
    ensures Scan(prog, 0, 0, ENDCASE_SEARCH) == At(3)
  {
    assert Scan(prog, 3, 1, ENDCASE_SEARCH) == At(3);
    assert Scan(prog, 2, 1, ENDCASE_SEARCH) == At(3);
    assert Scan(prog, 1, 1, ENDCASE_SEARCH) == At(3);
  }

  lemma ForEndFound(prog: seq<Phrase>)
    requires |prog| >= 3 && prog[0].PFor? && prog[1].PBreak? && prog[2].PEndfor?
    ensures Scan(prog, 0, 0, ENDFOR_SEARCH) == At(2)
  {
    assert Scan(prog, 2, 1, ENDFOR_SEARCH) == At(2);
    assert Scan(prog, 1, 1, ENDFOR_SEARCH) == At(2);
  }

  /** Two turns into a CASE with an OR clause: the CASE is open, on top of whatever the stack held. */
  lemma IntoCase(prog: seq<Phrase>, c: Config)
    requires |prog| >= 4 && prog[0] == PCase(Zero(), []) && prog[1] == PClause(Or, []) && prog[2].PBreak?
    requires prog[3].PEndcase?
    requires c.status == Running && c.pc == -1 && Tabled(c) && c.depth == 0 && c.wccount == 0
    ensures Run(prog, c, 2) ==
      c.(pc := 1, wccount := 1, wc := c.wc[1 := Carton(3, IntV(0), false, true)], depth := 1,
         lastConstruct := c.lastConstruct + [CCase])
  {
    hide Scan, Run, NextClause;
    CaseEndFound(prog);
    var c1 := Step(prog, c);
    assert c1 == StepCase(prog, c.(pc := 0), Zero());
    var c2 := Step(prog, c1);
    assert c2 == StepClause(prog, c1.(pc := 1), Or);
    RunAdd(prog, c, 1, 1);
    RunOne(prog, c);
    RunOne(prog, c1);
  }

  lemma CaseOnly(k: Construct)
    requires k != CCase
    ensures var prog := Flatten(CaseThenSet()); forall i :: 0 <= i < |prog| ==> Skipped(Some(k), prog[i].Kind())
  {
    CaseCode();
  }

  lemma LoopOnly()
    ensures var prog := Flatten(LoopThenSet()); forall i :: 0 <= i < |prog| ==> Skipped(Some(CCase), prog[i].Kind())
  {
    LoopCode();
  }

  /** With a loop at the bottom of the stack the BREAK of a CASE takes it for its own. */
  lemma CaseLoses(c: Config) returns (n: nat)
    requires Tabled(c) && |c.lastConstruct| > 0 && c.lastConstruct[0] != CCase
    ensures var final := Run(Flatten(CaseThenSet()), Reentered(c, map[]), n);
      final.status != Running && "x" !in final.store
  {
    hide Run, Flatten, Skipped, Phrase.Kind, Dispatch;
    CaseCode();
    var prog, k, start := Flatten(CaseThenSet()), c.lastConstruct[0], Reentered(c, map[]);
    IntoCase(prog, start);
    var c2 := Run(prog, start, 2);
    var c3 := Step(prog, c2);
    BreakTakesBottom(prog, c2, 2);
    CaseOnly(k);
    var m := PassesOver(prog, c3, k);
    n := 2 + (1 + m);
    RunAdd(prog, start, 2, 1 + m);
    RunAdd(prog, c2, 1, m);
    RunOne(prog, c2);
  }

  /** A BREAK one construct deep looks at the bottom of the stack. */
  lemma BreakTakesBottom(prog: seq<Phrase>, c: Config, i: nat)
    requires i < |prog| && prog[i] == PBreak(None, []) && c.status == Running && c.pc == i - 1 && c.breakIn == None
    requires c.depth == 1 && |c.lastConstruct| > 0 && |c.loops| == MAX_LOOPS && 0 <= c.wccount < |c.wc|
    ensures Step(prog, c) == c.(
      pc := match c.lastConstruct[0]
            case CCase => c.wc[c.wccount].endLine - 1
            case CWhile => c.loops[1].whileContinueAt - 1
            case _ => c.loops[1].forEndPos - 1,
      breakIn := Some(c.lastConstruct[0]))
  {
    assert Step(prog, c) == StepBreak(c.(pc := i), None);
  }

  /** With a CASE at the bottom of the stack the BREAK of a loop takes it for its own. */
  lemma LoopLoses(c: Config) returns (n: nat)
    requires Tabled(c) && |c.lastConstruct| > 0 && c.lastConstruct[0] == CCase
    ensures var final := Run(Flatten(LoopThenSet()), Reentered(c, map[]), n);
      final.status != Running && "x" !in final.store
  {
    hide Run, Flatten, Scan, Phrase.Kind, Dispatch, Skipped, Step;
    LoopCode();
    var prog, start := Flatten(LoopThenSet()), Reentered(c, map[]);
    IntoLoop(prog, start);
    var c1 := Step(prog, start);
    BreakTakesBottom(prog, c1, 1);
    var c2 := Step(prog, c1);
    LoopOnly();
    var m := PassesOver(prog, c2, CCase);
    n := 1 + (1 + m);
    RunAdd(prog, start, 1, 1 + m);
    RunAdd(prog, c1, 1, m);
    RunOne(prog, start);
    RunOne(prog, c1);
  }

  /** One turn into FOR i = 1 TO 1: the loop is open, on top of whatever the stack held. */
  lemma IntoLoop(prog: seq<Phrase>, c: Config)
    requires |prog| >= 3 && prog[0] == PFor("i", One(), One(), One(), []) && prog[1].PBreak? && prog[2].PEndfor?
    requires c.status == Running && c.pc == -1 && Tabled(c) && c.depth == 0
    ensures var c1 := Step(prog, c);
      && c1.status == Running && c1.pc == 0 && c1.depth == 1 && Tabled(c1) && c1.wccount == c.wccount
      && c1.lastConstruct == c.lastConstruct + [CFor] && c1.store == c.store["i" := IntV(1)]
  {
    hide Scan;
    ForEndFound(prog);
    assert Step(prog, c) == StepFor(prog, c.(pc := 0), "i", One(), One(), One());
  }

  lemma CounterLoses(c: Config) returns (n: nat)
    requires Tabled(c) && |c.lastConstruct| > 0
    ensures var final := Run(Flatten(CounterBody(c.lastConstruct[0])), Reentered(c, map[]), n);
      final.status != Running && "x" !in final.store
  {
    hide Run, Flatten;
    if c.lastConstruct[0] == CCase {
      n := LoopLoses(c);
    } else {
      n := CaseLoses(c);
    }
  }

  // ---------------------------------------------------------------- the exact condition

  /**
    Starting over keeps the meaning of every body exactly when it starts from outside every loop
    and CASE: for each kind of construct at the bottom of the stack there is a body that loses it.
   */
  lemma ReentryKeepsMeaningIff(c: Config)
    requires Tabled(c)
    ensures (forall s: Stmt :: KeepsMeaning(c, s)) <==> c.lastConstruct == []
  {
    hide Run, Flatten, Meaning, KeepsMeaning, EndsAs;
    if c.lastConstruct == [] {
      forall s: Stmt
        ensures KeepsMeaning(c, s)
      {
        OutsideKeeps(c, s);
      }
    } else {
      CounterNotKept(c);
    }
  }

  lemma OutsideKeeps(c: Config, s: Stmt)
    requires Outside(c)
    ensures KeepsMeaning(c, s)
  {
    hide Run, Flatten, Meaning, EndsAs;
    forall store: Store, fuel: nat | !Meaning(fuel, s, store).OutOfFuel?
      ensures exists n: nat :: EndsAs(Meaning(fuel, s, store), Run(Flatten(s), Reentered(c, store), n))
    {
      var n := PassFollowsMeaning(s, c, store, fuel);
    }
  }

  lemma CounterNotKept(c: Config)
    requires Tabled(c) && |c.lastConstruct| > 0
    ensures !KeepsMeaning(c, CounterBody(c.lastConstruct[0]))
  {
    hide Run, Flatten, Meaning, CounterBody;
    var s := CounterBody(c.lastConstruct[0]);
    CounterMeans(c.lastConstruct[0]);
    var m := CounterLoses(c);
    forall n: nat
      ensures !EndsAs(Meaning(0, s, map[]), Run(Flatten(s), Reentered(c, map[]), n))
    {
      if Run(Flatten(s), Reentered(c, map[]), n).status != Running {
        OneEnd(Flatten(s), Reentered(c, map[]), n, m);
      }
    }
  }
}
