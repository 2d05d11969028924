/**
  A function that returns a call of itself is not called again: the loop starts over in the same
  call, with its tables, its construct stack, its IF flags and its variables as they were left.
  When that cannot be told from a real call, and when it can.
 */
module TailCalls {
  import opened Phrases
  import opened Machine
  import opened Structured
  import opened Layout
  import opened Relation
  import opened Simulation
  import opened WholeRuns

  /** A function: its parameters and its body, RETURN statements anywhere in it. */
  datatype Function = Function(params: seq<string>, body: Stmt)

  /** The parameters take their values, over whatever variables there are. */
  function Bind(params: seq<string>, vals: seq<Value>, store: Store): Store
    decreases |params|
  {
    if params == [] || vals == [] then store else Bind(params[1..], vals[1..], store[params[0] := vals[0]])
  }

  /** The state at the label tco_reentry: depth, wccount, pc and the IF depth start again, the rest stays. */
  function Reentered(c: Config, store: Store): Config {
    c.(status := Running, pc := -1, store := store, depth := 0, wccount := 0, ifDepth := 0)
  }

  /** Every parameter gets its own value, the last of a name counting, and no other variable changes. */
  lemma {:induction false} BindsEach(params: seq<string>, vals: seq<Value>, store: Store)
    requires |vals| == |params|
    ensures forall i :: 0 <= i < |params| && (forall j :: i < j < |params| ==> params[j] != params[i]) ==>
      params[i] in Bind(params, vals, store) && Bind(params, vals, store)[params[i]] == vals[i]
    ensures forall x :: x !in params ==>
      (x in Bind(params, vals, store) <==> x in store) && (x in store ==> Bind(params, vals, store)[x] == store[x])
    decreases |params|
  {
    if params != [] {
      BindsEach(params[1..], vals[1..], store[params[0] := vals[0]]);
      forall i | 0 <= i < |params| && (forall j :: i < j < |params| ==> params[j] != params[i])
        ensures params[i] in Bind(params, vals, store) && Bind(params, vals, store)[params[i]] == vals[i]
      {
        if i == 0 {
          assert params[0] !in params[1..];
        } else {
          assert forall j :: i - 1 < j < |params[1..]| ==> params[1..][j] == params[j + 1];
          assert params[1..][i - 1] == params[i] && vals[1..][i - 1] == vals[i];
        }
      }
    }
  }

  // ---------------------------------------------------------------- stale IF flags

  /** The same state, but for IF flags above the IF depth that an earlier pass has left. */
  ghost predicate Stale(a: Config, b: Config) {
    && a == b.(ifMatched := a.ifMatched)
    && (b.status == Running ==> b.ifMatched <= a.ifMatched && b.ifDepth == |b.ifMatched|)
  }

  lemma MatchedStale(a: Config, b: Config, x: bool)
    requires Stale(a, b) && b.status == Running && b.ifDepth > 0
    ensures Stale(SetMatched(a, x), SetMatched(b, x)) && AlreadyMatched(a) == AlreadyMatched(b)
  {
  }

  lemma IfStale(prog: seq<Phrase>, a: Config, b: Config, cond: Cond)
    requires Stale(a, b) && b.status == Running && 0 <= b.pc < |prog|
    ensures Stale(StepIf(prog, a, cond), StepIf(prog, b, cond))
  {
    hide Scan;
  }

  lemma ElseIfStale(prog: seq<Phrase>, a: Config, b: Config, cond: Cond)
    requires Stale(a, b) && b.status == Running && 0 <= b.pc < |prog|
    ensures Stale(StepElseIf(prog, a, cond), StepElseIf(prog, b, cond))
  {
    hide Scan, SetMatched, AlreadyMatched;
    if b.ifDepth > 0 {
      MatchedStale(a, b, true);
    }
  }

  lemma ElseStale(prog: seq<Phrase>, a: Config, b: Config)
    requires Stale(a, b) && b.status == Running && 0 <= b.pc < |prog|
    ensures Stale(StepElse(prog, a), StepElse(prog, b))
  {
    hide Scan;
  }

  lemma EndifStale(a: Config, b: Config)
    requires Stale(a, b) && b.status == Running
    ensures Stale(StepEndif(a), StepEndif(b))
  {
  }

  lemma WhileStale(prog: seq<Phrase>, a: Config, b: Config, cond: Cond)
    requires Stale(a, b) && b.status == Running && 0 <= b.pc < |prog|
    ensures Stale(StepWhile(prog, a, cond), StepWhile(prog, b, cond))
  {
    hide Scan;
  }

  lemma EndwhileStale(a: Config, b: Config)
    requires Stale(a, b) && b.status == Running
    ensures Stale(StepEndwhile(a), StepEndwhile(b))
  {
  }

  lemma ForStale(prog: seq<Phrase>, a: Config, b: Config, v: string, start: IntExpr, end: IntExpr, step: IntExpr)
    requires Stale(a, b) && b.status == Running && 0 <= b.pc < |prog|
    ensures Stale(StepFor(prog, a, v, start, end, step), StepFor(prog, b, v, start, end, step))
  {
    hide Scan;
  }

  lemma ForeachStale(prog: seq<Phrase>, a: Config, b: Config, v: string, list: ListExpr)
    requires Stale(a, b) && b.status == Running && 0 <= b.pc < |prog|
    ensures Stale(StepForeach(prog, a, v, list), StepForeach(prog, b, v, list))
  {
    hide Scan;
  }

  lemma EndforBreakStale(prog: seq<Phrase>, a: Config, b: Config)
    requires Stale(a, b) && b.status == Running && 0 <= b.pc < |prog|
    requires b.breakIn == Some(CFor) || b.breakIn == Some(CForeach)
    ensures Stale(StepEndfor(prog, a), StepEndfor(prog, b))
  {
    hide ForPass, ForeachPass, UsedInside;
  }

  lemma EndforPassStale(prog: seq<Phrase>, a: Config, b: Config)
    requires Stale(a, b) && b.status == Running && 0 <= b.pc < |prog|
    requires b.breakIn != Some(CFor) && b.breakIn != Some(CForeach)
    ensures Stale(StepEndfor(prog, a), StepEndfor(prog, b))
  {
    hide ForPass, ForeachPass, UsedInside;
  }

  lemma EndforStale(prog: seq<Phrase>, a: Config, b: Config)
    requires Stale(a, b) && b.status == Running && 0 <= b.pc < |prog|
    ensures Stale(StepEndfor(prog, a), StepEndfor(prog, b))
  {
    hide StepEndfor;
    if b.breakIn == Some(CFor) || b.breakIn == Some(CForeach) {
      EndforBreakStale(prog, a, b);
    } else {
      EndforPassStale(prog, a, b);
    }
  }

  lemma CaseStale(prog: seq<Phrase>, a: Config, b: Config, value: ValueExpr)
    requires Stale(a, b) && b.status == Running && 0 <= b.pc < |prog|
    ensures Stale(StepCase(prog, a, value), StepCase(prog, b, value))
  {
    hide Scan;
  }

  lemma ClauseStale(prog: seq<Phrase>, a: Config, b: Config, guard: Guard)
    requires Stale(a, b) && b.status == Running && 0 <= b.pc < |prog|
    ensures Stale(StepClause(prog, a, guard), StepClause(prog, b, guard))
  {
    hide NextClause, Matches;
  }

  lemma EndcaseStale(a: Config, b: Config)
    requires Stale(a, b) && b.status == Running
    ensures Stale(StepEndcase(a), StepEndcase(b))
  {
  }

  lemma BreakStale(a: Config, b: Config, guard: Option<Cond>)
    requires Stale(a, b) && b.status == Running
    ensures Stale(StepBreak(a, guard), StepBreak(b, guard))
  {
  }

  lemma ContinueStale(a: Config, b: Config, guard: Option<Cond>)
    requires Stale(a, b) && b.status == Running
    ensures Stale(StepContinue(a, guard), StepContinue(b, guard))
  {
  }

  lemma ReturnStale(a: Config, b: Config, ret: Ret)
    requires Stale(a, b) && b.status == Running
    ensures Stale(StepReturn(a, ret), StepReturn(b, ret))
  {
    hide ExitOf;
  }

  lemma DispatchStale(prog: seq<Phrase>, a: Config, b: Config)
    requires Stale(a, b) && b.status == Running && 0 <= b.pc < |prog|
    ensures Stale(Dispatch(prog, a), Dispatch(prog, b))
  {
    hide StepIf, StepElseIf, StepElse, StepEndif, StepWhile, StepEndwhile, StepFor, StepForeach, StepEndfor, StepCase,
      StepClause, StepEndcase, StepBreak, StepContinue, StepReturn;
    match prog[b.pc]
    case PAct(_, _) =>
    case PIf(cond, _) => IfStale(prog, a, b, cond);
    case PElseIf(cond, _) => ElseIfStale(prog, a, b, cond);
    case PElse(_) => ElseStale(prog, a, b);
    case PEndif(_) => EndifStale(a, b);
    case PWhile(cond, _) => WhileStale(prog, a, b, cond);
    case PEndwhile(_) => EndwhileStale(a, b);
    case PFor(v, start, end, step, _) => ForStale(prog, a, b, v, start, end, step);
    case PForeach(v, list, _) => ForeachStale(prog, a, b, v, list);
    case PEndfor(_) => EndforStale(prog, a, b);
    case PCase(value, _) => CaseStale(prog, a, b, value);
    case PClause(guard, _) => ClauseStale(prog, a, b, guard);
    case PEndcase(_) => EndcaseStale(a, b);
    case PBreak(guard, _) => BreakStale(a, b, guard);
    case PContinue(guard, _) => ContinueStale(a, b, guard);
    case PReturn(ret, _) => ReturnStale(a, b, ret);
  }

  /** No turn of the loop ever looks at a flag above the IF depth. */
  lemma StepStale(prog: seq<Phrase>, a: Config, b: Config)
    requires Stale(a, b)
    ensures Stale(Step(prog, a), Step(prog, b))
  {
    hide Dispatch;
    if b.status == Running && 0 <= b.pc + 1 < |prog| {
      DispatchStale(prog, a.(pc := a.pc + 1), b.(pc := b.pc + 1));
    }
  }

  lemma {:induction false} RunStale(prog: seq<Phrase>, a: Config, b: Config, n: nat)
    requires Stale(a, b)
    ensures Stale(Run(prog, a, n), Run(prog, b, n))
    decreases n
  {
    hide Step;
    if n > 0 {
      StepStale(prog, a, b);
      RunStale(prog, Step(prog, a), Step(prog, b), n - 1);
    }
  }

  // ---------------------------------------------------------------- where tail calls stand

  /** No call of the function to itself is returned from s. */
  predicate NoTails(s: Stmt)
    decreases s
  {
    match s
    case Seq(a, b) => NoTails(a) && NoTails(b)
    case If(_, _, thn, tail) => NoTails(thn) && NoTailsIn(tail)
    case While(_, _, body) => NoTails(body)
    case For(_, _, _, _, _, body) => NoTails(body)
    case Foreach(_, _, _, body) => NoTails(body)
    case Case(_, _, cls) => NoTailsAmong(cls)
    case Return(ret, _) => !ret.CallSelf?
    case _ => true
  }

  predicate NoTailsIn(t: Tail)
    decreases t
  {
    match t
    case EndIf => true
    case ElseBlock(els) => NoTails(els)
    case ElseIf(_, _, thn, tail) => NoTails(thn) && NoTailsIn(tail)
  }

  predicate NoTailsAmong(cls: Clauses)
    decreases cls
  {
    match cls
    case EndCase => true
    case Clause(_, _, body, rest) => NoTails(body) && NoTailsAmong(rest)
  }

  /** Every call of the function to itself is returned from outside the loops and CASEs of s. */
  predicate TailsOutside(s: Stmt)
    decreases s
  {
    match s
    case Seq(a, b) => TailsOutside(a) && TailsOutside(b)
    case If(_, _, thn, tail) => TailsOutside(thn) && TailsOutsideIn(tail)
    case While(_, _, body) => NoTails(body)
    case For(_, _, _, _, _, body) => NoTails(body)
    case Foreach(_, _, _, body) => NoTails(body)
    case Case(_, _, cls) => NoTailsAmong(cls)
    case _ => true
  }

  predicate TailsOutsideIn(t: Tail)
    decreases t
  {
    match t
    case EndIf => true
    case ElseBlock(els) => TailsOutside(els)
    case ElseIf(_, _, thn, tail) => TailsOutside(thn) && TailsOutsideIn(tail)
  }

  /**
    A result that starts the function over comes from a statement with tail calls, and from the constructs
    given if they are outside.
   */
  ghost predicate TailAsSaid(r: Result, last: seq<Construct>, none: bool, outside: bool) {
    r.Returned? && r.exit.Again? ==> !none && (outside ==> r.at == last)
  }

  lemma {:induction false} TailPlace(fuel: nat, last: seq<Construct>, s: Stmt, st: State)
    ensures TailAsSaid(Exec(fuel, last, s, st), last, NoTails(s), TailsOutside(s))
    decreases fuel, s, 1
  {
    hide ForPass, ForeachPass, Mentions, Flatten, Beyond, KeyVar, ForLoop, ForeachLoop, WhileLoop, ExecClauses,
      ReachTail, JumpTail;
    match s
    case Seq(a, b) =>
      TailPlace(fuel, last, a, st);
      var r := Exec(fuel, last, a, st);
      if r.Normal? {
        TailPlace(fuel, last, b, r.s);
      }
    case If(_, _, thn, tail) =>
      TailPlace(fuel, last, thn, Push(st, true));
      var r := Exec(fuel, last, thn, Push(st, true));
      if r.Normal? {
        ReachPlace(fuel, last, tail, r.s);
      }
      JumpPlace(fuel, last, tail, Push(st, false));
    case While(cond, _, body) =>
      WhilePlace(fuel, last + [CWhile], cond, body, st);
    case For(_, _, _, _, _, _) => ForStmtPlace(fuel, last, s, st);
    case Foreach(_, _, _, _) => ForeachStmtPlace(fuel, last, s, st);
    case Case(value, _, cls) =>
      if value(st.store).Some? {
        ClausesPlace(fuel, last + [CCase], value(st.store).value, false, cls, st);
      }
    case _ =>
  }

  lemma {:induction false} ReachPlace(fuel: nat, last: seq<Construct>, t: Tail, st: State)
    ensures TailAsSaid(ReachTail(fuel, last, t, st), last, NoTailsIn(t), TailsOutsideIn(t))
    decreases fuel, t, 2
  {
    if t.ElseIf? && |st.ifm| > 0 {
      var st1 := st.(ifm := st.ifm[|st.ifm| - 1 := true]);
      TailPlace(fuel, last, t.thn, st1);
      var r := Exec(fuel, last, t.thn, st1);
      if r.Normal? {
        ReachPlace(fuel, last, t.tail, r.s);
      }
      JumpPlace(fuel, last, t.tail, st);
    }
  }

  lemma {:induction false} JumpPlace(fuel: nat, last: seq<Construct>, t: Tail, st: State)
    ensures TailAsSaid(JumpTail(fuel, last, t, st), last, NoTailsIn(t), TailsOutsideIn(t))
    decreases fuel, t, 3
  {
    match t
    case EndIf =>
    case ElseBlock(els) => TailPlace(fuel, last, els, st);
    case ElseIf(_, _, _, _) => ReachPlace(fuel, last, t, st);
  }

  lemma {:induction false} WhilePlace(fuel: nat, last: seq<Construct>, cond: Cond, body: Stmt, st: State)
    ensures TailAsSaid(WhileLoop(fuel, last, cond, body, st), last, NoTails(body), false)
    decreases fuel, body, 2
  {
    TailPlace(fuel, last, body, st);
    var r := Exec(fuel, last, body, st);
    if (r.Normal? || r.Continued?) && fuel > 0 {
      WhilePlace(fuel - 1, last, cond, body, r.s);
    }
  }

  lemma {:induction false} ForStmtPlace(fuel: nat, last: seq<Construct>, s: Stmt, st: State)
    requires s.For?
    ensures TailAsSaid(Exec(fuel, last, s, st), last, NoTails(s), TailsOutside(s))
    decreases fuel, s, 0
  {
    hide ForPass, Mentions, Flatten, Beyond, ForLoop;
    var a, b, d := s.start(st.store), s.end(st.store), s.step(st.store);
    if a.Some? && b.Some? && d.Some? && d.value != 0 {
      var loop := EmptyLoop().(loopType := LT_FOR, loopVar := s.v, counter := a.value, condEnd := b.value,
                               step := d.value);
      ForPlace(fuel, last + [CFor], loop, s.body, st.(store := st.store[s.v := IntV(a.value)]));
    }
  }

  lemma {:induction false} ForPlace(fuel: nat, last: seq<Construct>, loop: Loop, body: Stmt, st: State)
    requires loop.step != 0
    ensures TailAsSaid(ForLoop(fuel, last, loop, body, st), last, NoTails(body), false)
    decreases fuel, body, 1 + ForLeft(loop)
  {
    TailPlace(fuel, last, body, st);
    var r := Exec(fuel, last, body, st);
    if r.Normal? || r.Continued? {
      var (loop1, store1, ended) := ForPass(loop, r.s.store, Mentions(Flatten(body), loop.loopVar));
      if !ended {
        ForPlace(fuel, last, loop1, body, r.s.(store := store1));
      }
    }
  }

  lemma {:induction false} ForeachStmtPlace(fuel: nat, last: seq<Construct>, s: Stmt, st: State)
    requires s.Foreach?
    ensures TailAsSaid(Exec(fuel, last, s, st), last, NoTails(s), TailsOutside(s))
    decreases fuel, s, 0
  {
    hide ForeachPass, KeyVar, ForeachLoop;
    var items := s.list(st.store);
    if items.Some? && |items.value| > 0 {
      var loop := EmptyLoop().(loopType := LT_FOREACH, loopVar := s.v, condEnd := |items.value| - 1,
                               items := items.value);
      ForeachPlace(fuel, last + [CForeach], loop, s.body,
                   st.(store := st.store[KeyVar(s.v) := IntV(0)][s.v := items.value[0]]));
    }
  }

  lemma {:induction false} ForeachPlace(fuel: nat, last: seq<Construct>, loop: Loop, body: Stmt, st: State)
    ensures TailAsSaid(ForeachLoop(fuel, last, loop, body, st), last, NoTails(body), false)
    decreases fuel, body, 1 + ForeachLeft(loop)
  {
    TailPlace(fuel, last, body, st);
    var r := Exec(fuel, last, body, st);
    if r.Normal? || r.Continued? {
      var (loop1, store1, ended) := ForeachPass(loop, r.s.store);
      if !ended {
        ForeachPlace(fuel, last, loop1, body, r.s.(store := store1));
      }
    }
  }

  lemma {:induction false} ClausesPlace(fuel: nat, last: seq<Construct>, value: Value, performed: bool, cls: Clauses,
                                        st: State)
    requires 0 < |last| && last[|last| - 1] == CCase
    ensures TailAsSaid(ExecClauses(fuel, last, value, performed, cls, st), last, NoTailsAmong(cls), false)
    decreases fuel, cls, 2
  {
    if cls.Clause? && !performed {
      ClausesPlace(fuel, last, value, false, cls.rest, st);
      TailPlace(fuel, last, cls.body, st);
      var r := Exec(fuel, last, cls.body, st);
      if r.Normal? {
        ClausesPlace(fuel, last, value, !cls.guard.Or?, cls.rest, r.s);
      }
    }
  }

  // ---------------------------------------------------------------- one pass

  /** Outside every loop and CASE, with no BREAK on its way. */
  ghost predicate Outside(c: Config) { Tabled(c) && c.lastConstruct == [] }

  ghost predicate Tabled(c: Config) { c.breakIn == None && |c.loops| == MAX_LOOPS && |c.wc| == CASE_CAP }

  /** The pass has ended as the meaning of the body says. */
  ghost predicate EndsAs(r: Result, final: Config) {
    match r
    case Normal(st) => final.status == Done && final.store == st.store
    case Failure(e) => final.status == Failed(e)
    case Returned(x, st, _) => final.status == Exited(x) && final.store == st.store
    case _ => false
  }

  /**
    One more pass over the body, started over from outside every loop and CASE: it has the
    meaning of the body started afresh, whatever loops, CASEs and IFs the passes before have left
    in the tables. A RETURN ends it in the constructs it stands in.
   */
  lemma PassFollowsMeaning(s: Stmt, c: Config, store: Store, fuel: nat) returns (n: nat)
    requires Outside(c)
    ensures var final, r := Run(Flatten(s), Reentered(c, store), n), Meaning(fuel, s, store);
      && (r.OutOfFuel? ==> final.status == Running && n >= fuel)
      && (!r.OutOfFuel? ==> EndsAs(r, final))
      && (r.Returned? ==> Tabled(final) && final.lastConstruct == r.at)
  {
    hide Sound, StmtAt, Flatten, Len, Step, CountCases, LoopsKept, CartonsKept, Run, Path;
    var prog := Flatten(s);
    var a := Reentered(c, store);
    var b := a.(ifMatched := []);
    Fresh(s, b, store);
    var m, c1 := SimStmt(prog, fuel, 0, s, [], State(store, []), b);
    PathRun(prog, b, m, c1);
    n := m;
    var r := Exec(fuel, [], s, State(store, []));
    if r.Normal? {
      EndTurn(prog, c1, [], r.s);
      n := m + 1;
      RunAdd(prog, b, m, 1);
      RunOne(prog, c1);
    }
    RunStale(prog, a, b, n);
  }

  lemma Fresh(s: Stmt, b: Config, store: Store)
    requires Outside(b) && b == Reentered(b, store) && b.ifMatched == []
    ensures StmtAt(Flatten(s), 0, s) && |Flatten(s)| == Len(s)
    ensures Ready(b, [], State(store, []), 0, None) && Good(Flatten(s), b)
  {
    hide Flatten, StmtAt, Len;
    Start(s, store);
  }

  lemma RunOne(prog: seq<Phrase>, c: Config)
    ensures Run(prog, c, 1) == Step(prog, c)
  {
    hide Step;
    assert Run(prog, c, 1) == Run(prog, Step(prog, c), 0);
  }

  // ---------------------------------------------------------------- whole calls

  /** What a pass comes to for the caller. Fell: the body ended without a RETURN. */
  datatype Turnout = Fell | Gave(vals: seq<Value>) | Recall(vals: seq<Value>) | NotTail | Fault(e: Error) | Unfinished

  /** With fewer arguments the call is a real one; with more, storing them panics. */
  function Leaving(f: Function, x: Exit): (t: Turnout)
    ensures t.Recall? ==> x.Again? && |t.vals| == |f.params|
    ensures t != Unfinished
  {
    match x
    case Answer(vals) => Gave(vals)
    case Again(vals) =>
      if |vals| == |f.params| then Recall(vals) else if |vals| > |f.params| then Fault(IndexPanic) else NotTail
  }

  function Verdict(f: Function, c: Config): (t: Turnout)
    ensures t.Recall? ==> |t.vals| == |f.params|
    ensures t != Unfinished ==> c.status != Running
  {
    match c.status
    case Running => Unfinished
    case Failed(e) => Fault(e)
    case Done => Fell
    case Exited(x) => Leaving(f, x)
  }

  function MeantVerdict(f: Function, r: Result): (t: Turnout)
    ensures t.Recall? ==> r.Returned? && r.exit.Again? && |t.vals| == |f.params|
  {
    match r
    case Normal(_) => Fell
    case Failure(e) => Fault(e)
    case Returned(x, _, _) => Leaving(f, x)
    case _ => Unfinished
  }

  /** The machine: at most calls re-entries, each pass with a given number of turns. */
  function MachineTail(calls: nat, turns: nat, f: Function, vals: seq<Value>, c: Config): Turnout
    decreases calls
  {
    var c1 := Run(Flatten(f.body), Reentered(c, Bind(f.params, vals, c.store)), turns);
    match Verdict(f, c1)
    case Recall(vals1) => if calls == 0 then Unfinished else MachineTail(calls - 1, turns, f, vals1, c1)
    case t => t
  }

  /** Real recursion: every call has variables of its own. */
  function Recursive(calls: nat, fuel: nat, f: Function, vals: seq<Value>): Turnout
    decreases calls
  {
    match MeantVerdict(f, Meaning(fuel, f.body, Bind(f.params, vals, map[])))
    case Recall(vals1) => if calls == 0 then Unfinished else Recursive(calls - 1, fuel, f, vals1)
    case t => t
  }

  /**
    What the machine makes of the end of a pass: its values are the answer, a self-call with as many
    arguments as parameters goes on from there, with fewer it is no tail call and with more it panics.
   */
  lemma PassEndsCall(calls: nat, turns: nat, f: Function, vals: seq<Value>, c: Config)
    ensures var c1 := Run(Flatten(f.body), Reentered(c, Bind(f.params, vals, c.store)), turns);
      match c1.status
      case Running => MachineTail(calls, turns, f, vals, c) == Unfinished
      case Done => MachineTail(calls, turns, f, vals, c) == Fell
      case Failed(e) => MachineTail(calls, turns, f, vals, c) == Fault(e)
      case Exited(Answer(given)) => MachineTail(calls, turns, f, vals, c) == Gave(given)
      case Exited(Again(next)) =>
        && (|next| < |f.params| ==> MachineTail(calls, turns, f, vals, c) == NotTail)
        && (|next| > |f.params| ==> MachineTail(calls, turns, f, vals, c) == Fault(IndexPanic))
        && (|next| == |f.params| && calls > 0 ==>
              MachineTail(calls, turns, f, vals, c) == MachineTail(calls - 1, turns, f, next, c1))
  {
    hide Run, Flatten;
  }

  /** And what recursion makes of what a call's body means. */
  lemma MeaningEndsCall(calls: nat, fuel: nat, f: Function, vals: seq<Value>)
    ensures match Meaning(fuel, f.body, Bind(f.params, vals, map[]))
      case Normal(_) => Recursive(calls, fuel, f, vals) == Fell
      case Failure(e) => Recursive(calls, fuel, f, vals) == Fault(e)
      case Returned(Answer(given), _, _) => Recursive(calls, fuel, f, vals) == Gave(given)
      case Returned(Again(next), _, _) =>
        && (|next| < |f.params| ==> Recursive(calls, fuel, f, vals) == NotTail)
        && (|next| > |f.params| ==> Recursive(calls, fuel, f, vals) == Fault(IndexPanic))
        && (|next| == |f.params| && calls > 0 ==>
              Recursive(calls, fuel, f, vals) == Recursive(calls - 1, fuel, f, next))
      case _ => Recursive(calls, fuel, f, vals) == Unfinished
  {
    hide Meaning;
  }

  /** Locals are written before they are read: what a pass comes to depends on the parameters alone. */
  ghost predicate Oblivious(f: Function) {
    forall fuel: nat, vals: seq<Value>, store: Store :: |vals| == |f.params| ==>
      MeantVerdict(f, Meaning(fuel, f.body, Bind(f.params, vals, store)))
      == MeantVerdict(f, Meaning(fuel, f.body, Bind(f.params, vals, map[])))
  }

  /** One pass of the machine, for enough turns, against the body's meaning from fresh variables. */
  lemma PassVerdict(f: Function, vals: seq<Value>, c: Config, fuel: nat) returns (n: nat)
    requires Outside(c) && Oblivious(f) && TailsOutside(f.body) && |vals| == |f.params|
    ensures var final := Run(Flatten(f.body), Reentered(c, Bind(f.params, vals, c.store)), n);
      var t := MeantVerdict(f, Meaning(fuel, f.body, Bind(f.params, vals, map[])));
      && (t != Unfinished ==> Verdict(f, final) == t && final.status != Running && (t.Recall? ==> Outside(final)))
      && (t == Unfinished ==> final.status == Running && n >= fuel)
  {
    hide Run, Flatten, Exec, Leaving, TailsOutside, NoTails;
    var store := Bind(f.params, vals, c.store);
    n := PassFollowsMeaning(f.body, c, store, fuel);
    TailPlace(fuel, [], f.body, State(store, []));
    MeaningEnds(f.body, store, fuel);
  }

  lemma MeaningEnds(s: Stmt, store: Store, fuel: nat)
    ensures var r := Meaning(fuel, s, store); r.Normal? || r.Failure? || r.OutOfFuel? || r.Returned?
  {
    hide Run, Flatten, Meaning, Good;
    var n := RunFollowsMeaning(s, store, fuel);
  }

  lemma LongerRun(prog: seq<Phrase>, c: Config, n: nat, m: nat)
    requires n <= m && Run(prog, c, n).status != Running
    ensures Run(prog, c, m) == Run(prog, c, n)
  {
    hide Step;
    RunAdd(prog, c, n, m - n);
    RunHalted(prog, Run(prog, c, n), m - n);
  }

  /** The machine returns what recursion returns, given turns enough. */
  lemma {:induction false} MachineReaches(calls: nat, fuel: nat, f: Function, vals: seq<Value>,
                                          c: Config) returns (turns: nat)
    requires Outside(c) && Oblivious(f) && TailsOutside(f.body) && |vals| == |f.params|
    requires Recursive(calls, fuel, f, vals) != Unfinished
    ensures forall more: nat :: more >= turns ==>
      MachineTail(calls, more, f, vals, c) == Recursive(calls, fuel, f, vals)
    decreases calls
  {
    hide Run, Flatten, Meaning, Oblivious, Verdict, TailsOutside;
    var prog, start := Flatten(f.body), Reentered(c, Bind(f.params, vals, c.store));
    turns := PassVerdict(f, vals, c, fuel);
    var final := Run(prog, start, turns);
    var t := MeantVerdict(f, Meaning(fuel, f.body, Bind(f.params, vals, map[])));
    var n := turns;
    if t.Recall? {
      var rest := MachineReaches(calls - 1, fuel, f, t.vals, final);
      turns := if rest > n then rest else n;
    }
    forall more: nat | more >= turns
      ensures MachineTail(calls, more, f, vals, c) == Recursive(calls, fuel, f, vals)
    {
      LongerRun(prog, start, n, more);
    }
  }

  /** And recursion returns what the machine returns, given fuel enough. */
  lemma {:induction false} RecursionReaches(calls: nat, turns: nat, f: Function, vals: seq<Value>, c: Config)
    requires Outside(c) && Oblivious(f) && TailsOutside(f.body) && |vals| == |f.params|
    requires MachineTail(calls, turns, f, vals, c) != Unfinished
    ensures Recursive(calls, turns + 1, f, vals) == MachineTail(calls, turns, f, vals, c)
    decreases calls
  {
    hide Run, Flatten, Meaning, Oblivious, TailsOutside, Leaving;
    var prog, start := Flatten(f.body), Reentered(c, Bind(f.params, vals, c.store));
    var n := PassVerdict(f, vals, c, turns + 1);
    var final := Run(prog, start, turns);
    if n <= turns {
      LongerRun(prog, start, n, turns);
    } else {
      LongerRun(prog, start, turns, n);
    }
    if Verdict(f, final).Recall? {
      RecursionReaches(calls - 1, turns, f, Verdict(f, final).vals, final);
    }
  }

  /**
    A self-call by re-entry comes to exactly what recursion comes to, for every function whose
    tail RETURNs are outside loops and CASEs, inside IF branches and before later phrases or not,
    and whose locals are written before they are read: whatever the passes before have left in the
    variables, the tables and the IF flags.
   */
  lemma TailCallIsRecursion(calls: nat, f: Function, vals: seq<Value>, c: Config, t: Turnout)
    requires Outside(c) && Oblivious(f) && TailsOutside(f.body) && |vals| == |f.params| && t != Unfinished
    ensures (exists turns: nat :: MachineTail(calls, turns, f, vals, c) == t)
       <==> (exists fuel: nat :: Recursive(calls, fuel, f, vals) == t)
  {
    hide MachineTail, Recursive, Oblivious, Outside, TailsOutside;
    if turns: nat :| MachineTail(calls, turns, f, vals, c) == t {
      RecursionReaches(calls, turns, f, vals, c);
      assert Recursive(calls, turns + 1, f, vals) == t;
    }
    if fuel: nat :| Recursive(calls, fuel, f, vals) == t {
      var turns := MachineReaches(calls, fuel, f, vals, c);
      assert MachineTail(calls, turns, f, vals, c) == t;
    }
  }
}
