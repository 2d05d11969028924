/**
  For every kind of construct a function that calls itself from inside one, run from a fresh call:
  its first pass leaves the construct on the stack, and the second loses the answer.
 */
module LostAnswers {
  import opened Phrases
  import opened Machine
  import opened Structured
  import opened WholeRuns
  import opened TailCalls
  import opened Reentry

  function Going(): Cond { (s: Store) => if "go" in s && s["go"].BoolV? then Some(s["go"].b) else None }

  function NotGoing(): Cond { (s: Store) => if "go" in s && s["go"].BoolV? then Some(!s["go"].b) else None }

  function AnswerOne(): Ret { ValuesIf(NotGoing(), (s: Store) => Some([IntV(1)])) }

  function CallWithFalse(): Ret { CallSelf((s: Store) => Some([BoolV(false)])) }

  function OneItem(): ListExpr { (s: Store) => Some([IntV(0)]) }

  /** RETURN f(false), inside a construct of this kind that runs it once. */
  function CallWithin(k: Construct): Stmt {
    var call := Return(CallWithFalse(), []);
    match k
    case CWhile => While(Going(), [], call)
    case CFor => For("i", One(), One(), One(), [], call)
    case CForeach => Foreach("v", OneItem(), [], call)
    case CCase => Case(Zero(), [], Clause(Or, [], call, EndCase))
  }

  /**
    CASE 0 / OR / BREAK / ENDCASE / RETURN IF not go, 1, then the call from inside a loop; with the
    call inside a CASE it is FOR i = 1 TO 1 / BREAK / ENDFOR that comes first.
   */
  function CallsFrom(k: Construct): Function {
    Function(["go"], Seq(CounterBody(k).first, Seq(Return(AnswerOne(), []), CallWithin(k))))
  }

  function Go(b: bool): Store { map["go" := BoolV(b)] }

  lemma BindOne(b: bool)
    ensures Bind(["go"], [BoolV(b)], map[]) == Go(b)
  {
    assert Bind(["go"][1..], [BoolV(b)][1..], map["go" := BoolV(b)]) == map["go" := BoolV(b)];
    assert map[]["go" := BoolV(b)] == Go(b);
  }

  /** Turns one after another. */
  lemma {:induction false} Traced(prog: seq<Phrase>, cs: seq<Config>)
    requires |cs| > 0 && forall i :: 0 <= i < |cs| - 1 ==> cs[i + 1] == Step(prog, cs[i])
    ensures Run(prog, cs[0], |cs| - 1) == cs[|cs| - 1]
    decreases |cs|
  {
    hide Step;
    if |cs| > 1 {
      Traced(prog, cs[1..]);
    }
  }

  // ---------------------------------------------------------------- what recursion answers

  lemma FirstDoesNothing(k: Construct, b: bool)
    ensures var r := Exec(0, [], CounterBody(k).first, State(Go(b), []));
      && r.Normal? && r.s.ifm == [] && "go" in r.s.store && r.s.store["go"] == BoolV(b)
  {
    var st := State(Go(b), []);
    if k == CCase {
      var st1 := State(Go(b)["i" := IntV(1)], []);
      assert [] + [CFor] == [CFor];
      assert Exec(0, [CFor], Break(None, []), st1) == Broken(st1);
    } else {
      BrokenCase(st);
    }
  }

  lemma CallMeans(k: Construct, st: State)
    requires "go" in st.store && st.store["go"] == BoolV(true)
    ensures var r := Exec(0, [], CallWithin(k), st); r.Returned? && r.exit == Again([BoolV(false)])
  {
    hide Exec;
    match k
    case CWhile => WhileCalls(st);
    case CFor => ForCalls(st);
    case CForeach => ForeachCalls(st);
    case CCase => CaseCalls(st);
  }

  lemma WhileCalls(st: State)
    requires "go" in st.store && st.store["go"] == BoolV(true)
    ensures var r := Exec(0, [], CallWithin(CWhile), st); r.Returned? && r.exit == Again([BoolV(false)])
  {
    assert [] + [CWhile] == [CWhile];
    LoopCalls(CWhile, st);
  }

  lemma ForCalls(st: State)
    ensures var r := Exec(0, [], CallWithin(CFor), st); r.Returned? && r.exit == Again([BoolV(false)])
  {
    assert [] + [CFor] == [CFor];
    LoopCalls(CFor, st.(store := st.store["i" := IntV(1)]));
  }

  lemma ForeachCalls(st: State)
    ensures var r := Exec(0, [], CallWithin(CForeach), st); r.Returned? && r.exit == Again([BoolV(false)])
  {
    assert [] + [CForeach] == [CForeach];
    LoopCalls(CForeach, st.(store := st.store[KeyVar("v") := IntV(0)]["v" := IntV(0)]));
  }

  lemma CaseCalls(st: State)
    ensures var r := Exec(0, [], CallWithin(CCase), st); r.Returned? && r.exit == Again([BoolV(false)])
  {
    assert [] + [CCase] == [CCase];
    ClauseCalls(st);
  }

  lemma LoopCalls(k: Construct, st: State)
    ensures Exec(0, [k], Return(CallWithFalse(), []), st) == Returned(Again([BoolV(false)]), st, [k])
  {
  }

  lemma ClauseCalls(st: State)
    ensures var r := ExecClauses(0, [CCase], IntV(0), false, Clause(Or, [], Return(CallWithFalse(), []), EndCase), st);
      r.Returned? && r.exit == Again([BoolV(false)])
  {
    var r := Exec(0, [CCase], Return(CallWithFalse(), []), st);
    assert r.Returned? && r.exit == Again([BoolV(false)]);
  }

  lemma MeansRecall(k: Construct)
    ensures var r := Meaning(0, CallsFrom(k).body, Go(true)); r.Returned? && r.exit == Again([BoolV(false)])
  {
    hide CounterBody, CallWithin;
    var body := CallsFrom(k).body;
    FirstDoesNothing(k, true);
    var st := Exec(0, [], body.first, State(Go(true), [])).s;
    assert Exec(0, [], body.rest.first, st) == Normal(st);
    CallMeans(k, st);
    assert Exec(0, [], body.rest, st) == Exec(0, [], body.rest.rest, st);
  }

  lemma MeansAnswer(k: Construct)
    ensures var r := Meaning(0, CallsFrom(k).body, Go(false)); r.Returned? && r.exit == Answer([IntV(1)])
  {
    hide CounterBody, CallWithin;
    var body := CallsFrom(k).body;
    FirstDoesNothing(k, false);
    var st := Exec(0, [], body.first, State(Go(false), [])).s;
    assert Exec(0, [], body.rest.first, st) == Returned(Answer([IntV(1)]), st, []);
  }

  /** With variables of its own for every call the function answers 1. */
  lemma RecursionAnswers(k: Construct)
    ensures Recursive(1, 0, CallsFrom(k), [BoolV(true)]) == Gave([IntV(1)])
  {
    hide Meaning;
    BindOne(true);
    BindOne(false);
    MeansRecall(k);
    MeansAnswer(k);
  }

  // ---------------------------------------------------------------- from inside a loop

  function Opener(k: Construct): Phrase {
    match k
    case CWhile => PWhile(Going(), [])
    case CFor => PFor("i", One(), One(), One(), [])
    case CForeach => PForeach("v", OneItem(), [])
    case CCase => PCase(Zero(), [])
  }

  function Closer(k: Construct): Phrase {
    match k
    case CWhile => PEndwhile(Keyword(KEndwhile))
    case CCase => PEndcase(Keyword(KEndcase))
    case _ => PEndfor(Keyword(KEndfor))
  }

  /** The flat code of the function that calls from inside a loop of this kind. */
  ghost predicate IsLoopCode(prog: seq<Phrase>, k: Construct) {
    prog ==
      [PCase(Zero(), []), PClause(Or, []), PBreak(None, []), PEndcase(Keyword(KEndcase)), PReturn(AnswerOne(), []),
             Opener(k), PReturn(CallWithFalse(), []), Closer(k)]
  }

  lemma LoopReturnCode(k: Construct)
    requires k != CCase
    ensures IsLoopCode(Flatten(CallsFrom(k).body), k)
  {
    var body := CallsFrom(k).body;
    CaseFirstCode();
    assert Flatten(body.rest.rest) == [Opener(k), PReturn(CallWithFalse(), []), Closer(k)];
    assert Flatten(body.rest) == [PReturn(AnswerOne(), [])] + Flatten(body.rest.rest);
  }

  lemma CaseFirstCode()
    ensures Flatten(CaseThenSet().first) ==
      [PCase(Zero(), []), PClause(Or, []), PBreak(None, []), PEndcase(Keyword(KEndcase))]
  {
    assert FlattenClauses(Clause(Or, [], Break(None, []), EndCase)) ==
      [PClause(Or, []), PBreak(None, []), PEndcase(Keyword(KEndcase))];
  }

  lemma CloserFound(prog: seq<Phrase>, k: Construct)
    requires k != CCase && IsLoopCode(prog, k)
    ensures Scan(prog, 5, 0, if k == CWhile then ENDWHILE_SEARCH else ENDFOR_SEARCH) == At(7)
  {
    var s := if k == CWhile then ENDWHILE_SEARCH else ENDFOR_SEARCH;
    assert Scan(prog, 7, 1, s) == At(7);
    assert Scan(prog, 6, 1, s) == At(7);
  }

  /** The record of the loop the first pass was left in. */
  predicate LeftRecord(loop: Loop, k: Construct) {
    match k
    case CWhile => loop.loopType == LT_WHILE && loop.whileContinueAt == 7
    case CFor => loop.loopType == LT_FOR && loop.forEndPos == 7
    case CForeach => loop.loopType == LT_FOREACH && loop.forEndPos == 7
    case CCase => false
  }

  /** The first pass, from a fresh call: it ends in the loop, asking to start over. */
  lemma FirstPass(k: Construct) returns (c: Config)
    requires k != CCase
    ensures c == Run(Flatten(CallsFrom(k).body), Reentered(Initial(map[]), Go(true)), 7)
    ensures c.status == Exited(Again([BoolV(false)])) && c.lastConstruct == [k] && Tabled(c)
    ensures LeftRecord(c.loops[1], k)
  {
    hide Run, Flatten, Scan, CallWithin, Opener, Closer, Step;
    LoopReturnCode(k);
    var prog, start := Flatten(CallsFrom(k).body), Reentered(Initial(map[]), Go(true));
    var c5 := ThroughCase(prog, k, start);
    c := FromWithin(prog, k, c5);
    Traced(prog, [c5, Step(prog, c5), c]);
    RunAdd(prog, start, 5, 2);
  }

  /** The CASE and its BREAK, with the CASE's own record on top of an empty stack. */
  lemma ThroughCase(prog: seq<Phrase>, k: Construct, start: Config) returns (c5: Config)
    requires IsLoopCode(prog, k) && start == Reentered(Initial(map[]), Go(true))
    ensures c5 == Run(prog, start, 5) && c5.status == Running && c5.pc == 4 && Tabled(c5)
    ensures c5.lastConstruct == [] && c5.depth == 0 && c5.store == Go(true)
  {
    hide Run, Scan, Opener, Closer, Dispatch, Skipped, Phrase.Kind, Step;
    IntoCase(prog, start);
    var c2 := Run(prog, start, 2);
    assert c2.lastConstruct == [CCase];
    BreakTakesBottom(prog, c2, 2);
    var c3 := Step(prog, c2);
    c5 := EndAndAsk(prog, c3);
    Traced(prog, [c2, c3, Step(prog, c3), c5]);
    RunAdd(prog, start, 2, 3);
  }

  /** ENDCASE closes the CASE left by BREAK, and the RETURN IF that follows goes on. */
  lemma EndAndAsk(prog: seq<Phrase>, c3: Config) returns (c5: Config)
    requires |prog| > 4 && prog[3].PEndcase? && prog[4] == PReturn(AnswerOne(), [])
    requires c3.status == Running && c3.pc == 2 && c3.breakIn == Some(CCase) && c3.lastConstruct == [CCase]
    requires c3.depth == 1
    requires c3.wccount == 1 && |c3.wc| == CASE_CAP && |c3.loops| == MAX_LOOPS && c3.store == Go(true)
    ensures c5 == Step(prog, Step(prog, c3)) && c5.status == Running && c5.pc == 4 && Tabled(c5)
    ensures c5.lastConstruct == [] && c5.depth == 0 && c5.store == Go(true)
  {
    var c4 := Step(prog, c3);
    assert c4 == StepEndcase(c3.(pc := 3));
    c5 := Step(prog, c4);
    NotYet(prog, c4, 4);
  }

  /** From before the loop: into it, and out by its RETURN. */
  lemma FromWithin(prog: seq<Phrase>, k: Construct, c5: Config) returns (c: Config)
    requires k != CCase && IsLoopCode(prog, k)
    requires c5.status == Running && c5.pc == 4 && Tabled(c5) && c5.lastConstruct == [] && c5.depth == 0
    requires c5.store == Go(true)
    ensures c == Step(prog, Step(prog, c5))
    ensures c.status == Exited(Again([BoolV(false)])) && c.lastConstruct == [k] && Tabled(c)
    ensures LeftRecord(c.loops[1], k)
  {
    hide Scan, Step, Dispatch, Skipped, Phrase.Kind;
    Opens(prog, k, c5);
    var c6 := Step(prog, c5);
    c := Step(prog, c6);
    AsksAgain(prog, c6, 6);
  }

  /** Into the loop. */
  lemma Opens(prog: seq<Phrase>, k: Construct, c5: Config)
    requires k != CCase && IsLoopCode(prog, k)
    requires c5.status == Running && c5.pc == 4 && Tabled(c5) && c5.lastConstruct == [] && c5.depth == 0
    requires c5.store == Go(true)
    ensures var c6 := Step(prog, c5);
      && c6.status == Running && c6.pc == 5 && Tabled(c6) && c6.lastConstruct == [k] && LeftRecord(c6.loops[1], k)
  {
    hide Scan;
    CloserFound(prog, k);
    var c6 := Step(prog, c5);
    if k == CWhile {
      assert c6 == StepWhile(prog, c5.(pc := 5), Going());
    } else if k == CFor {
      assert c6 == StepFor(prog, c5.(pc := 5), "i", One(), One(), One());
    } else {
      assert c6 == StepForeach(prog, c5.(pc := 5), "v", OneItem());
    }
  }

  lemma AsksAgain(prog: seq<Phrase>, c: Config, i: nat)
    requires i < |prog| && prog[i] == PReturn(CallWithFalse(), []) && c.status == Running && c.pc == i - 1
    requires c.breakIn == None
    ensures Step(prog, c) == c.(pc := i, status := Exited(Again([BoolV(false)])))
  {
    assert Step(prog, c) == StepReturn(c.(pc := i), CallWithFalse());
  }

  /**
    The second pass: the BREAK of the CASE lands on the closer of the loop, which closes the loop of
    the first pass, and the body has ended.
   */
  lemma SecondPass(k: Construct, c: Config)
    requires k != CCase && c.lastConstruct == [k] && Tabled(c) && LeftRecord(c.loops[1], k)
    ensures Run(Flatten(CallsFrom(k).body), Reentered(c, Bind(["go"], [BoolV(false)], c.store)), 5).status == Done
  {
    hide Run, Flatten, Scan, Bind, CallWithin, Step, Dispatch, Skipped, Phrase.Kind, Opener, Closer;
    LoopReturnCode(k);
    var prog, start := Flatten(CallsFrom(k).body), Reentered(c, Bind(["go"], [BoolV(false)], c.store));
    IntoCase(prog, start);
    var c2 := Run(prog, start, 2);
    assert c2.lastConstruct[0] == k;
    BreakTakesBottom(prog, c2, 2);
    var c3 := Step(prog, c2);
    ClosesStale(prog, k, c3);
    var c4 := Step(prog, c3);
    Traced(prog, [c2, c3, c4, Step(prog, c4)]);
    RunAdd(prog, start, 2, 3);
  }

  lemma ClosesStale(prog: seq<Phrase>, k: Construct, c3: Config)
    requires k != CCase && IsLoopCode(prog, k) && c3.status == Running && c3.pc == 6 && c3.breakIn == Some(k)
    requires c3.depth == 1 && |c3.lastConstruct| > 1 && c3.lastConstruct[0] == k && |c3.loops| == MAX_LOOPS
    requires LeftRecord(c3.loops[1], k)
    ensures Step(prog, Step(prog, c3)).status == Done
  {
    hide Scan;
    var c4 := Step(prog, c3);
    assert c4 == if k == CWhile then StepEndwhile(c3.(pc := 7)) else StepEndfor(prog, c3.(pc := 7));
    assert c4.status == Running && c4.pc == 7;
  }

  // ---------------------------------------------------------------- from inside a CASE

  ghost predicate IsCaseCode(prog: seq<Phrase>) {
    prog == [PFor("i", One(), One(), One(), []), PBreak(None, []), PEndfor(Keyword(KEndfor)), PReturn(AnswerOne(), []),
             PCase(Zero(), []), PClause(Or, []), PReturn(CallWithFalse(), []), PEndcase(Keyword(KEndcase))]
  }

  lemma CaseReturnCode()
    ensures IsCaseCode(Flatten(CallsFrom(CCase).body))
  {
    var body := CallsFrom(CCase).body;
    assert Flatten(body.first) == [PFor("i", One(), One(), One(), []), PBreak(None, []), PEndfor(Keyword(KEndfor))];
    assert FlattenClauses(Clause(Or, [], Return(CallWithFalse(), []), EndCase)) ==
      [PClause(Or, []), PReturn(CallWithFalse(), []), PEndcase(Keyword(KEndcase))];
    assert Flatten(body.rest.rest) ==
      [PCase(Zero(), []), PClause(Or, []), PReturn(CallWithFalse(), []), PEndcase(Keyword(KEndcase))];
    assert Flatten(body.rest) == [PReturn(AnswerOne(), [])] + Flatten(body.rest.rest);
  }

  lemma EndsFound(prog: seq<Phrase>)
    requires IsCaseCode(prog)
    ensures Scan(prog, 0, 0, ENDFOR_SEARCH) == At(2) && Scan(prog, 4, 0, ENDCASE_SEARCH) == At(7)
  {
    ForEndFound(prog);
    assert Scan(prog, 7, 1, ENDCASE_SEARCH) == At(7);
    assert Scan(prog, 6, 1, ENDCASE_SEARCH) == At(7);
    assert Scan(prog, 5, 1, ENDCASE_SEARCH) == At(7);
  }

  /** The FOR and its BREAK, with the loop's own record on top of an empty stack. */
  lemma ThroughLoop(prog: seq<Phrase>, start: Config) returns (c4: Config)
    requires IsCaseCode(prog) && start == Reentered(Initial(map[]), Go(true))
    ensures c4 == Run(prog, start, 4) && c4.status == Running && c4.pc == 3 && Tabled(c4)
    ensures c4.lastConstruct == [] && c4.depth == 0 && c4.wccount == 0 && c4.wc[0] == EmptyCarton()
  {
    hide Scan, Run;
    EndsFound(prog);
    var c1 := Step(prog, start);
    assert c1 == StepFor(prog, start.(pc := 0), "i", One(), One(), One());
    c4 := LeavesLoop(prog, c1);
    Traced(prog, [start, c1, Step(prog, c1), Step(prog, Step(prog, c1)), c4]);
  }

  /** The BREAK leaves the loop by its ENDFOR, and the RETURN IF that follows goes on. */
  lemma LeavesLoop(prog: seq<Phrase>, c1: Config) returns (c4: Config)
    requires IsCaseCode(prog) && c1.status == Running && c1.pc == 0 && Tabled(c1) && c1.lastConstruct == [CFor]
    requires c1.depth == 1
    requires c1.loops[1].loopType == LT_FOR && c1.loops[1].forEndPos == 2 && c1.loops[1].opt == LoopStart
    requires c1.store == Go(true)["i" := IntV(1)] && c1.wccount == 0
    ensures c4 == Step(prog, Step(prog, Step(prog, c1))) && c4.status == Running && c4.pc == 3 && Tabled(c4)
    ensures c4.lastConstruct == [] && c4.depth == 0 && c4.wccount == 0 && c4.wc == c1.wc
  {
    hide Step, Dispatch, Skipped, Phrase.Kind;
    BreakTakesBottom(prog, c1, 1);
    var c2 := Step(prog, c1);
    EndforAfterBreak(prog, c2);
    var c3 := Step(prog, c2);
    c4 := Step(prog, c3);
    NotYet(prog, c3, 3);
  }

  lemma EndforAfterBreak(prog: seq<Phrase>, c2: Config)
    requires |prog| > 2 && prog[2].PEndfor? && c2.status == Running && c2.pc == 1 && c2.breakIn == Some(CFor)
    requires c2.lastConstruct == [CFor] && c2.depth == 1 && |c2.loops| == MAX_LOOPS && c2.loops[1].loopType == LT_FOR
    ensures Step(prog, c2) == c2.(pc := 2, breakIn := None, depth := 0, lastConstruct := [])
  {
    assert Step(prog, c2) == StepEndfor(prog, c2.(pc := 2));
    assert c2.loops[1 := c2.loops[1]] == c2.loops;
  }

  /** With go still true the call does not answer yet. */
  lemma NotYet(prog: seq<Phrase>, c: Config, i: nat)
    requires i < |prog| && prog[i] == PReturn(AnswerOne(), []) && c.status == Running && c.pc == i - 1
    requires c.breakIn == None
    requires "go" in c.store && c.store["go"] == BoolV(true)
    ensures Step(prog, c) == c.(pc := i)
  {
    assert Step(prog, c) == StepReturn(c.(pc := i), AnswerOne());
  }

  /** The first pass ends in the CASE, asking to start over. */
  lemma FirstCasePass() returns (c: Config)
    ensures c == Run(Flatten(CallsFrom(CCase).body), Reentered(Initial(map[]), Go(true)), 7)
    ensures c.status == Exited(Again([BoolV(false)])) && c.lastConstruct == [CCase] && Tabled(c) && c.wc[0].endLine == 0
  {
    hide Run, Flatten, Scan, NextClause;
    CaseReturnCode();
    var prog, start := Flatten(CallsFrom(CCase).body), Reentered(Initial(map[]), Go(true));
    EndsFound(prog);
    var c4 := ThroughLoop(prog, start);
    var c5 := Step(prog, c4);
    assert c5 == StepCase(prog, c4.(pc := 4), Zero());
    var c6 := Step(prog, c5);
    assert c6 == StepClause(prog, c5.(pc := 5), Or);
    c := Step(prog, c6);
    AsksAgain(prog, c6, 6);
    Traced(prog, [c4, c5, c6, c]);
    RunAdd(prog, start, 4, 3);
  }

  /** Turns that pass over phrases change nothing else. */
  lemma {:induction false} Skips(prog: seq<Phrase>, c: Config, n: nat)
    requires c.status == Running && -1 <= c.pc && c.pc + n < |prog|
    requires forall i :: c.pc < i <= c.pc + n ==> Skipped(c.breakIn, prog[i].Kind())
    ensures Run(prog, c, n) == c.(pc := c.pc + n)
    decreases n
  {
    hide Dispatch;
    if n > 0 {
      Skips(prog, Step(prog, c), n - 1);
    }
  }

  /**
    The second pass: the BREAK of the loop takes the CASE for its own and looks for an ENDCASE from
    the top; the one it comes to finds the loop on top of the stack.
   */
  lemma SecondCasePass(c: Config)
    requires c.lastConstruct == [CCase] && Tabled(c) && c.wc[0].endLine == 0
    ensures Run(Flatten(CallsFrom(CCase).body), Reentered(c, Bind(["go"], [BoolV(false)], c.store)), 10).status ==
      Failed(WrongEnd)
  {
    hide Run, Flatten, Scan, Bind, Skipped, Phrase.Kind, Dispatch, Step;
    CaseReturnCode();
    var prog, start := Flatten(CallsFrom(CCase).body), Reentered(c, Bind(["go"], [BoolV(false)], c.store));
    IntoLoop(prog, start);
    LoopRecordOnTop(prog, start);
    var c1 := Step(prog, start);
    BreakTakesBottom(prog, c1, 1);
    var c2 := Step(prog, c1);
    PassedOver(prog);
    Skips(prog, c2, 7);
    var c9 := Run(prog, c2, 7);
    FindsLoop(prog, c9);
    RunAdd(prog, start, 2, 8);
    RunAdd(prog, c2, 7, 1);
    RunOne(prog, c9);
    Traced(prog, [start, c1, c2]);
  }

  lemma LoopRecordOnTop(prog: seq<Phrase>, c: Config)
    requires IsCaseCode(prog) && c.status == Running && c.pc == -1 && Tabled(c) && c.depth == 0
    ensures Step(prog, c).wc == c.wc
  {
    hide Scan;
    ForEndFound(prog);
    assert Step(prog, c) == StepFor(prog, c.(pc := 0), "i", One(), One(), One());
  }

  lemma PassedOver(prog: seq<Phrase>)
    requires IsCaseCode(prog)
    ensures forall i :: 0 <= i < 7 ==> Skipped(Some(CCase), prog[i].Kind())
  {
  }

  lemma FindsLoop(prog: seq<Phrase>, c: Config)
    requires IsCaseCode(prog) && c.status == Running && c.pc == 6 && c.breakIn == Some(CCase)
    requires |c.lastConstruct| > 0 && c.lastConstruct[|c.lastConstruct| - 1] == CFor
    ensures Step(prog, c).status == Failed(WrongEnd)
  {
    assert Step(prog, c) == StepEndcase(c.(pc := 7));
  }

  // ---------------------------------------------------------------- the answers

  /**
    A tail call returned from inside a construct of any kind, run from a fresh call: recursion
    answers 1; started over from a loop, the call falls off the end of the body and answers
    nothing, and started over from a CASE it fails.
   */
  lemma LoopReturnLosesAnswer(k: Construct)
    ensures Recursive(1, 0, CallsFrom(k), [BoolV(true)]) == Gave([IntV(1)])
    ensures MachineTail(1, 10, CallsFrom(k), [BoolV(true)], Initial(map[])) == if k ==
      CCase then Fault(WrongEnd) else Fell
  {
    hide Run, Flatten, Meaning, Reentered, CallWithin;
    var f := CallsFrom(k);
    RecursionAnswers(k);
    BindOne(true);
    var prog := Flatten(f.body);
    if k == CCase {
      var c := FirstCasePass();
      SecondCasePass(c);
      LongerRun(prog, Reentered(Initial(map[]), Go(true)), 7, 10);
    } else {
      var c := FirstPass(k);
      SecondPass(k, c);
      LongerRun(prog, Reentered(Initial(map[]), Go(true)), 7, 10);
      LongerRun(prog, Reentered(c, Bind(f.params, [BoolV(false)], c.store)), 5, 10);
    }
  }
}
