/**
  The flattened program run by the statement loop does what the structured program means, and
  every state on the way is well formed.
 */
module Simulation {
  import opened Phrases
  import opened Machine
  import opened Structured
  import opened Layout
  import opened Relation
  import opened Turns

  lemma GoodOpen(prog: seq<Phrase>, c: Config, last: seq<Construct>, st: State, i: int, breakIn: Option<Construct>)
    requires Good(prog, c) && Ready(c, last, st, i, breakIn)
    ensures OpenAll(prog, last, c.loops, c.wc)
    ensures 0 <= i <= |prog|
  {
    hide OpenAll, CountCases;
  }

  lemma {:induction false} PathEnd(prog: seq<Phrase>, c: Config, n: nat, c': Config)
    requires Path(prog, c, n, c')
    ensures Good(prog, c')
    decreases n
  {
    hide Step, Sound;
    if n > 0 {
      PathEnd(prog, Step(prog, c), n - 1, c');
    }
  }

  /** BREAK and CONTINUE stay inside the program. */
  lemma TargetInside(prog: seq<Phrase>, c: Config, last: seq<Construct>)
    requires OpenAll(prog, last, c.loops, c.wc) && 0 < |last|
    requires |c.loops| == MAX_LOOPS && |c.wc| == CASE_CAP && CountCases(last) < CASE_CAP
    ensures last[|last| - 1] != CCase ==> |last| < MAX_LOOPS
    ensures |last| < MAX_LOOPS ==> 0 <= Target(c, last) < |prog|
  {
    hide CountCases, Scan;
  }

  // ---------------------------------------------------------------- single phrases

  lemma SimAct(prog: seq<Phrase>, fuel: nat, i: int, s: Stmt, last: seq<Construct>, st: State,
               c: Config) returns (n: nat, c': Config)
    requires s.Act? && StmtAt(prog, i, s) && Ready(c, last, st, i, None) && Good(prog, c)
    ensures Simulated(prog, fuel, Exec(fuel, last, s, st), c, n, c', last, i + Len(s))
  {
    hide Stands, Holds, Sound, OpenAll, StmtAt, CountCases, LoopsKept, CartonsKept, Step, Path, PhraseAt;
    GoodOpen(prog, c, last, st, i, None);
    StmtParts(prog, i, s);
    TurnAct(prog, i, s.run, s.words, last, st, c);
    n, c' := 1, Step(prog, c);
    match s.run(st.store)
    case None => FailTurn(prog, fuel, c, EvalFault, last, i + 1);
    case Some(store) => OneTurn(prog, c, last, st.(store := store), i + 1, None);
  }

  lemma SimBreak(prog: seq<Phrase>, fuel: nat, i: int, s: Stmt, last: seq<Construct>, st: State,
                 c: Config) returns (n: nat, c': Config)
    requires s.Break? && StmtAt(prog, i, s) && Ready(c, last, st, i, None) && Good(prog, c)
    ensures Simulated(prog, fuel, Exec(fuel, last, s, st), c, n, c', last, i + Len(s))
  {
    hide Sound, OpenAll, StmtAt, CountCases, LoopsKept, CartonsKept, Step, Path, PhraseAt;
    GoodOpen(prog, c, last, st, i, None);
    StmtParts(prog, i, s);
    TurnBreak(prog, i, s.guard, s.words, last, st, c);
    n, c' := 1, Step(prog, c);
    match Test(s.guard, st.store)
    case None => FailTurn(prog, fuel, c, EvalFault, last, i + 1);
    case Some(false) => OneTurn(prog, c, last, st, i + 1, None);
    case Some(true) =>
      if 0 < |last| < MAX_LOOPS {
        TargetInside(prog, c, last);
        OneTurn(prog, c, last, st, Target(c, last), Some(last[|last| - 1]));
      } else {
        FailTurn(prog, fuel, c, IndexPanic, last, i + 1);
      }
  }

  lemma SimContinue(prog: seq<Phrase>, fuel: nat, i: int, s: Stmt, last: seq<Construct>, st: State,
                    c: Config) returns (n: nat, c': Config)
    requires s.Continue? && StmtAt(prog, i, s) && Ready(c, last, st, i, None) && Good(prog, c)
    ensures Simulated(prog, fuel, Exec(fuel, last, s, st), c, n, c', last, i + Len(s))
  {
    hide Sound, OpenAll, StmtAt, CountCases, LoopsKept, CartonsKept, Step, Path, PhraseAt;
    GoodOpen(prog, c, last, st, i, None);
    StmtParts(prog, i, s);
    if |last| > 0 {
      TargetInside(prog, c, last);
    }
    TurnContinue(prog, i, s.guard, s.words, last, st, c);
    n, c' := 1, Step(prog, c);
    if |last| == 0 {
      FailTurn(prog, fuel, c, NothingToContinue, last, i + 1);
    } else {
      match Test(s.guard, st.store)
      case None => FailTurn(prog, fuel, c, EvalFault, last, i + 1);
      case Some(false) => OneTurn(prog, c, last, st, i + 1, None);
      case Some(true) =>
        if last[|last| - 1] == CCase {
          FailTurn(prog, fuel, c, ContinueInCase, last, i + 1);
        } else {
          OneTurn(prog, c, last, st, Target(c, last), None);
        }
    }
  }

  lemma SimReturn(prog: seq<Phrase>, fuel: nat, i: int, s: Stmt, last: seq<Construct>, st: State,
                  c: Config) returns (n: nat, c': Config)
    requires s.Return? && StmtAt(prog, i, s) && Ready(c, last, st, i, None) && Good(prog, c)
    ensures Simulated(prog, fuel, Exec(fuel, last, s, st), c, n, c', last, i + Len(s))
  {
    hide Stands, Holds, Sound, OpenAll, StmtAt, CountCases, LoopsKept, CartonsKept, Step, Path, PhraseAt, Arrived;
    GoodOpen(prog, c, last, st, i, None);
    StmtParts(prog, i, s);
    TurnReturn(prog, i, s.ret, s.words, last, st, c);
    n, c' := 1, Step(prog, c);
    match ExitOf(s.ret, st.store)
    case None => FailTurn(prog, fuel, c, EvalFault, last, i + 1);
    case Some(None) =>
      OneTurn(prog, c, last, st, i + 1, None);
      NormalTurn(prog, fuel, c, last, st, i + 1);
    case Some(Some(x)) => ReturnTurn(prog, fuel, c, x, st, last, last, i + 1);
  }

  lemma NormalTurn(prog: seq<Phrase>, fuel: nat, c: Config, last: seq<Construct>, st: State, next: int)
    requires Path(prog, c, 1, Step(prog, c)) && Ready(Step(prog, c), last, st, next, None)
    requires Keeps(c, Step(prog, c), last)
    ensures Simulated(prog, fuel, Normal(st), c, 1, Step(prog, c), last, next)
  {
    hide Path, Step, CountCases;
  }

  // ---------------------------------------------------------------- closing turns

  /** A turn that closes the innermost construct and leaves the statement normally. */
  lemma CloseTurn(prog: seq<Phrase>, fuel: nat, c: Config, last: seq<Construct>, k: Construct, st: State, next: int,
                  i: int, st0: State, breakIn: Option<Construct>)
    requires Good(prog, c) && Ready(c, last + [k], st0, i, breakIn) && 0 <= next <= |prog|
    requires Ready(Step(prog, c), last, st, next, None) && Keeps(c, Step(prog, c), last)
    ensures Simulated(prog, fuel, Normal(st), c, 1, Step(prog, c), last, next)
  {
    hide Step, Sound, OpenAll, CountCases, LoopsKept, CartonsKept, Stands, Holds, Path;
    GoodOpen(prog, c, last + [k], st0, i, breakIn);
    PopTurn(prog, c, last, k, st, next);
  }

  /** A turn inside the construct, as a path. */
  lemma InsideTurn(prog: seq<Phrase>, c: Config, last: seq<Construct>, st: State, next: int, i: int, st0: State)
    requires Good(prog, c) && Ready(c, last, st0, i, None) && 0 <= next <= |prog|
    requires Ready(Step(prog, c), last, st, next, None) && Keeps(c, Step(prog, c), last)
    ensures Path(prog, c, 1, Step(prog, c)) && Good(prog, Step(prog, c))
  {
    hide Step, Sound, OpenAll, CountCases, LoopsKept, CartonsKept, Stands, Holds, Path;
    GoodOpen(prog, c, last, st0, i, None);
    OneTurn(prog, c, last, st, next, None);
    PathEnd(prog, c, 1, Step(prog, c));
  }

  /** The statement ended abnormally inside a construct that does not catch it. */
  lemma PassOn(prog: seq<Phrase>, fuel: nat, r: Result, c: Config, n: nat, c': Config, inner: seq<Construct>, i: int,
               last: seq<Construct>, next: int)
    requires Simulated(prog, fuel, r, c, n, c', inner, i) && Quits(r)
    ensures Simulated(prog, fuel, r, c, n, c', last, next)
  {
    hide Path;
  }

  /** Where a loop body leaves the machine: at the closer, with the loop's own record as it was. */
  lemma BodyEnds(prog: seq<Phrase>, fuel: nat, r: Result, c: Config, n: nat, c1: Config, last: seq<Construct>,
                 k: Construct, end: int)
    requires k != CCase && |last| + 1 < MAX_LOOPS && |c.loops| == MAX_LOOPS
    requires Simulated(prog, fuel, r, c, n, c1, last + [k], end)
    requires (if k == CWhile then c.loops[|last| + 1].whileContinueAt else c.loops[|last| + 1].forEndPos) == end
    requires !Quits(r)
    ensures Good(prog, c1) && Keeps(c, c1, last) && |c1.loops| == MAX_LOOPS
    ensures c1.loops[|last| + 1] == c.loops[|last| + 1]
    ensures Ready(c1, last + [k], r.s, end, if r.Broken? then Some(k) else None)
  {
    hide Path, CountCases, Step, Sound;
    PathEnd(prog, c, n, c1);
    KeepsOuter(c, c1, last, k);
  }

  // ---------------------------------------------------------------- WHILE

  /** ENDWHILE after a body that ended with r: the loop is left. */
  lemma WhileExit(prog: seq<Phrase>, fuel: nat, i: int, cond: Cond, body: Stmt, last: seq<Construct>, c: Config,
                  r: Result, n1: nat, c1: Config) returns (c2: Config)
    requires 0 <= i && LoopAt(prog, i, body, PEndwhile(Keyword(KEndwhile))) && |last| + 1 < MAX_LOOPS
    requires |c.loops| == MAX_LOOPS && c.loops[|last| + 1] == WhileRecord(i, i + 1 + Len(body), cond)
    requires Simulated(prog, fuel, r, c, n1, c1, last + [CWhile], i + 1 + Len(body)) && !Quits(r)
    requires r.Broken? || cond(r.s.store) != Some(true)
    ensures r.Broken? || cond(r.s.store).Some? ==>
      Simulated(prog, fuel, Normal(r.s), c, n1 + 1, c2, last, i + Len(body) + 2)
    ensures !r.Broken? && cond(r.s.store).None? ==>
      Simulated(prog, fuel, Failure(EvalFault), c, n1 + 1, c2, last, i + Len(body) + 2)
  {
    hide Sound, OpenAll, LoopAt, Keyword, Arrived, StmtAt, CountCases, LoopsKept, CartonsKept, Step, Path, PhraseAt,
      Len, Stands, Holds, Simulated;
    c2 := Step(prog, c1);
    LoopParts(prog, i, body, PEndwhile(Keyword(KEndwhile)));
    LoopEnd(prog, i, body, PEndwhile(Keyword(KEndwhile)));
    var end := i + 1 + Len(body);
    BodyEnds(prog, fuel, r, c, n1, c1, last, CWhile, end);
    SimulatedPath(prog, fuel, r, c, n1, c1, last + [CWhile], end);
    var breakIn := if r.Broken? then Some(CWhile) else None;
    TurnEndwhile(prog, i, end, cond, last, r.s, c1, breakIn);
    if r.Broken? || cond(r.s.store).Some? {
      CloseTurn(prog, fuel, c1, last, CWhile, r.s, end + 1, end, r.s, breakIn);
      Compose(prog, fuel, fuel, Normal(r.s), c, n1, c1, 1, Step(prog, c1), last, end + 1);
    } else {
      FailTurn(prog, fuel, c1, EvalFault, last, end + 1);
      Compose(prog, fuel, fuel, Failure(EvalFault), c, n1, c1, 1, Step(prog, c1), last, end + 1);
    }
  }

  /** ENDWHILE with a true condition: back to the first line of the body. */
  lemma WhileAgain(prog: seq<Phrase>, fuel: nat, i: int, cond: Cond, body: Stmt, last: seq<Construct>, c: Config,
                   r: Result, n1: nat, c1: Config) returns (c2: Config)
    requires 0 <= i && LoopAt(prog, i, body, PEndwhile(Keyword(KEndwhile))) && |last| + 1 < MAX_LOOPS
    requires |c.loops| == MAX_LOOPS && c.loops[|last| + 1] == WhileRecord(i, i + 1 + Len(body), cond)
    requires Simulated(prog, fuel, r, c, n1, c1, last + [CWhile], i + 1 + Len(body)) && (r.Normal? || r.Continued?)
    requires cond(r.s.store) == Some(true)
    ensures
      && Path(prog, c, n1 + 1, c2) && Keeps(c, c2, last) && Good(prog, c2)
      && Ready(c2, last + [CWhile], r.s, i + 1, None)
      && c2.loops[|last| + 1] == WhileRecord(i, i + 1 + Len(body), cond)
  {
    hide Sound, OpenAll, LoopAt, Keyword, Arrived, StmtAt, CountCases, LoopsKept, CartonsKept, Step, Path, PhraseAt,
      Len, Stands, Holds, Simulated;
    LoopParts(prog, i, body, PEndwhile(Keyword(KEndwhile)));
    LoopEnd(prog, i, body, PEndwhile(Keyword(KEndwhile)));
    var inner, end := last + [CWhile], i + 1 + Len(body);
    BodyEnds(prog, fuel, r, c, n1, c1, last, CWhile, end);
    SimulatedPath(prog, fuel, r, c, n1, c1, inner, end);
    TurnEndwhile(prog, i, end, cond, last, r.s, c1, None);
    c2 := Step(prog, c1);
    InsideTurn(prog, c1, inner, r.s, i + 1, end, r.s);
    KeepsOuter(c1, c2, last, CWhile);
    KeptTop(c1, c2, last, CWhile);
    KeepsTrans(c, c1, c2, last);
    PathTrans(prog, c, n1, c1, 1, c2);
  }

  lemma {:induction false} SimWhileLoop(prog: seq<Phrase>, fuel: nat, i: int, cond: Cond, body: Stmt,
                                        last: seq<Construct>, st: State, c: Config)
    returns (n: nat, c': Config)
    requires 0 <= i && LoopAt(prog, i, body, PEndwhile(Keyword(KEndwhile))) && |last| + 1 < MAX_LOOPS
    requires Ready(c, last + [CWhile], st, i + 1, None) && Good(prog, c)
    requires c.loops[|last| + 1] == WhileRecord(i, i + 1 + Len(body), cond)
    ensures Simulated(prog, fuel, WhileLoop(fuel, last + [CWhile], cond, body, st), c, n, c', last, i + Len(body) + 2)
    decreases fuel, body, 4
  {
    hide Sound, OpenAll, StmtAt, LoopAt, CountCases, LoopsKept, CartonsKept, Step, Path, PhraseAt, Exec, Len, Stands,
      Holds, Simulated, Keyword;
    LoopParts(prog, i, body, PEndwhile(Keyword(KEndwhile)));
    ReadyTables(c, last + [CWhile], st, i + 1, None);
    var inner, end, next := last + [CWhile], i + 1 + Len(body), i + Len(body) + 2;
    var r := Exec(fuel, inner, body, st);
    var n1, c1 := SimStmt(prog, fuel, i + 1, body, inner, st, c);
    if Quits(r) {
      n, c' := n1, c1;
      PassOn(prog, fuel, r, c, n1, c1, inner, end, last, end + 1);
    } else if r.Broken? || cond(r.s.store) != Some(true) {
      n := n1 + 1;
      c' := WhileExit(prog, fuel, i, cond, body, last, c, r, n1, c1);
    } else if fuel == 0 {
      n, c' := n1, c1;
      Starved(prog, fuel, r, c, n1, c1, inner, end, last, end + 1);
    } else {
      var c2 := WhileAgain(prog, fuel, i, cond, body, last, c, r, n1, c1);
      var n3, c3 := SimWhileLoop(prog, fuel - 1, i, cond, body, last, r.s, c2);
      n, c' := n1 + 1 + n3, c3;
      var rest := WhileLoop(fuel - 1, inner, cond, body, r.s);
      Compose(prog, fuel, fuel - 1, rest, c, n1 + 1, c2, n3, c3, last, next);
    }
  }

  lemma SimulatedPath(prog: seq<Phrase>, fuel: nat, r: Result, c: Config, n: nat, c1: Config, last: seq<Construct>,
                      next: int)
    requires Simulated(prog, fuel, r, c, n, c1, last, next)
    ensures Path(prog, c, n, c1)
  {
    hide Path, Arrived;
  }

  lemma KeptTop(c: Config, c': Config, last: seq<Construct>, k: Construct)
    requires Keeps(c, c', last + [k]) && |last| + 1 < MAX_LOOPS
    ensures c'.loops[|last| + 1] == c.loops[|last| + 1]
  {
    hide CountCases;
  }

  /** With no fuel left the machine is simply still running. */
  lemma Starved(prog: seq<Phrase>, fuel: nat, r: Result, c: Config, n: nat, c1: Config, inner: seq<Construct>, i: int,
                last: seq<Construct>, next: int)
    requires Simulated(prog, fuel, r, c, n, c1, inner, i) && (r.Normal? || r.Continued?)
    ensures Simulated(prog, 0, OutOfFuel, c, n, c1, last, next)
  {
    hide Path;
  }

  // ---------------------------------------------------------------- FOR

  /** ENDFOR after a body that ended with r: the loop is left. */
  lemma ForExit(prog: seq<Phrase>, fuel: nat, i: int, loop: Loop, body: Stmt, last: seq<Construct>, c: Config,
                r: Result, n1: nat, c1: Config, st': State)
    returns (c2: Config)
    requires 0 <= i && LoopAt(prog, i, body, PEndfor(Keyword(KEndfor))) && |last| + 1 < MAX_LOOPS
    requires loop.loopType == LT_FOR
    requires |c.loops| == MAX_LOOPS && c.loops[|last| + 1] == Placed(loop, i, i + 1 + Len(body))
    requires Simulated(prog, fuel, r, c, n1, c1, last + [CFor], i + 1 + Len(body)) && !Quits(r)
    requires var (loop1, store1, ended) := ForPass(loop, r.s.store, Mentions(Flatten(body), loop.loopVar));
      (r.Broken? && st' == r.s) || (!r.Broken? && ended && st' == r.s.(store := store1))
    ensures Simulated(prog, fuel, Normal(st'), c, n1 + 1, c2, last, i + Len(body) + 2)
  {
    hide Sound, OpenAll, LoopAt, Keyword, Arrived, ForPass, StmtAt, CountCases, LoopsKept, CartonsKept, Step, Path,
      PhraseAt, Len, Stands, Holds, Simulated, Mentions, Flatten;
    LoopEnd(prog, i, body, PEndfor(Keyword(KEndfor)));
    c2 := Step(prog, c1);
    var end := i + 1 + Len(body);
    BodyEnds(prog, fuel, r, c, n1, c1, last, CFor, end);
    SimulatedPath(prog, fuel, r, c, n1, c1, last + [CFor], end);
    var breakIn := if r.Broken? then Some(CFor) else None;
    TurnEndforNumeric(prog, i, body, loop, last, r.s, c1, breakIn);
    CloseTurn(prog, fuel, c1, last, CFor, st', end + 1, end, r.s, breakIn);
    Compose(prog, fuel, fuel, Normal(st'), c, n1, c1, 1, c2, last, end + 1);
  }

  /** ENDFOR with passes left: back to the first line of the body with the next counter. */
  lemma ForAgain(prog: seq<Phrase>, fuel: nat, i: int, loop: Loop, body: Stmt, last: seq<Construct>, c: Config,
                 r: Result, n1: nat, c1: Config, st': State)
    returns (c2: Config)
    requires 0 <= i && LoopAt(prog, i, body, PEndfor(Keyword(KEndfor))) && |last| + 1 < MAX_LOOPS
    requires loop.loopType == LT_FOR && loop.step != 0
    requires |c.loops| == MAX_LOOPS && c.loops[|last| + 1] == Placed(loop, i, i + 1 + Len(body))
    requires Simulated(prog, fuel, r, c, n1, c1, last + [CFor], i + 1 + Len(body)) && (r.Normal? || r.Continued?)
    requires var (loop1, store1, ended) := ForPass(loop, r.s.store, Mentions(Flatten(body), loop.loopVar));
      !ended && st' == r.s.(store := store1)
    ensures var (loop1, store1, ended) := ForPass(loop, r.s.store, Mentions(Flatten(body), loop.loopVar));
      && Path(prog, c, n1 + 1, c2) && Keeps(c, c2, last) && Good(prog, c2)
      && Ready(c2, last + [CFor], st', i + 1, None)
      && c2.loops[|last| + 1] == Placed(loop1, i, i + 1 + Len(body))
  {
    hide Sound, OpenAll, LoopAt, Keyword, Arrived, StmtAt, CountCases, LoopsKept, CartonsKept, Step, Path, PhraseAt,
      Len, Stands, Holds, Simulated, Mentions, Flatten, OpenTop;
    LoopEnd(prog, i, body, PEndfor(Keyword(KEndfor)));
    c2 := Step(prog, c1);
    var inner, end := last + [CFor], i + 1 + Len(body);
    BodyEnds(prog, fuel, r, c, n1, c1, last, CFor, end);
    SimulatedPath(prog, fuel, r, c, n1, c1, inner, end);
    TurnEndforNumeric(prog, i, body, loop, last, r.s, c1, None);
    AgainTurn(prog, c1, last, CFor, r.s, end, st', i + 1);
    KeepsTrans(c, c1, c2, last);
    PathTrans(prog, c, n1, c1, 1, c2);
  }

  /** A turn back to the top of a loop whose own record changes but stays open at the same place. */
  lemma AgainTurn(prog: seq<Phrase>, c: Config, last: seq<Construct>, k: Construct, st: State, i: int, st': State,
                  next: int)
    requires Good(prog, c) && Ready(c, last + [k], st, i, None) && 0 <= next <= |prog|
    requires k == CFor || k == CForeach
    requires |last| + 1 < MAX_LOOPS
    requires Ready(Step(prog, c), last + [k], st', next, None) && Keeps(c, Step(prog, c), last)
    requires var a, b := c.loops[|last| + 1], Step(prog, c).loops[|last| + 1];
      a.loopType == b.loopType && a.forEndPos == b.forEndPos && a.repeatFrom == b.repeatFrom && a.step == b.step
    ensures Path(prog, c, 1, Step(prog, c)) && Good(prog, Step(prog, c))
  {
    hide Sound, OpenAll, CountCases, LoopsKept, CartonsKept, Step, Path, Stands, Holds, Opened;
    var c1 := Step(prog, c);
    GoodOpen(prog, c, last + [k], st, i, None);
    OpenPush(prog, last, k, c.loops, c.wc);
    ReadyTables(c, last + [k], st, i, None);
    ReadyTables(c1, last + [k], st', next, None);
    OpenKeeps(prog, last, c, c1);
    OpenPush(prog, last, k, c1.loops, c1.wc);
    GoodReady(prog, c1, last + [k], st', next, None);
    PathOne(prog, c);
  }

  lemma {:induction false} SimForLoop(prog: seq<Phrase>, fuel: nat, i: int, loop: Loop, body: Stmt,
                                      last: seq<Construct>, st: State, c: Config)
    returns (n: nat, c': Config)
    requires 0 <= i && LoopAt(prog, i, body, PEndfor(Keyword(KEndfor))) && |last| + 1 < MAX_LOOPS
    requires loop.loopType == LT_FOR && loop.step != 0
    requires Ready(c, last + [CFor], st, i + 1, None) && Good(prog, c)
    requires c.loops[|last| + 1] == Placed(loop, i, i + 1 + Len(body))
    ensures Simulated(prog, fuel, ForLoop(fuel, last + [CFor], loop, body, st), c, n, c', last, i + Len(body) + 2)
    decreases fuel, body, 3 + ForLeft(loop)
  {
    hide Sound, OpenAll, StmtAt, LoopAt, CountCases, LoopsKept, CartonsKept, Step, Path, PhraseAt, Exec, Len, Stands,
      Holds, Simulated, Keyword, Mentions, Flatten;
    LoopParts(prog, i, body, PEndfor(Keyword(KEndfor)));
    ReadyTables(c, last + [CFor], st, i + 1, None);
    var inner, end, next := last + [CFor], i + 1 + Len(body), i + Len(body) + 2;
    var r := Exec(fuel, inner, body, st);
    var n1, c1 := SimStmt(prog, fuel, i + 1, body, inner, st, c);
    if Quits(r) {
      n, c' := n1, c1;
      PassOn(prog, fuel, r, c, n1, c1, inner, end, last, next);
    } else {
      var (loop1, store1, ended) := ForPass(loop, r.s.store, Mentions(Flatten(body), loop.loopVar));
      var st1 := if r.Broken? then r.s else r.s.(store := store1);
      if r.Broken? || ended {
        n := n1 + 1;
        c' := ForExit(prog, fuel, i, loop, body, last, c, r, n1, c1, st1);
      } else {
        var c2 := ForAgain(prog, fuel, i, loop, body, last, c, r, n1, c1, st1);
        var n3, c3 := SimForLoop(prog, fuel, i, loop1, body, last, st1, c2);
        n, c' := n1 + 1 + n3, c3;
        Compose(prog, fuel, fuel, ForLoop(fuel, inner, loop1, body, st1), c, n1 + 1, c2, n3, c3, last, next);
      }
    }
  }

  // ---------------------------------------------------------------- FOREACH

  /** ENDFOR of a FOREACH after a body that ended with r: the loop is left. */
  lemma ForeachExit(prog: seq<Phrase>, fuel: nat, i: int, loop: Loop, body: Stmt, last: seq<Construct>, c: Config,
                    r: Result, n1: nat, c1: Config, st': State)
    returns (c2: Config)
    requires 0 <= i && LoopAt(prog, i, body, PEndfor(Keyword(KEndfor))) && |last| + 1 < MAX_LOOPS
    requires loop.loopType == LT_FOREACH
    requires |c.loops| == MAX_LOOPS && c.loops[|last| + 1] == Placed(loop, i, i + 1 + Len(body))
    requires Simulated(prog, fuel, r, c, n1, c1, last + [CForeach], i + 1 + Len(body)) && !Quits(r)
    requires var (loop1, store1, ended) := ForeachPass(loop, r.s.store);
      (r.Broken? && st' == r.s) || (!r.Broken? && ended && st' == r.s.(store := store1))
    ensures Simulated(prog, fuel, Normal(st'), c, n1 + 1, c2, last, i + Len(body) + 2)
  {
    hide Sound, OpenAll, LoopAt, Keyword, Arrived, ForeachPass, StmtAt, CountCases, LoopsKept, CartonsKept, Step, Path,
      PhraseAt, Len, Stands, Holds, Simulated;
    LoopEnd(prog, i, body, PEndfor(Keyword(KEndfor)));
    c2 := Step(prog, c1);
    var end := i + 1 + Len(body);
    BodyEnds(prog, fuel, r, c, n1, c1, last, CForeach, end);
    SimulatedPath(prog, fuel, r, c, n1, c1, last + [CForeach], end);
    var breakIn := if r.Broken? then Some(CForeach) else None;
    TurnEndforList(prog, i, body, loop, last, r.s, c1, breakIn);
    CloseTurn(prog, fuel, c1, last, CForeach, st', end + 1, end, r.s, breakIn);
    Compose(prog, fuel, fuel, Normal(st'), c, n1, c1, 1, c2, last, end + 1);
  }

  /** ENDFOR of a FOREACH with items left: back to the first line of the body with the next item. */
  lemma ForeachAgain(prog: seq<Phrase>, fuel: nat, i: int, loop: Loop, body: Stmt, last: seq<Construct>, c: Config,
                     r: Result, n1: nat, c1: Config, st': State)
    returns (c2: Config)
    requires 0 <= i && LoopAt(prog, i, body, PEndfor(Keyword(KEndfor))) && |last| + 1 < MAX_LOOPS
    requires loop.loopType == LT_FOREACH
    requires |c.loops| == MAX_LOOPS && c.loops[|last| + 1] == Placed(loop, i, i + 1 + Len(body))
    requires Simulated(prog, fuel, r, c, n1, c1, last + [CForeach], i + 1 + Len(body)) && (r.Normal? || r.Continued?)
    requires var (loop1, store1, ended) := ForeachPass(loop, r.s.store);
      !ended && st' == r.s.(store := store1)
    ensures var (loop1, store1, ended) := ForeachPass(loop, r.s.store);
      && Path(prog, c, n1 + 1, c2) && Keeps(c, c2, last) && Good(prog, c2)
      && Ready(c2, last + [CForeach], st', i + 1, None)
      && c2.loops[|last| + 1] == Placed(loop1, i, i + 1 + Len(body))
  {
    hide Sound, OpenAll, LoopAt, Keyword, Arrived, StmtAt, CountCases, LoopsKept, CartonsKept, Step, Path, PhraseAt,
      Len, Stands, Holds, Simulated, OpenTop;
    LoopEnd(prog, i, body, PEndfor(Keyword(KEndfor)));
    c2 := Step(prog, c1);
    var inner, end := last + [CForeach], i + 1 + Len(body);
    BodyEnds(prog, fuel, r, c, n1, c1, last, CForeach, end);
    SimulatedPath(prog, fuel, r, c, n1, c1, inner, end);
    TurnEndforList(prog, i, body, loop, last, r.s, c1, None);
    AgainTurn(prog, c1, last, CForeach, r.s, end, st', i + 1);
    KeepsTrans(c, c1, c2, last);
    PathTrans(prog, c, n1, c1, 1, c2);
  }

  lemma {:induction false} SimForeachLoop(prog: seq<Phrase>, fuel: nat, i: int, loop: Loop, body: Stmt,
                                          last: seq<Construct>, st: State, c: Config)
    returns (n: nat, c': Config)
    requires 0 <= i && LoopAt(prog, i, body, PEndfor(Keyword(KEndfor))) && |last| + 1 < MAX_LOOPS
    requires loop.loopType == LT_FOREACH
    requires Ready(c, last + [CForeach], st, i + 1, None) && Good(prog, c)
    requires c.loops[|last| + 1] == Placed(loop, i, i + 1 + Len(body))
    ensures Simulated(prog, fuel, ForeachLoop(fuel, last + [CForeach], loop, body, st), c, n, c', last,
                      i + Len(body) + 2)
    decreases fuel, body, 3 + ForeachLeft(loop)
  {
    hide Sound, OpenAll, StmtAt, LoopAt, CountCases, LoopsKept, CartonsKept, Step, Path, PhraseAt, Exec, Len, Stands,
      Holds, Simulated, Keyword;
    LoopParts(prog, i, body, PEndfor(Keyword(KEndfor)));
    ReadyTables(c, last + [CForeach], st, i + 1, None);
    var inner, end, next := last + [CForeach], i + 1 + Len(body), i + Len(body) + 2;
    var r := Exec(fuel, inner, body, st);
    var n1, c1 := SimStmt(prog, fuel, i + 1, body, inner, st, c);
    if Quits(r) {
      n, c' := n1, c1;
      PassOn(prog, fuel, r, c, n1, c1, inner, end, last, next);
    } else {
      var (loop1, store1, ended) := ForeachPass(loop, r.s.store);
      var st1 := if r.Broken? then r.s else r.s.(store := store1);
      if r.Broken? || ended {
        n := n1 + 1;
        c' := ForeachExit(prog, fuel, i, loop, body, last, c, r, n1, c1, st1);
      } else {
        var c2 := ForeachAgain(prog, fuel, i, loop, body, last, c, r, n1, c1, st1);
        var n3, c3 := SimForeachLoop(prog, fuel, i, loop1, body, last, st1, c2);
        n, c' := n1 + 1 + n3, c3;
        Compose(prog, fuel, fuel, ForeachLoop(fuel, inner, loop1, body, st1), c, n1 + 1, c2, n3, c3, last, next);
      }
    }
  }

  // ---------------------------------------------------------------- entering a loop

  /** A turn that opens a construct. */
  lemma EnterTurn(prog: seq<Phrase>, c: Config, last: seq<Construct>, k: Construct, st: State, i: int, st': State,
                  next: int)
    requires Good(prog, c) && Ready(c, last, st, i, None) && 0 <= next <= |prog|
    requires Ready(Step(prog, c), last + [k], st', next, None) && Keeps(c, Step(prog, c), last)
    requires OpenTop(prog, last + [k], Step(prog, c).loops, Step(prog, c).wc)
    ensures Path(prog, c, 1, Step(prog, c)) && Good(prog, Step(prog, c))
  {
    hide Sound, OpenAll, OpenTop, CountCases, LoopsKept, CartonsKept, Step, Path, Stands, Holds;
    GoodOpen(prog, c, last, st, i, None);
    PushTurn(prog, c, last, k, st', next);
    PathEnd(prog, c, 1, Step(prog, c));
  }

  /** A turn that goes past the statement at once. */
  lemma PassTurn(prog: seq<Phrase>, fuel: nat, c: Config, last: seq<Construct>, st: State, i: int, st': State,
                 next: int)
    requires Good(prog, c) && Ready(c, last, st, i, None) && 0 <= next <= |prog|
    requires Ready(Step(prog, c), last, st', next, None) && Keeps(c, Step(prog, c), last)
    ensures Simulated(prog, fuel, Normal(st'), c, 1, Step(prog, c), last, next)
  {
    hide Sound, OpenAll, CountCases, LoopsKept, CartonsKept, Step, Path, Stands, Holds;
    InsideTurn(prog, c, last, st', next, i, st);
  }

  lemma {:induction false} SimWhile(prog: seq<Phrase>, fuel: nat, i: int, s: Stmt, last: seq<Construct>, st: State,
                                    c: Config) returns (n: nat, c': Config)
    requires s.While? && StmtAt(prog, i, s) && Ready(c, last, st, i, None) && Good(prog, c)
    ensures Simulated(prog, fuel, Exec(fuel, last, s, st), c, n, c', last, i + Len(s))
    decreases fuel, s, 2
  {
    hide Sound, OpenAll, OpenTop, StmtAt, LoopAt, CountCases, LoopsKept, CartonsKept, Step, Path, PhraseAt, Len,
      Stands, Holds, Keyword, Simulated, WhileLoop;
    StmtParts(prog, i, s);
    LenParts(s);
    TurnWhile(prog, i, s.cond, s.words, s.body, last, st, c);
    var c1, next := Step(prog, c), i + Len(s);
    match s.cond(st.store)
    case None =>
      n, c' := 1, c1;
      FailTurn(prog, fuel, c, EvalFault, last, next);
    case Some(false) =>
      n, c' := 1, c1;
      PassTurn(prog, fuel, c, last, st, i, st, next);
    case Some(true) =>
      if |last| + 1 >= MAX_LOOPS {
        n, c' := 1, c1;
        FailTurn(prog, fuel, c, IndexPanic, last, next);
      } else {
        EnterTurn(prog, c, last, CWhile, st, i, st, i + 1);
        var n2, c2 := SimWhileLoop(prog, fuel, i, s.cond, s.body, last, st, c1);
        n, c' := 1 + n2, c2;
        Compose(prog, fuel, fuel, WhileLoop(fuel, last + [CWhile], s.cond, s.body, st), c, 1, c1, n2, c2, last, next);
      }
  }

  /** A FOR whose range is empty: straight to ENDFOR, and out. */
  lemma ForEmpty(prog: seq<Phrase>, fuel: nat, i: int, loop: Loop, body: Stmt, last: seq<Construct>, st: State,
                 c: Config)
    requires 0 <= i && LoopAt(prog, i, body, PEndfor(Keyword(KEndfor))) && |last| + 1 < MAX_LOOPS
    requires loop.loopType == LT_FOR && Beyond(loop.counter, loop.condEnd, loop.step)
    requires Ready(c, last + [CFor], st, i + 1 + Len(body), None) && Good(prog, c)
    requires c.loops[|last| + 1] == Placed(loop, i, i + 1 + Len(body))
    ensures Simulated(prog, fuel, Normal(st.(store := ForPass(loop, st.store,
                                                              Mentions(Flatten(body), loop.loopVar)).1)),
                    c, 1, Step(prog, c), last, i + Len(body) + 2)
  {
    hide Sound, OpenAll, OpenTop, StmtAt, LoopAt, CountCases, LoopsKept, CartonsKept, Step, Path, PhraseAt, Len,
      Stands, Holds, Keyword, Simulated, Mentions, Flatten;
    LoopEnd(prog, i, body, PEndfor(Keyword(KEndfor)));
    var end := i + 1 + Len(body);
    TurnEndforNumeric(prog, i, body, loop, last, st, c, None);
    CloseTurn(prog, fuel, c, last, CFor, st.(store := ForPass(loop, st.store,
                                                              Mentions(Flatten(body), loop.loopVar)).1), end + 1, end,
                                                              st, None);
  }

  lemma {:induction false} SimFor(prog: seq<Phrase>, fuel: nat, i: int, s: Stmt, last: seq<Construct>, st: State,
                                  c: Config) returns (n: nat, c': Config)
    requires s.For? && StmtAt(prog, i, s) && Ready(c, last, st, i, None) && Good(prog, c)
    ensures Simulated(prog, fuel, Exec(fuel, last, s, st), c, n, c', last, i + Len(s))
    decreases fuel, s, 2
  {
    hide Sound, OpenAll, OpenTop, StmtAt, LoopAt, CountCases, LoopsKept, CartonsKept, Step, Path, PhraseAt, Len,
      Stands, Holds, Keyword, Simulated, ForLoop, Mentions, Flatten, Beyond, ForPass;
    StmtParts(prog, i, s);
    LenParts(s);
    LoopEnd(prog, i, s.body, PEndfor(Keyword(KEndfor)));
    TurnFor(prog, i, s, last, st, c);
    var c1, next := Step(prog, c), i + Len(s);
    match (s.start(st.store), s.end(st.store), s.step(st.store))
    case (Some(a), Some(b), Some(d)) =>
      if d == 0 {
        n, c' := 1, c1;
        FailTurn(prog, fuel, c, StepZero, last, next);
      } else if |last| + 1 >= MAX_LOOPS {
        n, c' := 1, c1;
        FailTurn(prog, fuel, c, IndexPanic, last, next);
      } else {
        var st1 := st.(store := st.store[s.v := IntV(a)]);
        var loop := ForStart(s.v, a, b, d);
        if Beyond(a, b, d) {
          EnterTurn(prog, c, last, CFor, st, i, st1, i + 1 + Len(s.body));
          ForEmpty(prog, fuel, i, loop, s.body, last, st1, c1);
          n, c' := 2, Step(prog, c1);
          Compose(prog, fuel, fuel, Normal(st1.(store := ForPass(loop, st1.store, Mentions(Flatten(s.body), s.v)).1)),
                  c, 1, c1, 1, c', last, next);
        } else {
          EnterTurn(prog, c, last, CFor, st, i, st1, i + 1);
          var n2, c2 := SimForLoop(prog, fuel, i, loop, s.body, last, st1, c1);
          n, c' := 1 + n2, c2;
          Compose(prog, fuel, fuel, ForLoop(fuel, last + [CFor], loop, s.body, st1), c, 1, c1, n2, c2, last, next);
        }
      }
    case _ =>
      n, c' := 1, c1;
      FailTurn(prog, fuel, c, EvalFault, last, next);
  }

  lemma {:induction false} SimForeach(prog: seq<Phrase>, fuel: nat, i: int, s: Stmt, last: seq<Construct>, st: State,
                                      c: Config) returns (n: nat, c': Config)
    requires s.Foreach? && StmtAt(prog, i, s) && Ready(c, last, st, i, None) && Good(prog, c)
    ensures Simulated(prog, fuel, Exec(fuel, last, s, st), c, n, c', last, i + Len(s))
    decreases fuel, s, 2
  {
    hide Sound, OpenAll, OpenTop, StmtAt, LoopAt, CountCases, LoopsKept, CartonsKept, Step, Path, PhraseAt, Len,
      Stands, Holds, Keyword, Simulated, ForeachLoop, KeyVar;
    StmtParts(prog, i, s);
    LenParts(s);
    TurnForeach(prog, i, s, last, st, c);
    var c1, next := Step(prog, c), i + Len(s);
    match s.list(st.store)
    case None =>
      n, c' := 1, c1;
      FailTurn(prog, fuel, c, EvalFault, last, next);
    case Some(items) =>
      if |items| == 0 {
        n, c' := 1, c1;
        PassTurn(prog, fuel, c, last, st, i, st, next);
      } else if |last| + 1 >= MAX_LOOPS {
        n, c' := 1, c1;
        FailTurn(prog, fuel, c, IndexPanic, last, next);
      } else {
        var st1 := st.(store := st.store[KeyVar(s.v) := IntV(0)][s.v := items[0]]);
        EnterTurn(prog, c, last, CForeach, st, i, st1, i + 1);
        var n2, c2 := SimForeachLoop(prog, fuel, i, ForeachStart(s.v, items), s.body, last, st1, c1);
        n, c' := 1 + n2, c2;
        Compose(prog, fuel, fuel, ForeachLoop(fuel, last + [CForeach], ForeachStart(s.v, items), s.body, st1), c, 1,
                c1, n2, c2, last, next);
      }
  }

  // ---------------------------------------------------------------- sequence

  /** A statement that ended normally leaves the machine on the next line. */
  lemma NormalEnd(prog: seq<Phrase>, fuel: nat, r: Result, c: Config, n: nat, c1: Config, last: seq<Construct>,
                  next: int)
    requires Simulated(prog, fuel, r, c, n, c1, last, next) && r.Normal?
    ensures Path(prog, c, n, c1) && Good(prog, c1) && Ready(c1, last, r.s, next, None) && Keeps(c, c1, last)
  {
    hide Path, Sound, Stands, Holds, LoopsKept, CartonsKept, CountCases;
    PathEnd(prog, c, n, c1);
  }

  /** Any other end does not depend on where the next line is. */
  lemma Elsewhere(prog: seq<Phrase>, fuel: nat, r: Result, c: Config, n: nat, c1: Config, last: seq<Construct>,
                  next: int, next': int)
    requires Simulated(prog, fuel, r, c, n, c1, last, next) && !r.Normal?
    ensures Simulated(prog, fuel, r, c, n, c1, last, next')
  {
    hide Path, Stands, Holds, LoopsKept, CartonsKept, CountCases;
  }

  lemma {:induction false} SimSeq(prog: seq<Phrase>, fuel: nat, i: int, s: Stmt, last: seq<Construct>, st: State,
                                  c: Config) returns (n: nat, c': Config)
    requires s.Seq? && StmtAt(prog, i, s) && Ready(c, last, st, i, None) && Good(prog, c)
    ensures Simulated(prog, fuel, Exec(fuel, last, s, st), c, n, c', last, i + Len(s))
    decreases fuel, s, 2
  {
    hide Sound, OpenAll, OpenTop, StmtAt, LoopAt, CountCases, LoopsKept, CartonsKept, Step, Path, PhraseAt, Len,
      Stands, Holds, Keyword, Simulated;
    StmtParts(prog, i, s);
    LenParts(s);
    var r := Exec(fuel, last, s.first, st);
    var n1, c1 := SimStmt(prog, fuel, i, s.first, last, st, c);
    if r.Normal? {
      NormalEnd(prog, fuel, r, c, n1, c1, last, i + Len(s.first));
      var n2, c2 := SimStmt(prog, fuel, i + Len(s.first), s.rest, last, r.s, c1);
      n, c' := n1 + n2, c2;
      Compose(prog, fuel, fuel, Exec(fuel, last, s.rest, r.s), c, n1, c1, n2, c2, last, i + Len(s));
    } else {
      n, c' := n1, c1;
      Elsewhere(prog, fuel, r, c, n1, c1, last, i + Len(s.first), i + Len(s));
    }
  }

  // ---------------------------------------------------------------- IF

  /** ENDIF. */
  lemma LeaveTurn(prog: seq<Phrase>, fuel: nat, i: int, last: seq<Construct>, st: State, c: Config)
    requires PhraseAt(prog, i, PEndif(Keyword(KEndif))) && Ready(c, last, st, i, None) && Good(prog, c)
    ensures Simulated(prog, fuel, Leave(st), c, 1, Step(prog, c), last, i + 1)
  {
    hide Sound, OpenAll, CountCases, LoopsKept, CartonsKept, Step, Path, Stands, Holds, Keyword;
    TurnEndif(prog, i, last, st, c);
    if |st.ifm| == 0 {
      FailTurn(prog, fuel, c, WrongEnd, last, i + 1);
    } else {
      PassTurn(prog, fuel, c, last, st, i, st.(ifm := st.ifm[..|st.ifm| - 1]), i + 1);
    }
  }

  /** After a jump onto the ENDIF. */
  lemma JumpLeave(prog: seq<Phrase>, fuel: nat, i: int, end: int, last: seq<Construct>, st: State,
                  c: Config) returns (n: nat, c': Config)
    requires PhraseAt(prog, end, PEndif(Keyword(KEndif))) && Ready(c, last, st, i, None) && Good(prog, c)
    requires Ready(Step(prog, c), last, st, end, None) && Keeps(c, Step(prog, c), last)
    ensures Simulated(prog, fuel, Leave(st), c, n, c', last, end + 1)
  {
    hide Sound, OpenAll, CountCases, LoopsKept, CartonsKept, Step, Path, Stands, Holds, Keyword, Leave;
    var c1 := Step(prog, c);
    InsideTurn(prog, c, last, st, end, i, st);
    LeaveTurn(prog, fuel, end, last, st, c1);
    n, c' := 2, Step(prog, c1);
    Compose(prog, fuel, fuel, Leave(st), c, 1, c1, 1, c', last, end + 1);
  }

  /** A branch body run from c, then its tail reached. */
  lemma {:induction false} SimBranch(prog: seq<Phrase>, fuel: nat, i: int, thn: Stmt, tail: Tail, last: seq<Construct>,
                                     st: State, c: Config, t: Tail)
    returns (n: nat, c': Config)
    requires StmtAt(prog, i, thn) && TailAt(prog, i + Len(thn), tail) && Ready(c, last, st, i, None) && Good(prog, c)
    requires t.ElseIf? && t.thn == thn && t.tail == tail
    ensures Simulated(prog, fuel, Then(fuel, last, tail, Exec(fuel, last, thn, st)), c, n, c', last,
                      i + Len(thn) + LenTail(tail))
    decreases fuel, t, 3
  {
    hide Sound, OpenAll, OpenTop, StmtAt, LoopAt, TailAt, CountCases, LoopsKept, CartonsKept, Step, Path, PhraseAt,
      Len, LenTail, Stands, Holds, Keyword, Simulated, ReachTail;
    var r := Exec(fuel, last, thn, st);
    var n1, c1 := SimStmt(prog, fuel, i, thn, last, st, c);
    var next := i + Len(thn) + LenTail(tail);
    if r.Normal? {
      NormalEnd(prog, fuel, r, c, n1, c1, last, i + Len(thn));
      var n2, c2 := SimReach(prog, fuel, i + Len(thn), tail, last, r.s, c1);
      n, c' := n1 + n2, c2;
      Compose(prog, fuel, fuel, ReachTail(fuel, last, tail, r.s), c, n1, c1, n2, c2, last, next);
    } else {
      n, c' := n1, c1;
      Elsewhere(prog, fuel, r, c, n1, c1, last, i + Len(thn), next);
    }
  }

  /** What a branch's result means for the whole IF. */
  ghost function Then(fuel: nat, last: seq<Construct>, tail: Tail, r: Result): Result {
    if r.Normal? then ReachTail(fuel, last, tail, r.s) else r
  }

  lemma {:induction false} SimReach(prog: seq<Phrase>, fuel: nat, i: int, t: Tail, last: seq<Construct>, st: State,
                                    c: Config) returns (n: nat, c': Config)
    requires TailAt(prog, i, t) && Ready(c, last, st, i, None) && Good(prog, c)
    ensures Simulated(prog, fuel, ReachTail(fuel, last, t, st), c, n, c', last, i + LenTail(t))
    decreases fuel, t, 4
  {
    hide Sound, OpenAll, OpenTop, StmtAt, LoopAt, TailAt, CountCases, LoopsKept, CartonsKept, Step, Path, PhraseAt,
      Len, LenTail, Stands, Holds, Keyword, Simulated, Leave;
    TailParts(prog, i, t);
    LenTailParts(t);
    FindEndif(prog, i, t);
    var c1, end := Step(prog, c), i + LenTail(t) - 1;
    match t
    case EndIf =>
      LeaveTurn(prog, fuel, i, last, st, c);
      n, c' := 1, c1;
    case ElseBlock(els) =>
      TurnElse(prog, i, els, last, st, c);
      if |st.ifm| == 0 {
        n, c' := 1, c1;
        FailTurn(prog, fuel, c, IndexPanic, last, end + 1);
      } else if TopMatched(st) {
        n, c' := JumpLeave(prog, fuel, i, end, last, st, c);
      } else {
        n, c' := 1, c1;
        PassTurn(prog, fuel, c, last, st, i, st, end + 1);
      }
    case ElseIf(cond, w, thn, tail) =>
      TurnElseIf(prog, i, t, last, st, c);
      if |st.ifm| == 0 {
        n, c' := 1, c1;
        FailTurn(prog, fuel, c, IndexPanic, last, end + 1);
      } else if TopMatched(st) {
        n, c' := JumpLeave(prog, fuel, i, end, last, st, c);
      } else {
        match cond(st.store)
        case None =>
          n, c' := 1, c1;
          FailTurn(prog, fuel, c, EvalFault, last, end + 1);
        case Some(true) =>
          var st1 := st.(ifm := st.ifm[|st.ifm| - 1 := true]);
          InsideTurn(prog, c, last, st1, i + 1, i, st);
          var n2, c2 := SimBranch(prog, fuel, i + 1, thn, tail, last, st1, c1, t);
          n, c' := 1 + n2, c2;
          Compose(prog, fuel, fuel, Then(fuel, last, tail, Exec(fuel, last, thn, st1)), c, 1, c1, n2, c2, last,
                  end + 1);
        case Some(false) =>
          InsideTurn(prog, c, last, st, JumpLine(i + 1 + Len(thn), tail), i, st);
          var n2, c2 := SimJump(prog, fuel, i + 1 + Len(thn), tail, last, st, c1);
          n, c' := 1 + n2, c2;
          Compose(prog, fuel, fuel, JumpTail(fuel, last, tail, st), c, 1, c1, n2, c2, last, end + 1);
      }
  }

  lemma {:induction false} SimJump(prog: seq<Phrase>, fuel: nat, i: int, t: Tail, last: seq<Construct>, st: State,
                                   c: Config) returns (n: nat, c': Config)
    requires TailAt(prog, i, t) && Ready(c, last, st, JumpLine(i, t), None) && Good(prog, c)
    ensures Simulated(prog, fuel, JumpTail(fuel, last, t, st), c, n, c', last, i + LenTail(t))
    decreases fuel, t, 5
  {
    hide Sound, OpenAll, OpenTop, StmtAt, LoopAt, TailAt, CountCases, LoopsKept, CartonsKept, Step, Path, PhraseAt,
      Len, LenTail, Stands, Holds, Keyword, Simulated, Leave;
    TailParts(prog, i, t);
    LenTailParts(t);
    match t
    case EndIf =>
      n, c' := 0, c;
      Idle(prog, fuel, c, last, st, i + 1);
    case ElseBlock(els) =>
      LoopParts(prog, i, els, PEndif(Keyword(KEndif)));
      var r := Exec(fuel, last, els, st);
      var n1, c1 := SimStmt(prog, fuel, i + 1, els, last, st, c);
      var end := i + 1 + Len(els);
      if r.Normal? {
        NormalEnd(prog, fuel, r, c, n1, c1, last, end);
        LeaveTurn(prog, fuel, end, last, r.s, c1);
        n, c' := n1 + 1, Step(prog, c1);
        Compose(prog, fuel, fuel, Leave(r.s), c, n1, c1, 1, c', last, end + 1);
      } else {
        n, c' := n1, c1;
        Elsewhere(prog, fuel, r, c, n1, c1, last, end, end + 1);
      }
    case ElseIf(_, _, _, _) =>
      n, c' := SimReach(prog, fuel, i, t, last, st, c);
  }

  /** Nothing left to do. */
  lemma Idle(prog: seq<Phrase>, fuel: nat, c: Config, last: seq<Construct>, st: State, next: int)
    requires Ready(c, last, st, next, None) && Good(prog, c)
    ensures Simulated(prog, fuel, Normal(st), c, 0, c, last, next)
  {
    hide Sound, CountCases, Step;
  }

  lemma {:induction false} SimIf(prog: seq<Phrase>, fuel: nat, i: int, s: Stmt, last: seq<Construct>, st: State,
                                 c: Config) returns (n: nat, c': Config)
    requires s.If? && StmtAt(prog, i, s) && Ready(c, last, st, i, None) && Good(prog, c)
    ensures Simulated(prog, fuel, Exec(fuel, last, s, st), c, n, c', last, i + Len(s))
    decreases fuel, s, 2
  {
    hide Sound, OpenAll, OpenTop, StmtAt, LoopAt, TailAt, CountCases, LoopsKept, CartonsKept, Step, Path, PhraseAt,
      Len, LenTail, Stands, Holds, Keyword, Simulated, Leave;
    StmtParts(prog, i, s);
    LenParts(s);
    TailParts(prog, i + 1 + Len(s.thn), s.tail);
    LenTailParts(s.tail);
    TurnIf(prog, i, s, last, st, c);
    var c1, mid, next := Step(prog, c), i + 1 + Len(s.thn), i + Len(s);
    match s.cond(st.store)
    case None =>
      n, c' := 1, c1;
      FailTurn(prog, fuel, c, EvalFault, last, next);
    case Some(false) =>
      InsideTurn(prog, c, last, Push(st, false), JumpLine(mid, s.tail), i, st);
      var n2, c2 := SimJump(prog, fuel, mid, s.tail, last, Push(st, false), c1);
      n, c' := 1 + n2, c2;
      Compose(prog, fuel, fuel, JumpTail(fuel, last, s.tail, Push(st, false)), c, 1, c1, n2, c2, last, next);
    case Some(true) =>
      InsideTurn(prog, c, last, Push(st, true), i + 1, i, st);
      var r := Exec(fuel, last, s.thn, Push(st, true));
      var n1, c2 := SimStmt(prog, fuel, i + 1, s.thn, last, Push(st, true), c1);
      if r.Normal? {
        NormalEnd(prog, fuel, r, c1, n1, c2, last, mid);
        var n2, c3 := SimReach(prog, fuel, mid, s.tail, last, r.s, c2);
        n, c' := 1 + (n1 + n2), c3;
        var rest := ReachTail(fuel, last, s.tail, r.s);
        Compose(prog, fuel, fuel, rest, c1, n1, c2, n2, c3, last, next);
        Compose(prog, fuel, fuel, rest, c, 1, c1, n1 + n2, c3, last, next);
      } else {
        n, c' := 1 + n1, c2;
        Elsewhere(prog, fuel, r, c1, n1, c2, last, mid, next);
        Compose(prog, fuel, fuel, r, c, 1, c1, n1, c2, last, next);
      }
  }

  // ---------------------------------------------------------------- CASE

  lemma KeptCarton(c: Config, c': Config, last: seq<Construct>)
    requires Keeps(c, c', last) && CountCases(last) < CASE_CAP
    ensures c'.wc[CountCases(last)] == c.wc[CountCases(last)]
  {
    hide CountCases, LoopsKept;
  }

  /** ENDCASE, reached by falling, jumping or breaking. */
  lemma EndcaseTurn(prog: seq<Phrase>, fuel: nat, i: int, last: seq<Construct>, st: State, c: Config,
                    breakIn: Option<Construct>)
    requires PhraseAt(prog, i, PEndcase(Keyword(KEndcase)))
    requires Ready(c, last + [CCase], st, i, breakIn) && (breakIn == None || breakIn == Some(CCase)) && Good(prog, c)
    ensures Simulated(prog, fuel, Normal(st), c, 1, Step(prog, c), last, i + 1)
  {
    hide Sound, OpenAll, CountCases, LoopsKept, CartonsKept, Step, Path, Stands, Holds, Keyword;
    TurnEndcase(prog, i, last, st, c, breakIn);
    CloseTurn(prog, fuel, c, last, CCase, st, i + 1, i, st, breakIn);
  }

  /** A turn inside a CASE that changes the CASE's own record but not where it ends. */
  lemma MatchTurn(prog: seq<Phrase>, c: Config, last: seq<Construct>, st: State, i: int, next: int)
    requires Good(prog, c) && Ready(c, last + [CCase], st, i, None) && 0 <= next <= |prog|
    requires Ready(Step(prog, c), last + [CCase], st, next, None) && Keeps(c, Step(prog, c), last)
    requires CountCases(last + [CCase]) < CASE_CAP && |c.wc| == CASE_CAP && |Step(prog, c).wc| == CASE_CAP
    requires Step(prog, c).wc[CountCases(last + [CCase])].endLine == c.wc[CountCases(last + [CCase])].endLine
    ensures Path(prog, c, 1, Step(prog, c)) && Good(prog, Step(prog, c))
  {
    hide Sound, OpenAll, CountCases, LoopsKept, CartonsKept, Step, Path, Stands, Holds, Opened;
    var c1 := Step(prog, c);
    GoodOpen(prog, c, last + [CCase], st, i, None);
    OpenPush(prog, last, CCase, c.loops, c.wc);
    OpenKeeps(prog, last, c, c1);
    OpenPush(prog, last, CCase, c1.loops, c1.wc);
    GoodReady(prog, c1, last + [CCase], st, next, None);
    PathOne(prog, c);
  }

  /** How a clause body leaves the CASE. */
  lemma ClauseBodyEnds(prog: seq<Phrase>, fuel: nat, r: Result, c: Config, n: nat, c1: Config, last: seq<Construct>,
                       next: int)
    requires CountCases(last + [CCase]) < CASE_CAP && |c.wc| == CASE_CAP
    requires Simulated(prog, fuel, r, c, n, c1, last + [CCase], next) && (r.Normal? || r.Broken?)
    ensures Path(prog, c, n, c1) && Good(prog, c1) && Keeps(c, c1, last) && Keeps(c, c1, last + [CCase])
    ensures r.Normal? ==> Ready(c1, last + [CCase], r.s, next, None)
    ensures r.Broken? ==> Ready(c1, last + [CCase], r.s, c.wc[CountCases(last + [CCase])].endLine, Some(CCase))
  {
    hide Path, CountCases, Step, Sound, Stands, Holds, LoopsKept, CartonsKept;
    PathEnd(prog, c, n, c1);
    KeepsOuter(c, c1, last, CCase);
  }

  /** The body of a matching clause, from its first line. */
  lemma {:induction false} SimClauseBody(prog: seq<Phrase>, fuel: nat, i: int, cls: Clauses, value: Value,
                                         last: seq<Construct>, st: State, c: Config)
    returns (n: nat, c': Config)
    requires cls.Clause? && 0 <= i && ClausesAt(prog, i, cls) && Ready(c, last + [CCase], st, i + 1, None)
    requires Good(prog, c)
    requires CountCases(last + [CCase]) < CASE_CAP && |c.wc| == CASE_CAP
    requires c.wc[CountCases(last + [CCase])] == CaseRecord(i + LenClauses(cls) - 1, value, !cls.guard.Or?)
    ensures Simulated(prog, fuel, AfterClause(fuel, last + [CCase], value, cls,
                                              Exec(fuel, last + [CCase], cls.body, st)),
                    c, n, c', last, i + LenClauses(cls))
    decreases fuel, cls, 3
  {
    hide Sound, OpenAll, OpenTop, StmtAt, ClausesAt, CountCases, LoopsKept, CartonsKept, Step, Path, PhraseAt, Len,
      LenClauses, Stands, Holds, Keyword, Simulated, ExecClauses;
    ClausesParts(prog, i, cls);
    LenClausesParts(cls);
    FindEndcase(prog, i, cls);
    var inner, end := last + [CCase], i + LenClauses(cls) - 1;
    var mid := i + 1 + Len(cls.body);
    var r := Exec(fuel, inner, cls.body, st);
    var n1, c1 := SimStmt(prog, fuel, i + 1, cls.body, inner, st, c);
    if Quits(r) {
      n, c' := n1, c1;
      PassOn(prog, fuel, r, c, n1, c1, inner, mid, last, end + 1);
    } else {
      ClauseBodyEnds(prog, fuel, r, c, n1, c1, last, mid);
      if r.Broken? {
        EndcaseTurn(prog, fuel, end, last, r.s, c1, Some(CCase));
        n, c' := n1 + 1, Step(prog, c1);
        Compose(prog, fuel, fuel, Normal(r.s), c, n1, c1, 1, c', last, end + 1);
      } else {
        KeptCarton(c, c1, inner);
        ReadyTables(c1, inner, r.s, mid, None);
        var n2, c2 := SimClauses(prog, fuel, mid, cls.rest, value, !cls.guard.Or?, last, r.s, c1);
        n, c' := n1 + n2, c2;
        Compose(prog, fuel, fuel, ExecClauses(fuel, inner, value, !cls.guard.Or?, cls.rest, r.s), c, n1, c1, n2, c2,
                last, end + 1);
      }
    }
  }

  /** What a clause body's result means for the whole CASE. */
  ghost function AfterClause(fuel: nat, last: seq<Construct>, value: Value, cls: Clauses, r: Result): Result
    requires cls.Clause? && 0 < |last| && last[|last| - 1] == CCase
  {
    match r
    case Normal(st1) => ExecClauses(fuel, last, value, !cls.guard.Or?, cls.rest, st1)
    case Broken(st1) => Normal(st1)
    case _ => r
  }

  lemma {:induction false} SimClauses(prog: seq<Phrase>, fuel: nat, i: int, cls: Clauses, value: Value,
                                      performed: bool, last: seq<Construct>, st: State, c: Config)
    returns (n: nat, c': Config)
    requires 0 <= i && ClausesAt(prog, i, cls) && Ready(c, last + [CCase], st, i, None) && Good(prog, c)
    requires CountCases(last + [CCase]) < CASE_CAP && |c.wc| == CASE_CAP
    requires c.wc[CountCases(last + [CCase])] == CaseRecord(i + LenClauses(cls) - 1, value, performed)
    ensures Simulated(prog, fuel, ExecClauses(fuel, last + [CCase], value, performed, cls, st), c, n, c', last,
                      i + LenClauses(cls))
    decreases fuel, cls, 4
  {
    hide Sound, OpenAll, OpenTop, StmtAt, ClausesAt, CountCases, LoopsKept, CartonsKept, Step, Path, PhraseAt, Len,
      LenClauses, Stands, Holds, Keyword, Simulated, Matches;
    ClausesParts(prog, i, cls);
    LenClausesParts(cls);
    FindEndcase(prog, i, cls);
    var inner, end, c1 := last + [CCase], i + LenClauses(cls) - 1, Step(prog, c);
    if cls.EndCase? {
      EndcaseTurn(prog, fuel, i, last, st, c, None);
      n, c' := 1, c1;
    } else {
      TurnClause(prog, i, cls, value, performed, last, st, c);
      if performed {
        InsideTurn(prog, c, inner, st, end, i, st);
        KeepsOuter(c, c1, last, CCase);
        EndcaseTurn(prog, fuel, end, last, st, c1, None);
        n, c' := 2, Step(prog, c1);
        Compose(prog, fuel, fuel, Normal(st), c, 1, c1, 1, c', last, end + 1);
      } else {
        match Matches(cls.guard, value, st.store)
        case None =>
          n, c' := 1, c1;
          FailTurn(prog, fuel, c, EvalFault, last, end + 1);
        case Some(false) =>
          var mid := i + 1 + Len(cls.body);
          LenClausesParts(cls.rest);
          InsideTurn(prog, c, inner, st, mid, i, st);
          KeepsOuter(c, c1, last, CCase);
          KeptCarton(c, c1, inner);
          ReadyTables(c1, inner, st, mid, None);
          var n2, c2 := SimClauses(prog, fuel, mid, cls.rest, value, false, last, st, c1);
          n, c' := 1 + n2, c2;
          Compose(prog, fuel, fuel, ExecClauses(fuel, inner, value, false, cls.rest, st), c, 1, c1, n2, c2, last,
                  end + 1);
        case Some(true) =>
          ReadyTables(c1, inner, st, i + 1, None);
          MatchTurn(prog, c, last, st, i, i + 1);
          var n2, c2 := SimClauseBody(prog, fuel, i, cls, value, last, st, c1);
          n, c' := 1 + n2, c2;
          Compose(prog, fuel, fuel, AfterClause(fuel, inner, value, cls, Exec(fuel, inner, cls.body, st)), c, 1, c1,
                  n2, c2, last, end + 1);
      }
    }
  }

  lemma {:induction false} SimCase(prog: seq<Phrase>, fuel: nat, i: int, s: Stmt, last: seq<Construct>, st: State,
                                   c: Config) returns (n: nat, c': Config)
    requires s.Case? && StmtAt(prog, i, s) && Ready(c, last, st, i, None) && Good(prog, c)
    ensures Simulated(prog, fuel, Exec(fuel, last, s, st), c, n, c', last, i + Len(s))
    decreases fuel, s, 2
  {
    hide Sound, OpenAll, OpenTop, StmtAt, ClausesAt, CountCases, LoopsKept, CartonsKept, Step, Path, PhraseAt, Len,
      LenClauses, Stands, Holds, Keyword, Simulated, ExecClauses;
    StmtParts(prog, i, s);
    LenParts(s);
    ReadyTables(c, last, st, i, None);
    CountPush(last, CCase);
    TurnCase(prog, i, s, last, st, c);
    var c1, next := Step(prog, c), i + Len(s);
    match s.value(st.store)
    case None =>
      n, c' := 1, c1;
      FailTurn(prog, fuel, c, EvalFault, last, next);
    case Some(x) =>
      if CountCases(last) + 1 >= CASE_CAP {
        n, c' := 1, c1;
        FailTurn(prog, fuel, c, IndexPanic, last, next);
      } else {
        EnterTurn(prog, c, last, CCase, st, i, st, i + 1);
        ReadyTables(c1, last + [CCase], st, i + 1, None);
        var n2, c2 := SimClauses(prog, fuel, i + 1, s.clauses, x, false, last, st, c1);
        n, c' := 1 + n2, c2;
        Compose(prog, fuel, fuel, ExecClauses(fuel, last + [CCase], x, false, s.clauses, st), c, 1, c1, n2, c2, last,
                next);
      }
  }

  // ---------------------------------------------------------------- every statement

  /**
    From any well-formed state on the first line of a laid-out statement, the machine reaches
    the state the statement's meaning calls for; when the meaning runs out of fuel, it is still
    running after that many turns.
   */
  lemma {:induction false} SimStmt(prog: seq<Phrase>, fuel: nat, i: int, s: Stmt, last: seq<Construct>, st: State,
                                   c: Config) returns (n: nat, c': Config)
    requires StmtAt(prog, i, s) && Ready(c, last, st, i, None) && Good(prog, c)
    ensures Simulated(prog, fuel, Exec(fuel, last, s, st), c, n, c', last, i + Len(s))
    decreases fuel, s, 3
  {
    hide Sound, OpenAll, OpenTop, StmtAt, ClausesAt, CountCases, LoopsKept, CartonsKept, Step, Path, PhraseAt, Len,
      LenClauses, Stands, Holds, Keyword, Simulated, ExecClauses, WhileLoop, ForLoop, ForeachLoop, ReachTail, JumpTail;
    match s
    case Skip =>
      LenParts(s);
      n, c' := 0, c;
      Idle(prog, fuel, c, last, st, i);
    case Seq(_, _) => n, c' := SimSeq(prog, fuel, i, s, last, st, c);
    case Act(_, _) => n, c' := SimAct(prog, fuel, i, s, last, st, c);
    case If(_, _, _, _) => n, c' := SimIf(prog, fuel, i, s, last, st, c);
    case While(_, _, _) => n, c' := SimWhile(prog, fuel, i, s, last, st, c);
    case For(_, _, _, _, _, _) => n, c' := SimFor(prog, fuel, i, s, last, st, c);
    case Foreach(_, _, _, _) => n, c' := SimForeach(prog, fuel, i, s, last, st, c);
    case Case(_, _, _) => n, c' := SimCase(prog, fuel, i, s, last, st, c);
    case Break(_, _) => n, c' := SimBreak(prog, fuel, i, s, last, st, c);
    case Continue(_, _) => n, c' := SimContinue(prog, fuel, i, s, last, st, c);
    case Return(_, _) => n, c' := SimReturn(prog, fuel, i, s, last, st, c);
  }
}
