/**
  Well-formed states of the statement loop, runs through them, and the relation between a state
  of the machine and a state of the structured meaning.
 */
module Relation {
  import opened Phrases
  import opened Machine
  import opened Structured
  import opened Layout

  // ---------------------------------------------------------------- well-formed states

  /** The innermost open construct's record: of its kind, and ending at its own closer. */
  ghost predicate OpenTop(prog: seq<Phrase>, last: seq<Construct>, loops: seq<Loop>, wc: seq<Carton>)
    requires |last| > 0
  {
    var n := |last|;
    match last[n - 1]
    case CWhile =>
      n < |loops| && loops[n].loopType == LT_WHILE
      && Opened(prog, loops[n].repeatFrom, loops[n].whileContinueAt,
                ENDWHILE_SEARCH) && prog[loops[n].repeatFrom].PWhile?
    case CFor =>
      n < |loops| && loops[n].loopType == LT_FOR && loops[n].step != 0
      && Opened(prog, loops[n].repeatFrom - 1, loops[n].forEndPos, ENDFOR_SEARCH) && prog[loops[n].repeatFrom - 1].PFor?
    case CForeach =>
      n < |loops| && loops[n].loopType == LT_FOREACH
      && Opened(prog, loops[n].repeatFrom - 1, loops[n].forEndPos,
                ENDFOR_SEARCH) && prog[loops[n].repeatFrom - 1].PForeach?
    case CCase =>
      var k := CountCases(last);
      k < |wc| && exists p :: Opened(prog, p, wc[k].endLine, ENDCASE_SEARCH) && prog[p].PCase?
  }

  /** end is the closer that lookahead finds for the opener at line p. */
  ghost predicate Opened(prog: seq<Phrase>, p: int, end: int, q: Search) {
    0 <= p < end < |prog| && Scan(prog, p, 0, q) == At(end)
  }

  ghost predicate OpenAll(prog: seq<Phrase>, last: seq<Construct>, loops: seq<Loop>, wc: seq<Carton>) {
    |last| > 0 ==> OpenAll(prog, last[..|last| - 1], loops, wc) && OpenTop(prog, last, loops, wc)
  }

  /**
    A state of the statement loop is well formed: the stack and its depth agree, wccount counts
    the open CASEs, every open construct's record is right, and pc is inside the program.
   */
  ghost predicate Good(prog: seq<Phrase>, c: Config) {
    c.status == Running ==> Sound(prog, c)
  }

  ghost predicate Sound(prog: seq<Phrase>, c: Config) {
      && -1 <= c.pc < |prog|
      && c.depth == |c.lastConstruct|
      && c.wccount == CountCases(c.lastConstruct) < CASE_CAP
      && |c.loops| == MAX_LOOPS && |c.wc| == CASE_CAP
      && c.ifDepth == |c.ifMatched|
      && OpenAll(prog, c.lastConstruct, c.loops, c.wc)
  }

  /** n turns of the loop lead from c to c', through well-formed states only. */
  ghost predicate Path(prog: seq<Phrase>, c: Config, n: nat, c': Config)
    decreases n
  {
    Good(prog, c) && (if n == 0 then c == c' else Path(prog, Step(prog, c), n - 1, c'))
  }

  lemma {:induction false} PathTrans(prog: seq<Phrase>, c: Config, a: nat, c1: Config, b: nat, c2: Config)
    requires Path(prog, c, a, c1) && Path(prog, c1, b, c2)
    ensures Path(prog, c, a + b, c2)
    decreases a
  {
    hide Step, Sound;
    if a > 0 {
      PathTrans(prog, Step(prog, c), a - 1, c1, b, c2);
    }
  }

  lemma {:induction false} PathRun(prog: seq<Phrase>, c: Config, n: nat, c': Config)
    requires Path(prog, c, n, c')
    ensures Run(prog, c, n) == c' && Good(prog, c')
    ensures forall k :: 0 <= k <= n ==> Good(prog, Run(prog, c, k))
    decreases n
  {
    hide Step, Sound;
    if n > 0 {
      PathRun(prog, Step(prog, c), n - 1, c');
      forall k | 0 < k <= n
        ensures Good(prog, Run(prog, c, k))
      {
        assert Run(prog, c, k) == Run(prog, Step(prog, c), k - 1);
      }
    }
  }

  lemma PathOne(prog: seq<Phrase>, c: Config)
    requires Good(prog, c) && Good(prog, Step(prog, c))
    ensures Path(prog, c, 1, Step(prog, c))
  {
    hide Step, Sound;
    assert Path(prog, Step(prog, c), 0, Step(prog, c));
  }

  // ---------------------------------------------------------------- the simulation relation

  /** The machine is about to take line i, in structured state st inside the constructs last. */
  ghost predicate Ready(c: Config, last: seq<Construct>, st: State, i: int, breakIn: Option<Construct>) {
    Stands(c, last, i, breakIn) && Holds(c, st)
  }

  ghost predicate Stands(c: Config, last: seq<Construct>, i: int, breakIn: Option<Construct>) {
    && c.status == Running && c.pc == i - 1 && c.breakIn == breakIn
    && c.lastConstruct == last && c.depth == |last|
    && c.wccount == CountCases(last) < CASE_CAP
    && |c.loops| == MAX_LOOPS && |c.wc| == CASE_CAP
  }

  ghost predicate Holds(c: Config, st: State) {
    c.store == st.store && c.ifMatched == st.ifm && c.ifDepth == |st.ifm|
  }

  lemma ReadyTables(c: Config, last: seq<Construct>, st: State, i: int, breakIn: Option<Construct>)
    requires Ready(c, last, st, i, breakIn)
    ensures |c.loops| == MAX_LOOPS && |c.wc| == CASE_CAP && CountCases(last) < CASE_CAP
  {
    hide CountCases;
  }

  /** The records of the constructs in last are the same. */
  ghost predicate Keeps(c: Config, c': Config, last: seq<Construct>) {
    LoopsKept(c.loops, c'.loops, |last|) && CartonsKept(c.wc, c'.wc, CountCases(last))
  }

  ghost predicate LoopsKept(a: seq<Loop>, b: seq<Loop>, n: nat) {
    |a| == |b| == MAX_LOOPS && forall j :: 0 <= j <= n && j < MAX_LOOPS ==> b[j] == a[j]
  }

  ghost predicate CartonsKept(a: seq<Carton>, b: seq<Carton>, n: nat) {
    |a| == |b| == CASE_CAP && forall k :: 0 <= k <= n && k < CASE_CAP ==> b[k] == a[k]
  }

  /** Where BREAK and CONTINUE go. */
  ghost function Target(c: Config, last: seq<Construct>): int
    requires 0 < |last| < |c.loops| && 0 <= CountCases(last) < |c.wc|
  {
    match last[|last| - 1]
    case CWhile => c.loops[|last|].whileContinueAt
    case CCase => c.wc[CountCases(last)].endLine
    case _ => c.loops[|last|].forEndPos
  }

  /** c' is where the machine is when the statement started at c has result r; next is the line after it. */
  ghost predicate Arrived(r: Result, c: Config, c': Config, last: seq<Construct>, next: int) {
    match r
    case Normal(st) => Ready(c', last, st, next, None) && Keeps(c, c', last)
    case Broken(st) =>
      && 0 < |last| < MAX_LOOPS && |c.loops| == MAX_LOOPS && |c.wc| == CASE_CAP && CountCases(last) < CASE_CAP
      && Ready(c', last, st, Target(c, last), Some(last[|last| - 1])) && Keeps(c, c', last)
    case Continued(st) =>
      && 0 < |last| < MAX_LOOPS && |c.loops| == MAX_LOOPS && |c.wc| == CASE_CAP && CountCases(last) < CASE_CAP
      && last[|last| - 1] != CCase
      && Ready(c', last, st, Target(c, last), None) && Keeps(c, c', last)
    case Failure(e) => c'.status == Failed(e)
    case OutOfFuel => c'.status == Running
    case Returned(x, st, at) =>
      && c'.status == Exited(x) && c'.store == st.store && c'.lastConstruct == at && c'.breakIn == None
      && |c'.loops| == MAX_LOOPS && |c'.wc| == CASE_CAP
  }

  ghost predicate Simulated(prog: seq<Phrase>, fuel: nat, r: Result, c: Config, n: nat, c': Config,
                            last: seq<Construct>, next: int) {
    Path(prog, c, n, c') && Arrived(r, c, c', last, next) && (r.OutOfFuel? ==> n >= fuel)
  }

  lemma KeepsTrans(a: Config, b: Config, c: Config, last: seq<Construct>)
    requires Keeps(a, b, last) && Keeps(b, c, last)
    ensures Keeps(a, c, last)
  {
    hide CountCases;
  }

  /** What is kept inside a construct is kept outside it. */
  lemma KeepsOuter(c: Config, c': Config, last: seq<Construct>, k: Construct)
    requires Keeps(c, c', last + [k])
    ensures Keeps(c, c', last)
  {
    CountPush(last, k);
    hide CountCases;
  }

  lemma CountPush(last: seq<Construct>, k: Construct)
    ensures CountCases(last + [k]) == CountCases(last) + (if k == CCase then 1 else 0)
  {
    assert (last + [k])[..|last|] == last;
  }

  lemma Compose(prog: seq<Phrase>, fuel: nat, fuel2: nat, r: Result, c: Config, n1: nat, c1: Config, n2: nat,
                c2: Config,
                last: seq<Construct>, next: int)
    requires Path(prog, c, n1, c1) && Keeps(c, c1, last)
    requires Simulated(prog, fuel2, r, c1, n2, c2, last, next)
    requires n1 + fuel2 >= fuel
    ensures Simulated(prog, fuel, r, c, n1 + n2, c2, last, next)
  {
    hide Path, Stands, Holds, CountCases;
    PathTrans(prog, c, n1, c1, n2, c2);
    if r.Normal? || r.Broken? || r.Continued? {
      KeepsTrans(c, c1, c2, last);
    }
  }

  /** Records that agree as far as last reaches are open together. */
  lemma {:induction false} OpenKeeps(prog: seq<Phrase>, last: seq<Construct>, c: Config, c': Config)
    requires OpenAll(prog, last, c.loops, c.wc) && Keeps(c, c', last)
    ensures OpenAll(prog, last, c'.loops, c'.wc)
    decreases |last|
  {
    if |last| > 0 {
      var outer, k := last[..|last| - 1], last[|last| - 1];
      assert last == outer + [k];
      KeepsOuter(c, c', outer, k);
      OpenKeeps(prog, outer, c, c');
      OpenTopKeeps(prog, last, c, c');
    }
  }

  lemma OpenTopKeeps(prog: seq<Phrase>, last: seq<Construct>, c: Config, c': Config)
    requires |last| > 0 && OpenTop(prog, last, c.loops, c.wc) && Keeps(c, c', last)
    ensures OpenTop(prog, last, c'.loops, c'.wc)
  {
    hide CountCases, Opened;
  }

  lemma GoodReady(prog: seq<Phrase>, c: Config, last: seq<Construct>, st: State, i: int, breakIn: Option<Construct>)
    requires Ready(c, last, st, i, breakIn) && 0 <= i <= |prog|
    requires OpenAll(prog, last, c.loops, c.wc)
    ensures Good(prog, c)
  {
    hide OpenAll, CountCases;
  }

  /** One turn that leaves the records of last alone. */
  lemma OneTurn(prog: seq<Phrase>, c: Config, last: seq<Construct>, st: State, i: int, breakIn: Option<Construct>)
    requires Good(prog, c) && OpenAll(prog, last, c.loops, c.wc)
    requires Ready(Step(prog, c), last, st, i, breakIn) && 0 <= i <= |prog| && Keeps(c, Step(prog, c), last)
    ensures Path(prog, c, 1, Step(prog, c))
  {
    hide Step, OpenAll, Path, Stands, Holds, LoopsKept, CartonsKept, Sound;
    OpenKeeps(prog, last, c, Step(prog, c));
    GoodReady(prog, Step(prog, c), last, st, i, breakIn);
    PathOne(prog, c);
  }

  /** One turn that ends the call with an error. */
  lemma FailTurn(prog: seq<Phrase>, fuel: nat, c: Config, e: Error, last: seq<Construct>, next: int)
    requires Good(prog, c) && Step(prog, c).status == Failed(e)
    ensures Simulated(prog, fuel, Failure(e), c, 1, Step(prog, c), last, next)
  {
    hide Step, Path;
    PathOne(prog, c);
  }

  /** One turn that returns. */
  lemma ReturnTurn(prog: seq<Phrase>, fuel: nat, c: Config, x: Exit, st: State, at: seq<Construct>,
                   last: seq<Construct>, next: int)
    requires Good(prog, c) && Arrived(Returned(x, st, at), c, Step(prog, c), last, next)
    ensures Simulated(prog, fuel, Returned(x, st, at), c, 1, Step(prog, c), last, next)
  {
    hide Step, Path;
    PathOne(prog, c);
  }

  /** The turn that takes line i. */
  lemma Turn(prog: seq<Phrase>, c: Config, i: int, p: Phrase)
    requires c.status == Running && c.pc == i - 1 && PhraseAt(prog, i, p) && !Skipped(c.breakIn, p.Kind())
    ensures Step(prog, c) == Dispatch(prog, c.(pc := i))
  {
    hide Dispatch;
  }
}
