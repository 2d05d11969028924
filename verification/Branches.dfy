/**
  Which branch of an IF chain or clause of a CASE runs, and when it is the only one: judged by
  what the branch does when it runs, not by how it is written.
 */
module Branches {
  import opened Phrases
  import opened Machine
  import opened Structured

  // ---------------------------------------------------------------- IF chains

  /** The branch of the first true condition. flag: what an IF pushes for it, false for a plain ELSE. */
  datatype Pick = Faulty | Nothing | Branch(body: Stmt, flag: bool)

  function PickIf(cond: Cond, thn: Stmt, tail: Tail, store: Store): Pick
    decreases tail, 1
  {
    match cond(store)
    case None => Faulty
    case Some(true) => Branch(thn, true)
    case Some(false) => PickTail(tail, store)
  }

  function PickTail(t: Tail, store: Store): Pick
    decreases t, 0
  {
    match t
    case EndIf => Nothing
    case ElseBlock(els) => Branch(els, false)
    case ElseIf(cond, _, thn, tail) => PickIf(cond, thn, tail, store)
  }

  /** What a chain entered in st comes to when its picked branch is the only one to run. */
  ghost predicate OnlyPicked(fuel: nat, last: seq<Construct>, pick: Pick, st: State, r: Result) {
    match pick
    case Faulty => r == Failure(EvalFault)
    case Nothing => r.Normal? && r.s.store == st.store
    case Branch(body, flag) =>
      var b := Exec(fuel, last, body, Push(st, flag));
      if b.Normal? then r == Normal(State(b.s.store, st.ifm)) else r == b
  }

  /** The branch picked, if it ends normally, leaves the IF depth as it found it. */
  ghost predicate LeavesDepth(fuel: nat, last: seq<Construct>, pick: Pick, st: State) {
    pick.Branch? ==>
      var b := Exec(fuel, last, pick.body, Push(st, pick.flag));
      b.Normal? ==> b.s.ifm == st.ifm + [pick.flag]
  }

  lemma {:induction false} JumpRunsPicked(fuel: nat, last: seq<Construct>, t: Tail, st: State)
    requires LeavesDepth(fuel, last, PickTail(t, st.store), st)
    ensures OnlyPicked(fuel, last, PickTail(t, st.store), st, JumpTail(fuel, last, t, Push(st, false)))
    decreases t
  {
    hide ReachTail;
    match t
    case EndIf =>
    case ElseBlock(els) =>
      assert (st.ifm + [false])[..|st.ifm|] == st.ifm;
    case ElseIf(cond, _, thn, tail) =>
      hide JumpTail;
      ReachUnmatched(fuel, last, t, st);
      PickParts(t, st.store);
      match cond(st.store)
      case None =>
      case Some(true) =>
        var b := Exec(fuel, last, thn, Push(st, true));
        if b.Normal? {
          MatchedLeaves(fuel, last, tail, b.s, st.ifm);
        }
      case Some(false) => JumpRunsPicked(fuel, last, tail, st);
  }

  lemma PickParts(t: Tail, store: Store)
    requires t.ElseIf?
    ensures PickTail(t, store) ==
      match t.cond(store)
      case None => Faulty
      case Some(true) => Branch(t.thn, true)
      case Some(false) => PickTail(t.tail, store)
  {
  }

  /** Control sent to an ELSE IF with the flag of the chain still clear. */
  lemma ReachUnmatched(fuel: nat, last: seq<Construct>, t: Tail, st: State)
    requires t.ElseIf?
    ensures JumpTail(fuel, last, t, Push(st, false)) ==
      match t.cond(st.store)
      case None => Failure(EvalFault)
      case Some(true) =>
        (var b := Exec(fuel, last, t.thn, Push(st, true));
         if b.Normal? then ReachTail(fuel, last, t.tail, b.s) else b)
      case Some(false) => JumpTail(fuel, last, t.tail, Push(st, false))
  {
    var off := Push(st, false);
    assert !TopMatched(off);
    assert off.(ifm := off.ifm[|off.ifm| - 1 := true]) == Push(st, true);
  }

  /** With the flag of the chain on top and set, whatever is left of the chain is passed over. */
  lemma MatchedLeaves(fuel: nat, last: seq<Construct>, t: Tail, st: State, m: seq<bool>)
    requires st.ifm == m + [true]
    ensures ReachTail(fuel, last, t, st) == Normal(State(st.store, m))
  {
    assert (m + [true])[..|m|] == m;
  }

  /**
    An IF / ELSE IF / ELSE chain runs the branch of its first true condition and no other,
    whenever that branch, as it runs, leaves the IF depth as it found it.
   */
  lemma ChainRunsPicked(fuel: nat, last: seq<Construct>, s: Stmt, st: State)
    requires s.If? && LeavesDepth(fuel, last, PickIf(s.cond, s.thn, s.tail, st.store), st)
    ensures OnlyPicked(fuel, last, PickIf(s.cond, s.thn, s.tail, st.store), st, Exec(fuel, last, s, st))
  {
    hide ReachTail, JumpTail;
    match s.cond(st.store)
    case None =>
    case Some(true) =>
      var b := Exec(fuel, last, s.thn, Push(st, true));
      if b.Normal? {
        MatchedLeaves(fuel, last, s.tail, b.s, st.ifm);
      }
    case Some(false) => JumpRunsPicked(fuel, last, s.tail, st);
  }

  // ---------------------------------------------------------------- CASE

  /** The first clause of a CASE that matches, and what is written after it. */
  datatype Hit = BadTest | NoHit | First(guard: Guard, body: Stmt, rest: Clauses)

  function FirstHit(value: Value, cls: Clauses, store: Store): Hit
    decreases cls
  {
    match cls
    case EndCase => NoHit
    case Clause(guard, _, body, rest) =>
      match Matches(guard, value, store)
      case None => BadTest
      case Some(true) => First(guard, body, rest)
      case Some(false) => FirstHit(value, rest, store)
  }

  /** The same clauses up to the first that matches, and other clauses after it. */
  function WithRest(value: Value, cls: Clauses, store: Store, rest: Clauses): Clauses
    decreases cls
  {
    match cls
    case EndCase => EndCase
    case Clause(guard, w, body, old') =>
      if Matches(guard, value, store) == Some(true) then Clause(guard, w, body, rest)
      else Clause(guard, w, body, WithRest(value, old', store, rest))
  }

  /** What a CASE comes to, said by its first matching clause. */
  lemma {:induction false} CaseByFirstHit(fuel: nat, last: seq<Construct>, value: Value, cls: Clauses, st: State,
                                          rest: Clauses)
    requires 0 < |last| && last[|last| - 1] == CCase
    ensures var hit := FirstHit(value, cls, st.store);
      && (hit.BadTest? ==> ExecClauses(fuel, last, value, false, cls, st) == Failure(EvalFault))
      && (hit.NoHit? ==> ExecClauses(fuel, last, value, false, cls, st) == Normal(st))
      && (hit.First? ==>
            ExecClauses(fuel, last, value, false, WithRest(value, cls, st.store, rest), st) ==
              match Exec(fuel, last, hit.body, st)
              case Normal(st1) => ExecClauses(fuel, last, value, !hit.guard.Or?, rest, st1)
              case Broken(st1) => Normal(st1)
              case r => r)
    decreases cls
  {
    hide Matches;
    if cls.Clause? && Matches(cls.guard, value, st.store) == Some(false) {
      CaseByFirstHit(fuel, last, value, cls.rest, st, rest);
    }
  }

  /** Putting back what was after the first match changes nothing. */
  lemma {:induction false} WithItsOwnRest(value: Value, cls: Clauses, store: Store)
    ensures var hit := FirstHit(value, cls, store); hit.First? ==> WithRest(value, cls, store, hit.rest) == cls
    decreases cls
  {
    hide Matches;
    if cls.Clause? && Matches(cls.guard, value, store) == Some(false) {
      WithItsOwnRest(value, cls.rest, store);
    }
  }

  /**
    A CASE stops at its first matching clause, whatever clauses are written after it, if and only
    if that clause is not OR.
   */
  lemma CaseStopsIffNotOr(fuel: nat, last: seq<Construct>, value: Value, cls: Clauses, st: State)
    requires 0 < |last| && last[|last| - 1] == CCase
    requires var hit := FirstHit(value, cls, st.store); hit.First? && Exec(fuel, last, hit.body, st).Normal?
    ensures var hit := FirstHit(value, cls, st.store);
      (forall rest ::
         ExecClauses(fuel, last, value, false, WithRest(value, cls, st.store, rest), st) ==
         Exec(fuel, last, hit.body, st))
      <==> !hit.guard.Or?
  {
    hide Matches, FirstHit, WithRest, Exec;
    var hit := FirstHit(value, cls, st.store);
    var st1 := Exec(fuel, last, hit.body, st).s;
    if hit.guard.Or? {
      var rest := Clause(Has((s: Store) => None), [], Skip, EndCase);
      CaseByFirstHit(fuel, last, value, cls, st, rest);
      BadTestFails(fuel, last, value, st1);
    } else {
      forall rest
        ensures ExecClauses(fuel, last, value, false, WithRest(value, cls, st.store, rest), st) == Normal(st1)
      {
        CaseByFirstHit(fuel, last, value, cls, st, rest);
        PerformedStops(fuel, last, value, rest, st1);
      }
    }
  }

  lemma BadTestFails(fuel: nat, last: seq<Construct>, value: Value, st: State)
    requires 0 < |last| && last[|last| - 1] == CCase
    ensures ExecClauses(fuel, last, value, false, Clause(Has((s: Store) => None), [], Skip, EndCase), st) ==
      Failure(EvalFault)
  {
  }

  lemma PerformedStops(fuel: nat, last: seq<Construct>, value: Value, cls: Clauses, st: State)
    requires 0 < |last| && last[|last| - 1] == CCase
    ensures ExecClauses(fuel, last, value, true, cls, st) == Normal(st)
  {
  }

  /** And for the clauses that are written: it stops there unless the clause is OR and they do something. */
  lemma ThisCaseStopsIff(fuel: nat, last: seq<Construct>, value: Value, cls: Clauses, st: State)
    requires 0 < |last| && last[|last| - 1] == CCase
    requires var hit := FirstHit(value, cls, st.store); hit.First? && Exec(fuel, last, hit.body, st).Normal?
    ensures var hit := FirstHit(value, cls, st.store);
      var st1 := Exec(fuel, last, hit.body, st).s;
      ExecClauses(fuel, last, value, false, cls, st) == Normal(st1)
      <==> (hit.guard.Or? ==> ExecClauses(fuel, last, value, false, hit.rest, st1) == Normal(st1))
  {
    hide Matches, FirstHit, WithRest, Exec, ExecClauses;
    var hit := FirstHit(value, cls, st.store);
    WithItsOwnRest(value, cls, st.store);
    CaseByFirstHit(fuel, last, value, cls, st, hit.rest);
    if !hit.guard.Or? {
      PerformedStops(fuel, last, value, hit.rest, Exec(fuel, last, hit.body, st).s);
    }
  }
}
