/**
  On tidy programs the interpreter's exact meaning is the textbook meaning, so the flat
  program computes what a reader expects.
 */
module Refinement {
  import opened Phrases
  import opened Machine
  import opened Structured
  import opened WholeRuns
  import opened Textbook
  import opened IfStack
  import opened Framing
  import opened Unwritten

  ghost predicate Agrees(r: Result, t: Outcome) {
    match (r, t)
    case (Normal(st), Ok(store)) => st.store == store
    case (Broken(st), Brk(store)) => st.store == store
    case (Continued(st), Cnt(store)) => st.store == store
    case (Failure(e), Err(e')) => e == e'
    case (OutOfFuel, Out) => true
    case (Returned(x, _, _), Ret(x')) => x == x'
    case _ => false
  }

  // ---------------------------------------------------------------- counting passes

  lemma MulSteps(k: nat, d: nat, x: nat)
    requires d > 0
    ensures k * d <= x <==> k <= x / d
  {
    var q, r := x / d, x % d;
    assert x == q * d + r && 0 <= r < d;
    if k <= q {
      assert k * d <= q * d by { assert (q - k) * d >= 0; }
    } else {
      assert k * d >= (q + 1) * d by { assert (k - q - 1) * d >= 0; }
    }
  }

  /** start + k * step is in range exactly for the first Trips values of k. */
  lemma TripsCount(start: int, end: int, step: int, k: nat)
    requires step != 0
    ensures k < Trips(start, end, step) <==> !Beyond(start + k * step, end, step)
  {
    if step > 0 {
      if start <= end {
        MulSteps(k, step, end - start);
      } else {
        assert k * step >= 0;
      }
    } else {
      assert k * -step == -(k * step);
      if start >= end {
        MulSteps(k, -step, start - end);
      } else {
        assert k * -step >= 0;
      }
    }
  }

  lemma NextCounter(start: int, step: int, k: nat)
    ensures start + k * step + step == start + (k + 1) * step
  {
  }

  // ---------------------------------------------------------------- IF

  /** Once a branch has run level enough, the rest of the chain is skipped. */
  lemma MatchedTail(fuel: nat, last: seq<Construct>, t: Tail, st: State, m: seq<bool>)
    requires m + [true] <= st.ifm
    requires t.ElseIf? ==> st.ifm == m + [true]
    ensures var r := ReachTail(fuel, last, t, st); r.Normal? && r.s.store == st.store
  {
    assert |st.ifm| > 0;
  }

  lemma {:induction false} RefIf(fuel: nat, last: seq<Construct>, s: Stmt, st: State)
    requires s.If? && Tidy(s) && HonestLoops(s) && Fits(s, last)
    ensures Agrees(Exec(fuel, last, s, st), Eval(fuel, s, st.store))
    decreases fuel, s, 0
  {
    hide ReachTail, JumpTail, Level, LevelTail, Escapes;
    match s.cond(st.store)
    case None =>
    case Some(true) =>
      var on := Push(st, true);
      RefStmt(fuel, last, s.thn, on);
      StmtGrows(fuel, last, s.thn, on);
      var r := Exec(fuel, last, s.thn, on);
      if r.Normal? {
        MatchedTail(fuel, last, s.tail, r.s, st.ifm);
      }
    case Some(false) =>
      RefJump(fuel, last, s.tail, Push(st, false), st.ifm);
  }

  lemma {:induction false} RefJump(fuel: nat, last: seq<Construct>, t: Tail, st: State, m: seq<bool>)
    requires st.ifm == m + [false]
    requires TidyTail(t) && HonestLoopsTail(t) && FitsTail(t, last)
    ensures Agrees(JumpTail(fuel, last, t, st), EvalTail(fuel, t, st.store))
    decreases fuel, t, 1
  {
    hide Level, LevelTail, Escapes;
    match t
    case EndIf =>
    case ElseBlock(els) =>
      RefStmt(fuel, last, els, st);
      StmtGrows(fuel, last, els, st);
    case ElseIf(cond, _, thn, tail) =>
      match cond(st.store)
      case None =>
      case Some(true) =>
        var st1 := st.(ifm := st.ifm[|st.ifm| - 1 := true]);
        assert st1.ifm == m + [true];
        RefStmt(fuel, last, thn, st1);
        StmtGrows(fuel, last, thn, st1);
        var r := Exec(fuel, last, thn, st1);
        if r.Normal? {
          MatchedTail(fuel, last, tail, r.s, m);
        }
      case Some(false) =>
        RefJump(fuel, last, tail, st, m);
  }

  // ---------------------------------------------------------------- loops

  lemma {:induction false} RefWhile(fuel: nat, last: seq<Construct>, cond: Cond, body: Stmt, st: State)
    requires Tidy(body) && HonestLoops(body) && Fits(body, last)
    ensures Agrees(WhileLoop(fuel, last, cond, body, st), EvalWhile(fuel, cond, body, st.store))
    decreases fuel, body, 2
  {
    hide Tidy, HonestLoops, Fits;
    RefStmt(fuel, last, body, st);
    var r := Exec(fuel, last, body, st);
    if (r.Normal? || r.Continued?) && cond(r.s.store) == Some(true) && fuel > 0 {
      RefWhile(fuel - 1, last, cond, body, r.s);
    }
  }

  /** A FOREACH record about to run item k. */
  ghost predicate AtItem(loop: Loop, v: string, items: seq<Value>, k: nat) {
    loop.loopVar == v && loop.items == items && loop.counter == k && loop.condEnd == |items| - 1
  }

  lemma {:induction false} RefForeach(fuel: nat, last: seq<Construct>, loop: Loop, k: nat, body: Stmt, st: State,
                                      base: Store)
    requires Tidy(body) && HonestLoops(body) && Fits(body, last)
    requires k < |loop.items| && AtItem(loop, loop.loopVar, loop.items, k)
    requires st.store == base[KeyVar(loop.loopVar) := IntV(k)][loop.loopVar := loop.items[k]]
    ensures Agrees(ForeachLoop(fuel, last, loop, body, st), EvalForeach(fuel, loop.loopVar, loop.items, k, body, base))
    decreases fuel, body, |loop.items| - k + 2
  {
    hide Tidy, HonestLoops, Fits, KeyVar;
    KeyNamed(loop.loopVar);
    RefStmt(fuel, last, body, st);
    var r := Exec(fuel, last, body, st);
    if r.Normal? || r.Continued? {
      var (loop1, store1, ended) := ForeachPass(loop, r.s.store);
      if !ended {
        RefForeach(fuel, last, loop1, k + 1, body, r.s.(store := store1), r.s.store);
      }
    }
  }

  /** A numeric FOR record about to run pass k of n. */
  ghost predicate AtPass(loop: Loop, start: int, k: nat, n: nat) {
    && loop.step != 0 && loop.counter == start + k * loop.step
    && n == Trips(start, loop.condEnd, loop.step) && k < n
    && (loop.opt == LoopStart <==> k == 0)
  }

  /** What the end of pass k does to the record. */
  lemma PassEnds(loop: Loop, start: int, k: nat, n: nat, store: Store, used: bool)
    requires AtPass(loop, start, k, n)
    requires loop.opt == LoopStart || loop.opt == (if used then LoopSet else LoopIgnore)
    ensures var (loop1, store1, ended) := ForPass(loop, store, used);
      && (ended <==> k + 1 == n)
      && loop1.loopVar == loop.loopVar && loop1.opt == (if used then LoopSet else LoopIgnore)
      && (ended ==> store1 == if used || k > 0 then store[loop.loopVar := IntV(LastValue(start, loop.step,
          n))] else store)
      && (!ended ==>
           && AtPass(loop1, start, k + 1, n) && loop1.step == loop.step && loop1.condEnd == loop.condEnd
           && store1 == if used then store[loop.loopVar := IntV(start + (k + 1) * loop.step)] else store)
  {
    TripsCount(start, loop.condEnd, loop.step, k + 1);
    NextCounter(start, loop.step, k);
    hide Trips, Beyond;
  }

  /** How many passes a FOR makes from st on, and how the last of them ends. */
  ghost function Passes(fuel: nat, last: seq<Construct>, loop: Loop, body: Stmt, st: State): (nat, Result)
    requires loop.step != 0
    decreases ForLeft(loop)
  {
    var r := Exec(fuel, last, body, st);
    if !r.Normal? && !r.Continued? then (1, r)
    else
      var (loop1, store1, ended) := ForPass(loop, r.s.store, Mentions(Flatten(body), loop.loopVar));
      if ended then (1, r)
      else
        var (m, z) := Passes(fuel, last, loop1, body, r.s.(store := store1));
        (m + 1, z)
  }

  /** Whatever the body: every pass is made unless one is left early, and the FOR comes to what its last pass does. */
  lemma {:induction false} PassesCounted(fuel: nat, last: seq<Construct>, loop: Loop, start: int, k: nat, n: nat,
                                         body: Stmt, st: State)
    requires AtPass(loop, start, k, n)
    requires loop.opt == LoopStart || loop.opt ==
      (if Mentions(Flatten(body), loop.loopVar) then LoopSet else LoopIgnore)
    ensures var (m, z) := Passes(fuel, last, loop, body, st);
      && 1 <= m <= n - k && (z.Normal? || z.Continued? ==> m == n - k)
      && (if Quits(z) then ForLoop(fuel, last, loop, body, st) == z
          else ForLoop(fuel, last, loop, body, st).Normal? && ForLoop(fuel, last, loop, body, st).s.ifm == z.s.ifm)
    decreases n - k
  {
    hide Exec, Mentions, Flatten, ForPass, Trips;
    var r := Exec(fuel, last, body, st);
    if r.Normal? || r.Continued? {
      var used := Mentions(Flatten(body), loop.loopVar);
      PassEnds(loop, start, k, n, r.s.store, used);
      var (loop1, store1, ended) := ForPass(loop, r.s.store, used);
      if !ended {
        PassesCounted(fuel, last, loop1, start, k + 1, n, body, r.s.(store := store1));
      }
    }
  }

  /** A FOR whose body mentions the variable: it is rewritten on every pass. */
  lemma {:induction false} RefForUsed(fuel: nat, last: seq<Construct>, loop: Loop, start: int, k: nat, n: nat,
                                      body: Stmt, st: State, base: Store)
    requires Tidy(body) && HonestLoops(body) && Fits(body, last)
    requires Mentions(Flatten(body), loop.loopVar) && (loop.opt == LoopStart || loop.opt == LoopSet)
    requires AtPass(loop, start, k, n)
    requires st.store == base[loop.loopVar := IntV(start + k * loop.step)]
    ensures Agrees(ForLoop(fuel, last, loop, body, st), EvalFor(fuel, loop.loopVar, start, loop.step, k, n, body, base))
    decreases fuel, body, n - k + 2
  {
    hide Tidy, HonestLoops, Fits, Mentions, Flatten, ForPass, Trips;
    RefStmt(fuel, last, body, st);
    var r := Exec(fuel, last, body, st);
    if r.Normal? || r.Continued? {
      PassEnds(loop, start, k, n, r.s.store, true);
      var (loop1, store1, ended) := ForPass(loop, r.s.store, true);
      if !ended {
        RefForUsed(fuel, last, loop1, start, k + 1, n, body, r.s.(store := store1), r.s.store);
      }
    }
  }

  /** Stores that differ at most at v and agree there are equal. */
  lemma Rejoin(a: Store, b: Store, v: string, x: Value)
    requires AgreeOff(a, b, v)
    ensures a[v := x] == b[v := x]
    ensures v in a && a[v] == x ==> a == b[v := x]
  {
    assert a[v := x] == (a - {v})[v := x];
    assert b[v := x] == (b - {v})[v := x];
    if v in a && a[v] == x {
      assert a == a[v := x];
    }
  }

  /** One pass of each loop. */
  lemma PassParts(fuel: nat, last: seq<Construct>, loop: Loop, start: int, k: nat, n: nat, body: Stmt, st: State,
                  base: Store)
    requires loop.step != 0 && k < n
    ensures ForLoop(fuel, last, loop, body, st) ==
      match Exec(fuel, last, body, st)
      case Broken(st1) => Normal(st1)
      case Normal(st1) => NextPass(fuel, last, loop, body, st1)
      case Continued(st1) => NextPass(fuel, last, loop, body, st1)
      case r => r
    ensures EvalFor(fuel, loop.loopVar, start, loop.step, k, n, body, base) ==
      match Eval(fuel, body, base[loop.loopVar := IntV(start + k * loop.step)])
      case Brk(store1) => Ok(store1)
      case Ok(store1) => EvalFor(fuel, loop.loopVar, start, loop.step, k + 1, n, body, store1)
      case Cnt(store1) => EvalFor(fuel, loop.loopVar, start, loop.step, k + 1, n, body, store1)
      case t => t
  {
    hide Exec, Eval, ForPass, Mentions, Flatten;
  }

  /** ENDFOR after a pass that ran to its end. */
  ghost function NextPass(fuel: nat, last: seq<Construct>, loop: Loop, body: Stmt, st: State): Result
    requires loop.step != 0
  {
    var (loop1, store1, ended) := ForPass(loop, st.store, Mentions(Flatten(body), loop.loopVar));
    var st1 := st.(store := store1);
    if ended then Normal(st1) else ForLoop(fuel, last, loop1, body, st1)
  }

  /**
    A FOR whose body never mentions the variable, from pass k on: the interpreter does not rewrite
    the variable and the textbook does, and they agree exactly when that does not show.
   */
  lemma {:induction false} RefForUnused(fuel: nat, last: seq<Construct>, loop: Loop, start: int, k: nat, n: nat,
                                        body: Stmt, st: State, base: Store)
    requires Tidy(body) && HonestLoops(body) && Fits(body, last)
    requires !Mentions(Flatten(body), loop.loopVar) && (loop.opt == LoopStart || loop.opt == LoopIgnore)
    requires Blind(body, loop.loopVar) && AtPass(loop, start, k, n)
    requires AgreeOff(st.store, base, loop.loopVar) && loop.loopVar in st.store
    requires k == 0 ==> st.store[loop.loopVar] == IntV(start)
    ensures Agrees(ForLoop(fuel, last, loop, body, st), EvalFor(fuel, loop.loopVar, start, loop.step, k, n, body, base))
       <==> !Shows(fuel, loop.loopVar, start, loop.step, k, n, body, st.store[loop.loopVar], base)
    decreases fuel, body, n - k + 2
  {
    hide Tidy, HonestLoops, Fits, Mentions, Flatten, ForPass, Trips, Blind, AgreeOff, KeyWritten, Exec, Eval, ForLoop,
      EvalFor, Shows;
    PassParts(fuel, last, loop, start, k, n, body, st, base);
    var v, x := loop.loopVar, start + k * loop.step;
    var held, base0 := st.store[v], base[v := IntV(x)];
    RefStmt(fuel, last, body, st);
    ShowsParts(fuel, v, start, loop.step, k, n, body, held, base);
    PassPair(fuel, body, st.store, base, v, IntV(x));
    var r, t := Exec(fuel, last, body, st), Eval(fuel, body, base0);
    if r.Broken? {
      EqualIffAt(r.s.store, t.store, v);
    } else if r.Normal? || r.Continued? {
      PassEnds(loop, start, k, n, r.s.store, false);
      var (loop1, store1, ended) := ForPass(loop, r.s.store, false);
      if ended {
        LastPass(fuel, v, start, loop.step, n, body, r.s.store[v], t.store);
        Rejoin(r.s.store, t.store, v, IntV(LastValue(start, loop.step, n)));
      } else {
        RefForUnused(fuel, last, loop1, start, k + 1, n, body, r.s.(store := store1), t.store);
      }
    }
  }

  lemma {:induction false} RefFor(fuel: nat, last: seq<Construct>, s: Stmt, st: State)
    requires s.For? && Tidy(s) && HonestLoops(s) && Fits(s, last)
    ensures Agrees(Exec(fuel, last, s, st), Eval(fuel, s, st.store))
    decreases fuel, s, 0
  {
    hide ForLoop, EvalFor, Mentions, Flatten, Trips, Breaks, KeyFree, Honest;
    var v, body := s.v, s.body;
    match (s.start(st.store), s.end(st.store), s.step(st.store))
    case (Some(a), Some(b), Some(d)) =>
      if d != 0 {
        var loop := EmptyLoop().(loopType := LT_FOR, loopVar := v, counter := a, condEnd := b, step := d);
        var st1 := st.(store := st.store[v := IntV(a)]);
        var n := Trips(a, b, d);
        TripsCount(a, b, d, 0);
        if Beyond(a, b, d) {
          ForNone(fuel, s, a, d, st.store);
        } else {
          assert AtPass(loop, a, 0, n);
          if Mentions(Flatten(body), v) {
            RefForUsed(fuel, last + [CFor], loop, a, 0, n, body, st1, st.store);
          } else {
            UnmentionedIsBlind(body, v);
            AgreeSet(st.store, v, IntV(a));
            TidyForHides(fuel, v, a, d, 0, n, body, IntV(a), st.store);
            RefForUnused(fuel, last + [CFor], loop, a, 0, n, body, st1, st.store);
          }
        }
      }
    case _ =>
  }

  lemma ForNone(fuel: nat, s: Stmt, a: int, d: int, store: Store)
    requires s.For?
    ensures EvalFor(fuel, s.v, a, d, 0, 0, s.body, store) == Ok(store[s.v := IntV(a)])
  {
    hide Eval;
  }

  lemma AgreeSet(a: Store, v: string, x: Value)
    ensures AgreeOff(a[v := x], a, v)
  {
    assert a[v := x] - {v} == a - {v};
  }

  // ---------------------------------------------------------------- CASE

  lemma {:induction false} RefClauses(fuel: nat, last: seq<Construct>, value: Value, cls: Clauses, st: State)
    requires 0 < |last| && last[|last| - 1] == CCase
    requires TidyClauses(cls) && HonestLoopsClauses(cls) && FitsClauses(cls, last)
    ensures Agrees(ExecClauses(fuel, last, value, false, cls, st), EvalClauses(fuel, value, cls, st.store))
    decreases fuel, cls, 1
  {
    hide Matches;
    if cls.Clause? {
      match Matches(cls.guard, value, st.store)
      case None =>
      case Some(false) => RefClauses(fuel, last, value, cls.rest, st);
      case Some(true) => RefStmt(fuel, last, cls.body, st);
    }
  }

  // ---------------------------------------------------------------- every statement

  /** On a tidy, fitting statement the exact meaning is the textbook meaning. */
  lemma {:induction false} RefStmt(fuel: nat, last: seq<Construct>, s: Stmt, st: State)
    requires Tidy(s) && HonestLoops(s) && Fits(s, last)
    ensures Agrees(Exec(fuel, last, s, st), Eval(fuel, s, st.store))
    decreases fuel, s, 1
  {
    hide KeyVar, Mentions, Flatten, ForPass, ForLoop, EvalFor, WhileLoop, EvalWhile, ReachTail, JumpTail, EvalTail,
      Trips, Beyond, Level, Breaks, KeyFree, Honest;
    match s
    case Skip =>
    case Seq(a, b) =>
      RefStmt(fuel, last, a, st);
      var r := Exec(fuel, last, a, st);
      if r.Normal? {
        RefStmt(fuel, last, b, r.s);
      }
    case Act(_, _) =>
    case If(_, _, _, _) => RefIf(fuel, last, s, st);
    case While(cond, _, body) => RefWhile(fuel, last + [CWhile], cond, body, st);
    case For(_, _, _, _, _, _) => RefFor(fuel, last, s, st);
    case Foreach(_, _, _, _) => RefForeachStmt(fuel, last, s, st);
    case Case(value, _, cls) =>
      if value(st.store).Some? {
        RefClauses(fuel, last + [CCase], value(st.store).value, cls, st);
      }
    case Break(_, _) =>
    case Continue(_, _) =>
    case Return(_, _) =>
  }

  lemma {:induction false} RefForeachStmt(fuel: nat, last: seq<Construct>, s: Stmt, st: State)
    requires s.Foreach? && Tidy(s) && HonestLoops(s) && Fits(s, last)
    ensures Agrees(Exec(fuel, last, s, st), Eval(fuel, s, st.store))
    decreases fuel, s, 0
  {
    hide ForeachLoop, KeyVar;
    var items := s.list(st.store);
    if items.Some? && |items.value| > 0 {
      var loop := EmptyLoop().(loopType := LT_FOREACH, loopVar := s.v, condEnd := |items.value| - 1,
                               items := items.value);
      RefForeach(fuel, last + [CForeach], loop, 0, s.body,
                 st.(store := st.store[KeyVar(s.v) := IntV(0)][s.v := items.value[0]]), st.store);
    }
  }

  /** At every fuel the exact meaning of a tidy program and its textbook meaning agree. */
  lemma MeaningAgrees(s: Stmt, store: Store, fuel: nat)
    requires Tidy(s) && HonestLoops(s) && Fits(s, [])
    ensures Agrees(Meaning(fuel, s, store), Eval(fuel, s, store))
  {
    hide Exec, Eval, Tidy, HonestLoops, Fits;
    RefStmt(fuel, [], s, State(store, []));
  }

  /** What the textbook makes of a program with a given fuel. */
  ghost predicate Comes(fuel: nat, s: Stmt, store: Store, t: Outcome) { Eval(fuel, s, store) == t }

  /**
    The flat program, run from pc -1 over any variables, ends with variables store' exactly when
    the textbook meaning of the program is store'.
   */
  lemma FlatRunIsTextbook(s: Stmt, store: Store, store': Store)
    requires Tidy(s) && HonestLoops(s) && Fits(s, [])
    ensures (exists n: nat :: EndsWith(Flatten(s), store, n, Done, store'))
       <==> (exists fuel: nat :: Comes(fuel, s, store, Ok(store')))
  {
    hide Eval, Meaning, EndsWith, Tidy, HonestLoops, Fits, Flatten;
    FlatRunIffMeaning(s, store, store');
    if fuel: nat :| Meaning(fuel, s, store).Normal? && Meaning(fuel, s, store).s.store == store' {
      MeaningAgrees(s, store, fuel);
      assert Comes(fuel, s, store, Ok(store'));
    }
    if fuel: nat :| Comes(fuel, s, store, Ok(store')) {
      MeaningAgrees(s, store, fuel);
      assert Meaning(fuel, s, store).Normal? && Meaning(fuel, s, store).s.store == store';
    }
  }

  /** It stops with an error exactly when the textbook program does. */
  lemma FlatRunFailsIffTextbook(s: Stmt, store: Store, e: Error)
    requires Tidy(s) && HonestLoops(s) && Fits(s, [])
    ensures (exists n: nat :: HaltsWith(Flatten(s), store, n, Failed(e)))
       <==> (exists fuel: nat :: Comes(fuel, s, store, Err(e)))
  {
    hide Eval, Meaning, HaltsWith, Tidy, HonestLoops, Fits, Flatten;
    FlatRunFailsIffMeaning(s, store, e);
    if fuel: nat :| Meaning(fuel, s, store) == Failure(e) {
      MeaningAgrees(s, store, fuel);
      assert Comes(fuel, s, store, Err(e));
    }
    if fuel: nat :| Comes(fuel, s, store, Err(e)) {
      MeaningAgrees(s, store, fuel);
      assert Meaning(fuel, s, store) == Failure(e);
    }
  }

  /** And it returns exactly when, and what, the textbook program returns. */
  lemma FlatRunReturnsIffTextbook(s: Stmt, store: Store, x: Exit)
    requires Tidy(s) && HonestLoops(s) && Fits(s, [])
    ensures (exists n: nat :: HaltsWith(Flatten(s), store, n, Exited(x)))
       <==> (exists fuel: nat :: Comes(fuel, s, store, Ret(x)))
  {
    hide Eval, Meaning, HaltsWith, Tidy, HonestLoops, Fits, Flatten;
    FlatRunReturnsIffMeaning(s, store, x);
    if fuel: nat :| Meaning(fuel, s, store).Returned? && Meaning(fuel, s, store).exit == x {
      MeaningAgrees(s, store, fuel);
      assert Comes(fuel, s, store, Ret(x));
    }
    if fuel: nat :| Comes(fuel, s, store, Ret(x)) {
      MeaningAgrees(s, store, fuel);
      assert Meaning(fuel, s, store).Returned? && Meaning(fuel, s, store).exit == x;
    }
  }
}
