/**
  What a statement does to the stack of IF flags: it can only add to it, and a level statement
  leaves it as it was.
 */
module IfStack {
  import opened Phrases
  import opened Machine
  import opened Structured
  import opened Textbook

  ghost predicate Inside(r: Result) { r.Normal? || r.Broken? || r.Continued? }

  /** Result r of a statement started with stack m. */
  ghost predicate StackKept(r: Result, m: seq<bool>, level: bool, escapes: bool) {
    Inside(r) ==>
      && m <= r.s.ifm
      && (level ==> r.s.ifm == m)
      && (!escapes ==> r.Normal?)
  }

  /** A statement keeps what is under its own IFs; a level one keeps the whole stack. */
  lemma {:induction false} StmtGrows(fuel: nat, last: seq<Construct>, s: Stmt, st: State)
    ensures StackKept(Exec(fuel, last, s, st), st.ifm, Level(s), Escapes(s))
    decreases fuel, s, 1
  {
    hide ForPass, ForeachPass, Mentions, Flatten, Beyond, KeyVar;
    match s
    case Seq(a, b) =>
      StmtGrows(fuel, last, a, st);
      var r := Exec(fuel, last, a, st);
      if r.Normal? {
        StmtGrows(fuel, last, b, r.s);
      }
    case If(cond, _, thn, tail) =>
      IfGrows(fuel, last, s, st);
    case While(cond, _, body) =>
      if cond(st.store) == Some(true) && |last| + 1 < MAX_LOOPS {
        WhileGrows(fuel, last + [CWhile], cond, body, st);
      }
    case For(v, start, end, step, _, body) =>
      ForStmtGrows(fuel, last, s, st);
    case Foreach(v, list, _, body) =>
      ForeachStmtGrows(fuel, last, s, st);
    case Case(value, _, cls) =>
      var x := value(st.store);
      if x.Some? && CountCases(last) + 1 < CASE_CAP {
        ClausesGrow(fuel, last + [CCase], x.value, false, cls, st);
      }
    case _ =>
  }

  lemma {:induction false} IfGrows(fuel: nat, last: seq<Construct>, s: Stmt, st: State)
    requires s.If?
    ensures StackKept(Exec(fuel, last, s, st), st.ifm, Level(s), Escapes(s))
    decreases fuel, s, 0
  {
    var on, off := Push(st, true), Push(st, false);
    StmtGrows(fuel, last, s.thn, on);
    var r := Exec(fuel, last, s.thn, on);
    if r.Normal? {
      ReachGrows(fuel, last, s.tail, r.s, st.ifm, true);
    }
    JumpGrows(fuel, last, s.tail, off, st.ifm);
  }

  /** The tail of an IF entered with stack m; the flag pushed for it is x. */
  lemma {:induction false} ReachGrows(fuel: nat, last: seq<Construct>, t: Tail, st: State, m: seq<bool>, x: bool)
    requires m + [x] <= st.ifm
    ensures StackKept(ReachTail(fuel, last, t, st), m,
                      st.ifm == m + [x] && (x || t.EndIf? || (t.ElseIf? && LevelTail(t))), EscapesTail(t))
    decreases fuel, t, 2
  {
    var m1 := st.ifm[..|st.ifm| - 1];
    assert m <= m1 && st.ifm == m1 + [st.ifm[|st.ifm| - 1]];
    assert st.ifm == m + [x] ==> m1 == m;
    if t.ElseIf? && !TopMatched(st) {
      var test := t.cond(st.store);
      if test == Some(true) {
        var st1 := st.(ifm := st.ifm[|st.ifm| - 1 := true]);
        assert st1.ifm == m1 + [true];
        BranchGrows(fuel, last, t, st1, m1);
      } else if test == Some(false) {
        JumpGrows(fuel, last, t.tail, st, m1);
      }
    }
  }

  /** The body of an ELSE IF and then its tail. */
  lemma {:induction false} BranchGrows(fuel: nat, last: seq<Construct>, t: Tail, st: State, m: seq<bool>)
    requires t.ElseIf? && st.ifm == m + [true]
    ensures var r := Exec(fuel, last, t.thn, st);
      StackKept(if r.Normal? then ReachTail(fuel, last, t.tail, r.s) else r, m, LevelTail(t), EscapesTail(t))
    decreases fuel, t, 1
  {
    hide ReachTail, JumpTail;
    StmtGrows(fuel, last, t.thn, st);
    var r := Exec(fuel, last, t.thn, st);
    if r.Normal? {
      ReachGrows(fuel, last, t.tail, r.s, m, true);
    }
  }

  lemma {:induction false} JumpGrows(fuel: nat, last: seq<Construct>, t: Tail, st: State, m: seq<bool>)
    requires st.ifm == m + [false]
    ensures StackKept(JumpTail(fuel, last, t, st), m, LevelTail(t), EscapesTail(t))
    decreases fuel, t, 3
  {
    match t
    case EndIf =>
    case ElseBlock(els) =>
      StmtGrows(fuel, last, els, st);
    case ElseIf(_, _, _, _) =>
      ReachGrows(fuel, last, t, st, m, false);
  }

  lemma {:induction false} WhileGrows(fuel: nat, last: seq<Construct>, cond: Cond, body: Stmt, st: State)
    ensures StackKept(WhileLoop(fuel, last, cond, body, st), st.ifm, Level(body), false)
    decreases fuel, body, 2
  {
    StmtGrows(fuel, last, body, st);
    var r := Exec(fuel, last, body, st);
    if (r.Normal? || r.Continued?) && cond(r.s.store) == Some(true) && fuel > 0 {
      WhileGrows(fuel - 1, last, cond, body, r.s);
    }
  }

  lemma {:induction false} ForStmtGrows(fuel: nat, last: seq<Construct>, s: Stmt, st: State)
    requires s.For?
    ensures StackKept(Exec(fuel, last, s, st), st.ifm, Level(s), Escapes(s))
    decreases fuel, s, 0
  {
    hide ForPass, Mentions, Flatten, Beyond;
    var a, b, d := s.start(st.store), s.end(st.store), s.step(st.store);
    if a.Some? && b.Some? && d.Some? && d.value != 0 && |last| + 1 < MAX_LOOPS {
      var loop := EmptyLoop().(loopType := LT_FOR, loopVar := s.v, counter := a.value, condEnd := b.value,
                               step := d.value);
      ForGrows(fuel, last + [CFor], loop, s.body, st.(store := st.store[s.v := IntV(a.value)]));
    }
  }

  lemma {:induction false} ForGrows(fuel: nat, last: seq<Construct>, loop: Loop, body: Stmt, st: State)
    requires loop.step != 0
    ensures StackKept(ForLoop(fuel, last, loop, body, st), st.ifm, Level(body), false)
    decreases fuel, body, 1 + ForLeft(loop)
  {
    StmtGrows(fuel, last, body, st);
    var r := Exec(fuel, last, body, st);
    if r.Normal? || r.Continued? {
      var (loop1, store1, ended) := ForPass(loop, r.s.store, Mentions(Flatten(body), loop.loopVar));
      if !ended {
        ForGrows(fuel, last, loop1, body, r.s.(store := store1));
      }
    }
  }

  lemma {:induction false} ForeachStmtGrows(fuel: nat, last: seq<Construct>, s: Stmt, st: State)
    requires s.Foreach?
    ensures StackKept(Exec(fuel, last, s, st), st.ifm, Level(s), Escapes(s))
    decreases fuel, s, 0
  {
    hide ForeachPass, KeyVar;
    var items := s.list(st.store);
    if items.Some? && |items.value| > 0 && |last| + 1 < MAX_LOOPS {
      var loop := EmptyLoop().(loopType := LT_FOREACH, loopVar := s.v, condEnd := |items.value| - 1,
                               items := items.value);
      ForeachGrows(fuel, last + [CForeach], loop, s.body,
                   st.(store := st.store[KeyVar(s.v) := IntV(0)][s.v := items.value[0]]));
    }
  }

  lemma {:induction false} ForeachGrows(fuel: nat, last: seq<Construct>, loop: Loop, body: Stmt, st: State)
    ensures StackKept(ForeachLoop(fuel, last, loop, body, st), st.ifm, Level(body), false)
    decreases fuel, body, 1 + ForeachLeft(loop)
  {
    StmtGrows(fuel, last, body, st);
    var r := Exec(fuel, last, body, st);
    if r.Normal? || r.Continued? {
      var (loop1, store1, ended) := ForeachPass(loop, r.s.store);
      if !ended {
        ForeachGrows(fuel, last, loop1, body, r.s.(store := store1));
      }
    }
  }

  lemma {:induction false} ClausesGrow(fuel: nat, last: seq<Construct>, value: Value, performed: bool, cls: Clauses,
                                       st: State)
    requires 0 < |last| && last[|last| - 1] == CCase
    ensures StackKept(ExecClauses(fuel, last, value, performed, cls, st), st.ifm, LevelClauses(cls), false)
    decreases fuel, cls, 2
  {
    if cls.Clause? && !performed {
      var matched := Matches(cls.guard, value, st.store);
      if matched == Some(false) {
        ClausesGrow(fuel, last, value, false, cls.rest, st);
      } else if matched == Some(true) {
        StmtGrows(fuel, last, cls.body, st);
        var r := Exec(fuel, last, cls.body, st);
        if r.Normal? {
          ClausesGrow(fuel, last, value, !cls.guard.Or?, cls.rest, r.s);
        }
      }
    }
  }
}
