/**
  Definite assignment: a body that reads only its parameters and what it has itself assigned on
  every way there. Such a body comes to the same whatever variables an earlier pass has left, so a
  tail call of its function may start it over.
 */
module Definite {
  import opened Phrases
  import opened Machine
  import opened Structured
  import opened WholeRuns
  import opened TailCalls

  /** The stores hold the same under these names. */
  ghost predicate AgreeOn(a: Store, b: Store, v: set<string>) {
    forall x :: x in v ==> (x in a <==> x in b) && (x in a ==> a[x] == b[x])
  }

  /** e depends on these names only. */
  ghost predicate Sees<T(!new)>(e: Store -> T, v: set<string>) {
    forall a: Store, b: Store :: AgreeOn(a, b, v) ==> e(a) == e(b)
  }

  /** run depends on the names of v only, and leaves those of w depending on them only. */
  ghost predicate ActSees(run: Action, v: set<string>, w: set<string>) {
    forall a: Store, b: Store :: AgreeOn(a, b, v) ==>
      match (run(a), run(b))
      case (None, None) => true
      case (Some(a'), Some(b')) => AgreeOn(a', b', w)
      case _ => false
  }

  ghost predicate TestSees(g: Option<Cond>, v: set<string>) { g.Some? ==> Sees(g.value, v) }

  ghost predicate RetSees(ret: Ret, v: set<string>) {
    match ret
    case Values(list) => Sees(list, v)
    case ValuesIf(cond, list) => Sees(cond, v) && Sees(list, v)
    case CallSelf(args) => Sees(args, v)
  }

  ghost predicate GuardSees(g: Guard, v: set<string>) {
    match g
    case Is(e) => Sees(e, v)
    case Has(e) => Sees(e, v)
    case Contains(p) => forall x: Value, a: Store, b: Store :: AgreeOn(a, b, v) ==> p(x, a) == p(x, b)
    case Or => true
  }

  /** With the names of v assigned before it, s reads none but assigned ones, and those of w are assigned after it. */
  ghost predicate Assigned(s: Stmt, v: set<string>, w: set<string>)
    decreases s, 0
  {
    match s
    case Skip => w == v
    case Seq(a, b) => exists u :: Assigned(a, v, u) && Assigned(b, u, w)
    case Act(run, _) => v <= w && ActSees(run, v, w)
    case If(c, _, thn, tail) =>
      Sees(c, v) && exists u, t :: Assigned(thn, v, u) && AssignedTail(tail, v, t) && v <= w <= u * t
    case While(c, _, body) => w == v && Sees(c, v) && Repeatable(body, v)
    case For(x, a, b, d, _, body) => w == v + {x} && Sees(a, v) && Sees(b, v) && Sees(d, v) && Repeatable(body, w)
    case Foreach(x, l, _, body) => w == v && Sees(l, v) && Repeatable(body, v + {KeyVar(x), x})
    case Case(e, _, cls) => w == v && Sees(e, v) && AssignedClauses(cls, v)
    case Break(g, _) => w == v && TestSees(g, v)
    case Continue(g, _) => w == v && TestSees(g, v)
    case Return(ret, _) => w == v && RetSees(ret, v)
  }

  ghost predicate Repeatable(s: Stmt, v: set<string>)
    decreases s, 1
  {
    exists u :: Assigned(s, v, u)
  }

  ghost predicate AssignedTail(t: Tail, v: set<string>, w: set<string>)
    decreases t, 0
  {
    match t
    case EndIf => w == v
    case ElseBlock(els) => Assigned(els, v, w)
    case ElseIf(c, _, thn, rest) =>
      Sees(c, v) && exists u, t :: Assigned(thn, v, u) && AssignedTail(rest, v, t) && v <= w <= u * t
  }

  ghost predicate AssignedClauses(cls: Clauses, v: set<string>)
    decreases cls, 0
  {
    match cls
    case EndCase => true
    case Clause(g, _, body, rest) => GuardSees(g, v) && Repeatable(body, v) && AssignedClauses(rest, v)
  }

  // ---------------------------------------------------------------- two runs

  ghost predicate Like(a: State, b: State, v: set<string>) { a.ifm == b.ifm && AgreeOn(a.store, b.store, v) }

  /** Two runs end alike: with w the same after a normal end, and v after one by BREAK or CONTINUE. */
  ghost predicate Alike(ra: Result, rb: Result, v: set<string>, w: set<string>) {
    match (ra, rb)
    case (Normal(a), Normal(b)) => Like(a, b, w)
    case (Broken(a), Broken(b)) => Like(a, b, v)
    case (Continued(a), Continued(b)) => Like(a, b, v)
    case (Failure(e), Failure(e')) => e == e'
    case (OutOfFuel, OutOfFuel) => true
    case (Returned(x, _, _), Returned(x', _, _)) => x == x'
    case _ => false
  }

  lemma {:induction false} OnlyGrows(s: Stmt, v: set<string>, w: set<string>)
    requires Assigned(s, v, w)
    ensures v <= w
    decreases s
  {
    if s.Seq? {
      var u :| Assigned(s.first, v, u) && Assigned(s.rest, u, w);
      OnlyGrows(s.first, v, u);
      OnlyGrows(s.rest, u, w);
    }
  }

  lemma LessAlike(ra: Result, rb: Result, v: set<string>, w: set<string>, v': set<string>, w': set<string>)
    requires Alike(ra, rb, v, w) && v' <= v && w' <= w
    ensures Alike(ra, rb, v', w')
  {
  }

  lemma SetAlike(a: Store, b: Store, v: set<string>, x: string, y: Value)
    requires AgreeOn(a, b, v)
    ensures AgreeOn(a[x := y], b[x := y], v + {x})
  {
  }

  lemma {:induction false} RunsAlike(fuel: nat, last: seq<Construct>, s: Stmt, a: State, b: State, v: set<string>,
                                     w: set<string>)
    requires Assigned(s, v, w) && Like(a, b, v)
    ensures Alike(Exec(fuel, last, s, a), Exec(fuel, last, s, b), v, w)
    decreases fuel, s, 1
  {
    hide AgreeOn, Repeatable, AssignedTail, AssignedClauses, KeyVar, Beyond, ForPass, Mentions, Flatten,
      ReachTail, JumpTail, WhileLoop, ForLoop, ForeachLoop, ExecClauses;
    match s
    case Skip =>
    case Seq(p, q) =>
      var u :| Assigned(p, v, u) && Assigned(q, u, w);
      RunsAlike(fuel, last, p, a, b, v, u);
      OnlyGrows(p, v, u);
      var ra, rb := Exec(fuel, last, p, a), Exec(fuel, last, p, b);
      if ra.Normal? {
        RunsAlike(fuel, last, q, ra.s, rb.s, u, w);
        LessAlike(Exec(fuel, last, q, ra.s), Exec(fuel, last, q, rb.s), u, w, v, w);
      }
    case Act(run, _) =>
    case If(_, _, _, _) => IfAlike(fuel, last, s, a, b, v, w);
    case While(c, _, body) =>
      assert c(a.store) == c(b.store);
      if c(a.store) == Some(true) && |last| + 1 < MAX_LOOPS {
        WhileAlike(fuel, last + [CWhile], c, body, a, b, v);
      }
    case For(_, _, _, _, _, _) => ForStmtAlike(fuel, last, s, a, b, v, w);
    case Foreach(_, _, _, _) => ForeachStmtAlike(fuel, last, s, a, b, v);
    case Case(e, _, cls) =>
      assert e(a.store) == e(b.store);
      if e(a.store).Some? {
        ClausesAlike(fuel, last + [CCase], e(a.store).value, false, cls, a, b, v);
      }
    case Break(g, _) => assert Test(g, a.store) == Test(g, b.store);
    case Continue(g, _) => assert Test(g, a.store) == Test(g, b.store);
    case Return(ret, _) => assert ExitOf(ret, a.store) == ExitOf(ret, b.store);
  }

  lemma {:induction false} TailOnlyGrows(t: Tail, v: set<string>, w: set<string>)
    requires AssignedTail(t, v, w)
    ensures v <= w
  {
    if t.ElseBlock? {
      OnlyGrows(t.els, v, w);
    }
  }

  lemma Narrower(ra: Result, rb: Result, v: set<string>, w: set<string>, w': set<string>)
    requires Alike(ra, rb, v, w) && w' <= w
    ensures Alike(ra, rb, v, w')
  {
    LessAlike(ra, rb, v, w, v, w');
  }

  lemma {:induction false} IfAlike(fuel: nat, last: seq<Construct>, s: Stmt, a: State, b: State, v: set<string>,
                                   w: set<string>)
    requires s.If? && Assigned(s, v, w) && Like(a, b, v)
    ensures Alike(Exec(fuel, last, s, a), Exec(fuel, last, s, b), v, w)
    decreases fuel, s, 0
  {
    hide AgreeOn, AssignedTail, ReachTail, JumpTail;
    var c, thn, tail := s.cond, s.thn, s.tail;
    var u, t :| Assigned(thn, v, u) && AssignedTail(tail, v, t) && v <= w <= u * t;
    assert c(a.store) == c(b.store);
    if c(a.store) == Some(true) {
      var a1, b1 := Push(a, true), Push(b, true);
      RunsAlike(fuel, last, thn, a1, b1, v, u);
      var ra, rb := Exec(fuel, last, thn, a1), Exec(fuel, last, thn, b1);
      if ra.Normal? {
        ReachAlike(fuel, last, tail, ra.s, rb.s, v, u, t);
        Narrower(ReachTail(fuel, last, tail, ra.s), ReachTail(fuel, last, tail, rb.s), v, u * t, w);
      }
    } else if c(a.store) == Some(false) {
      JumpAlike(fuel, last, tail, Push(a, false), Push(b, false), v, t);
      Narrower(JumpTail(fuel, last, tail, Push(a, false)), JumpTail(fuel, last, tail, Push(b, false)), v, t, w);
    }
  }

  /** The tail reached from a branch that has assigned the names of u. */
  lemma {:induction false} ReachAlike(fuel: nat, last: seq<Construct>, t: Tail, a: State, b: State,
                                      v: set<string>, u: set<string>, w: set<string>)
    requires AssignedTail(t, v, w) && v <= u && Like(a, b, u)
    ensures Alike(ReachTail(fuel, last, t, a), ReachTail(fuel, last, t, b), v, u * w)
    decreases fuel, t, 1
  {
    hide JumpTail, Exec;
    TailOnlyGrows(t, v, w);
    if t.ElseIf? && |a.ifm| > 0 && !TopMatched(a) {
      ElseIfAlike(fuel, last, t, a, b, v, w);
      Narrower(ReachTail(fuel, last, t, a), ReachTail(fuel, last, t, b), v, w, u * w);
    }
  }

  /** The test of an ELSE IF. */
  lemma {:induction false} ElseIfAlike(fuel: nat, last: seq<Construct>, s: Tail, a: State, b: State, v: set<string>,
                                       w: set<string>)
    requires s.ElseIf? && AssignedTail(s, v, w) && Like(a, b, v) && |a.ifm| > 0 && !TopMatched(a)
    ensures Alike(ReachTail(fuel, last, s, a), ReachTail(fuel, last, s, b), v, w)
    decreases fuel, s, 0
  {
    hide AgreeOn, JumpTail;
    var c, thn, tail := s.cond, s.thn, s.tail;
    var u, t :| Assigned(thn, v, u) && AssignedTail(tail, v, t) && v <= w <= u * t;
    assert c(a.store) == c(b.store);
    if c(a.store) == Some(true) {
      var a1, b1 := a.(ifm := a.ifm[|a.ifm| - 1 := true]), b.(ifm := b.ifm[|b.ifm| - 1 := true]);
      RunsAlike(fuel, last, thn, a1, b1, v, u);
      var ra, rb := Exec(fuel, last, thn, a1), Exec(fuel, last, thn, b1);
      if ra.Normal? {
        ReachAlike(fuel, last, tail, ra.s, rb.s, v, u, t);
        Narrower(ReachTail(fuel, last, tail, ra.s), ReachTail(fuel, last, tail, rb.s), v, u * t, w);
      }
    } else if c(a.store) == Some(false) {
      JumpAlike(fuel, last, tail, a, b, v, t);
      Narrower(JumpTail(fuel, last, tail, a), JumpTail(fuel, last, tail, b), v, t, w);
    }
  }

  lemma {:induction false} JumpAlike(fuel: nat, last: seq<Construct>, t: Tail, a: State, b: State, v: set<string>,
                                     w: set<string>)
    requires AssignedTail(t, v, w) && Like(a, b, v) && |a.ifm| > 0 && !TopMatched(a)
    ensures Alike(JumpTail(fuel, last, t, a), JumpTail(fuel, last, t, b), v, w)
    decreases fuel, t, 2
  {
    hide AgreeOn, Exec;
    match t
    case EndIf =>
    case ElseBlock(els) => RunsAlike(fuel, last, els, a, b, v, w);
    case ElseIf(_, _, _, _) => ElseIfAlike(fuel, last, t, a, b, v, w);
  }

  lemma {:induction false} WhileAlike(fuel: nat, last: seq<Construct>, c: Cond, body: Stmt, a: State, b: State,
                                      v: set<string>)
    requires Sees(c, v) && Repeatable(body, v) && Like(a, b, v)
    ensures Alike(WhileLoop(fuel, last, c, body, a), WhileLoop(fuel, last, c, body, b), v, v)
    decreases fuel, body, 3
  {
    hide AgreeOn, Assigned;
    PassAlike(fuel, last, body, a, b, v);
    var ra, rb := Exec(fuel, last, body, a), Exec(fuel, last, body, b);
    if ra.Normal? || ra.Continued? {
      assert c(ra.s.store) == c(rb.s.store);
      if c(ra.s.store) == Some(true) && fuel > 0 {
        WhileAlike(fuel - 1, last, c, body, ra.s, rb.s, v);
      }
    }
  }

  /** One pass of a loop. */
  lemma {:induction false} PassAlike(fuel: nat, last: seq<Construct>, body: Stmt, a: State, b: State, v: set<string>)
    requires Repeatable(body, v) && Like(a, b, v)
    ensures Alike(Exec(fuel, last, body, a), Exec(fuel, last, body, b), v, v)
    decreases fuel, body, 2
  {
    hide AgreeOn, Assigned;
    var u :| Assigned(body, v, u);
    RunsAlike(fuel, last, body, a, b, v, u);
    OnlyGrows(body, v, u);
    Narrower(Exec(fuel, last, body, a), Exec(fuel, last, body, b), v, u, v);
  }

  lemma {:induction false} ForStmtAlike(fuel: nat, last: seq<Construct>, s: Stmt, a: State, b: State, v: set<string>,
                                        w: set<string>)
    requires s.For? && Assigned(s, v, w) && Like(a, b, v)
    ensures Alike(Exec(fuel, last, s, a), Exec(fuel, last, s, b), v, w)
    decreases fuel, s, 0
  {
    hide AgreeOn, ForLoop, Mentions, Flatten, Repeatable;
    var x, p, q, d := s.v, s.start(a.store), s.end(a.store), s.step(a.store);
    assert s.start(b.store) == p && s.end(b.store) == q && s.step(b.store) == d;
    if p.Some? && q.Some? && d.Some? && d.value != 0 && |last| + 1 < MAX_LOOPS {
      var loop := EmptyLoop().(loopType := LT_FOR, loopVar := x, counter := p.value, condEnd := q.value,
                               step := d.value);
      var a1, b1 := a.(store := a.store[x := IntV(p.value)]), b.(store := b.store[x := IntV(p.value)]);
      SetAlike(a.store, b.store, v, x, IntV(p.value));
      if Beyond(p.value, q.value, d.value) {
        CountAlike(loop, a1.store, b1.store, w, Mentions(Flatten(s.body), x));
      } else {
        ForAlike(fuel, last + [CFor], loop, s.body, a1, b1, w);
        LessAlike(ForLoop(fuel, last + [CFor], loop, s.body, a1),
                  ForLoop(fuel, last + [CFor], loop, s.body, b1), w, w, v, w);
      }
    }
  }

  lemma CountAlike(loop: Loop, a: Store, b: Store, v: set<string>, used: bool)
    requires AgreeOn(a, b, v) && loop.loopVar in v
    ensures var (la, a1, ea) := ForPass(loop, a, used);
      var (lb, b1, eb) := ForPass(loop, b, used);
      la == lb && ea == eb && AgreeOn(a1, b1, v)
  {
  }

  lemma {:induction false} ForAlike(fuel: nat, last: seq<Construct>, loop: Loop, body: Stmt, a: State, b: State,
                                    v: set<string>)
    requires loop.step != 0 && loop.loopVar in v && Repeatable(body, v) && Like(a, b, v)
    ensures Alike(ForLoop(fuel, last, loop, body, a), ForLoop(fuel, last, loop, body, b), v, v)
    decreases fuel, body, 3, ForLeft(loop)
  {
    hide AgreeOn, Assigned, Mentions, Flatten, Repeatable;
    PassAlike(fuel, last, body, a, b, v);
    var ra, rb := Exec(fuel, last, body, a), Exec(fuel, last, body, b);
    if ra.Normal? || ra.Continued? {
      var used := Mentions(Flatten(body), loop.loopVar);
      CountAlike(loop, ra.s.store, rb.s.store, v, used);
      var (loop1, a1, ended) := ForPass(loop, ra.s.store, used);
      if !ended {
        ForAlike(fuel, last, loop1, body, ra.s.(store := a1), rb.s.(store := ForPass(loop, rb.s.store, used).1), v);
      }
    }
  }

  lemma {:induction false} ForeachStmtAlike(fuel: nat, last: seq<Construct>, s: Stmt, a: State, b: State,
                                            v: set<string>)
    requires s.Foreach? && Assigned(s, v, v) && Like(a, b, v)
    ensures Alike(Exec(fuel, last, s, a), Exec(fuel, last, s, b), v, v)
    decreases fuel, s, 0
  {
    hide AgreeOn, ForeachLoop, Repeatable, KeyVar;
    var x, list := s.v, s.list(a.store);
    assert s.list(b.store) == list;
    if list.Some? && |list.value| > 0 && |last| + 1 < MAX_LOOPS {
      var items := list.value;
      var loop := EmptyLoop().(loopType := LT_FOREACH, loopVar := x, condEnd := |items| - 1, items := items);
      var w := v + {KeyVar(x), x};
      var a1 := a.(store := a.store[KeyVar(x) := IntV(0)][x := items[0]]);
      var b1 := b.(store := b.store[KeyVar(x) := IntV(0)][x := items[0]]);
      ItemAlike(a.store, b.store, v, x, IntV(0), items[0]);
      ForeachAlike(fuel, last + [CForeach], loop, s.body, a1, b1, w);
      LessAlike(ForeachLoop(fuel, last + [CForeach], loop, s.body, a1),
                ForeachLoop(fuel, last + [CForeach], loop, s.body, b1),
                w, w, v, v);
    }
  }

  lemma ItemAlike(a: Store, b: Store, v: set<string>, x: string, k: Value, y: Value)
    requires AgreeOn(a, b, v)
    ensures AgreeOn(a[KeyVar(x) := k][x := y], b[KeyVar(x) := k][x := y], v + {KeyVar(x), x})
  {
    hide KeyVar;
  }

  lemma {:induction false} ForeachAlike(fuel: nat, last: seq<Construct>, loop: Loop, body: Stmt, a: State, b: State,
                                        v: set<string>)
    requires KeyVar(loop.loopVar) in v && loop.loopVar in v && Repeatable(body, v) && Like(a, b, v)
    ensures Alike(ForeachLoop(fuel, last, loop, body, a), ForeachLoop(fuel, last, loop, body, b), v, v)
    decreases fuel, body, 3, ForeachLeft(loop)
  {
    hide AgreeOn, Assigned, Repeatable, KeyVar;
    PassAlike(fuel, last, body, a, b, v);
    var ra, rb := Exec(fuel, last, body, a), Exec(fuel, last, body, b);
    if ra.Normal? || ra.Continued? {
      NextItemAlike(loop, ra.s.store, rb.s.store, v);
      var (loop1, a1, ended) := ForeachPass(loop, ra.s.store);
      if !ended {
        ForeachAlike(fuel, last, loop1, body, ra.s.(store := a1), rb.s.(store := ForeachPass(loop, rb.s.store).1), v);
      }
    }
  }

  lemma NextItemAlike(loop: Loop, a: Store, b: Store, v: set<string>)
    requires AgreeOn(a, b, v)
    ensures var (la, a1, ea) := ForeachPass(loop, a);
      var (lb, b1, eb) := ForeachPass(loop, b);
      la == lb && ea == eb && AgreeOn(a1, b1, v)
  {
    hide KeyVar;
  }

  lemma {:induction false} ClausesAlike(fuel: nat, last: seq<Construct>, value: Value, performed: bool, cls: Clauses,
                                        a: State, b: State, v: set<string>)
    requires 0 < |last| && last[|last| - 1] == CCase && AssignedClauses(cls, v) && Like(a, b, v)
    ensures Alike(ExecClauses(fuel, last, value, performed, cls, a),
                  ExecClauses(fuel, last, value, performed, cls, b), v, v)
    decreases fuel, cls, 2
  {
    hide AgreeOn, Assigned, Repeatable;
    if cls.Clause? && !performed {
      var g, body := cls.guard, cls.body;
      GuardAlike(g, value, a.store, b.store, v);
      match Matches(g, value, a.store)
      case None =>
      case Some(false) => ClausesAlike(fuel, last, value, false, cls.rest, a, b, v);
      case Some(true) =>
        PassAlike(fuel, last, body, a, b, v);
        var ra, rb := Exec(fuel, last, body, a), Exec(fuel, last, body, b);
        if ra.Normal? {
          ClausesAlike(fuel, last, value, !g.Or?, cls.rest, ra.s, rb.s, v);
        }
    }
  }

  lemma GuardAlike(g: Guard, value: Value, a: Store, b: Store, v: set<string>)
    requires GuardSees(g, v) && AgreeOn(a, b, v)
    ensures Matches(g, value, a) == Matches(g, value, b)
  {
    hide AgreeOn;
  }

  // ---------------------------------------------------------------- a whole body

  function Names(params: seq<string>): set<string> { set p | p in params }

  lemma {:induction false} BoundAlike(params: seq<string>, vals: seq<Value>, a: Store, b: Store, v: set<string>)
    requires |vals| == |params| && AgreeOn(a, b, v)
    ensures AgreeOn(Bind(params, vals, a), Bind(params, vals, b), v + Names(params))
    decreases |params|
  {
    hide AgreeOn;
    if params == [] {
      assert v + Names(params) == v;
    } else {
      SetAlike(a, b, v, params[0], vals[0]);
      BoundAlike(params[1..], vals[1..], a[params[0] := vals[0]], b[params[0] := vals[0]], v + {params[0]});
      assert v + {params[0]} + Names(params[1..]) == v + Names(params);
    }
  }

  /** A body that only reads what is assigned comes to the same whatever an earlier pass has left. */
  lemma AssignedIsOblivious(f: Function, w: set<string>)
    requires Assigned(f.body, Names(f.params), w)
    ensures Oblivious(f)
  {
    hide Assigned, AgreeOn, Exec, Bind;
    forall fuel: nat, vals: seq<Value>, store: Store | |vals| == |f.params|
      ensures MeantVerdict(f, Meaning(fuel, f.body, Bind(f.params, vals, store)))
           == MeantVerdict(f, Meaning(fuel, f.body, Bind(f.params, vals, map[])))
    {
      NothingAlike(store);
      BoundAlike(f.params, vals, store, map[], {});
      assert {} + Names(f.params) == Names(f.params);
      var a, b := State(Bind(f.params, vals, store), []), State(Bind(f.params, vals, map[]), []);
      RunsAlike(fuel, [], f.body, a, b, Names(f.params), w);
    }
  }

  lemma NothingAlike(store: Store)
    ensures AgreeOn(store, map[], {})
  {
  }
}
