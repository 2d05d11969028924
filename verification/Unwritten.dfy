/**
  When the interpreter's leaving a FOR variable unwritten can be seen: the body does not mention
  the variable, so ENDFOR does not rewrite it between passes, and does not write it at all after a
  single pass. A BREAK then leaves the loop with the old value in the variable, and a FOREACH in
  the body may have written the variable as its key.
 */
module Unwritten {
  import opened Phrases
  import opened Machine
  import opened Structured
  import opened Textbook
  import opened Framing

  /** What a run of the body leaves in v, if it writes v. */
  function KeyWritten(fuel: nat, body: Stmt, store: Store, v: string): Option<Value> {
    match Eval(fuel, body, store - {v})
    case Ok(store1) => At(store1, v)
    case Brk(store1) => At(store1, v)
    case Cnt(store1) => At(store1, v)
    case _ => None
  }

  function At(store: Store, v: string): Option<Value> { if v in store then Some(store[v]) else None }

  function Either(x: Option<Value>, held: Value): Value { if x.Some? then x.value else held }

  /**
    Passes k, k + 1, ..., n - 1, with held in the variable before pass k. The difference shows when
    a pass that does not write the variable ends in a BREAK while the variable holds another value
    than that of the pass, or when the only pass there is leaves another value in it.
   */
  predicate Shows(fuel: nat, v: string, start: int, step: int, k: nat, n: nat, body: Stmt, held: Value, store: Store)
    requires k <= n
    decreases n - k
  {
    k < n &&
    var x, t := KeyWritten(fuel, body, store, v), Eval(fuel, body, store[v := IntV(start + k * step)]);
    if t.Brk? then x.None? && held != IntV(start + k * step)
    else
      && (t.Ok? || t.Cnt?)
      && ((n == 1 && Either(x, held) != IntV(start))
          || Shows(fuel, v, start, step, k + 1, n, body, Either(x, held), t.store))
  }

  lemma ShowsParts(fuel: nat, v: string, start: int, step: int, k: nat, n: nat, body: Stmt, held: Value, store: Store)
    requires k < n
    ensures var x, t := KeyWritten(fuel, body, store, v), Eval(fuel, body, store[v := IntV(start + k * step)]);
      Shows(fuel, v, start, step, k, n, body, held, store) <==>
        if t.Brk? then x.None? && held != IntV(start + k * step)
        else
          && (t.Ok? || t.Cnt?)
          && ((n == 1 && Either(x, held) != IntV(start))
              || Shows(fuel, v, start, step, k + 1, n, body, Either(x, held), t.store))
  {
    hide Eval, KeyWritten;
  }

  lemma LastPass(fuel: nat, v: string, start: int, step: int, n: nat, body: Stmt, held: Value, store: Store)
    requires n > 0
    ensures EvalFor(fuel, v, start, step, n, n, body, store) == Ok(store[v := IntV(LastValue(start, step, n))])
    ensures !Shows(fuel, v, start, step, n, n, body, held, store)
  {
    hide Eval, KeyWritten;
  }

  /** The run ended with x in v if it wrote x there, else with held. */
  predicate Leaves(t: Outcome, v: string, x: Option<Value>, held: Value) {
    if t.Ok? || t.Brk? || t.Cnt? then At(t.store, v) == Some(Either(x, held)) else x.None?
  }

  /** A run of a body that does not read v leaves in v what it writes there, and otherwise what was there. */
  lemma PassWrites(fuel: nat, body: Stmt, store: Store, v: string)
    requires Blind(body, v) && v in store
    ensures Leaves(Eval(fuel, body, store), v, KeyWritten(fuel, body, store, v), store[v])
  {
    hide Eval, Blind;
    assert AgreeOff(store, store - {v}, v) by { assert store - {v} - {v} == store - {v}; }
    EvalFrame(false, fuel, body, store, store - {v}, v);
  }

  /** What is written to v does not depend on what v held. */
  lemma SameWritten(fuel: nat, body: Stmt, a: Store, b: Store, v: string)
    requires AgreeOff(a, b, v)
    ensures KeyWritten(fuel, body, a, v) == KeyWritten(fuel, body, b, v)
  {
    hide Eval;
  }

  ghost predicate Apart(a: Store, b: Store, v: string, w: Option<Value>, x: Value, y: Value) {
    AgreeOff(a, b, v) && At(a, v) == Some(Either(w, x)) && At(b, v) == Some(Either(w, y))
  }

  /** Two runs that began with x and y in v, and wrote w there if they wrote it. */
  ghost predicate Paired(ra: Outcome, rb: Outcome, v: string, w: Option<Value>, x: Value, y: Value) {
    match (ra, rb)
    case (Ok(a), Ok(b)) => Apart(a, b, v, w, x, y)
    case (Brk(a), Brk(b)) => Apart(a, b, v, w, x, y)
    case (Cnt(a), Cnt(b)) => Apart(a, b, v, w, x, y)
    case (Err(e), Err(e')) => e == e'
    case (Out, Out) => true
    case (Ret(p), Ret(q)) => p == q
    case _ => false
  }

  /** The machine's run of a pass, from a, and the textbook's, which has set v. */
  lemma PassPair(fuel: nat, body: Stmt, a: Store, base: Store, v: string, y: Value)
    requires Blind(body, v) && AgreeOff(a, base, v) && v in a
    ensures Paired(Eval(fuel, body, a), Eval(fuel, body, base[v := y]), v, KeyWritten(fuel, body, base, v), a[v], y)
  {
    hide Eval, Blind, KeyWritten;
    var b := base[v := y];
    assert b - {v} == base - {v};
    EvalFrame(false, fuel, body, a, b, v);
    PassWrites(fuel, body, a, v);
    PassWrites(fuel, body, b, v);
    SameWritten(fuel, body, a, base, v);
    SameWritten(fuel, body, b, base, v);
  }

  lemma EqualIffAt(a: Store, b: Store, v: string)
    requires AgreeOff(a, b, v) && v in a && v in b
    ensures a == b <==> a[v] == b[v]
  {
    if a[v] == b[v] {
      assert a == (a - {v})[v := a[v]];
      assert b == (b - {v})[v := b[v]];
    }
  }

  // ---------------------------------------------------------------- bodies without BREAK

  /** Without a BREAK of its own, a body does not end by one. */
  lemma {:induction false} NoBreak(fuel: nat, s: Stmt, store: Store)
    requires !Breaks(s)
    ensures !Eval(fuel, s, store).Brk?
    decreases s
  {
    match s
    case Seq(a, b) =>
      NoBreak(fuel, a, store);
      var r := Eval(fuel, a, store);
      if r.Ok? {
        NoBreak(fuel, b, r.store);
      }
    case If(_, _, thn, tail) =>
      NoBreak(fuel, thn, store);
      NoBreakTail(fuel, tail, store);
    case While(cond, _, body) =>
      LoopsCatch(fuel, s, store);
    case For(_, _, _, _, _, _) =>
      LoopsCatch(fuel, s, store);
    case Foreach(_, _, _, _) =>
      LoopsCatch(fuel, s, store);
    case Case(value, _, cls) =>
      if value(store).Some? {
        CaseCatches(fuel, value(store).value, cls, store);
      }
    case _ =>
  }

  lemma {:induction false} NoBreakTail(fuel: nat, t: Tail, store: Store)
    requires !BreaksTail(t)
    ensures !EvalTail(fuel, t, store).Brk?
    decreases t
  {
    match t
    case EndIf =>
    case ElseBlock(els) => NoBreak(fuel, els, store);
    case ElseIf(_, _, thn, tail) =>
      NoBreak(fuel, thn, store);
      NoBreakTail(fuel, tail, store);
  }

  lemma LoopsCatch(fuel: nat, s: Stmt, store: Store)
    requires s.While? || s.For? || s.Foreach?
    ensures !Eval(fuel, s, store).Brk? && !Eval(fuel, s, store).Cnt?
  {
    match s
    case While(cond, _, body) => WhileCatches(fuel, cond, body, store);
    case For(v, a, b, d, _, body) =>
      if a(store).Some? && b(store).Some? && d(store).Some? && d(store).value != 0 {
        ForCatches(fuel, v, a(store).value, d(store).value, 0, Trips(a(store).value, b(store).value, d(store).value),
                   body, store);
      }
    case Foreach(v, l, _, body) =>
      if l(store).Some? {
        ForeachCatches(fuel, v, l(store).value, 0, body, store);
      }
  }

  lemma {:induction false} WhileCatches(fuel: nat, cond: Cond, body: Stmt, store: Store)
    ensures !EvalWhile(fuel, cond, body, store).Brk? && !EvalWhile(fuel, cond, body, store).Cnt?
    decreases fuel
  {
    hide Eval;
    var r := Eval(fuel, body, store);
    if (r.Ok? || r.Cnt?) && fuel > 0 {
      WhileCatches(fuel - 1, cond, body, r.store);
    }
  }

  lemma {:induction false} ForCatches(fuel: nat, v: string, start: int, step: int, k: nat, n: nat, body: Stmt,
                                      store: Store)
    requires k <= n
    ensures !EvalFor(fuel, v, start, step, k, n, body, store).Brk?
    ensures !EvalFor(fuel, v, start, step, k, n, body, store).Cnt?
    decreases n - k
  {
    hide Eval;
    if k < n {
      var r := Eval(fuel, body, store[v := IntV(start + k * step)]);
      if r.Ok? || r.Cnt? {
        ForCatches(fuel, v, start, step, k + 1, n, body, r.store);
      }
    }
  }

  lemma {:induction false} ForeachCatches(fuel: nat, v: string, items: seq<Value>, k: nat, body: Stmt, store: Store)
    requires k <= |items|
    ensures !EvalForeach(fuel, v, items, k, body, store).Brk? && !EvalForeach(fuel, v, items, k, body, store).Cnt?
    decreases |items| - k
  {
    hide Eval;
    if k < |items| {
      var r := Eval(fuel, body, store["key_" + v := IntV(k)][v := items[k]]);
      if r.Ok? || r.Cnt? {
        ForeachCatches(fuel, v, items, k + 1, body, r.store);
      }
    }
  }

  lemma {:induction false} CaseCatches(fuel: nat, value: Value, cls: Clauses, store: Store)
    ensures !EvalClauses(fuel, value, cls, store).Brk?
    decreases cls
  {
    hide Eval, Matches;
    if cls.Clause? {
      CaseCatches(fuel, value, cls.rest, store);
    }
  }

  // ---------------------------------------------------------------- two kinds of body

  /** Some pass other than the first ends in a BREAK. */
  predicate BreaksLate(fuel: nat, v: string, start: int, step: int, k: nat, n: nat, body: Stmt, store: Store)
    requires k <= n
    decreases n - k
  {
    k < n &&
    match Eval(fuel, body, store[v := IntV(start + k * step)])
    case Brk(_) => k > 0
    case Ok(store1) => BreaksLate(fuel, v, start, step, k + 1, n, body, store1)
    case Cnt(store1) => BreaksLate(fuel, v, start, step, k + 1, n, body, store1)
    case _ => false
  }

  /** Every pass but the first has a value of its own. */
  lemma Strays(start: int, step: int, k: nat)
    requires step != 0
    ensures start + k * step == start <==> k == 0
  {
  }

  lemma NothingWritten(fuel: nat, body: Stmt, store: Store, v: string)
    requires Blind(body, v) && KeyFree(body, v)
    ensures KeyWritten(fuel, body, store, v).None?
  {
    hide Eval, Blind, KeyFree;
    assert AgreeOff(store, store - {v}, v) by { assert store - {v} - {v} == store - {v}; }
    EvalFrame(true, fuel, body, store, store - {v}, v);
  }

  /** With no FOREACH that writes the variable, only a BREAK on a pass other than the first shows. */
  lemma {:induction false} ShowsIffBreaksLate(fuel: nat, v: string, start: int, step: int, k: nat, n: nat, body: Stmt,
                                              store: Store)
    requires k <= n && step != 0 && Blind(body, v) && KeyFree(body, v)
    ensures Shows(fuel, v, start, step, k, n, body, IntV(start), store)
       <==> BreaksLate(fuel, v, start, step, k, n, body, store)
    decreases n - k
  {
    hide Eval, Blind, KeyFree, KeyWritten;
    if k < n {
      NothingWritten(fuel, body, store, v);
      Strays(start, step, k);
      var t := Eval(fuel, body, store[v := IntV(start + k * step)]);
      if t.Ok? || t.Cnt? {
        ShowsIffBreaksLate(fuel, v, start, step, k + 1, n, body, t.store);
      }
    }
  }

  /** With no BREAK, only a single pass that leaves another value in the variable shows. */
  lemma {:induction false} ShowsIffOnePass(fuel: nat, v: string, start: int, step: int, k: nat, n: nat, body: Stmt,
                                           held: Value, store: Store)
    requires k <= n && Blind(body, v) && !Breaks(body) && (k == 0 ==> held == IntV(start))
    ensures Shows(fuel, v, start, step, k, n, body, held, store)
       <==> k == 0 && n == 1 && Either(KeyWritten(fuel, body, store, v), IntV(start)) != IntV(start)
    decreases n - k
  {
    hide Eval, Blind, Breaks, KeyWritten;
    if k < n {
      var base := store[v := IntV(start + k * step)];
      NoBreak(fuel, body, base);
      PassWrites(fuel, body, base, v);
      assert base - {v} == store - {v};
      SameWritten(fuel, body, base, store, v);
      var t := Eval(fuel, body, base);
      if t.Ok? || t.Cnt? {
        ShowsIffOnePass(fuel, v, start, step, k + 1, n, body, Either(KeyWritten(fuel, body, store, v), held), t.store);
      }
    }
  }

  /** With neither, nothing shows. */
  lemma TidyForHides(fuel: nat, v: string, start: int, step: int, k: nat, n: nat, body: Stmt, held: Value, store: Store)
    requires k <= n && Blind(body, v) && !Breaks(body) && KeyFree(body, v) && (k == 0 ==> held == IntV(start))
    ensures !Shows(fuel, v, start, step, k, n, body, held, store)
  {
    hide Eval, Blind, Breaks, KeyFree, KeyWritten, Shows;
    ShowsIffOnePass(fuel, v, start, step, k, n, body, held, store);
    NothingWritten(fuel, body, store, v);
  }
}
