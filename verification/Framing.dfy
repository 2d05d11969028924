/**
  A statement whose text never mentions a variable does not see it, and changes it only as the key
  of a FOREACH, which is not written in the text. This is what lets the interpreter leave an unused
  FOR variable unwritten between passes.
 */
module Framing {
  import opened Phrases
  import opened Machine
  import opened Structured
  import opened Textbook

  /** s does not read v, and writes it only as the key of a FOREACH. */
  ghost predicate Blind(s: Stmt, v: string)
    decreases s
  {
    match s
    case Skip => true
    case Seq(a, b) => Blind(a, v) && Blind(b, v)
    case Act(run, _) => ActIgnores(run, v)
    case If(c, _, thn, tail) => Ignores(c, v) && Blind(thn, v) && BlindTail(tail, v)
    case While(c, _, body) => Ignores(c, v) && Blind(body, v)
    case For(x, a, b, d, _, body) => x != v && Ignores(a, v) && Ignores(b, v) && Ignores(d, v) && Blind(body, v)
    case Foreach(x, l, _, body) => x != v && Ignores(l, v) && Blind(body, v)
    case Case(e, _, cls) => Ignores(e, v) && BlindClauses(cls, v)
    case Break(g, _) => TestIgnores(g, v)
    case Continue(g, _) => TestIgnores(g, v)
    case Return(ret, _) => RetIgnores(ret, v)
  }

  ghost predicate BlindTail(t: Tail, v: string)
    decreases t
  {
    match t
    case EndIf => true
    case ElseBlock(els) => Blind(els, v)
    case ElseIf(c, _, thn, tail) => Ignores(c, v) && Blind(thn, v) && BlindTail(tail, v)
  }

  ghost predicate BlindClauses(cls: Clauses, v: string)
    decreases cls
  {
    match cls
    case EndCase => true
    case Clause(g, _, body, rest) => GuardIgnores(g, v) && Blind(body, v) && BlindClauses(rest, v)
  }

  // ---------------------------------------------------------------- from text to blindness

  lemma OneUnmentioned(p: Phrase, rest: seq<Phrase>, v: string)
    requires !Mentions([p] + rest, v)
    ensures !WordsMention(p.words, v) && !Mentions(rest, v)
  {
    hide WordsMention, WordMentions;
    MentionsConcat([p], rest, v);
    assert [p][0] == p;
  }

  /** What searchToken does not find in honest text, the text does not use, but for the keys of its FOREACHs. */
  lemma {:induction false} UnmentionedIsBlind(s: Stmt, v: string)
    requires !Mentions(Flatten(s), v) && Honest(s, v)
    ensures Blind(s, v)
    decreases s
  {
    hide Mentions, WordsMention, Ignores, ActIgnores, GuardIgnores, TestIgnores, RetIgnores, Keyword;
    match s
    case Skip =>
    case Seq(a, b) =>
      MentionsConcat(Flatten(a), Flatten(b), v);
      UnmentionedIsBlind(a, v);
      UnmentionedIsBlind(b, v);
    case Act(run, w) =>
      assert Flatten(s) == [PAct(run, w)] + [];
      OneUnmentioned(PAct(run, w), [], v);
    case If(c, w, thn, tail) =>
      OneUnmentioned(PIf(c, w), Flatten(thn) + FlattenTail(tail), v);
      MentionsConcat(Flatten(thn), FlattenTail(tail), v);
      UnmentionedIsBlind(thn, v);
      UnmentionedTail(tail, v);
    case While(c, w, body) =>
      OneUnmentioned(PWhile(c, w), Flatten(body) + [PEndwhile(Keyword(KEndwhile))], v);
      MentionsConcat(Flatten(body), [PEndwhile(Keyword(KEndwhile))], v);
      UnmentionedIsBlind(body, v);
    case For(x, a, b, d, w, body) =>
      OneUnmentioned(PFor(x, a, b, d, w), Flatten(body) + [PEndfor(Keyword(KEndfor))], v);
      MentionsConcat(Flatten(body), [PEndfor(Keyword(KEndfor))], v);
      UnmentionedIsBlind(body, v);
    case Foreach(x, l, w, body) =>
      OneUnmentioned(PForeach(x, l, w), Flatten(body) + [PEndfor(Keyword(KEndfor))], v);
      MentionsConcat(Flatten(body), [PEndfor(Keyword(KEndfor))], v);
      UnmentionedIsBlind(body, v);
    case Case(e, w, cls) =>
      OneUnmentioned(PCase(e, w), FlattenClauses(cls), v);
      UnmentionedClauses(cls, v);
    case Break(g, w) =>
      assert Flatten(s) == [PBreak(g, w)] + [];
      OneUnmentioned(PBreak(g, w), [], v);
    case Continue(g, w) =>
      assert Flatten(s) == [PContinue(g, w)] + [];
      OneUnmentioned(PContinue(g, w), [], v);
    case Return(ret, w) =>
      assert Flatten(s) == [PReturn(ret, w)] + [];
      OneUnmentioned(PReturn(ret, w), [], v);
  }

  lemma {:induction false} UnmentionedTail(t: Tail, v: string)
    requires !Mentions(FlattenTail(t), v) && HonestTail(t, v)
    ensures BlindTail(t, v)
    decreases t
  {
    hide Mentions, WordsMention, Ignores, ActIgnores, GuardIgnores, TestIgnores, RetIgnores, Keyword;
    match t
    case EndIf =>
    case ElseBlock(els) =>
      OneUnmentioned(PElse(Keyword(KElse)), Flatten(els) + [PEndif(Keyword(KEndif))], v);
      MentionsConcat(Flatten(els), [PEndif(Keyword(KEndif))], v);
      UnmentionedIsBlind(els, v);
    case ElseIf(c, w, thn, tail) =>
      OneUnmentioned(PElseIf(c, w), Flatten(thn) + FlattenTail(tail), v);
      MentionsConcat(Flatten(thn), FlattenTail(tail), v);
      UnmentionedIsBlind(thn, v);
      UnmentionedTail(tail, v);
  }

  lemma {:induction false} UnmentionedClauses(cls: Clauses, v: string)
    requires !Mentions(FlattenClauses(cls), v) && HonestClauses(cls, v)
    ensures BlindClauses(cls, v)
    decreases cls
  {
    hide Mentions, WordsMention, Ignores, ActIgnores, GuardIgnores, TestIgnores, RetIgnores, Keyword;
    match cls
    case EndCase =>
    case Clause(g, w, body, rest) =>
      OneUnmentioned(PClause(g, w), Flatten(body) + FlattenClauses(rest), v);
      MentionsConcat(Flatten(body), FlattenClauses(rest), v);
      UnmentionedIsBlind(body, v);
      UnmentionedClauses(rest, v);
  }

  // ---------------------------------------------------------------- the frame

  lemma AgreeUpdate(a: Store, b: Store, v: string, w: string, x: Value)
    requires AgreeOff(a, b, v) && w != v
    ensures AgreeOff(a[w := x], b[w := x], v) && SameAt(a, a[w := x], v) && SameAt(b, b[w := x], v)
  {
    assert a[w := x] - {v} == (a - {v})[w := x];
    assert b[w := x] - {v} == (b - {v})[w := x];
  }

  /** v is bound alike in both. */
  ghost predicate SetAlike(a: Store, b: Store, v: string) { v in a && v in b && a[v] == b[v] }

  /**
    The stores still differ at most at v, and either neither run has written v or both have, alike.
    keep: neither has.
   */
  ghost predicate Framed(keep: bool, a: Store, a': Store, b: Store, b': Store, v: string) {
    && AgreeOff(a', b', v)
    && ((SameAt(a, a', v) && SameAt(b, b', v)) || (!keep && SetAlike(a', b', v)))
  }

  /** Runs from stores that differ only at v end alike. */
  ghost predicate Alike(keep: bool, ra: Outcome, rb: Outcome, a: Store, b: Store, v: string) {
    match (ra, rb)
    case (Ok(a'), Ok(b')) => Framed(keep, a, a', b, b', v)
    case (Brk(a'), Brk(b')) => Framed(keep, a, a', b, b', v)
    case (Cnt(a'), Cnt(b')) => Framed(keep, a, a', b, b', v)
    case (Err(e), Err(e')) => e == e'
    case (Out, Out) => true
    case (Ret(x), Ret(x')) => x == x'
    case _ => false
  }

  /** What runs on after a framed step is framed from the start. */
  lemma AlikeAfter(keep: bool, ra: Outcome, rb: Outcome, a: Store, a1: Store, b: Store, b1: Store, v: string)
    requires Framed(keep, a, a1, b, b1, v) && Alike(keep, ra, rb, a1, b1, v)
    ensures Alike(keep, ra, rb, a, b, v)
  {
    hide AgreeOff;
  }

  lemma FramedUpdate(keep: bool, a: Store, b: Store, v: string, w: string, x: Value)
    requires AgreeOff(a, b, v) && w != v
    ensures Framed(keep, a, a[w := x], b, b[w := x], v)
  {
    AgreeUpdate(a, b, v, w, x);
  }

  /** A FOREACH writes its key, v or not, alike in both. */
  lemma KeyWrite(keep: bool, a: Store, b: Store, v: string, w: string, x: Value)
    requires AgreeOff(a, b, v) && (keep ==> w != v)
    ensures Framed(keep, a, a[w := x], b, b[w := x], v)
  {
    if w == v {
      assert a[v := x] - {v} == a - {v};
      assert b[v := x] - {v} == b - {v};
    } else {
      AgreeUpdate(a, b, v, w, x);
    }
  }

  lemma FramedTrans(keep: bool, a: Store, a1: Store, a2: Store, b: Store, b1: Store, b2: Store, v: string)
    requires Framed(keep, a, a1, b, b1, v) && Framed(keep, a1, a2, b1, b2, v)
    ensures Framed(keep, a, a2, b, b2, v)
  {
    hide AgreeOff;
  }

  lemma FramedSelf(keep: bool, a: Store, b: Store, v: string)
    requires AgreeOff(a, b, v)
    ensures Framed(keep, a, a, b, b, v)
  {
    hide AgreeOff;
  }

  lemma {:induction false} EvalFrame(keep: bool, fuel: nat, s: Stmt, a: Store, b: Store, v: string)
    requires Blind(s, v) && (keep ==> KeyFree(s, v)) && AgreeOff(a, b, v)
    ensures Alike(keep, Eval(fuel, s, a), Eval(fuel, s, b), a, b, v)
    decreases fuel, s, 1
  {
    hide AgreeOff, SameAt, Beyond, KeyVar;
    FramedSelf(keep, a, b, v);
    match s
    case Skip =>
    case Seq(p, q) =>
      EvalFrame(keep, fuel, p, a, b, v);
      var ra, rb := Eval(fuel, p, a), Eval(fuel, p, b);
      if ra.Ok? {
        EvalFrame(keep, fuel, q, ra.store, rb.store, v);
        AlikeAfter(keep, Eval(fuel, q, ra.store), Eval(fuel, q, rb.store), a, ra.store, b, rb.store, v);
      }
    case Act(run, _) =>
    case If(c, _, thn, tail) =>
      assert c(a) == c(b);
      EvalFrame(keep, fuel, thn, a, b, v);
      TailFrame(keep, fuel, tail, a, b, v);
    case While(c, _, body) =>
      assert c(a) == c(b);
      if c(a) == Some(true) {
        WhileFrame(keep, fuel, c, body, a, b, v);
      }
    case For(x, p, q, d, _, body) =>
      assert p(a) == p(b) && q(a) == q(b) && d(a) == d(b);
      if p(a).Some? && q(a).Some? && d(a).Some? && d(a).value != 0 {
        ForFrame(keep, fuel, x, p(a).value, d(a).value, 0, Trips(p(a).value, q(a).value, d(a).value), body, a, b, v);
      }
    case Foreach(x, l, _, body) =>
      assert l(a) == l(b);
      if l(a).Some? {
        ForeachFrame(keep, fuel, x, l(a).value, 0, body, a, b, v);
      }
    case Case(e, _, cls) =>
      assert e(a) == e(b);
      if e(a).Some? {
        ClausesFrame(keep, fuel, e(a).value, cls, a, b, v);
      }
    case Break(_, _) =>
    case Continue(_, _) =>
    case Return(_, _) =>
  }

  lemma {:induction false} TailFrame(keep: bool, fuel: nat, t: Tail, a: Store, b: Store, v: string)
    requires BlindTail(t, v) && (keep ==> KeyFreeTail(t, v)) && AgreeOff(a, b, v)
    ensures Alike(keep, EvalTail(fuel, t, a), EvalTail(fuel, t, b), a, b, v)
    decreases fuel, t, 1
  {
    hide AgreeOff, SameAt;
    FramedSelf(keep, a, b, v);
    match t
    case EndIf =>
    case ElseBlock(els) => EvalFrame(keep, fuel, els, a, b, v);
    case ElseIf(c, _, thn, tail) =>
      assert c(a) == c(b);
      EvalFrame(keep, fuel, thn, a, b, v);
      TailFrame(keep, fuel, tail, a, b, v);
  }

  lemma {:induction false} WhileFrame(keep: bool, fuel: nat, cond: Cond, body: Stmt, a: Store, b: Store, v: string)
    requires Ignores(cond, v) && Blind(body, v) && (keep ==> KeyFree(body, v)) && AgreeOff(a, b, v)
    ensures Alike(keep, EvalWhile(fuel, cond, body, a), EvalWhile(fuel, cond, body, b), a, b, v)
    decreases fuel, body, 2
  {
    hide AgreeOff, SameAt, Blind;
    EvalFrame(keep, fuel, body, a, b, v);
    var ra, rb := Eval(fuel, body, a), Eval(fuel, body, b);
    if ra.Ok? || ra.Cnt? {
      assert cond(ra.store) == cond(rb.store);
      if cond(ra.store) == Some(true) && fuel > 0 {
        WhileFrame(keep, fuel - 1, cond, body, ra.store, rb.store, v);
        AlikeAfter(keep, EvalWhile(fuel - 1, cond, body, ra.store), EvalWhile(fuel - 1, cond, body, rb.store),
                   a, ra.store, b, rb.store, v);
      }
    }
  }

  lemma {:induction false} ForFrame(keep: bool, fuel: nat, x: string, start: int, step: int, k: nat, n: nat,
                                    body: Stmt, a: Store, b: Store, v: string)
    requires k <= n && x != v && Blind(body, v) && (keep ==> KeyFree(body, v)) && AgreeOff(a, b, v)
    ensures Alike(keep, EvalFor(fuel, x, start, step, k, n, body, a),
                  EvalFor(fuel, x, start, step, k, n, body, b), a, b, v)
    decreases fuel, body, n - k + 2
  {
    hide AgreeOff, SameAt, Blind;
    if k == n {
      FramedUpdate(keep, a, b, v, x, IntV(LastValue(start, step, n)));
    } else {
      var i := IntV(start + k * step);
      var a0, b0 := a[x := i], b[x := i];
      FramedUpdate(keep, a, b, v, x, i);
      EvalFrame(keep, fuel, body, a0, b0, v);
      var ra, rb := Eval(fuel, body, a0), Eval(fuel, body, b0);
      AlikeAfter(keep, ra, rb, a, a0, b, b0, v);
      if ra.Ok? || ra.Cnt? {
        ForFrame(keep, fuel, x, start, step, k + 1, n, body, ra.store, rb.store, v);
        AlikeAfter(keep, EvalFor(fuel, x, start, step, k + 1, n, body, ra.store),
                   EvalFor(fuel, x, start, step, k + 1, n, body, rb.store),
                   a, ra.store, b, rb.store, v);
      }
    }
  }

  lemma {:induction false} ForeachFrame(keep: bool, fuel: nat, x: string, items: seq<Value>, k: nat, body: Stmt,
                                        a: Store, b: Store, v: string)
    requires k <= |items| && x != v && Blind(body, v) && AgreeOff(a, b, v)
    requires keep ==> KeyVar(x) != v && KeyFree(body, v)
    ensures Alike(keep, EvalForeach(fuel, x, items, k, body, a), EvalForeach(fuel, x, items, k, body, b), a, b, v)
    decreases fuel, body, |items| - k + 2
  {
    hide AgreeOff, SameAt, Blind, KeyVar;
    KeyNamed(x);
    if k == |items| {
      FramedSelf(keep, a, b, v);
    } else {
      var a1, b1 := a[KeyVar(x) := IntV(k)], b[KeyVar(x) := IntV(k)];
      var a0, b0 := a1[x := items[k]], b1[x := items[k]];
      KeyWrite(keep, a, b, v, KeyVar(x), IntV(k));
      FramedUpdate(keep, a1, b1, v, x, items[k]);
      FramedTrans(keep, a, a1, a0, b, b1, b0, v);
      EvalFrame(keep, fuel, body, a0, b0, v);
      var ra, rb := Eval(fuel, body, a0), Eval(fuel, body, b0);
      AlikeAfter(keep, ra, rb, a, a0, b, b0, v);
      if ra.Ok? || ra.Cnt? {
        ForeachFrame(keep, fuel, x, items, k + 1, body, ra.store, rb.store, v);
        AlikeAfter(keep, EvalForeach(fuel, x, items, k + 1, body, ra.store),
                   EvalForeach(fuel, x, items, k + 1, body, rb.store),
                   a, ra.store, b, rb.store, v);
      }
    }
  }

  lemma {:induction false} ClausesFrame(keep: bool, fuel: nat, value: Value, cls: Clauses, a: Store, b: Store,
                                        v: string)
    requires BlindClauses(cls, v) && (keep ==> KeyFreeClauses(cls, v)) && AgreeOff(a, b, v)
    ensures Alike(keep, EvalClauses(fuel, value, cls, a), EvalClauses(fuel, value, cls, b), a, b, v)
    decreases fuel, cls, 1
  {
    hide AgreeOff, SameAt, Blind;
    FramedSelf(keep, a, b, v);
    match cls
    case EndCase =>
    case Clause(g, _, body, rest) =>
      GuardFrame(g, value, a, b, v);
      EvalFrame(keep, fuel, body, a, b, v);
      ClausesFrame(keep, fuel, value, rest, a, b, v);
  }

  lemma GuardFrame(g: Guard, value: Value, a: Store, b: Store, v: string)
    requires GuardIgnores(g, v) && AgreeOff(a, b, v)
    ensures Matches(g, value, a) == Matches(g, value, b)
  {
    hide AgreeOff;
  }
}
