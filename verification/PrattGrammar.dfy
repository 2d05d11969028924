/**
  The parser against an independent reading: exactly which token lists it accepts as which tree,
  when printing and parsing are inverse, and what the shipped precedence table does to both.
 */
module PrattGrammar {
  import opened Phrases
  import opened Pratt
  import opened PrattTrees

  // ---------------------------------------------------------------- printing is layout

  /** The tokens after pos spell out code. */
  ghost predicate Spells(toks: seq<Token>, pos: int, code: seq<Token>) {
    -1 <= pos && pos + |code| < |toks| && toks[pos + 1..pos + 1 + |code|] == code
  }

  lemma SpellsBoth(toks: seq<Token>, pos: int, a: seq<Token>, b: seq<Token>)
    requires Spells(toks, pos, a + b)
    ensures Spells(toks, pos, a) && Spells(toks, pos + |a|, b)
  {
    var code := toks[pos + 1..pos + 1 + |a + b|];
    assert code[..|a|] == a && code[|a|..] == b;
    assert toks[pos + 1..pos + 1 + |a|] == code[..|a|];
    assert toks[pos + 1 + |a|..pos + 1 + |a| + |b|] == code[|a|..];
  }

  lemma SpellsOne(toks: seq<Token>, pos: int, t: Token)
    requires Spells(toks, pos, [t])
    ensures TokenAt(toks, pos + 1, t)
  {
    assert toks[pos + 1..pos + 2][0] == toks[pos + 1];
  }

  /** One level of Print. */
  lemma PrintParts(t: Tree)
    ensures Print(t) ==
      match t
      case Leaf(v) => [Literal(v)]
      case Bin(o, l, r) => Print(l) + ([Op(o)] + Print(r))
      case Pre(o, u) => [Op(o)] + Print(u)
      case Paren(u) => [LParen] + (Print(u) + [RParen])
  {
  }

  lemma {:induction false} PrintSize(t: Tree)
    ensures |Print(t)| == Size(t)
    decreases t
  {
    match t
    case Leaf(v) =>
    case Bin(o, l, r) => PrintSize(l); PrintSize(r);
    case Pre(o, u) => PrintSize(u);
    case Paren(u) => PrintSize(u);
  }

  lemma {:induction false} PrintLaidOut(toks: seq<Token>, pos: int, t: Tree)
    requires Spells(toks, pos, Print(t))
    ensures TreeAt(toks, pos, t)
    decreases t
  {
    hide TreeAt, Print, Spells, Size;
    PrintParts(t);
    match t
    case Leaf(v) =>
      SpellsOne(toks, pos, Literal(v));
      LeafLaidOut(toks, pos, v);
    case Bin(o, l, r) =>
      PrintSize(l);
      SpellsBoth(toks, pos, Print(l), [Op(o)] + Print(r));
      SpellsBoth(toks, pos + Size(l), [Op(o)], Print(r));
      SpellsOne(toks, pos + Size(l), Op(o));
      PrintLaidOut(toks, pos, l);
      PrintLaidOut(toks, pos + Size(l) + 1, r);
      BinLaidOut(toks, pos, t);
    case Pre(o, u) =>
      SpellsBoth(toks, pos, [Op(o)], Print(u));
      SpellsOne(toks, pos, Op(o));
      PrintLaidOut(toks, pos + 1, u);
      PreLaidOut(toks, pos, t);
    case Paren(u) =>
      PrintSize(u);
      SpellsBoth(toks, pos, [LParen], Print(u) + [RParen]);
      SpellsOne(toks, pos, LParen);
      SpellsBoth(toks, pos + 1, Print(u), [RParen]);
      SpellsOne(toks, pos + 1 + Size(u), RParen);
      PrintLaidOut(toks, pos + 1, u);
      ParenLaidOut(toks, pos, t);
  }

  lemma LeafLaidOut(toks: seq<Token>, pos: int, v: Val)
    requires -1 <= pos && TokenAt(toks, pos + 1, Literal(v))
    ensures TreeAt(toks, pos, Leaf(v))
  {
  }

  lemma BinLaidOut(toks: seq<Token>, pos: int, t: Tree)
    requires t.Bin? && TreeAt(toks, pos, t.l) && TokenAt(toks, pos + Size(t.l) + 1, Op(t.o))
    requires TreeAt(toks, pos + Size(t.l) + 1, t.r)
    ensures TreeAt(toks, pos, t)
  {
    TreeParts(toks, pos, t.l);
    TreeParts(toks, pos + Size(t.l) + 1, t.r);
  }

  lemma PreLaidOut(toks: seq<Token>, pos: int, t: Tree)
    requires t.Pre? && TokenAt(toks, pos + 1, Op(t.o)) && TreeAt(toks, pos + 1, t.t)
    ensures TreeAt(toks, pos, t)
  {
    TreeParts(toks, pos + 1, t.t);
  }

  lemma ParenLaidOut(toks: seq<Token>, pos: int, t: Tree)
    requires t.Paren? && TokenAt(toks, pos + 1, LParen) && TreeAt(toks, pos + 1, t.t)
    requires TokenAt(toks, pos + Size(t.t) + 2, RParen)
    ensures TreeAt(toks, pos, t)
  {
    TreeParts(toks, pos + 1, t.t);
  }

  /** A whole printed expression is read to its last token, and its value is the tree's. */
  lemma EvaluatesPrinted(e: Env, t: Tree)
    requires e.toks == Print(t) && Canon(e.tab, t, 0) && SkipSafe(e.tab, t)
    ensures Parse(e, -1, 0) == Done(Eval(e.sem, t), |e.toks| - 1)
  {
    hide Parse, Climb, TreeAt, Print, Canon, SkipSafe;
    PrintSize(t);
    assert e.toks[0..|e.toks|] == e.toks;
    PrintLaidOut(e.toks, -1, t);
    ClosedLow(e.tab, t, 0, -1);
    ParseReaches(e, -1, 0, t);
    ClimbStops(e, -1 + Size(t), 0, Eval(e.sem, t));
  }

  // ---------------------------------------------------------------- the parser with trees for values

  /** The same climbing, building the tree and requiring each ( to be closed by ). */
  function Build(toks: seq<Token>, tab: Table, pos: int, prec: int): (r: Option<(Tree, int)>)
    requires -1 <= pos < |toks|
    ensures r.Some? ==> pos < r.value.1 < |toks|
    decreases |toks| - pos, 1
  {
    match BuildOperand(toks, tab, pos)
    case None => None
    case Some(p) => BuildOn(toks, tab, p.1, prec, p.0)
  }

  function BuildOperand(toks: seq<Token>, tab: Table, pos: int): (r: Option<(Tree, int)>)
    requires -1 <= pos < |toks|
    ensures r.Some? ==> pos < r.value.1 < |toks|
    decreases |toks| - pos, 0
  {
    if pos + 1 >= |toks| then None
    else match toks[pos + 1]
      case Literal(v) => Some((Leaf(v), pos + 1))
      case Op(o) =>
        (match Bind(o)
         case None => None
         case Some(u) =>
           match Build(toks, tab, pos + 1, u)
           case None => None
           case Some(p) => Some((Pre(o, p.0), p.1)))
      case LParen =>
        (match Build(toks, tab, pos + 1, 0)
         case None => None
         case Some(p) =>
           if p.1 + 1 < |toks| && toks[p.1 + 1] == RParen then Some((Paren(p.0), p.1 + 1)) else None)
      case _ => None
  }

  function BuildOn(toks: seq<Token>, tab: Table, pos: int, prec: int, left: Tree): (r: Option<(Tree, int)>)
    requires -1 <= pos < |toks|
    ensures r.Some? ==> pos <= r.value.1 < |toks|
    decreases |toks| - pos, 0
  {
    var t := if pos + 1 < |toks| then toks[pos + 1] else Eof;
    if prec >= Level(tab, t) then Some((left, pos))
    else if !(t.Op? && Binary(t.oper) && tab(t.oper) > 1) then None
    else match Build(toks, tab, pos + 1, tab(t.oper) + 1)
      case None => None
      case Some(p) => BuildOn(toks, tab, p.1, prec, Bin(t.oper, left, p.0))
  }

  function NextToken(toks: seq<Token>, pos: int): Token
    requires -1 <= pos
  {
    if pos + 1 < |toks| then toks[pos + 1] else Eof
  }

  /** The token list after pos starts with t, t is canonical, and what follows it ends an operand at prec. */
  ghost predicate Reads(toks: seq<Token>, tab: Table, pos: int, prec: int, t: Tree) {
    && TreeAt(toks, pos, t) && Canon(tab, t, prec)
    && Level(tab, NextToken(toks, pos + Size(t))) <= prec
    && Closed(tab, t, Level(tab, NextToken(toks, pos + Size(t))))
  }

  /** Everything built is a canonical tree printed where it was read. */
  lemma {:induction false} BuildSound(toks: seq<Token>, tab: Table, pos: int, prec: int)
    requires -1 <= pos < |toks| && 0 <= prec
    ensures var r := Build(toks, tab, pos, prec);
      r.Some? ==> Reads(toks, tab, pos, prec, r.value.0) && r.value.1 == pos + Size(r.value.0)
    decreases |toks| - pos, 1
  {
    hide TreeAt, Canon, Closed, BuildOn, BuildOperand;
    OperandSound(toks, tab, pos, prec);
    var p := BuildOperand(toks, tab, pos);
    if p.Some? {
      OnSound(toks, tab, pos, p.value.1, prec, p.value.0);
    }
  }

  /** Nothing on the right edge of t would have taken the next token. */
  ghost predicate Standing(toks: seq<Token>, tab: Table, pos: int, at: int, prec: int, t: Tree) {
    && TreeAt(toks, pos, t) && at == pos + Size(t) && Canon(tab, t, prec)
    && Closed(tab, t, Level(tab, NextToken(toks, at)))
  }

  lemma {:induction false} OperandSound(toks: seq<Token>, tab: Table, pos: int, prec: int)
    requires -1 <= pos < |toks| && 0 <= prec
    ensures var r := BuildOperand(toks, tab, pos);
      r.Some? ==> Standing(toks, tab, pos, r.value.1, prec, r.value.0)
    decreases |toks| - pos, 0
  {
    hide Build;
    if pos + 1 < |toks| {
      var t := toks[pos + 1];
      if t.Op? && Bind(t.oper).Some? {
        BuildSound(toks, tab, pos + 1, Bind(t.oper).value);
        var p := Build(toks, tab, pos + 1, Bind(t.oper).value);
        if p.Some? {
          PreLaidOut(toks, pos, Pre(t.oper, p.value.0));
        }
      } else if t.LParen? {
        BuildSound(toks, tab, pos + 1, 0);
        var p := Build(toks, tab, pos + 1, 0);
        if p.Some? && p.value.1 + 1 < |toks| && toks[p.value.1 + 1] == RParen {
          ParenLaidOut(toks, pos, Paren(p.value.0));
        }
      }
    }
  }

  lemma {:induction false} OnSound(toks: seq<Token>, tab: Table, pos: int, at: int, prec: int, left: Tree)
    requires -1 <= pos < at < |toks| && 0 <= prec && Standing(toks, tab, pos, at, prec, left)
    ensures var r := BuildOn(toks, tab, at, prec, left);
      r.Some? ==> Reads(toks, tab, pos, prec, r.value.0) && r.value.1 == pos + Size(r.value.0)
    decreases |toks| - at, 0
  {
    hide Build, TreeAt, Binary;
    var t := NextToken(toks, at);
    if prec < Level(tab, t) && t.Op? && Binary(t.oper) && tab(t.oper) > 1 {
      BuildSound(toks, tab, at + 1, tab(t.oper) + 1);
      var p := Build(toks, tab, at + 1, tab(t.oper) + 1);
      if p.Some? {
        var whole := Bin(t.oper, left, p.value.0);
        BinLaidOut(toks, pos, whole);
        OnSound(toks, tab, pos, p.value.1, prec, whole);
      }
    }
  }

  /** A canonical tree is built when its tokens are read. */
  lemma {:induction false} BuildReaches(toks: seq<Token>, tab: Table, pos: int, prec: int, t: Tree)
    requires TreeAt(toks, pos, t) && Canon(tab, t, prec) && 0 <= prec
    requires Closed(tab, t, Level(tab, NextToken(toks, pos + Size(t))))
    ensures Build(toks, tab, pos, prec) == BuildOn(toks, tab, pos + Size(t), prec, t)
    decreases t
  {
    hide Build, BuildOn, TreeAt, Size, Binary;
    TreeParts(toks, pos, t);
    match t
    case Leaf(v) =>
      BuildStarts(toks, tab, pos, prec);
    case Paren(u) =>
      ClosedLow(tab, u, 0, INVALID);
      BuildReaches(toks, tab, pos + 1, 0, u);
      BuildStops(toks, tab, pos + 1 + Size(u), 0, u);
      BuildStarts(toks, tab, pos, prec);
    case Pre(o, u) =>
      BuildReaches(toks, tab, pos + 1, Bind(o).value, u);
      BuildStops(toks, tab, pos + 1 + Size(u), Bind(o).value, u);
      BuildStarts(toks, tab, pos, prec);
    case Bin(o, l, r) =>
      var at := pos + Size(l);
      BuildReaches(toks, tab, pos, prec, l);
      BuildReaches(toks, tab, at + 1, tab(o) + 1, r);
      BuildStops(toks, tab, at + 1 + Size(r), tab(o) + 1, r);
      BuildOnce(toks, tab, at, prec, l, o);
  }

  lemma BuildStarts(toks: seq<Token>, tab: Table, pos: int, prec: int)
    requires -1 <= pos < |toks|
    ensures Build(toks, tab, pos, prec) ==
      match BuildOperand(toks, tab, pos)
      case None => None
      case Some(p) => BuildOn(toks, tab, p.1, prec, p.0)
  {
    hide BuildOperand, BuildOn;
  }

  lemma BuildStops(toks: seq<Token>, tab: Table, pos: int, prec: int, left: Tree)
    requires -1 <= pos < |toks| && Level(tab, NextToken(toks, pos)) <= prec
    ensures BuildOn(toks, tab, pos, prec, left) == Some((left, pos))
  {
  }

  lemma BuildOnce(toks: seq<Token>, tab: Table, pos: int, prec: int, left: Tree, o: Oper)
    requires -1 <= pos < |toks| && TokenAt(toks, pos + 1, Op(o)) && Binary(o) && tab(o) > prec && tab(o) > 1
    ensures BuildOn(toks, tab, pos, prec, left) ==
      match Build(toks, tab, pos + 1, tab(o) + 1)
      case None => None
      case Some(p) => BuildOn(toks, tab, p.1, prec, Bin(o, left, p.0))
  {
    hide Build, Binary;
  }

  /**
    The grammar of the parser, for every table and token list: a tree is built exactly when it
    is canonical, its tokens come next, and the token after it stops the climb.
   */
  lemma BuildIffReads(toks: seq<Token>, tab: Table, pos: int, prec: int, t: Tree)
    requires -1 <= pos < |toks| && 0 <= prec
    ensures Build(toks, tab, pos, prec) == Some((t, pos + Size(t))) <==> Reads(toks, tab, pos, prec, t)
  {
    hide Build, BuildOn, TreeAt, Canon, Closed;
    BuildSound(toks, tab, pos, prec);
    if Reads(toks, tab, pos, prec, t) {
      TreeParts(toks, pos, t);
      BuildReaches(toks, tab, pos, prec, t);
      BuildStops(toks, tab, pos + Size(t), prec, t);
    }
  }

  /** A token list is the print of at most one canonical tree. */
  lemma CanonicalTreeIsUnique(tab: Table, t: Tree, u: Tree)
    requires Print(t) == Print(u) && Canon(tab, t, 0) && Canon(tab, u, 0)
    ensures t == u
  {
    hide Build, TreeAt, Canon, Closed, Print;
    ReadsPrinted(tab, t);
    ReadsPrinted(tab, u);
    BuildIffReads(Print(t), tab, -1, 0, t);
    BuildIffReads(Print(t), tab, -1, 0, u);
  }

  lemma ReadsPrinted(tab: Table, t: Tree)
    requires Canon(tab, t, 0)
    ensures |Print(t)| == Size(t) && Reads(Print(t), tab, -1, 0, t)
  {
    hide TreeAt, Canon, Closed, Print;
    PrintSize(t);
    assert Print(t)[0..|Print(t)|] == Print(t);
    PrintLaidOut(Print(t), -1, t);
    ClosedLow(tab, t, 0, -1);
  }

  /**
    The evaluating parser computes the value of the tree the grammar reads, provided the scan
    can pass the tree's short-circuited operands.
   */
  lemma ParseEvaluatesBuild(e: Env, pos: int, prec: nat)
    requires -1 <= pos < |e.toks|
    ensures var r := Build(e.toks, e.tab, pos, prec);
      r.Some? && SkipSafe(e.tab, r.value.0) && Follows(e, r.value.1)
      ==> Parse(e, pos, prec) == Done(Eval(e.sem, r.value.0), r.value.1)
  {
    hide Build, Parse, Climb, TreeAt, Canon, Closed, SkipSafe, Follows;
    var r := Build(e.toks, e.tab, pos, prec);
    if r.Some? && SkipSafe(e.tab, r.value.0) && Follows(e, r.value.1) {
      var (t, end) := r.value;
      BuildSound(e.toks, e.tab, pos, prec);
      ParseReaches(e, pos, prec, t);
      ClimbStops(e, end, prec, Eval(e.sem, t));
    }
  }
}
