/**
  Which operator trees the parser reads, what they evaluate to, and when the skip scan agrees
  with it. None of this assumes anything about the gaps between precedence levels.
 */
module PrattTrees {
  import opened Pratt

  /** An expression with its parentheses. */
  datatype Tree = Leaf(v: Val) | Bin(o: Oper, l: Tree, r: Tree) | Pre(o: Oper, t: Tree) | Paren(t: Tree)

  function Print(t: Tree): seq<Token> {
    match t
    case Leaf(v) => [Literal(v)]
    case Bin(o, l, r) => Print(l) + ([Op(o)] + Print(r))
    case Pre(o, u) => [Op(o)] + Print(u)
    case Paren(u) => [LParen] + (Print(u) + [RParen])
  }

  /** The value: a binary operator looks at its right operand only if the left does not settle it. */
  function Eval(sem: Sem, t: Tree): Val {
    match t
    case Leaf(v) => v
    case Paren(u) => Eval(sem, u)
    case Pre(o, u) => sem.prefix(o, Eval(sem, u))
    case Bin(o, l, r) =>
      var left := Eval(sem, l);
      match Settles(sem, o, left)
      case Some(v) => v
      case None => Apply(sem, o, left, Eval(sem, r))
  }

  /** The value when both operands of every operator are evaluated. */
  function Full(sem: Sem, t: Tree): Val {
    match t
    case Leaf(v) => v
    case Paren(u) => Full(sem, u)
    case Pre(o, u) => sem.prefix(o, Full(sem, u))
    case Bin(o, l, r) =>
      var left, right := Full(sem, l), Full(sem, r);
      if o == LogicAnd then Truth(sem.asBool(left) && sem.asBool(right))
      else if o != LogicOr && o != WordOr then sem.binary(o, left, right)
      else if !left.Text? then Truth(sem.asBool(left) || sem.asBool(right))
      else if left != Text("") then left
      else right
  }

  /** Passing over a right operand cannot be seen in the value. */
  lemma {:induction false} ShortCircuitUnseen(sem: Sem, t: Tree)
    ensures Eval(sem, t) == Full(sem, t)
    decreases t
  {
    match t
    case Leaf(_) =>
    case Paren(u) => ShortCircuitUnseen(sem, u);
    case Pre(_, u) => ShortCircuitUnseen(sem, u);
    case Bin(_, l, r) =>
      ShortCircuitUnseen(sem, l);
      ShortCircuitUnseen(sem, r);
  }

  /** && is the truth of both operands. */
  lemma AndIsBoth(sem: Sem, l: Tree, r: Tree)
    ensures Eval(sem, Bin(LogicAnd, l, r)) == Truth(sem.asBool(Eval(sem, l)) && sem.asBool(Eval(sem, r)))
  {
  }

  /** || and or are the truth of either; a text left of them stands for itself, or if empty for what is right. */
  lemma OrIsEither(sem: Sem, o: Oper, l: Tree, r: Tree)
    requires o == LogicOr || o == WordOr
    ensures !Eval(sem, l).Text? ==>
      Eval(sem, Bin(o, l, r)) == Truth(sem.asBool(Eval(sem, l)) || sem.asBool(Eval(sem, r)))
    ensures Eval(sem, l).Text? && Eval(sem, l) != Text("") ==> Eval(sem, Bin(o, l, r)) == Eval(sem, l)
    ensures Eval(sem, l) == Text("") ==> Eval(sem, Bin(o, l, r)) == Eval(sem, r)
  {
  }

  function Size(t: Tree): (n: nat)
    ensures n > 0
  {
    match t
    case Leaf(_) => 1
    case Bin(_, l, r) => Size(l) + Size(r) + 1
    case Pre(_, u) => Size(u) + 1
    case Paren(u) => Size(u) + 2
  }

  ghost predicate TokenAt(toks: seq<Token>, i: int, t: Token) { 0 <= i < |toks| && toks[i] == t }

  /** The tokens of t are the ones after position pos. */
  ghost predicate TreeAt(toks: seq<Token>, pos: int, t: Tree)
    decreases t
  {
    -1 <= pos && pos + Size(t) < |toks| &&
    match t
    case Leaf(v) => TokenAt(toks, pos + 1, Literal(v))
    case Bin(o, l, r) =>
      TreeAt(toks, pos, l) && TokenAt(toks, pos + Size(l) + 1, Op(o)) && TreeAt(toks, pos + Size(l) + 1, r)
    case Pre(o, u) => TokenAt(toks, pos + 1, Op(o)) && TreeAt(toks, pos + 1, u)
    case Paren(u) =>
      TokenAt(toks, pos + 1, LParen) && TreeAt(toks, pos + 1, u) && TokenAt(toks, pos + Size(u) + 2, RParen)
  }

  /** One level of TreeAt. */
  lemma TreeParts(toks: seq<Token>, pos: int, t: Tree)
    requires TreeAt(toks, pos, t)
    ensures -1 <= pos && pos + Size(t) < |toks|
    ensures match t
      case Leaf(v) => Size(t) == 1 && TokenAt(toks, pos + 1, Literal(v))
      case Bin(o, l, r) =>
        && Size(t) == Size(l) + Size(r) + 1
        && TreeAt(toks, pos, l) && TokenAt(toks, pos + Size(l) + 1, Op(o)) && TreeAt(toks, pos + Size(l) + 1, r)
      case Pre(o, u) => Size(t) == Size(u) + 1 && TokenAt(toks, pos + 1, Op(o)) && TreeAt(toks, pos + 1, u)
      case Paren(u) =>
        && Size(t) == Size(u) + 2
        && TokenAt(toks, pos + 1, LParen) && TreeAt(toks, pos + 1, u) && TokenAt(toks, pos + Size(u) + 2, RParen)
  {
  }

  // ---------------------------------------------------------------- trees the parser can build

  /**
    An operator of the given level after t is not swallowed by t: nothing on t's right edge
    would take it into its own operand.
   */
  predicate Closed(tab: Table, t: Tree, level: int) {
    match t
    case Leaf(_) => true
    case Paren(_) => true
    case Bin(o, _, r) => level <= tab(o) + 1 && Closed(tab, r, level)
    case Pre(o, u) => Bind(o).Some? && level <= Bind(o).value && Closed(tab, u, level)
  }

  /** t is what dparse(prec) makes of its tokens. */
  predicate Canon(tab: Table, t: Tree, prec: int) {
    match t
    case Leaf(_) => true
    case Paren(u) => Canon(tab, u, 0)
    case Pre(o, u) => Bind(o).Some? && Canon(tab, u, Bind(o).value)
    case Bin(o, l, r) =>
      && Binary(o) && tab(o) > prec && tab(o) > 1
      && Canon(tab, l, prec) && Closed(tab, l, tab(o))
      && Canon(tab, r, tab(o) + 1)
  }

  /** Every operator of t outside parentheses is one the skip scan at prec passes. */
  predicate Clear(tab: Table, t: Tree, prec: int) {
    match t
    case Leaf(_) => true
    case Paren(_) => true
    case Pre(o, u) => !(1 < tab(o) <= prec) && Clear(tab, u, prec)
    case Bin(o, l, r) => !(1 < tab(o) <= prec) && Clear(tab, l, prec) && Clear(tab, r, prec)
  }

  /** Prefix operators outside parentheses hold their operand at least as tightly as prec. */
  predicate TightPrefixes(tab: Table, t: Tree, prec: int) {
    match t
    case Leaf(_) => true
    case Paren(_) => true
    case Pre(o, u) => Bind(o).Some? && Bind(o).value >= prec && !(1 < tab(o) <= prec) && TightPrefixes(tab, u, prec)
    case Bin(_, l, r) => TightPrefixes(tab, l, prec) && TightPrefixes(tab, r, prec)
  }

  predicate ShortCircuits(o: Oper) { o == LogicAnd || o == LogicOr || o == WordOr }

  /** Every right operand of a short-circuit operator is one the skip scan passes as a whole. */
  predicate SkipSafe(tab: Table, t: Tree) {
    match t
    case Leaf(_) => true
    case Paren(u) => SkipSafe(tab, u)
    case Pre(_, u) => SkipSafe(tab, u)
    case Bin(o, l, r) => SkipSafe(tab, l) && SkipSafe(tab, r) && (ShortCircuits(o) ==> Clear(tab, r, tab(o) + 1))
  }

  /** A token that ends an operand parsed at prec, for the parser and for the skip scan alike. */
  predicate EndsOperand(tab: Table, t: Token, prec: int) {
    match t
    case Op(o) => 1 < tab(o) <= prec
    case RParen => true
    case Comma => true
    case Colon => true
    case Eof => true
    case _ => false
  }

  // ---------------------------------------------------------------- the skip scan over a tree

  /** One token the skip scan passes. */
  lemma SkipOne(e: Env, pos: int, prec: int, braces: nat)
    requires -1 <= pos && pos + 1 < |e.toks|
    requires var t := e.toks[pos + 1]; t.Literal? || (t.Op? && (braces > 0 || !(1 < e.tab(t.oper) <= prec)))
    ensures Skip(e, pos, prec, braces) == Skip(e, pos + 1, prec, braces)
  {
  }

  lemma SkipOpen(e: Env, pos: int, prec: int, braces: nat)
    requires -1 <= pos && TokenAt(e.toks, pos + 1, LParen)
    ensures Skip(e, pos, prec, braces) == Skip(e, pos + 1, prec, braces + 1)
  {
  }

  lemma SkipClose(e: Env, pos: int, prec: int, braces: nat)
    requires -1 <= pos && TokenAt(e.toks, pos + 1, RParen) && braces > 0
    ensures Skip(e, pos, prec, braces) == Skip(e, pos + 1, prec, braces - 1)
  {
  }

  /** The scan passes a whole tree, inside parentheses always and outside if the tree is clear. */
  lemma {:induction false} SkipTree(e: Env, pos: int, prec: int, braces: nat, t: Tree)
    requires TreeAt(e.toks, pos, t) && (braces > 0 || Clear(e.tab, t, prec))
    ensures Skip(e, pos, prec, braces) == Skip(e, pos + Size(t), prec, braces)
    decreases t
  {
    hide Skip, TreeAt, Size;
    TreeParts(e.toks, pos, t);
    match t
    case Leaf(v) =>
      SkipOne(e, pos, prec, braces);
    case Bin(o, l, r) =>
      SkipTree(e, pos, prec, braces, l);
      SkipOne(e, pos + Size(l), prec, braces);
      SkipTree(e, pos + Size(l) + 1, prec, braces, r);
    case Pre(o, u) =>
      SkipOne(e, pos, prec, braces);
      SkipTree(e, pos + 1, prec, braces, u);
    case Paren(u) =>
      SkipOpen(e, pos, prec, braces);
      SkipTree(e, pos + 1, prec, braces + 1, u);
      SkipClose(e, pos + 1 + Size(u), prec, braces + 1);
  }

  /** It stops at the first operator it may not pass, strictly inside an unclear tree. */
  lemma {:induction false} SkipStops(e: Env, pos: int, prec: int, t: Tree)
    requires TreeAt(e.toks, pos, t) && !Clear(e.tab, t, prec)
    ensures Skip(e, pos, prec, 0) < pos + Size(t)
    decreases t
  {
    hide Skip, TreeAt, Size;
    TreeParts(e.toks, pos, t);
    match t
    case Leaf(v) =>
    case Paren(u) =>
    case Pre(o, u) =>
      if 1 < e.tab(o) <= prec {
        SkipHalts(e, pos, prec);
      } else {
        SkipOne(e, pos, prec, 0);
        SkipStops(e, pos + 1, prec, u);
      }
    case Bin(o, l, r) =>
      if !Clear(e.tab, l, prec) {
        SkipStops(e, pos, prec, l);
      } else {
        SkipTree(e, pos, prec, 0, l);
        if 1 < e.tab(o) <= prec {
          SkipHalts(e, pos + Size(l), prec);
        } else {
          SkipOne(e, pos + Size(l), prec, 0);
          SkipStops(e, pos + Size(l) + 1, prec, r);
        }
      }
  }

  lemma SkipHalts(e: Env, pos: int, prec: int)
    requires -1 <= pos < |e.toks| && EndsOperand(e.tab, e.Peek(pos), prec)
    ensures Skip(e, pos, prec, 0) == pos
  {
  }

  /**
    The skip scan and the parser agree on where an operand ends exactly when the operand is
    clear at the precedence it is skipped at.
   */
  lemma SkipAgreesIffClear(e: Env, pos: int, prec: int, t: Tree)
    requires TreeAt(e.toks, pos, t) && EndsOperand(e.tab, e.Peek(pos + Size(t)), prec)
    ensures Skip(e, pos, prec, 0) == pos + Size(t) <==> Clear(e.tab, t, prec)
  {
    hide Skip;
    if Clear(e.tab, t, prec) {
      SkipTree(e, pos, prec, 0, t);
      SkipHalts(e, pos + Size(t), prec);
    } else {
      SkipStops(e, pos, prec, t);
    }
  }

  /** A parsed operand is clear unless one of its prefix operators is looser than prec. */
  lemma {:induction false} CanonIsClear(tab: Table, t: Tree, prec: int, at: int)
    requires Canon(tab, t, at) && prec <= at && TightPrefixes(tab, t, prec)
    ensures Clear(tab, t, prec)
    decreases t
  {
    match t
    case Leaf(_) =>
    case Paren(_) =>
    case Pre(o, u) => CanonIsClear(tab, u, prec, Bind(o).value);
    case Bin(o, l, r) =>
      CanonIsClear(tab, l, prec, at);
      CanonIsClear(tab, r, prec, tab(o) + 1);
  }

  // ---------------------------------------------------------------- the parser over a tree

  /** A closing token is never swallowed. */
  lemma {:induction false} ClosedLow(tab: Table, t: Tree, prec: int, level: int)
    requires Canon(tab, t, prec) && level <= 0
    ensures Closed(tab, t, level)
    decreases t
  {
    match t
    case Leaf(_) =>
    case Paren(_) =>
    case Pre(o, u) => ClosedLow(tab, u, Bind(o).value, level);
    case Bin(o, _, r) => ClosedLow(tab, r, tab(o) + 1, level);
  }

  /**
    Parsing from before a canonical tree: the parser reaches the token after it holding the
    tree's value, short-circuits and all.
   */
  lemma {:induction false} ParseReaches(e: Env, pos: int, prec: nat, t: Tree)
    requires TreeAt(e.toks, pos, t) && Canon(e.tab, t, prec) && SkipSafe(e.tab, t)
    requires Follows(e, pos + Size(t)) && Closed(e.tab, t, Level(e.tab, e.Peek(pos + Size(t))))
    ensures Parse(e, pos, prec) == Climb(e, pos + Size(t), prec, Eval(e.sem, t))
    decreases t, 1
  {
    hide Skip, Climb, Parse, Settles, Apply, TreeAt, Size, Clear, Follows, Binary;
    TreeParts(e.toks, pos, t);
    match t
    case Leaf(v) =>
      ParseLeaf(e, pos, prec, v);
    case Paren(u) =>
      ClosedLow(e.tab, u, 0, INVALID);
      CloserFollows(e, pos + 1 + Size(u));
      ParseReaches(e, pos + 1, 0, u);
      ClimbStops(e, pos + 1 + Size(u), 0, Eval(e.sem, u));
      ParseParen(e, pos, prec, Eval(e.sem, u), pos + 1 + Size(u));
    case Pre(o, u) =>
      ParseReaches(e, pos + 1, Bind(o).value, u);
      ClimbStops(e, pos + 1 + Size(u), Bind(o).value, Eval(e.sem, u));
      ParsePre(e, pos, prec, o, Eval(e.sem, u), pos + 1 + Size(u));
    case Bin(o, l, r) =>
      ParseBin(e, pos, prec, t);
  }

  lemma {:induction false} ParseBin(e: Env, pos: int, prec: nat, t: Tree)
    requires t.Bin? && TreeAt(e.toks, pos, t) && Canon(e.tab, t, prec) && SkipSafe(e.tab, t)
    requires Follows(e, pos + Size(t)) && Closed(e.tab, t, Level(e.tab, e.Peek(pos + Size(t))))
    ensures Parse(e, pos, prec) == Climb(e, pos + Size(t), prec, Eval(e.sem, t))
    decreases t, 0
  {
    hide Skip, Climb, Parse, Settles, Apply, TreeAt, Size, Clear, Follows, Binary;
    TreeParts(e.toks, pos, t);
    var Bin(o, l, r) := t;
    var at, next := pos + Size(l), e.tab(o) + 1;
    OperatorFollows(e, at, o);
    ParseReaches(e, pos, prec, l);
    ClimbOnce(e, at, prec, Eval(e.sem, l), o);
    if Settles(e.sem, o, Eval(e.sem, l)).Some? {
      SettlesOnlyShort(e.sem, o, Eval(e.sem, l));
      SkipTree(e, at + 1, next, 0, r);
      FollowsEnds(e, at + 1 + Size(r), next);
      SkipHalts(e, at + 1 + Size(r), next);
    } else {
      ParseReaches(e, at + 1, next, r);
      ClimbStops(e, at + 1 + Size(r), next, Eval(e.sem, r));
    }
  }

  lemma CloserFollows(e: Env, pos: int)
    requires -1 <= pos && TokenAt(e.toks, pos + 1, RParen)
    ensures Follows(e, pos) && Level(e.tab, e.Peek(pos)) == INVALID
  {
  }

  lemma OperatorFollows(e: Env, pos: int, o: Oper)
    requires -1 <= pos && TokenAt(e.toks, pos + 1, Op(o)) && Binary(o) && e.tab(o) > 1
    ensures Follows(e, pos) && Level(e.tab, e.Peek(pos)) == e.tab(o)
  {
    hide Binary;
  }

  lemma FollowsEnds(e: Env, pos: int, prec: int)
    requires Follows(e, pos) && Level(e.tab, e.Peek(pos)) <= prec
    ensures EndsOperand(e.tab, e.Peek(pos), prec)
  {
    hide Binary;
  }

  lemma ParseLeaf(e: Env, pos: int, prec: nat, v: Val)
    requires -1 <= pos && TokenAt(e.toks, pos + 1, Literal(v))
    ensures Parse(e, pos, prec) == Climb(e, pos + 1, prec, v)
  {
    hide Climb;
  }

  lemma ParseParen(e: Env, pos: int, prec: nat, v: Val, end: int)
    requires -1 <= pos && TokenAt(e.toks, pos + 1, LParen) && end + 1 < |e.toks|
    requires Parse(e, pos + 1, 0) == Done(v, end)
    ensures Parse(e, pos, prec) == Climb(e, end + 1, prec, v)
  {
    hide Climb;
  }

  lemma ParsePre(e: Env, pos: int, prec: nat, o: Oper, v: Val, end: int)
    requires -1 <= pos && TokenAt(e.toks, pos + 1, Op(o)) && Bind(o).Some? && end < |e.toks|
    requires Parse(e, pos + 1, Bind(o).value) == Done(v, end)
    ensures Parse(e, pos, prec) == Climb(e, end, prec, e.sem.prefix(o, v))
  {
    hide Climb;
  }

  /** What may come after an operand in a well-formed expression. */
  ghost predicate Follows(e: Env, pos: int) {
    -1 <= pos < |e.toks| &&
    match e.Peek(pos)
    case Op(o) => Binary(o) && e.tab(o) > 1
    case Literal(_) => false
    case LParen => false
    case _ => true
  }

  lemma ClimbStops(e: Env, pos: int, prec: nat, left: Val)
    requires -1 <= pos < |e.toks| && Level(e.tab, e.Peek(pos)) <= prec
    ensures Climb(e, pos, prec, left) == Done(left, pos)
  {
  }

  lemma SettlesOnlyShort(sem: Sem, o: Oper, left: Val)
    requires Settles(sem, o, left).Some?
    ensures ShortCircuits(o)
  {
  }

  lemma ClimbOnce(e: Env, pos: int, prec: nat, left: Val, o: Oper)
    requires -1 <= pos && TokenAt(e.toks, pos + 1, Op(o)) && Binary(o) && e.tab(o) > prec
    ensures Climb(e, pos, prec, left) ==
      match Settles(e.sem, o, left)
      case Some(v) => Climb(e, Skip(e, pos + 1, e.tab(o) + 1, 0), prec, v)
      case None =>
        match Parse(e, pos + 1, e.tab(o) + 1)
        case Panic => Panic
        case Done(right, pos1) => if pos1 >= |e.toks| then Panic else Climb(e, pos1, prec, Apply(e.sem, o, left, right))
  {
    hide Skip, Parse, Settles, Apply, Binary;
  }
}
