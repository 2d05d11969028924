/**
  Precedence tables: for which of them printing with the fewest parentheses and parsing are
  inverse, and what that says of the table the interpreter ships with.
 */
module PrattTables {
  import opened Phrases
  import opened Pratt
  import opened PrattTrees
  import opened PrattGrammar

  // ---------------------------------------------------------------- the printer

  /** An expression as its author means it: no parentheses, just structure. */
  datatype Ast = Atom(v: Val) | Join(o: Oper, l: Ast, r: Ast)

  predicate Proper(tab: Table, a: Ast) {
    match a
    case Atom(_) => true
    case Join(o, l, r) => Binary(o) && tab(o) > 1 && Proper(tab, l) && Proper(tab, r)
  }

  /** Parentheses where a left-associative reader needs them: around a looser left, or a right no tighter. */
  function Show(tab: Table, a: Ast): Tree {
    match a
    case Atom(v) => Leaf(v)
    case Join(o, l, r) =>
      Bin(o,
          Wrap(Show(tab, l), l.Join? && tab(l.o) < tab(o)),
          Wrap(Show(tab, r), r.Join? && tab(r.o) <= tab(o)))
  }

  function Wrap(t: Tree, needed: bool): Tree { if needed then Paren(t) else t }

  /** The structure of a tree, its parentheses dropped. */
  function Meant(t: Tree): Option<Ast> {
    match t
    case Leaf(v) => Some(Atom(v))
    case Paren(u) => Meant(u)
    case Pre(_, _) => None
    case Bin(o, l, r) =>
      if Meant(l).Some? && Meant(r).Some? then Some(Join(o, Meant(l).value, Meant(r).value)) else None
  }

  /** Showing an expression loses nothing of its structure. */
  lemma {:induction false} ShowKeepsMeaning(tab: Table, a: Ast)
    ensures Meant(Show(tab, a)) == Some(a)
    decreases a
  {
    match a
    case Atom(_) =>
    case Join(_, l, r) =>
      ShowKeepsMeaning(tab, l);
      ShowKeepsMeaning(tab, r);
  }

  /** The parser gives back every expression it is shown, consuming all of it. */
  ghost predicate RoundTrips(tab: Table, a: Ast) {
    var code := Print(Show(tab, a));
    Build(code, tab, -1, 0) == Some((Show(tab, a), |code| - 1))
  }

  /** No two binary operators have levels exactly one apart. */
  ghost predicate Spaced(tab: Table) {
    forall o, q :: Binary(o) && Binary(q) && tab(o) > 1 ==> tab(q) != tab(o) + 1
  }

  // ---------------------------------------------------------------- round trips exactly when spaced

  lemma {:induction false} ShownIsClosed(tab: Table, a: Ast, level: int)
    requires Proper(tab, a) && (a.Join? ==> level <= tab(a.o))
    ensures Closed(tab, Show(tab, a), level)
    decreases a
  {
    if a.Join? && !(a.r.Join? && tab(a.r.o) <= tab(a.o)) {
      ShownIsClosed(tab, a.r, level);
    }
  }

  lemma {:induction false} ShownIsCanon(tab: Table, a: Ast, prec: int)
    requires Spaced(tab) && Proper(tab, a) && 0 <= prec && (a.Join? ==> prec < tab(a.o))
    ensures Canon(tab, Show(tab, a), prec)
    decreases a
  {
    match a
    case Atom(_) =>
    case Join(o, l, r) =>
      if l.Join? && tab(l.o) < tab(o) {
        ShownIsCanon(tab, l, 0);
      } else {
        ShownIsCanon(tab, l, prec);
        ShownIsClosed(tab, l, tab(o));
      }
      if r.Join? && tab(r.o) <= tab(o) {
        ShownIsCanon(tab, r, 0);
      } else {
        ShownIsCanon(tab, r, tab(o) + 1);
      }
  }

  /** An expression round-trips exactly when its printed form is canonical. */
  lemma RoundTripsIffCanon(tab: Table, a: Ast)
    ensures RoundTrips(tab, a) <==> Canon(tab, Show(tab, a), 0)
  {
    hide Build, Canon, Closed, TreeAt, Print, Show;
    var t := Show(tab, a);
    PrintSize(t);
    BuildIffReads(Print(t), tab, -1, 0, t);
    if Canon(tab, t, 0) {
      ReadsPrinted(tab, t);
    }
  }

  /** For two operators one level apart, a o (b q c) prints like (a o b) q c and is read as that. */
  lemma NeighboursCollide(tab: Table, o: Oper, q: Oper, a: Val, b: Val, c: Val)
    requires Binary(o) && Binary(q) && tab(o) > 1 && tab(q) == tab(o) + 1
    ensures var meant := Join(o, Atom(a), Join(q, Atom(b), Atom(c)));
      && Proper(tab, meant) && !RoundTrips(tab, meant)
      && Build(Print(Show(tab, meant)), tab, -1, 0) == Some((Bin(q, Bin(o, Leaf(a), Leaf(b)), Leaf(c)), 4))
  {
    hide Build, Binary, Print, TreeAt;
    var meant := Join(o, Atom(a), Join(q, Atom(b), Atom(c)));
    var read := Bin(q, Bin(o, Leaf(a), Leaf(b)), Leaf(c));
    NeighboursRead(tab, o, q, a, b, c);
    FlatPrints(o, q, a, b, c);
    ReadsPrinted(tab, read);
    BuildIffReads(Print(read), tab, -1, 0, read);
  }

  lemma NeighboursRead(tab: Table, o: Oper, q: Oper, a: Val, b: Val, c: Val)
    requires Binary(o) && Binary(q) && tab(o) > 1 && tab(q) == tab(o) + 1
    ensures Show(tab, Join(o, Atom(a), Join(q, Atom(b), Atom(c)))) == Bin(o, Leaf(a), Bin(q, Leaf(b), Leaf(c)))
    ensures Canon(tab, Bin(q, Bin(o, Leaf(a), Leaf(b)), Leaf(c)), 0)
    ensures Proper(tab, Join(o, Atom(a), Join(q, Atom(b), Atom(c))))
  {
    hide Binary, Show, Canon, Closed, Proper;
    ShowParts(tab, o, Atom(a), Join(q, Atom(b), Atom(c)));
    ShowParts(tab, q, Atom(b), Atom(c));
    ShowAtom(tab, a);
    ShowAtom(tab, b);
    ShowAtom(tab, c);
    PairIsCanon(tab, o, a, b);
    PairThenIsCanon(tab, o, q, a, b, c);
    assert Proper(tab, Join(o, Atom(a), Join(q, Atom(b), Atom(c)))) by {
      NeighboursAreProper(tab, o, q, a, b, c);
    }
  }

  lemma ShowAtom(tab: Table, v: Val)
    ensures Show(tab, Atom(v)) == Leaf(v)
  {
  }

  /** One level of Show. */
  lemma ShowParts(tab: Table, o: Oper, l: Ast, r: Ast)
    ensures Show(tab, Join(o, l, r)) ==
      Bin(o,
          Wrap(Show(tab, l), l.Join? && tab(l.o) < tab(o)),
          Wrap(Show(tab, r), r.Join? && tab(r.o) <= tab(o)))
  {
  }

  lemma NeighboursAreProper(tab: Table, o: Oper, q: Oper, a: Val, b: Val, c: Val)
    requires Binary(o) && Binary(q) && tab(o) > 1 && tab(q) > 1
    ensures Proper(tab, Join(o, Atom(a), Join(q, Atom(b), Atom(c))))
  {
    hide Binary;
    PairIsProper(tab, q, b, c);
    assert Proper(tab, Atom(a));
  }

  lemma PairIsProper(tab: Table, q: Oper, b: Val, c: Val)
    requires Binary(q) && tab(q) > 1
    ensures Proper(tab, Join(q, Atom(b), Atom(c)))
  {
    hide Binary;
  }

  lemma PairIsCanon(tab: Table, o: Oper, a: Val, b: Val)
    requires Binary(o) && tab(o) > 1
    ensures Canon(tab, Bin(o, Leaf(a), Leaf(b)), 0)
  {
    hide Binary;
  }

  lemma PairThenIsCanon(tab: Table, o: Oper, q: Oper, a: Val, b: Val, c: Val)
    requires Binary(q) && tab(q) > 1 && tab(q) <= tab(o) + 1 && Canon(tab, Bin(o, Leaf(a), Leaf(b)), 0)
    ensures Canon(tab, Bin(q, Bin(o, Leaf(a), Leaf(b)), Leaf(c)), 0)
  {
    hide Binary, Canon;
    assert Closed(tab, Bin(o, Leaf(a), Leaf(b)), tab(q)) by {
      assert Closed(tab, Leaf(b), tab(q));
    }
    BinIsCanon(tab, q, Bin(o, Leaf(a), Leaf(b)), c);
  }

  lemma BinIsCanon(tab: Table, q: Oper, l: Tree, c: Val)
    requires Binary(q) && tab(q) > 1 && Canon(tab, l, 0) && Closed(tab, l, tab(q))
    ensures Canon(tab, Bin(q, l, Leaf(c)), 0)
  {
    hide Binary, Closed;
  }

  lemma FlatPrints(o: Oper, q: Oper, a: Val, b: Val, c: Val)
    ensures Print(Bin(o, Leaf(a), Bin(q, Leaf(b), Leaf(c)))) == Print(Bin(q, Bin(o, Leaf(a), Leaf(b)), Leaf(c)))
    ensures Print(Bin(q, Bin(o, Leaf(a), Leaf(b)), Leaf(c))) == [Literal(a), Op(o), Literal(b), Op(q), Literal(c)]
  {
    hide Print;
    PrintParts(Bin(o, Leaf(a), Bin(q, Leaf(b), Leaf(c))));
    PrintParts(Bin(q, Leaf(b), Leaf(c)));
    PrintParts(Bin(q, Bin(o, Leaf(a), Leaf(b)), Leaf(c)));
    PrintParts(Bin(o, Leaf(a), Leaf(b)));
    PrintParts(Leaf(a));
    PrintParts(Leaf(b));
    PrintParts(Leaf(c));
  }

  /**
    Printing with minimal parentheses and parsing are inverse on every expression exactly for
    the tables with no two binary operators one level apart.
   */
  lemma RoundTripIffSpaced(tab: Table)
    ensures Spaced(tab) <==> forall a: Ast :: Proper(tab, a) ==> RoundTrips(tab, a)
  {
    hide Build, Print, Show, Canon, RoundTrips, Binary, TreeAt, Spaced, Proper;
    if Spaced(tab) {
      forall a: Ast | Proper(tab, a)
        ensures RoundTrips(tab, a)
      {
        SpacedRoundTrips(tab, a);
      }
    } else {
      UnspacedCollides(tab);
    }
  }

  lemma SpacedRoundTrips(tab: Table, a: Ast)
    requires Spaced(tab) && Proper(tab, a)
    ensures RoundTrips(tab, a)
  {
    hide Spaced, Canon, Show, RoundTrips, Binary;
    ShownIsCanon(tab, a, 0);
    RoundTripsIffCanon(tab, a);
  }

  lemma UnspacedCollides(tab: Table)
    requires !Spaced(tab)
    ensures exists a: Ast :: Proper(tab, a) && !RoundTrips(tab, a)
  {
    hide Build, Print, Show, RoundTrips, Binary, Proper;
    var o, q :| Binary(o) && Binary(q) && tab(o) > 1 && tab(q) == tab(o) + 1;
    NeighboursCollide(tab, o, q, Nil, Nil, Nil);
  }

  // ---------------------------------------------------------------- the shipped table

  /** The levels the interpreter starts with. */
  function Shipped(o: Oper): int {
    match o
    case MapOp => 7
    case Filter => 9
    case LogicOr => 14
    case WordOr => 14
    case LogicAnd => 16
    case BitOr => 19
    case BitAnd => 20
    case BitXor => 20
    case ShiftLeft => 21
    case ShiftRight => 21
    case Not => 24
    case Tilde => 25
    case ITilde => 25
    case FTilde => 25
    case Eq => 25
    case Ne => 25
    case Lt => 25
    case Gt => 25
    case Le => 25
    case Ge => 25
    case In => 26
    case Range => 29
    case Plus => 31
    case Minus => 31
    case Multiply => 35
    case Divide => 35
    case Percent => 35
    case Pow => 37
    case OutFile => 37
    case InFile => 70
    case Sqr => 1
    case Sqrt => 1
    case Slc => 1
    case Suc => 1
    case Sst => 1
    case Slt => 1
    case Srt => 1
    case PathBase => 1
    case PathAbs => 1
    case PathName => 1
    case PathExt => 1
    case PathParent => 1
  }

  /** The pairs of binary operators the shipped table puts one level apart. */
  predicate Neighbours(o: Oper, q: Oper) {
    || (o == BitOr && (q == BitAnd || q == BitXor))
    || ((o == BitAnd || o == BitXor) && (q == ShiftLeft || q == ShiftRight))
    || ((o.Tilde? || o.ITilde? || o.FTilde? || o.Eq? || o.Ne? || o.Lt? || o.Gt? || o.Le? || o.Ge?) && q == In)
  }

  /** Exactly these pairs lose a grouping: a o (b q c), printed without parentheses, is read as (a o b) q c. */
  lemma ShippedNeighbours(o: Oper, q: Oper)
    requires Binary(o) && Binary(q)
    ensures Shipped(q) == Shipped(o) + 1 <==> Neighbours(o, q)
  {
    if Shipped(o) == 19 {
      assert o == BitOr;
    } else if Shipped(o) == 20 {
      assert o == BitAnd || o == BitXor;
    } else if Shipped(o) == 25 {
      assert o != BitOr && o != BitAnd && o != BitXor;
    }
  }

  /** So a bitwise or of an and groups to the left: a | b & c is read as (a | b) & c. */
  lemma ShippedTableIsNotSpaced(a: Val, b: Val, c: Val)
    ensures !Spaced(Shipped)
    ensures Build(Print(Show(Shipped, Join(BitOr, Atom(a), Join(BitAnd, Atom(b), Atom(c))))), Shipped, -1, 0)
         == Some((Bin(BitAnd, Bin(BitOr, Leaf(a), Leaf(b)), Leaf(c)), 4))
  {
    hide Build, Print, Show;
    NeighboursCollide(Shipped, BitOr, BitAnd, a, b, c);
    assert Binary(BitOr) && Binary(BitAnd) && Shipped(BitOr) > 1 && Shipped(BitAnd) == Shipped(BitOr) + 1;
  }

  /** The operators that only stand before an operand. */
  predicate OnlyPrefix(o: Oper) {
    || o == Not || o == Sqr || o == Sqrt || o == InFile || o == Slc || o == Suc || o == Sst || o == Slt || o == Srt
    || o == PathBase || o == PathAbs || o == PathName || o == PathExt || o == PathParent
  }

  /** The others join two operands. */
  lemma OthersAreBinary(o: Oper)
    ensures Binary(o) <==> !OnlyPrefix(o)
  {
  }

  /** Those from the loosest to the tightest. */
  function Tier(o: Oper): nat {
    match o
    case MapOp => 0
    case Filter => 1
    case LogicOr => 2
    case WordOr => 2
    case LogicAnd => 3
    case BitOr => 4
    case BitAnd => 5
    case BitXor => 5
    case ShiftLeft => 6
    case ShiftRight => 6
    case In => 8
    case Range => 9
    case Plus => 10
    case Minus => 10
    case Multiply => 11
    case Divide => 11
    case Percent => 11
    case Pow => 12
    case OutFile => 12
    case _ => 7
  }

  lemma LevelsByTier(o: Oper, q: Oper)
    requires Binary(o) && Binary(q)
    ensures Shipped(q) > Shipped(o) + 1 <==> Tier(q) > Tier(o) && !Neighbours(o, q)
    ensures Shipped(o) > 1
  {
  }

  /** With the shipped table a o b q c groups to the right if q is of a tighter tier and no neighbour of o. */
  lemma ShippedGroupsByTier(o: Oper, q: Oper, a: Val, b: Val, c: Val)
    requires !OnlyPrefix(o) && !OnlyPrefix(q)
    ensures Build([Literal(a), Op(o), Literal(b), Op(q), Literal(c)], Shipped, -1, 0) ==
      Some((if Tier(q) > Tier(o) && !Neighbours(o, q) then Bin(o, Leaf(a), Bin(q, Leaf(b), Leaf(c)))
            else Bin(q, Bin(o, Leaf(a), Leaf(b)), Leaf(c)), 4))
  {
    hide Build, Shipped, Tier, Neighbours, Binary, OnlyPrefix, Print, Canon;
    OthersAreBinary(o);
    OthersAreBinary(q);
    LevelsByTier(o, q);
    LevelsByTier(q, o);
    var right, left := Bin(o, Leaf(a), Bin(q, Leaf(b), Leaf(c))), Bin(q, Bin(o, Leaf(a), Leaf(b)), Leaf(c));
    FlatPrints(o, q, a, b, c);
    ThreeCanon(Shipped, o, q, a, b, c);
    BuildsPrinted(Shipped, if Shipped(q) > Shipped(o) + 1 then right else left);
  }

  lemma BuildsPrinted(tab: Table, t: Tree)
    requires Canon(tab, t, 0)
    ensures Build(Print(t), tab, -1, 0) == Some((t, |Print(t)| - 1))
  {
    hide Build, Canon, Print, TreeAt, Closed;
    ReadsPrinted(tab, t);
    BuildIffReads(Print(t), tab, -1, 0, t);
  }

  lemma ThreeCanon(tab: Table, o: Oper, q: Oper, a: Val, b: Val, c: Val)
    requires Binary(o) && Binary(q) && tab(o) > 1 && tab(q) > 1
    ensures if tab(q) > tab(o) + 1 then Canon(tab, Bin(o, Leaf(a), Bin(q, Leaf(b), Leaf(c))), 0)
            else Canon(tab, Bin(q, Bin(o, Leaf(a), Leaf(b)), Leaf(c)), 0)
  {
    hide Binary, Canon, Closed;
    if tab(q) > tab(o) + 1 {
      PairWithin(tab, q, b, c, tab(o) + 1);
      RightIsCanon(tab, o, a, Bin(q, Leaf(b), Leaf(c)));
    } else {
      PairIsCanon(tab, o, a, b);
      PairThenIsCanon(tab, o, q, a, b, c);
    }
  }

  lemma PairWithin(tab: Table, q: Oper, b: Val, c: Val, prec: int)
    requires Binary(q) && tab(q) > 1 && tab(q) > prec
    ensures Canon(tab, Bin(q, Leaf(b), Leaf(c)), prec)
  {
    hide Binary;
  }

  lemma RightIsCanon(tab: Table, o: Oper, a: Val, r: Tree)
    requires Binary(o) && tab(o) > 1 && Canon(tab, r, tab(o) + 1)
    ensures Canon(tab, Bin(o, Leaf(a), r), 0)
  {
    hide Binary;
  }

  /** A prefix operator that takes a whole operation with q as its operand: the path operators and not. */
  predicate Takes(o: Oper, q: Oper) {
    match o
    case PathBase => Tier(q) >= 2
    case PathAbs => Tier(q) >= 2
    case PathName => Tier(q) >= 2
    case PathExt => Tier(q) >= 2
    case PathParent => Tier(q) >= 2
    case Not => Tier(q) >= 7
    case _ => false
  }

  predicate Prefix(o: Oper) { o == Plus || o == Minus || OnlyPrefix(o) }

  lemma BindsByTier(o: Oper, q: Oper)
    requires (o == Plus || o == Minus || !Binary(o)) && Binary(q)
    ensures Bind(o).Some? && (Shipped(q) > Bind(o).value <==> Takes(o, q)) && Shipped(q) > 1
  {
  }

  /** With the shipped table o a q b is o of the whole if o takes q, and else q of o a and b. */
  lemma ShippedPrefixGroups(o: Oper, q: Oper, a: Val, b: Val)
    requires Prefix(o) && !OnlyPrefix(q)
    ensures Build([Op(o), Literal(a), Op(q), Literal(b)], Shipped, -1, 0) ==
      Some((if Takes(o, q) then Pre(o, Bin(q, Leaf(a), Leaf(b))) else Bin(q, Pre(o, Leaf(a)), Leaf(b)), 3))
  {
    hide Build, Shipped, Tier, Takes, Binary, OnlyPrefix, Bind, Print, Canon;
    OthersAreBinary(o);
    OthersAreBinary(q);
    BindsByTier(o, q);
    PrefixPrint(o, q, a, b);
    PrefixCanon(Shipped, o, q, a, b);
    BuildsPrinted(Shipped, if Takes(o, q) then Pre(o, Bin(q, Leaf(a), Leaf(b))) else Bin(q, Pre(o, Leaf(a)), Leaf(b)));
  }

  lemma PrefixPrint(o: Oper, q: Oper, a: Val, b: Val)
    ensures Print(Pre(o, Bin(q, Leaf(a), Leaf(b)))) == [Op(o), Literal(a), Op(q), Literal(b)]
    ensures Print(Bin(q, Pre(o, Leaf(a)), Leaf(b))) == [Op(o), Literal(a), Op(q), Literal(b)]
  {
    hide Print;
    PrintParts(Pre(o, Bin(q, Leaf(a), Leaf(b))));
    PrintParts(Bin(q, Leaf(a), Leaf(b)));
    PrintParts(Bin(q, Pre(o, Leaf(a)), Leaf(b)));
    PrintParts(Pre(o, Leaf(a)));
    PrintParts(Leaf(a));
    PrintParts(Leaf(b));
  }

  lemma PrefixCanon(tab: Table, o: Oper, q: Oper, a: Val, b: Val)
    requires Bind(o).Some? && Binary(q) && tab(q) > 1
    ensures if tab(q) > Bind(o).value then Canon(tab, Pre(o, Bin(q, Leaf(a), Leaf(b))), 0)
            else Canon(tab, Bin(q, Pre(o, Leaf(a)), Leaf(b)), 0)
  {
    hide Binary, Bind, Canon, Closed;
    if tab(q) > Bind(o).value {
      PairWithin(tab, q, a, b, Bind(o).value);
      PreIsCanon(tab, o, Bin(q, Leaf(a), Leaf(b)));
    } else {
      PreIsCanon(tab, o, Leaf(a));
      PreIsClosed(tab, o, a, tab(q));
      BinIsCanon(tab, q, Pre(o, Leaf(a)), b);
    }
  }

  lemma PreIsCanon(tab: Table, o: Oper, u: Tree)
    requires Bind(o).Some?
    ensures Canon(tab, Pre(o, u), 0) <==> Canon(tab, u, Bind(o).value)
    ensures u.Leaf? ==> Canon(tab, Pre(o, u), 0)
  {
    hide Bind;
  }

  lemma PreIsClosed(tab: Table, o: Oper, a: Val, level: int)
    requires Bind(o).Some? && level <= Bind(o).value
    ensures Closed(tab, Pre(o, Leaf(a)), level)
  {
    hide Bind;
  }

  // ---------------------------------------------------------------- the shipped table and the skip scan

  predicate PathOperator(o: Oper) { o.PathBase? || o.PathAbs? || o.PathName? || o.PathExt? || o.PathParent? }

  /** No path operator stands outside parentheses. */
  predicate PathFree(t: Tree) {
    match t
    case Leaf(_) => true
    case Paren(_) => true
    case Pre(o, u) => !PathOperator(o) && PathFree(u)
    case Bin(_, l, r) => PathFree(l) && PathFree(r)
  }

  /** No right operand of a short-circuit operator has a path operator outside parentheses. */
  predicate PathsGuarded(t: Tree) {
    match t
    case Leaf(_) => true
    case Paren(u) => PathsGuarded(u)
    case Pre(_, u) => PathsGuarded(u)
    case Bin(o, l, r) => PathsGuarded(l) && PathsGuarded(r) && (ShortCircuits(o) ==> PathFree(r))
  }

  lemma {:induction false} ShippedPrefixesAreTight(t: Tree, at: int, prec: int)
    requires Canon(Shipped, t, at) && PathFree(t) && prec <= 17
    ensures TightPrefixes(Shipped, t, prec)
    decreases t
  {
    match t
    case Leaf(_) =>
    case Paren(_) =>
    case Pre(o, u) =>
      assert Bind(o).value >= 17 && !(1 < Shipped(o) <= 17);
      ShippedPrefixesAreTight(u, Bind(o).value, prec);
    case Bin(o, l, r) =>
      ShippedPrefixesAreTight(l, at, prec);
      ShippedPrefixesAreTight(r, Shipped(o) + 1, prec);
  }

  /** With the shipped table every other prefix operator is safe to short-circuit past. */
  lemma {:induction false} GuardedPathsAreSkipSafe(t: Tree, prec: int)
    requires Canon(Shipped, t, prec) && PathsGuarded(t)
    ensures SkipSafe(Shipped, t)
    decreases t
  {
    match t
    case Leaf(_) =>
    case Paren(u) => GuardedPathsAreSkipSafe(u, 0);
    case Pre(o, u) => GuardedPathsAreSkipSafe(u, Bind(o).value);
    case Bin(o, l, r) =>
      GuardedPathsAreSkipSafe(l, prec);
      GuardedPathsAreSkipSafe(r, Shipped(o) + 1);
      if ShortCircuits(o) {
        ShippedPrefixesAreTight(r, Shipped(o) + 1, Shipped(o) + 1);
        CanonIsClear(Shipped, r, Shipped(o) + 1, Shipped(o) + 1);
      }
  }

  /** An expression in the shipped grammar is evaluated as it reads, whichever short-circuits are taken. */
  lemma ShippedEvaluatesAsRead(sem: Sem, t: Tree)
    requires Canon(Shipped, t, 0) && PathsGuarded(t)
    ensures Parse(Env(Print(t), Shipped, sem), -1, 0) == Done(Full(sem, t), |Print(t)| - 1)
    ensures Build(Print(t), Shipped, -1, 0) == Some((t, |Print(t)| - 1))
  {
    hide Parse, Build, Canon, Print, Eval, Full, SkipSafe, PathsGuarded, TreeAt, Closed;
    ShortCircuitUnseen(sem, t);
    GuardedPathsAreSkipSafe(t, 0);
    PrintSize(t);
    EvaluatesPrinted(Env(Print(t), Shipped, sem), t);
    ReadsPrinted(Shipped, t);
    BuildIffReads(Print(t), Shipped, -1, 0, t);
  }

  /** The tokens of  left && pathbase a || b . */
  function PathExample(left: Val, a: Val, b: Val): seq<Token> {
    [Literal(left), Op(LogicAnd), Op(PathBase), Literal(a), Op(LogicOr), Literal(b)]
  }

  /**
    The path operators hold their operand at level 10, below || : how such an expression groups
    depends on the value of its left operand. Taken, the operand of && runs to the end; passed
    over, it ends before || .
   */
  lemma PathGroupingDependsOnValues(sem: Sem, left: Val, a: Val, b: Val)
    requires !sem.asBool(a) && !a.Text?
    ensures sem.asBool(left) ==>
      Parse(Env(PathExample(left, a, b), Shipped, sem), -1, 0)
      == Done(Truth(sem.asBool(sem.prefix(PathBase, Truth(sem.asBool(b))))), 5)
    ensures !sem.asBool(left) && !sem.asBool(Truth(false)) ==>
      Parse(Env(PathExample(left, a, b), Shipped, sem), -1, 0) == Done(Truth(sem.asBool(b)), 5)
  {
    hide Parse, Climb, Apply, Settles, Shipped;
    var e := Env(PathExample(left, a, b), Shipped, sem);
    assert PathLaidOut(e, left, a, b) by {
      ShippedPathLevels();
    }
    if sem.asBool(left) {
      PathOperandTaken(e, left, a, b);
    } else if !sem.asBool(Truth(false)) {
      PathOperandSkipped(e, left, a, b);
    }
  }

  lemma ShippedPathLevels()
    ensures Shipped(LogicAnd) == 16 && Shipped(LogicOr) == 14 && Shipped(PathBase) == 1
  {
  }

  ghost predicate PathLaidOut(e: Env, left: Val, a: Val, b: Val) {
    && |e.toks| == 6 && e.tab(LogicAnd) == 16 && e.tab(LogicOr) == 14 && e.tab(PathBase) == 1
    && TokenAt(e.toks, 0, Literal(left)) && TokenAt(e.toks, 1, Op(LogicAnd)) && TokenAt(e.toks, 2, Op(PathBase))
    && TokenAt(e.toks, 3, Literal(a)) && TokenAt(e.toks, 4, Op(LogicOr)) && TokenAt(e.toks, 5, Literal(b))
  }

  lemma PathOperandTaken(e: Env, left: Val, a: Val, b: Val)
    requires PathLaidOut(e, left, a, b) && e.sem.asBool(left) && !e.sem.asBool(a) && !a.Text?
    ensures Parse(e, -1, 0) == Done(Truth(e.sem.asBool(e.sem.prefix(PathBase, Truth(e.sem.asBool(b))))), 5)
  {
    hide Parse, Climb, Skip, Binary;
    var path := e.sem.prefix(PathBase, Truth(e.sem.asBool(b)));
    PathParsed(e, left, a, b);
    ParseLeaf(e, -1, 0, left);
    BinaryShort();
    ClimbOnce(e, 0, 0, left, LogicAnd);
    ClimbStops(e, 5, 0, Truth(e.sem.asBool(path)));
  }

  lemma BinaryShort()
    ensures Binary(LogicAnd) && Binary(LogicOr)
  {
  }

  /** The path operator takes the whole of a || b. */
  lemma PathParsed(e: Env, left: Val, a: Val, b: Val)
    requires PathLaidOut(e, left, a, b) && !e.sem.asBool(a) && !a.Text?
    ensures Parse(e, 1, 17) == Done(e.sem.prefix(PathBase, Truth(e.sem.asBool(b))), 5)
  {
    hide Parse, Climb, Skip, Binary;
    BinaryShort();
    ParseLeaf(e, 2, 10, a);
    ClimbOnce(e, 3, 10, a, LogicOr);
    ParseLeaf(e, 4, 15, b);
    ClimbStops(e, 5, 15, b);
    ClimbStops(e, 5, 10, Truth(e.sem.asBool(b)));
    ParsePre(e, 1, 17, PathBase, Truth(e.sem.asBool(b)), 5);
    ClimbStops(e, 5, 17, e.sem.prefix(PathBase, Truth(e.sem.asBool(b))));
  }

  lemma PathOperandSkipped(e: Env, left: Val, a: Val, b: Val)
    requires PathLaidOut(e, left, a, b) && !e.sem.asBool(left) && !e.sem.asBool(Truth(false))
    ensures Parse(e, -1, 0) == Done(Truth(e.sem.asBool(b)), 5)
  {
    hide Parse, Climb, Skip, Binary;
    BinaryShort();
    ParseLeaf(e, -1, 0, left);
    ClimbOnce(e, 0, 0, left, LogicAnd);
    SkipOne(e, 1, 17, 0);
    SkipOne(e, 2, 17, 0);
    SkipHalts(e, 3, 17);
    ClimbOnce(e, 3, 0, Truth(false), LogicOr);
    ParseLeaf(e, 4, 15, b);
    ClimbStops(e, 5, 15, b);
    ClimbStops(e, 5, 0, Truth(e.sem.asBool(b)));
  }
}
