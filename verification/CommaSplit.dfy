/** Splitting an argument list at its commas, those inside parentheses left alone. */
module CommaSplit {
  import opened Pratt

  function Turn(t: Token): int { if t == LParen then 1 else if t == RParen then -1 else 0 }

  /** Parentheses opened and not closed. */
  function Depth(s: seq<Token>): int { if s == [] then 0 else Depth(s[..|s| - 1]) + Turn(s[|s| - 1]) }

  predicate TopComma(s: seq<Token>, k: nat)
    requires k < |s|
  {
    s[k] == Comma && Depth(s[..k]) == 0
  }

  /** Commas outside parentheses. */
  function TopCommas(s: seq<Token>): nat {
    if s == [] then 0 else TopCommas(s[..|s| - 1]) + if TopComma(s, |s| - 1) then 1 else 0
  }

  /** An argument: as many parentheses closed as opened, and no comma outside them. */
  predicate Argument(s: seq<Token>) { Depth(s) == 0 && forall k :: 0 <= k < |s| ==> !TopComma(s, k) }

  /** Every piece followed by a comma. */
  function Ended(pieces: seq<seq<Token>>): seq<Token> {
    if pieces == [] then [] else Ended(pieces[..|pieces| - 1]) + (pieces[|pieces| - 1] + [Comma])
  }

  /** The pieces joined by commas. */
  function Joined(pieces: seq<seq<Token>>): seq<Token>
    requires pieces != []
  {
    Ended(pieces[..|pieces| - 1]) + pieces[|pieces| - 1]
  }

  lemma {:induction false} DepthAdds(a: seq<Token>, b: seq<Token>)
    ensures Depth(a + b) == Depth(a) + Depth(b)
    decreases |b|
  {
    if b == [] {
      assert a + b == a;
    } else {
      assert (a + b)[..|a + b| - 1] == a + b[..|b| - 1];
      DepthAdds(a, b[..|b| - 1]);
    }
  }

  /** The depth inside a piece is the depth in the list if the piece starts at no depth. */
  lemma DepthWithin(s: seq<Token>, from: nat, k: nat)
    requires from <= k <= |s| && Depth(s[..from]) == 0
    ensures Depth(s[from..k]) == Depth(s[..k])
  {
    assert s[..k] == s[..from] + s[from..k];
    DepthAdds(s[..from], s[from..k]);
  }

  lemma PartOfPart(s: seq<Token>, from: nat, to: nat, k: nat)
    requires from <= from + k < to <= |s|
    ensures s[from..to][..k] == s[from..from + k] && s[from..to][k] == s[from + k]
  {
  }

  /** A stretch between two top-level commas, or the ends, is an argument. */
  lemma StretchIsArgument(s: seq<Token>, from: nat, to: nat)
    requires from <= to <= |s| && Depth(s[..from]) == 0 && Depth(s[..to]) == 0
    requires forall k :: from <= k < to ==> !TopComma(s, k)
    ensures Argument(s[from..to])
  {
    hide Depth;
    DepthWithin(s, from, to);
    forall k | 0 <= k < |s[from..to]|
      ensures !TopComma(s[from..to], k)
    {
      PartOfPart(s, from, to, k);
      DepthWithin(s, from, from + k);
      assert !TopComma(s, from + k);
    }
  }

  lemma EndedMore(pieces: seq<seq<Token>>, piece: seq<Token>)
    ensures Ended(pieces + [piece]) == Ended(pieces) + (piece + [Comma])
    ensures Joined(pieces + [piece]) == Ended(pieces) + piece
  {
    assert (pieces + [piece])[..|pieces|] == pieces;
  }

  /** The pieces cut off once the first term tokens have been looked at, the next piece starting at newstart. */
  ghost predicate Cutting(tokens: seq<Token>, newstart: nat, term: nat, pieces: seq<seq<Token>>) {
    && newstart <= term <= |tokens| && Depth(tokens[..newstart]) == 0
    && (forall k :: newstart <= k < term ==> !TopComma(tokens, k))
    && (forall i :: 0 <= i < |pieces| ==> Argument(pieces[i]))
    && Ended(pieces) == tokens[..newstart] && |pieces| == TopCommas(tokens[..term])
  }

  lemma NextToken(tokens: seq<Token>, term: nat)
    requires term < |tokens|
    ensures Depth(tokens[..term + 1]) == Depth(tokens[..term]) + Turn(tokens[term])
    ensures TopCommas(tokens[..term + 1]) == TopCommas(tokens[..term]) + if TopComma(tokens, term) then 1 else 0
  {
    assert tokens[..term + 1][..term] == tokens[..term];
  }

  lemma TopCommaIs(tokens: seq<Token>, term: nat)
    requires term < |tokens|
    ensures TopComma(tokens, term) <==> tokens[term] == Comma && Depth(tokens[..term + 1]) == 0
  {
    NextToken(tokens, term);
  }

  lemma PassToken(tokens: seq<Token>, newstart: nat, term: nat, pieces: seq<seq<Token>>)
    requires Cutting(tokens, newstart, term, pieces) && term < |tokens| && !TopComma(tokens, term)
    ensures Cutting(tokens, newstart, term + 1, pieces)
  {
    hide Ended, Argument, Depth, TopCommas;
    NextToken(tokens, term);
  }

  lemma CutAtComma(tokens: seq<Token>, newstart: nat, term: nat, pieces: seq<seq<Token>>)
    requires Cutting(tokens, newstart, term, pieces) && term < |tokens| && TopComma(tokens, term)
    ensures Cutting(tokens, term + 1, term + 1, pieces + [tokens[newstart..term]])
  {
    hide Ended, Argument, Depth, TopCommas;
    var v := tokens[newstart..term];
    StretchIsArgument(tokens, newstart, term);
    EndedMore(pieces, v);
    NextToken(tokens, term);
    assert tokens[..newstart] + (v + [Comma]) == tokens[..term + 1];
  }

  /** Nothing is left over. */
  ghost predicate Whole(tokens: seq<Token>, pieces: seq<seq<Token>>) {
    && (forall i :: 0 <= i < |pieces| ==> Argument(pieces[i]))
    && pieces != [] && Joined(pieces) == tokens && |pieces| == TopCommas(tokens) + 1
  }

  lemma CutIsWhole(tokens: seq<Token>, newstart: nat, pieces: seq<seq<Token>>)
    requires Cutting(tokens, newstart, |tokens|, pieces) && Depth(tokens) == 0
    ensures Whole(tokens, pieces + [tokens[newstart..|tokens|]])
  {
    hide Ended, Argument, Depth, TopCommas, Joined;
    assert tokens[..|tokens|] == tokens;
    StretchIsArgument(tokens, newstart, |tokens|);
    EndedMore(pieces, tokens[newstart..]);
    assert tokens[..newstart] + tokens[newstart..] == tokens;
  }

  lemma WholeMeans(tokens: seq<Token>, pieces: seq<seq<Token>>)
    requires Whole(tokens, pieces)
    ensures forall i :: 0 <= i < |pieces| ==> Argument(pieces[i])
    ensures pieces != [] && Joined(pieces) == tokens && |pieces| == TopCommas(tokens) + 1
  {
    hide Ended, Argument, Joined, TopCommas;
  }

  lemma CutNothing(tokens: seq<Token>)
    ensures Cutting(tokens, 0, 0, []) && Depth(tokens[..0]) == 0
  {
  }

  lemma CutLosesTail(tokens: seq<Token>, newstart: nat, pieces: seq<seq<Token>>)
    requires Cutting(tokens, newstart, |tokens|, pieces) && newstart < |tokens|
    ensures forall i :: 0 <= i < |pieces| ==> Argument(pieces[i])
    ensures |pieces| == TopCommas(tokens) && Ended(pieces) < tokens
    ensures pieces != [] ==> Joined(pieces) != tokens
  {
    hide Ended, Joined, Argument, TopCommas;
    assert tokens[..|tokens|] == tokens;
    if pieces != [] {
      JoinedShorter(pieces);
    }
  }

  /**
    The pieces of a token list. Each is an argument, and together they are the whole list; but a
    list whose parentheses do not balance loses its last piece.
   */
  method SplitCommaArray(tokens: seq<Token>) returns (resu: seq<seq<Token>>)
    ensures forall i :: 0 <= i < |resu| ==> Argument(resu[i])
    ensures tokens == [] ==> resu == []
    ensures tokens != [] ==> |resu| == TopCommas(tokens) + if Depth(tokens) == 0 then 1 else 0
    ensures tokens != [] ==> ((resu != [] && Joined(resu) == tokens) <==> Depth(tokens) == 0)
    ensures Depth(tokens) != 0 ==> Ended(resu) < tokens
    ensures tokens != [] ==> SplitsWritten(tokens, resu)
  {
    hide Ended, Argument, Joined, Cutting, Depth, TopCommas, Whole, TopComma, SplitsWritten;
    resu := [];
    var evnest := 0;
    var newstart: nat := 0;
    var lt := |tokens|;
    CutNothing(tokens);
    assert tokens[..lt] == tokens;
    if lt == 0 {
      return;
    }
    var term := 0;
    while term < lt
      invariant newstart <= term <= lt && evnest == Depth(tokens[..term])
      invariant !(term == lt && evnest == 0) ==> Cutting(tokens, newstart, term, resu) && (term == lt ==> newstart < lt)
      invariant term == lt && evnest == 0 ==> Whole(tokens, resu)
    {
      var nt := tokens[term];
      NextToken(tokens, term);
      TopCommaIs(tokens, term);
      if nt == LParen {
        evnest := evnest + 1;
      }
      if nt == RParen {
        evnest := evnest - 1;
      }
      if evnest == 0 && nt == Comma {
        CutAtComma(tokens, newstart, term, resu);
        resu := resu + [tokens[newstart..term]];
        newstart := term + 1;
      } else {
        PassToken(tokens, newstart, term, resu);
      }
      if evnest == 0 && term == lt - 1 {
        CutIsWhole(tokens, newstart, resu);
        resu := resu + [tokens[newstart..term + 1]];
        newstart := term + 1;
      }
      term := term + 1;
    }
    if evnest == 0 {
      WholeMeans(tokens, resu);
    } else {
      CutLosesTail(tokens, newstart, resu);
    }
    SplitBack(tokens, resu);
  }

  lemma EndedNone()
    ensures Ended([]) == []
  {
  }

  lemma JoinedShorter(pieces: seq<seq<Token>>)
    requires pieces != []
    ensures |Joined(pieces)| + 1 == |Ended(pieces)|
  {
  }

  /** A list is the join of arguments in one way only, so splitting a join gives back what was joined. */
  lemma {:induction false} JoinedOneWay(a: seq<seq<Token>>, b: seq<seq<Token>>)
    requires a != [] && b != [] && Joined(a) == Joined(b)
    requires (forall i :: 0 <= i < |a| ==> Argument(a[i])) && (forall i :: 0 <= i < |b| ==> Argument(b[i]))
    ensures a == b
    decreases |a|
  {
    hide Argument, Depth, TopComma;
    var la, lb := a[|a| - 1], b[|b| - 1];
    var fa, fb := a[..|a| - 1], b[..|b| - 1];
    SameLast(fa, la, fb, lb);
    var s := Joined(a);
    assert s[|s| - |la|..] == la && s[|s| - |lb|..] == lb;
    assert s[..|s| - |la|] == Ended(fa) && s[..|s| - |lb|] == Ended(fb);
    if fa != [] && fb != [] {
      EndedIsJoined(fa);
      EndedIsJoined(fb);
      assert Ended(fa)[..|Ended(fa)| - 1] == Joined(fa) && Ended(fb)[..|Ended(fb)| - 1] == Joined(fb);
      JoinedOneWay(fa, fb);
    } else {
      EndedNotEmpty(fa);
      EndedNotEmpty(fb);
    }
    assert a == fa + [la] && b == fb + [lb];
  }

  lemma EndedIsJoined(pieces: seq<seq<Token>>)
    requires pieces != []
    ensures Ended(pieces) == Joined(pieces) + [Comma]
  {
    assert Joined(pieces) + [Comma] == Ended(pieces[..|pieces| - 1]) + (pieces[|pieces| - 1] + [Comma]);
  }

  lemma EndedNotEmpty(pieces: seq<seq<Token>>)
    ensures pieces == [] <==> Ended(pieces) == []
  {
  }

  /** An argument reaching over the comma that ends another reading would have it at its top level. */
  lemma ReachesOverComma(fa: seq<seq<Token>>, la: seq<Token>, fb: seq<seq<Token>>, lb: seq<Token>)
    requires Ended(fa) + la == Ended(fb) + lb && Depth(la) == 0 && Depth(lb) == 0
    requires |la| < |lb|
    ensures TopComma(lb, |lb| - |la| - 1)
  {
    hide Ended, Depth;
    var s, at := Ended(fa) + la, |lb| - |la| - 1;
    assert fa != [] by {
      EndedNone();
    }
    EndedIsJoined(fa);
    assert lb == s[|s| - |lb|..];
    assert lb[at + 1..] == s[|s| - |la|..] == la;
    assert lb[at] == s[|s| - |la| - 1] == Comma;
    CommaWithin(lb, at);
  }

  lemma CommaWithin(s: seq<Token>, at: nat)
    requires at < |s| && s[at] == Comma && Depth(s) == 0 && Depth(s[at + 1..]) == 0
    ensures TopComma(s, at)
  {
    var rest := s[at + 1..];
    assert s == s[..at] + ([Comma] + rest);
    DepthAdds(s[..at], [Comma] + rest);
    DepthAdds([Comma], rest);
    assert Depth([Comma]) == 0;
  }

  lemma SameLast(fa: seq<seq<Token>>, la: seq<Token>, fb: seq<seq<Token>>, lb: seq<Token>)
    requires Ended(fa) + la == Ended(fb) + lb && Argument(la) && Argument(lb)
    ensures |la| == |lb|
  {
    hide Ended, Depth;
    if |la| < |lb| {
      ReachesOverComma(fa, la, fb, lb);
    } else if |lb| < |la| {
      ReachesOverComma(fb, lb, fa, la);
    }
  }

  // ---------------------------------------------------------------- lists as they are written

  /** A piece of an expression: a token, or a stretch in parentheses. */
  datatype Item = One(t: Token) | Nest(inner: seq<Item>)

  /** Parentheses stand only around a stretch. */
  predicate Plain(item: Item) {
    match item
    case One(t) => t != LParen && t != RParen
    case Nest(inner) => forall i :: 0 <= i < |inner| ==> Plain(inner[i])
  }

  function Shown(item: Item): seq<Token>
    decreases item, 0
  {
    match item
    case One(t) => [t]
    case Nest(inner) => [LParen] + ShownAll(inner) + [RParen]
  }

  function ShownAll(items: seq<Item>): seq<Token>
    decreases items
  {
    if items == [] then [] else Shown(items[0]) + ShownAll(items[1..])
  }

  /** An argument as it is written: anything but a comma, unless in parentheses. */
  predicate Written(items: seq<Item>) { forall i :: 0 <= i < |items| ==> Plain(items[i]) && items[i] != One(Comma) }

  predicate AllWritten(args: seq<seq<Item>>) { forall i :: 0 <= i < |args| ==> Written(args[i]) }

  /** The arguments with commas between them. */
  function Listing(args: seq<seq<Item>>): seq<Token>
    requires args != []
  {
    if |args| == 1 then ShownAll(args[0]) else ShownAll(args[0]) + [Comma] + Listing(args[1..])
  }

  function Pieces(args: seq<seq<Item>>): seq<seq<Token>> {
    seq(|args|, i requires 0 <= i < |args| => ShownAll(args[i]))
  }

  /** As many parentheses closed as opened, and never more closed than opened before. */
  predicate Nested(s: seq<Token>) { Depth(s) == 0 && forall k :: 0 <= k <= |s| ==> Depth(s[..k]) >= 0 }

  lemma NestedJoined(a: seq<Token>, b: seq<Token>)
    requires Nested(a) && Nested(b)
    ensures Nested(a + b)
  {
    hide Depth;
    DepthAdds(a, b);
    forall k | 0 <= k <= |a + b|
      ensures Depth((a + b)[..k]) >= 0
    {
      if k <= |a| {
        assert (a + b)[..k] == a[..k];
      } else {
        assert (a + b)[..k] == a + b[..k - |a|];
        DepthAdds(a, b[..k - |a|]);
      }
    }
  }

  lemma DepthOpened(s: seq<Token>)
    ensures Depth([LParen] + s) == 1 + Depth(s)
  {
    DepthAdds([LParen], s);
    assert Depth([LParen]) == Depth([LParen][..0]) + 1;
  }

  /** What a stretch in parentheses looks like from its start. */
  lemma Parenthesised(s: seq<Token>)
    requires Nested(s)
    ensures var p := [LParen] + s + [RParen];
      Depth(p) == 0 && p[..0] == [] && forall k :: 0 < k < |p| ==> Depth(p[..k]) >= 1
  {
    hide Depth;
    var p := [LParen] + s + [RParen];
    forall k | 0 < k < |p|
      ensures Depth(p[..k]) >= 1
    {
      assert p[..k] == [LParen] + s[..k - 1];
      DepthOpened(s[..k - 1]);
    }
    assert s[..|s|] == s && p[..|p| - 1] == [LParen] + s;
    DepthOpened(s);
    Closing(p);
  }

  lemma Closing(p: seq<Token>)
    requires p != [] && p[|p| - 1] == RParen
    ensures Depth(p) == Depth(p[..|p| - 1]) - 1 && Depth([]) == 0
  {
  }

  lemma DepthOfOne(t: Token)
    requires t != LParen && t != RParen
    ensures Depth([t]) == 0 && Depth([]) == 0
  {
    assert [t][..0] == [];
  }

  lemma {:induction false} ShownNested(item: Item)
    requires Plain(item)
    ensures Nested(Shown(item))
    decreases item, 0
  {
    hide Depth;
    match item
    case One(t) =>
      DepthOfOne(t);
      assert [t][..0] == [] && [t][..1] == [t];
    case Nest(inner) =>
      AllNested(inner);
      Parenthesised(ShownAll(inner));
      var p := Shown(item);
      assert p[..|p|] == p;
      Closing(p);
  }

  lemma {:induction false} AllNested(items: seq<Item>)
    requires forall i :: 0 <= i < |items| ==> Plain(items[i])
    ensures Nested(ShownAll(items))
    decreases items
  {
    hide Depth;
    if items == [] {
      DepthOfOne(Comma);
      assert forall k :: 0 <= k <= 0 ==> ShownAll(items)[..k] == [];
    } else {
      ShownNested(items[0]);
      AllNested(items[1..]);
      NestedJoined(Shown(items[0]), ShownAll(items[1..]));
    }
  }

  lemma ArgumentsJoin(a: seq<Token>, b: seq<Token>)
    requires Argument(a) && Argument(b)
    ensures Argument(a + b)
  {
    hide Depth;
    DepthAdds(a, b);
    forall k | 0 <= k < |a + b|
      ensures !TopComma(a + b, k)
    {
      if k < |a| {
        assert (a + b)[..k] == a[..k] && !TopComma(a, k);
      } else {
        assert (a + b)[..k] == a + b[..k - |a|] && !TopComma(b, k - |a|);
        DepthAdds(a, b[..k - |a|]);
      }
    }
  }

  lemma ShownIsArgument(item: Item)
    requires Plain(item) && item != One(Comma)
    ensures Argument(Shown(item))
  {
    hide Depth;
    match item
    case One(t) => DepthOfOne(t);
    case Nest(inner) =>
      AllNested(inner);
      Parenthesised(ShownAll(inner));
  }

  /** An argument as written is one: a list in parentheses is not cut, whatever commas are in it. */
  lemma {:induction false} WrittenIsArgument(items: seq<Item>)
    requires Written(items)
    ensures Argument(ShownAll(items))
  {
    hide Depth;
    if items == [] {
      DepthOfOne(Comma);
    } else {
      ShownIsArgument(items[0]);
      WrittenIsArgument(items[1..]);
      ArgumentsJoin(Shown(items[0]), ShownAll(items[1..]));
    }
  }

  lemma {:induction false} JoinedFromFirst(first: seq<Token>, pieces: seq<seq<Token>>)
    requires pieces != []
    ensures Joined([first] + pieces) == first + [Comma] + Joined(pieces)
  {
    EndedFromFirst(first, pieces[..|pieces| - 1]);
    assert ([first] + pieces)[..|pieces|] == [first] + pieces[..|pieces| - 1];
  }

  lemma {:induction false} EndedFromFirst(first: seq<Token>, pieces: seq<seq<Token>>)
    ensures Ended([first] + pieces) == first + [Comma] + Ended(pieces)
  {
    if pieces == [] {
      EndedMore([], first);
      assert [] + [first] == [first] + pieces;
    } else {
      var n := |pieces| - 1;
      EndedFromFirst(first, pieces[..n]);
      assert ([first] + pieces)[..n + 1] == [first] + pieces[..n];
    }
  }

  lemma {:induction false} ListingIsJoined(args: seq<seq<Item>>)
    requires args != []
    ensures Pieces(args) != [] && Listing(args) == Joined(Pieces(args))
  {
    if |args| == 1 {
      assert Pieces(args)[..0] == [];
    } else {
      ListingIsJoined(args[1..]);
      assert Pieces(args) == [ShownAll(args[0])] + Pieces(args[1..]);
      JoinedFromFirst(ShownAll(args[0]), Pieces(args[1..]));
    }
  }

  lemma {:induction false} JoinedDepth(pieces: seq<seq<Token>>)
    requires pieces != [] && forall i :: 0 <= i < |pieces| ==> Argument(pieces[i])
    ensures Depth(Joined(pieces)) == 0
  {
    hide Depth;
    var n := |pieces| - 1;
    DepthAdds(Ended(pieces[..n]), pieces[n]);
    DepthOfOne(Comma);
    if n > 0 {
      JoinedDepth(pieces[..n]);
      EndedIsJoined(pieces[..n]);
      DepthAdds(Joined(pieces[..n]), [Comma]);
    }
  }

  /** What splitting any list of arguments as written has to give. */
  ghost predicate SplitsWritten(tokens: seq<Token>, resu: seq<seq<Token>>) {
    forall args: seq<seq<Item>> :: args != [] && AllWritten(args) && tokens == Listing(args) ==> resu == Pieces(args)
  }

  lemma SplitBack(tokens: seq<Token>, resu: seq<seq<Token>>)
    requires forall i :: 0 <= i < |resu| ==> Argument(resu[i])
    requires (resu != [] && Joined(resu) == tokens) <==> Depth(tokens) == 0
    ensures SplitsWritten(tokens, resu)
  {
    hide Depth, Argument, Joined, Written, ShownAll;
    forall args: seq<seq<Item>> | args != [] && AllWritten(args) && tokens == Listing(args)
      ensures resu == Pieces(args)
    {
      ListingIsJoined(args);
      var pieces := Pieces(args);
      forall i | 0 <= i < |pieces|
        ensures Argument(pieces[i])
      {
        WrittenIsArgument(args[i]);
      }
      JoinedDepth(pieces);
      JoinedOneWay(resu, pieces);
    }
  }
}
