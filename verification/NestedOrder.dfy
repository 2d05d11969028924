/** Writes to disjoint paths in either order, what assignment keeps of types, and what []any cannot do. */
module NestedOrder {
  import opened Phrases
  import opened NestedData
  import opened NestedLaws

  // ---------------------------------------------------------------- two writes, either order

  /** Both values call for the same kind of array wherever the shared part of the paths has to make one. */
  predicate AlikeMaking(c: Cell, p: seq<Access>, q: seq<Access>, x: Data, z: Data)
    requires !x.Nil? && !z.Nil?
    decreases |p|
  {
    p != [] && q != [] ==>
      var s := Settle(c);
      && SameMaking(s, p[0], x, z)
      && (p[0] == q[0] && Descend(s, p[0], x).Some? ==> AlikeMaking(Descend(s, p[0], x).value, p[1..], q[1..], x, z))
  }

  /** Putting back two parts: each leaves the place the other leads to, and the order does not show. */
  ghost predicate Swaps(c: Cell, a: Access, b: Access, x: Data, z: Data, y: Data, w: Data)
    requires Descend(c, a, x).Some? && PutBack(c, a, x, y).Gives? && Descend(c, b, z).Some?
    requires PutBack(c, b, z, w).Gives?
  {
    var first, second := Unwrapped(PutBack(c, a, x, y).v), Unwrapped(PutBack(c, b, z, w).v);
    && Descend(first, b, z) == Descend(c, b, z) && Descend(second, a, x) == Descend(c, a, x)
    && Descend(c, a, x).Some? && Descend(c, b, z).Some?
    && PutBack(first, b, z, w).Gives? && PutBack(first, b, z, w) == PutBack(second, a, x, y)
  }

  lemma ApartSwaps(c: Cell, a: Access, b: Access, x: Data, z: Data, y: Data, w: Data)
    requires Descend(c, a, x).Some? && PutBack(c, a, x, y).Gives? && Descend(c, b, z).Some?
    requires PutBack(c, b, z, w).Gives?
    requires Apart(a, b) && !x.Nil? && !z.Nil? && !y.Nil? && !w.Nil? && SameMaking(c, a, x,
        z) && (a.Key? ==> MapLike(c))
    ensures Swaps(c, a, b, x, z, y, w)
  {
    hide Descend, PutBack, Swaps;
    match a
    case Index(i) => IndexSwaps(c, i, b.i, x, z, y, w);
    case Key(k) => KeySwaps(c, k, b.k, x, z, y, w);
    case Member(f) => MemberSwaps(c, f, b.f, x, z, y, w);
  }

  lemma KeySwaps(c: Cell, k: string, l: string, x: Data, z: Data, y: Data, w: Data)
    requires k != l && MapLike(c) && !y.Nil? && !w.Nil?
    requires PutBack(c, Key(k), x, y).Gives? && PutBack(c, Key(l), z, w).Gives?
    ensures Swaps(c, Key(k), Key(l), x, z, y, w)
  {
    hide Zero, FieldAt, Grow;
    assert Entries(c)[k := y][l := w] == Entries(c)[l := w][k := y];
  }

  lemma MemberSwaps(c: Cell, f: string, g: string, x: Data, z: Data, y: Data, w: Data)
    requires f != g && Descend(c, Member(f), x).Some? && Descend(c, Member(g), z).Some?
    requires PutBack(c, Member(f), x, y).Gives? && PutBack(c, Member(g), z, w).Gives?
    ensures Swaps(c, Member(f), Member(g), x, z, y, w)
  {
    hide Zero, FieldAt, Grow;
    var i, j := FieldAt(c.v.types, f).value, FieldAt(c.v.types, g).value;
    assert i != j;
    assert c.v.fields[i := y][j := w] == c.v.fields[j := w][i := y];
  }

  lemma IndexSwaps(c: Cell, i: int, j: int, x: Data, z: Data, y: Data, w: Data)
    requires i != j && !x.Nil? && !z.Nil? && SameMaking(c, Index(i), x, z)
    requires Descend(c, Index(i), x).Some? && PutBack(c, Index(i), x, y).Gives?
    requires Descend(c, Index(j), z).Some? && PutBack(c, Index(j), z, w).Gives?
    ensures Swaps(c, Index(i), Index(j), x, z, y, w)
  {
    hide Zero, FieldAt, Grow, MapLike, Entries, HasField, TypeOf;
    var (e, items) := Grow(c, i, x).value;
    var (e2, items2) := Grow(c, j, z).value;
    GrowBoth(c, i, j, x, z, y);
    GrowBoth(c, j, i, z, x, w);
    var there := Grow(Unwrapped(Arr(e, items[i := y])), j, z).value.1;
    var back := Grow(Unwrapped(Arr(e2, items2[j := w])), i, x).value.1;
    CrossesOver(there, back, items, items2, i, j, y, w);
  }

  lemma CrossesOver(there: seq<Data>, back: seq<Data>, items: seq<Data>, items2: seq<Data>, i: nat, j: nat, y: Data,
                    w: Data)
    requires i < |items| && j < |items2| && i != j && |there| == |back|
    requires |there| == if |items| < |items2| then |items2| else |items|
    requires forall k :: 0 <= k < |items| && k < |items2| ==> items[k] == items2[k]
    requires forall k :: 0 <= k < |there| ==>
      there[k] == if k == i then y else if k < |items2| then items2[k] else items[k]
    requires forall k :: 0 <= k < |back| ==>
      back[k] == if k == j then w else if k < |items| then items[k] else items2[k]
    requires Nil !in items && Nil !in items2 && !y.Nil? && !w.Nil?
    ensures there[j] == items2[j] && back[i] == items[i]
    ensures Nil !in there && Nil !in back && there[j := w] == back[i := y]
  {
  }

  /** Growing for j an array already written at i. */
  lemma GrowBoth(c: Cell, i: nat, j: nat, x: Data, z: Data, y: Data)
    requires Grow(c, i, x).Some? && Grow(c, j, z).Some? && !x.Nil? && !z.Nil? && (c.Invalid? ==> TypeOf(x) == TypeOf(z))
    ensures var (e, items) := Grow(c, i, x).value;
      var (e2, items2) := Grow(c, j, z).value;
      && e == e2 && (forall k :: 0 <= k < |items| && k < |items2| ==> items[k] == items2[k])
      && var again := Grow(Unwrapped(Arr(e, items[i := y])), j, z);
         && again.Some? && again.value.0 == e
         && |again.value.1| == (if |items| < |items2| then |items2| else |items|)
         && forall k :: 0 <= k < |again.value.1| ==>
              again.value.1[k] == if k == i then y else if k < |items2| then items2[k] else items[k]
  {
    hide Zero;
    GrowKeeps(c, i, x);
    GrowKeeps(c, j, z);
  }

  /**
    Writes to disjoint paths commute: if each succeeds on its own and one can follow the other,
    then the other can follow the one, and the data is the same.
   */
  lemma {:induction false} DisjointWritesCommute(c: Cell, p: seq<Access>, q: seq<Access>, x: Data, z: Data)
    requires !x.Nil? && !z.Nil? && Disjoint(p, q) && KeysFit(c, p, x) && AlikeMaking(c, p, q, x, z)
    requires Assign(c, p, x).Gives? && Assign(c, q, z).Gives?
    requires Assign(Unwrapped(Assign(c, p, x).v), q, z).Gives?
    ensures Assign(Unwrapped(Assign(c, q, z).v), p, x) == Assign(Unwrapped(Assign(c, p, x).v), q, z)
    decreases |p|
  {
    hide Descend, PutBack, Swaps, Apart;
    var s := Settle(c);
    AssignParts(c, p, x);
    AssignParts(c, q, z);
    var y := Assign(Descend(s, p[0], x).value, p[1..], x).v;
    var w := Assign(Descend(s, q[0], z).value, q[1..], z).v;
    NotNil(Descend(s, p[0], x).value, p[1..], x);
    NotNil(Descend(s, q[0], z).value, q[1..], z);
    PartPutBack(s, p[0], x, y);
    PartPutBack(s, q[0], z, w);
    var first, second := Unwrapped(PutBack(s, p[0], x, y).v), Unwrapped(PutBack(s, q[0], z, w).v);
    AssignParts(first, q, z);
    AssignParts(second, p, x);
    if p[0] == q[0] {
      var a := p[0];
      PutBackIgnores(s, a, x, z, y);
      PutBackReturns(s, a, x, y, z, q[1..]);
      PutBackReturns(s, a, z, w, x, p[1..]);
      DisjointWritesCommute(Descend(s, a, x).value, p[1..], q[1..], x, z);
      var u := Assign(Unwrapped(y), q[1..], z).v;
      NotNil(Unwrapped(y), q[1..], z);
      PutBackReplaces(s, a, x, y, z, u);
      PutBackReplaces(s, a, z, w, x, u);
      PutBackIgnores(s, a, x, z, u);
    } else {
      ApartSwaps(s, p[0], q[0], x, z, y, w);
      SwapsParts(s, p[0], q[0], x, z, y, w);
    }
  }

  /** What is put back can be told from the container. */
  lemma PutBackTells(c: Cell, a: Access, x: Data, y: Data, w: Data)
    requires Descend(c, a, x).Some? && PutBack(c, a, x, y).Gives? && PutBack(c, a, x, w).Gives?
    requires !y.Nil? && !w.Nil? && PutBack(c, a, x, y) == PutBack(c, a, x, w)
    ensures y == w
  {
    hide Zero, FieldAt;
    match a
    case Index(i) =>
      var items := Grow(c, i, x).value.1;
      assert items[i := y][i] == y && items[i := w][i] == w;
    case Key(k) =>
      if MapLike(c) {
        assert Entries(c)[k := y][k] == y && Entries(c)[k := w][k] == w;
      } else {
        var items := Grow(c, 0, x).value.1;
        assert items[0 := y][0] == y && items[0 := w][0] == w;
      }
    case Member(f) =>
      var at := FieldAt(c.v.types, f).value;
      assert c.v.fields[at := y][at] == y && c.v.fields[at := w][at] == w;
  }

  /** An array made for a value is of that value's type, and stays so under a second write by index. */
  lemma MadeStays(i: int, p: seq<Access>, j: int, q: seq<Access>, x: Data, z: Data)
    requires p != [] && p[0] == Index(i) && q != [] && q[0] == Index(j) && !x.Nil? && !z.Nil?
    requires Assign(Invalid, p, x).Gives? && Assign(Unwrapped(Assign(Invalid, p, x).v), q, z).Gives?
    ensures var w := Assign(Unwrapped(Assign(Invalid, p, x).v), q, z).v; w.Arr? && w.elem == TypeOf(x)
  {
    hide Zero, TypeOf;
    AssignParts(Invalid, p, x);
    var first := Assign(Invalid, p, x).v;
    assert first.Arr? && first.elem == TypeOf(x);
    AssignParts(Unwrapped(first), q, z);
  }

  /** Where the values call for different kinds of array, two writes in one order and the other leave different data. */
  lemma {:induction false} UnlikeMakingDiffers(c: Cell, p: seq<Access>, q: seq<Access>, x: Data, z: Data)
    requires !x.Nil? && !z.Nil? && Disjoint(p, q) && !AlikeMaking(c, p, q, x, z)
    requires Assign(c, p, x).Gives? && Assign(c, q, z).Gives?
    requires Assign(Unwrapped(Assign(c, p, x).v), q, z).Gives? && Assign(Unwrapped(Assign(c, q, z).v), p, x).Gives?
    ensures Assign(Unwrapped(Assign(c, q, z).v), p, x) != Assign(Unwrapped(Assign(c, p, x).v), q, z)
    decreases |p|, 1
  {
    hide Descend, PutBack;
    var s, a := Settle(c), p[0];
    AssignParts(c, p, x);
    AssignParts(c, q, z);
    if !SameMaking(s, a, x, z) {
      assert c == Invalid;
      MadeStays(a.i, p, q[0].i, q, x, z);
      MadeStays(q[0].i, q, a.i, p, z, x);
    } else {
      SharedDiffers(c, p, q, x, z);
    }
  }

  lemma {:induction false} SharedDiffers(c: Cell, p: seq<Access>, q: seq<Access>, x: Data, z: Data)
    requires !x.Nil? && !z.Nil? && Disjoint(p, q) && !AlikeMaking(c, p, q, x, z) && SameMaking(Settle(c), p[0], x, z)
    requires Assign(c, p, x).Gives? && Assign(c, q, z).Gives?
    requires Assign(Unwrapped(Assign(c, p, x).v), q, z).Gives? && Assign(Unwrapped(Assign(c, q, z).v), p, x).Gives?
    ensures Assign(Unwrapped(Assign(c, q, z).v), p, x) != Assign(Unwrapped(Assign(c, p, x).v), q, z)
    decreases |p|, 0
  {
    hide Descend, PutBack, Apart;
    var s, a := Settle(c), p[0];
    AssignParts(c, p, x);
    AssignParts(c, q, z);
    var d := Descend(s, a, x).value;
    var y := Assign(d, p[1..], x).v;
    NotNil(d, p[1..], x);
    PartPutBack(s, a, x, y);
    PutBackIgnores(s, a, x, z, y);
    var w := Assign(d, q[1..], z).v;
    NotNil(d, q[1..], z);
    PartPutBack(s, a, z, w);
    AssignParts(Unwrapped(PutBack(s, a, x, y).v), q, z);
    AssignParts(Unwrapped(PutBack(s, a, z, w).v), p, x);
    PutBackReturns(s, a, x, y, z, q[1..]);
    PutBackReturns(s, a, z, w, x, p[1..]);
    UnlikeMakingDiffers(d, p[1..], q[1..], x, z);
    var u, u' := Assign(Unwrapped(y), q[1..], z).v, Assign(Unwrapped(w), p[1..], x).v;
    NotNil(Unwrapped(y), q[1..], z);
    NotNil(Unwrapped(w), p[1..], x);
    PutBackReplaces(s, a, x, y, z, u);
    PutBackReplaces(s, a, z, w, x, u');
    PutBackIgnores(s, a, x, z, u);
    if PutBack(s, a, x, u) == PutBack(s, a, x, u') {
      PutBackTells(s, a, x, u, u');
    }
  }

  /**
    Exactly when two writes to disjoint paths commute: when no array that the shared part of the
    paths has to make would be of one type for one value and of another for the other.
   */
  lemma CommuteIffAlike(c: Cell, p: seq<Access>, q: seq<Access>, x: Data, z: Data)
    requires !x.Nil? && !z.Nil? && Disjoint(p, q) && KeysFit(c, p, x)
    requires Assign(c, p, x).Gives? && Assign(c, q, z).Gives?
    requires Assign(Unwrapped(Assign(c, p, x).v), q, z).Gives? && Assign(Unwrapped(Assign(c, q, z).v), p, x).Gives?
    ensures Assign(Unwrapped(Assign(c, q, z).v), p, x) == Assign(Unwrapped(Assign(c, p, x).v), q, z)
       <==> AlikeMaking(c, p, q, x, z)
  {
    hide Assign, Disjoint, KeysFit, AlikeMaking;
    if AlikeMaking(c, p, q, x, z) {
      DisjointWritesCommute(c, p, q, x, z);
    } else {
      UnlikeMakingDiffers(c, p, q, x, z);
    }
  }

  lemma SwapsParts(c: Cell, a: Access, b: Access, x: Data, z: Data, y: Data, w: Data)
    requires Descend(c, a, x).Some? && PutBack(c, a, x, y).Gives? && Descend(c, b, z).Some?
    requires PutBack(c, b, z, w).Gives?
    requires Swaps(c, a, b, x, z, y, w)
    ensures var first, second := Unwrapped(PutBack(c, a, x, y).v), Unwrapped(PutBack(c, b, z, w).v);
      && Descend(first, b, z) == Descend(c, b, z) && Descend(second, a, x) == Descend(c, a, x)
      && PutBack(first, b, z, w) == PutBack(second, a, x, y)
  {
    hide Descend, PutBack;
  }

  /** What is put back does not depend on the value the access was made for. */
  lemma PutBackIgnores(c: Cell, a: Access, x: Data, z: Data, u: Data)
    requires Descend(c, a, x).Some? && !x.Nil? && !z.Nil? && SameMaking(c, a, x, z)
    ensures Descend(c, a, z) == Descend(c, a, x) && PutBack(c, a, z, u) == PutBack(c, a, x, u)
  {
    hide Zero;
  }

  /** Going where a write went is writing in the value it left. */
  lemma PutBackReturns(c: Cell, a: Access, x: Data, y: Data, z: Data, path: seq<Access>)
    requires Descend(c, a, x).Some? && PutBack(c, a, x, y).Gives? && !y.Nil? && !x.Nil? && !z.Nil?
    requires SameMaking(c, a, x, z) && path != []
    ensures var again := Unwrapped(PutBack(c, a, x, y).v);
      Descend(again, a, z).Some? && Assign(Descend(again, a, z).value, path, z) == Assign(Unwrapped(y), path, z)
  {
    hide Descend, PutBack, SameMaking, Refills;
    PutBackTwice(c, a, x, y, z, z);
    LeftAssigns(Descend(c, a, x).value, y, Descend(Unwrapped(PutBack(c, a, x, y).v), a, z).value, path, z);
  }

  lemma PutBackReplaces(c: Cell, a: Access, x: Data, y: Data, z: Data, u: Data)
    requires Descend(c, a, x).Some? && PutBack(c, a, x, y).Gives? && !y.Nil? && !u.Nil? && !x.Nil? && !z.Nil?
    requires SameMaking(c, a, x, z)
    ensures var again := Unwrapped(PutBack(c, a, x, y).v);
      Descend(again, a, z).Some? && Descend(c, a, z).Some? && PutBack(again, a, z, u) == PutBack(c, a, z, u)
  {
    hide Descend, PutBack, SameMaking, Refills;
    PutBackTwice(c, a, x, y, z, u);
  }

  function PairOf(f: string, g: string): seq<FieldTy> { [FieldTy(f, TAny), FieldTy(g, TAny)] }

  /** A record put into its own field of a fresh array of records. */
  lemma MakesFirst(f: string, g: string, h: string, x: Data)
    requires f != g && (h == f || h == g) && x == Rec(PairOf(f, g), [Num(0), Num(0)])
    ensures Assign(Invalid, [Index(0), Member(h)], x)
         == Gives(Arr(TypeOf(x), [Rec(PairOf(f, g), if h == f then [x, Nil] else [Nil, x])]))
  {
    var types := PairOf(f, g);
    var blank := Rec(types, [Nil, Nil]);
    assert Zero(TypeOf(x)) == blank by {
      assert Zero(TypeOf(x)).fields == [Nil, Nil];
    }
    assert Zeros(TypeOf(x), 1) == [blank];
    FieldOfPair(f, g, h);
    var d := Held(TypeOf(x), blank);
    AssignParts(d, [Member(h)], x);
    AssignParts(Invalid, [Index(0), Member(h)], x);
    assert [Index(0), Member(h)][1..] == [Member(h)];
    var at := if h == f then 0 else 1;
    assert [Nil, Nil][at := x] == if h == f then [x, Nil] else [Nil, x];
    assert [blank][0 := Rec(types, [Nil, Nil][at := x])] == [Rec(types, [Nil, Nil][at := x])];
  }

  lemma FieldOfPair(f: string, g: string, h: string)
    requires f != g && (h == f || h == g)
    ensures FieldAt(PairOf(f, g), h) == Some(if h == f then 0 else 1)
  {
    assert PairOf(f, g)[1..] == [FieldTy(g, TAny)];
    assert FieldAt([FieldTy(g, TAny)], g) == Some(0);
  }

  /** A field written in the only record of an array. */
  lemma WritesField(f: string, g: string, a: Data, b: Data, h: string, v: Data)
    requires f != g && (h == f || h == g) && !v.Nil?
    ensures var types := PairOf(f, g);
      Assign(Unwrapped(Arr(TRec(types), [Rec(types, [a, b])])), [Index(0), Member(h)], v)
      == Gives(Arr(TRec(types), [Rec(types, if h == f then [v, b] else [a, v])]))
  {
    var types := PairOf(f, g);
    var was := Rec(types, [a, b]);
    FieldOfPair(f, g, h);
    var c := Unwrapped(Arr(TRec(types), [was]));
    AssignParts(Held(TRec(types), was), [Member(h)], v);
    AssignParts(c, [Index(0), Member(h)], v);
    assert [Index(0), Member(h)][1..] == [Member(h)];
    var at := if h == f then 0 else 1;
    assert [a, b][at := v] == if h == f then [v, b] else [a, v];
    assert [was][0 := Rec(types, [a, b][at := v])] == [Rec(types, [a, b][at := v])];
  }

  /**
    Where there is nothing yet, the first of two writes to disjoint paths decides what is made:
    each order succeeds and they leave different data. Hence AlikeMaking.
   */
  lemma MakingShowsOrder()
    ensures var x, z := Rec(PairOf("f", "g"), [Num(0), Num(0)]), Rec(PairOf("g", "f"), [Num(0), Num(0)]);
      var p, q := [Index(0), Member("f")], [Index(0), Member("g")];
      && Disjoint(p, q) && Assign(Invalid, p, x).Gives? && Assign(Invalid, q, z).Gives?
      && Assign(Unwrapped(Assign(Invalid, p, x).v), q, z).Gives?
      && Assign(Unwrapped(Assign(Invalid, q, z).v), p, x) != Assign(Unwrapped(Assign(Invalid, p, x).v), q, z)
  {
    hide Assign;
    var x, z := Rec(PairOf("f", "g"), [Num(0), Num(0)]), Rec(PairOf("g", "f"), [Num(0), Num(0)]);
    assert "f"[0] != "g"[0];
    MakesFirst("f", "g", "f", x);
    MakesFirst("g", "f", "g", z);
    WritesField("f", "g", x, Nil, "g", z);
    WritesField("g", "f", z, Nil, "f", x);
    assert PairOf("f", "g")[0] != PairOf("g", "f")[0];
  }

  // ---------------------------------------------------------------- types

  /** Elements and fields are of the types their containers give them, all the way down. */
  predicate WellTyped(v: Data)
    decreases v
  {
    match v
    case Arr(e, items) => forall i :: 0 <= i < |items| ==> Assignable(e, items[i]) && WellTyped(items[i])
    case Table(entries) => forall k :: k in entries ==> WellTyped(entries[k])
    case Rec(types, fields) =>
      |types| == |fields| && forall i :: 0 <= i < |fields| ==>
        Assignable(types[i].ty, fields[i]) && WellTyped(fields[i])
    case _ => true
  }

  predicate WellTypedAt(c: Cell) { c.Held? ==> WellTyped(c.v) }

  lemma {:induction false} ZeroWellTyped(t: Ty)
    ensures Assignable(t, Zero(t)) && WellTyped(Zero(t))
    decreases t
  {
    if t.TRec? {
      forall i | 0 <= i < |t.fields|
        ensures Assignable(t.fields[i].ty, Zero(t.fields[i].ty)) && WellTyped(Zero(t.fields[i].ty))
      {
        ZeroWellTyped(t.fields[i].ty);
      }
    }
  }

  lemma GrowWellTyped(c: Cell, i: nat, x: Data)
    requires Grow(c, i, x).Some? && WellTypedAt(c)
    ensures var (e, items) := Grow(c, i, x).value; WellTyped(Arr(e, items))
  {
    hide Zero, Grow;
    GrowKeeps(c, i, x);
    ZeroWellTyped(Grow(c, i, x).value.0);
  }

  lemma DescendWellTyped(c: Cell, a: Access, x: Data)
    requires Descend(c, a, x).Some? && WellTypedAt(c)
    ensures WellTypedAt(Descend(c, a, x).value)
  {
    hide Zero, Grow, FieldAt;
    match a
    case Index(i) => GrowWellTyped(c, i, x);
    case Key(_) => if !MapLike(c) { GrowWellTyped(c, 0, x); }
    case Member(_) =>
  }

  lemma PutBackWellTyped(c: Cell, a: Access, x: Data, y: Data)
    requires Descend(c, a, x).Some? && WellTypedAt(c) && WellTyped(y) && PutBack(c, a, x, y).Gives?
    ensures WellTyped(PutBack(c, a, x, y).v)
  {
    hide Zero, Grow, FieldAt;
    match a
    case Index(i) => GrowWellTyped(c, i, x);
    case Key(_) => if !MapLike(c) { GrowWellTyped(c, 0, x); }
    case Member(_) =>
  }

  /** Assignment at any path keeps data well typed, also when it makes containers on the way. */
  lemma {:induction false} AssignKeepsTypes(c: Cell, path: seq<Access>, x: Data)
    requires WellTypedAt(c) && WellTyped(x) && Assign(c, path, x).Gives?
    ensures WellTyped(Assign(c, path, x).v)
    decreases |path|
  {
    hide Descend, PutBack, WellTyped;
    if path == [] {
      ConvertWellTyped(c, x);
    } else {
      AssignParts(c, path, x);
      var s := Settle(c);
      DescendWellTyped(s, path[0], x);
      var d := Descend(s, path[0], x).value;
      AssignKeepsTypes(d, path[1..], x);
      PutBackWellTyped(s, path[0], x, Assign(d, path[1..], x).v);
    }
  }

  lemma ConvertWellTyped(c: Cell, x: Data)
    requires WellTyped(x) && Convert(c, x).Gives?
    ensures WellTyped(Convert(c, x).v)
  {
  }

  // ---------------------------------------------------------------- what []any cannot do

  /** A []any is never grown by an assignment, and one with a nil element cannot be written by index at all. */
  lemma AnyArrayNeverGrows(items: seq<Data>, i: int, path: seq<Access>, x: Data)
    requires path != [] && path[0] == Index(i)
    requires i < 0 || i >= |items| || Nil in items
    ensures Assign(Held(TArr(TAny), Arr(TAny, items)), path, x) == Fails
  {
    hide PutBack;
    var c := Held(TArr(TAny), Arr(TAny, items));
    AssignParts(c, path, x);
    if i >= 0 {
      var grown := Grow(c, i, x).value.1;
      assert Nil in grown by {
        if i >= |items| {
          assert grown[i] == Nil;
        } else {
          assert grown == items;
        }
      }
      NilBlocks(c, i, path, x);
    }
  }

  lemma NilBlocks(c: Cell, i: nat, path: seq<Access>, x: Data)
    requires path != [] && path[0] == Index(i) && Settled(c)
    requires Grow(c, i, x).Some? && Nil in Grow(c, i, x).value.1
    ensures Assign(c, path, x) == Fails
  {
    hide Grow;
    AssignParts(c, path, x);
  }

  /** One index into a []any: written exactly when the element is there and none of them is nil. */
  lemma AnyElementWritableIff(items: seq<Data>, i: int, x: Data)
    requires !x.Nil?
    ensures Assign(Held(TArr(TAny), Arr(TAny, items)), [Index(i)], x)
         == if 0 <= i < |items| && Nil !in items then Gives(Arr(TAny, items[i := x])) else Fails
  {
    var c := Held(TArr(TAny), Arr(TAny, items));
    if 0 <= i < |items| && Nil !in items {
      AssignParts(c, [Index(i)], x);
      assert Assign(Held(TAny, items[i]), [], x) == Gives(x);
    } else {
      AnyArrayNeverGrows(items, i, [Index(i)], x);
    }
  }
}
