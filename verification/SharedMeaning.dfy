/** A write to data in which nothing is shared is the assignment on trees. */
module SharedMeaning {
  import opened Phrases
  import opened NestedData
  import opened NestedLaws
  import opened SharedData
  import opened SharedTrees

  ghost predicate Mirrors(h: Heap, c: Place, dc: Cell) {
    || (c.Absent? && dc.Invalid?)
    || (c.Site? && dc.Held? && c.ty == dc.ty && Tree(h, c.v, dc.v))
  }

  function FootAt(h: Heap, c: Place, dc: Cell): set<nat> {
    if c.Site? && dc.Held? then Foot(h, c.v, dc.v) else {}
  }

  lemma KindMirrors(h: Heap, v: Val, d: Data)
    requires Tree(h, v, d)
    ensures v.Empty? <==> d.Nil?
    ensures !v.Empty? ==> KindOf(v) == TypeOf(d)
    ensures Mirrors(h, PlaceOf(v), Unwrapped(d))
    ensures FootAt(h, PlaceOf(v), Unwrapped(d)) == Foot(h, v, d)
  {
  }

  // ---------------------------------------------------------------- fresh values

  lemma {:induction false} ZeroTree(h: Heap, t: Ty)
    ensures Tree(h, ZeroVal(t), Zero(t)) && Foot(h, ZeroVal(t), Zero(t)) == {}
    decreases t
  {
    var v, d := ZeroVal(t), Zero(t);
    forall a | a in Labels(d)
      ensures Tree(h, Kid(h, v, a), Sub(d, a)) && Foot(h, Kid(h, v, a), Sub(d, a)) == {}
    {
      ZeroTree(h, t.fields[a.i].ty);
    }
  }

  lemma ZerosGrove(h: Heap, t: Ty, n: nat)
    ensures Grove(h, ZeroVals(t, n), Zeros(t, n), -1)
    ensures forall i :: 0 <= i < n ==> Foot(h, ZeroVals(t, n)[i], Zeros(t, n)[i]) == {}
  {
    hide Foot, Tree, ZeroVal, Zero;
    ZeroTree(h, t);
  }

  /** An array just made. */
  lemma FreshArray(h: Heap, e: Ty, vs: seq<Val>, ds: seq<Data>)
    requires Grove(h, vs, ds, -1)
    ensures var h1, v := h + [Listed(vs)], SliceRef(e, Some(|h|));
      && Tree(h1, v, Arr(e, ds))
      && forall r :: r in Foot(h1, v, Arr(e, ds)) ==>
        |h| <= r || exists i :: 0 <= i < |vs| && r in Foot(h, vs[i], ds[i])
  {
    hide Foot, Tree;
    var h1, v := h + [Listed(vs)], SliceRef(e, Some(|h|));
    GroveKept(h, h1, vs, ds, -1);
    BoundGrove(h, vs, ds, -1);
    assert Pieces(h1, v) == vs;
    OfGrove(h1, v, Arr(e, ds));
  }

  lemma FreshZeros(h: Heap, e: Ty, n: nat)
    ensures var h1, v := h + [Listed(ZeroVals(e, n))], SliceRef(e, Some(|h|));
      Tree(h1, v, Arr(e, Zeros(e, n))) && forall r :: r in Foot(h1, v, Arr(e, Zeros(e, n))) ==> |h| <= r
  {
    hide Foot, Tree;
    ZerosGrove(h, e, n);
    FreshArray(h, e, ZeroVals(e, n), Zeros(e, n));
  }

  lemma GroveConcat(h: Heap, vs: seq<Val>, ds: seq<Data>, ws: seq<Val>, es: seq<Data>)
    requires Grove(h, vs, ds, -1) && Grove(h, ws, es, -1)
    requires forall i :: 0 <= i < |ws| ==> Foot(h, ws[i], es[i]) == {}
    ensures Grove(h, vs + ws, ds + es, -1)
  {
    hide Foot, Tree;
  }

  /** The objects of v in h1 are those of the place in h, or have been made since. */
  ghost predicate OfPlaceOrNew(h: Heap, h1: Heap, c: Place, dc: Cell, v: Val, d: Data) {
    forall r :: r in Foot(h1, v, d) ==> r in FootAt(h, c, dc) || |h| <= r
  }

  /** An array that would have to be grown and holds a nil. */
  predicate NilGrown(dc: Cell, i: nat) { dc.Held? && dc.v.Arr? && i >= |dc.v.items| && Nil in dc.v.items }

  lemma WidenMirrors(h: Heap, c: Place, dc: Cell, i: nat, x: Val, dx: Data)
    requires Mirrors(h, c, dc) && Tree(h, x, dx)
    ensures Widen(h, c, i, x).Some? <==> Grow(dc, i, dx).Some? && !NilGrown(dc, i)
    ensures Widen(h, c, i, x).Some? ==>
      var (h1, e, r) := Widen(h, c, i, x).value;
      var (e', items) := Grow(dc, i, dx).value;
      && h <= h1 && e == e' && Tree(h1, SliceRef(e, Some(r)), Arr(e, items))
      && OfPlaceOrNew(h, h1, c, dc, SliceRef(e, Some(r)), Arr(e, items))
  {
    hide Foot, Tree, ZeroVal, Zero;
    KindMirrors(h, x, dx);
    match c
    case Absent =>
      FreshZeros(h, if x.Empty? then TAny else KindOf(x), i + 1);
    case Site(_, v) =>
      SameHead(h, v, dc.v);
      match v
      case Empty => FreshZeros(h, TAny, i + 1);
      case MapRef(_) =>
        FreshZeros(h, TAny, i + 1);
        SameSize(h, v, dc.v);
      case SliceRef(e, at) =>
        if i >= |ItemsOf(h, v)| {
          WidenArray(h, v, dc.v, i);
        }
      case _ =>
  }

  lemma SameSize(h: Heap, v: Val, d: Data)
    requires Tree(h, v, d) && v.MapRef?
    ensures |EntriesOf(h, v)| == if d.Table? then |d.entries| else 0
  {
    if d.Table? {
      assert |EntriesOf(h, v).Keys| == |d.entries.Keys|;
    }
  }

  lemma NilsMirror(h: Heap, vs: seq<Val>, ds: seq<Data>)
    requires Grove(h, vs, ds, -1)
    ensures Empty in vs <==> Nil in ds
  {
    forall i | 0 <= i < |vs|
      ensures vs[i] == Empty <==> ds[i] == Nil
    {
      KindMirrors(h, vs[i], ds[i]);
    }
    if Empty in vs {
      var i :| 0 <= i < |vs| && vs[i] == Empty;
      assert ds[i] == Nil;
    }
    if Nil in ds {
      var i :| 0 <= i < |ds| && ds[i] == Nil;
      assert vs[i] == Empty;
    }
  }

  lemma WidenArray(h: Heap, v: Val, d: Data, i: nat)
    requires Tree(h, v, d) && v.SliceRef? && d.Arr? && i >= |ItemsOf(h, v)| == |d.items|
    ensures CopyEach(h, ItemsOf(h, v)).Some? <==> Nil !in d.items
    ensures CopyEach(h, ItemsOf(h, v)).Some? ==>
      var (h1, copies) := CopyEach(h, ItemsOf(h, v)).value;
      var n := i + 1 - |d.items|;
      var h2, v2 := h1 + [Listed(copies + ZeroVals(v.elem, n))], SliceRef(v.elem, Some(|h1|));
      && h <= h2 && Tree(h2, v2, Arr(v.elem, d.items + Zeros(v.elem, n)))
      && forall r :: r in Foot(h2, v2, Arr(v.elem, d.items + Zeros(v.elem, n))) ==> r in Foot(h, v, d) || |h| <= r
  {
    hide Foot, Tree, ZeroVal, Zero;
    GroveOf(h, v, d);
    NilsMirror(h, ItemsOf(h, v), d.items);
    CopyEachTree(h, ItemsOf(h, v), d.items, -1);
    if CopyEach(h, ItemsOf(h, v)).Some? {
      var (h1, copies) := CopyEach(h, ItemsOf(h, v)).value;
      var n := i + 1 - |d.items|;
      ZerosGrove(h1, v.elem, n);
      GroveConcat(h1, copies, d.items, ZeroVals(v.elem, n), Zeros(v.elem, n));
      FreshArray(h1, v.elem, copies + ZeroVals(v.elem, n), d.items + Zeros(v.elem, n));
    }
  }

  // ---------------------------------------------------------------- putting a part back

  function KidFoot(h: Heap, v: Val, d: Data, a: Access): set<nat> {
    if a in Labels(d) then Foot(h, Kid(h, v, a), Sub(d, a)) else {}
  }

  /** What the write below has made: a tree of the objects of the part, of the value, and of new ones. */
  ghost predicate MadeOf(h: Heap, h1: Heap, part: set<nat>, x: set<nat>, y: Val, yd: Data) {
    Tree(h1, y, yd) && forall r :: r in Foot(h1, y, yd) ==> r in part || r in x || |h| <= r
  }

  /** A container with one part replaced, in the heap h3 that h2 has become. */
  lemma Replace(h1: Heap, h2: Heap, h3: Heap, v: Val, d: Data, l: Access, y: Val, yd: Data, v': Val, d': Data,
                x: set<nat>)
    requires Tree(h1, v, d) && Keeps(h1, h2, KidFoot(h1, v, d, l)) && Keeps(h2, h3, Own(v))
    requires MadeOf(h1, h2, KidFoot(h1, v, d, l), x, y, yd) && x !! Foot(h1, v, d)
    requires Head(h3, v', d') && Own(v') <= Own(v) && Labels(d') <= Labels(d) + {l}
    requires forall b :: b in Labels(d') && b != l ==> Kid(h3, v', b) == Kid(h1, v, b) && Sub(d', b) == Sub(d, b)
    requires l in Labels(d') ==> Kid(h3, v', l) == y && Sub(d', l) == yd
    ensures MadeOf(h1, h3, Foot(h1, v, d), x, v', d')
  {
    hide Foot, Tree, KidFoot, Keeps, Head, Kid, Sub, Labels, Own, Pieces, EntriesOf, ItemsOf;
    var feet := map b | b in Labels(d') :: if b == l then Foot(h2, y, yd) else KidFoot(h1, v, d, b);
    forall b | b in Labels(d')
      ensures Tree(h3, Kid(h3, v', b), Sub(d', b)) && Foot(h3, Kid(h3, v', b), Sub(d', b)) == feet[b]
      ensures Own(v) !! feet[b] && forall r :: r in feet[b] ==> r in Foot(h1, v, d) || r in x || |h1| <= r
    {
      KidApart(h1, v, d, b);
      if b == l {
        ReplacedStays(h1, h2, h3, v, d, l, y, yd, x);
      } else {
        OtherStays(h1, h2, h3, v, d, l, b);
      }
    }
    forall b, b' | b in Labels(d') && b' in Labels(d') && b != b'
      ensures feet[b] !! feet[b']
    {
      if b != l && b' != l {
        KidsApart(h1, v, d, b, b');
      } else {
        ReplacedApart(h1, h2, v, d, l, y, yd, x, if b == l then b' else b);
      }
    }
    Build(h3, v', d', feet);
    OwnInFoot(h1, v, d);
  }

  lemma OwnInFoot(h: Heap, v: Val, d: Data)
    requires Tree(h, v, d)
    ensures Own(v) <= Foot(h, v, d) && forall r :: r in Foot(h, v, d) ==> r < |h|
  {
    FootInHeap(h, v, d);
  }

  lemma ReplacedStays(h1: Heap, h2: Heap, h3: Heap, v: Val, d: Data, l: Access, y: Val, yd: Data, x: set<nat>)
    requires Tree(h1, v, d) && Keeps(h1, h2, KidFoot(h1, v, d, l)) && Keeps(h2, h3, Own(v))
    requires MadeOf(h1, h2, KidFoot(h1, v, d, l), x, y, yd) && x !! Foot(h1, v, d)
    ensures Own(v) !! Foot(h2, y, yd) && Tree(h3, y, yd) && Foot(h3, y, yd) == Foot(h2, y, yd)
  {
    hide Foot, Tree, KidFoot, Keeps;
    KidApart(h1, v, d, l);
    OwnInFoot(h1, v, d);
    TreeKept(h2, h3, Own(v), y, yd);
  }

  lemma OtherStays(h1: Heap, h2: Heap, h3: Heap, v: Val, d: Data, l: Access, b: Access)
    requires Tree(h1, v, d) && Keeps(h1, h2, KidFoot(h1, v, d, l)) && Keeps(h2, h3, Own(v))
    requires b in Labels(d) && b != l
    ensures Tree(h3, Kid(h1, v, b), Sub(d, b)) && Foot(h3, Kid(h1, v, b), Sub(d, b)) == KidFoot(h1, v, d, b)
    ensures Own(v) !! KidFoot(h1, v, d, b) && KidFoot(h1, v, d, b) <= Foot(h1, v, d)
  {
    hide Foot, Tree, Keeps;
    KidsApart(h1, v, d, b, l);
    KidApart(h1, v, d, b);
    TreeKid(h1, v, d, b);
    TreeKept(h1, h2, KidFoot(h1, v, d, l), Kid(h1, v, b), Sub(d, b));
    TreeKept(h2, h3, Own(v), Kid(h1, v, b), Sub(d, b));
  }

  lemma ReplacedApart(h1: Heap, h2: Heap, v: Val, d: Data, l: Access, y: Val, yd: Data, x: set<nat>, b: Access)
    requires Tree(h1, v, d) && x !! Foot(h1, v, d) && b != l
    requires MadeOf(h1, h2, KidFoot(h1, v, d, l), x, y, yd)
    ensures Foot(h2, y, yd) !! KidFoot(h1, v, d, b)
  {
    hide Foot, Tree, KidFoot;
    KidsApart(h1, v, d, b, l);
    KidApart(h1, v, d, b);
    OwnInFoot(h1, v, d);
  }

  lemma KidApart(h: Heap, v: Val, d: Data, a: Access)
    requires Tree(h, v, d)
    ensures Own(v) !! KidFoot(h, v, d, a) && KidFoot(h, v, d, a) <= Foot(h, v, d)
  {
    if a in Labels(d) {
      TreeKid(h, v, d, a);
    }
  }

  lemma KidsApart(h: Heap, v: Val, d: Data, a: Access, b: Access)
    requires Tree(h, v, d) && a != b
    ensures KidFoot(h, v, d, a) !! KidFoot(h, v, d, b)
  {
  }

  // ---------------------------------------------------------------- going in

  /** The container a write works in, as a tree. */
  function Box(dc: Cell, a: Access, dx: Data): Data
    requires Descend(dc, a, dx).Some?
  {
    match a
    case Index(i) => Arr(Grow(dc, i, dx).value.0, Grow(dc, i, dx).value.1)
    case Key(k) =>
      if !MapLike(dc) then Arr(Grow(dc, 0, dx).value.0, Grow(dc, 0, dx).value.1)
      else if dc.Held? then dc.v
      else Table(map[])
    case Member(f) => dc.v
  }

  /** The label of the part it leads to. */
  function Spot(dc: Cell, a: Access, dx: Data): Access
    requires Descend(dc, a, dx).Some?
  {
    match a
    case Index(_) => a
    case Key(_) => if MapLike(dc) then a else Index(0)
    case Member(f) => Index(FieldAt(dc.v.types, f).value)
  }

  ghost predicate EntersAs(h: Heap, c: Place, dc: Cell, e: Entered, d: Cell, box: Data, spot: Access) {
    && h <= e.heap && Tree(e.heap, e.container, box) && OfPlaceOrNew(h, e.heap, c, dc, e.container, box)
    && Mirrors(e.heap, e.place, d) && FootAt(e.heap, e.place, d) == KidFoot(e.heap, e.container, box, spot)
  }

  lemma EnterMirrors(h: Heap, c: Place, dc: Cell, a: Access, x: Val, dx: Data)
    requires Mirrors(h, c, dc) && Tree(h, x, dx)
    ensures Enter(h, c, a, x).Some? ==>
      && Descend(dc, a, dx).Some?
      && EntersAs(h, c, dc, Enter(h, c, a, x).value, Descend(dc, a, dx).value, Box(dc, a, dx), Spot(dc, a, dx))
    ensures Enter(h, c, a, x).None? && Descend(dc, a, dx).Some? ==> a.Index? && a.i >= 0 && NilGrown(dc, a.i)
  {
    hide Foot, Tree, EntersAs;
    match a
    case Index(i) => if i >= 0 { EnterArray(h, c, dc, a, i, x, dx); }
    case Key(k) =>
      if c.Absent? {
        EnterNewMap(h, dc, k, x, dx);
      } else {
        SameHead(h, c.v, dc.v);
        if c.v.MapRef? {
          EnterMap(h, c, dc, k, x, dx);
        } else {
          EnterArray(h, c, dc, a, 0, x, dx);
        }
      }
    case Member(f) =>
      if c.Site? {
        SameHead(h, c.v, dc.v);
        if HoldsField(c, f) {
          EnterStruct(h, c, dc, f, x, dx);
        }
      }
  }

  lemma EnterArray(h: Heap, c: Place, dc: Cell, a: Access, i: nat, x: Val, dx: Data)
    requires Mirrors(h, c, dc) && Tree(h, x, dx)
    requires a == Index(i) || (a.Key? && i == 0 && !MapLike(dc) && !c.Absent? && !c.v.MapRef?)
    ensures Enter(h, c, a, x).Some? ==>
      && Descend(dc, a, dx).Some?
      && EntersAs(h, c, dc, Enter(h, c, a, x).value, Descend(dc, a, dx).value, Box(dc, a, dx), Spot(dc, a, dx))
    ensures Enter(h, c, a, x).None? && Descend(dc, a, dx).Some? ==> a.Index? && NilGrown(dc, i)
  {
    hide Foot, Tree, Widen, Grow;
    WidenMirrors(h, c, dc, i, x, dx);
    if Widen(h, c, i, x).Some? {
      var (h1, e, r) := Widen(h, c, i, x).value;
      var items := Grow(dc, i, dx).value.1;
      ArrayPart(h1, SliceRef(e, Some(r)), Arr(e, items), i);
    }
  }

  lemma ArrayPart(h: Heap, v: Val, d: Data, i: nat)
    requires Tree(h, v, d) && v.SliceRef? && d.Arr? && i < |d.items|
    ensures i < |ItemsOf(h, v)| == |d.items| && v.elem == d.elem
    ensures Tree(h, ItemsOf(h, v)[i], d.items[i])
    ensures Mirrors(h, PlaceOf(ItemsOf(h, v)[i]), Unwrapped(d.items[i]))
    ensures KidFoot(h, v, d, Index(i)) == Foot(h, ItemsOf(h, v)[i], d.items[i])
    ensures FootAt(h, PlaceOf(ItemsOf(h, v)[i]), Unwrapped(d.items[i])) == KidFoot(h, v, d, Index(i))
  {
    hide Foot, Tree;
    SameHead(h, v, d);
    GroveOf(h, v, d);
    KindMirrors(h, ItemsOf(h, v)[i], d.items[i]);
    assert Index(i) in Labels(d);
  }

  lemma EnterNewMap(h: Heap, dc: Cell, k: string, x: Val, dx: Data)
    requires dc.Invalid?
    ensures Enter(h, Absent, Key(k), x).Some? && Descend(dc, Key(k), dx).Some?
    ensures EntersAs(h, Absent, dc, Enter(h, Absent, Key(k), x).value, Descend(dc, Key(k), dx).value,
                     Box(dc, Key(k), dx), Spot(dc, Key(k), dx))
  {
    var h1, v := h + [Keyed(map[])], MapRef(Some(|h|));
    assert Labels(Table(map[])) == {};
    assert EntriesOf(h1, v) == map[];
    assert Head(h1, v, Table(map[]));
    assert Foot(h1, v, Table(map[])) == {|h|};
  }

  lemma EnterMap(h: Heap, c: Place, dc: Cell, k: string, x: Val, dx: Data)
    requires Mirrors(h, c, dc) && c.Site? && c.v.MapRef?
    ensures MapLike(dc) && Enter(h, c, Key(k), x).Some? && Descend(dc, Key(k), dx).Some?
    ensures EntersAs(h, c, dc, Enter(h, c, Key(k), x).value, Descend(dc, Key(k), dx).value,
                     Box(dc, Key(k), dx), Spot(dc, Key(k), dx))
  {
    hide Foot, Tree;
    SameHead(h, c.v, dc.v);
    if k in EntriesOf(h, c.v) {
      assert Key(k) in Labels(dc.v);
      TreeKid(h, c.v, dc.v, Key(k));
      KindMirrors(h, EntriesOf(h, c.v)[k], dc.v.entries[k]);
    } else {
      assert Key(k) !in Labels(dc.v);
    }
  }

  lemma EnterStruct(h: Heap, c: Place, dc: Cell, f: string, x: Val, dx: Data)
    requires Mirrors(h, c, dc) && c.Site? && HoldsField(c, f)
    ensures Enter(h, c, Member(f), x).Some? && Descend(dc, Member(f), dx).Some?
    ensures EntersAs(h, c, dc, Enter(h, c, Member(f), x).value, Descend(dc, Member(f), dx).value,
                     Box(dc, Member(f), dx), Spot(dc, Member(f), dx))
  {
    hide Foot, Tree;
    SameHead(h, c.v, dc.v);
    CopyTree(h, KindOf(c.v), c.v, dc.v);
    var (h1, s) := Copy(h, KindOf(c.v), c.v);
    SameHead(h1, s, dc.v);
    var at := FieldAt(c.v.types, f).value;
    assert Index(at) in Labels(dc.v);
    TreeKid(h1, s, dc.v, Index(at));
  }

  // ---------------------------------------------------------------- coming out

  /** What a write makes of the container is what the assignment makes of it. */
  ghost predicate LeavesAs(h1: Heap, h2: Heap, v: Val, box: Data, x: set<nat>, r: (Heap, Written), p: AssignResult) {
    && Keeps(h2, r.0, Own(v)) && (r.1.Wrote? <==> p.Gives?)
    && (r.1.Wrote? ==> MadeOf(h1, r.0, Foot(h1, v, box), x, r.1.v, p.v))
  }

  lemma LeaveMap(h1: Heap, h2: Heap, v: Val, dc: Cell, k: string, y: Val, yd: Data, x: set<nat>, dx: Data)
    requires MapLike(dc) && v.MapRef? && Tree(h1, v, Box(dc, Key(k), dx))
    requires Keeps(h1, h2, KidFoot(h1, v, Box(dc, Key(k), dx), Key(k))) && x !! Foot(h1, v, Box(dc, Key(k), dx))
    requires MadeOf(h1, h2, KidFoot(h1, v, Box(dc, Key(k), dx), Key(k)), x, y, yd)
    ensures LeavesAs(h1, h2, v, Box(dc, Key(k), dx), x, Leave(h2, v, Key(k), y), PutBack(dc, Key(k), dx, yd))
  {
    hide Foot, Tree, KidFoot;
    var d := Box(dc, Key(k), dx);
    SameHead(h1, v, d);
    KindMirrors(h2, y, yd);
    if v.at.Some? {
      OwnKept(h1, h2, v, d, Key(k));
      var r := v.at.value;
      var h3 := SetEntry(h2, r, k, y);
      var d' := PutBack(dc, Key(k), dx, yd).v;
      assert Entries(dc) == d.entries;
      assert Head(h3, v, d');
      forall b | b in Labels(d') && b != Key(k)
        ensures b in Labels(d) && Kid(h3, v, b) == Kid(h1, v, b) && Sub(d', b) == Sub(d, b)
      {
      }
      Replace(h1, h2, h3, v, d, Key(k), y, yd, v, d', x);
    } else {
      Nothing(h2, v, d);
    }
  }

  lemma Nothing(h: Heap, v: Val, d: Data)
    requires v == MapRef(None) && d == NilTable
    ensures Tree(h, v, d) && Foot(h, v, d) == {}
  {
  }

  lemma OwnKept(h1: Heap, h2: Heap, v: Val, d: Data, l: Access)
    requires Tree(h1, v, d) && Keeps(h1, h2, KidFoot(h1, v, d, l))
    ensures forall r :: r in Own(v) ==> r < |h1| && h2[r] == h1[r]
  {
    hide Foot, Tree, KidFoot;
    KidApart(h1, v, d, l);
    OwnInFoot(h1, v, d);
  }

  lemma LeaveArrayInPlace(h1: Heap, h2: Heap, v: Val, dc: Cell, k: string, y: Val, yd: Data, x: set<nat>, dx: Data)
    requires !MapLike(dc) && Descend(dc, Key(k), dx).Some? && v.SliceRef? && v.at.Some?
    requires Tree(h1, v, Box(dc, Key(k), dx))
    requires Keeps(h1, h2, KidFoot(h1, v, Box(dc, Key(k), dx), Index(0))) && x !! Foot(h1, v, Box(dc, Key(k), dx))
    requires MadeOf(h1, h2, KidFoot(h1, v, Box(dc, Key(k), dx), Index(0)), x, y, yd)
    ensures LeavesAs(h1, h2, v, Box(dc, Key(k), dx), x, Leave(h2, v, Key(k), y), PutBack(dc, Key(k), dx, yd))
  {
    hide Foot, Tree, KidFoot, Grow;
    var d := Box(dc, Key(k), dx);
    SameHead(h1, v, d);
    KindMirrors(h2, y, yd);
    OwnKept(h1, h2, v, d, Index(0));
    if PutBack(dc, Key(k), dx, yd).Gives? {
      var h3 := SetItem(h2, v.at.value, 0, y);
      var d' := Arr(d.elem, d.items[0 := yd]);
      assert ItemsOf(h3, v) == ItemsOf(h1, v)[0 := y];
      assert Head(h3, v, d');
      forall b | b in Labels(d') && b != Index(0)
        ensures b in Labels(d) && Kid(h3, v, b) == Kid(h1, v, b) && Sub(d', b) == Sub(d, b)
      {
      }
      Replace(h1, h2, h3, v, d, Index(0), y, yd, v, d', x);
    }
  }

  lemma LeaveStruct(h1: Heap, h2: Heap, v: Val, dc: Cell, f: string, y: Val, yd: Data, x: set<nat>, dx: Data)
    requires Descend(dc, Member(f), dx).Some? && v.Struct? && Tree(h1, v, dc.v)
    requires Keeps(h1, h2, KidFoot(h1, v, dc.v, Spot(dc, Member(f), dx))) && x !! Foot(h1, v, dc.v)
    requires MadeOf(h1, h2, KidFoot(h1, v, dc.v, Spot(dc, Member(f), dx)), x, y, yd)
    ensures LeavesAs(h1, h2, v, dc.v, x, Leave(h2, v, Member(f), y), PutBack(dc, Member(f), dx, yd))
  {
    hide Foot, Tree, KidFoot;
    var d := dc.v;
    SameHead(h1, v, d);
    KindMirrors(h2, y, yd);
    var at := FieldAt(d.types, f).value;
    if PutBack(dc, Member(f), dx, yd).Gives? {
      var v', d' := Struct(v.types, v.fields[at := y]), Rec(d.types, d.fields[at := yd]);
      assert Head(h2, v', d');
      forall b | b in Labels(d') && b != Index(at)
        ensures b in Labels(d) && Kid(h2, v', b) == Kid(h1, v, b) && Sub(d', b) == Sub(d, b)
      {
      }
      Replace(h1, h2, h2, v, d, Index(at), y, yd, v', d', x);
    }
  }

  lemma LeaveArrayCopied(h1: Heap, h2: Heap, v: Val, dc: Cell, i: nat, y: Val, yd: Data, x: set<nat>, dx: Data)
    requires Descend(dc, Index(i), dx).Some? && v.SliceRef? && Tree(h1, v, Box(dc, Index(i), dx))
    requires Keeps(h1, h2, KidFoot(h1, v, Box(dc, Index(i), dx), Index(i))) && x !! Foot(h1, v, Box(dc, Index(i), dx))
    requires MadeOf(h1, h2, KidFoot(h1, v, Box(dc, Index(i), dx), Index(i)), x, y, yd)
    ensures LeavesAs(h1, h2, v, Box(dc, Index(i), dx), x, Leave(h2, v, Index(i), y), PutBack(dc, Index(i), dx, yd))
  {
    hide Foot, Tree, KidFoot, Grow, CopyEach;
    var d := Box(dc, Index(i), dx);
    SameHead(h1, v, d);
    KindMirrors(h2, y, yd);
    OwnKept(h1, h2, v, d, Index(i));
    assert ItemsOf(h2, v) == ItemsOf(h1, v);
    GroveOf(h1, v, d);
    NilsMirror(h1, ItemsOf(h1, v), d.items);
    OthersGrove(h1, h2, v, d, i);
    CopyEachTree(h2, ItemsOf(h2, v), d.items, i);
    if CopyEach(h2, ItemsOf(h2, v)).Some? {
      var (h3, copies) := CopyEach(h2, ItemsOf(h2, v)).value;
      if PutBack(dc, Index(i), dx, yd).Gives? {
        CopiesWith(h1, h2, h3, v, d, i, copies, y, yd, x);
      }
    }
  }

  lemma OthersGrove(h1: Heap, h2: Heap, v: Val, d: Data, i: nat)
    requires Tree(h1, v, d) && v.SliceRef? && d.Arr? && i < |d.items| && Keeps(h1, h2, KidFoot(h1, v, d, Index(i)))
    ensures Grove(h2, ItemsOf(h1, v), d.items, i)
    ensures forall j :: 0 <= j < |d.items| && j != i ==>
      && j < |ItemsOf(h1, v)| && Foot(h2, ItemsOf(h1, v)[j], d.items[j]) == KidFoot(h1, v, d, Index(j))
  {
    hide Foot, Tree, KidFoot;
    SameHead(h1, v, d);
    GroveOf(h1, v, d);
    forall j | 0 <= j < |d.items| && j != i
      ensures Tree(h2, ItemsOf(h1, v)[j], d.items[j])
      ensures Foot(h2, ItemsOf(h1, v)[j], d.items[j]) == Foot(h1, ItemsOf(h1, v)[j], d.items[j]) ==
        KidFoot(h1, v, d, Index(j))
    {
      ArrayPart(h1, v, d, j);
      KidsApart(h1, v, d, Index(i), Index(j));
      TreeKept(h1, h2, KidFoot(h1, v, d, Index(i)), ItemsOf(h1, v)[j], d.items[j]);
    }
  }

  /** The copies with y among them. */
  lemma CopiesWith(h1: Heap, h2: Heap, h3: Heap, v: Val, d: Data, i: nat, copies: seq<Val>, y: Val, yd: Data,
                   x: set<nat>)
    requires Tree(h1, v, d) && v.SliceRef? && d.Arr? && i < |d.items| == |ItemsOf(h1, v)| && h2 <= h3
    requires Keeps(h1, h2, KidFoot(h1, v, d, Index(i))) && x !! Foot(h1, v, d)
    requires MadeOf(h1, h2, KidFoot(h1, v, d, Index(i)), x, y, yd)
    requires Grove(h3, copies, d.items, i) && EachFromOrNew(h2, h3, ItemsOf(h1, v), copies, d.items, i)
    ensures MadeOf(h1, h3 + [Listed(copies[i := y])], Foot(h1, v, d), x, SliceRef(v.elem, Some(|h3|)),
                   Arr(v.elem, d.items[i := yd]))
  {
    hide Foot, Tree, KidFoot;
    OthersGrove(h1, h2, v, d, i);
    FootInHeap(h2, y, yd);
    TreeKept(h2, h3, {}, y, yd);
    var vs, ds := copies[i := y], d.items[i := yd];
    forall j | 0 <= j < |vs| && j != i
      ensures Tree(h3, vs[j], ds[j]) && Foot(h3, vs[j], ds[j]) !! Foot(h3, y, yd)
      ensures forall r :: r in Foot(h3, vs[j], ds[j]) ==> r in Foot(h1, v, d) || |h1| <= r
    {
      assert FromOrNew(h2, h3, ItemsOf(h1, v)[j], copies[j], d.items[j]);
      ReplacedApart(h1, h2, v, d, Index(i), y, yd, x, Index(j));
      KidApart(h1, v, d, Index(j));
    }
    KidApart(h1, v, d, Index(i));
    FreshArray(h3, v.elem, vs, ds);
  }

  // ---------------------------------------------------------------- the whole write

  /** The write came to what the assignment comes to, from the objects of the place, of the value, and new ones. */
  ghost predicate MirroredBy(h: Heap, c: Place, dc: Cell, x: set<nat>, r: (Heap, Written), p: AssignResult) {
    && Keeps(h, r.0, FootAt(h, c, dc)) && (r.1.Wrote? <==> p.Gives?)
    && (r.1.Wrote? ==> MadeOf(h, r.0, FootAt(h, c, dc), x, r.1.v, p.v))
  }

  /** Going in, writing below and coming out again. */
  lemma InAndOut(h: Heap, c: Place, dc: Cell, e: Entered, d: Cell, box: Data, spot: Access, h2: Heap, x: set<nat>,
                 r: (Heap, Written), p: AssignResult)
    requires EntersAs(h, c, dc, e, d, box, spot) && Keeps(e.heap, h2, FootAt(e.heap, e.place, d))
    ensures Keeps(h, h2, FootAt(h, c, dc))
    ensures LeavesAs(e.heap, h2, e.container, box, x, r, p) ==> MirroredBy(h, c, dc, x, r, p)
  {
    hide Foot, Tree, KidFoot;
    KidApart(e.heap, e.container, box, spot);
    OwnInFoot(e.heap, e.container, box);
  }

  lemma AcceptMirrors(h: Heap, c: Place, dc: Cell, x: Val, dx: Data)
    requires Mirrors(h, c, dc) && Tree(h, x, dx)
    ensures MirroredBy(h, c, dc, Foot(h, x, dx), Write(h, c, [], x), Assign(dc, [], dx))
  {
    hide Foot, Tree;
    KindMirrors(h, x, dx);
  }

  lemma LeaveMirrors(h1: Heap, h2: Heap, v: Val, dc: Cell, a: Access, y: Val, yd: Data, x: set<nat>, dx: Data)
    requires Descend(dc, a, dx).Some? && Tree(h1, v, Box(dc, a, dx)) && x !! Foot(h1, v, Box(dc, a, dx))
    requires Keeps(h1, h2, KidFoot(h1, v, Box(dc, a, dx), Spot(dc, a, dx)))
    requires MadeOf(h1, h2, KidFoot(h1, v, Box(dc, a, dx), Spot(dc, a, dx)), x, y, yd)
    ensures LeavesAs(h1, h2, v, Box(dc, a, dx), x, Leave(h2, v, a, y), PutBack(dc, a, dx, yd))
  {
    hide Foot, Tree, KidFoot, Leave, PutBack, LeavesAs;
    SameHead(h1, v, Box(dc, a, dx));
    match a
    case Index(i) => LeaveArrayCopied(h1, h2, v, dc, i, y, yd, x, dx);
    case Key(k) =>
      if MapLike(dc) {
        LeaveMap(h1, h2, v, dc, k, y, yd, x, dx);
      } else {
        LeaveArrayInPlace(h1, h2, v, dc, k, y, yd, x, dx);
      }
    case Member(f) => LeaveStruct(h1, h2, v, dc, f, y, yd, x, dx);
  }

  lemma NilGrownFails(dc: Cell, a: Access, path: seq<Access>, dx: Data)
    requires path != [] && path[0] == a && a.Index? && a.i >= 0 && NilGrown(dc, a.i) && Settled(dc)
    ensures Assign(dc, path, dx) == Fails
  {
    hide Zero;
    AssignParts(dc, path, dx);
    var items := Grow(dc, a.i, dx).value.1;
    var j :| 0 <= j < |dc.v.items| && dc.v.items[j] == Nil;
    assert items[j] == Nil;
  }

  /**
    A write to unshared data gives what the assignment on trees gives, and again unshared; it fails
    exactly when that fails, and changes no object from outside the data it is made in.
   */
  lemma {:induction false} WriteMirrors(h: Heap, c: Place, dc: Cell, path: seq<Access>, x: Val, dx: Data)
    requires Mirrors(h, c, dc) && Tree(h, x, dx) && Foot(h, x, dx) !! FootAt(h, c, dc)
    ensures MirroredBy(h, c, dc, Foot(h, x, dx), Write(h, c, path, x), Assign(dc, path, dx))
    decreases |path|
  {
    hide Foot, Tree, Descend, PutBack, Enter, Leave, Box, Spot, KidFoot, Assign, Write, LeavesAs, Keeps, MadeOf;
    if path == [] {
      AcceptMirrors(h, c, dc, x, dx);
    } else {
      var s, ds, a := Taken(c), Settle(dc), path[0];
      BareMirrors(h, c, dc);
      WriteParts(h, c, path, x);
      AssignParts(dc, path, dx);
      EnterMirrors(h, s, ds, a, x, dx);
      if Enter(h, s, a, x).None? {
        Unchanged(h, FootAt(h, c, dc));
        if Descend(ds, a, dx).Some? {
          NilGrownFails(ds, a, path, dx);
          AssignParts(ds, path, dx);
        }
      } else {
        var e := Enter(h, s, a, x).value;
        var d, box, spot := Descend(ds, a, dx).value, Box(ds, a, dx), Spot(ds, a, dx);
        ValueApart(h, s, ds, e, d, box, spot, x, dx);
        WriteMirrors(e.heap, e.place, d, path[1..], x, dx);
        var (h2, w) := Write(e.heap, e.place, path[1..], x);
        if w.Wrote? {
          var yd := Assign(d, path[1..], dx).v;
          LeaveMirrors(e.heap, h2, e.container, ds, a, w.v, yd, Foot(h, x, dx), dx);
          InAndOut(h, s, ds, e, d, box, spot, h2, Foot(h, x, dx), Leave(h2, e.container, a, w.v),
                   PutBack(ds, a, dx, yd));
        } else {
          InAndOut(h, s, ds, e, d, box, spot, h2, Foot(h, x, dx), (h2, Broke), Fails);
        }
      }
    }
  }

  lemma BareMirrors(h: Heap, c: Place, dc: Cell)
    requires Mirrors(h, c, dc)
    ensures Mirrors(h, Taken(c), Settle(dc)) && FootAt(h, Taken(c), Settle(dc)) == FootAt(h, c, dc)
    ensures Settled(Settle(dc))
  {
    hide Foot, Tree;
    if c.Site? {
      KindMirrors(h, c.v, dc.v);
    }
  }

  lemma Unchanged(h: Heap, w: set<nat>)
    ensures Keeps(h, h, w)
  {
  }

  /** The value to be written stays apart from the container entered. */
  lemma ValueApart(h: Heap, c: Place, dc: Cell, e: Entered, d: Cell, box: Data, spot: Access, x: Val, dx: Data)
    requires EntersAs(h, c, dc, e, d, box, spot) && Tree(h, x, dx) && Foot(h, x, dx) !! FootAt(h, c, dc)
    ensures Tree(e.heap, x, dx) && Foot(e.heap, x, dx) == Foot(h, x, dx)
    ensures Foot(h, x, dx) !! Foot(e.heap, e.container, box) && Foot(h, x, dx) !! FootAt(e.heap, e.place, d)
  {
    hide Foot, Tree, KidFoot;
    FootInHeap(h, x, dx);
    TreeKept(h, e.heap, {}, x, dx);
    KidApart(e.heap, e.container, box, spot);
  }
}
