/**
  What a write leaves alone when things may be shared: it can be seen only where a reader meets a
  map, or an array a key is used on, that the write works in, with the same key.
 */
module SharedApart {
  import opened Phrases
  import opened NestedData
  import opened NestedLaws
  import opened SharedData
  import opened SharedTrees

  /** What an object holds under an access. */
  function Slot(o: Object, a: Access): Option<Val> {
    match a
    case Index(i) => if o.Listed? && 0 <= i < |o.items| then Some(o.items[i]) else None
    case Key(k) => if o.Keyed? && k in o.entries then Some(o.entries[k]) else None
    case Member(_) => None
  }

  /** The objects and accesses met in reading a path. */
  function Met(h: Heap, v: Val, q: seq<Access>): set<(nat, Access)>
    decreases |q|
  {
    if q == [] then {}
    else (set r | r in Own(v) :: (r, q[0])) + match PartOf(h, v, q[0]) case None => {} case Some(w) => Met(h, w, q[1..])
  }

  /** What a write sets in place for one access. */
  function InPlace(container: Val, a: Access): set<(nat, Access)> {
    if !a.Key? then {}
    else if container.MapRef? then set r | r in Own(container) :: (r, a)
    else set r | r in Own(container) :: (r, Index(0))
  }

  /** What it sets in place on the whole path. */
  function Worked(h: Heap, c: Place, p: seq<Access>, x: Val): set<(nat, Access)>
    decreases |p|
  {
    if p == [] then {}
    else match Enter(h, Taken(c), p[0], x)
      case None => {}
      case Some(e) => InPlace(e.container, p[0]) + Worked(e.heap, e.place, p[1..], x)
  }

  /** Heap h' is h with more objects, and of those of h only what is in u may have been set. */
  ghost predicate Extends(h: Heap, h': Heap, u: set<(nat, Access)>) {
    && |h| <= |h'| && (forall r :: 0 <= r < |h| ==> (h[r].Keyed? <==> h'[r].Keyed?))
    && forall r, a :: 0 <= r < |h| && (r, a) !in u ==> Slot(h'[r], a) == Slot(h[r], a)
  }

  lemma PartIsSlot(h: Heap, v: Val, a: Access)
    requires !v.Struct? && PartOf(h, v, a).Some?
    ensures exists r :: Own(v) == {r} && r < |h| && PartOf(h, v, a) == Slot(h[r], a)
  {
    assert Own(v) == {v.at.value};
  }

  lemma SlotIsPart(h: Heap, v: Val, a: Access, r: nat)
    requires Own(v) == {r} && r < |h| && Slot(h[r], a).Some? && (v.MapRef? <==> a.Key?)
    ensures PartOf(h, v, a) == Slot(h[r], a)
  {
    assert v.at == Some(r) by { assert v.at.value in Own(v); }
  }

  /** A path that meets nothing set reads the same. */
  lemma {:induction false} ReadKept(h: Heap, h': Heap, u: set<(nat, Access)>, v: Val, q: seq<Access>)
    requires Extends(h, h', u) && Met(h, v, q) !! u && Read(h, v, q).Some?
    ensures Read(h', v, q) == Read(h, v, q) && Met(h', v, q) == Met(h, v, q)
    decreases |q|
  {
    if q != [] {
      var w := PartOf(h, v, q[0]).value;
      if !v.Struct? {
        PartIsSlot(h, v, q[0]);
        var r :| Own(v) == {r} && r < |h| && PartOf(h, v, q[0]) == Slot(h[r], q[0]);
        assert (r, q[0]) in Met(h, v, q);
        SlotIsPart(h', v, q[0], r);
      }
      ReadKept(h, h', u, w, q[1..]);
    }
  }

  lemma ExtendsTrans(h: Heap, h1: Heap, h2: Heap, u: set<(nat, Access)>, w: set<(nat, Access)>)
    requires Extends(h, h1, u) && Extends(h1, h2, w)
    ensures Extends(h, h2, u + w)
  {
  }

  lemma ExtendsMore(h: Heap, h1: Heap, u: set<(nat, Access)>, w: set<(nat, Access)>)
    requires Extends(h, h1, u) && u <= w
    ensures Extends(h, h1, w)
  {
  }

  lemma PrefixExtends(h: Heap, h1: Heap)
    requires h <= h1
    ensures Extends(h, h1, {})
  {
  }

  // ---------------------------------------------------------------- the frame of a write

  lemma WidenOnlyAdds(h: Heap, c: Place, i: nat, x: Val)
    ensures Widen(h, c, i, x).Some? ==> h <= Widen(h, c, i, x).value.0
  {
    hide ZeroVal;
    if c.Site? {
      EachOnlyAdds(h, ItemsOf(h, c.v));
    }
  }

  lemma {:induction false} EachOnlyAdds(h: Heap, items: seq<Val>)
    ensures CopyEach(h, items).Some? ==> h <= CopyEach(h, items).value.0
    decreases |items|
  {
    if items != [] {
      var n := |items| - 1;
      EachOnlyAdds(h, items[..n]);
      if CopyEach(h, items[..n]).Some? && !items[n].Empty? {
        CopyOnlyAdds(CopyEach(h, items[..n]).value.0, KindOf(items[n]), items[n]);
      }
    }
  }

  lemma EnterOnlyAdds(h: Heap, c: Place, a: Access, x: Val)
    ensures Enter(h, c, a, x).Some? ==> h <= Enter(h, c, a, x).value.heap
  {
    hide Widen, Copy;
    match a
    case Index(i) => if i >= 0 { WidenOnlyAdds(h, c, i, x); }
    case Key(_) => WidenOnlyAdds(h, c, 0, x);
    case Member(_) => if c.Site? && !c.v.Empty? { CopyOnlyAdds(h, KindOf(c.v), c.v); }
  }

  lemma LeaveExtends(h: Heap, container: Val, a: Access, y: Val)
    ensures Extends(h, Leave(h, container, a, y).0, InPlace(container, a))
  {
    hide CopyEach;
    EachOnlyAdds(h, ItemsOf(h, container));
    if a.Key? && !container.Struct? && Own(container) != {} {
      assert container.at.value in Own(container);
      assert (container.at.value, if container.MapRef? then a else Index(0)) in InPlace(container, a);
    }
  }

  /** A write sets nothing there is but what it works in, whether it succeeds or breaks off. */
  lemma {:induction false} WriteExtends(h: Heap, c: Place, p: seq<Access>, x: Val)
    ensures Extends(h, Write(h, c, p, x).0, Worked(h, c, p, x))
    decreases |p|
  {
    hide Enter, Leave, Slot, InPlace, Extends;
    if p == [] {
      PrefixExtends(h, h);
    } else {
      WriteParts(h, c, p, x);
      var s := Taken(c);
      EnterOnlyAdds(h, s, p[0], x);
      if Enter(h, s, p[0], x).None? {
        PrefixExtends(h, h);
      } else {
        var e := Enter(h, s, p[0], x).value;
        PrefixExtends(h, e.heap);
        WriteExtends(e.heap, e.place, p[1..], x);
        var (h1, r) := Write(e.heap, e.place, p[1..], x);
        var below := Worked(e.heap, e.place, p[1..], x);
        ExtendsTrans(h, e.heap, h1, {}, below);
        if r.Wrote? {
          LeaveExtends(h1, e.container, p[0], r.v);
          ExtendsTrans(h, h1, Leave(h1, e.container, p[0], r.v).0, {} + below, InPlace(e.container, p[0]));
          ExtendsMore(h, Leave(h1, e.container, p[0], r.v).0, {} + below + InPlace(e.container, p[0]),
                      Worked(h, c, p, x));
        } else {
          ExtendsMore(h, h1, {} + below, Worked(h, c, p, x));
        }
      }
    }
  }

  /** Whatever is read, from any value, without meeting what the write works in reads the same after it. */
  lemma ElsewhereUndisturbed(h: Heap, c: Place, p: seq<Access>, x: Val, v: Val, q: seq<Access>)
    requires Read(h, v, q).Some? && Met(h, v, q) !! Worked(h, c, p, x)
    ensures Read(Write(h, c, p, x).0, v, q) == Read(h, v, q)
  {
    WriteExtends(h, c, p, x);
    ReadKept(h, Write(h, c, p, x).0, Worked(h, c, p, x), v, q);
  }

  // ---------------------------------------------------------------- reading copies

  predicate Scalar(v: Val) { v.Number? || v.Text? }

  /** The path leads to a number or a text. */
  predicate Shows(h: Heap, v: Val, q: seq<Access>) { Read(h, v, q).Some? && Scalar(Read(h, v, q).value) }

  /** Cells of objects there are. */
  predicate Within(u: set<(nat, Access)>, h: Heap) { forall c :: c in u ==> c.0 < |h| }

  lemma ExtendsFrom(h: Heap, h1: Heap, h2: Heap, u: set<(nat, Access)>)
    requires h <= h1 && Extends(h1, h2, u)
    ensures Extends(h, h2, u)
  {
  }

  lemma ElementCopied(h: Heap, t: Ty, items: seq<Val>, j: nat)
    requires t.TArr? && j < |items|
    ensures var (h1, v1) := Copy(CopyElements(h, t, items[..j]).0, t.elem, items[j]);
      && h <= CopyElements(h, t, items[..j]).0 && h1 <= CopyElements(h, t, items).0
      && CopyElements(h, t, items).1[j] == v1
    decreases |items|
  {
    hide Copy;
    var n := |items| - 1;
    ElementsOnlyAdd(h, t, items[..j]);
    if j < n {
      ElementCopied(h, t, items[..n], j);
      assert items[..n][..j] == items[..j];
    }
    CopyOnlyAdds(CopyElements(h, t, items[..n]).0, t.elem, items[n]);
  }

  lemma FieldCopied(h: Heap, t: Ty, fields: seq<Val>, j: nat)
    requires t.TRec? && j < |fields|
    ensures h <= CopyFields(h, t, fields[..j]).0
    ensures if j < |t.fields| then
        var (h1, v1) := Copy(CopyFields(h, t, fields[..j]).0, t.fields[j].ty, fields[j]);
        h1 <= CopyFields(h, t, fields).0 && CopyFields(h, t, fields).1[j] == v1
      else h <= CopyFields(h, t, fields).0 && CopyFields(h, t, fields).1[j] == fields[j]
    decreases |fields|
  {
    hide Copy;
    var n := |fields| - 1;
    FieldsOnlyAdd(h, t, fields[..j]);
    FieldsOnlyAdd(h, t, fields);
    if j < n {
      FieldCopied(h, t, fields[..n], j);
      assert fields[..n][..j] == fields[..j];
    }
    if n < |t.fields| {
      CopyOnlyAdds(CopyFields(h, t, fields[..n]).0, t.fields[n].ty, fields[n]);
    }
  }

  lemma EachCopied(h: Heap, items: seq<Val>, j: nat)
    requires j < |items| && CopyEach(h, items).Some?
    ensures CopyEach(h, items[..j]).Some? && !items[j].Empty?
    ensures var h0 := CopyEach(h, items[..j]).value.0;
      var (h1, v1) := Copy(h0, KindOf(items[j]), items[j]);
      h <= h0 && h1 <= CopyEach(h, items).value.0 && CopyEach(h, items).value.1[j] == v1
    decreases |items|
  {
    hide Copy;
    var n := |items| - 1;
    if j < n {
      EachCopied(h, items[..n], j);
      assert items[..n][..j] == items[..j];
    }
    EachOnlyAdds(h, items[..n]);
    CopyOnlyAdds(CopyEach(h, items[..n]).value.0, KindOf(items[n]), items[n]);
  }

  /** A copy shows what was copied, for as long as nothing is set that is met in reading that. */
  lemma {:induction false} CopyReads(h: Heap, t: Ty, v: Val, q: seq<Access>, h': Heap, u: set<(nat, Access)>)
    requires Shows(h, v, q) && Met(h, v, q) !! u && Within(u, h) && Extends(Copy(h, t, v).0, h', u)
    ensures Read(h', Copy(h, t, v).1, q) == Read(h, v, q)
    decreases t
  {
    hide Copy, Extends, Slot;
    CopyOnlyAdds(h, t, v);
    ExtendsFrom(h, Copy(h, t, v).0, h', u);
    ReadKept(h, h', u, v, q);
    if q == [] {
      CopyScalar(h, t, v);
    } else if t.TArr? && v.SliceRef? {
      CopiedArrayReads(h, t, v, q, h', u);
    } else if t.TMap? && v.MapRef? {
      CopiedMapReads(h, v, q, h', u);
    } else if t.TRec? && v.Struct? {
      CopiedStructReads(h, t, v, q, h', u);
    } else {
      CopyNothing(h, t, v);
    }
  }

  lemma CopyScalar(h: Heap, t: Ty, v: Val)
    requires Scalar(v)
    ensures Copy(h, t, v) == (h, v)
  {
  }

  lemma CopyNothing(h: Heap, t: Ty, v: Val)
    requires !(t.TArr? && v.SliceRef?) && !(t.TMap? && v.MapRef?) && !(t.TRec? && v.Struct?)
    ensures Copy(h, t, v) == (h, v)
  {
  }

  lemma CopiedArrayReads(h: Heap, t: Ty, v: Val, q: seq<Access>, h': Heap, u: set<(nat, Access)>)
    requires t.TArr? && v.SliceRef? && q != []
    requires Shows(h, v, q) && Met(h, v, q) !! u && Within(u, h) && Extends(Copy(h, t, v).0, h', u)
    ensures Read(h', Copy(h, t, v).1, q) == Read(h, v, q)
    decreases t, 0
  {
    hide Extends;
    var items, j := ItemsOf(h, v), q[0].i;
    var (h1, copies) := CopyElements(h, t, items);
    ElementsOnlyAdd(h, t, items);
    ElementCopied(h, t, items, j);
    var h0 := CopyElements(h, t, items[..j]).0;
    PrefixExtends(h, h0);
    ReadKept(h, h0, {}, items[j], q[1..]);
    ExtendsFrom(Copy(h0, t.elem, items[j]).0, Copy(h, t, v).0, h', u);
    CopyReads(h0, t.elem, items[j], q[1..], h', u);
    SlotKept(Copy(h, t, v).0, h', u, |h1|, q[0]);
    SlotIsPart(h', Copy(h, t, v).1, q[0], |h1|);
  }

  /** A cell not set holds what it held. */
  lemma SlotKept(h: Heap, h': Heap, u: set<(nat, Access)>, r: nat, a: Access)
    requires Extends(h, h', u) && r < |h| && (r, a) !in u
    ensures r < |h'| && Slot(h'[r], a) == Slot(h[r], a)
  {
  }

  lemma CopiedMapReads(h: Heap, v: Val, q: seq<Access>, h': Heap, u: set<(nat, Access)>)
    requires v.MapRef? && q != []
    requires Shows(h, v, q) && Met(h, v, q) !! u && Within(u, h) && Extends(Copy(h, TMap, v).0, h', u)
    ensures Read(h', Copy(h, TMap, v).1, q) == Read(h, v, q)
  {
    hide Extends;
    var w := PartOf(h, v, q[0]).value;
    var (h1, v1) := Copy(h, TMap, v);
    ExtendsFrom(h, h1, h', u);
    ReadKept(h, h', u, w, q[1..]);
    SlotKept(h1, h', u, |h|, q[0]);
    SlotIsPart(h', v1, q[0], |h|);
  }

  lemma CopiedStructReads(h: Heap, t: Ty, v: Val, q: seq<Access>, h': Heap, u: set<(nat, Access)>)
    requires t.TRec? && v.Struct? && q != []
    requires Shows(h, v, q) && Met(h, v, q) !! u && Within(u, h) && Extends(Copy(h, t, v).0, h', u)
    ensures Read(h', Copy(h, t, v).1, q) == Read(h, v, q)
    decreases t, 0
  {
    hide Extends;
    var j := FieldAt(v.types, q[0].f).value;
    var (h1, copies) := CopyFields(h, t, v.fields);
    FieldCopied(h, t, v.fields, j);
    var h0 := CopyFields(h, t, v.fields[..j]).0;
    PrefixExtends(h, h0);
    ReadKept(h, h0, {}, v.fields[j], q[1..]);
    if j < |t.fields| {
      ExtendsFrom(Copy(h0, t.fields[j].ty, v.fields[j]).0, h1, h', u);
      CopyReads(h0, t.fields[j].ty, v.fields[j], q[1..], h', u);
    } else {
      ExtendsFrom(h, h1, h', u);
      ReadKept(h, h', u, v.fields[j], q[1..]);
    }
  }

  // ---------------------------------------------------------------- two paths from one place

  /**
    After the accesses the paths have in common, q meets nothing that the write at p works in; and
    those in common do not meet the same entry of a map twice. u: what has been met above.
   */
  predicate Clear(h: Heap, c: Place, p: seq<Access>, q: seq<Access>, x: Val, u: set<(nat, Access)>)
    decreases |p|
  {
    && p != [] && q != []
    && match Enter(h, Taken(c), p[0], x)
       case None => true
       case Some(e) =>
         var here := InPlace(e.container, p[0]);
         if p[0] == q[0] then here !! u && Clear(e.heap, e.place, p[1..], q[1..], x, u + here)
         else Apart(p[0], q[0]) && Met(e.heap, e.container, q) !! u + here + Worked(e.heap, e.place, p[1..], x)
  }

  /** The container entered shows what the one found did. */
  lemma EnterReads(h: Heap, c: Place, a: Access, x: Val, q: seq<Access>)
    requires c.Site? && q != [] && Shows(h, c.v, q) && (a == q[0] || Apart(a, q[0])) && Enter(h, c, a, x).Some?
    ensures var e := Enter(h, c, a, x).value; h <= e.heap && Read(e.heap, e.container, q) == Read(h, c.v, q)
    ensures a.Key? ==> Enter(h, c, a, x).value.container == c.v && c.v.MapRef?
    ensures a.Index? ==> Enter(h, c, a, x).value.container.SliceRef?
    ensures a.Member? ==> Enter(h, c, a, x).value.container.Struct?
  {
    hide Copy, CopyEach, ZeroVal, Met, Extends;
    EnterOnlyAdds(h, c, a, x);
    match a
    case Index(i) =>
      if i >= |ItemsOf(h, c.v)| {
        GrownReads(h, c, i, x, q);
      } else {
        assert Enter(h, c, a, x).value.container == c.v;
      }
    case Key(_) =>
    case Member(_) =>
      PrefixExtends(Copy(h, KindOf(c.v), c.v).0, Copy(h, KindOf(c.v), c.v).0);
      CopyReads(h, KindOf(c.v), c.v, q, Copy(h, KindOf(c.v), c.v).0, {});
  }

  lemma GrownReads(h: Heap, c: Place, i: nat, x: Val, q: seq<Access>)
    requires c.Site? && q != [] && Shows(h, c.v, q) && q[0].Index? && i >= |ItemsOf(h, c.v)| && Widen(h, c, i, x).Some?
    ensures var (h1, e, r) := Widen(h, c, i, x).value; Read(h1, SliceRef(e, Some(r)), q) == Read(h, c.v, q)
  {
    hide Copy, ZeroVal, Met, Extends;
    var items, j := ItemsOf(h, c.v), q[0].i;
    var (h1, e, r) := Widen(h, c, i, x).value;
    var (h0, copies) := CopyEach(h, items).value;
    PrefixExtends(h0, h1);
    EachReads(h, items, j, q[1..], h1, {});
    assert ItemsOf(h1, SliceRef(e, Some(r)))[j] == copies[j];
  }

  /** An element copied with the others. */
  lemma EachReads(h: Heap, items: seq<Val>, j: nat, q: seq<Access>, h': Heap, u: set<(nat, Access)>)
    requires j < |items| && CopyEach(h, items).Some? && Shows(h, items[j], q)
    requires Met(h, items[j], q) !! u && Within(u, h) && Extends(CopyEach(h, items).value.0, h', u)
    ensures Read(h', CopyEach(h, items).value.1[j], q) == Read(h, items[j], q)
  {
    hide Copy, Met, Extends, CopyEach;
    EachCopied(h, items, j);
    var h0 := CopyEach(h, items[..j]).value.0;
    PrefixExtends(h, h0);
    ReadKept(h, h0, {}, items[j], q);
    ExtendsFrom(Copy(h0, KindOf(items[j]), items[j]).0, CopyEach(h, items).value.0, h', u);
    CopyReads(h0, KindOf(items[j]), items[j], q, h', u);
  }

  /** The place an access leads to holds the part read there. */
  lemma PlaceHasPart(h: Heap, c: Place, a: Access, x: Val, q: seq<Access>)
    requires c.Site? && |q| >= 1 && q[0] == a && Shows(h, c.v, q) && Enter(h, c, a, x).Some? && (a.Key? ==> c.v.MapRef?)
    ensures var e := Enter(h, c, a, x).value;
      && PartOf(e.heap, e.container, a).Some? && e.place.Site? && e.place.v == PartOf(e.heap, e.container, a).value
  {
    hide CopyFields, CopyEach, ZeroVal, Met, Extends;
    EnterReads(h, c, a, x, q);
    var e := Enter(h, c, a, x).value;
    assert Shows(e.heap, e.container, q);
    if a.Key? {
      EmptyShowsNothing(e.heap, PartOf(e.heap, e.container, a).value, q[1..]);
    }
  }

  lemma EmptyShowsNothing(h: Heap, v: Val, q: seq<Access>)
    requires Shows(h, v, q)
    ensures !v.Empty?
  {
  }

  lemma HereWithin(h: Heap, container: Val, a: Access)
    requires PartOf(h, container, a).Some? && (a.Key? ==> container.MapRef?)
    ensures Within(InPlace(container, a), h) && (a.Key? ==> MapThere(h, container))
  {
  }

  predicate MapThere(h: Heap, v: Val) { v.MapRef? && v.at.Some? && v.at.value < |h| && h[v.at.value].Keyed? }

  lemma StillThere(h: Heap, h1: Heap, u: set<(nat, Access)>, v: Val)
    requires Extends(h, h1, u)
    ensures |h| <= |h1| && (MapThere(h, v) ==> MapThere(h1, v))
  {
  }

  /** What comes out holds y where the access leads. */
  lemma LeaveHolds(h: Heap, container: Val, a: Access, y: Val, h3: Heap, u: set<(nat, Access)>)
    requires Leave(h, container, a, y).1.Wrote? && !y.Empty? && Extends(Leave(h, container, a, y).0, h3, u)
    requires Within(u, h) && (a.Key? ==> MapThere(h, container)) && InPlace(container, a) !! u
    requires a.Index? ==> container.SliceRef?
    ensures PartOf(h3, Leave(h, container, a, y).1.v, a) == Some(y)
  {
    hide CopyEach, Extends;
    var (h1, w) := Leave(h, container, a, y);
    match a
    case Index(i) =>
      EachOnlyAdds(h, ItemsOf(h, container));
      SlotKept(h1, h3, u, |h1| - 1, a);
      SlotIsPart(h3, w.v, a, |h1| - 1);
    case Key(k) =>
      var r := container.at.value;
      assert r in Own(container);
      assert (r, a) in InPlace(container, a);
      SlotKept(h1, h3, u, r, a);
      SlotIsPart(h3, w.v, a, r);
    case Member(f) =>
  }

  /** What comes out shows the other parts as they were. */
  lemma LeaveOthers(h: Heap, container: Val, a: Access, y: Val, q: seq<Access>, h3: Heap, u: set<(nat, Access)>)
    requires Leave(h, container, a, y).1.Wrote? && Extends(Leave(h, container, a, y).0, h3, u) && Within(u, h)
    requires q != [] && Apart(a, q[0]) && Shows(h, container, q) && Met(h, container, q) !! u + InPlace(container, a)
    requires (a.Key? ==> container.MapRef?) && (a.Index? ==> container.SliceRef?)
    ensures Read(h3, Leave(h, container, a, y).1.v, q) == Read(h, container, q)
  {
    hide CopyEach, Extends, Copy;
    var (h1, w) := Leave(h, container, a, y);
    match a
    case Index(i) => OtherElements(h, container, i, y, q, h3, u);
    case Key(k) =>
      LeaveExtends(h, container, a, y);
      ExtendsTrans(h, h1, h3, InPlace(container, a), u);
      ReadKept(h, h3, InPlace(container, a) + u, container, q);
    case Member(f) =>
      assert h1 == h;
      ReadKept(h, h3, u, PartOf(h, container, q[0]).value, q[1..]);
  }

  lemma OtherElements(h: Heap, container: Val, i: int, y: Val, q: seq<Access>, h3: Heap, u: set<(nat, Access)>)
    requires container.SliceRef? && Leave(h, container, Index(i), y).1.Wrote?
    requires Extends(Leave(h, container, Index(i), y).0, h3, u) && Within(u, h)
    requires q != [] && Apart(Index(i), q[0]) && Shows(h, container, q) && Met(h, container, q) !! u
    ensures Read(h3, Leave(h, container, Index(i), y).1.v, q) == Read(h, container, q)
  {
    hide CopyEach, Extends, Copy;
    var (h1, w) := Leave(h, container, Index(i), y);
    var items, j := ItemsOf(h, container), q[0].i;
    EachOnlyAdds(h, items);
    var (h0, copies) := CopyEach(h, items).value;
    ExtendsFrom(h0, h1, h3, u);
    EachReads(h, items, j, q[1..], h3, u);
    assert Slot(h1[|h0|], q[0]) == Some(copies[j]);
    SlotKept(h1, h3, u, |h0|, q[0]);
    SlotIsPart(h3, w.v, q[0], |h0|);
  }

  /**
    A write leaves a number or a text at a disjoint path as it was, whatever is shared, if what the
    two paths meet after they part is different. h3: any heap the heap has become since, with
    nothing set but what was met above.
   */
  lemma {:induction false} SharedUndisturbed(h: Heap, c: Place, p: seq<Access>, q: seq<Access>, x: Val,
                                             u: set<(nat, Access)>, h3: Heap)
    requires c.Site? && Shows(h, c.v, q) && Clear(h, c, p, q, x, u) && Within(u, h)
    requires Write(h, c, p, x).1.Wrote? && Extends(Write(h, c, p, x).0, h3, u)
    ensures Read(h3, Write(h, c, p, x).1.v, q) == Read(h, c.v, q)
    decreases |p|
  {
    hide Write, Enter, Leave, Extends, Met, InPlace, Worked, Within, Slot, PartOf, Apart;
    var s, a := Taken(c), p[0];
    WriteParts(h, c, p, x);
    var e := Enter(h, s, a, x).value;
    EnterReads(h, s, a, x, q);
    var (h2, r) := Write(e.heap, e.place, p[1..], x);
    var (h1, w) := Leave(h2, e.container, a, r.v);
    var here := InPlace(e.container, a);
    WriteExtends(e.heap, e.place, p[1..], x);
    StillThere(e.heap, h2, Worked(e.heap, e.place, p[1..], x), e.container);
    WithinBoth(u, {}, h, h2);
    if a == q[0] {
      PlaceHasPart(h, s, a, x, q);
      LeaveExtends(h2, e.container, a, r.v);
      ExtendsTrans(h2, h1, h3, here, u);
      HereWithin(e.heap, e.container, a);
      assert Within(u + here, e.heap) by { WithinBoth(u, here, h, e.heap); }
      assert here + u == u + here;
      SharedUndisturbed(e.heap, e.place, p[1..], q[1..], x, u + here, h3);
      EmptyShowsNothing(h3, r.v, q[1..]);
      LeaveHolds(h2, e.container, a, r.v, h3, u);
    } else {
      ReadKept(e.heap, h2, Worked(e.heap, e.place, p[1..], x), e.container, q);
      LeaveOthers(h2, e.container, a, r.v, q, h3, u);
    }
  }

  lemma WithinBoth(u: set<(nat, Access)>, w: set<(nat, Access)>, h: Heap, h1: Heap)
    requires Within(u, h) && |h| <= |h1| && Within(w, h1)
    ensures Within(u, h1) && Within(u + w, h1)
  {
  }
}
