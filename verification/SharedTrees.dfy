/**
  Where nothing is shared, data with references is a tree, and a write to a path in it is the
  assignment on trees: the laws of nested assignment carry over.
 */
module SharedTrees {
  import opened Phrases
  import opened NestedData
  import opened SharedData

  // ---------------------------------------------------------------- trees

  /** The parts of a tree, under a label each. */
  function Labels(d: Data): set<Access> {
    match d
    case Arr(_, items) => set i | 0 <= i < |items| :: Index(i)
    case Table(entries) => set k | k in entries :: Key(k)
    case Rec(_, fields) => set i | 0 <= i < |fields| :: Index(i)
    case _ => {}
  }

  function Sub(d: Data, a: Access): Data
    requires a in Labels(d)
  {
    match d
    case Arr(_, items) => items[a.i]
    case Table(entries) => entries[a.k]
    case Rec(_, fields) => fields[a.i]
  }

  /** What an array or a struct is made of. */
  function Pieces(h: Heap, v: Val): seq<Val> { if v.Struct? then v.fields else ItemsOf(h, v) }

  function Kid(h: Heap, v: Val, a: Access): Val {
    match a
    case Index(i) => if 0 <= i < |Pieces(h, v)| then Pieces(h, v)[i] else Empty
    case Key(k) => if k in EntriesOf(h, v) then EntriesOf(h, v)[k] else Empty
    case Member(_) => Empty
  }

  /** Where the value itself is kept. */
  function Own(v: Val): set<nat> {
    if v.SliceRef? && v.at.Some? then {v.at.value}
    else if v.MapRef? && v.at.Some? then {v.at.value}
    else {}
  }

  /** v is outermost what d is, and has the same parts. */
  predicate Head(h: Heap, v: Val, d: Data) {
    match d
    case Nil => v.Empty?
    case Num(n) => v == Number(n)
    case Str(s) => v == Text(s)
    case Arr(e, items) =>
      && v.SliceRef? && v.elem == e && |ItemsOf(h, v)| == |items|
      && (v.at.Some? ==> v.at.value < |h| && h[v.at.value].Listed?)
    case Table(entries) =>
      && v.MapRef? && v.at.Some? && v.at.value < |h| && h[v.at.value].Keyed?
      && EntriesOf(h, v).Keys == entries.Keys
    case NilTable => v == MapRef(None)
    case Rec(types, fields) => v.Struct? && v.types == types && |v.fields| == |fields|
  }

  /** The objects below v. */
  function Foot(h: Heap, v: Val, d: Data): set<nat>
    decreases d
  {
    Own(v) + set a, r | a in Labels(d) && r in Foot(h, Kid(h, v, a), Sub(d, a)) :: r
  }

  /** v unfolds to d, and no object is met twice on the way. */
  ghost predicate Tree(h: Heap, v: Val, d: Data)
    decreases d
  {
    && Head(h, v, d)
    && (forall a :: a in Labels(d) ==>
          Tree(h, Kid(h, v, a), Sub(d, a)) && Own(v) !! Foot(h, Kid(h, v, a), Sub(d, a)))
    && (forall a, b :: a in Labels(d) && b in Labels(d) && a != b ==>
          Foot(h, Kid(h, v, a), Sub(d, a)) !! Foot(h, Kid(h, v, b), Sub(d, b)))
  }

  lemma TreeKid(h: Heap, v: Val, d: Data, a: Access)
    requires Tree(h, v, d) && a in Labels(d)
    ensures Head(h, v, d) && Tree(h, Kid(h, v, a), Sub(d, a)) && Own(v) !! Foot(h, Kid(h, v, a), Sub(d, a))
    ensures Foot(h, Kid(h, v, a), Sub(d, a)) <= Foot(h, v, d)
  {
  }

  /** Everything below a tree is in the heap. */
  lemma {:induction false} FootInHeap(h: Heap, v: Val, d: Data)
    requires Tree(h, v, d)
    ensures forall r :: r in Foot(h, v, d) ==> r < |h|
    decreases d
  {
    hide Head, Kid, Own;
    forall r | r in Foot(h, v, d)
      ensures r < |h|
    {
      if r in Own(v) {
        OwnInHeap(h, v, d);
      } else {
        var a :| a in Labels(d) && r in Foot(h, Kid(h, v, a), Sub(d, a));
        FootInHeap(h, Kid(h, v, a), Sub(d, a));
      }
    }
  }

  /** Heap h' keeps the objects of h that are not in w. */
  ghost predicate Keeps(h: Heap, h': Heap, w: set<nat>) {
    |h| <= |h'| && forall r :: 0 <= r < |h| && r !in w ==> h'[r] == h[r]
  }

  lemma OwnInHeap(h: Heap, v: Val, d: Data)
    requires Head(h, v, d)
    ensures forall r :: r in Own(v) ==> r < |h|
  {
  }

  /** A tree is unchanged by changes elsewhere. */
  lemma {:induction false} TreeKept(h: Heap, h': Heap, w: set<nat>, v: Val, d: Data)
    requires Tree(h, v, d) && Keeps(h, h', w) && Foot(h, v, d) !! w
    ensures Tree(h', v, d) && Foot(h', v, d) == Foot(h, v, d)
    decreases d
  {
    assert Own(v) <= Foot(h, v, d);
    forall a | a in Labels(d)
      ensures Kid(h', v, a) == Kid(h, v, a) && Tree(h', Kid(h', v, a), Sub(d, a))
      ensures Foot(h', Kid(h', v, a), Sub(d, a)) == Foot(h, Kid(h, v, a), Sub(d, a))
    {
      TreeKid(h, v, d, a);
      TreeKept(h, h', w, Kid(h, v, a), Sub(d, a));
    }
  }

  /** A value whose parts are trees that meet nowhere is a tree. */
  lemma Build(h: Heap, v: Val, d: Data, feet: map<Access, set<nat>>)
    requires Head(h, v, d) && Labels(d) <= feet.Keys
    requires forall a :: a in Labels(d) ==>
      Tree(h, Kid(h, v, a), Sub(d, a)) && Foot(h, Kid(h, v, a), Sub(d, a)) <= feet[a] && Own(v) !! feet[a]
    requires forall a, b :: a in Labels(d) && b in Labels(d) && a != b ==> feet[a] !! feet[b]
    ensures Tree(h, v, d)
    ensures forall r :: r in Foot(h, v, d) ==> r in Own(v) || exists a :: a in Labels(d) && r in feet[a]
  {
    forall r | r in Foot(h, v, d) && r !in Own(v)
      ensures exists a :: a in Labels(d) && r in feet[a]
    {
      var a :| a in Labels(d) && r in Foot(h, Kid(h, v, a), Sub(d, a));
    }
  }

  // ---------------------------------------------------------------- groves

  /** Values that are trees and meet nowhere, one of them left out. */
  ghost predicate Grove(h: Heap, vs: seq<Val>, ds: seq<Data>, but: int) {
    && |vs| == |ds|
    && (forall i :: 0 <= i < |vs| && i != but ==> Tree(h, vs[i], ds[i]))
    && (forall i, j :: 0 <= i < |vs| && 0 <= j < |vs| && i != but && j != but && i != j ==>
          Foot(h, vs[i], ds[i]) !! Foot(h, vs[j], ds[j]))
  }

  function Subs(d: Data): seq<Data> { if d.Arr? then d.items else if d.Rec? then d.fields else [] }

  lemma GroveOf(h: Heap, v: Val, d: Data)
    requires Tree(h, v, d) && (d.Arr? || d.Rec?)
    ensures Grove(h, Pieces(h, v), Subs(d), -1)
    ensures forall i :: 0 <= i < |Subs(d)| ==>
      Own(v) !! Foot(h, Pieces(h, v)[i], Subs(d)[i]) && Foot(h, Pieces(h, v)[i], Subs(d)[i]) <= Foot(h, v, d)
  {
    forall i | 0 <= i < |Subs(d)|
      ensures Tree(h, Pieces(h, v)[i], Subs(d)[i]) && Own(v) !! Foot(h, Pieces(h, v)[i], Subs(d)[i])
      ensures Foot(h, Pieces(h, v)[i], Subs(d)[i]) <= Foot(h, v, d)
    {
      assert Index(i) in Labels(d);
      TreeKid(h, v, d, Index(i));
    }
    forall i, j | 0 <= i < |Subs(d)| && 0 <= j < |Subs(d)| && i != j
      ensures Foot(h, Pieces(h, v)[i], Subs(d)[i]) !! Foot(h, Pieces(h, v)[j], Subs(d)[j])
    {
      assert Index(i) in Labels(d) && Index(j) in Labels(d);
      assert Foot(h, Kid(h, v, Index(i)), Sub(d, Index(i))) !! Foot(h, Kid(h, v, Index(j)), Sub(d, Index(j)));
    }
  }

  lemma OfGrove(h: Heap, v: Val, d: Data)
    requires Head(h, v, d) && (d.Arr? || d.Rec?) && Grove(h, Pieces(h, v), Subs(d), -1)
    requires forall i :: 0 <= i < |Subs(d)| ==> Own(v) !! Foot(h, Pieces(h, v)[i], Subs(d)[i])
    ensures Tree(h, v, d)
    ensures forall r :: r in Foot(h, v, d) ==>
      r in Own(v) || exists i :: 0 <= i < |Subs(d)| && r in Foot(h, Pieces(h, v)[i], Subs(d)[i])
  {
    var feet := map a | a in Labels(d) :: Foot(h, Kid(h, v, a), Sub(d, a));
    forall a | a in Labels(d)
      ensures a.Index? && 0 <= a.i < |Subs(d)|
      ensures Kid(h, v, a) == Pieces(h, v)[a.i] && Sub(d, a) == Subs(d)[a.i]
    {
    }
    Build(h, v, d, feet);
    forall r | r in Foot(h, v, d) && r !in Own(v)
      ensures exists i :: 0 <= i < |Subs(d)| && r in Foot(h, Pieces(h, v)[i], Subs(d)[i])
    {
      var a :| a in Labels(d) && r in feet[a];
      assert r in Foot(h, Pieces(h, v)[a.i], Subs(d)[a.i]);
    }
  }

  lemma GroveKept(h: Heap, h': Heap, vs: seq<Val>, ds: seq<Data>, but: int)
    requires Grove(h, vs, ds, but) && h <= h'
    ensures Grove(h', vs, ds, but)
    ensures forall i :: 0 <= i < |vs| && i != but ==> Foot(h', vs[i], ds[i]) == Foot(h, vs[i], ds[i])
  {
    forall i | 0 <= i < |vs| && i != but
      ensures Tree(h', vs[i], ds[i]) && Foot(h', vs[i], ds[i]) == Foot(h, vs[i], ds[i])
    {
      TreeKept(h, h', {}, vs[i], ds[i]);
    }
  }

  // ---------------------------------------------------------------- copies

  /** The objects of the second value are of the first, or have been made since h. */
  ghost predicate FromOrNew(h: Heap, h': Heap, v: Val, v': Val, d: Data) {
    forall r :: r in Foot(h', v', d) ==> r in Foot(h, v, d) || |h| <= r
  }

  ghost predicate EachFromOrNew(h: Heap, h': Heap, vs: seq<Val>, vs': seq<Val>, ds: seq<Data>, but: int)
    requires |vs| == |vs'| == |ds|
  {
    forall i :: 0 <= i < |vs| && i != but ==> FromOrNew(h, h', vs[i], vs'[i], ds[i])
  }

  /** A copy unfolds to the same data. */
  lemma {:induction false} CopyTree(h: Heap, t: Ty, v: Val, d: Data)
    requires Tree(h, v, d)
    ensures var (h1, v1) := Copy(h, t, v); h <= h1 && Tree(h1, v1, d) && FromOrNew(h, h1, v, v1, d)
    decreases t, 1, 0
  {
    hide Foot, Tree;
    match t
    case TArr(_) =>
      if v.SliceRef? && v.at.Some? {
        assert d.Arr? by { SliceIsArray(h, v, d); }
        GroveOf(h, v, d);
        CopyElementsTree(h, t, ItemsOf(h, v), d.items);
        var (h0, items) := CopyElements(h, t, ItemsOf(h, v));
        NewArray(h, h0, v, items, d);
      }
    case TMap =>
      if v.MapRef? && v.at.Some? {
        CopyMapTree(h, v, d);
      }
    case TRec(_) =>
      if v.Struct? {
        assert d.Rec? by { SliceIsArray(h, v, d); }
        GroveOf(h, v, d);
        CopyFieldsTree(h, t, v.fields, d.fields);
        var (h0, fields) := CopyFields(h, t, v.fields);
        NewStruct(h, h0, v, fields, d);
      }
    case _ =>
  }

  lemma SliceIsArray(h: Heap, v: Val, d: Data)
    requires Tree(h, v, d)
    ensures v.SliceRef? ==> d.Arr? && |ItemsOf(h, v)| == |d.items|
    ensures v.Struct? ==> d.Rec? && |v.fields| == |d.fields|
  {
  }

  /** An array made of copies. */
  lemma NewArray(h: Heap, h1: Heap, v: Val, items: seq<Val>, d: Data)
    requires Tree(h, v, d) && v.SliceRef? && d.Arr? && |items| == |d.items| == |ItemsOf(h, v)| && h <= h1
    requires Grove(h1, items, d.items, -1) && EachFromOrNew(h, h1, ItemsOf(h, v), items, d.items, -1)
    ensures var h2, v2 := h1 + [Listed(items)], SliceRef(v.elem, Some(|h1|));
      Tree(h2, v2, d) && FromOrNew(h, h2, v, v2, d)
  {
    hide Foot, Tree;
    var h2, v2 := h1 + [Listed(items)], SliceRef(v.elem, Some(|h1|));
    assert Head(h2, v2, d) by { SameHead(h, v, d); }
    GroveOf(h, v, d);
    GroveKept(h1, h2, items, d.items, -1);
    BoundGrove(h1, items, d.items, -1);
    OfGrove(h2, v2, d);
    assert Pieces(h2, v2) == items;
  }

  lemma SameHead(h: Heap, v: Val, d: Data)
    requires Tree(h, v, d)
    ensures Head(h, v, d)
  {
  }

  lemma NewStruct(h: Heap, h1: Heap, v: Val, fields: seq<Val>, d: Data)
    requires Tree(h, v, d) && v.Struct? && d.Rec? && |fields| == |d.fields| == |v.fields| && h <= h1
    requires Grove(h1, fields, d.fields, -1) && EachFromOrNew(h, h1, v.fields, fields, d.fields, -1)
    ensures Tree(h1, Struct(v.types, fields), d) && FromOrNew(h, h1, v, Struct(v.types, fields), d)
  {
    hide Foot, Tree;
    assert Head(h1, Struct(v.types, fields), d) by { SameHead(h, v, d); }
    GroveOf(h, v, d);
    OfGrove(h1, Struct(v.types, fields), d);
  }

  lemma CopyMapTree(h: Heap, v: Val, d: Data)
    requires Tree(h, v, d) && v.MapRef? && v.at.Some?
    ensures var h1 := h + [Keyed(EntriesOf(h, v))];
      Tree(h1, MapRef(Some(|h|)), d) && FromOrNew(h, h1, v, MapRef(Some(|h|)), d)
  {
    var h1, v1 := h + [Keyed(EntriesOf(h, v))], MapRef(Some(|h|));
    var feet := map a | a in Labels(d) :: Foot(h, Kid(h, v, a), Sub(d, a));
    forall a | a in Labels(d)
      ensures Tree(h1, Kid(h1, v1, a), Sub(d, a)) && Foot(h1, Kid(h1, v1, a), Sub(d, a)) == feet[a]
      ensures |h| !in feet[a] && feet[a] <= Foot(h, v, d)
    {
      TreeKid(h, v, d, a);
      FootInHeap(h, Kid(h, v, a), Sub(d, a));
      TreeKept(h, h1, {}, Kid(h, v, a), Sub(d, a));
    }
    Build(h1, v1, d, feet);
  }

  lemma BoundGrove(h: Heap, vs: seq<Val>, ds: seq<Data>, but: int)
    requires Grove(h, vs, ds, but)
    ensures forall i, r :: 0 <= i < |vs| && i != but && r in Foot(h, vs[i], ds[i]) ==> r < |h|
  {
    forall i | 0 <= i < |vs| && i != but
      ensures forall r :: r in Foot(h, vs[i], ds[i]) ==> r < |h|
    {
      FootInHeap(h, vs[i], ds[i]);
    }
  }

  /** One more value copied onto those copied before. */
  lemma GroveGrows(h: Heap, h1: Heap, h2: Heap, vs: seq<Val>, ds: seq<Data>, before: seq<Val>, v: Val, but: int)
    requires vs != [] && Grove(h, vs, ds, but) && h <= h1 <= h2
    requires var n := |vs| - 1;
      && |before| == n && Grove(h1, before, ds[..n], but) && EachFromOrNew(h, h1, vs[..n], before, ds[..n], but)
      && (n != but ==> Tree(h2, v, ds[n]) && FromOrNew(h1, h2, vs[n], v, ds[n]))
    ensures Grove(h2, before + [v], ds, but) && EachFromOrNew(h, h2, vs, before + [v], ds, but)
  {
    hide Foot, Tree;
    var n := |vs| - 1;
    var all := before + [v];
    GroveKept(h1, h2, before, ds[..n], but);
    BoundGrove(h1, before, ds[..n], but);
    if n != but {
      TreeKept(h, h1, {}, vs[n], ds[n]);
      FootInHeap(h, vs[n], ds[n]);
    }
    forall i | 0 <= i < |all| && i != but
      ensures Tree(h2, all[i], ds[i]) && FromOrNew(h, h2, vs[i], all[i], ds[i])
    {
      if i < n {
        assert FromOrNew(h, h1, vs[..n][i], before[i], ds[..n][i]);
      }
    }
    forall i, j | 0 <= i < |all| && 0 <= j < |all| && i != but && j != but && i != j
      ensures Foot(h2, all[i], ds[i]) !! Foot(h2, all[j], ds[j])
    {
      if i < n && j < n {
        assert Foot(h2, before[i], ds[..n][i]) !! Foot(h2, before[j], ds[..n][j]);
      } else {
        var k := if i < n then i else j;
        assert FromOrNew(h, h1, vs[..n][k], before[k], ds[..n][k]);
        LastApart(h, h1, h2, vs, ds, before, v, k);
      }
    }
  }

  lemma LastApart(h: Heap, h1: Heap, h2: Heap, vs: seq<Val>, ds: seq<Data>, before: seq<Val>, v: Val, i: nat)
    requires i < |vs| - 1 == |before| && |vs| == |ds|
    requires var n := |vs| - 1;
      && Foot(h, vs[i], ds[i]) !! Foot(h, vs[n], ds[n]) && Foot(h1, vs[n], ds[n]) == Foot(h, vs[n], ds[n])
      && FromOrNew(h, h1, vs[i], before[i], ds[i]) && FromOrNew(h1, h2, vs[n], v, ds[n])
      && Foot(h2, before[i], ds[i]) == Foot(h1, before[i], ds[i])
      && (forall r :: r in Foot(h1, before[i], ds[i]) ==> r < |h1|)
      && (forall r :: r in Foot(h, vs[n], ds[n]) ==> r < |h|)
    ensures Foot(h2, before[i], ds[i]) !! Foot(h2, v, ds[|vs| - 1])
  {
    hide Foot;
  }

  lemma {:induction false} CopyElementsTree(h: Heap, t: Ty, items: seq<Val>, ds: seq<Data>)
    requires t.TArr? && Grove(h, items, ds, -1)
    ensures var (h1, copies) := CopyElements(h, t, items);
      h <= h1 && Grove(h1, copies, ds, -1) && EachFromOrNew(h, h1, items, copies, ds, -1)
    decreases t, 0, |items|
  {
    hide Foot, Tree;
    if items != [] {
      var n := |items| - 1;
      CopyElementsTree(h, t, items[..n], ds[..n]);
      var (h1, before) := CopyElements(h, t, items[..n]);
      TreeKept(h, h1, {}, items[n], ds[n]);
      CopyTree(h1, t.elem, items[n], ds[n]);
      var (h2, v) := Copy(h1, t.elem, items[n]);
      GroveGrows(h, h1, h2, items, ds, before, v, -1);
    }
  }

  lemma {:induction false} CopyFieldsTree(h: Heap, t: Ty, fields: seq<Val>, ds: seq<Data>)
    requires t.TRec? && Grove(h, fields, ds, -1)
    ensures var (h1, copies) := CopyFields(h, t, fields);
      h <= h1 && Grove(h1, copies, ds, -1) && EachFromOrNew(h, h1, fields, copies, ds, -1)
    decreases t, 0, |fields|
  {
    hide Foot, Tree;
    if fields != [] {
      var n := |fields| - 1;
      CopyFieldsTree(h, t, fields[..n], ds[..n]);
      var (h1, before) := CopyFields(h, t, fields[..n]);
      TreeKept(h, h1, {}, fields[n], ds[n]);
      if n < |t.fields| {
        CopyTree(h1, t.fields[n].ty, fields[n], ds[n]);
        var (h2, v) := Copy(h1, t.fields[n].ty, fields[n]);
        GroveGrows(h, h1, h2, fields, ds, before, v, -1);
      } else {
        GroveGrows(h, h1, h1, fields, ds, before, fields[n], -1);
      }
    }
  }

  /** Copies of all the elements, one of which may be no tree any more. */
  lemma {:induction false} CopyEachTree(h: Heap, items: seq<Val>, ds: seq<Data>, but: int)
    requires Grove(h, items, ds, but)
    ensures CopyEach(h, items).Some? <==> Empty !in items
    ensures CopyEach(h, items).Some? ==>
      var (h1, copies) := CopyEach(h, items).value;
      h <= h1 && Grove(h1, copies, ds, but) && EachFromOrNew(h, h1, items, copies, ds, but)
    decreases |items|
  {
    hide Foot, Tree;
    if items != [] {
      var n := |items| - 1;
      CopyEachTree(h, items[..n], ds[..n], but);
      assert items == items[..n] + [items[n]];
      if Empty !in items {
        var (h1, before) := CopyEach(h, items[..n]).value;
        var (h2, v) := Copy(h1, KindOf(items[n]), items[n]);
        if n != but {
          TreeKept(h, h1, {}, items[n], ds[n]);
          CopyTree(h1, KindOf(items[n]), items[n], ds[n]);
        } else {
          CopyOnlyAdds(h1, KindOf(items[n]), items[n]);
        }
        GroveGrows(h, h1, h2, items, ds, before, v, but);
      }
    }
  }

  /** Copying changes nothing there is. */
  lemma {:induction false} CopyOnlyAdds(h: Heap, t: Ty, v: Val)
    ensures h <= Copy(h, t, v).0
    decreases t, 1, 0
  {
    if t.TArr? {
      ElementsOnlyAdd(h, t, ItemsOf(h, v));
    } else if t.TRec? && v.Struct? {
      FieldsOnlyAdd(h, t, v.fields);
    }
  }

  lemma {:induction false} ElementsOnlyAdd(h: Heap, t: Ty, items: seq<Val>)
    requires t.TArr?
    ensures h <= CopyElements(h, t, items).0
    decreases t, 0, |items|
  {
    if items != [] {
      var n := |items| - 1;
      ElementsOnlyAdd(h, t, items[..n]);
      CopyOnlyAdds(CopyElements(h, t, items[..n]).0, t.elem, items[n]);
    }
  }

  lemma {:induction false} FieldsOnlyAdd(h: Heap, t: Ty, fields: seq<Val>)
    requires t.TRec?
    ensures h <= CopyFields(h, t, fields).0
    decreases t, 0, |fields|
  {
    if fields != [] {
      var n := |fields| - 1;
      FieldsOnlyAdd(h, t, fields[..n]);
      if n < |t.fields| {
        CopyOnlyAdds(CopyFields(h, t, fields[..n]).0, t.fields[n].ty, fields[n]);
      }
    }
  }
}
