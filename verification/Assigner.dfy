/**
  Nested assignment as it runs: arrays grown and copied in loops, maps changed in place, and a
  variable updated at the end.
 */
module Assigner {
  import opened Phrases
  import opened NestedData
  import opened NestedOrder
  import opened SharedData
  import opened SharedTrees
  import opened SharedMeaning
  import opened FirstWrites

  /** A variable as an assignment finds it. */
  class Variable {
    var declared: bool
    var value: Val

    constructor ()
      ensures !declared && value == Empty
    {
      declared, value := false, Empty;
    }
  }

  /** What a variable starts from: a first write through a key or an index makes its container. */
  function Started(h: Heap, declared: bool, value: Val, accesses: seq<Access>): (Heap, Val) {
    if declared || accesses == [] then (h, value)
    else if accesses[0].Key? then (h + [Keyed(map[])], MapRef(Some(|h|)))
    else if accesses[0].Index? then (h + [Listed([])], SliceRef(TAny, Some(|h|)))
    else (h, value)
  }

  /** The value has nothing in it that is found twice. */
  ghost predicate HasTree(h: Heap, x: Val) { exists dx :: Tree(h, x, dx) }

  /** The arrays and maps of a running program. */
  class Memory {
    var heap: Heap

    method Make(o: Object) returns (at: nat)
      modifies this
      ensures heap == old(heap) + [o] && at == |old(heap)|
    {
      at := |heap|;
      heap := heap + [o];
    }

    /** A copy of a value of static type t, as deep as static types go. */
    method Rcopy(t: Ty, original: Val) returns (copied: Val)
      modifies this
      ensures (heap, copied) == Copy(old(heap), t, original)
      decreases t, 1, 0
    {
      match t {
        case TArr(_) =>
          copied := original;
          if original.SliceRef? && original.at.Some? {
            copied := RcopySlice(t, original);
          }
        case TMap =>
          copied := original;
          if original.MapRef? && original.at.Some? {
            var at := Make(Keyed(EntriesOf(heap, original)));
            copied := MapRef(Some(at));
          }
        case TRec(_) =>
          copied := original;
          if original.Struct? {
            copied := RcopyStruct(t, original);
          }
        case _ =>
          copied := original;
      }
    }

    method RcopySlice(t: Ty, original: Val) returns (copied: Val)
      requires t.TArr? && original.SliceRef? && original.at.Some?
      modifies this
      ensures (heap, copied) == Copy(old(heap), t, original)
      decreases t, 0, 0
    {
      var items := ItemsOf(heap, original);
      var copies: seq<Val> := [];
      var i := 0;
      while i < |items|
        invariant i <= |items|
        invariant (heap, copies) == CopyElements(old(heap), t, items[..i])
      {
        var elementCopy := Rcopy(t.elem, items[i]);
        copies := copies + [elementCopy];
        i := i + 1;
        assert items[..i][..i - 1] == items[..i - 1];
      }
      assert items[..i] == items;
      var at := Make(Listed(copies));
      copied := SliceRef(original.elem, Some(at));
    }

    method RcopyStruct(t: Ty, original: Val) returns (copied: Val)
      requires t.TRec? && original.Struct?
      modifies this
      ensures (heap, copied) == Copy(old(heap), t, original)
      decreases t, 0, 0
    {
      var fields := original.fields;
      var copies: seq<Val> := [];
      var i := 0;
      while i < |fields|
        invariant i <= |fields|
        invariant (heap, copies) == CopyFields(old(heap), t, fields[..i])
      {
        var fieldCopy := fields[i];
        if i < |t.fields| {
          fieldCopy := Rcopy(t.fields[i].ty, fields[i]);
        }
        copies := copies + [fieldCopy];
        i := i + 1;
        assert fields[..i][..i - 1] == fields[..i - 1];
      }
      assert fields[..i] == fields;
      copied := Struct(original.types, copies);
    }

    /** A copy of each element; there is no copying a nil one. */
    method CopyItems(items: seq<Val>) returns (ok: bool, copies: seq<Val>)
      modifies this
      ensures ok <==> CopyEach(old(heap), items).Some?
      ensures ok ==> CopyEach(old(heap), items) == Some((heap, copies))
      ensures old(heap) <= heap
    {
      copies := [];
      var i := 0;
      while i < |items|
        invariant i <= |items| && old(heap) <= heap
        invariant CopyEach(old(heap), items[..i]) == Some((heap, copies))
      {
        assert items[..i + 1][..i] == items[..i];
        if items[i].Empty? {
          NoneFromHere(old(heap), items, i + 1);
          return false, [];
        }
        CopyOnlyAdds(heap, KindOf(items[i]), items[i]);
        var copied := Rcopy(KindOf(items[i]), items[i]);
        copies := copies + [copied];
        i := i + 1;
      }
      assert items[..i] == items;
      ok := true;
    }

    /** The array at a place made long enough for the index: its elements copied and fresh ones after them. */
    method GrowSlice(c: Place, index: nat, valueForTyping: Val) returns (ok: bool, elem: Ty, at: nat)
      modifies this
      ensures ok <==> Widen(old(heap), c, index, valueForTyping).Some?
      ensures ok ==> Widen(old(heap), c, index, valueForTyping) == Some((heap, elem, at))
      ensures old(heap) <= heap
    {
      hide ZeroVal, CopyEach;
      if c.Absent? {
        elem := if valueForTyping.Empty? then TAny else KindOf(valueForTyping);
        at := Make(Listed(ZeroVals(elem, index + 1)));
        return true, elem, at;
      }
      if c.v.Empty? || (c.v.MapRef? && |EntriesOf(heap, c.v)| == 0) {
        at := Make(Listed(ZeroVals(TAny, index + 1)));
        return true, TAny, at;
      }
      if !c.v.SliceRef? {
        return false, TAny, 0;
      }
      var items := ItemsOf(heap, c.v);
      if index < |items| {
        return true, c.v.elem, c.v.at.value;
      }
      var copied, copies := CopyItems(items);
      if !copied {
        return false, TAny, 0;
      }
      at := Make(Listed(copies + ZeroVals(c.v.elem, index + 1 - |items|)));
      return true, c.v.elem, at;
    }

    /** What a write came to. One that broke off may leave copies behind that nothing refers to. */
    twostate predicate Came(c: Place, accesses: seq<Access>, valueToSet: Val, r: Written)
      reads this
    {
      var (h, w) := Write(old(heap), c, accesses, valueToSet);
      r == w && h <= heap && (r.Wrote? ==> h == heap)
    }

    /** Writes a value at a path inside a place; maps on the way are changed in place. */
    method RecursiveAssign(c: Place, accesses: seq<Access>, valueToSet: Val) returns (r: Written)
      modifies this
      ensures Came(c, accesses, valueToSet, r)
      decreases |accesses|, if c.Site? && c.ty == TAny then 1 else 0
    {
      hide ZeroVal, CopyEach, Copy, Widen, Accept;
      if accesses == [] {
        return Accept(c, valueToSet);
      }
      WriteParts(heap, c, accesses, valueToSet);
      if c.Site? && c.ty == TAny && !c.v.Empty? {
        r := RecursiveAssign(Site(KindOf(c.v), c.v), accesses, valueToSet);
        return;
      }
      match accesses[0] {
        case Index(i) => r := AssignElement(c, i, accesses, valueToSet);
        case Key(k) =>
          if IsMap(c) {
            r := AssignEntry(c, k, accesses, valueToSet);
          } else {
            r := AssignFirst(c, k, accesses, valueToSet);
          }
        case Member(f) => r := AssignField(c, f, accesses, valueToSet);
      }
    }

    /** An element of an array, in a copy of the array. */
    method AssignElement(c: Place, i: int, accesses: seq<Access>, valueToSet: Val) returns (r: Written)
      requires accesses != [] && accesses[0] == Index(i) && Taken(c) == c
      modifies this
      ensures Came(c, accesses, valueToSet, r)
      decreases |accesses|, 0, 0
    {
      hide ZeroVal, CopyEach, Copy, Widen, Accept;
      WriteParts(heap, c, accesses, valueToSet);
      if i < 0 {
        return Broke;
      }
      var ok, elem, at := GrowSlice(c, i, valueToSet);
      if !ok {
        return Broke;
      }
      var slice := SliceRef(elem, Some(at));
      if i >= |ItemsOf(heap, slice)| {
        return Broke;
      }
      var modified := RecursiveAssign(Site(elem, ItemsOf(heap, slice)[i]), accesses[1..], valueToSet);
      if modified.Broke? {
        return Broke;
      }
      var copied, newSlice := CopyItems(ItemsOf(heap, slice));
      if !copied || modified.v.Empty? || !Fits(elem, modified.v) || i >= |newSlice| {
        return Broke;
      }
      var newAt := Make(Listed(newSlice[i := modified.v]));
      return Wrote(SliceRef(elem, Some(newAt)));
    }

    /** An entry of a map, the map made if there is none; nil takes the entry out. */
    method AssignEntry(c: Place, k: string, accesses: seq<Access>, valueToSet: Val) returns (r: Written)
      requires accesses != [] && accesses[0] == Key(k) && IsMap(c) && Taken(c) == c
      modifies this
      ensures Came(c, accesses, valueToSet, r)
      decreases |accesses|, 0, 0
    {
      hide ZeroVal, CopyEach, Copy, Widen, Accept;
      WriteParts(heap, c, accesses, valueToSet);
      var newContainer := MapRef(None);
      if c.Absent? {
        var at := Make(Keyed(map[]));
        newContainer := MapRef(Some(at));
      } else {
        newContainer := c.v;
      }
      var entries := EntriesOf(heap, newContainer);
      var modified := RecursiveAssign(if k in entries then PlaceOf(entries[k]) else Absent, accesses[1..], valueToSet);
      if modified.Broke? {
        return Broke;
      }
      if newContainer.at.None? {
        return if modified.v.Empty? then Wrote(newContainer) else Broke;
      }
      heap := SetEntry(heap, newContainer.at.value, k, modified.v);
      return Wrote(newContainer);
    }

    /** A key used on an array: its first element, set in place. */
    method AssignFirst(c: Place, k: string, accesses: seq<Access>, valueToSet: Val) returns (r: Written)
      requires accesses != [] && accesses[0] == Key(k) && !IsMap(c) && Taken(c) == c
      modifies this
      ensures Came(c, accesses, valueToSet, r)
      decreases |accesses|, 0, 0
    {
      hide ZeroVal, CopyEach, Copy, Widen, Accept;
      WriteParts(heap, c, accesses, valueToSet);
      var ok, elem, at := GrowSlice(c, 0, valueToSet);
      if !ok {
        return Broke;
      }
      var slice := SliceRef(elem, Some(at));
      if ItemsOf(heap, slice) == [] {
        return Broke;
      }
      var first := ItemsOf(heap, slice)[0];
      var modified := RecursiveAssign(if elem == TAny then PlaceOf(first) else Site(elem, first), accesses[1..],
                                      valueToSet);
      if modified.Broke? || modified.v.Empty? || !Fits(elem, modified.v) {
        return Broke;
      }
      heap := SetItem(heap, at, 0, modified.v);
      return Wrote(slice);
    }

    /** A field of a copy of a struct. */
    method AssignField(c: Place, f: string, accesses: seq<Access>, valueToSet: Val) returns (r: Written)
      requires accesses != [] && accesses[0] == Member(f) && Taken(c) == c
      modifies this
      ensures Came(c, accesses, valueToSet, r)
      decreases |accesses|, 0, 0
    {
      hide ZeroVal, CopyEach, CopyFields, Widen, Accept;
      WriteParts(heap, c, accesses, valueToSet);
      if !HoldsField(c, f) {
        return Broke;
      }
      var at := FieldAt(c.v.types, f).value;
      var tmp := Rcopy(KindOf(c.v), c.v);
      var final := RecursiveAssign(Site(c.v.types[at].ty, tmp.fields[at]), accesses[1..], valueToSet);
      if final.Broke? || final.v.Empty? || !Fits(c.v.types[at].ty, final.v) {
        return Broke;
      }
      return Wrote(Struct(tmp.types, tmp.fields[at := final.v]));
    }

    /** Writes a value at a path inside a variable; the variable itself keeps its value if the write breaks off. */
    method ProcessAssignment(rootVar: Variable, accesses: seq<Access>, valueToSet: Val) returns (ok: bool)
      modifies this, rootVar
      ensures rootVar.declared
      ensures old(rootVar.declared) ==>
        var (h, w) := Write(old(heap), PlaceOf(old(rootVar.value)), accesses, valueToSet);
        && (ok <==> w.Wrote?) && rootVar.value == (if ok then w.v else old(rootVar.value))
        && h <= heap && (ok ==> h == heap)
      ensures !old(rootVar.declared) && accesses != [] && Keys(accesses) && !valueToSet.Empty? ==>
        && ok && rootVar.value == MapRef(Some(|old(heap)|)) && old(heap) <= heap
        && OnlyPath(heap, rootVar.value, accesses, valueToSet)
      ensures !old(rootVar.declared) && accesses != [] && accesses[0].Index? && HasTree(old(heap), valueToSet) ==>
        !ok && rootVar.value == SliceRef(TAny, Some(|old(heap)|))
      ensures !old(rootVar.declared) && old(rootVar.value).Empty? && accesses != [] && accesses[0].Member? ==>
        !ok && rootVar.value == Empty && old(heap) <= heap
      ensures !old(rootVar.declared) && old(rootVar.value).Empty? && accesses == [] ==>
        ok && rootVar.value == valueToSet && heap == old(heap)
      ensures var (h0, start) := Started(old(heap), old(rootVar.declared), old(rootVar.value), accesses);
        var (h, w) := Write(h0, PlaceOf(start), accesses, valueToSet);
        && (ok <==> w.Wrote?) && rootVar.value == (if w.Wrote? then w.v else start)
        && h <= heap && (ok ==> h == heap)
    {
      hide Write, Tree;
      if !rootVar.declared {
        FirstWrite(heap, rootVar.value, accesses, valueToSet);
        rootVar.declared := true;
        if |accesses| > 0 {
          match accesses[0] {
            case Key(_) =>
              var at := Make(Keyed(map[]));
              rootVar.value := MapRef(Some(at));
            case Index(_) =>
              var at := Make(Listed([]));
              rootVar.value := SliceRef(TAny, Some(at));
            case Member(_) =>
          }
        }
      }
      var final := RecursiveAssign(PlaceOf(rootVar.value), accesses, valueToSet);
      ok := final.Wrote?;
      if ok {
        rootVar.value := final.v;
      }
    }
  }

  lemma {:induction false} NoneFromHere(h: Heap, items: seq<Val>, i: nat)
    requires i <= |items| && CopyEach(h, items[..i]).None?
    ensures CopyEach(h, items).None?
    decreases |items| - i
  {
    if i == |items| {
      assert items[..i] == items;
    } else {
      assert items[..i + 1][..i] == items[..i];
      NoneFromHere(h, items, i + 1);
    }
  }

  /** What the first write to a variable comes to. */
  lemma FirstWrite(h: Heap, value: Val, accesses: seq<Access>, x: Val)
    ensures var (h0, start) := Started(h, false, value, accesses);
      var (h1, w) := Write(h0, PlaceOf(start), accesses, x);
      && (accesses != [] && Keys(accesses) && !x.Empty? ==>
            w == Wrote(MapRef(Some(|h|))) && h <= h1 && OnlyPath(h1, w.v, accesses, x))
      && (accesses != [] && accesses[0].Index? && HasTree(h, x) ==>
            w.Broke? && start == SliceRef(TAny, Some(|h|)))
      && (value.Empty? && accesses != [] && accesses[0].Member? ==> w.Broke? && h1 == h && start == Empty)
      && (value.Empty? && accesses == [] ==> w == Wrote(x) && h1 == h)
  {
    hide Write, Tree, OnlyPath;
    if accesses == [] {
      WriteHere(h, x);
    } else if accesses[0].Key? {
      if Keys(accesses) && !x.Empty? {
        FirstKeyedWrite(h, accesses, x);
      }
    } else if accesses[0].Index? {
      if dx :| Tree(h, x, dx) {
        assert accesses == [accesses[0]] + accesses[1..];
        FirstIndexedWriteFails(h, accesses[0].i, accesses[1..], x, dx);
        StartedSame(h, value, accesses);
      }
    } else if value.Empty? {
      WriteParts(h, Absent, accesses, x);
    }
  }

  lemma StartedSame(h: Heap, value: Val, accesses: seq<Access>)
    requires accesses != [] && !accesses[0].Member?
    ensures Started(h, false, value, accesses) == Started(h, false, Empty, accesses)
  {
  }

  /** A variable never assigned before cannot be given its first value through an index here, whatever the index. */
  lemma FirstIndexedWriteFails(h: Heap, i: int, rest: seq<Access>, x: Val, dx: Data)
    requires Tree(h, x, dx)
    ensures var (h0, start) := Started(h, false, Empty, [Index(i)] + rest);
      Write(h0, PlaceOf(start), [Index(i)] + rest, x).1 == Broke
  {
    hide Write, Assign, Tree, Foot;
    var path := [Index(i)] + rest;
    var (h0, start) := Started(h, false, Empty, path);
    ZerosGrove(h, TAny, 0);
    FreshArray(h, TAny, [], []);
    FootInHeap(h, x, dx);
    TreeKept(h, h0, {}, x, dx);
    KindMirrors(h0, start, Arr(TAny, []));
    AnyArrayNeverGrows([], i, path, dx);
    WriteMirrors(h0, PlaceOf(start), Unwrapped(Arr(TAny, [])), path, x, dx);
  }
}
