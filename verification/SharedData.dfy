/**
  Nested data as it is kept: maps and arrays are references, so one of them can be found at two
  places, and a write that reaches a map changes it in place. A struct is a value. Arrays indexed
  are copied, structs are copied before they are entered, and a copy goes as deep as static types
  go: what an interface holds is shared by the copy.
 */
module SharedData {
  import opened Phrases
  import opened NestedData

  /** at: where the array or the map is; none for one never made. */
  datatype Val =
    | Empty
    | Number(n: int)
    | Text(s: string)
    | SliceRef(elem: Ty, at: Option<nat>)
    | MapRef(at: Option<nat>)
    | Struct(types: seq<FieldTy>, fields: seq<Val>)

  datatype Object = Keyed(entries: map<string, Val>) | Listed(items: seq<Val>)

  type Heap = seq<Object>

  datatype Place = Absent | Site(ty: Ty, v: Val)

  datatype Written = Wrote(v: Val) | Broke

  function KindOf(v: Val): (t: Ty)
    requires !v.Empty?
    ensures t != TAny
  {
    match v
    case Number(_) => TInt
    case Text(_) => TStr
    case SliceRef(e, _) => TArr(e)
    case MapRef(_) => TMap
    case Struct(types, _) => TRec(types)
  }

  function PlaceOf(v: Val): Place { if v.Empty? then Absent else Site(KindOf(v), v) }

  function ZeroVal(t: Ty): Val {
    match t
    case TInt => Number(0)
    case TStr => Text("")
    case TAny => Empty
    case TArr(e) => SliceRef(e, None)
    case TMap => MapRef(None)
    case TRec(fields) => Struct(fields, seq(|fields|, i requires 0 <= i < |fields| => ZeroVal(fields[i].ty)))
  }

  function ZeroVals(t: Ty, n: nat): seq<Val> { seq(n, _ => ZeroVal(t)) }

  predicate Fits(t: Ty, v: Val) { t == TAny || (!v.Empty? && KindOf(v) == t) }

  function ItemsOf(h: Heap, v: Val): seq<Val> {
    if v.SliceRef? && v.at.Some? && v.at.value < |h| && h[v.at.value].Listed? then h[v.at.value].items else []
  }

  function EntriesOf(h: Heap, v: Val): map<string, Val> {
    if v.MapRef? && v.at.Some? && v.at.value < |h| && h[v.at.value].Keyed? then h[v.at.value].entries else map[]
  }

  // ---------------------------------------------------------------- reading

  function PartOf(h: Heap, v: Val, a: Access): Option<Val> {
    match a
    case Index(i) => if 0 <= i < |ItemsOf(h, v)| then Some(ItemsOf(h, v)[i]) else None
    case Key(k) => if k in EntriesOf(h, v) then Some(EntriesOf(h, v)[k]) else None
    case Member(f) =>
      if v.Struct? && FieldAt(v.types, f).Some? && FieldAt(v.types, f).value < |v.fields|
      then Some(v.fields[FieldAt(v.types, f).value]) else None
  }

  function Read(h: Heap, v: Val, path: seq<Access>): Option<Val>
    decreases |path|
  {
    if path == [] then Some(v)
    else match PartOf(h, v, path[0])
      case None => None
      case Some(w) => Read(h, w, path[1..])
  }

  // ---------------------------------------------------------------- copying

  /** A copy of a value of static type t. */
  function Copy(h: Heap, t: Ty, v: Val): (Heap, Val)
    decreases t, 1, 0
  {
    match t
    case TArr(_) =>
      if v.SliceRef? && v.at.Some? then
        var (h1, items) := CopyElements(h, t, ItemsOf(h, v));
        (h1 + [Listed(items)], SliceRef(v.elem, Some(|h1|)))
      else (h, v)
    case TMap =>
      if v.MapRef? && v.at.Some? then (h + [Keyed(EntriesOf(h, v))], MapRef(Some(|h|))) else (h, v)
    case TRec(_) =>
      if v.Struct? then
        var (h1, fields) := CopyFields(h, t, v.fields);
        (h1, Struct(v.types, fields))
      else (h, v)
    case _ => (h, v)
  }

  function CopyElements(h: Heap, t: Ty, items: seq<Val>): (r: (Heap, seq<Val>))
    requires t.TArr?
    ensures |r.1| == |items|
    decreases t, 0, |items|
  {
    if items == [] then (h, [])
    else
      var (h1, before) := CopyElements(h, t, items[..|items| - 1]);
      var (h2, v) := Copy(h1, t.elem, items[|items| - 1]);
      (h2, before + [v])
  }

  function CopyFields(h: Heap, t: Ty, fields: seq<Val>): (r: (Heap, seq<Val>))
    requires t.TRec?
    ensures |r.1| == |fields|
    decreases t, 0, |fields|
  {
    if fields == [] then (h, [])
    else
      var n := |fields| - 1;
      var (h1, before) := CopyFields(h, t, fields[..n]);
      if n < |t.fields| then
        var (h2, v) := Copy(h1, t.fields[n].ty, fields[n]);
        (h2, before + [v])
      else (h1, before + [fields[n]])
  }

  /** Copies of the elements of an array, each as the value it is; there is no copying a nil one. */
  function CopyEach(h: Heap, items: seq<Val>): (r: Option<(Heap, seq<Val>)>)
    ensures r.Some? ==> |r.value.1| == |items|
    decreases |items|
  {
    if items == [] then Some((h, []))
    else
      var last := items[|items| - 1];
      match CopyEach(h, items[..|items| - 1])
      case None => None
      case Some((h1, before)) =>
        if last.Empty? then None
        else
          var (h2, v) := Copy(h1, KindOf(last), last);
          Some((h2, before + [v]))
  }

  // ---------------------------------------------------------------- one access

  /** The array at a place once it has index i: the heap, the type of its elements, and where it is. */
  function Widen(h: Heap, c: Place, i: nat, x: Val): Option<(Heap, Ty, nat)> {
    match c
    case Absent =>
      var e := if x.Empty? then TAny else KindOf(x);
      Some((h + [Listed(ZeroVals(e, i + 1))], e, |h|))
    case Site(_, v) =>
      match v
      case Empty => Some((h + [Listed(ZeroVals(TAny, i + 1))], TAny, |h|))
      case SliceRef(e, at) =>
        var items := ItemsOf(h, v);
        if i < |items| then Some((h, e, at.value))
        else
          (match CopyEach(h, items)
           case None => None
           case Some((h1, copies)) => Some((h1 + [Listed(copies + ZeroVals(e, i + 1 - |items|))], e, |h1|)))
      case MapRef(_) =>
        if |EntriesOf(h, v)| == 0 then Some((h + [Listed(ZeroVals(TAny, i + 1))], TAny, |h|)) else None
      case _ => None
  }

  /** The value as the place takes it. */
  function Accept(c: Place, x: Val): Written {
    match c
    case Absent => Wrote(x)
    case Site(t, _) =>
      if x.Empty? then (if t == TAny || t.TArr? || t == TMap then Wrote(Empty) else Broke)
      else if t == TAny || KindOf(x) == t then Wrote(x)
      else Broke
  }

  predicate IsMap(c: Place) { c.Absent? || c.v.MapRef? }

  predicate HoldsField(c: Place, f: string) {
    c.Site? && c.v.Struct? && FieldAt(c.v.types, f).Some? && FieldAt(c.v.types, f).value < |c.v.fields|
  }

  /** The container a write works in, made, grown or copied, and the place the access leads to in it. */
  datatype Entered = Entered(heap: Heap, container: Val, place: Place)

  function Enter(h: Heap, c: Place, a: Access, x: Val): Option<Entered> {
    match a
    case Index(i) =>
      if i < 0 then None
      else
        (match Widen(h, c, i, x)
         case None => None
         case Some((h1, e, r)) =>
           var s := SliceRef(e, Some(r));
           if i < |ItemsOf(h1, s)| then Some(Entered(h1, s, Site(e, ItemsOf(h1, s)[i]))) else None)
    case Key(k) =>
      if c.Absent? then Some(Entered(h + [Keyed(map[])], MapRef(Some(|h|)), Absent))
      else if c.v.MapRef? then
        Some(Entered(h, c.v, if k in EntriesOf(h, c.v) then PlaceOf(EntriesOf(h, c.v)[k]) else Absent))
      else
        (match Widen(h, c, 0, x)
         case None => None
         case Some((h1, e, r)) =>
           var s := SliceRef(e, Some(r));
           if 0 < |ItemsOf(h1, s)| then
             Some(Entered(h1, s, if e == TAny then PlaceOf(ItemsOf(h1, s)[0]) else Site(e, ItemsOf(h1, s)[0])))
           else None)
    case Member(f) =>
      if HoldsField(c, f) then
        var (h1, s) := Copy(h, KindOf(c.v), c.v);
        var at := FieldAt(c.v.types, f).value;
        if s.Struct? && at < |s.fields| then Some(Entered(h1, s, Site(c.v.types[at].ty, s.fields[at]))) else None
      else None
  }

  /** The map at r with y at k, or without k if y is nil. */
  function SetEntry(h: Heap, r: nat, k: string, y: Val): Heap {
    if r < |h| && h[r].Keyed? then h[r := Keyed(if y.Empty? then h[r].entries - {k} else h[r].entries[k := y])] else h
  }

  function SetItem(h: Heap, r: nat, i: nat, y: Val): Heap {
    if r < |h| && h[r].Listed? && i < |h[r].items| then h[r := Listed(h[r].items[i := y])] else h
  }

  /** The container with y where the access led. */
  function Leave(h: Heap, container: Val, a: Access, y: Val): (Heap, Written) {
    match a
    case Index(i) =>
      (match CopyEach(h, ItemsOf(h, container))
       case None => (h, Broke)
       case Some((h1, items)) =>
         if y.Empty? || !container.SliceRef? || !Fits(container.elem, y) || !(0 <= i < |items|) then (h1, Broke)
         else (h1 + [Listed(items[i := y])], Wrote(SliceRef(container.elem, Some(|h1|)))))
    case Key(k) =>
      if container.MapRef? then
        if container.at.Some? then (SetEntry(h, container.at.value, k, y), Wrote(container))
        else if y.Empty? then (h, Wrote(container))
        else (h, Broke)
      else if y.Empty? || !container.SliceRef? || container.at.None? || !Fits(container.elem, y) then (h, Broke)
      else (SetItem(h, container.at.value, 0, y), Wrote(container))
    case Member(f) =>
      if !HoldsField(Site(TAny, container), f) then (h, Broke)
      else
        var at := FieldAt(container.types, f).value;
        if y.Empty? || at >= |container.types| || !Fits(container.types[at].ty, y) then (h, Broke)
        else (h, Wrote(Struct(container.types, container.fields[at := y])))
  }

  /** Writes x at a path inside the place. What a write that breaks off has done by then stays done. */
  function Write(h: Heap, c: Place, path: seq<Access>, x: Val): (Heap, Written)
    decreases |path|, if c.Site? && c.ty == TAny then 1 else 0
  {
    if path == [] then (h, Accept(c, x))
    else if c.Site? && c.ty == TAny && !c.v.Empty? then Write(h, Site(KindOf(c.v), c.v), path, x)
    else
      match Enter(h, c, path[0], x)
      case None => (h, Broke)
      case Some(e) =>
        var (h1, r) := Write(e.heap, e.place, path[1..], x);
        if r.Broke? then (h1, Broke) else Leave(h1, e.container, path[0], r.v)
  }

  /** A place with its interface taken off. */
  function Taken(c: Place): Place { if c.Site? && c.ty == TAny && !c.v.Empty? then Site(KindOf(c.v), c.v) else c }

  /** One level of a write. */
  lemma WriteParts(h: Heap, c: Place, path: seq<Access>, x: Val)
    requires path != []
    ensures Write(h, c, path, x) ==
      match Enter(h, Taken(c), path[0], x)
      case None => (h, Broke)
      case Some(e) =>
        var (h1, r) := Write(e.heap, e.place, path[1..], x);
        if r.Broke? then (h1, Broke) else Leave(h1, e.container, path[0], r.v)
  {
    hide Enter, Leave;
  }
}
