/**
  Nested data and the assignment to a path inside it. A place that holds a value has a static
  type of its own: an element of a []any is an interface, an element of a []int is an int.
  Data is a tree here, with nothing in it shared; SharedData has it as it is kept.
 */
module NestedData {
  import opened Phrases

  datatype FieldTy = FieldTy(name: string, ty: Ty)

  datatype Ty = TInt | TStr | TAny | TArr(elem: Ty) | TMap | TRec(fields: seq<FieldTy>)

  /** A value; Nil is an empty interface, NilTable a map never made. */
  datatype Data =
    | Nil
    | Num(n: int)
    | Str(s: string)
    | Arr(elem: Ty, items: seq<Data>)
    | Table(entries: map<string, Data>)
    | NilTable
    | Rec(types: seq<FieldTy>, fields: seq<Data>)

  datatype Access = Index(i: int) | Key(k: string) | Member(f: string)

  /** A place met on the way down: none at all, or one of a static type with what it holds. */
  datatype Cell = Invalid | Held(ty: Ty, v: Data)

  datatype AssignResult = Gives(v: Data) | Fails

  function TypeOf(v: Data): (t: Ty)
    requires !v.Nil?
    ensures t != TAny
  {
    match v
    case Num(_) => TInt
    case Str(_) => TStr
    case Arr(e, _) => TArr(e)
    case Table(_) => TMap
    case NilTable => TMap
    case Rec(types, _) => TRec(types)
  }

  /** The place of a value taken out of an interface. */
  function Unwrapped(v: Data): Cell { if v.Nil? then Invalid else Held(TypeOf(v), v) }

  function Zero(t: Ty): Data {
    match t
    case TInt => Num(0)
    case TStr => Str("")
    case TAny => Nil
    case TArr(e) => Arr(e, [])
    case TMap => NilTable
    case TRec(fields) => Rec(fields, seq(|fields|, i requires 0 <= i < |fields| => Zero(fields[i].ty)))
  }

  function Zeros(t: Ty, n: nat): seq<Data> { seq(n, _ => Zero(t)) }

  /** A value fits a place of a type. */
  predicate Assignable(t: Ty, v: Data) { t == TAny || (!v.Nil? && TypeOf(v) == t) }

  /** Where the field of a name is. */
  function FieldAt(types: seq<FieldTy>, f: string): (r: Option<nat>)
    ensures r.Some? ==> r.value < |types| && types[r.value].name == f
  {
    if types == [] then None
    else if types[0].name == f then Some(0)
    else match FieldAt(types[1..], f) case None => None case Some(i) => Some(i + 1)
  }

  // ---------------------------------------------------------------- reading

  function Get(v: Data, path: seq<Access>): Option<Data>
    decreases |path|
  {
    if path == [] then Some(v)
    else match Part(v, path[0])
      case None => None
      case Some(w) => Get(w, path[1..])
  }

  function Part(v: Data, a: Access): Option<Data> {
    match a
    case Index(i) => if v.Arr? && 0 <= i < |v.items| then Some(v.items[i]) else None
    case Key(k) => if v.Table? && k in v.entries then Some(v.entries[k]) else None
    case Member(f) =>
      if v.Rec? && FieldAt(v.types, f).Some? && FieldAt(v.types, f).value < |v.fields|
      then Some(v.fields[FieldAt(v.types, f).value]) else None
  }

  // ---------------------------------------------------------------- growing

  /** The elements of the array at a place once it is made long enough to have index i, and their type. */
  function Grow(c: Cell, i: nat, x: Data): (r: Option<(Ty, seq<Data>)>)
    ensures r.Some? ==> i < |r.value.1|
  {
    match c
    case Invalid => if x.Nil? then Some((TAny, Zeros(TAny, i + 1))) else Some((TypeOf(x), Zeros(TypeOf(x), i + 1)))
    case Held(_, v) =>
      match v
      case Nil => Some((TAny, Zeros(TAny, i + 1)))
      case Arr(e, items) => if i < |items| then Some((e, items)) else Some((e, items + Zeros(e, i + 1 - |items|)))
      case Table(entries) => if |entries| == 0 then Some((TAny, Zeros(TAny, i + 1))) else None
      case NilTable => Some((TAny, Zeros(TAny, i + 1)))
      case _ => None
  }

  // ---------------------------------------------------------------- writing

  /** The value as the place takes it. Conversions between different types are not part of this. */
  function Convert(c: Cell, x: Data): AssignResult {
    match c
    case Invalid => Gives(x)
    case Held(t, _) =>
      if x.Nil? then (if t == TAny || t.TArr? || t == TMap then Gives(Nil) else Fails)
      else if t == TAny || TypeOf(x) == t then Gives(x)
      else Fails
  }

  /** The map at a place, none having been made yet included. */
  predicate MapLike(c: Cell) { c.Invalid? || c.v.Table? || c.v.NilTable? }

  function Entries(c: Cell): map<string, Data>
    requires MapLike(c)
  {
    if c.Held? && c.v.Table? then c.v.entries else map[]
  }

  predicate HasField(c: Cell, f: string) {
    c.Held? && c.v.Rec? && FieldAt(c.v.types, f).Some? && FieldAt(c.v.types, f).value < |c.v.fields|
  }

  /** The place one access leads to. A key used on an array leads to element 0, whatever the key. */
  function Descend(c: Cell, a: Access, x: Data): Option<Cell> {
    match a
    case Index(i) =>
      if i < 0 || Grow(c, i, x).None? then None
      else var (e, items) := Grow(c, i, x).value; Some(Held(e, items[i]))
    case Key(k) =>
      if MapLike(c) then Some(if k in Entries(c) then Unwrapped(Entries(c)[k]) else Invalid)
      else if Grow(c, 0, x).None? then None
      else var (e, items) := Grow(c, 0, x).value; Some(if e == TAny then Unwrapped(items[0]) else Held(e, items[0]))
    case Member(f) =>
      if HasField(c, f) then
        var at := FieldAt(c.v.types, f).value;
        Some(Held(c.v.types[at].ty, c.v.fields[at]))
      else None
  }

  /**
    The container with y put back where the access led. A slice indexed is copied element by
    element, and the copy of a nil element fails; a nil put into a map takes the key away.
   */
  function PutBack(c: Cell, a: Access, x: Data, y: Data): AssignResult
    requires Descend(c, a, x).Some?
  {
    match a
    case Index(i) =>
      var (e, items) := Grow(c, i, x).value;
      if Nil in items || y.Nil? || !Assignable(e, y) then Fails else Gives(Arr(e, items[i := y]))
    case Key(k) =>
      if MapLike(c) then
        if y.Nil? then Gives(if c.Held? && c.v.NilTable? then NilTable else Table(Entries(c) - {k}))
        else if c.Held? && c.v.NilTable? then Fails
        else Gives(Table(Entries(c)[k := y]))
      else
        var (e, items) := Grow(c, 0, x).value;
        if y.Nil? || !Assignable(e, y) then Fails else Gives(Arr(e, items[0 := y]))
    case Member(f) =>
      var at := FieldAt(c.v.types, f).value;
      if y.Nil? || !Assignable(c.v.types[at].ty, y) then Fails else Gives(Rec(c.v.types, c.v.fields[at := y]))
  }

  /** The value at a place with x written at a path inside it. */
  function Assign(c: Cell, path: seq<Access>, x: Data): AssignResult
    decreases |path|, if c.Held? && c.ty == TAny then 1 else 0
  {
    if path == [] then Convert(c, x)
    else if c.Held? && c.ty == TAny && !c.v.Nil? then Assign(Held(TypeOf(c.v), c.v), path, x)
    else
      match Descend(c, path[0], x)
      case None => Fails
      case Some(d) =>
        match Assign(d, path[1..], x)
        case Fails => Fails
        case Gives(y) => PutBack(c, path[0], x, y)
  }

  /** The root variable: a value of any type, none if it is nil. */
  function Root(v: Data): Cell { Unwrapped(v) }
}
