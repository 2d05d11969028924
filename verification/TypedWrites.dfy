/**
  Writes through typed arrays and structs: exactly when one succeeds, whether it finds its element
  there or has to grow the array, and what a grown array holds.
 */
module TypedWrites {
  import opened Phrases
  import opened NestedData
  import opened NestedLaws
  import opened NestedOrder

  /** A fresh value of a type: zero, the empty text, nil, an empty array, no map, or a struct of fresh fields. */
  predicate Fresh(t: Ty, d: Data)
    decreases t
  {
    match t
    case TInt => d == Num(0)
    case TStr => d == Str("")
    case TAny => d == Nil
    case TArr(e) => d == Arr(e, [])
    case TMap => d == NilTable
    case TRec(fields) =>
      && d.Rec? && d.types == fields && |d.fields| == |fields|
      && forall i :: 0 <= i < |fields| ==> Fresh(fields[i].ty, d.fields[i])
  }

  lemma {:induction false} ZeroIsFresh(t: Ty)
    ensures Fresh(t, Zero(t))
    decreases t
  {
    if t.TRec? {
      forall i | 0 <= i < |t.fields|
        ensures Fresh(t.fields[i].ty, Zero(t.fields[i].ty))
      {
        ZeroIsFresh(t.fields[i].ty);
      }
    }
  }

  /** The type of the field of a name, the first of them if there are several. */
  function TypeNamed(fields: seq<FieldTy>, f: string): Option<Ty> {
    if fields == [] then None
    else if fields[0].name == f then Some(fields[0].ty)
    else TypeNamed(fields[1..], f)
  }

  /** The type of the place a path leads to: none past a negative index, a field there is not, or a scalar. */
  function LeadsTo(t: Ty, p: seq<Access>): Option<Ty>
    decreases |p|
  {
    if p == [] then Some(t)
    else match p[0]
      case Index(i) => if i >= 0 && t.TArr? then LeadsTo(t.elem, p[1..]) else None
      case Member(f) =>
        if t.TRec? && TypeNamed(t.fields, f).Some? then LeadsTo(TypeNamed(t.fields, f).value, p[1..]) else None
      case Key(_) => None
  }

  /** No key and no interface is met before the end of the path: every place on it has a type of its own. */
  predicate Static(t: Ty, p: seq<Access>)
    decreases |p|
  {
    p != [] ==>
      && !p[0].Key? && t != TAny
      && (p[0].Index? && t.TArr? ==> t.elem != TAny && Static(t.elem, p[1..]))
      && (p[0].Member? && t.TRec? && TypeNamed(t.fields, p[0].f).Some? ==>
            Static(TypeNamed(t.fields, p[0].f).value, p[1..]))
  }

  /** The path leads somewhere, and the value is of the type there, or that is an interface. */
  predicate CanTake(t: Ty, p: seq<Access>, x: Data)
    requires !x.Nil?
  {
    LeadsTo(t, p).Some? && (LeadsTo(t, p).value == TAny || LeadsTo(t, p).value == TypeOf(x))
  }

  lemma {:induction false} FieldOfName(types: seq<FieldTy>, f: string)
    ensures FieldAt(types, f).Some? <==> TypeNamed(types, f).Some?
    ensures FieldAt(types, f).Some? ==> TypeNamed(types, f).value == types[FieldAt(types, f).value].ty
  {
    if types != [] && types[0].name != f {
      FieldOfName(types[1..], f);
    }
  }

  lemma ConvertIff(t: Ty, v: Data, x: Data)
    requires !x.Nil?
    ensures Assign(Held(t, v), [], x) == if t == TAny || TypeOf(x) == t then Gives(x) else Fails
  {
  }

  /** An array of a type that is no interface, grown, has no nil in it. */
  lemma GrownHasNoNil(t: Ty, v: Data, i: nat, x: Data)
    requires t.TArr? && t.elem != TAny && Assignable(t, v) && WellTyped(v)
    ensures Grow(Held(t, v), i, x).Some?
    ensures var (e, items) := Grow(Held(t, v), i, x).value;
      e == t.elem && i < |items| && Nil !in items && Assignable(e, items[i]) && WellTyped(items[i])
  {
    hide Zero;
    GrowKeeps(Held(t, v), i, x);
    GrowWellTyped(Held(t, v), i, x);
  }

  /**
    A write along a path of typed places succeeds exactly when the path leads somewhere and the
    value is of the type there. An index past the end of a typed array is no obstacle.
   */
  lemma {:induction false} StaticAssign(t: Ty, v: Data, p: seq<Access>, x: Data)
    requires Assignable(t, v) && WellTyped(v) && Static(t, p) && !x.Nil?
    ensures Assign(Held(t, v), p, x).Gives? <==> CanTake(t, p, x)
    ensures Assign(Held(t, v), p, x).Gives? ==> Assignable(t, Assign(Held(t, v), p, x).v)
    decreases |p|
  {
    hide Zero, Descend, PutBack, WellTyped;
    if p == [] {
      ConvertIff(t, v, x);
    } else {
      AssignParts(Held(t, v), p, x);
      match p[0]
      case Index(i) => StaticIndex(t, v, p, x);
      case Member(f) => StaticMember(t, v, p, x);
    }
  }

  lemma StaticIndex(t: Ty, v: Data, p: seq<Access>, x: Data)
    requires p != [] && p[0].Index? && Assignable(t, v) && WellTyped(v) && Static(t, p) && !x.Nil?
    ensures Assign(Held(t, v), p, x).Gives? <==> CanTake(t, p, x)
    ensures Assign(Held(t, v), p, x).Gives? ==> Assignable(t, Assign(Held(t, v), p, x).v)
    decreases |p|, 0
  {
    hide Zero, Grow, WellTyped, FieldAt;
    var c, i := Held(t, v), p[0].i;
    AssignParts(c, p, x);
    if i >= 0 && t.TArr? {
      GrownHasNoNil(t, v, i, x);
      var (e, items) := Grow(c, i, x).value;
      StaticAssign(e, items[i], p[1..], x);
      if Assign(Held(e, items[i]), p[1..], x).Gives? {
        NotNil(Held(e, items[i]), p[1..], x);
      }
    } else if i >= 0 {
      NoArrayToGrow(t, v, i, p, x);
    }
  }

  /** Where there is no array an index fails; a map is made a []any, which cannot be written. */
  lemma NoArrayToGrow(t: Ty, v: Data, i: nat, p: seq<Access>, x: Data)
    requires p != [] && p[0] == Index(i) && Assignable(t, v) && t != TAny && !t.TArr?
    ensures Assign(Held(t, v), p, x) == Fails
  {
    hide WellTyped, FieldAt;
    var c := Held(t, v);
    AssignParts(c, p, x);
    if Grow(c, i, x).Some? {
      assert Grow(c, i, x).value.1[i] == Nil;
      NilBlocks(c, i, p, x);
    }
  }

  lemma StaticMember(t: Ty, v: Data, p: seq<Access>, x: Data)
    requires p != [] && p[0].Member? && Assignable(t, v) && WellTyped(v) && Static(t, p) && !x.Nil?
    ensures Assign(Held(t, v), p, x).Gives? <==> CanTake(t, p, x)
    ensures Assign(Held(t, v), p, x).Gives? ==> Assignable(t, Assign(Held(t, v), p, x).v)
    decreases |p|, 0
  {
    hide Zero, Grow, FieldAt;
    var c, f := Held(t, v), p[0].f;
    AssignParts(c, p, x);
    if t.TRec? {
      FieldOfName(t.fields, f);
      if FieldAt(t.fields, f).Some? {
        var at := FieldAt(t.fields, f).value;
        StaticAssign(t.fields[at].ty, v.fields[at], p[1..], x);
        if Assign(Held(t.fields[at].ty, v.fields[at]), p[1..], x).Gives? {
          NotNil(Held(t.fields[at].ty, v.fields[at]), p[1..], x);
        }
      }
    }
  }

  lemma {:induction false} KeylessFits(t: Ty, c: Cell, p: seq<Access>, x: Data)
    requires LeadsTo(t, p).Some?
    ensures KeysFit(c, p, x)
    decreases |p|
  {
    hide Descend;
    if p != [] && Descend(Settle(c), p[0], x).Some? {
      var below := match p[0] case Index(_) => t.elem case Member(f) => TypeNamed(t.fields, f).value;
      KeylessFits(below, Descend(Settle(c), p[0], x).value, p[1..], x);
    }
  }

  /** So it is for a variable, and what has been written is read back. */
  lemma TypedWriteSucceedsIff(v: Data, p: seq<Access>, x: Data)
    requires !v.Nil? && !x.Nil? && WellTyped(v) && Static(TypeOf(v), p)
    ensures Assign(Root(v), p, x).Gives? <==> CanTake(TypeOf(v), p, x)
    ensures CanTake(TypeOf(v), p, x) ==>
      var w := Assign(Root(v), p, x).v; !w.Nil? && TypeOf(w) == TypeOf(v) && Get(w, p) == Some(x)
  {
    hide Assign, Get, WellTyped, Static, LeadsTo;
    StaticAssign(TypeOf(v), v, p, x);
    if CanTake(TypeOf(v), p, x) {
      ReadsBackIffKeysFit(Root(v), p, x);
      NotNil(Root(v), p, x);
      KeylessFits(TypeOf(v), Root(v), p, x);
    }
  }

  /**
    What a write into a typed array leaves: the array reaches to the index written, the elements
    there were stay, and those that fill it up are fresh.
   */
  lemma ArrayAfterWrite(e: Ty, items: seq<Data>, p: seq<Access>, x: Data)
    requires p != [] && p[0].Index? && e != TAny && !x.Nil? && WellTyped(Arr(e, items))
    requires Static(TArr(e), p) && CanTake(TArr(e), p, x)
    ensures var r := Assign(Root(Arr(e, items)), p, x);
      && r.Gives? && r.v.Arr? && r.v.elem == e
      && |r.v.items| == (if p[0].i < |items| then |items| else p[0].i + 1)
      && Get(r.v.items[p[0].i], p[1..]) == Some(x)
      && (forall j :: 0 <= j < |items| && j != p[0].i ==> r.v.items[j] == items[j])
      && (forall j :: |items| <= j < p[0].i ==> Fresh(e, r.v.items[j]))
  {
    hide Assign, WellTyped, Static, LeadsTo, Zero;
    var i := p[0].i;
    TypedWriteSucceedsIff(Arr(e, items), p, x);
    AssignParts(Root(Arr(e, items)), p, x);
    GrowKeeps(Root(Arr(e, items)), i, x);
    ZeroIsFresh(e);
    assert Get(Assign(Root(Arr(e, items)), p, x).v, p) == Some(x);
  }
}
