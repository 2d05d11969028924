/** The laws nested assignment obeys as a way of looking into data and replacing what is there. */
module NestedLaws {
  import opened Phrases
  import opened NestedData

  /** No interface around the value of the place. */
  predicate Settled(c: Cell) { !(c.Held? && c.ty == TAny && !c.v.Nil?) }

  function Settle(c: Cell): Cell { if Settled(c) then c else Held(TypeOf(c.v), c.v) }

  /** One level of Assign, from a place with its interface taken off. */
  lemma AssignParts(c: Cell, path: seq<Access>, x: Data)
    requires path != []
    ensures Assign(c, path, x) == Assign(Settle(c), path, x)
    ensures Assign(c, path, x) ==
      match Descend(Settle(c), path[0], x)
      case None => Fails
      case Some(d) =>
        match Assign(d, path[1..], x)
        case Fails => Fails
        case Gives(y) => PutBack(Settle(c), path[0], x, y)
  {
    hide Descend, PutBack;
  }

  // ---------------------------------------------------------------- reading back

  /** Every key on the way is used on a map. */
  predicate KeysFit(c: Cell, path: seq<Access>, x: Data)
    decreases |path|
  {
    path != [] ==>
      var s := Settle(c);
      (path[0].Key? ==> MapLike(s)) && (Descend(s, path[0], x).Some? ==> KeysFit(Descend(s, path[0], x).value,
          path[1..], x))
  }

  lemma ConvertGives(c: Cell, x: Data)
    requires Convert(c, x).Gives?
    ensures Convert(c, x).v == x
  {
  }

  /** What was put back is what the access leads to, unless a key was used on an array. */
  lemma PartPutBack(c: Cell, a: Access, x: Data, y: Data)
    requires Descend(c, a, x).Some? && PutBack(c, a, x, y).Gives? && !y.Nil?
    ensures Part(PutBack(c, a, x, y).v, a) == if a.Key? && !MapLike(c) then None else Some(y)
    ensures !PutBack(c, a, x, y).v.Nil?
  {
    hide Zero, TypeOf;
  }

  lemma {:induction false} NotNil(c: Cell, path: seq<Access>, x: Data)
    requires !x.Nil? && Assign(c, path, x).Gives?
    ensures !Assign(c, path, x).v.Nil?
    decreases |path|
  {
    hide Descend, PutBack;
    if path != [] {
      AssignParts(c, path, x);
      NotNil(Descend(Settle(c), path[0], x).value, path[1..], x);
      PartPutBack(Settle(c), path[0], x, Assign(Descend(Settle(c), path[0], x).value, path[1..], x).v);
    }
  }

  /** An assignment that succeeds is read back exactly when every key was used on a map. */
  lemma {:induction false} ReadsBackIffKeysFit(c: Cell, path: seq<Access>, x: Data)
    requires !x.Nil? && Assign(c, path, x).Gives?
    ensures Get(Assign(c, path, x).v, path) == if KeysFit(c, path, x) then Some(x) else None
    decreases |path|
  {
    hide Descend, PutBack, Part;
    if path == [] {
      ConvertGives(c, x);
    } else {
      AssignParts(c, path, x);
      var s := Settle(c);
      var d := Descend(s, path[0], x).value;
      ReadsBackIffKeysFit(d, path[1..], x);
      NotNil(d, path[1..], x);
      PartPutBack(s, path[0], x, Assign(d, path[1..], x).v);
    }
  }

  // ---------------------------------------------------------------- writing twice

  /** Place d is place c once y is in it: the same type if the container fixes it, else y's own. */
  predicate Refills(c: Cell, y: Data, d: Cell) {
    d.Held? && d.v == y && !y.Nil? && (d.ty == TypeOf(y) || (c.Held? && c.ty == TAny && d.ty == TAny))
  }

  /** If an array has to be made from nothing, both values call for the same kind. */
  predicate SameMaking(c: Cell, a: Access, x: Data, z: Data)
    requires !x.Nil? && !z.Nil?
  {
    c.Invalid? && a.Index? ==> TypeOf(x) == TypeOf(z)
  }

  /** Writing back where a write went: the place met is the one left, and what is put there replaces it. */
  ghost predicate Repeats(c: Cell, a: Access, x: Data, y: Data, z: Data, w: Data)
    requires Descend(c, a, x).Some? && PutBack(c, a, x, y).Gives?
  {
    var again := Unwrapped(PutBack(c, a, x, y).v);
    && Descend(again, a, z).Some? && Descend(c, a, z) == Descend(c, a, x)
    && PutBack(again, a, z, w) == PutBack(c, a, z, w)
    && Refills(Descend(c, a, x).value, y, Descend(again, a, z).value)
  }

  lemma PutBackTwice(c: Cell, a: Access, x: Data, y: Data, z: Data, w: Data)
    requires Descend(c, a, x).Some? && PutBack(c, a, x, y).Gives? && !y.Nil? && !w.Nil?
    requires !x.Nil? && !z.Nil? && SameMaking(c, a, x, z)
    ensures Repeats(c, a, x, y, z, w)
  {
    hide Descend, PutBack, Repeats;
    match a
    case Index(i) => IndexTwice(c, i, x, y, z, w);
    case Key(k) => if MapLike(c) { KeyTwice(c, k, x, y, z, w); } else { KeyOnArrayTwice(c, k, x, y, z, w); }
    case Member(f) => MemberTwice(c, f, x, y, z, w);
  }

  lemma IndexTwice(c: Cell, i: int, x: Data, y: Data, z: Data, w: Data)
    requires var a := Index(i); Descend(c, a, x).Some? && PutBack(c, a, x, y).Gives? && !y.Nil? && !w.Nil?
    requires !x.Nil? && !z.Nil? && SameMaking(c, Index(i), x, z)
    ensures Repeats(c, Index(i), x, y, z, w)
  {
    hide Zero, FieldAt, Grow;
    GrowTwice(c, i, x, y, z);
    var (e, items) := Grow(c, i, x).value;
    assert items[i := y][i := w] == items[i := w];
    NilIn(items, i, y);
  }

  lemma KeyOnArrayTwice(c: Cell, k: string, x: Data, y: Data, z: Data, w: Data)
    requires var a := Key(k); !MapLike(c) && Descend(c, a, x).Some? && PutBack(c, a, x, y).Gives? && !y.Nil? && !w.Nil?
    requires !x.Nil? && !z.Nil?
    ensures Repeats(c, Key(k), x, y, z, w)
  {
    hide Zero, FieldAt, Grow;
    GrowTwice(c, 0, x, y, z);
    var (e, items) := Grow(c, 0, x).value;
    assert items[0 := y][0 := w] == items[0 := w];
  }

  lemma KeyTwice(c: Cell, k: string, x: Data, y: Data, z: Data, w: Data)
    requires var a := Key(k); MapLike(c) && PutBack(c, a, x, y).Gives? && !y.Nil? && !w.Nil?
    ensures Repeats(c, Key(k), x, y, z, w)
  {
    hide Zero, FieldAt, Grow;
    assert Entries(c)[k := y][k := w] == Entries(c)[k := w];
  }

  lemma MemberTwice(c: Cell, f: string, x: Data, y: Data, z: Data, w: Data)
    requires var a := Member(f); Descend(c, a, x).Some? && PutBack(c, a, x, y).Gives? && !y.Nil? && !w.Nil?
    ensures Repeats(c, Member(f), x, y, z, w)
  {
    hide Zero, FieldAt, Grow;
    var at := FieldAt(c.v.types, f).value;
    assert c.v.fields[at := y][at := w] == c.v.fields[at := w];
  }

  /** An array written in is long enough, and the value to be written only matters by its type. */
  lemma GrowTwice(c: Cell, i: nat, x: Data, y: Data, z: Data)
    requires Grow(c, i, x).Some? && !x.Nil? && !z.Nil? && (c.Invalid? ==> TypeOf(x) == TypeOf(z))
    ensures Grow(c, i, z) == Grow(c, i, x)
    ensures var (e, items) := Grow(c, i, x).value;
      Grow(Unwrapped(Arr(e, items[i := y])), i, z) == Some((e, items[i := y]))
  {
    hide Zero;
  }

  lemma NilIn(items: seq<Data>, i: nat, y: Data)
    requires i < |items| && !y.Nil? && Nil !in items
    ensures Nil !in items[i := y]
  {
  }

  /** A place that was left is written as its value's own place is. */
  lemma LeftAssigns(c: Cell, y: Data, d: Cell, path: seq<Access>, z: Data)
    requires Refills(c, y, d) && !z.Nil? && (path == [] ==> TypeOf(y) == TypeOf(z))
    ensures Assign(d, path, z) == Assign(Unwrapped(y), path, z)
  {
    hide Descend, PutBack;
    if path != [] {
      AssignParts(d, path, z);
    }
  }

  /** Writing the same path twice leaves what the second write alone would have left. */
  lemma {:induction false} LastWriteWins(c: Cell, path: seq<Access>, x: Data, z: Data)
    requires !x.Nil? && !z.Nil? && TypeOf(x) == TypeOf(z)
    requires Assign(c, path, x).Gives?
    ensures Assign(Unwrapped(Assign(c, path, x).v), path, z) == Assign(c, path, z)
    decreases |path|
  {
    hide Descend, PutBack;
    if path == [] {
      ConvertGives(c, x);
    } else {
      var s := Settle(c);
      AssignParts(c, path, x);
      AssignParts(c, path, z);
      var d := Descend(s, path[0], x).value;
      var y := Assign(d, path[1..], x).v;
      NotNil(d, path[1..], x);
      PartPutBack(s, path[0], x, y);
      var again := Unwrapped(PutBack(s, path[0], x, y).v);
      AssignParts(again, path, z);
      PutBackTwice(s, path[0], x, y, z, z);
      if path[1..] == [] {
        ConvertGives(d, x);
      }
      LeftAssigns(d, y, Descend(again, path[0], z).value, path[1..], z);
      LastWriteWins(d, path[1..], x, z);
      if Assign(d, path[1..], z).Gives? {
        NotNil(d, path[1..], z);
        PutBackTwice(s, path[0], x, y, z, Assign(d, path[1..], z).v);
      }
    }
  }

  // ---------------------------------------------------------------- paths apart

  /** Two accesses into the same kind of container that lead to different parts of it. */
  predicate Apart(a: Access, b: Access) {
    a != b && ((a.Index? && b.Index?) || (a.Key? && b.Key?) || (a.Member? && b.Member?))
  }

  /** Paths that part ways at some access. */
  predicate Disjoint(p: seq<Access>, q: seq<Access>) {
    p != [] && q != [] && (if p[0] == q[0] then Disjoint(p[1..], q[1..]) else Apart(p[0], q[0]))
  }

  /** What is found at a path below a place. */
  function Look(c: Cell, q: seq<Access>): Option<Data> { if c.Invalid? then None else Get(c.v, q) }

  /** d is what a fresh element of some type holds somewhere: what arrays are filled with as they grow. */
  ghost predicate Filler(d: Data) { exists t, r :: Get(Zero(t), r) == Some(d) }

  /** An array that is grown keeps its elements and is filled up with fresh ones. */
  lemma GrowKeeps(c: Cell, i: nat, x: Data)
    requires Grow(c, i, x).Some?
    ensures var (e, items) := Grow(c, i, x).value;
      if c.Held? && c.v.Arr? then
        && e == c.v.elem && |c.v.items| <= |items|
        && (forall j :: 0 <= j < |items| ==> items[j] == if j < |c.v.items| then c.v.items[j] else Zero(e))
      else
        |items| == i + 1 && forall j :: 0 <= j < |items| ==> items[j] == Zero(e)
  {
    hide Zero;
  }

  /** Nothing at the place leads anywhere by this access. */
  predicate Bare(c: Cell, a: Access) { c.Invalid? || Part(c.v, a).None? }

  /** What one part becomes when a part apart from it is put back: itself, or if it was not there a fresh element. */
  ghost predicate Undisturbed(c: Cell, b: Access, after: Data) {
    && (!Bare(c, b) ==> Part(after, b) == Part(c.v, b))
    && (Bare(c, b) && Part(after, b).Some? ==> exists t :: Part(after, b).value == Zero(t))
  }

  lemma PutBackApart(c: Cell, a: Access, x: Data, y: Data, b: Access)
    requires Descend(c, a, x).Some? && PutBack(c, a, x, y).Gives? && Apart(a, b)
    ensures Undisturbed(c, b, PutBack(c, a, x, y).v)
  {
    hide Zero, TypeOf, Grow, FieldAt;
    match a
    case Index(i) => GrowKeeps(c, i, x);
    case Key(k) => if !MapLike(c) { GrowKeeps(c, 0, x); }
    case Member(f) =>
  }

  /** Where an access leads: to the part that is there, or if there is none to nothing or a fresh element. */
  lemma DescendFinds(c: Cell, a: Access, x: Data)
    requires Descend(c, a, x).Some? && (a.Key? ==> MapLike(c))
    ensures var d := Descend(c, a, x).value;
      if Bare(c, a) then d.Invalid? || exists t :: d.v == Zero(t)
      else if d.Invalid? then Part(c.v, a) == Some(Nil) else Part(c.v, a) == Some(d.v)
  {
    hide Zero, TypeOf, Grow, FieldAt;
    if a.Index? {
      GrowKeeps(c, a.i, x);
      var (e, items) := Grow(c, a.i, x).value;
      assert Bare(c, a) ==> items[a.i] == Zero(e);
    }
  }

  /** A write leaves every path apart from its own as it was, or filled as arrays are when they grow. */
  lemma {:induction false} DisjointUndisturbed(c: Cell, p: seq<Access>, q: seq<Access>, x: Data)
    requires !x.Nil? && Disjoint(p, q) && Assign(c, p, x).Gives?
    ensures Look(c, q).Some? ==> Get(Assign(c, p, x).v, q) == Look(c, q)
    ensures Look(c, q).None? && Get(Assign(c, p, x).v, q).Some? ==> Filler(Get(Assign(c, p, x).v, q).value)
    decreases |p|
  {
    hide Descend, PutBack, Part, Apart, Bare, Zero;
    var s := Settle(c);
    AssignParts(c, p, x);
    var d := Descend(s, p[0], x).value;
    var y := Assign(d, p[1..], x).v;
    NotNil(d, p[1..], x);
    PartPutBack(s, p[0], x, y);
    if p[0] == q[0] {
      DisjointUndisturbed(d, p[1..], q[1..], x);
      if p[0].Key? && !MapLike(s) {
        KeyFindsNothing(s, p[0]);
      } else {
        DescendFinds(s, p[0], x);
        DisjointBelow(s, p[0], d, q);
      }
    } else {
      PutBackApart(s, p[0], x, y, q[0]);
      ApartBelow(s, q, PutBack(s, p[0], x, y).v);
    }
  }

  lemma KeyFindsNothing(c: Cell, a: Access)
    requires a.Key? && !MapLike(c)
    ensures Bare(c, a)
  {
  }

  lemma DisjointBelow(c: Cell, a: Access, d: Cell, q: seq<Access>)
    requires |q| >= 2 && q[0] == a
    requires if Bare(c, a) then d.Invalid? || exists t :: d.v == Zero(t)
      else if d.Invalid? then Part(c.v, a) == Some(Nil) else Part(c.v, a) == Some(d.v)
    ensures !Bare(c, a) ==> Look(c, q) == Look(d, q[1..])
    ensures Bare(c, a) ==> Look(c, q) == None
    ensures Bare(c, a) && Look(d, q[1..]).Some? ==> Filler(Look(d, q[1..]).value)
  {
    hide Zero;
    assert Get(Nil, q[1..]) == None;
    if Bare(c, a) && d.Held? {
      var t :| d.v == Zero(t);
      assert Look(d, q[1..]) == Get(Zero(t), q[1..]);
    }
  }

  lemma ApartBelow(c: Cell, q: seq<Access>, after: Data)
    requires q != [] && Undisturbed(c, q[0], after)
    ensures Look(c, q).Some? ==> Get(after, q) == Look(c, q)
    ensures Look(c, q).None? && Get(after, q).Some? ==> Filler(Get(after, q).value)
  {
    hide Zero, Part;
  }
}
