/**
  Writes through maps that may be shared: where exactly they are seen, when two of them commute,
  and when one is lost.
 */
module SharedLaws {
  import opened Phrases
  import opened NestedData
  import opened NestedLaws
  import opened NestedOrder
  import opened TypedWrites
  import opened SharedData
  import opened SharedTrees
  import opened SharedMeaning
  import opened SharedApart

  // ---------------------------------------------------------------- paths through maps

  /** The path leads by keys through maps there are; the last key may be new. */
  predicate Maps(h: Heap, v: Val, p: seq<Access>)
    decreases |p|
  {
    && p != [] && p[0].Key? && MapThere(h, v)
    && (|p| > 1 ==> p[0].k in EntriesOf(h, v) && Maps(h, EntriesOf(h, v)[p[0].k], p[1..]))
  }

  /** The map and the key it ends in. */
  function Target(h: Heap, v: Val, p: seq<Access>): (t: (nat, string))
    requires Maps(h, v, p)
    ensures t.0 < |h| && h[t.0].Keyed?
    decreases |p|
  {
    if |p| == 1 then (v.at.value, p[0].k) else Target(h, EntriesOf(h, v)[p[0].k], p[1..])
  }

  /** The path goes through this entry on its way. */
  predicate Passes(h: Heap, v: Val, p: seq<Access>, t: (nat, string))
    requires Maps(h, v, p)
    decreases |p|
  {
    |p| > 1 && ((v.at.value, p[0].k) == t || Passes(h, EntriesOf(h, v)[p[0].k], p[1..], t))
  }

  /** What the target entry holds, as a place. */
  function Last(h: Heap, v: Val, p: seq<Access>): Place {
    match Read(h, v, p) case None => Absent case Some(w) => PlaceOf(w)
  }

  function Set(h: Heap, t: (nat, string), x: Val): Heap { SetEntry(h, t.0, t.1, x) }

  lemma SetBack(h: Heap, r: nat, k: string, x: Val, w: Val)
    requires r < |h| && h[r].Keyed? && !w.Empty?
    requires k in h[r].entries && h[r].entries[k] == w
    ensures SetEntry(SetEntry(h, r, k, x), r, k, w) == h && SetEntry(h, r, k, w) == h
  {
    var e := h[r].entries;
    assert e[k := w] == e && (e - {k})[k := w] == e && e[k := x][k := w] == e;
    assert h[r := Keyed(e)] == h;
  }

  /** Setting another entry back to what it holds changes nothing. */
  lemma SetOther(h: Heap, t: (nat, string), x: Val, r: nat, k: string, w: Val)
    requires r < |h| && h[r].Keyed? && !w.Empty? && (r, k) != t
    requires k in h[r].entries && h[r].entries[k] == w
    ensures SetEntry(Set(h, t, x), r, k, w) == Set(h, t, x)
  {
    var h1 := Set(h, t, x);
    assert k in h1[r].entries && h1[r].entries[k] == w;
    SetBack(h1, r, k, w, w);
  }

  /**
    A write through maps sets its target entry and nothing else, unless the path has gone through
    that very entry: then it is set back on the way out, and nothing at all has changed.
   */
  lemma {:induction false} MapWrite(h: Heap, v: Val, p: seq<Access>, x: Val)
    requires Maps(h, v, p) && Accept(Last(h, v, p), x).Wrote?
    ensures var t := Target(h, v, p);
      Write(h, PlaceOf(v), p, x) == (if Passes(h, v, p, t) then h else Set(h, t, x), Wrote(v))
    decreases |p|
  {
    hide Write, Accept;
    var k, r := p[0].k, v.at.value;
    WriteParts(h, PlaceOf(v), p, x);
    assert Taken(PlaceOf(v)) == PlaceOf(v);
    var e := Enter(h, PlaceOf(v), p[0], x).value;
    if |p| == 1 {
      LastWrite(h, v, p, x, e);
    } else {
      var w := EntriesOf(h, v)[k];
      MapWrite(h, w, p[1..], x);
      var t := Target(h, w, p[1..]);
      if Passes(h, w, p[1..], t) {
        SetBack(h, r, k, x, w);
      } else if (r, k) == t {
        SetBack(h, r, k, x, w);
      } else {
        SetOther(h, t, x, r, k, w);
      }
    }
  }

  lemma LastWrite(h: Heap, v: Val, p: seq<Access>, x: Val, e: Entered)
    requires Maps(h, v, p) && |p| == 1 && Accept(Last(h, v, p), x).Wrote?
    requires Enter(h, PlaceOf(v), p[0], x) == Some(e)
    ensures Write(e.heap, e.place, p[1..], x) == (h, Wrote(x)) && e.heap == h && e.container == v
  {
    assert Read(h, v, p) == PartOf(h, v, p[0]);
  }

  // ---------------------------------------------------------------- where it is seen

  /** What is left of a path after it first meets the entry. */
  function After(h: Heap, v: Val, q: seq<Access>, t: (nat, string)): Option<seq<Access>>
    decreases |q|
  {
    if q == [] then None
    else if v.MapRef? && v.at == Some(t.0) && q[0] == Key(t.1) then Some(q[1..])
    else match PartOf(h, v, q[0])
      case None => None
      case Some(w) => After(h, w, q[1..], t)
  }

  /** Reading any path of any value after an entry has been set. */
  lemma {:induction false} SetSeen(h: Heap, t: (nat, string), x: Val, v: Val, q: seq<Access>)
    requires t.0 < |h| && h[t.0].Keyed? && !x.Empty?
    ensures var h1 := Set(h, t, x);
      Read(h1, v, q) == match After(h, v, q, t) case None => Read(h, v, q) case Some(rest) => Read(h1, x, rest)
    decreases |q|
  {
    var h1 := Set(h, t, x);
    if q != [] {
      if v.MapRef? && v.at == Some(t.0) && q[0] == Key(t.1) {
        assert PartOf(h1, v, q[0]) == Some(x);
      } else {
        assert PartOf(h1, v, q[0]) == PartOf(h, v, q[0]);
        if PartOf(h, v, q[0]).Some? {
          SetSeen(h, t, x, PartOf(h, v, q[0]).value, q[1..]);
        }
      }
    }
  }

  /** An entry a path goes through holds a map. */
  lemma {:induction false} PassedHoldsMap(h: Heap, v: Val, p: seq<Access>, t: (nat, string))
    requires Maps(h, v, p) && Passes(h, v, p, t)
    ensures t.0 < |h| && h[t.0].Keyed? && t.1 in h[t.0].entries && h[t.0].entries[t.1].MapRef?
    decreases |p|
  {
    if (v.at.value, p[0].k) != t {
      PassedHoldsMap(h, EntriesOf(h, v)[p[0].k], p[1..], t);
    }
  }

  /** What a path ends in is what its target holds. */
  lemma {:induction false} EndsInTarget(h: Heap, v: Val, p: seq<Access>)
    requires Maps(h, v, p)
    ensures var t := Target(h, v, p);
      Read(h, v, p) == if t.1 in h[t.0].entries then Some(h[t.0].entries[t.1]) else None
    decreases |p|
  {
    if |p| > 1 {
      EndsInTarget(h, EntriesOf(h, v)[p[0].k], p[1..]);
    } else {
      assert Read(h, v, p) == PartOf(h, v, p[0]);
    }
  }

  /** A number or text is never written where a path goes through. */
  lemma ScalarNotPassed(h: Heap, v: Val, p: seq<Access>, x: Val, w: Val, q: seq<Access>)
    requires Maps(h, v, p) && Scalar(x) && Accept(Last(h, v, p), x).Wrote? && Maps(h, w, q)
    ensures !Passes(h, w, q, Target(h, v, p))
  {
    EndsInTarget(h, v, p);
    if Passes(h, w, q, Target(h, v, p)) {
      PassedHoldsMap(h, w, q, Target(h, v, p));
    }
  }

  /**
    A number or text written through maps is seen at exactly the paths, of this variable or any
    other, that meet the same entry of the same map; every other path reads as before.
   */
  lemma ScalarSeenIffMet(h: Heap, v: Val, p: seq<Access>, x: Val, w: Val, q: seq<Access>)
    requires Maps(h, v, p) && Scalar(x) && Accept(Last(h, v, p), x).Wrote? && Read(h, w, q).Some?
    ensures var h1, t := Write(h, PlaceOf(v), p, x).0, Target(h, v, p);
      && (After(h, w, q, t).None? ==> Read(h1, w, q) == Read(h, w, q))
      && (After(h, w, q, t) == Some([]) ==> Read(h1, w, q) == Some(x))
      && (Read(h, v, p) != Some(x) ==> (Read(h1, w, q) != Read(h, w, q) <==> After(h, w, q, t).Some?))
  {
    hide Write, Accept, Read, After;
    var t := Target(h, v, p);
    MapWrite(h, v, p, x);
    ScalarNotPassed(h, v, p, x, v, p);
    SetSeen(h, t, x, w, q);
    EndsInTarget(h, v, p);
    if After(h, w, q, t).Some? {
      RestOfScalar(h, w, q, t);
      ReadOfScalar(Set(h, t, x), x, After(h, w, q, t).value);
      ReadHere(h, h[t.0].entries[t.1]);
    }
  }

  lemma ReadOfScalar(h: Heap, x: Val, q: seq<Access>)
    requires Scalar(x)
    ensures Read(h, x, q) == if q == [] then Some(x) else None
  {
  }

  /** A path that meets an entry reads on from what is in it. */
  lemma {:induction false} RestOfScalar(h: Heap, v: Val, q: seq<Access>, t: (nat, string))
    requires After(h, v, q, t).Some? && Read(h, v, q).Some?
    ensures t.0 < |h| && h[t.0].Keyed? && t.1 in h[t.0].entries
    ensures Read(h, v, q) == Read(h, h[t.0].entries[t.1], After(h, v, q, t).value)
    decreases |q|
  {
    if !(v.MapRef? && v.at == Some(t.0) && q[0] == Key(t.1)) {
      RestOfScalar(h, PartOf(h, v, q[0]).value, q[1..], t);
    }
  }

  /** What a write through maps leaves at its own path: the value, unless it has been lost. */
  lemma ReadsBackIffNotPassed(h: Heap, v: Val, p: seq<Access>, x: Val)
    requires Maps(h, v, p) && !x.Empty? && Accept(Last(h, v, p), x).Wrote? && Read(h, v, p) != Some(x)
    ensures Read(Write(h, PlaceOf(v), p, x).0, v, p) == Some(x) <==> !Passes(h, v, p, Target(h, v, p))
  {
    hide Write, Accept, Read, After;
    var t := Target(h, v, p);
    MapWrite(h, v, p, x);
    if !Passes(h, v, p, t) {
      SetSeen(h, t, x, v, p);
      MeetsAtEnd(h, v, p, t);
      assert Read(Set(h, t, x), x, []) == Some(x) by { ReadHere(Set(h, t, x), x); }
    }
  }

  lemma ReadHere(h: Heap, x: Val)
    ensures Read(h, x, []) == Some(x)
  {
  }

  lemma {:induction false} MeetsAtEnd(h: Heap, v: Val, p: seq<Access>, t: (nat, string))
    requires Maps(h, v, p) && !Passes(h, v, p, t) && Target(h, v, p) == t
    ensures After(h, v, p, t) == Some([])
    decreases |p|
  {
    if |p| > 1 {
      MeetsAtEnd(h, EntriesOf(h, v)[p[0].k], p[1..], t);
    } else {
      assert p[1..] == [];
    }
  }

  // ---------------------------------------------------------------- writing nil

  /** Nil can be written where there is nothing, nil, an array or a map, and not over a number, a text or a struct. */
  predicate TakesNil(r: Option<Val>) { r.None? || r.value.Empty? || r.value.SliceRef? || r.value.MapRef? }

  /**
    Nil written through maps takes the entry away: every path that met it, of this variable or any
    other, finds nothing any more, and every other path reads as before.
   */
  lemma NilTakesEntryAway(h: Heap, v: Val, p: seq<Access>, w: Val, q: seq<Access>)
    requires Maps(h, v, p)
    ensures var (h1, r) := Write(h, PlaceOf(v), p, Empty);
      && (r == Wrote(v) <==> TakesNil(Read(h, v, p))) && (r.Broke? ==> h1 == h)
      && (r.Wrote? && !Passes(h, v, p, Target(h, v, p)) ==>
            Read(h1, w, q) == if After(h, w, q, Target(h, v, p)).Some? then None else Read(h, w, q))
  {
    hide Write, Accept, Read, After, Passes;
    NilAccepted(Read(h, v, p));
    if TakesNil(Read(h, v, p)) {
      MapWrite(h, v, p, Empty);
      EntryGone(h, Target(h, v, p), w, q);
    } else {
      NilRefused(h, v, p);
    }
  }

  lemma NilAccepted(r: Option<Val>)
    ensures TakesNil(r) <==> Accept(match r case None => Absent case Some(w) => PlaceOf(w), Empty).Wrote?
  {
  }

  lemma {:induction false} NilRefused(h: Heap, v: Val, p: seq<Access>)
    requires Maps(h, v, p) && !TakesNil(Read(h, v, p))
    ensures Write(h, PlaceOf(v), p, Empty) == (h, Broke)
    decreases |p|
  {
    hide Write;
    WriteParts(h, PlaceOf(v), p, Empty);
    var w := EntriesOf(h, v)[p[0].k];
    if |p| == 1 {
      assert Read(h, v, p) == Some(w) by { ReadHere(h, w); }
      RefusedHere(h, w, p[1..]);
    } else {
      NilRefused(h, w, p[1..]);
    }
  }

  lemma RefusedHere(h: Heap, w: Val, rest: seq<Access>)
    requires rest == [] && !TakesNil(Some(w))
    ensures Write(h, PlaceOf(w), rest, Empty) == (h, Broke)
  {
  }

  lemma {:induction false} EntryGone(h: Heap, t: (nat, string), v: Val, q: seq<Access>)
    requires t.0 < |h| && h[t.0].Keyed?
    ensures Read(Set(h, t, Empty), v, q) == if After(h, v, q, t).Some? then None else Read(h, v, q)
    decreases |q|
  {
    var h1 := Set(h, t, Empty);
    if q != [] {
      if v.MapRef? && v.at == Some(t.0) && q[0] == Key(t.1) {
        assert PartOf(h1, v, q[0]) == None;
      } else {
        assert PartOf(h1, v, q[0]) == PartOf(h, v, q[0]);
        if PartOf(h, v, q[0]).Some? {
          EntryGone(h, t, PartOf(h, v, q[0]).value, q[1..]);
        }
      }
    }
  }

  // ---------------------------------------------------------------- what copies share

  /**
    A struct written at one field is copied. Of another field that is an interface the copy holds
    the same thing, so a map in it is shared; a map in a field of map type is a new one.
   */
  lemma OtherFieldAfterWrite(h: Heap, s: Val, f: string, g: string, x: Val)
    requires s.Struct? && f != g && HoldsField(PlaceOf(s), f) && HoldsField(PlaceOf(s), g)
    requires Write(h, PlaceOf(s), [Member(g)], x).1.Wrote?
    ensures var (h1, r) := Write(h, PlaceOf(s), [Member(g)], x);
      var t := s.types[FieldAt(s.types, f).value].ty;
      var was, now := PartOf(h, s, Member(f)).value, PartOf(h1, r.v, Member(f));
      && (t == TAny ==> now == Some(was))
      && (t == TMap && MapThere(h, was) ==>
            && now.Some? && MapThere(h1, now.value) && now.value.at.value >= |h|
            && EntriesOf(h1, now.value) == EntriesOf(h, was))
  {
    hide Write, Copy, CopyFields, Accept, FieldAt;
    WriteParts(h, PlaceOf(s), [Member(g)], x);
    var i, j := FieldAt(s.types, f).value, FieldAt(s.types, g).value;
    var (h1, c) := Copy(h, TRec(s.types), s);
    StructCopied(h, s);
    FieldCopied(h, TRec(s.types), s.fields, i);
    var h0 := CopyFields(h, TRec(s.types), s.fields[..i]).0;
    OneCopied(h0, s.types[i].ty, s.fields[i]);
    WriteNothingFurther(h1, Site(s.types[j].ty, c.fields[j]), [Member(g)][1..], x);
  }

  lemma StructCopied(h: Heap, s: Val)
    requires s.Struct?
    ensures Copy(h, TRec(s.types), s)
         == (CopyFields(h, TRec(s.types), s.fields).0, Struct(s.types, CopyFields(h, TRec(s.types), s.fields).1))
  {
  }

  lemma OneCopied(h: Heap, t: Ty, v: Val)
    ensures t == TAny ==> Copy(h, t, v) == (h, v)
    ensures t == TMap && v.MapRef? && v.at.Some? ==>
      Copy(h, t, v) == (h + [Keyed(EntriesOf(h, v))], MapRef(Some(|h|)))
  {
  }

  lemma WriteNothingFurther(h: Heap, c: Place, rest: seq<Access>, x: Val)
    requires rest == []
    ensures Write(h, c, rest, x) == (h, Accept(c, x))
  {
  }

  // ---------------------------------------------------------------- two writes

  /** Setting an entry a path does not go through leaves its target. */
  lemma {:induction false} TargetKept(h: Heap, t: (nat, string), x: Val, v: Val, p: seq<Access>)
    requires Maps(h, v, p) && !Passes(h, v, p, t)
    ensures Maps(Set(h, t, x), v, p) && Target(Set(h, t, x), v, p) == Target(h, v, p)
    ensures forall s :: Passes(Set(h, t, x), v, p, s) <==> Passes(h, v, p, s)
    decreases |p|
  {
    var h1 := Set(h, t, x);
    assert MapThere(h1, v);
    if |p| > 1 {
      assert EntriesOf(h1, v)[p[0].k] == EntriesOf(h, v)[p[0].k];
      TargetKept(h, t, x, EntriesOf(h, v)[p[0].k], p[1..]);
    }
  }

  /** One write after another. */
  function Both(h: Heap, v: Val, p: seq<Access>, x: Val, w: Val, q: seq<Access>, z: Val): Heap {
    Write(Write(h, PlaceOf(v), p, x).0, PlaceOf(w), q, z).0
  }

  /** Neither path goes through the entry the other, or it itself, ends in. */
  predicate Independent(h: Heap, v: Val, p: seq<Access>, w: Val, q: seq<Access>)
    requires Maps(h, v, p) && Maps(h, w, q)
  {
    var s, t := Target(h, v, p), Target(h, w, q);
    !Passes(h, v, p, s) && !Passes(h, v, p, t) && !Passes(h, w, q, s) && !Passes(h, w, q, t)
  }

  lemma BothSet(h: Heap, v: Val, p: seq<Access>, x: Val, w: Val, q: seq<Access>, z: Val)
    requires Maps(h, v, p) && Maps(h, w, q) && Independent(h, v, p, w, q)
    requires Accept(Last(h, v, p), x).Wrote? && Accept(Last(Write(h, PlaceOf(v), p, x).0, w, q), z).Wrote?
    ensures Both(h, v, p, x, w, q, z) == Set(Set(h, Target(h, v, p), x), Target(h, w, q), z)
  {
    hide Write, Accept, Read;
    var s := Target(h, v, p);
    MapWrite(h, v, p, x);
    TargetKept(h, s, x, w, q);
    MapWrite(Set(h, s, x), w, q, z);
  }

  /**
    Exactly when two writes through maps commute, of whatever variables: when they do not end in
    the same entry of the same map, or write the same there. The whole heap is the same then.
   */
  lemma MapWritesCommuteIff(h: Heap, v: Val, p: seq<Access>, x: Val, w: Val, q: seq<Access>, z: Val)
    requires Maps(h, v, p) && Maps(h, w, q) && Independent(h, v, p, w, q) && !x.Empty? && !z.Empty?
    requires Accept(Last(h, v, p), x).Wrote? && Accept(Last(Write(h, PlaceOf(v), p, x).0, w, q), z).Wrote?
    requires Accept(Last(h, w, q), z).Wrote? && Accept(Last(Write(h, PlaceOf(w), q, z).0, v, p), x).Wrote?
    ensures Both(h, v, p, x, w, q, z) == Both(h, w, q, z, v, p, x) <==> Target(h, v, p) != Target(h, w, q) || x == z
  {
    hide Write, Accept, Read, Both;
    BothSet(h, v, p, x, w, q, z);
    BothSet(h, w, q, z, v, p, x);
    SetsCommuteIff(h, Target(h, v, p), x, Target(h, w, q), z);
  }

  lemma SetsCommuteIff(h: Heap, s: (nat, string), x: Val, t: (nat, string), z: Val)
    requires s.0 < |h| && h[s.0].Keyed? && t.0 < |h| && h[t.0].Keyed? && !x.Empty? && !z.Empty?
    ensures Set(Set(h, s, x), t, z) == Set(Set(h, t, z), s, x) <==> s != t || x == z
  {
    if s == t {
      assert Set(Set(h, s, x), t, z)[t.0].entries[t.1] == z;
      assert Set(Set(h, t, z), s, x)[t.0].entries[t.1] == x;
    } else if s.0 == t.0 {
      var e := h[s.0].entries;
      assert e[s.1 := x][t.1 := z] == e[t.1 := z][s.1 := x];
    }
  }

  /** Numbers and texts are always written so. */
  lemma ScalarsIndependent(h: Heap, v: Val, p: seq<Access>, x: Val, w: Val, q: seq<Access>, z: Val)
    requires Maps(h, v, p) && Maps(h, w, q) && Scalar(x) && Scalar(z)
    requires Accept(Last(h, v, p), x).Wrote? && Accept(Last(h, w, q), z).Wrote?
    ensures Independent(h, v, p, w, q)
  {
    hide Accept, Read, Passes;
    ScalarNotPassed(h, v, p, x, v, p);
    ScalarNotPassed(h, v, p, x, w, q);
    ScalarNotPassed(h, w, q, z, v, p);
    ScalarNotPassed(h, w, q, z, w, q);
  }

  /** So on them the condition is exact for all paths through maps. */
  lemma ScalarWritesCommuteIff(h: Heap, v: Val, p: seq<Access>, x: Val, w: Val, q: seq<Access>, z: Val)
    requires Maps(h, v, p) && Maps(h, w, q) && Scalar(x) && Scalar(z)
    requires Accept(Last(h, v, p), x).Wrote? && Accept(Last(Write(h, PlaceOf(v), p, x).0, w, q), z).Wrote?
    requires Accept(Last(h, w, q), z).Wrote? && Accept(Last(Write(h, PlaceOf(w), q, z).0, v, p), x).Wrote?
    ensures Both(h, v, p, x, w, q, z) == Both(h, w, q, z, v, p, x) <==> Target(h, v, p) != Target(h, w, q) || x == z
  {
    hide Accept, Write, Read, Both;
    ScalarsIndependent(h, v, p, x, w, q, z);
    MapWritesCommuteIff(h, v, p, x, w, q, z);
  }

  // ---------------------------------------------------------------- where nothing is shared

  /** Two values, in heaps of their own, that unfold to the same data. */
  ghost predicate SameData(h: Heap, v: Val, h': Heap, v': Val) { exists d :: Tree(h, v, d) && Tree(h', v', d) }

  lemma {:induction false} TreeUnique(h: Heap, v: Val, d: Data, d': Data)
    requires Tree(h, v, d) && Tree(h, v, d')
    ensures d == d'
    decreases d
  {
    forall a | a in Labels(d)
      ensures a in Labels(d') && Sub(d, a) == Sub(d', a)
    {
      TreeKid(h, v, d, a);
      TreeKid(h, v, d', a);
      TreeUnique(h, Kid(h, v, a), Sub(d, a), Sub(d', a));
    }
    SameParts(h, v, d, d');
  }

  lemma SameParts(h: Heap, v: Val, d: Data, d': Data)
    requires Head(h, v, d) && Head(h, v, d')
    requires forall a :: a in Labels(d) ==> a in Labels(d') && Sub(d, a) == Sub(d', a)
    ensures d == d'
  {
    match d
    case Arr(_, items) =>
      assert forall i :: 0 <= i < |items| ==> Index(i) in Labels(d) && items[i] == Sub(d', Index(i));
      assert items == d'.items;
    case Table(entries) =>
      assert forall k :: k in entries ==> Key(k) in Labels(d) && entries[k] == Sub(d', Key(k));
      assert entries == d'.entries;
    case Rec(_, fields) =>
      assert forall i :: 0 <= i < |fields| ==> Index(i) in Labels(d) && fields[i] == Sub(d', Index(i));
      assert fields == d'.fields;
    case _ =>
  }

  /** A second write, to what the first has left. */
  lemma SecondMirrors(h: Heap, c: Place, dc: Cell, p: seq<Access>, x: Val, dx: Data, q: seq<Access>, z: Val, dz: Data)
    requires Mirrors(h, c, dc) && Tree(h, x, dx) && Foot(h, x, dx) !! FootAt(h, c, dc) && Assign(dc, p, dx).Gives?
    requires Tree(h, z, dz) && Foot(h, z, dz) !! FootAt(h, c, dc) && Foot(h, z, dz) !! Foot(h, x, dx)
    ensures Write(h, c, p, x).1.Wrote?
    ensures var (h1, w) := Write(h, c, p, x);
      var d := Unwrapped(Assign(dc, p, dx).v);
      MirroredBy(h1, PlaceOf(w.v), d, Foot(h1, z, dz), Write(h1, PlaceOf(w.v), q, z), Assign(d, q, dz))
  {
    hide Foot, Tree, Write, Assign;
    WriteMirrors(h, c, dc, p, x, dx);
    var (h1, w) := Write(h, c, p, x);
    var d := Assign(dc, p, dx).v;
    KindMirrors(h1, w.v, d);
    TreeKept(h, h1, FootAt(h, c, dc), z, dz);
    FootInHeap(h, z, dz);
    WriteMirrors(h1, PlaceOf(w.v), Unwrapped(d), q, z, dz);
  }

  /**
    On data in which nothing is shared, two writes to disjoint paths commute exactly when the
    assignments on trees do.
   */
  lemma UnsharedCommuteIffAlike(h: Heap, c: Place, dc: Cell, p: seq<Access>, x: Val, dx: Data,
                                q: seq<Access>, z: Val, dz: Data)
    requires Mirrors(h, c, dc) && Tree(h, x, dx) && Foot(h, x, dx) !! FootAt(h, c, dc)
    requires Tree(h, z, dz) && Foot(h, z, dz) !! FootAt(h, c, dc) && Foot(h, z, dz) !! Foot(h, x, dx)
    requires !dx.Nil? && !dz.Nil? && Disjoint(p, q) && KeysFit(dc, p, dx)
    requires Assign(dc, p, dx).Gives? && Assign(dc, q, dz).Gives?
    requires Assign(Unwrapped(Assign(dc, p, dx).v), q, dz).Gives?
    requires Assign(Unwrapped(Assign(dc, q, dz).v), p, dx).Gives?
    ensures var (h1, w1) := Write(h, c, p, x);
      var (h2, w2) := Write(h, c, q, z);
      && w1.Wrote? && w2.Wrote?
      && var (h12, w12) := Write(h1, PlaceOf(w1.v), q, z);
         var (h21, w21) := Write(h2, PlaceOf(w2.v), p, x);
         w12.Wrote? && w21.Wrote? && (SameData(h12, w12.v, h21, w21.v) <==> AlikeMaking(dc, p, q, dx, dz))
  {
    hide Foot, Tree, Write, Assign, Disjoint, KeysFit, AlikeMaking;
    SecondMirrors(h, c, dc, p, x, dx, q, z, dz);
    SecondMirrors(h, c, dc, q, z, dz, p, x, dx);
    CommuteIffAlike(dc, p, q, dx, dz);
    var (h1, w1) := Write(h, c, p, x);
    var (h2, w2) := Write(h, c, q, z);
    var (h12, w12) := Write(h1, PlaceOf(w1.v), q, z);
    var (h21, w21) := Write(h2, PlaceOf(w2.v), p, x);
    SameDataIff(h12, w12.v, Assign(Unwrapped(Assign(dc, p, dx).v), q, dz).v,
                h21, w21.v, Assign(Unwrapped(Assign(dc, q, dz).v), p, dx).v);
  }

  lemma SameDataIff(h: Heap, v: Val, d: Data, h': Heap, v': Val, d': Data)
    requires Tree(h, v, d) && Tree(h', v', d')
    ensures SameData(h, v, h', v') <==> d == d'
  {
    hide Foot, Tree;
    if e :| Tree(h, v, e) && Tree(h', v', e) {
      TreeUnique(h, v, d, e);
      TreeUnique(h', v', d', e);
    }
  }

  /**
    On such data a write along typed arrays and structs succeeds exactly when the path leads
    somewhere and the value is of the type there; then it is read back.
   */
  lemma UnsharedTypedWriteIff(h: Heap, v: Val, d: Data, p: seq<Access>, x: Val, dx: Data)
    requires Tree(h, v, d) && Tree(h, x, dx) && Foot(h, x, dx) !! Foot(h, v, d)
    requires !d.Nil? && !dx.Nil? && WellTyped(d) && Static(TypeOf(d), p)
    ensures var (h1, w) := Write(h, PlaceOf(v), p, x);
      && (w.Wrote? <==> CanTake(TypeOf(d), p, dx))
      && (w.Wrote? ==> exists d1 :: Tree(h1, w.v, d1) && Get(d1, p) == Some(dx))
  {
    hide Foot, Tree, Write, Assign, Get, WellTyped, Static, CanTake;
    KindMirrors(h, v, d);
    WriteMirrors(h, PlaceOf(v), Root(d), p, x, dx);
    TypedWriteSucceedsIff(d, p, dx);
    var (h1, w) := Write(h, PlaceOf(v), p, x);
    if w.Wrote? {
      assert Tree(h1, w.v, Assign(Root(d), p, dx).v);
    }
  }

  // ---------------------------------------------------------------- what sharing does

  /** a = {"x": m, "y": m}, with m = {"k": 0} at 1. */
  function OneMapTwice(): Heap {
    [Keyed(map["x" := MapRef(Some(1)), "y" := MapRef(Some(1))]), Keyed(map["k" := Number(0)])]
  }

  /** a["x"]["k"] = 1 changes a["y"]["k"], a disjoint path. */
  lemma SharedMapDisturbs()
    ensures var (h, a, p, q) := (OneMapTwice(), MapRef(Some(0)), [Key("x"), Key("k")], [Key("y"), Key("k")]);
      && Disjoint(p, q) && Read(h, a, q) == Some(Number(0))
      && Read(Write(h, PlaceOf(a), p, Number(1)).0, a, q) == Some(Number(1))
  {
    hide Write;
    var (h, a, p, q) := (OneMapTwice(), MapRef(Some(0)), [Key("x"), Key("k")], [Key("y"), Key("k")]);
    TwoKeys(h, a, "x");
    TwoKeys(h, a, "y");
    MapWrite(h, a, p, Number(1));
    TwoKeys(Set(h, (1, "k"), Number(1)), a, "y");
    assert "x"[0] != "y"[0];
  }

  /** And two writes to these paths do not commute. */
  lemma SharedMapShowsOrder()
    ensures var (h, a, p, q) := (OneMapTwice(), MapRef(Some(0)), [Key("x"), Key("k")], [Key("y"), Key("k")]);
      && Disjoint(p, q)
      && Both(h, a, p, Number(1), a, q, Number(2)) != Both(h, a, q, Number(2), a, p, Number(1))
  {
    hide Write, Both;
    var (h, a, p, q) := (OneMapTwice(), MapRef(Some(0)), [Key("x"), Key("k")], [Key("y"), Key("k")]);
    TwoKeys(h, a, "x");
    TwoKeys(h, a, "y");
    MapWrite(h, a, p, Number(1));
    MapWrite(h, a, q, Number(2));
    TwoKeys(Set(h, (1, "k"), Number(1)), a, "y");
    TwoKeys(Set(h, (1, "k"), Number(2)), a, "x");
    MapWritesCommuteIff(h, a, p, Number(1), a, q, Number(2));
    assert "x"[0] != "y"[0];
  }

  /** A path of two keys into a map of maps. */
  lemma TwoKeys(h: Heap, a: Val, f: string)
    requires |h| == 2 && a == MapRef(Some(0)) && h[0].Keyed? && h[1].Keyed?
    requires f in h[0].entries && h[0].entries[f] == MapRef(Some(1)) && "k" in h[1].entries && h[1].entries["k"].Number?
    ensures var p := [Key(f), Key("k")];
      && Maps(h, a, p) && Target(h, a, p) == (1, "k") && !Passes(h, a, p, (1, "k"))
      && Read(h, a, p) == Some(h[1].entries["k"])
      && forall n :: Accept(Last(h, a, p), Number(n)).Wrote?
  {
    var p := [Key(f), Key("k")];
    assert p[1..] == [Key("k")] && p[1..][1..] == [];
    assert Read(h, MapRef(Some(1)), p[1..]) == Some(h[1].entries["k"]);
    assert Maps(h, MapRef(Some(1)), p[1..]);
  }

  /** m = {"s": m}: m["s"]["s"] = {} is lost, since m["s"] is set back to m. */
  lemma SelfMapLosesWrite()
    ensures var (h, m, n, p) := ([Keyed(map["s" := MapRef(Some(0))]), Keyed(map[])], MapRef(Some(0)), MapRef(Some(1)),
                                 [Key("s"), Key("s")]);
      Write(h, PlaceOf(m), p, n) == (h, Wrote(m)) && Read(h, m, p) == Some(m)
  {
    hide Write;
    var (h, m, n, p) := ([Keyed(map["s" := MapRef(Some(0))]), Keyed(map[])], MapRef(Some(0)), MapRef(Some(1)),
                         [Key("s"), Key("s")]);
    assert p[1..] == [Key("s")] && p[1..][1..] == [];
    assert Read(h, m, p[1..]) == Some(m);
    assert Maps(h, m, p[1..]) && Target(h, m, p[1..]) == (0, "s");
    MapWrite(h, m, p, n);
  }

  /** v = [m, nil], an array of any: v[0]["k"] = 1 fails, for nil cannot be copied, with m["k"] already set. */
  lemma FailedWriteLeavesTrace()
    ensures var (h, v) := ([Listed([MapRef(Some(1)), Empty]), Keyed(map["k" := Number(0)])], SliceRef(TAny, Some(0)));
      var (h1, w) := Write(h, PlaceOf(v), [Index(0), Key("k")], Number(1));
      w.Broke? && Read(h1, v, [Index(0), Key("k")]) == Some(Number(1))
  {
    hide Write;
    var (h, v) := ([Listed([MapRef(Some(1)), Empty]), Keyed(map["k" := Number(0)])], SliceRef(TAny, Some(0)));
    var p, m := [Index(0), Key("k")], MapRef(Some(1));
    assert p[1..] == [Key("k")] && p[1..][1..] == [];
    WriteParts(h, PlaceOf(v), p, Number(1));
    assert Read(h, m, p[1..]) == Some(Number(0));
    assert Maps(h, m, p[1..]) && Target(h, m, p[1..]) == (1, "k");
    MapWrite(h, m, p[1..], Number(1));
    InterfaceTaken(h, m, p[1..], Number(1));
    var h1 := Set(h, (1, "k"), Number(1));
    assert ItemsOf(h1, v) == [m, Empty];
    NoCopyOfNil(h1, [m, Empty]);
    assert Read(h1, m, p[1..]) == Some(Number(1));
  }

  lemma InterfaceTaken(h: Heap, v: Val, p: seq<Access>, x: Val)
    requires p != [] && !v.Empty?
    ensures Write(h, Site(TAny, v), p, x) == Write(h, PlaceOf(v), p, x)
  {
    WriteParts(h, Site(TAny, v), p, x);
    WriteParts(h, PlaceOf(v), p, x);
  }

  lemma NoCopyOfNil(h: Heap, items: seq<Val>)
    requires items != [] && items[|items| - 1].Empty?
    ensures CopyEach(h, items).None?
  {
  }
}
