/**
  The first write to a variable, through keys: the maps it makes hold one entry each, so the value
  is found at the path written and nowhere else.
 */
module FirstWrites {
  import opened Phrases
  import opened NestedData
  import opened SharedData

  predicate Keys(p: seq<Access>) { forall i :: 0 <= i < |p| ==> p[i].Key? }

  /** The value is found at the path, and nothing off the path is found at all. */
  ghost predicate OnlyPath(h: Heap, v: Val, p: seq<Access>, x: Val) {
    Read(h, v, p) == Some(x) && forall q :: Read(h, v, q).Some? ==> q <= p || p <= q
  }

  /** From v a chain of maps with one entry each, all of them at lo or later, leads by the keys of p to x. */
  predicate Chain(h: Heap, v: Val, p: seq<Access>, x: Val, lo: nat)
    decreases |p|
  {
    if p == [] then v == x else v.MapRef? && p[0].Key? && Linked(h, v.at, p, x, lo)
  }

  predicate Linked(h: Heap, at: Option<nat>, p: seq<Access>, x: Val, lo: nat)
    requires p != [] && p[0].Key?
    decreases |p|, 0
  {
    && at.Some? && lo <= at.value < |h| && h[at.value].Keyed? && h[at.value].entries.Keys == {p[0].k}
    && Chain(h, h[at.value].entries[p[0].k], p[1..], x, lo)
  }

  /** What is earlier than the chain does not matter to it. */
  lemma {:induction false} ChainKept(h: Heap, h': Heap, v: Val, p: seq<Access>, x: Val, lo: nat, from: nat)
    requires Chain(h, v, p, x, lo) && from <= lo && |h'| == |h|
    requires forall r :: lo <= r < |h| ==> h'[r] == h[r]
    ensures Chain(h', v, p, x, from)
    decreases |p|
  {
    if p != [] {
      ChainKept(h, h', h[v.at.value].entries[p[0].k], p[1..], x, lo, from);
    }
  }

  lemma {:induction false} ChainReads(h: Heap, v: Val, p: seq<Access>, x: Val, lo: nat)
    requires Chain(h, v, p, x, lo)
    ensures Read(h, v, p) == Some(x)
    decreases |p|
  {
    if p != [] {
      ChainReads(h, h[v.at.value].entries[p[0].k], p[1..], x, lo);
    }
  }

  lemma {:induction false} ChainReadsOnly(h: Heap, v: Val, p: seq<Access>, x: Val, lo: nat, q: seq<Access>)
    requires Chain(h, v, p, x, lo) && Read(h, v, q).Some?
    ensures q <= p || p <= q
    decreases |p|
  {
    if p != [] && q != [] {
      assert PartOf(h, v, q[0]).Some?;
      assert q[0] == p[0];
      ChainReadsOnly(h, h[v.at.value].entries[p[0].k], p[1..], x, lo, q[1..]);
      assert p == [p[0]] + p[1..] && q == [q[0]] + q[1..];
    }
  }

  /** A write by keys from nothing makes a chain, and changes nothing there was. */
  lemma {:induction false} WriteFromNothing(h: Heap, p: seq<Access>, x: Val)
    requires Keys(p) && !x.Empty?
    ensures var (h1, w) := Write(h, Absent, p, x);
      w.Wrote? && !w.v.Empty? && h <= h1 && Chain(h1, w.v, p, x, |h|)
    decreases |p|
  {
    hide Write;
    if p == [] {
      WriteHere(h, x);
    } else {
      WriteParts(h, Absent, p, x);
      var h0 := h + [Keyed(map[])];
      WriteFromNothing(h0, p[1..], x);
      var (h1, w) := Write(h0, Absent, p[1..], x);
      assert h1[|h|] == h0[|h|];
      ChainKept(h1, SetEntry(h1, |h|, p[0].k, w.v), w.v, p[1..], x, |h0|, |h|);
    }
  }

  lemma WriteHere(h: Heap, x: Val)
    ensures Write(h, Absent, [], x) == (h, Wrote(x))
  {
  }

  /** A variable given an empty map to start from is written as from nothing. */
  lemma WriteFromEmptyMap(h: Heap, p: seq<Access>, x: Val)
    requires p != [] && p[0].Key?
    ensures Write(h + [Keyed(map[])], PlaceOf(MapRef(Some(|h|))), p, x) == Write(h, Absent, p, x)
  {
    hide Write, Leave;
    WriteParts(h, Absent, p, x);
    WriteParts(h + [Keyed(map[])], PlaceOf(MapRef(Some(|h|))), p, x);
  }

  /**
    The first write of a value that is not nil, at a path of keys: it succeeds, the variable is a
    new map, the value is found at the path and nothing is found off it.
   */
  lemma FirstKeyedWrite(h: Heap, p: seq<Access>, x: Val)
    requires p != [] && Keys(p) && !x.Empty?
    ensures var (h1, w) := Write(h + [Keyed(map[])], PlaceOf(MapRef(Some(|h|))), p, x);
      w == Wrote(MapRef(Some(|h|))) && h <= h1 && OnlyPath(h1, w.v, p, x)
  {
    hide Write;
    WriteFromEmptyMap(h, p, x);
    WriteFromNothing(h, p, x);
    var (h1, w) := Write(h, Absent, p, x);
    WriteParts(h, Absent, p, x);
    ChainReads(h1, w.v, p, x, |h|);
    forall q | Read(h1, w.v, q).Some?
      ensures q <= p || p <= q
    {
      ChainReadsOnly(h1, w.v, p, x, |h|, q);
    }
  }
}
