/** Writing an element of an []int variable, at any index: the slice grows to fit. */
module GrowingArray {
  import opened Phrases

  datatype Write = Write(index: nat, value: int)

  /** The contents after one write. */
  function Written(s: seq<int>, w: Write): seq<int> {
    if w.index < |s| then s[w.index := w.value]
    else s + seq(w.index - |s|, _ => 0) + [w.value]
  }

  function WrittenAll(s: seq<int>, ws: seq<Write>): seq<int> {
    if ws == [] then s else Written(WrittenAll(s, ws[..|ws| - 1]), ws[|ws| - 1])
  }

  /** One past the highest index ever written, or 0. */
  function Reach(ws: seq<Write>): nat {
    if ws == [] then 0
    else
      var before := Reach(ws[..|ws| - 1]);
      if ws[|ws| - 1].index < before then before else ws[|ws| - 1].index + 1
  }

  /** The last value written at an index, if any was. */
  function LastWrite(ws: seq<Write>, k: nat): Option<int> {
    if ws == [] then None
    else if ws[|ws| - 1].index == k then Some(ws[|ws| - 1].value)
    else LastWrite(ws[..|ws| - 1], k)
  }

  /**
    After any writes the array is as long as it was or as the highest index asks, and holds at
    each index what was written there last, else what was there at first, else zero.
   */
  lemma {:induction false} WritesAgreeWithIndexMap(s: seq<int>, ws: seq<Write>)
    ensures |WrittenAll(s, ws)| == if Reach(ws) < |s| then |s| else Reach(ws)
    ensures forall k :: 0 <= k < |WrittenAll(s, ws)| ==>
      WrittenAll(s, ws)[k] ==
        if LastWrite(ws, k).Some? then LastWrite(ws, k).value else if k < |s| then s[k] else 0
    decreases |ws|
  {
    if ws != [] {
      WritesAgreeWithIndexMap(s, ws[..|ws| - 1]);
      ReachBounds(ws[..|ws| - 1]);
    }
  }

  /** Nothing is written at or beyond the reach. */
  lemma {:induction false} ReachBounds(ws: seq<Write>)
    ensures forall k: nat :: k >= Reach(ws) ==> LastWrite(ws, k) == None
    decreases |ws|
  {
    if ws != [] {
      ReachBounds(ws[..|ws| - 1]);
    }
  }

  /** A slice held by a variable: the array behind it, whose size is its capacity, and its length. */
  class IntVariable {
    var backing: array<int>
    var len: nat

    ghost predicate Valid()
      reads this
    {
      len <= backing.Length
    }

    ghost function Contents(): seq<int>
      reads this, backing
      requires Valid()
    {
      backing[..len]
    }

    constructor (initial: seq<int>)
      ensures Valid() && Contents() == initial && fresh(backing)
    {
      backing := new int[|initial|](i requires 0 <= i < |initial| => initial[i]);
      len := |initial|;
    }

    /** A zeroed array of a given size with the contents copied into it. */
    method CopyOf(size: nat) returns (newar: array<int>)
      requires Valid() && size >= len
      ensures fresh(newar) && newar[..] == Contents() + seq(size - len, _ => 0)
    {
      newar := new int[size](_ => 0);
      var i := 0;
      while i < len
        invariant i <= len
        invariant forall k :: 0 <= k < size ==> newar[k] == if k < i then backing[k] else 0
      {
        newar[i] := backing[i];
        i := i + 1;
      }
    }

    /** Writes an element, remaking the slice when it is too short; false for the panic on a negative index. */
    method VsetElement(numel: int, value: int) returns (ok: bool)
      requires Valid()
      modifies this, backing
      ensures Valid() && (ok <==> numel >= 0) && (fresh(backing) || backing == old(backing))
      ensures backing.Length >= old(backing.Length)
      ensures Contents() == if ok then Written(old(Contents()), Write(numel, value)) else old(Contents())
    {
      var sz, ll := backing.Length, len;
      if numel >= sz || numel >= ll {
        var newend := sz;
        if numel >= sz {
          newend := sz * 2;
        }
        if sz == 0 {
          newend := 1;
        }
        if numel >= newend {
          newend := numel + 1;
        }
        var newar := CopyOf(newend);
        backing, len := newar, numel + 1;
      }
      if numel < 0 {
        return false;
      }
      backing[numel] := value;
      ok := true;
    }
  }
}
