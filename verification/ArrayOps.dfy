/**
  Arithmetic on nested arrays: element by element when the shapes agree, and with a scalar spread
  over every element. The scalar operation is a parameter.
 */
module ArrayOps {
  import opened Phrases

  datatype Value<T> = Scalar(s: T) | Slice(items: seq<Value<T>>)

  /**
    An operator: what it does to scalars, and whether scalar-with-slice is handed on as
    slice-with-scalar, as addition and multiplication do and subtraction does not.
   */
  datatype Operator<!T> = Operator(op: (T, T) -> T, swaps: bool)

  predicate SameShape<T>(a: Value<T>, b: Value<T>) {
    match a
    case Scalar(_) => b.Scalar?
    case Slice(items) =>
      b.Slice? && |items| == |b.items| && forall i :: 0 <= i < |items| ==> SameShape(items[i], b.items[i])
  }

  /** The same shape with s everywhere. */
  function Fill<T>(v: Value<T>, s: T): Value<T> {
    match v
    case Scalar(_) => Scalar(s)
    case Slice(items) => Slice(seq(|items|, i requires 0 <= i < |items| => Fill(items[i], s)))
  }

  /** The scalar at an index path. */
  function At<T>(v: Value<T>, path: seq<nat>): Option<T> {
    match v
    case Scalar(s) => if path == [] then Some(s) else None
    case Slice(items) => if path != [] && path[0] < |items| then At(items[path[0]], path[1..]) else None
  }

  // ---------------------------------------------------------------- the operations

  /** Both operands slices or both scalars; the shapes agree. */
  function Zipped<T>(op: (T, T) -> T, a: Value<T>, b: Value<T>): Value<T>
    requires SameShape(a, b)
  {
    match a
    case Scalar(s) => Scalar(op(s, b.s))
    case Slice(items) => Slice(seq(|items|, i requires 0 <= i < |items| => Zipped(op, items[i], b.items[i])))
  }

  /** The scalar met by every element, in front of it or after it. */
  function Spread<T>(op: (T, T) -> T, s: T, v: Value<T>, first: bool): Value<T> {
    match v
    case Scalar(e) => Scalar(if first then op(s, e) else op(e, s))
    case Slice(items) => Slice(seq(|items|, i requires 0 <= i < |items| => Spread(op, s, items[i], first)))
  }

  /** An operator on two values; None where the source panics on a shape mismatch. */
  function Apply<T>(o: Operator<T>, a: Value<T>, b: Value<T>): Option<Value<T>> {
    if a.Slice? == b.Slice? then (if SameShape(a, b) then Some(Zipped(o.op, a, b)) else None)
    else if a.Slice? then Some(Spread(o.op, b.s, a, false))
    else Some(Spread(o.op, a.s, b, !o.swaps))
  }

  // ---------------------------------------------------------------- shapes and elements

  /** The result has the operands' shape, and at every index path the operation of what they have there. */
  lemma {:induction false} ZippedPointwise<T>(op: (T, T) -> T, a: Value<T>, b: Value<T>, path: seq<nat>)
    requires SameShape(a, b)
    ensures SameShape(Zipped(op, a, b), a)
    ensures At(a, path).Some? <==> At(b, path).Some?
    ensures At(Zipped(op, a, b), path) ==
      if At(a, path).Some? then Some(op(At(a, path).value, At(b, path).value)) else None
    decreases a
  {
    if a.Slice? {
      forall i | 0 <= i < |a.items|
        ensures SameShape(Zipped(op, a.items[i], b.items[i]), a.items[i])
      {
        ZippedPointwise(op, a.items[i], b.items[i], []);
      }
      if path != [] && path[0] < |a.items| {
        ZippedPointwise(op, a.items[path[0]], b.items[path[0]], path[1..]);
      }
    }
  }

  lemma {:induction false} FillSameShape<T>(v: Value<T>, s: T)
    ensures SameShape(Fill(v, s), v) && SameShape(v, Fill(v, s))
    decreases v
  {
    if v.Slice? {
      forall i | 0 <= i < |v.items|
        ensures SameShape(Fill(v.items[i], s), v.items[i]) && SameShape(v.items[i], Fill(v.items[i], s))
      {
        FillSameShape(v.items[i], s);
      }
    }
  }

  // ---------------------------------------------------------------- spreading is filling

  lemma {:induction false} SpreadIsFilled<T>(op: (T, T) -> T, s: T, v: Value<T>, first: bool)
    ensures SameShape(Fill(v, s), v) && SameShape(v, Fill(v, s))
    ensures Spread(op, s, v, first) == if first then Zipped(op, Fill(v, s), v) else Zipped(op, v, Fill(v, s))
    decreases v
  {
    FillSameShape(v, s);
    if v.Slice? {
      forall i | 0 <= i < |v.items|
        ensures SameShape(Fill(v.items[i], s), v.items[i]) && SameShape(v.items[i], Fill(v.items[i], s))
        ensures Spread(op, s, v.items[i], first) ==
          if first then Zipped(op, Fill(v.items[i], s), v.items[i]) else Zipped(op, v.items[i], Fill(v.items[i], s))
      {
        SpreadIsFilled(op, s, v.items[i], first);
      }
    }
  }

  /** Every element of v commutes with s. */
  predicate CommutesWith<T(==)>(op: (T, T) -> T, s: T, v: Value<T>) {
    match v
    case Scalar(e) => op(s, e) == op(e, s)
    case Slice(items) => forall i :: 0 <= i < |items| ==> CommutesWith(op, s, items[i])
  }

  lemma {:induction false} SpreadOrderIffCommutes<T>(op: (T, T) -> T, s: T, v: Value<T>)
    ensures Spread(op, s, v, true) == Spread(op, s, v, false) <==> CommutesWith(op, s, v)
    decreases v
  {
    if v.Slice? {
      forall i | 0 <= i < |v.items|
        ensures Spread(op, s, v.items[i], true) == Spread(op, s, v.items[i], false) <==> CommutesWith(op, s, v.items[i])
        ensures Spread(op, s, v, true).items[i] == Spread(op, s, v.items[i], true)
        ensures Spread(op, s, v, false).items[i] == Spread(op, s, v.items[i], false)
      {
        SpreadOrderIffCommutes(op, s, v.items[i]);
      }
      if CommutesWith(op, s, v) {
        assert Spread(op, s, v, true).items == Spread(op, s, v, false).items;
      }
    }
  }

  /** A scalar after an array means an array of that shape filled with the scalar. */
  lemma ScalarAfterMeansFilled<T>(o: Operator<T>, v: Value<T>, s: T)
    requires v.Slice?
    ensures Apply(o, v, Scalar(s)) == Apply(o, v, Fill(v, s))
  {
    SpreadIsFilled(o.op, s, v, false);
  }

  /**
    A scalar before an array means the filled array before it, always for an operator that does
    not swap; for one that swaps exactly when the scalar commutes with every element.
   */
  lemma ScalarBeforeMeansFilledIff<T>(o: Operator<T>, s: T, v: Value<T>)
    requires v.Slice?
    ensures Apply(o, Scalar(s), v) == Apply(o, Fill(v, s), v) <==> !o.swaps || CommutesWith(o.op, s, v)
  {
    SpreadIsFilled(o.op, s, v, true);
    SpreadOrderIffCommutes(o.op, s, v);
  }

  function Concat(x: string, y: string): string { x + y }

  /** Text added to a list of texts lands behind them: the swapped operand shows when order matters. */
  lemma TextAddedBehind()
    ensures Apply(Operator(Concat, true), Scalar("a"), Slice([Scalar("b")])) == Some(Slice([Scalar("ba")]))
    ensures Apply(Operator(Concat, true), Slice([Scalar("a")]), Slice([Scalar("b")])) == Some(Slice([Scalar("ab")]))
  {
    assert Concat("b", "a") == "ba" && Concat("a", "b") == "ab";
    assert Spread(Concat, "a", Scalar("b"), false) == Scalar("ba");
    assert Zipped(Concat, Scalar("a"), Scalar("b")) == Scalar("ab");
    assert Spread(Concat, "a", Slice([Scalar("b")]), false).items == [Scalar("ba")];
    assert Zipped(Concat, Slice([Scalar("a")]), Slice([Scalar("b")])).items == [Scalar("ab")];
  }

  // ---------------------------------------------------------------- the loops

  /** Compares the dimensions at every depth. */
  method CheckShape<T>(a: Value<T>, b: Value<T>) returns (ok: bool)
    requires a.Slice? && b.Slice?
    ensures ok <==> SameShape(a, b)
    decreases a
  {
    if |a.items| != |b.items| {
      return false;
    }
    var i := 0;
    while i < |a.items|
      invariant i <= |a.items| && forall j :: 0 <= j < i ==> SameShape(a.items[j], b.items[j])
    {
      var ai, bi := a.items[i], b.items[i];
      if ai.Slice? && bi.Slice? {
        var same := CheckShape(ai, bi);
        if !same {
          return false;
        }
      } else if ai.Slice? || bi.Slice? {
        return false;
      }
      i := i + 1;
    }
    ok := true;
  }

  /** Combines two operands, scalars or slices, into a fresh result. */
  method ApplyElementwiseBinaryOp<T>(op: (T, T) -> T, a: Value<T>, b: Value<T>) returns (r: Option<Value<T>>)
    ensures r == Apply(Operator(op, false), a, b)
    ensures r.Some? <==> SameShape(a, b) || a.Scalar? || b.Scalar?
    decreases a
  {
    if a.Scalar? && b.Scalar? {
      return Some(Scalar(op(a.s, b.s)));
    }
    if a.Scalar? {
      var v := BroadcastScalarToSlice(op, a.s, b, true);
      return Some(v);
    }
    if b.Scalar? {
      var v := BroadcastScalarToSlice(op, b.s, a, false);
      return Some(v);
    }
    var same := CheckShape(a, b);
    if !same {
      return None;
    }
    var result: seq<Value<T>> := [];
    var i := 0;
    while i < |a.items|
      invariant i <= |a.items| && |result| == i
      invariant forall j :: 0 <= j < i ==> result[j] == Zipped(op, a.items[j], b.items[j])
    {
      var elem := ApplyElementwiseBinaryOp(op, a.items[i], b.items[i]);
      result := result + [elem.value];
      i := i + 1;
    }
    assert result == Zipped(op, a, b).items;
    return Some(Slice(result));
  }

  /** Meets every element of a slice with the scalar. */
  method BroadcastScalarToSlice<T>(op: (T, T) -> T, scalar: T, slice: Value<T>, first: bool) returns (r: Value<T>)
    requires slice.Slice?
    ensures r == Spread(op, scalar, slice, first)
    decreases slice
  {
    var result: seq<Value<T>> := [];
    var i := 0;
    while i < |slice.items|
      invariant i <= |slice.items| && |result| == i
      invariant forall j :: 0 <= j < i ==> result[j] == Spread(op, scalar, slice.items[j], first)
    {
      var elem := slice.items[i];
      if elem.Slice? {
        elem := BroadcastScalarToSlice(op, scalar, elem, first);
      } else {
        elem := Scalar(if first then op(scalar, elem.s) else op(elem.s, scalar));
      }
      result := result + [elem];
      i := i + 1;
    }
    assert result == Spread(op, scalar, slice, first).items;
    return Slice(result);
  }

  /** The head of ev_add, ev_sub and ev_mul: which operands go where. */
  method Evaluate<T>(o: Operator<T>, val1: Value<T>, val2: Value<T>) returns (r: Option<Value<T>>)
    ensures r == Apply(o, val1, val2)
  {
    if o.swaps && val1.Scalar? && val2.Slice? {
      r := ApplyElementwiseBinaryOp(o.op, val2, val1);
    } else {
      r := ApplyElementwiseBinaryOp(o.op, val1, val2);
    }
  }
}
