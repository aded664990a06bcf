/**
 A rank-4 tensor as the numeric library lays it out: a shape and one flat
 sequence of values in row-major order (the last axis varies fastest).
 Building a tensor from a flat buffer never copies, reorders or converts a
 value; only the indexing changes.
 */
module Tensor {

  datatype Shape4 = Shape4(d0: nat, d1: nat, d2: nat, d3: nat)

  /** Number of elements a tensor of shape `s` holds. */
  function Size(s: Shape4): nat {
    s.d0 * s.d1 * s.d2 * s.d3
  }

  datatype Tensor4 = Tensor4(shape: Shape4, data: seq<real>)

  /** True iff the flat buffer holds exactly as many values as the shape asks for. */
  predicate WellFormed(t: Tensor4) {
    |t.data| == Size(t.shape)
  }

  predicate InBounds(s: Shape4, i0: int, i1: int, i2: int, i3: int) {
    0 <= i0 < s.d0 && 0 <= i1 < s.d1 && 0 <= i2 < s.d2 && 0 <= i3 < s.d3
  }

  /** One step of a mixed-radix number: the value `x` so far, shifted by radix `m`, plus digit `i`. */
  function Digit(x: nat, i: nat, m: nat): nat {
    x * m + i
  }

  /* A number below n, shifted by m and given a digit below m, stays below n * m. */
  lemma DigitBound(a: nat, n: nat, b: nat, m: nat)
    requires a < n && b < m
    ensures Digit(a, b, m) < n * m
  {
    var gap := n - (a + 1);
    assert n * m == (a + 1) * m + gap * m;
  }

  /* The value so far and the last digit are determined by the result. */
  lemma DigitUnique(a: nat, b: nat, a': nat, b': nat, m: nat)
    requires b < m && b' < m
    requires Digit(a, b, m) == Digit(a', b', m)
    ensures a == a' && b == b'
  {
    if a < a' {
      DigitBound(a, a', b, m);
      assert false;
    } else if a' < a {
      DigitBound(a', a, b', m);
      assert false;
    }
  }

  /** Position in the flat buffer of element (i0, i1, i2, i3): row-major, last axis fastest. */
  function Offset(s: Shape4, i0: nat, i1: nat, i2: nat, i3: nat): nat {
    Digit(Digit(Digit(i0, i1, s.d1), i2, s.d2), i3, s.d3)
  }

  /** Every in-bounds element has its position inside the flat buffer. */
  lemma OffsetInRange(s: Shape4, i0: nat, i1: nat, i2: nat, i3: nat)
    requires InBounds(s, i0, i1, i2, i3)
    ensures Offset(s, i0, i1, i2, i3) < Size(s)
  {
    DigitBound(i0, s.d0, i1, s.d1);
    DigitBound(Digit(i0, i1, s.d1), s.d0 * s.d1, i2, s.d2);
    DigitBound(Digit(Digit(i0, i1, s.d1), i2, s.d2), s.d0 * s.d1 * s.d2, i3, s.d3);
  }

  /** Distinct elements never share a flat position, so the layout neither merges nor drops values. */
  lemma OffsetInjective(s: Shape4, i0: nat, i1: nat, i2: nat, i3: nat,
                        j0: nat, j1: nat, j2: nat, j3: nat)
    requires InBounds(s, i0, i1, i2, i3) && InBounds(s, j0, j1, j2, j3)
    requires Offset(s, i0, i1, i2, i3) == Offset(s, j0, j1, j2, j3)
    ensures i0 == j0 && i1 == j1 && i2 == j2 && i3 == j3
  {
    var x1, y1 := Digit(i0, i1, s.d1), Digit(j0, j1, s.d1);
    var x2, y2 := Digit(x1, i2, s.d2), Digit(y1, j2, s.d2);
    DigitUnique(x2, i3, y2, j3, s.d3);
    DigitUnique(x1, i2, y1, j2, s.d2);
    DigitUnique(i0, i1, j0, j1, s.d1);
  }

  /**
   Wraps a flat buffer as a tensor of shape `s` (tf.tensor4d). The library
   refuses a buffer whose length differs from the shape's size; the model
   makes that the caller's obligation.
   */
  function Tensor4d(values: seq<real>, s: Shape4): (t: Tensor4)
    requires |values| == Size(s)
    ensures WellFormed(t) && t.shape == s
  {
    Tensor4(s, values)
  }

  /** Element (i0, i1, i2, i3) of a well-formed tensor. */
  function At(t: Tensor4, i0: nat, i1: nat, i2: nat, i3: nat): real
    requires WellFormed(t) && InBounds(t.shape, i0, i1, i2, i3)
  {
    OffsetInRange(t.shape, i0, i1, i2, i3);
    t.data[Offset(t.shape, i0, i1, i2, i3)]
  }
}
