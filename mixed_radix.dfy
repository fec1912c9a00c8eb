/**
  Mixed-radix digits. Every flat index the windowing code computes is a
  row-major position in a (time, x1, x2, x3) grid, that is, a number written
  with a mixed radix. This module proves the two directions of that encoding
  once, so that the windowing modules can reuse them.
 */
module MixedRadix {

  /** The value of the two digits (a, b) when the low digit has radix r. */
  function Join(a: int, b: int, r: int): int
  {
    a * r + b
  }

  lemma MulMonotone(a: int, b: int, x: int)
    requires a <= b && x >= 0
    ensures a * x <= b * x
  {
    assert b * x - a * x == (b - a) * x;
  }

  /** Joining and then dividing by the radix gives the digits back. */
  lemma {:induction false} JoinSplit(a: int, b: int, r: int)
    requires r > 0 && 0 <= b < r
    ensures Join(a, b, r) / r == a && Join(a, b, r) % r == b
  {
    var x := a * r + b;
    var q, s := x / r, x % r;
    assert x == q * r + s;
    assert (a - q) * r == s - b;
    if a > q {
      MulMonotone(1, a - q, r);
      assert false;
    } else if a < q {
      MulMonotone(1, q - a, r);
      assert false;
    }
  }

  /** Dividing by the radix and joining gives the number back. */
  lemma SplitJoin(x: int, r: int)
    requires r > 0
    ensures Join(x / r, x % r, r) == x && 0 <= x % r < r
  {
  }

  /** A two-digit number with a bounded high digit is bounded. */
  lemma {:induction false} JoinBound(a: int, b: int, r: int, bound: int)
    requires r > 0 && 0 <= b < r && 0 <= a < bound
    ensures 0 <= Join(a, b, r) < bound * r
  {
    MulMonotone(a, bound - 1, r);
    MulMonotone(0, a, r);
    assert (bound - 1) * r + r == bound * r;
  }

  /** A bounded number has a bounded high digit. */
  lemma {:induction false} SplitBound(x: int, r: int, bound: int)
    requires r > 0 && 0 <= x < bound * r
    ensures 0 <= x / r < bound
  {
    SplitJoin(x, r);
    if x / r < 0 {
      MulMonotone(x / r, -1, r);
      assert false;
    }
    if x / r >= bound {
      MulMonotone(bound, x / r, r);
      assert false;
    }
  }

  /** Four digits, most significant first. */
  datatype Digits = Digits(d0: int, d1: int, d2: int, d3: int)

  /** Row-major position of the digits in a grid whose last three extents are r1, r2, r3. */
  function Encode(d: Digits, r1: int, r2: int, r3: int): int
  {
    Join(Join(Join(d.d0, d.d1, r1), d.d2, r2), d.d3, r3)
  }

  /** The digits of x, the inverse of Encode. */
  function Decode(x: int, r1: int, r2: int, r3: int): Digits
    requires r1 > 0 && r2 > 0 && r3 > 0
  {
    Digits(x / r3 / r2 / r1, x / r3 / r2 % r1, x / r3 % r2, x % r3)
  }

  ghost predicate InRange(d: Digits, r0: int, r1: int, r2: int, r3: int)
  {
    0 <= d.d0 < r0 && 0 <= d.d1 < r1 && 0 <= d.d2 < r2 && 0 <= d.d3 < r3
  }

  lemma {:induction false} DecodeEncode(d: Digits, r1: int, r2: int, r3: int)
    requires r1 > 0 && r2 > 0 && r3 > 0
    requires 0 <= d.d1 < r1 && 0 <= d.d2 < r2 && 0 <= d.d3 < r3
    ensures Decode(Encode(d, r1, r2, r3), r1, r2, r3) == d
  {
    var x1 := Join(d.d0, d.d1, r1);
    var x2 := Join(x1, d.d2, r2);
    JoinSplit(x2, d.d3, r3);
    JoinSplit(x1, d.d2, r2);
    JoinSplit(d.d0, d.d1, r1);
  }

  lemma {:induction false} EncodeDecode(x: int, r1: int, r2: int, r3: int)
    requires r1 > 0 && r2 > 0 && r3 > 0
    ensures Encode(Decode(x, r1, r2, r3), r1, r2, r3) == x
  {
    SplitJoin(x, r3);
    SplitJoin(x / r3, r2);
    SplitJoin(x / r3 / r2, r1);
  }

  /** Encoding digits in range gives a number below the grid's volume. */
  lemma {:induction false} EncodeBound(d: Digits, r0: int, r1: int, r2: int, r3: int)
    requires r1 > 0 && r2 > 0 && r3 > 0
    requires InRange(d, r0, r1, r2, r3)
    ensures 0 <= Encode(d, r1, r2, r3) < r0 * r1 * r2 * r3
  {
    JoinBound(d.d0, d.d1, r1, r0);
    JoinBound(Join(d.d0, d.d1, r1), d.d2, r2, r0 * r1);
    JoinBound(Join(Join(d.d0, d.d1, r1), d.d2, r2), d.d3, r3, r0 * r1 * r2);
  }

  /** The low digits of any number are in range; the leading digit of a natural number is natural. */
  lemma DecodeDigits(x: int, r1: int, r2: int, r3: int)
    requires r1 > 0 && r2 > 0 && r3 > 0
    ensures var d := Decode(x, r1, r2, r3);
            0 <= d.d1 < r1 && 0 <= d.d2 < r2 && 0 <= d.d3 < r3 && (x >= 0 ==> d.d0 >= 0)
  {
    if x >= 0 {
      DivNonNegative(x, r3);
      DivNonNegative(x / r3, r2);
      DivNonNegative(x / r3 / r2, r1);
    }
  }

  /** The quotient of a natural number by a positive radix is natural. */
  lemma DivNonNegative(x: int, r: int)
    requires x >= 0 && r > 0
    ensures x / r >= 0
  {
    SplitJoin(x, r);
    if x / r < 0 {
      MulMonotone(x / r, -1, r);
    }
  }

  /** Decoding a number below the grid's volume gives digits in range. */
  lemma {:induction false} DecodeBound(x: int, r0: int, r1: int, r2: int, r3: int)
    requires r1 > 0 && r2 > 0 && r3 > 0
    requires 0 <= x < r0 * r1 * r2 * r3
    ensures InRange(Decode(x, r1, r2, r3), r0, r1, r2, r3)
  {
    SplitBound(x, r3, r0 * r1 * r2);
    SplitBound(x / r3, r2, r0 * r1);
    SplitBound(x / r3 / r2, r1, r0);
  }

  /** Counting up: the next number, and the carries when a digit reaches its radix. */
  lemma Carry(t: int, i: int, j: int, r1: int, r2: int, r3: int)
    ensures Encode(Digits(t, i, j, r3), r1, r2, r3) == Encode(Digits(t, i, j + 1, 0), r1, r2, r3)
    ensures Encode(Digits(t, i, r2, 0), r1, r2, r3) == Encode(Digits(t, i + 1, 0, 0), r1, r2, r3)
    ensures Encode(Digits(t, r1, 0, 0), r1, r2, r3) == Encode(Digits(t + 1, 0, 0, 0), r1, r2, r3)
    ensures Encode(Digits(t, 0, 0, 0), r1, r2, r3) == t * r1 * r2 * r3
  {
    var x := Join(Join(t, i, r1), j, r2);
    assert x * r3 + r3 == (x + 1) * r3;
    var y := Join(t, i, r1);
    assert y * r2 + r2 == (y + 1) * r2;
    assert t * r1 + r1 == (t + 1) * r1;
  }

  /** The leading digit selects a block of r1*r2*r3 consecutive numbers. */
  lemma {:induction false} EncodeBlock(d: Digits, r1: int, r2: int, r3: int)
    requires r1 > 0 && r2 > 0 && r3 > 0
    requires 0 <= d.d1 < r1 && 0 <= d.d2 < r2 && 0 <= d.d3 < r3
    ensures Encode(d, r1, r2, r3) == d.d0 * (r1 * r2 * r3) + Encode(Digits(0, d.d1, d.d2, d.d3), r1, r2, r3)
    ensures d.d0 * (r1 * r2 * r3) <= Encode(d, r1, r2, r3) < (d.d0 + 1) * (r1 * r2 * r3)
  {
    var low := Digits(0, d.d1, d.d2, d.d3);
    EncodeBound(low, 1, r1, r2, r3);
    assert Encode(d, r1, r2, r3) == d.d0 * (r1 * r2 * r3) + Encode(low, r1, r2, r3);
  }

  /** Distinct digits in range encode to distinct numbers. */
  lemma EncodeInjective(d: Digits, e: Digits, r1: int, r2: int, r3: int)
    requires r1 > 0 && r2 > 0 && r3 > 0
    requires 0 <= d.d1 < r1 && 0 <= d.d2 < r2 && 0 <= d.d3 < r3
    requires 0 <= e.d1 < r1 && 0 <= e.d2 < r2 && 0 <= e.d3 < r3
    requires Encode(d, r1, r2, r3) == Encode(e, r1, r2, r3)
    ensures d == e
  {
    DecodeEncode(d, r1, r2, r3);
    DecodeEncode(e, r1, r2, r3);
  }

  /** Adding a to the leading digit adds a whole number of blocks. */
  lemma EncodeShift(a: int, d: Digits, r1: int, r2: int, r3: int)
    ensures Encode(Digits(a + d.d0, d.d1, d.d2, d.d3), r1, r2, r3) == a * (r1 * r2 * r3) + Encode(d, r1, r2, r3)
  {
    assert (a + d.d0) * r1 * r2 * r3 == a * (r1 * r2 * r3) + d.d0 * r1 * r2 * r3;
  }

  /** Regrouping a product of four factors. */
  lemma MulAssoc(a: int, b: int, c: int, d: int)
    ensures a * b * c * d == a * (b * c * d)
  {
    assert a * b * c == a * (b * c);
    assert a * (b * c) * d == a * (b * c * d);
  }

  /** Horner form of a four-digit number, expanded (digits most significant first, radices n3, n2, n1). */
  lemma ExpandFour(a: int, b: int, c: int, x: int, n1: int, n2: int, n3: int)
    ensures ((a * n3 + b) * n2 + c) * n1 + x == a * (n1 * n2 * n3) + b * (n1 * n2) + c * n1 + x
  {
    assert (a * n3 + b) * n2 == a * n3 * n2 + b * n2;
    assert ((a * n3 + b) * n2 + c) * n1 == a * n3 * n2 * n1 + b * n2 * n1 + c * n1;
    assert a * n3 * n2 * n1 == a * (n1 * n2 * n3);
    assert b * n2 * n1 == b * (n1 * n2);
  }

  lemma Distribute(a: int, b: int, x: int)
    ensures (a + b) * x == a * x + b * x
  {
  }

  /** A positive factor can be cancelled from an inequality. */
  lemma {:induction false} MulCancel(a: int, b: int, x: int)
    requires x > 0 && a * x <= b * x
    ensures a <= b
  {
    if a > b {
      assert (b + 1) * x == b * x + x;
      MulMonotone(b + 1, a, x);
    }
  }
}
