/**
  Four nested `for ... in range(...)` loops that append one value per
  iteration, as the vertex lists of `to_windowed` are built. The n-th
  appended value is f applied to the digits of n in the radices of the
  three inner loops.
 */
module LoopNest {
  import opened MixedRadix

  /** The list the loops produce: f of every (t, i, j, k), t outermost and k innermost. */
  function NestList(r0: nat, r1: nat, r2: nat, r3: nat, f: Digits -> int): seq<int>
  {
    if r1 > 0 && r2 > 0 && r3 > 0 then
      seq(r0 * r1 * r2 * r3, n requires 0 <= n => f(Decode(n, r1, r2, r3)))
    else
      []
  }

  /** vs holds the first |vs| values of the loop nest. */
  ghost predicate Prefix(vs: seq<int>, r1: nat, r2: nat, r3: nat, f: Digits -> int)
  {
    forall n :: 0 <= n < |vs| ==> r1 > 0 && r2 > 0 && r3 > 0 && vs[n] == f(Decode(n, r1, r2, r3))
  }

  lemma PrefixAppend(vs: seq<int>, r1: nat, r2: nat, r3: nat, f: Digits -> int, t: nat, i: nat, j: nat, k: nat)
    requires Prefix(vs, r1, r2, r3, f)
    requires i < r1 && j < r2 && k < r3
    requires |vs| == Encode(Digits(t, i, j, k), r1, r2, r3)
    ensures Prefix(vs + [f(Digits(t, i, j, k))], r1, r2, r3, f)
  {
    DecodeEncode(Digits(t, i, j, k), r1, r2, r3);
  }

  lemma PrefixComplete(vs: seq<int>, r0: nat, r1: nat, r2: nat, r3: nat, f: Digits -> int)
    requires |vs| == r0 * r1 * r2 * r3 && Prefix(vs, r1, r2, r3, f)
    ensures vs == NestList(r0, r1, r2, r3, f)
  {
    if !(r1 > 0 && r2 > 0 && r3 > 0) {
      assert |vs| == 0;
    }
  }

  /** The loops themselves. */
  method Loops(r0: nat, r1: nat, r2: nat, r3: nat, f: Digits -> int) returns (out: seq<int>)
    ensures out == NestList(r0, r1, r2, r3, f)
  {
    out := [];
    for t := 0 to r0
      invariant |out| == Encode(Digits(t, 0, 0, 0), r1, r2, r3)
      invariant Prefix(out, r1, r2, r3, f)
    {
      for i := 0 to r1
        invariant |out| == Encode(Digits(t, i, 0, 0), r1, r2, r3)
        invariant Prefix(out, r1, r2, r3, f)
      {
        for j := 0 to r2
          invariant |out| == Encode(Digits(t, i, j, 0), r1, r2, r3)
          invariant Prefix(out, r1, r2, r3, f)
        {
          for k := 0 to r3
            invariant |out| == Encode(Digits(t, i, j, k), r1, r2, r3)
            invariant Prefix(out, r1, r2, r3, f)
          {
            PrefixAppend(out, r1, r2, r3, f, t, i, j, k);
            out := out + [f(Digits(t, i, j, k))];
          }
          Carry(t, i, j, r1, r2, r3);
        }
        Carry(t, i, r2, r1, r2, r3);
      }
      Carry(t, r1, 0, r1, r2, r3);
    }
    Carry(r0, 0, 0, r1, r2, r3);
    PrefixComplete(out, r0, r1, r2, r3, f);
  }

  /** The loops run r0*r1*r2*r3 times. */
  lemma NestLength(r0: nat, r1: nat, r2: nat, r3: nat, f: Digits -> int)
    ensures |NestList(r0, r1, r2, r3, f)| == r0 * r1 * r2 * r3
  {
  }

  /** The value of iteration (t, i, j, k) sits at position Encode(t, i, j, k). */
  lemma {:induction false} NestAt(r0: nat, r1: nat, r2: nat, r3: nat, f: Digits -> int, d: Digits)
    requires InRange(d, r0, r1, r2, r3)
    ensures var n := Encode(d, r1, r2, r3);
            0 <= n < |NestList(r0, r1, r2, r3, f)| && NestList(r0, r1, r2, r3, f)[n] == f(d)
  {
    EncodeBound(d, r0, r1, r2, r3);
    DecodeEncode(d, r1, r2, r3);
  }

  /** The position n holds f of the digits of n, which are in range. */
  lemma {:induction false} NestDigits(r0: nat, r1: nat, r2: nat, r3: nat, f: Digits -> int, n: int)
    requires 0 <= n < |NestList(r0, r1, r2, r3, f)|
    ensures r1 > 0 && r2 > 0 && r3 > 0
    ensures InRange(Decode(n, r1, r2, r3), r0, r1, r2, r3)
    ensures NestList(r0, r1, r2, r3, f)[n] == f(Decode(n, r1, r2, r3))
  {
    DecodeBound(n, r0, r1, r2, r3);
  }

  /** Loops that append equal values produce equal lists. */
  lemma NestListExt(r0: nat, r1: nat, r2: nat, r3: nat, f: Digits -> int, h: Digits -> int)
    requires forall d :: f(d) == h(d)
    ensures NestList(r0, r1, r2, r3, f) == NestList(r0, r1, r2, r3, h)
  {
    if r1 > 0 && r2 > 0 && r3 > 0 {
      forall n | 0 <= n < r0 * r1 * r2 * r3
        ensures f(Decode(n, r1, r2, r3)) == h(Decode(n, r1, r2, r3))
      {
      }
    }
  }
}
