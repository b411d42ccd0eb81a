/** Exact arithmetic used by the filter model: sums of windows and integer powers. */
module Arith {

  /** Sum of a window of samples. */
  function Sum(s: seq<real>): real
  {
    if |s| == 0 then 0.0 else s[0] + Sum(s[1..])
  }

  /** Integer power, the exact counterpart of the divisor nSamples^nPasses. */
  function Pow(b: int, e: nat): int
  {
    if e == 0 then 1 else b * Pow(b, e - 1)
  }

  /** Replacing one entry of a window changes its sum by the difference: the O(1) sliding-sum step. */
  lemma {:induction false} SumUpdate(s: seq<real>, i: nat, v: real)
    requires i < |s|
    ensures Sum(s[i := v]) == Sum(s) - s[i] + v
  {
    if i == 0 {
      assert s[i := v][1..] == s[1..];
    } else {
      assert s[i := v][1..] == s[1..][i - 1 := v];
      SumUpdate(s[1..], i - 1, v);
    }
  }

  /** A window filled with one value sums to that value times its length. */
  lemma {:induction false} SumConstant(s: seq<real>, c: real)
    requires forall k :: 0 <= k < |s| ==> s[k] == c
    ensures Sum(s) == |s| as real * c
  {
    if |s| > 0 {
      SumConstant(s[1..], c);
    }
  }

  /** The sum of two windows laid end to end. */
  lemma {:induction false} SumConcat(a: seq<real>, b: seq<real>)
    ensures Sum(a + b) == Sum(a) + Sum(b)
    decreases |a|
  {
    if |a| > 0 {
      assert (a + b)[0] == a[0] && (a + b)[1..] == a[1..] + b;
      SumConcat(a[1..], b);
    } else {
      assert a + b == b;
    }
  }

  /** A rotated window has the same sum. */
  lemma SumRotate(s: seq<real>, r: nat)
    requires r <= |s|
    ensures Sum(s[r..] + s[..r]) == Sum(s)
  {
    SumConcat(s[r..], s[..r]);
    SumConcat(s[..r], s[r..]);
    assert s[..r] + s[r..] == s;
  }

  /** Powers of a positive base are positive; a zero base gives zero for a positive exponent. */
  lemma {:induction false} PowSign(b: int, e: nat)
    requires b >= 0
    ensures b > 0 ==> Pow(b, e) > 0
    ensures b == 0 && e > 0 ==> Pow(b, e) == 0
    ensures b == 1 ==> Pow(b, e) == 1
  {
    if e > 0 {
      PowSign(b, e - 1);
    }
  }

  /** The real-valued step of a power, needed where integer powers meet real samples. */
  lemma PowStepReal(b: int, e: nat)
    requires e > 0
    ensures Pow(b, e) as real == b as real * Pow(b, e - 1) as real
  {
  }
}
