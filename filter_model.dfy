/**
 * Value-level model of the cascaded moving-average filter.
 *
 * A state holds, for every pass p and element e, the ring of the last
 * `samples` values fed into that pass (hist[p][e]), the unnormalised running
 * sum of the pass (sums[p][e]) and the shared ring index. One add feeds the
 * raw sample into pass 0 and the freshly updated sum of pass p-1 into pass p.
 */
module FilterModel {
  import opened Arith

  /** Dimensions of a filter: passes x elements x samples per ring. */
  datatype Shape = Shape(passes: nat, elements: nat, samples: nat)

  datatype FilterState = FilterState(hist: seq<seq<seq<real>>>, sums: seq<seq<real>>, index: nat)

  /** Nominal time between two sensor samples (50 Hz), in nanoseconds. */
  const NominalIntervalNanos: int := 20_000_000

  predicate Shaped(sh: Shape, st: FilterState)
  {
    && |st.hist| == sh.passes
    && |st.sums| == sh.passes
    && (forall p :: 0 <= p < sh.passes ==> |st.hist[p]| == sh.elements && |st.sums[p]| == sh.elements)
    && (forall p, e :: 0 <= p < sh.passes && 0 <= e < sh.elements ==> |st.hist[p][e]| == sh.samples)
  }

  /** Well shaped, with the ring index pointing at a slot. */
  predicate Ready(sh: Shape, st: FilterState)
  {
    Shaped(sh, st) && st.index < sh.samples
  }

  /** The running sum of every pass and element is the sum of its ring. */
  predicate Consistent(sh: Shape, st: FilterState)
    requires Shaped(sh, st)
  {
    forall p, e :: 0 <= p < sh.passes && 0 <= e < sh.elements ==> st.sums[p][e] == Sum(st.hist[p][e])
  }

  /** The circular successor of an index (nextIndex). */
  function NextIndex(index: int, n: int): (r: int)
    ensures 0 <= index < n ==> 0 <= r < n && r == (index + 1) % n
    ensures index == n - 1 ==> r == 0
  {
    if index + 1 == n then 0 else index + 1
  }

  /**
   * The value one add feeds into pass p for element e: the raw sample for
   * pass 0, otherwise the new running sum of pass p-1.
   */
  function Feed(sh: Shape, st: FilterState, x: seq<real>, p: nat, e: nat): (r: real)
    requires Ready(sh, st) && |x| == sh.elements
    requires p < sh.passes && e < sh.elements
    ensures p == 0 ==> r == x[e]
    decreases p
  {
    if p == 0 then x[e]
    else st.sums[p - 1][e] + Feed(sh, st, x, p - 1, e) - st.hist[p - 1][e][st.index]
  }

  /** The ring of pass p, element e after one add. */
  function NewRing(sh: Shape, st: FilterState, x: seq<real>, p: nat, e: nat): seq<real>
    requires Ready(sh, st) && |x| == sh.elements
    requires p < sh.passes && e < sh.elements
  {
    st.hist[p][e][st.index := Feed(sh, st, x, p, e)]
  }

  /** The running sum of pass p, element e after one add. */
  function NewSum(sh: Shape, st: FilterState, x: seq<real>, p: nat, e: nat): real
    requires Ready(sh, st) && |x| == sh.elements
    requires p < sh.passes && e < sh.elements
  {
    st.sums[p][e] + Feed(sh, st, x, p, e) - st.hist[p][e][st.index]
  }

  /** One cascaded add (_add): every ring overwrites its slot `index`, every sum is slid. */
  function AddOnce(sh: Shape, st: FilterState, x: seq<real>): (r: FilterState)
    requires Ready(sh, st) && |x| == sh.elements
    ensures Ready(sh, r)
  {
    FilterState(
      seq(sh.passes, p requires 0 <= p < sh.passes =>
        seq(sh.elements, e requires 0 <= e < sh.elements => NewRing(sh, st, x, p, e))),
      seq(sh.passes, p requires 0 <= p < sh.passes =>
        seq(sh.elements, e requires 0 <= e < sh.elements => NewSum(sh, st, x, p, e))),
      NextIndex(st.index, sh.samples))
  }

  /** `k` cascaded adds of the same sample, in order. */
  function AddTimes(sh: Shape, st: FilterState, x: seq<real>, k: nat): (r: FilterState)
    requires Ready(sh, st) && |x| == sh.elements
    ensures Ready(sh, r)
    decreases k
  {
    if k == 0 then st else AddOnce(sh, AddTimes(sh, st, x, k - 1), x)
  }

  /** Pass-through add: the sample overwrites the first pass's result, nothing else changes. */
  function CopyIn(sh: Shape, st: FilterState, x: seq<real>): (r: FilterState)
    requires Shaped(sh, st) && |x| == sh.elements && sh.passes >= 1
    ensures Shaped(sh, r)
    ensures r.sums[0] == x && r.hist == st.hist && r.index == st.index
    ensures forall p :: 0 < p < sh.passes ==> r.sums[p] == st.sums[p]
  {
    st.(sums := st.sums[0 := x])
  }

  /** The read-out of getResults: the chosen pass's sums, scaled by the multiplier. */
  function Readout(sh: Shape, st: FilterState, last: nat, mul: real): (r: seq<real>)
    requires Shaped(sh, st) && last < sh.passes
    ensures |r| == sh.elements
    ensures forall e :: 0 <= e < sh.elements ==> r[e] == st.sums[last][e] * mul
  {
    seq(sh.elements, e requires 0 <= e < sh.elements => st.sums[last][e] * mul)
  }

  /** The multiplier of the read-out: 1/divisor when the divisor is positive, otherwise 1. */
  function Multiplier(divisor: int): (m: real)
    ensures divisor > 0 ==> m * divisor as real == 1.0
    ensures divisor <= 0 ==> m == 1.0
  {
    if divisor > 0 then 1.0 / divisor as real else 1.0
  }

  /**
   * Math.round((time - lastTime) * Frequency) with Frequency = 1 / 20,000,000 per
   * nanosecond: the number of nominal intervals in `elapsed`, rounded half up.
   */
  function GapAdds(elapsed: int): (r: int)
    ensures r * NominalIntervalNanos - NominalIntervalNanos / 2 <= elapsed
    ensures elapsed < r * NominalIntervalNanos + NominalIntervalNanos / 2
  {
    (elapsed + NominalIntervalNanos / 2) / NominalIntervalNanos
  }

  /** Number of cascaded adds a time-aware add performs (the loop runs zero times for a non-positive count). */
  function AddsFor(lastTime: int, time: int): (n: nat)
    ensures lastTime == 0 ==> n == 1
    ensures lastTime != 0 ==> n == (if GapAdds(time - lastTime) > 0 then GapAdds(time - lastTime) else 0)
  {
    var c := if lastTime == 0 then 1 else GapAdds(time - lastTime);
    if c > 0 then c else 0
  }

  /** The all-zero state the constructor starts from. */
  function Initial(sh: Shape): (r: FilterState)
    ensures Shaped(sh, r) && r.index == 0
    ensures forall p, e, k :: 0 <= p < sh.passes && 0 <= e < sh.elements && 0 <= k < sh.samples ==> r.hist[p][e][k] == 0.0
    ensures forall p, e :: 0 <= p < sh.passes && 0 <= e < sh.elements ==> r.sums[p][e] == 0.0
  {
    FilterState(
      seq(sh.passes, p => seq(sh.elements, e => seq(sh.samples, k => 0.0))),
      seq(sh.passes, p => seq(sh.elements, e => 0.0)),
      0)
  }

  // ---------------------------------------------------------------------------
  // Properties of one add
  // ---------------------------------------------------------------------------

  /**
   * The cascade: pass 0 stores the raw sample, pass p>0 stores the sum of pass
   * p-1 as updated by this same add; only slot `index` of each ring is written;
   * each sum gains the stored value and loses the value it overwrote.
   */
  lemma {:induction false} AddOnceSlots(sh: Shape, st: FilterState, x: seq<real>)
    requires Ready(sh, st) && |x| == sh.elements
    ensures var r := AddOnce(sh, st, x);
      && r.index == NextIndex(st.index, sh.samples)
      && (forall e :: 0 <= e < sh.elements && 0 < sh.passes ==> r.hist[0][e][st.index] == x[e])
      && (forall p, e :: 0 < p < sh.passes && 0 <= e < sh.elements ==> r.hist[p][e][st.index] == r.sums[p - 1][e])
      && (forall p, e, k :: 0 <= p < sh.passes && 0 <= e < sh.elements && 0 <= k < sh.samples && k != st.index ==>
            r.hist[p][e][k] == st.hist[p][e][k])
      && (forall p, e :: 0 <= p < sh.passes && 0 <= e < sh.elements ==>
            r.sums[p][e] == st.sums[p][e] + r.hist[p][e][st.index] - st.hist[p][e][st.index])
  {
  }

  /** What one add does to pass p, as AddOnceSlots states it for every pass. */
  predicate PassStep(sh: Shape, st: FilterState, x: seq<real>, r: FilterState, p: nat)
    requires Ready(sh, st) && Shaped(sh, r) && |x| == sh.elements && p < sh.passes
  {
    && (forall e :: 0 <= e < sh.elements ==>
          r.hist[p][e][st.index] == (if p == 0 then x[e] else r.sums[p - 1][e]))
    && (forall e, k :: 0 <= e < sh.elements && 0 <= k < sh.samples && k != st.index ==>
          r.hist[p][e][k] == st.hist[p][e][k])
    && (forall e :: 0 <= e < sh.elements ==>
          r.sums[p][e] == st.sums[p][e] + r.hist[p][e][st.index] - st.hist[p][e][st.index])
  }

  /** Every pass of an add is such a step. */
  lemma AddOnceSteps(sh: Shape, st: FilterState, x: seq<real>, p: nat)
    requires Ready(sh, st) && |x| == sh.elements && p < sh.passes
    ensures PassStep(sh, st, x, AddOnce(sh, st, x), p)
  {
    AddOnceSlots(sh, st, x);
  }

  /** One add keeps every running sum equal to the sum of its ring. */
  lemma {:induction false} AddPreservesConsistency(sh: Shape, st: FilterState, x: seq<real>)
    requires Ready(sh, st) && |x| == sh.elements && Consistent(sh, st)
    ensures Consistent(sh, AddOnce(sh, st, x))
  {
    var r := AddOnce(sh, st, x);
    forall p, e | 0 <= p < sh.passes && 0 <= e < sh.elements
      ensures r.sums[p][e] == Sum(r.hist[p][e])
    {
      SumUpdate(st.hist[p][e], st.index, Feed(sh, st, x, p, e));
    }
  }

  /** Any number of adds keeps the running sums consistent. */
  lemma {:induction false} AddTimesPreservesConsistency(sh: Shape, st: FilterState, x: seq<real>, k: nat)
    requires Ready(sh, st) && |x| == sh.elements && Consistent(sh, st)
    ensures Consistent(sh, AddTimes(sh, st, x, k))
    decreases k
  {
    if k > 0 {
      AddTimesPreservesConsistency(sh, st, x, k - 1);
      AddPreservesConsistency(sh, AddTimes(sh, st, x, k - 1), x);
    }
  }

  /** a adds followed by b adds are a + b adds. */
  lemma {:induction false} AddTimesSplit(sh: Shape, st: FilterState, x: seq<real>, a: nat, b: nat)
    requires Ready(sh, st) && |x| == sh.elements
    ensures AddTimes(sh, st, x, a + b) == AddTimes(sh, AddTimes(sh, st, x, a), x, b)
    decreases b
  {
    if b > 0 {
      AddTimesSplit(sh, st, x, a, b - 1);
    }
  }

  /** The initial all-zero state is consistent. */
  lemma InitialConsistent(sh: Shape)
    ensures Consistent(sh, Initial(sh))
  {
    var st := Initial(sh);
    forall p, e | 0 <= p < sh.passes && 0 <= e < sh.elements
      ensures st.sums[p][e] == Sum(st.hist[p][e])
    {
      SumConstant(st.hist[p][e], 0.0);
    }
  }

  // ---------------------------------------------------------------------------
  // Convergence on a constant input
  // ---------------------------------------------------------------------------

  /** The steady value of pass q on constant input v: samples^q * v. */
  function Level(n: nat, q: nat, v: real): real
  {
    if q == 0 then v else n as real * Level(n, q - 1, v)
  }

  /** Passes 0..p-1 hold, in every slot, samples^q times the constant input x. */
  predicate Settled(sh: Shape, st: FilterState, x: seq<real>, p: nat)
    requires Shaped(sh, st) && |x| == sh.elements && p <= sh.passes
  {
    forall q, e, k :: 0 <= q < p && 0 <= e < sh.elements && 0 <= k < sh.samples ==>
      st.hist[q][e][k] == Level(sh.samples, q, x[e])
  }

  /** Over settled passes, every pass up to p is fed samples^p times the input. */
  lemma {:induction false} FeedSettled(sh: Shape, st: FilterState, x: seq<real>, p: nat, q: nat, e: nat)
    requires Ready(sh, st) && |x| == sh.elements && Consistent(sh, st)
    requires p <= sh.passes && Settled(sh, st, x, p)
    requires q <= p && q < sh.passes && e < sh.elements
    ensures Feed(sh, st, x, q, e) == Level(sh.samples, q, x[e])
    decreases q
  {
    if q > 0 {
      FeedSettled(sh, st, x, p, q - 1, e);
      var ring := st.hist[q - 1][e];
      SumConstant(ring, Level(sh.samples, q - 1, x[e]));
    }
  }

  /** A settled prefix of passes stays settled under further adds of the same input. */
  lemma {:induction false} StaySettled(sh: Shape, st: FilterState, x: seq<real>, p: nat)
    requires Ready(sh, st) && |x| == sh.elements && Consistent(sh, st)
    requires p <= sh.passes && Settled(sh, st, x, p)
    ensures Settled(sh, AddOnce(sh, st, x), x, p)
  {
    var r := AddOnce(sh, st, x);
    forall q, e, k | 0 <= q < p && 0 <= e < sh.elements && 0 <= k < sh.samples
      ensures r.hist[q][e][k] == Level(sh.samples, q, x[e])
    {
      if k == st.index {
        FeedSettled(sh, st, x, p, q, e);
      }
    }
  }

  /** Distance from index i0 forward to slot k around a ring of n slots. */
  function Distance(i0: nat, k: nat, n: nat): nat
    requires i0 < n && k < n
  {
    if k >= i0 then k - i0 else k + n - i0
  }

  /** Index i reduced once around a ring of n slots. */
  function Wrap(i: nat, n: nat): nat
  {
    if i < n then i else i - n
  }

  /** One add while pass p is being filled: the slot at distance j-1 from i0 is written. */
  lemma {:induction false} FillStep(sh: Shape, st: FilterState, x: seq<real>, p: nat, i0: nat, j: nat)
    requires Ready(sh, st) && |x| == sh.elements && Consistent(sh, st)
    requires p < sh.passes && Settled(sh, st, x, p)
    requires i0 < sh.samples && 0 < j <= sh.samples && st.index == Wrap(i0 + j - 1, sh.samples)
    requires forall e, k :: 0 <= e < sh.elements && 0 <= k < sh.samples && Distance(i0, k, sh.samples) < j - 1 ==>
      st.hist[p][e][k] == Level(sh.samples, p, x[e])
    ensures var r := AddOnce(sh, st, x);
      && Consistent(sh, r) && Settled(sh, r, x, p)
      && r.index == Wrap(i0 + j, sh.samples)
      && forall e, k :: 0 <= e < sh.elements && 0 <= k < sh.samples && Distance(i0, k, sh.samples) < j ==>
           r.hist[p][e][k] == Level(sh.samples, p, x[e])
  {
    var r := AddOnce(sh, st, x);
    AddPreservesConsistency(sh, st, x);
    StaySettled(sh, st, x, p);
    AddOnceSlots(sh, st, x);
    assert Distance(i0, st.index, sh.samples) == j - 1;
    forall e, k | 0 <= e < sh.elements && 0 <= k < sh.samples && Distance(i0, k, sh.samples) < j
      ensures r.hist[p][e][k] == Level(sh.samples, p, x[e])
    {
      if k == st.index {
        FeedSettled(sh, st, x, p, p, e);
      }
    }
  }

  /**
   * While passes 0..p-1 are settled, j adds (j <= samples) fill the j slots of
   * pass p that follow the starting index with samples^p times the input.
   */
  lemma {:induction false} Filling(sh: Shape, st: FilterState, x: seq<real>, p: nat, j: nat)
    requires Ready(sh, st) && |x| == sh.elements && Consistent(sh, st)
    requires p < sh.passes && Settled(sh, st, x, p) && j <= sh.samples
    ensures var r := AddTimes(sh, st, x, j);
      && Consistent(sh, r) && Settled(sh, r, x, p)
      && r.index == Wrap(st.index + j, sh.samples)
      && forall e, k :: 0 <= e < sh.elements && 0 <= k < sh.samples && Distance(st.index, k, sh.samples) < j ==>
           r.hist[p][e][k] == Level(sh.samples, p, x[e])
    decreases j
  {
    if j > 0 {
      Filling(sh, st, x, p, j - 1);
      FillStep(sh, AddTimes(sh, st, x, j - 1), x, p, st.index, j);
    }
  }

  /** `samples` adds of a constant input settle one more pass. */
  lemma {:induction false} SettleNextPass(sh: Shape, st: FilterState, x: seq<real>, p: nat)
    requires Ready(sh, st) && |x| == sh.elements && Consistent(sh, st)
    requires p < sh.passes && Settled(sh, st, x, p)
    ensures Consistent(sh, AddTimes(sh, st, x, sh.samples))
    ensures Settled(sh, AddTimes(sh, st, x, sh.samples), x, p + 1)
  {
    var r := AddTimes(sh, st, x, sh.samples);
    Filling(sh, st, x, p, sh.samples);
    forall q, e, k | 0 <= q < p + 1 && 0 <= e < sh.elements && 0 <= k < sh.samples
      ensures r.hist[q][e][k] == Level(sh.samples, q, x[e])
    {
      assert Distance(st.index, k, sh.samples) < sh.samples;
    }
  }

  /** p rounds of n adds, counted without multiplication. */
  function Rounds(n: nat, p: nat): nat
  {
    if p == 0 then 0 else Rounds(n, p - 1) + n
  }

  lemma {:induction false} RoundsIsProduct(n: nat, p: nat)
    ensures Rounds(n, p) == p * n
  {
    if p > 0 {
      RoundsIsProduct(n, p - 1);
    }
  }

  /** Round p of `samples` adds settles pass p-1 on top of passes 0..p-2. */
  lemma {:induction false} SettleRound(sh: Shape, st: FilterState, x: seq<real>, p: nat)
    requires Ready(sh, st) && |x| == sh.elements
    requires 0 < p <= sh.passes
    requires Consistent(sh, AddTimes(sh, st, x, Rounds(sh.samples, p - 1)))
    requires Settled(sh, AddTimes(sh, st, x, Rounds(sh.samples, p - 1)), x, p - 1)
    ensures Consistent(sh, AddTimes(sh, st, x, Rounds(sh.samples, p)))
    ensures Settled(sh, AddTimes(sh, st, x, Rounds(sh.samples, p)), x, p)
  {
    var a := Rounds(sh.samples, p - 1);
    var mid := AddTimes(sh, st, x, a);
    SettleNextPass(sh, mid, x, p - 1);
    AddTimesSplit(sh, st, x, a, sh.samples);
    var b := Rounds(sh.samples, p);
    assert b == a + sh.samples;
    assert AddTimes(sh, st, x, b) == AddTimes(sh, mid, x, sh.samples);
  }

  /** From any consistent state, p rounds of `samples` adds of a constant input settle passes 0..p-1. */
  lemma {:induction false} Converge(sh: Shape, st: FilterState, x: seq<real>, p: nat)
    requires Ready(sh, st) && |x| == sh.elements && Consistent(sh, st)
    requires p <= sh.passes
    ensures Consistent(sh, AddTimes(sh, st, x, Rounds(sh.samples, p)))
    ensures Settled(sh, AddTimes(sh, st, x, Rounds(sh.samples, p)), x, p)
    decreases p
  {
    if p > 0 {
      Converge(sh, st, x, p - 1);
      SettleRound(sh, st, x, p);
    }
  }

  /** The steady value of pass q is samples^q times the input. */
  lemma {:induction false} LevelIsPower(n: nat, q: nat, v: real)
    ensures Level(n, q, v) == Pow(n, q) as real * v
    decreases q
  {
    if q > 0 {
      LevelIsPower(n, q - 1, v);
      PowStepReal(n, q);
      MulAssoc(n as real, Pow(n, q - 1) as real, v);
    }
  }

  lemma MulAssoc(a: real, b: real, c: real)
    ensures a * (b * c) == (a * b) * c
  {
  }

  lemma Unscale(a: real, d: real, m: real, v: real)
    requires a == d * v && m * d == 1.0
    ensures a * m == v
  {
    calc {
      a * m;
      (d * v) * m;
      (m * d) * v;
      v;
    }
  }

  /** A settled last pass holds samples^passes times the input in its running sum. */
  lemma {:induction false} SettledSum(sh: Shape, st: FilterState, x: seq<real>, e: nat)
    requires Ready(sh, st) && |x| == sh.elements && Consistent(sh, st)
    requires sh.passes >= 1 && Settled(sh, st, x, sh.passes) && e < sh.elements
    ensures st.sums[sh.passes - 1][e] == Pow(sh.samples, sh.passes) as real * x[e]
  {
    SumConstant(st.hist[sh.passes - 1][e], Level(sh.samples, sh.passes - 1, x[e]));
    assert st.sums[sh.passes - 1][e] == Level(sh.samples, sh.passes, x[e]);
    LevelIsPower(sh.samples, sh.passes, x[e]);
  }

  /** Once every pass is settled, the read-out is the input itself. */
  lemma {:induction false} SettledReadout(sh: Shape, st: FilterState, x: seq<real>)
    requires Ready(sh, st) && |x| == sh.elements && Consistent(sh, st)
    requires sh.passes >= 1 && Settled(sh, st, x, sh.passes)
    ensures Readout(sh, st, sh.passes - 1, Multiplier(Pow(sh.samples, sh.passes))) == x
  {
    PowSign(sh.samples, sh.passes);
    var d := Pow(sh.samples, sh.passes) as real;
    var m := Multiplier(Pow(sh.samples, sh.passes));
    var out := Readout(sh, st, sh.passes - 1, m);
    forall e | 0 <= e < sh.elements
      ensures out[e] == x[e]
    {
      SettledSum(sh, st, x, e);
      Unscale(st.sums[sh.passes - 1][e], d, m, x[e]);
    }
  }

  /**
   * The cascade of averages of a constant is the constant: from any consistent
   * state, passes * samples adds of x make the read-out (last pass's sum times
   * 1/samples^passes) exactly x.
   */
  lemma {:induction false} ConstantInputConverges(sh: Shape, st: FilterState, x: seq<real>)
    requires Ready(sh, st) && |x| == sh.elements && Consistent(sh, st)
    requires sh.passes >= 1
    ensures Readout(sh, AddTimes(sh, st, x, sh.passes * sh.samples), sh.passes - 1,
                    Multiplier(Pow(sh.samples, sh.passes))) == x
  {
    RoundsIsProduct(sh.samples, sh.passes);
    Converge(sh, st, x, sh.passes);
    SettledReadout(sh, AddTimes(sh, st, x, sh.passes * sh.samples), x);
  }

  /** With one pass, the read-out is the arithmetic mean of the ring. */
  lemma RingMean(sh: Shape, st: FilterState)
    requires Shaped(sh, st) && Consistent(sh, st) && sh.passes == 1 && sh.samples >= 1
    ensures forall e :: 0 <= e < sh.elements ==>
      Readout(sh, st, 0, Multiplier(Pow(sh.samples, 1)))[e] == Sum(st.hist[0][e]) / sh.samples as real
  {
  }

  // ---------------------------------------------------------------------------
  // The sliding window on a varying input
  // ---------------------------------------------------------------------------

  /** A sequence of samples, each with one value per element. */
  predicate Samples(sh: Shape, xs: seq<seq<real>>)
  {
    forall i :: 0 <= i < |xs| ==> |xs[i]| == sh.elements
  }

  /** The adds of xs[0], xs[1], ... in that order. */
  function AddSeq(sh: Shape, st: FilterState, xs: seq<seq<real>>): (r: FilterState)
    requires Ready(sh, st) && Samples(sh, xs)
    ensures Ready(sh, r)
    decreases |xs|
  {
    if |xs| == 0 then st else AddOnce(sh, AddSeq(sh, st, xs[..|xs| - 1]), xs[|xs| - 1])
  }

  /** The values of element e along a sequence of samples. */
  function Column(xs: seq<seq<real>>, e: nat): (c: seq<real>)
    requires forall i :: 0 <= i < |xs| ==> e < |xs[i]|
    ensures |c| == |xs| && forall i :: 0 <= i < |xs| ==> c[i] == xs[i][e]
  {
    seq(|xs|, i requires 0 <= i < |xs| => xs[i][e])
  }

  /** k adds of one sample are the adds of k copies of it. */
  lemma {:induction false} AddTimesIsAddSeq(sh: Shape, st: FilterState, x: seq<real>, k: nat)
    requires Ready(sh, st) && |x| == sh.elements
    ensures AddTimes(sh, st, x, k) == AddSeq(sh, st, seq(k, i => x))
    decreases k
  {
    if k > 0 {
      AddTimesIsAddSeq(sh, st, x, k - 1);
      assert seq(k, i => x)[..k - 1] == seq(k - 1, i => x);
    }
  }

  /** Adding xs[..m] and then xs[m..] is adding xs. */
  lemma {:induction false} AddSeqSplit(sh: Shape, st: FilterState, xs: seq<seq<real>>, m: nat)
    requires Ready(sh, st) && Samples(sh, xs) && m <= |xs|
    ensures AddSeq(sh, st, xs) == AddSeq(sh, AddSeq(sh, st, xs[..m]), xs[m..])
    decreases |xs|
  {
    if |xs| > m {
      var n := |xs|;
      AddSeqSplit(sh, st, xs[..n - 1], m);
      assert xs[..n - 1][..m] == xs[..m];
      assert xs[m..][..n - 1 - m] == xs[..n - 1][m..];
    } else {
      assert xs[..m] == xs;
    }
  }

  /** A run of adds keeps the running sums consistent. */
  lemma {:induction false} AddSeqPreservesConsistency(sh: Shape, st: FilterState, xs: seq<seq<real>>)
    requires Ready(sh, st) && Samples(sh, xs) && Consistent(sh, st)
    ensures Consistent(sh, AddSeq(sh, st, xs))
    decreases |xs|
  {
    if |xs| > 0 {
      AddSeqPreservesConsistency(sh, st, xs[..|xs| - 1]);
      AddPreservesConsistency(sh, AddSeq(sh, st, xs[..|xs| - 1]), xs[|xs| - 1]);
    }
  }

  /**
   * The ring of pass 0 is a window on the input ("add new value and remove the
   * first"): after j <= samples adds of xs, the slot at distance d < j from the
   * starting index holds sample xs[d], and every other slot is unchanged.
   */
  lemma {:induction false} RingWindow(sh: Shape, st: FilterState, xs: seq<seq<real>>)
    requires Ready(sh, st) && Samples(sh, xs) && sh.passes >= 1 && |xs| <= sh.samples
    ensures var r := AddSeq(sh, st, xs);
      && r.index == Wrap(st.index + |xs|, sh.samples)
      && (forall e, k :: 0 <= e < sh.elements && 0 <= k < sh.samples && Distance(st.index, k, sh.samples) < |xs| ==>
            r.hist[0][e][k] == xs[Distance(st.index, k, sh.samples)][e])
      && (forall e, k :: 0 <= e < sh.elements && 0 <= k < sh.samples && Distance(st.index, k, sh.samples) >= |xs| ==>
            r.hist[0][e][k] == st.hist[0][e][k])
    decreases |xs|
  {
    var j := |xs|;
    if j > 0 {
      var init := xs[..j - 1];
      RingWindow(sh, st, init);
      var mid := AddSeq(sh, st, init);
      AddOnceSlots(sh, mid, xs[j - 1]);
      assert Distance(st.index, mid.index, sh.samples) == j - 1;
      assert forall d :: 0 <= d < j - 1 ==> init[d] == xs[d];
    }
  }

  /** A ring laid out as RingWindow leaves it after `samples` adds is a rotation of the input column. */
  lemma RingIsRotation(ring: seq<real>, c: seq<real>, i0: nat)
    requires |ring| == |c| && i0 < |c|
    requires forall k :: 0 <= k < |c| ==> ring[k] == c[Distance(i0, k, |c|)]
    ensures ring == c[|c| - i0..] + c[..|c| - i0]
  {
  }

  /**
   * The sliding-window mean: with one pass, after any run of at least
   * `samples` adds from a consistent state, the read-out of each element is
   * the mean of its last `samples` inputs.
   */
  lemma {:induction false} SinglePassIsWindowMean(sh: Shape, st: FilterState, xs: seq<seq<real>>)
    requires Ready(sh, st) && Consistent(sh, st) && Samples(sh, xs)
    requires sh.passes == 1 && |xs| >= sh.samples
    ensures forall e :: 0 <= e < sh.elements ==>
      Readout(sh, AddSeq(sh, st, xs), 0, Multiplier(Pow(sh.samples, 1)))[e]
        == Sum(Column(xs[|xs| - sh.samples..], e)) / sh.samples as real
  {
    var n := sh.samples;
    var m := |xs| - n;
    var mid := AddSeq(sh, st, xs[..m]);
    var last := xs[m..];
    AddSeqPreservesConsistency(sh, st, xs[..m]);
    AddSeqSplit(sh, st, xs, m);
    var r := AddSeq(sh, mid, last);
    AddSeqPreservesConsistency(sh, mid, last);
    RingMean(sh, r);
    forall e | 0 <= e < sh.elements
      ensures Sum(r.hist[0][e]) == Sum(Column(last, e))
    {
      FullRingSum(sh, mid, last, e);
    }
  }

  /** After `samples` adds the ring of pass 0 sums to the sum of those samples. */
  lemma {:induction false} FullRingSum(sh: Shape, st: FilterState, xs: seq<seq<real>>, e: nat)
    requires Ready(sh, st) && Samples(sh, xs) && sh.passes >= 1 && |xs| == sh.samples && e < sh.elements
    ensures Sum(AddSeq(sh, st, xs).hist[0][e]) == Sum(Column(xs, e))
  {
    var n := sh.samples;
    var ring := AddSeq(sh, st, xs).hist[0][e];
    var c := Column(xs, e);
    RingWindow(sh, st, xs);
    forall k | 0 <= k < n
      ensures ring[k] == c[Distance(st.index, k, n)]
    {
      assert Distance(st.index, k, n) < n;
    }
    RingIsRotation(ring, c, st.index);
    SumRotate(c, n - st.index);
  }

  /**
   * Pass-through read-out: with one pass it echoes the latest sample; with more
   * passes the last pass is untouched by pass-through adds, so the read-out is
   * whatever it was (zero from the initial state).
   */
  lemma PassThroughReadout(sh: Shape, st: FilterState, x: seq<real>, last: nat)
    requires Shaped(sh, st) && |x| == sh.elements && sh.passes >= 1 && last < sh.passes
    ensures last == 0 ==> Readout(sh, CopyIn(sh, st, x), last, 1.0) == x
    ensures last > 0 ==> Readout(sh, CopyIn(sh, st, x), last, 1.0) == Readout(sh, st, last, 1.0)
  {
  }

  /** A gap of exactly k nominal intervals yields exactly k adds. */
  lemma GapOfWholeIntervals(k: int)
    ensures GapAdds(k * NominalIntervalNanos) == k
  {
  }
}
