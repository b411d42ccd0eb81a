/**
 * The orientation filter of dimyoux.engine.utils.filters: the cascaded
 * moving-average filter over arrays (MPMovingAverageFilter) and the
 * ingest/emit service that owns one (AveragingFilter).
 */
module Filters {
  import opened Arith
  import opened FilterModel

  class MPMovingAverageFilter {
    const nPasses: int
    const nSamples: int
    const nElements: int
    const passthrough: bool
    /** Running sum per pass and element, lastResult[pass, element]. */
    const lastResult: array2<real>
    /** Ring of fed values per pass and element, sampleHistory[pass, element, slot]. */
    const sampleHistory: array3<real>
    var iSamp: nat
    var iSampNext: nat
    const iLastPassResult: int
    /** Time of the last time-aware add, in nanoseconds; 0 means none yet. */
    var lastTime: int
    const divValue: int
    const mulValue: real

    /** The contents of the two arrays as values. */
    ghost var hist: seq<seq<seq<real>>>
    ghost var sums: seq<seq<real>>

    ghost function Dims(): Shape
      reads this
    {
      Shape(sampleHistory.Length0, sampleHistory.Length1, sampleHistory.Length2)
    }

    ghost function State(): FilterState
      reads this
    {
      FilterState(hist, sums, iSamp)
    }

    /** The arrays hold exactly the ghost contents. */
    ghost predicate Mirrors()
      reads this, sampleHistory, lastResult
      requires Shaped(Dims(), State())
      requires lastResult.Length0 == sampleHistory.Length0 && lastResult.Length1 == sampleHistory.Length1
    {
      && (forall p, e, k :: 0 <= p < sampleHistory.Length0 && 0 <= e < sampleHistory.Length1 && 0 <= k < sampleHistory.Length2 ==>
            sampleHistory[p, e, k] == hist[p][e][k])
      && (forall p, e :: 0 <= p < lastResult.Length0 && 0 <= e < lastResult.Length1 ==> lastResult[p, e] == sums[p][e])
    }

    /** In pass-through mode the history is never written and only the first pass's result is. */
    ghost predicate Untouched()
      reads this
      requires Shaped(Dims(), State())
    {
      && (forall p, e, k :: 0 <= p < Dims().passes && 0 <= e < Dims().elements && 0 <= k < Dims().samples ==> hist[p][e][k] == 0.0)
      && (forall p, e :: 1 <= p < Dims().passes && 0 <= e < Dims().elements ==> sums[p][e] == 0.0)
    }

    ghost predicate Valid()
      reads this, sampleHistory, lastResult
    {
      && nElements >= 1
      && sampleHistory.Length0 >= 1
      && sampleHistory.Length1 == nElements
      && lastResult.Length0 == sampleHistory.Length0 && lastResult.Length1 == sampleHistory.Length1
      && iLastPassResult == sampleHistory.Length0 - 1
      && divValue == Pow(sampleHistory.Length2, sampleHistory.Length0)
      && mulValue == Multiplier(divValue)
      && (passthrough ==> nPasses == 1 && nSamples == 1 && sampleHistory.Length2 <= 1)
      && (!passthrough ==> nSamples > 1 && nPasses == sampleHistory.Length0 && nSamples == sampleHistory.Length2)
      && iSamp < nSamples && iSampNext == iSamp
      && Shaped(Dims(), State())
      && Mirrors()
      && (!passthrough ==> Consistent(Dims(), State()))
      && (passthrough ==> Untouched())
    }

    /**
     * Filtering needs more than one sample and at least one pass; otherwise the
     * filter is a pass-through. The arrays and the divisor are sized from the
     * arguments, so pass-through arrays keep the requested pass count. With
     * no pass or no element the arrays are empty and every later add or
     * read-out would index past them, so only a filter with both is Valid.
     */
    constructor (nSamples: int, nPasses: int, nElements: int)
      requires nSamples >= 0 && nPasses >= 0 && nElements >= 0
      ensures nPasses >= 1 && nElements >= 1 ==> Valid()
      ensures fresh(sampleHistory) && fresh(lastResult)
      ensures passthrough == !(nSamples > 1 && nPasses > 0)
      ensures this.nSamples == (if passthrough then 1 else nSamples)
      ensures this.nPasses == (if passthrough then 1 else nPasses)
      ensures this.nElements == (if nElements > 1 then nElements else 1)
      ensures Dims() == Shape(nPasses, nElements, nSamples)
      ensures State() == Initial(Dims()) && lastTime == 0
      ensures divValue == Pow(nSamples, nPasses) && mulValue == Multiplier(divValue)
    {
      var filtering := nSamples > 1 && nPasses > 0;
      this.nSamples := if filtering then nSamples else 1;
      this.nPasses := if filtering then nPasses else 1;
      passthrough := !filtering;
      this.nElements := if nElements > 1 then nElements else 1;
      iSamp, iSampNext := 0, 0;
      // The successor computed here is discarded, so iSampNext stays equal to iSamp.
      var discarded := NextIndex(0, if filtering then nSamples else 1);
      sampleHistory := new real[nPasses, nElements, nSamples]((p, e, k) => 0.0);
      lastResult := new real[nPasses, nElements]((p, e) => 0.0);
      iLastPassResult := nPasses - 1;
      divValue := Pow(nSamples, nPasses - 1 + 1);
      mulValue := Multiplier(Pow(nSamples, nPasses - 1 + 1));
      lastTime := 0;
      hist := Initial(Shape(nPasses, nElements, nSamples)).hist;
      sums := Initial(Shape(nPasses, nElements, nSamples)).sums;
      new;
      InitialConsistent(Dims());
    }

    /** Pass-through add: copy the sample into the first pass's result. */
    method CopySample(sample: seq<real>)
      requires Valid() && passthrough && |sample| == nElements
      modifies this, lastResult
      ensures Valid()
      ensures State() == CopyIn(Dims(), old(State()), sample)
      ensures lastTime == old(lastTime) && iSampNext == old(iSampNext)
    {
      var iElem := 0;
      while iElem < nElements
        modifies lastResult
        invariant 0 <= iElem <= nElements
        invariant forall p, e :: 0 <= p < lastResult.Length0 && 0 <= e < nElements ==>
          lastResult[p, e] == (if p == 0 && e < iElem then sample[e] else sums[p][e])
      {
        lastResult[0, iElem] := sample[iElem];
        iElem := iElem + 1;
      }
      sums := sums[0 := sample];
    }

    /** Index bounds and dimensions shared by the filtering-mode loops. */
    ghost predicate Filtering()
      reads this
    {
      && nPasses == sampleHistory.Length0 && nPasses == lastResult.Length0
      && nElements == sampleHistory.Length1 && nElements == lastResult.Length1
      && nSamples == sampleHistory.Length2
      && iSamp < nSamples && iSampNext == iSamp
    }

    /** The arrays hold state `st`. */
    ghost predicate Holds(st: FilterState)
      reads this, sampleHistory, lastResult
      requires Filtering() && Shaped(Dims(), st)
    {
      && (forall p, e, k :: 0 <= p < nPasses && 0 <= e < nElements && 0 <= k < nSamples ==> sampleHistory[p, e, k] == st.hist[p][e][k])
      && (forall p, e :: 0 <= p < nPasses && 0 <= e < nElements ==> lastResult[p, e] == st.sums[p][e])
    }

    /** The arrays hold state `next` for the passes before `upTo` and state `st` from there on. */
    ghost predicate HoldsUpTo(st: FilterState, next: FilterState, upTo: int)
      reads this, sampleHistory, lastResult
      requires Filtering() && Shaped(Dims(), st) && Shaped(Dims(), next)
    {
      && (forall p, e, k :: 0 <= p < nPasses && 0 <= e < nElements && 0 <= k < nSamples ==>
            sampleHistory[p, e, k] == (if p < upTo then next.hist[p][e][k] else st.hist[p][e][k]))
      && (forall p, e :: 0 <= p < nPasses && 0 <= e < nElements ==>
            lastResult[p, e] == (if p < upTo then next.sums[p][e] else st.sums[p][e]))
    }

    /** The outer loop of _add: it takes the arrays from state `st` to its successor. */
    method UpdatePasses(sample: seq<real>, ghost st: FilterState)
      requires Filtering() && |sample| == nElements
      requires Ready(Dims(), st) && st.index == iSamp && Holds(st)
      modifies sampleHistory, lastResult
      ensures Holds(AddOnce(Dims(), st, sample))
    {
      ghost var next := AddOnce(Dims(), st, sample);
      var iPass := 0;
      while iPass < nPasses
        invariant 0 <= iPass <= nPasses
        invariant HoldsUpTo(st, next, iPass)
      {
        AddOnceSteps(Dims(), st, sample, iPass);
        UpdatePass(sample, st, next, iPass);
        iPass := iPass + 1;
      }
    }

    /** The inner loop of _add: pass iPass of every element is moved from `st` to `next`. */
    method UpdatePass(sample: seq<real>, ghost st: FilterState, ghost next: FilterState, iPass: int)
      requires Filtering() && |sample| == nElements && 0 <= iPass < nPasses
      requires Ready(Dims(), st) && Shaped(Dims(), next) && st.index == iSamp
      requires PassStep(Dims(), st, sample, next, iPass)
      requires HoldsUpTo(st, next, iPass)
      modifies sampleHistory, lastResult
      ensures HoldsUpTo(st, next, iPass + 1)
    {
      var iElem := 0;
      while iElem < nElements
        invariant 0 <= iElem <= nElements
        invariant forall p, e, k :: 0 <= p < nPasses && 0 <= e < nElements && 0 <= k < nSamples ==>
          sampleHistory[p, e, k] == (if p < iPass || (p == iPass && e < iElem) then next.hist[p][e][k] else st.hist[p][e][k])
        invariant forall p, e :: 0 <= p < nPasses && 0 <= e < nElements ==>
          lastResult[p, e] == (if p < iPass || (p == iPass && e < iElem) then next.sums[p][e] else st.sums[p][e])
      {
        // the first pass takes the sample, later passes the previous pass's fresh sum
        var toAdd := if iPass == 0 then sample[iElem] else lastResult[iPass - 1, iElem];
        lastResult[iPass, iElem] := lastResult[iPass, iElem] + toAdd - sampleHistory[iPass, iElem, iSampNext];
        sampleHistory[iPass, iElem, iSamp] := toAdd;
        iElem := iElem + 1;
      }
    }

    /** One cascaded add (_add): slide every pass's sum and overwrite slot iSamp of every ring. */
    method Add(sample: seq<real>)
      requires Valid() && !passthrough && |sample| == nElements
      modifies this, sampleHistory, lastResult
      ensures Valid()
      ensures State() == AddOnce(Dims(), old(State()), sample)
      ensures lastTime == old(lastTime)
    {
      ghost var st := State();
      UpdatePasses(sample, st);
      iSamp := NextIndex(iSamp, nSamples);
      iSampNext := NextIndex(iSampNext, nSamples);
      ghost var next := AddOnce(Dims(), st, sample);
      hist, sums := next.hist, next.sums;
      AddPreservesConsistency(Dims(), st, sample);
    }

    /** addSamples(float[]): one add, or a copy in pass-through mode; a wrong length changes nothing. */
    method AddSamples(sample: seq<real>) returns (ok: bool)
      requires Valid()
      modifies this, sampleHistory, lastResult
      ensures Valid()
      ensures ok == (|sample| == nElements)
      ensures !ok ==> unchanged(this, sampleHistory, lastResult)
      ensures ok && passthrough ==> State() == CopyIn(Dims(), old(State()), sample) && unchanged(sampleHistory)
      ensures ok && !passthrough ==> State() == AddOnce(Dims(), old(State()), sample)
      ensures lastTime == old(lastTime)
    {
      if |sample| != nElements {
        return false;
      }
      ok := true;
      if passthrough {
        CopySample(sample);
        return;
      }
      Add(sample);
    }

    /**
     * addSamples(float[], long): the first sample is added once, later ones once
     * per nominal interval elapsed since the previous time-aware add.
     */
    method AddSamplesAt(sample: seq<real>, time: int) returns (ok: bool)
      requires Valid()
      modifies this, sampleHistory, lastResult
      ensures Valid()
      ensures ok == (|sample| == nElements)
      ensures !ok ==> unchanged(this, sampleHistory, lastResult)
      ensures ok && passthrough ==>
        State() == CopyIn(Dims(), old(State()), sample) && unchanged(sampleHistory) && lastTime == old(lastTime)
      ensures ok && !passthrough ==>
        lastTime == time && State() == AddTimes(Dims(), old(State()), sample, AddsFor(old(lastTime), time))
    {
      if |sample| != nElements {
        return false;
      }
      ok := true;
      if passthrough {
        CopySample(sample);
        return;
      }
      var nAdds := if lastTime == 0 then 1 else GapAdds(time - lastTime);
      lastTime := time;
      AddRepeatedly(sample, nAdds);
    }

    /** The loop of addSamples(float[], long): `n` cascaded adds; none when n is not positive. */
    method AddRepeatedly(sample: seq<real>, n: int)
      requires Valid() && !passthrough && |sample| == nElements
      modifies this, sampleHistory, lastResult
      ensures Valid()
      ensures State() == AddTimes(Dims(), old(State()), sample, if n > 0 then n else 0)
      ensures lastTime == old(lastTime)
    {
      ghost var st := State();
      var i := 0;
      while i < n
        invariant 0 <= i <= (if n > 0 then n else 0)
        invariant Valid() && lastTime == old(lastTime)
        invariant State() == AddTimes(Dims(), st, sample, i)
        decreases n - i
      {
        Add(sample);
        i := i + 1;
      }
    }

    /** getResults: the last pass's sums times the multiplier; a wrong length leaves the array alone. */
    method GetResults(result: array<real>) returns (ok: bool)
      requires Valid()
      modifies result
      ensures ok == (result.Length == nElements)
      ensures !ok ==> unchanged(result)
      ensures ok ==> result[..] == Readout(Dims(), State(), iLastPassResult, mulValue)
    {
      if result.Length != nElements {
        return false;
      }
      ok := true;
      ghost var out := Readout(Dims(), State(), iLastPassResult, mulValue);
      assert forall e :: 0 <= e < nElements ==> lastResult[iLastPassResult, e] * mulValue == out[e];
      if passthrough {
        var iElem := 0;
        while iElem < nElements
          invariant 0 <= iElem <= nElements
          invariant forall e :: 0 <= e < iElem ==> result[e] == lastResult[0, e]
        {
          result[iElem] := lastResult[0, iElem];
          iElem := iElem + 1;
        }
      }
      // no return above: the last-pass formula always runs
      var iElem := 0;
      while iElem < nElements
        invariant 0 <= iElem <= nElements
        invariant forall e :: 0 <= e < iElem ==> result[e] == out[e]
      {
        result[iElem] := lastResult[iLastPassResult, iElem] * mulValue;
        iElem := iElem + 1;
      }
      assert result[..] == out;
    }
  }

  /** A filtered orientation as emitted to listeners. */
  datatype Orientation = Orientation(yaw: real, pitch: real, roll: real, timestamp: int)

  /** The orientation service: a 25-sample, 3-pass filter over yaw, pitch and roll. */
  class AveragingFilter {
    const sensorFilter: MPMovingAverageFilter
    var timestamp: int

    ghost predicate Valid()
      reads this, sensorFilter, sensorFilter.sampleHistory, sensorFilter.lastResult
    {
      sensorFilter.Valid() && !sensorFilter.passthrough && sensorFilter.Dims() == Shape(3, 3, 25)
    }

    constructor ()
      ensures Valid() && fresh(sensorFilter) && fresh(sensorFilter.sampleHistory) && fresh(sensorFilter.lastResult)
      ensures timestamp == 0 && sensorFilter.lastTime == 0
      ensures sensorFilter.State() == Initial(Shape(3, 3, 25))
    {
      sensorFilter := new MPMovingAverageFilter(25, 3, 3);
      timestamp := 0;
    }

    /** A raw sample: remember its time and feed it to the filter once, time-aware. */
    method OnOrientationChanged(yaw: real, pitch: real, roll: real, timestamp: int)
      requires Valid()
      modifies this, sensorFilter, sensorFilter.sampleHistory, sensorFilter.lastResult
      ensures Valid() && this.timestamp == timestamp && sensorFilter.lastTime == timestamp
      ensures sensorFilter.State() ==
        AddTimes(Shape(3, 3, 25), old(sensorFilter.State()), [yaw, pitch, roll], AddsFor(old(sensorFilter.lastTime), timestamp))
    {
      var values := [yaw, pitch, roll];
      this.timestamp := timestamp;
      var accepted := sensorFilter.AddSamplesAt(values, timestamp);
    }

    /**
     * The timer tick: read the filter and emit its result with the stored
     * timestamp. Nothing changes, so ticks without a sample in between emit
     * the same orientation.
     */
    method Run() returns (emitted: Orientation)
      requires Valid()
      ensures var s := sensorFilter.State().sums;
        emitted == Orientation(s[2][0] / 15625.0, s[2][1] / 15625.0, s[2][2] / 15625.0, timestamp)
    {
      var valuesF := new real[3];
      var filled := sensorFilter.GetResults(valuesF);
      emitted := Orientation(valuesF[0], valuesF[1], valuesF[2], timestamp);
    }
  }
}
