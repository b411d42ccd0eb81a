# Cascaded moving-average filter and buffer codec of android-3d-engine

This project models two pieces of the engine's utility code in Dafny and proves
properties of them.

**The orientation filter** (`src/dimyoux/engine/utils/filters/AveragingFilter.java`).
`MPMovingAverageFilter` smooths `nElements` values at once through `nPasses`
cascaded moving averages of `nSamples` samples each. For every pass and element it
keeps a ring of the last `nSamples` values fed into that pass (`sampleHistory`) and
their unnormalised running sum (`lastResult`). One add (`_add`) does three things:

- It feeds the raw sample into pass 0.
- It feeds the freshly updated sum of pass p-1 into pass p.
- It slides every sum in O(1): it adds the incoming value and subtracts the one it overwrites.

The read-out multiplies the last pass's sum by 1/nSamples^nPasses. A time-aware add
repeats the add once per elapsed 20 ms interval. A configuration with at most one
sample or no pass is a pass-through: adds only copy the sample into the first pass's
result. With no pass at all there is no first pass, so every add or read-out whose
length matches throws `ArrayIndexOutOfBoundsException` (a call with the wrong length
still only prints its warning); the model builds such a filter but gives it no
operations.

The model has two layers:

- Module `FilterModel` holds the filter state as values: rings `hist[p][e][k]`, sums
  `sums[p][e]` and the shared ring index. One add is `AddOnce`.
- Class `Filters.MPMovingAverageFilter` keeps the source's arrays (`array3`/`array2`)
  and fields, and its methods perform the source's nested loops in place. Each method
  is proved to move the arrays exactly as the value-level function says.

`Filters.AveragingFilter` is the ingest/emit layer that owns a 25-sample, 3-pass,
3-element filter. Proved properties include:

- running sum == sum of the ring, preserved by every add;
- the cascade and the one overwritten slot per ring;
- the ring-index bounds and `iSamp == iSampNext`;
- that rejected calls change nothing;
- the gap count of the time-aware add;
- that pass 0's ring is a window on the input, so with one pass the read-out is the
  mean of the last `nSamples` samples, whatever they are;
- a convergence theorem: from any consistent state, `nPasses * nSamples` adds of a
  constant sample make the read-out exactly that sample.

**The buffer codec** (`src/dimyoux/engine/utils/Buffer.java`). `serialize` writes a
float or short buffer to an object stream: first its capacity as an int, then its
elements in index order. A null buffer is written as the int -1 alone.
`deserializeFloatBuffer` / `deserializeShortBuffer` read that form back.

- Streams are modelled as sequences of typed tokens (module `JavaIo`).
- NIO buffers are a class with a backing array, a position and a limit (module `JavaNio`).
- Java's fixed-width integers and exceptions are module `JavaLang`.
- The round trip is proved at two levels: on the pure decoder `DecodeRecord`, and
  through the imperative methods, composing `SerializeFloat` with
  `DeserializeFloatBuffer`.
- The `to*Buffer` copy helpers and `getSize` with its size table are modelled too.
- `create*Buffer` multiplies the element count by the element size in 32-bit int
  arithmetic. The model keeps that wrap-around. As a result, a record claiming 2^30
  floats reads back as an empty buffer (`HugeFloatRecordReadsEmpty`).

Where the code and the documented behaviour disagree, the model follows the code:

- `getResults` does not return after its pass-through copy. It always finishes with
  the last-pass formula.
- The arrays and the divisor are sized from the constructor's arguments, not from the
  clamped fields. So a pass-through filter asked for several passes reads an untouched
  last pass, which is zero, instead of echoing the sample (`PassThroughReadout`).
- An element count below 1 is not clamped for the arrays. So the documented clamp to
  one element does not make such a filter usable.

## Model

| member | source | states |
|---|---|---|
| Filters.MPMovingAverageFilter.constructor | src/dimyoux/engine/utils/filters/AveragingFilter.java:152-178 | Filtering exactly when nSamples > 1 and nPasses > 0, otherwise pass-through with fields nSamples = nPasses = 1; arrays sized nPasses x nElements x nSamples from the arguments and all zero; divisor nSamples^nPasses, multiplier its inverse when positive, else 1; index 0, so iSamp == iSampNext; consistent whenever nPasses and nElements are at least 1 |
| FilterModel.NextIndex | src/dimyoux/engine/utils/filters/AveragingFilter.java:323-329 | Maps [0, n) into [0, n) as (index + 1) mod n, wrapping n-1 to 0 |
| FilterModel.Multiplier | src/dimyoux/engine/utils/filters/AveragingFilter.java:174-177 | For a positive divisor the multiplier times the divisor is 1; otherwise it stays 1 |
| FilterModel.Initial | src/dimyoux/engine/utils/filters/AveragingFilter.java:166-167 | The freshly allocated state: every ring slot and every sum is zero, index 0 |
| FilterModel.InitialConsistent | src/dimyoux/engine/utils/filters/AveragingFilter.java:169-172 | The all-zero start satisfies running sum == sum of ring for every pass and element |
| FilterModel.Feed | src/dimyoux/engine/utils/filters/AveragingFilter.java:285-286 | The value `toAdd` fed into pass p: the raw sample for pass 0; for p > 0 it is the running sum of pass p-1 as already updated by the same add, which AddOnceSlots states |
| FilterModel.AddOnce | src/dimyoux/engine/utils/filters/AveragingFilter.java:281-297 | One `_add` on values; it keeps the state ready (well shaped, index in range), and what it does to every ring, sum and the index is stated by AddOnceSlots and PassStep below |
| FilterModel.AddOnceSlots | src/dimyoux/engine/utils/filters/AveragingFilter.java:283-296 | One add: pass 0 stores the sample, pass p > 0 stores pass p-1's sum as updated by the same add, only slot iSamp of each ring changes, each sum gains the stored value and loses the overwritten one, and the index advances by NextIndex |
| FilterModel.AddPreservesConsistency | src/dimyoux/engine/utils/filters/AveragingFilter.java:289-292 | One add keeps every running sum equal to the sum of its ring |
| FilterModel.AddTimesPreservesConsistency | src/dimyoux/engine/utils/filters/AveragingFilter.java:276-278 | Any number of repeated adds keeps the sums consistent |
| FilterModel.AddTimesSplit | src/dimyoux/engine/utils/filters/AveragingFilter.java:276-278 | a adds followed by b adds are a + b adds |
| FilterModel.AddTimes | src/dimyoux/engine/utils/filters/AveragingFilter.java:276-278 | The nAdds loop on values: k adds of one sample, keeping the state ready; AddTimesSplit and AddTimesIsAddSeq relate it to split runs and to a run of k copies |
| FilterModel.CopyIn | src/dimyoux/engine/utils/filters/AveragingFilter.java:223-228 | The pass-through copy of lines 223-228 and 255-260: the first pass's sums become the sample while every other pass's sums, the history and the index are unchanged |
| FilterModel.ConstantInputConverges | src/dimyoux/engine/utils/filters/AveragingFilter.java:281-319 | From any consistent state, nPasses * nSamples adds of a constant sample make the read-out (last pass's sum times 1/nSamples^nPasses) exactly that sample |
| FilterModel.Converge | src/dimyoux/engine/utils/filters/AveragingFilter.java:283-293 | After p rounds of nSamples adds of a constant x, every slot of pass q < p holds nSamples^q * x, and the sums stay consistent |
| FilterModel.RingMean | src/dimyoux/engine/utils/filters/AveragingFilter.java:317-318 | With one pass and consistent sums, the read-out is the arithmetic mean of the ring |
| FilterModel.AddSeq | src/dimyoux/engine/utils/filters/AveragingFilter.java:281-297 | A run of adds of varying samples, in order, keeping the state ready |
| FilterModel.AddTimesIsAddSeq | src/dimyoux/engine/utils/filters/AveragingFilter.java:276-278 | k adds of one sample are the run of k copies of it |
| FilterModel.AddSeqSplit | src/dimyoux/engine/utils/filters/AveragingFilter.java:281-297 | A run of adds split anywhere is the first part followed by the second |
| FilterModel.AddSeqPreservesConsistency | src/dimyoux/engine/utils/filters/AveragingFilter.java:289-292 | Any run of adds of varying samples keeps every running sum equal to the sum of its ring |
| FilterModel.RingWindow | src/dimyoux/engine/utils/filters/AveragingFilter.java:285-292 | After j <= nSamples adds, the slot of pass 0 at distance d < j from the starting index holds the d-th sample added, every other slot is unchanged, and the index moved j places: each add overwrites the oldest value |
| FilterModel.FullRingSum | src/dimyoux/engine/utils/filters/AveragingFilter.java:285-292 | After nSamples adds, the ring of pass 0 sums to the sum of exactly those samples, whatever the starting index |
| FilterModel.SinglePassIsWindowMean | src/dimyoux/engine/utils/filters/AveragingFilter.java:281-318 | With one pass, after any run of at least nSamples adds from a consistent state, each element's read-out is the mean of its last nSamples inputs |
| FilterModel.Readout | src/dimyoux/engine/utils/filters/AveragingFilter.java:317-319 | The read-out has one entry per element, each the last pass's sum times the multiplier |
| FilterModel.PassThroughReadout | src/dimyoux/engine/utils/filters/AveragingFilter.java:312-319 | After a pass-through copy the read-out echoes the sample when the last pass is pass 0, and is unchanged (untouched last pass) when there are more passes |
| FilterModel.GapAdds | src/dimyoux/engine/utils/filters/AveragingFilter.java:273 | The gap count is the number of 20 ms intervals in the elapsed time rounded half up: r*T - T/2 <= elapsed < r*T + T/2 |
| FilterModel.GapOfWholeIntervals | src/dimyoux/engine/utils/filters/AveragingFilter.java:273 | An elapsed time of exactly k intervals gives exactly k adds |
| FilterModel.AddsFor | src/dimyoux/engine/utils/filters/AveragingFilter.java:268-276 | One add when no time-aware add happened before (lastTime 0), otherwise the gap count, and none when that is not positive |
| Filters.MPMovingAverageFilter.UpdatePass | src/dimyoux/engine/utils/filters/AveragingFilter.java:284-293 | The element loop moves pass iPass of both arrays from the old state to the successor state and touches no other pass |
| Filters.MPMovingAverageFilter.UpdatePasses | src/dimyoux/engine/utils/filters/AveragingFilter.java:283-294 | The pass loop leaves the arrays holding exactly AddOnce of the old state |
| Filters.MPMovingAverageFilter.Add | src/dimyoux/engine/utils/filters/AveragingFilter.java:281-297 | The new state is AddOnce of the old one, iSamp and iSampNext advance together, consistency kept, lastTime unchanged |
| Filters.MPMovingAverageFilter.CopySample | src/dimyoux/engine/utils/filters/AveragingFilter.java:223-228 | Pass-through add: the sample replaces the first pass's sums; history, index and lastTime unchanged |
| Filters.MPMovingAverageFilter.AddSamples | src/dimyoux/engine/utils/filters/AveragingFilter.java:212-231 | A wrong length changes nothing; otherwise one pass-through copy or one cascaded add |
| Filters.MPMovingAverageFilter.AddSamplesAt | src/dimyoux/engine/utils/filters/AveragingFilter.java:244-279 | A wrong length changes nothing (lastTime included); pass-through copies only; otherwise lastTime := time and the state is AddsFor(old lastTime, time) repeated adds of the sample |
| Filters.MPMovingAverageFilter.AddRepeatedly | src/dimyoux/engine/utils/filters/AveragingFilter.java:276-278 | The add loop performs exactly max(n, 0) cascaded adds |
| Filters.MPMovingAverageFilter.GetResults | src/dimyoux/engine/utils/filters/AveragingFilter.java:303-320 | A wrong length leaves the array untouched; otherwise, also in pass-through, the array ends as the last pass's sums times the multiplier; the filter is not modified |
| Filters.AveragingFilter.constructor | src/dimyoux/engine/utils/filters/AveragingFilter.java:17-26 | Owns a fresh filtering 25-sample, 3-pass, 3-element filter in its all-zero state, timestamp 0 |
| Filters.AveragingFilter.OnOrientationChanged | src/dimyoux/engine/utils/filters/AveragingFilter.java:91-97 | Stores the timestamp and performs exactly one time-aware add of (yaw, pitch, roll) |
| Filters.AveragingFilter.Run | src/dimyoux/engine/utils/filters/AveragingFilter.java:103-112 | Emits the last pass's sums divided by 25^3 with the stored timestamp and changes nothing, so two ticks with no sample in between emit the same tuple |
| Buffer.GetSize | src/dimyoux/engine/utils/Buffer.java:258-324 | Each numeric type's size in bytes times 8 is its Java bit width (char 2, byte 1, short 2, int 4, long 8, float 4, double 8); boolean is 1 |
| Buffer.SizeCoversRange | src/dimyoux/engine/utils/Buffer.java:20-46 | For the integral types, every value lies between the type's least and greatest value, the bounds that define the JavaLang newtypes, and that range has exactly 2^(8 * size) members |
| Buffer.CreatedCapacity | src/dimyoux/engine/utils/Buffer.java:246-252 | The element count times the element size is computed as an int: exact when it fits, otherwise negative (IllegalArgumentException) or a smaller capacity |
| Buffer.CapacityShortfall | src/dimyoux/engine/utils/Buffer.java:246-252 | When the byte count exceeds an int, the allocation throws IllegalArgumentException exactly when the wrapped count is negative, and otherwise creates fewer elements than requested |
| Buffer.Record | src/dimyoux/engine/utils/Buffer.java:333-345 | The serialized form: a null buffer is the int -1 alone; otherwise the element count as an int followed by exactly the elements |
| Buffer.ToBuffer | src/dimyoux/engine/utils/Buffer.java:68-79 | Null for null; otherwise a fresh buffer of capacity values.length holding the values in order at position 0 (or after them when not rewound); when the byte count overflows, IllegalArgumentException or BufferOverflowException |
| Buffer.ToDoubleBuffer | src/dimyoux/engine/utils/Buffer.java:68-79 | As ToBuffer with 8-byte elements, rewound |
| Buffer.ToLongBuffer | src/dimyoux/engine/utils/Buffer.java:97-108 | As ToBuffer with 8-byte elements, rewound |
| Buffer.ToIntBuffer | src/dimyoux/engine/utils/Buffer.java:126-137 | As ToBuffer with 4-byte elements, rewound |
| Buffer.ToShortBuffer | src/dimyoux/engine/utils/Buffer.java:155-166 | As ToBuffer with 2-byte elements, rewound |
| Buffer.ToByteBuffer | src/dimyoux/engine/utils/Buffer.java:183-193 | Null for null; otherwise the values in a fresh buffer whose position is left at values.length |
| Buffer.ToCharBuffer | src/dimyoux/engine/utils/Buffer.java:211-222 | As ToBuffer with 2-byte elements, rewound |
| Buffer.ToFloatBuffer | src/dimyoux/engine/utils/Buffer.java:229-240 | As ToBuffer with 4-byte elements, rewound |
| Buffer.SerializeFloat | src/dimyoux/engine/utils/Buffer.java:331-347 | Null stream: nothing written; null buffer: exactly the int -1; otherwise the capacity and every element in index order, independent of the position; a limit below the capacity throws IndexOutOfBoundsException after the elements before the limit |
| Buffer.WriteFloats | src/dimyoux/engine/utils/Buffer.java:338-341 | The loop writes the elements up to the limit and throws there if the limit is below the capacity |
| Buffer.SerializeShort | src/dimyoux/engine/utils/Buffer.java:354-370 | As SerializeFloat, one short per element |
| Buffer.WriteShorts | src/dimyoux/engine/utils/Buffer.java:361-364 | As WriteFloats, one short per element |
| Buffer.ReadRun | src/dimyoux/engine/utils/Buffer.java:385-388 | n element reads succeed exactly when the next n tokens are all elements of the kind; otherwise an IOException at the first token that is not, after consuming the ones before it |
| Buffer.DecodeElements | src/dimyoux/engine/utils/Buffer.java:381-388 | Once the count has been read as a non-negative n: IllegalArgumentException after the count alone when the wrapped allocation is negative; otherwise success exactly when the next capacity tokens are all elements, which are then the elements read, and else IOException at the first missing or mistyped token after consuming the elements before it |
| Buffer.DecodeRecord | src/dimyoux/engine/utils/Buffer.java:379-393 | Reading a record: no int first gives an IOException and consumes nothing; a negative count gives null after one token; a count whose allocation wraps negative gives IllegalArgumentException after one token; otherwise success exactly when tokens 1 to 1 + capacity are all elements, and they are the elements read; a truncated or mistyped record gives IOException at the first bad token after consuming the count and the elements before it |
| Buffer.DeserializeFloatBuffer | src/dimyoux/engine/utils/Buffer.java:377-394 | Null for a null stream; otherwise the stream advances by what DecodeRecord consumes; the result is the exception, null, or a fresh buffer holding the decoded floats with position 0 and limit at capacity |
| Buffer.FillFloats | src/dimyoux/engine/utils/Buffer.java:385-388 | The read-and-put loop fills the buffer with the next capacity floats or stops with the IOException of the first failing read |
| Buffer.DeserializeShortBuffer | src/dimyoux/engine/utils/Buffer.java:401-418 | As DeserializeFloatBuffer, one short per element |
| Buffer.FillShorts | src/dimyoux/engine/utils/Buffer.java:409-412 | As FillFloats, one short per element |
| Buffer.RoundTrip | src/dimyoux/engine/utils/Buffer.java:331-418 | Decoding a serialized record (followed by anything) gives back the same elements, or null for null, and consumes exactly the record, whenever the byte count fits an int |
| Buffer.DecodedIsRecord | src/dimyoux/engine/utils/Buffer.java:377-394 | Conversely, a successful non-null decode whose byte count fits consumed exactly the record of the decoded elements |
| Buffer.HugeFloatRecordReadsEmpty | src/dimyoux/engine/utils/Buffer.java:381-388 | A record claiming 2^30 floats wraps the allocation to 0 bytes and reads back as an empty buffer after one token |
| Buffer.FloatRoundTrip | src/dimyoux/engine/utils/Buffer.java:331-394 | Serializing a float buffer (limit at capacity, and a byte count of 4 × capacity that fits an int) or null and deserializing the written stream yields the same elements at position 0, or null |
| Buffer.ShortRoundTrip | src/dimyoux/engine/utils/Buffer.java:354-418 | The same round trip for short buffers (limit at capacity, and a byte count of 2 × capacity that fits an int) |

## Left out

- Floating point: samples, sums and multipliers are exact reals. The `(float)` casts, `Math.pow` in double and float rounding are not modelled.
- FilterModel.GapAdds: `Math.round((time - lastTime) * Frequency)` on a float product is modelled as exact rounding half up of elapsed / 20,000,000. The float error of the product and Math.round's clipping to the int range are not modelled.
- Time values are unbounded integers, so the `long` overflow of `time - lastTime` is not modelled.
- Filters.MPMovingAverageFilter.constructor: negative sizes are excluded by its precondition (Java throws NegativeArraySizeException). A filter with no pass or no element is built, but it is not Valid and the model gives it no operations, since every add or read-out whose length matches would throw ArrayIndexOutOfBoundsException. The calls with a wrong length, which only print the warning and return, are therefore not modelled for such a filter either.
- Null arrays: a null `sample` or `result` array makes `addSamples` and `getResults` throw NullPointerException. The model's samples are sequences and its result arrays are non-null, so that case is excluded.
- The one- and two-argument constructors (AveragingFilter.java:191-205) are the three-argument constructor with nElements 1, and nPasses 1 and nElements 1. They are not modelled separately.
- The warning printed by a length mismatch is output only. The model returns `ok = false` instead. The Java methods return nothing.
- Threads: the Timer scheduling of `run` every 5 ms and the unsynchronised access from the sensor and timer threads. Calls are sequential in the model.
- The singleton `getInstance`, the SensorManager subscription and the `Signal` dispatch are external code. `Run` returns the emitted tuple instead of dispatching it.
- The static `yawRaw` ... `rollBuffer` arrays (AveragingFilter.java:19-24) are never used.
- NIO plumbing: `allocateDirect`, native byte order, the byte views behind the typed buffers, marks, read-only buffers and OutOfMemoryError on large allocations. `create*Buffer` is modelled only through the capacity it yields.
- Object streams are token sequences. Their byte encoding, block-data framing and the IOExceptions of writes are not modelled. A read of the wrong token kind throws IOException and consumes nothing; real streams would reinterpret the bytes.
- src/dimyoux/engine/managers/ApplicationManager.java, src/dimyoux/engine/EngineActivity.java and src/dimyoux/engine/utils/math/Coord3D.java are not part of this model. They are Android glue and float parsing.
