/**
 * dimyoux.engine.utils.Buffer: the primitive size table, the copy helpers
 * that turn a Java array into a typed NIO buffer, and the length-prefixed
 * codec that writes a float or short buffer to an object stream and reads it
 * back.
 *
 * The serialized form of a buffer is its capacity as an int, then its
 * elements in index order; a null buffer is the int -1 alone.
 */
module Buffer {
  import opened Arith
  import opened JavaLang
  import opened JavaIo
  import opened JavaNio

  // ---------------------------------------------------------------------------
  // Sizes
  // ---------------------------------------------------------------------------

  const CharSize: int := 2
  const ByteSize: int := 1
  const ShortSize: int := 2
  const IntSize: int := 4
  const LongSize: int := 8
  const FloatSize: int := 4
  const DoubleSize: int := 8
  const BooleanSize: int := 1

  /** A value of one of Java's eight primitive types; getSize is overloaded on them. */
  datatype Primitive =
    | CharValue(c: JChar)
    | ByteValue(b: Int8)
    | ShortValue(s: Int16)
    | IntValue(i: Int32)
    | LongValue(l: Int64)
    | FloatValue(f: real)
    | DoubleValue(d: real)
    | BooleanValue(z: bool)

  /** The width in bits the Java language gives each numeric primitive (boolean has none). */
  function BitWidth(v: Primitive): nat
    requires !v.BooleanValue?
  {
    match v
    case CharValue(_) => 16
    case ByteValue(_) => 8
    case ShortValue(_) => 16
    case IntValue(_) => 32
    case LongValue(_) => 64
    case FloatValue(_) => 32
    case DoubleValue(_) => 64
  }

  /** The least and the greatest value of an integral primitive type. */
  function MinValue(v: Primitive): int
    requires v.CharValue? || v.ByteValue? || v.ShortValue? || v.IntValue? || v.LongValue?
  {
    match v
    case CharValue(_) => MinChar
    case ByteValue(_) => MinInt8
    case ShortValue(_) => MinInt16
    case IntValue(_) => MinInt32
    case LongValue(_) => MinInt64
  }

  function MaxValue(v: Primitive): int
    requires v.CharValue? || v.ByteValue? || v.ShortValue? || v.IntValue? || v.LongValue?
  {
    match v
    case CharValue(_) => MaxChar
    case ByteValue(_) => MaxInt8
    case ShortValue(_) => MaxInt16
    case IntValue(_) => MaxInt32
    case LongValue(_) => MaxInt64
  }

  /** The value v carries, as a mathematical integer. */
  function IntegralValue(v: Primitive): int
    requires v.CharValue? || v.ByteValue? || v.ShortValue? || v.IntValue? || v.LongValue?
  {
    match v
    case CharValue(c) => c as int
    case ByteValue(b) => b as int
    case ShortValue(s) => s as int
    case IntValue(i) => i as int
    case LongValue(l) => l as int
  }

  /** getSize: the size in bytes of the value's type, independent of the value itself. */
  function GetSize(v: Primitive): (r: int)
    ensures r >= 1
    ensures !v.BooleanValue? ==> 8 * r == BitWidth(v)
    ensures v.BooleanValue? ==> r == 1
  {
    match v
    case CharValue(_) => CharSize
    case ByteValue(_) => ByteSize
    case ShortValue(_) => ShortSize
    case IntValue(_) => IntSize
    case LongValue(_) => LongSize
    case FloatValue(_) => FloatSize
    case DoubleValue(_) => DoubleSize
    case BooleanValue(_) => BooleanSize
  }

  /** 2^(8k) for the byte counts that occur, in steps a solver can follow. */
  lemma {:induction false} ByteRange(k: nat)
    requires k == 1 || k == 2 || k == 4 || k == 8
    ensures k == 1 ==> Pow(2, 8 * k) == 0x100
    ensures k == 2 ==> Pow(2, 8 * k) == 0x1_0000
    ensures k == 4 ==> Pow(2, 8 * k) == 0x1_0000_0000
    ensures k == 8 ==> Pow(2, 8 * k) == 0x1_0000_0000_0000_0000
  {
    PowAdd(2, 8, 8);
    PowAdd(2, 16, 16);
    PowAdd(2, 32, 32);
  }

  lemma {:induction false} PowAdd(b: int, e1: nat, e2: nat)
    ensures Pow(b, e1 + e2) == Pow(b, e1) * Pow(b, e2)
    decreases e2
  {
    if e2 > 0 {
      PowAdd(b, e1, e2 - 1);
    }
  }

  /**
   * The byte size of an integral type is exactly what its range of values
   * needs: the value lies in [MinValue, MaxValue], and that range has
   * 2^(8 * size) members.
   */
  lemma SizeCoversRange(v: Primitive)
    requires v.CharValue? || v.ByteValue? || v.ShortValue? || v.IntValue? || v.LongValue?
    ensures MinValue(v) <= IntegralValue(v) <= MaxValue(v)
    ensures Pow(2, 8 * GetSize(v)) == MaxValue(v) - MinValue(v) + 1
  {
    ByteRange(GetSize(v));
  }

  // ---------------------------------------------------------------------------
  // Allocation with int arithmetic
  // ---------------------------------------------------------------------------

  /**
   * The capacity of create*Buffer(n) for elements of `size` bytes:
   * allocateDirect(size * n) with the product computed in int arithmetic
   * (a negative byte count throws), viewed as elements of `size` bytes.
   */
  function CreatedCapacity(n: int, size: int): (r: Result<nat>)
    requires 0 <= n <= MaxInt32
    requires size == 1 || size == 2 || size == 4 || size == 8
    ensures r.Err? ==> r.error == IllegalArgument
    ensures n * size <= MaxInt32 ==> r == Ok(n)
    ensures n * size > MaxInt32 && r.Ok? ==> r.value < n
  {
    var bytes := Wrap32(size * n);
    if bytes < 0 then Err(IllegalArgument) else Ok(bytes as int / size)
  }

  /**
   * When the byte count does not fit an int, the allocation throws or
   * creates fewer elements than requested, so the bulk put that follows overflows.
   */
  lemma CapacityShortfall(n: int, size: int)
    requires 0 <= n <= MaxInt32
    requires size == 1 || size == 2 || size == 4 || size == 8
    requires n * size > MaxInt32
    ensures CreatedCapacity(n, size).Err? <==> Wrap32(size * n) < 0
    ensures CreatedCapacity(n, size).Err? ==> CreatedCapacity(n, size).error == IllegalArgument
    ensures CreatedCapacity(n, size).Ok? ==> CreatedCapacity(n, size).value < n
  {
  }

  // ---------------------------------------------------------------------------
  // The serialized form
  // ---------------------------------------------------------------------------

  /** The two element kinds the codec writes. */
  datatype ElemKind = FloatElem | ShortElem

  function ElemSize(k: ElemKind): int
  {
    match k
    case FloatElem => FloatSize
    case ShortElem => ShortSize
  }

  predicate IsElem(k: ElemKind, t: Token)
  {
    match k
    case FloatElem => t.FloatTok?
    case ShortElem => t.ShortTok?
  }

  predicate AllElems(k: ElemKind, ts: seq<Token>)
  {
    forall i :: 0 <= i < |ts| ==> IsElem(k, ts[i])
  }

  /** What serialize writes for a buffer with the given elements, or for null. */
  function Record(b: Option<seq<Token>>): (r: seq<Token>)
    requires b.Some? ==> |b.value| <= MaxInt32
    ensures b.None? ==> r == [IntTok(-1)]
    ensures b.Some? ==> |r| == 1 + |b.value| && r[0] == IntTok(|b.value| as Int32) && r[1..] == b.value
  {
    match b
    case None => [IntTok(-1)]
    case Some(s) => [IntTok(|s| as Int32)] + s
  }

  /** The outcome of reading from a token sequence and how many tokens the reads consumed. */
  datatype Decoded<T> = Decoded(result: Result<T>, consumed: nat)

  /**
   * n reads of elements of kind k in turn: all n, or an IOException at the
   * first token that is missing or of another kind, after consuming the
   * elements before it.
   */
  function ReadRun(k: ElemKind, ts: seq<Token>, n: nat): (d: Decoded<seq<Token>>)
    ensures d.consumed <= n && d.consumed <= |ts|
    ensures AllElems(k, ts[..d.consumed])
    ensures d.result.Ok? <==> n <= |ts| && AllElems(k, ts[..n])
    ensures d.result.Ok? ==> d.consumed == n && d.result.value == ts[..n]
    ensures d.result.Err? ==>
      d.result.error == IOException && d.consumed < n && (d.consumed == |ts| || !IsElem(k, ts[d.consumed]))
    decreases n
  {
    if n == 0 then Decoded(Ok([]), 0)
    else if |ts| == 0 || !IsElem(k, ts[0]) then Decoded(Err(IOException), 0)
    else
      var rest := ReadRun(k, ts[1..], n - 1);
      Decoded(if rest.result.Ok? then Ok([ts[0]] + rest.result.value) else rest.result, rest.consumed + 1)
  }

  /**
   * What deserialize*Buffer reads once the count ts[0] has been read as the
   * non-negative n: the created buffer's worth of elements, or the exception
   * of the allocation or of the first read that fails.
   */
  function DecodeElements(k: ElemKind, ts: seq<Token>, n: nat): (d: Decoded<Option<seq<Token>>>)
    requires |ts| >= 1 && n <= MaxInt32
    ensures 1 <= d.consumed <= |ts|
    ensures match CreatedCapacity(n, ElemSize(k))
      case Err(_) => d == Decoded(Err(IllegalArgument), 1)
      case Ok(c) =>
        && (d.result.Ok? <==> 1 + c <= |ts| && AllElems(k, ts[1..1 + c]))
        && (d.result.Ok? ==> d.result.value == Some(ts[1..1 + c]) && d.consumed == 1 + c)
        && (d.result.Err? ==>
              && d.result.error == IOException && d.consumed < 1 + c
              && AllElems(k, ts[1..d.consumed]) && (d.consumed == |ts| || !IsElem(k, ts[d.consumed])))
  {
    match CreatedCapacity(n, ElemSize(k))
    case Err(e) => Decoded(Err(e), 1)
    case Ok(cap) =>
      var run := ReadRun(k, ts[1..], cap);
      assert ts[1..][..run.consumed] == ts[1..1 + run.consumed];
      assert cap <= |ts| - 1 ==> ts[1..][..cap] == ts[1..1 + cap];
      Decoded(if run.result.Ok? then Ok(Some(run.result.value)) else Err(run.result.error), 1 + run.consumed)
  }

  /**
   * What deserialize*Buffer reads from the tokens: the count, then null for a
   * negative count, otherwise as many elements as the created buffer holds.
   */
  function DecodeRecord(k: ElemKind, ts: seq<Token>): (d: Decoded<Option<seq<Token>>>)
    ensures d.consumed <= |ts|
    ensures (|ts| == 0 || !ts[0].IntTok?) <==> d == Decoded(Err(IOException), 0)
    ensures d.result.Ok? && d.result.value.None? <==> d.consumed == 1 && ts[0].IntTok? && ts[0].i < 0
    ensures d.result.Ok? && d.result.value.Some? ==>
      var s := d.result.value.value;
      && ts[0].IntTok? && ts[0].i >= 0
      && CreatedCapacity(ts[0].i as int, ElemSize(k)) == Ok(|s|)
      && d.consumed == 1 + |s| && ts[1..d.consumed] == s && AllElems(k, s)
    ensures |ts| > 0 && ts[0].IntTok? && ts[0].i >= 0 ==>
      match CreatedCapacity(ts[0].i as int, ElemSize(k))
      case Err(_) => d == Decoded(Err(IllegalArgument), 1)
      case Ok(c) =>
        && (d.result.Ok? <==> 1 + c <= |ts| && AllElems(k, ts[1..1 + c]))
        && (d.result.Err? ==>
              && d.result.error == IOException && 1 <= d.consumed < 1 + c
              && AllElems(k, ts[1..d.consumed]) && (d.consumed == |ts| || !IsElem(k, ts[d.consumed])))
  {
    if |ts| == 0 || !ts[0].IntTok? then Decoded(Err(IOException), 0)
    else if ts[0].i < 0 then Decoded(Ok(None), 1)
    else
      DecodeElements(k, ts, ts[0].i as int)
  }

  /**
   * Round trip: a record is read back as the same elements (or null),
   * consuming exactly the record, whatever follows it, as long as the
   * allocation size fits in an int.
   */
  lemma RoundTrip(k: ElemKind, b: Option<seq<Token>>, rest: seq<Token>)
    requires b.Some? ==> AllElems(k, b.value) && |b.value| * ElemSize(k) <= MaxInt32
    ensures DecodeRecord(k, Record(b) + rest) == Decoded(Ok(b), |Record(b)|)
  {
    if b.Some? {
      RoundTripElements(k, b.value, rest);
    }
  }

  /** The round trip of a non-null buffer: its count, then its elements. */
  lemma RoundTripElements(k: ElemKind, s: seq<Token>, rest: seq<Token>)
    requires AllElems(k, s) && |s| * ElemSize(k) <= MaxInt32
    ensures DecodeRecord(k, Record(Some(s)) + rest) == Decoded(Ok(Some(s)), 1 + |s|)
  {
    var ts := Record(Some(s)) + rest;
    assert ts[0] == IntTok(|s| as Int32);
    assert ts[1..] == s + rest;
    assert CreatedCapacity(|s|, ElemSize(k)) == Ok(|s|);
    assert (s + rest)[..|s|] == s;
    assert ts[1..1 + |s|] == s;
    assert DecodeElements(k, ts, |s|) == Decoded(Ok(Some(s)), 1 + |s|);
  }

  /** Conversely, a record whose count fits decodes only from exactly that record. */
  lemma DecodedIsRecord(k: ElemKind, ts: seq<Token>)
    requires DecodeRecord(k, ts).result.Ok? && DecodeRecord(k, ts).result.value.Some?
    requires ts[0].IntTok? && ts[0].i as int * ElemSize(k) <= MaxInt32
    ensures ts[..DecodeRecord(k, ts).consumed] == Record(DecodeRecord(k, ts).result.value)
  {
    var d := DecodeRecord(k, ts);
    assert ts[..d.consumed] == [ts[0]] + ts[1..d.consumed];
  }

  /** The first 1 + l tokens of a record: the count and the first l elements. */
  lemma RecordPrefix(s: seq<Token>, l: nat)
    requires |s| <= MaxInt32 && l <= |s|
    ensures Record(Some(s))[..1 + l] == [IntTok(|s| as Int32)] + s[..l]
    ensures l == |s| ==> Record(Some(s))[..1 + l] == Record(Some(s))
  {
    assert Record(Some(s)) == [IntTok(|s| as Int32)] + s;
  }

  /**
   * The allocation size wraps for 2^30 floats: 4 * 2^30 is 0 as an int, so
   * the record of such a buffer reads back as an empty buffer after the count.
   */
  lemma HugeFloatRecordReadsEmpty(s: seq<Token>, rest: seq<Token>)
    requires |s| == 0x4000_0000
    ensures DecodeRecord(FloatElem, Record(Some(s)) + rest) == Decoded(Ok(Some([])), 1)
  {
    var ts := Record(Some(s)) + rest;
    assert ts[0] == IntTok(0x4000_0000);
    assert Wrap32(FloatSize * 0x4000_0000) == 0;
  }

  /** Float tokens of a float sequence, and the floats of float tokens. */
  function FloatTokens(s: seq<real>): seq<Token>
  {
    seq(|s|, i requires 0 <= i < |s| => FloatTok(s[i]))
  }

  function FloatsOf(ts: seq<Token>): seq<real>
    requires AllElems(FloatElem, ts)
  {
    seq(|ts|, i requires 0 <= i < |ts| => ts[i].f)
  }

  function ShortTokens(s: seq<Int16>): seq<Token>
  {
    seq(|s|, i requires 0 <= i < |s| => ShortTok(s[i]))
  }

  function ShortsOf(ts: seq<Token>): seq<Int16>
    requires AllElems(ShortElem, ts)
  {
    seq(|ts|, i requires 0 <= i < |ts| => ts[i].s)
  }

  // ---------------------------------------------------------------------------
  // to*Buffer
  // ---------------------------------------------------------------------------

  /**
   * The shape of every to*Buffer: null for null; otherwise create a buffer of
   * values.length elements of `size` bytes, bulk-put the values and, unless
   * `rewind` is off (toByteBuffer), set the position back to 0. When the byte
   * count overflows an int the allocation throws (negative count) or the
   * smaller buffer overflows on the put.
   */
  method ToBuffer<T(0)>(values: array?<T>, size: int, rewind: bool) returns (r: Result<NioBuffer?<T>>)
    requires size == 1 || size == 2 || size == 4 || size == 8
    requires values != null ==> values.Length <= MaxInt32
    ensures values == null ==> r == Ok(null)
    ensures values != null && values.Length * size <= MaxInt32 ==>
      && r.Ok? && r.value != null && fresh(r.value) && fresh(r.value.data) && r.value.Valid()
      && r.value.Contents() == values[..] && r.value.limit == values.Length
      && r.value.position == (if rewind then 0 else values.Length)
    ensures values != null && values.Length * size > MaxInt32 ==>
      r == Err(if Wrap32(size * values.Length) < 0 then IllegalArgument else BufferOverflow)
  {
    if values == null {
      return Ok(null);
    }
    var len := values.Length;
    if len * size > MaxInt32 {
      CapacityShortfall(len, size);
    }
    var created := CreatedCapacity(len, size);
    if created.Err? {
      return Err(created.error);
    }
    var buffer := new NioBuffer<T>.Allocate(created.value);
    var put := buffer.PutAll(values[..]);
    if put.Thrown? {
      return Err(put.error);
    }
    if rewind {
      var _ := buffer.SetPosition(0);
    }
    r := Ok(buffer);
  }

  /** toDoubleBuffer(values): the values in a fresh buffer at position 0. */
  method ToDoubleBuffer(values: array?<real>) returns (r: Result<NioBuffer?<real>>)
    requires values != null ==> values.Length <= MaxInt32
    ensures values == null ==> r == Ok(null)
    ensures values != null && values.Length * DoubleSize <= MaxInt32 ==>
      && r.Ok? && r.value != null && fresh(r.value) && fresh(r.value.data) && r.value.Valid()
      && r.value.Contents() == values[..] && r.value.limit == values.Length && r.value.position == 0
    ensures values != null && values.Length * DoubleSize > MaxInt32 ==>
      r == Err(if Wrap32(DoubleSize * values.Length) < 0 then IllegalArgument else BufferOverflow)
  {
    r := ToBuffer(values, DoubleSize, true);
  }

  /** toLongBuffer(values): the values in a fresh buffer at position 0. */
  method ToLongBuffer(values: array?<Int64>) returns (r: Result<NioBuffer?<Int64>>)
    requires values != null ==> values.Length <= MaxInt32
    ensures values == null ==> r == Ok(null)
    ensures values != null && values.Length * LongSize <= MaxInt32 ==>
      && r.Ok? && r.value != null && fresh(r.value) && fresh(r.value.data) && r.value.Valid()
      && r.value.Contents() == values[..] && r.value.limit == values.Length && r.value.position == 0
    ensures values != null && values.Length * LongSize > MaxInt32 ==>
      r == Err(if Wrap32(LongSize * values.Length) < 0 then IllegalArgument else BufferOverflow)
  {
    r := ToBuffer(values, LongSize, true);
  }

  /** toIntBuffer(values): the values in a fresh buffer at position 0. */
  method ToIntBuffer(values: array?<Int32>) returns (r: Result<NioBuffer?<Int32>>)
    requires values != null ==> values.Length <= MaxInt32
    ensures values == null ==> r == Ok(null)
    ensures values != null && values.Length * IntSize <= MaxInt32 ==>
      && r.Ok? && r.value != null && fresh(r.value) && fresh(r.value.data) && r.value.Valid()
      && r.value.Contents() == values[..] && r.value.limit == values.Length && r.value.position == 0
    ensures values != null && values.Length * IntSize > MaxInt32 ==>
      r == Err(if Wrap32(IntSize * values.Length) < 0 then IllegalArgument else BufferOverflow)
  {
    r := ToBuffer(values, IntSize, true);
  }

  /** toShortBuffer(values): the values in a fresh buffer at position 0. */
  method ToShortBuffer(values: array?<Int16>) returns (r: Result<NioBuffer?<Int16>>)
    requires values != null ==> values.Length <= MaxInt32
    ensures values == null ==> r == Ok(null)
    ensures values != null && values.Length * ShortSize <= MaxInt32 ==>
      && r.Ok? && r.value != null && fresh(r.value) && fresh(r.value.data) && r.value.Valid()
      && r.value.Contents() == values[..] && r.value.limit == values.Length && r.value.position == 0
    ensures values != null && values.Length * ShortSize > MaxInt32 ==>
      r == Err(if Wrap32(ShortSize * values.Length) < 0 then IllegalArgument else BufferOverflow)
  {
    r := ToBuffer(values, ShortSize, true);
  }

  /** toByteBuffer(values): the values in a fresh buffer; the position is left after them. */
  method ToByteBuffer(values: array?<Int8>) returns (r: Result<NioBuffer?<Int8>>)
    requires values != null ==> values.Length <= MaxInt32
    ensures values == null ==> r == Ok(null)
    ensures values != null ==>
      && r.Ok? && r.value != null && fresh(r.value) && fresh(r.value.data) && r.value.Valid()
      && r.value.Contents() == values[..] && r.value.limit == values.Length && r.value.position == values.Length
  {
    r := ToBuffer(values, ByteSize, false);
  }

  /** toCharBuffer(values): the values in a fresh buffer at position 0. */
  method ToCharBuffer(values: array?<JChar>) returns (r: Result<NioBuffer?<JChar>>)
    requires values != null ==> values.Length <= MaxInt32
    ensures values == null ==> r == Ok(null)
    ensures values != null && values.Length * CharSize <= MaxInt32 ==>
      && r.Ok? && r.value != null && fresh(r.value) && fresh(r.value.data) && r.value.Valid()
      && r.value.Contents() == values[..] && r.value.limit == values.Length && r.value.position == 0
    ensures values != null && values.Length * CharSize > MaxInt32 ==>
      r == Err(if Wrap32(CharSize * values.Length) < 0 then IllegalArgument else BufferOverflow)
  {
    r := ToBuffer(values, CharSize, true);
  }

  /** toFloatBuffer(values): the values in a fresh buffer at position 0. */
  method ToFloatBuffer(values: array?<real>) returns (r: Result<NioBuffer?<real>>)
    requires values != null ==> values.Length <= MaxInt32
    ensures values == null ==> r == Ok(null)
    ensures values != null && values.Length * FloatSize <= MaxInt32 ==>
      && r.Ok? && r.value != null && fresh(r.value) && fresh(r.value.data) && r.value.Valid()
      && r.value.Contents() == values[..] && r.value.limit == values.Length && r.value.position == 0
    ensures values != null && values.Length * FloatSize > MaxInt32 ==>
      r == Err(if Wrap32(FloatSize * values.Length) < 0 then IllegalArgument else BufferOverflow)
  {
    r := ToBuffer(values, FloatSize, true);
  }

  // ---------------------------------------------------------------------------
  // serialize / deserialize*Buffer
  // ---------------------------------------------------------------------------

  /**
   * serialize(FloatBuffer, out): nothing for a null stream, -1 for a null
   * buffer, otherwise the capacity and then get(0) .. get(capacity-1). The
   * absolute get ignores the position but stops at the limit, so a buffer
   * whose limit is below its capacity throws after the elements before it.
   */
  method SerializeFloat(buffer: NioBuffer?<real>, out: ObjectOutputStream?) returns (o: Outcome)
    requires buffer != null ==> buffer.Valid()
    modifies out
    ensures out == null ==> o == Done
    ensures out != null && buffer == null ==> o == Done && out.written == old(out.written) + Record(None)
    ensures out != null && buffer != null && buffer.limit == buffer.data.Length ==>
      o == Done && out.written == old(out.written) + Record(Some(FloatTokens(buffer.Contents())))
    ensures out != null && buffer != null && buffer.limit < buffer.data.Length ==>
      && o == Thrown(IndexOutOfBounds)
      && out.written == old(out.written) + Record(Some(FloatTokens(buffer.Contents())))[..1 + buffer.limit]
  {
    o := Done;
    if out != null {
      if buffer != null {
        var capacity := buffer.data.Length;
        out.WriteInt(capacity as Int32);
        o := WriteFloats(buffer, out);
        RecordPrefix(FloatTokens(buffer.Contents()), buffer.limit);
      } else {
        out.WriteInt(-1);
      }
    }
  }

  /** The loop of serialize(FloatBuffer, out): writeFloat(get(i)) for i from 0 while get succeeds. */
  method WriteFloats(buffer: NioBuffer<real>, out: ObjectOutputStream) returns (o: Outcome)
    requires buffer.Valid()
    modifies out
    ensures out.written == old(out.written) + FloatTokens(buffer.Contents())[..buffer.limit]
    ensures o == (if buffer.limit < buffer.data.Length then Thrown(IndexOutOfBounds) else Done)
  {
    ghost var w0 := out.written;
    var i := 0;
    while i < buffer.data.Length
      invariant 0 <= i <= buffer.limit
      invariant |out.written| == |w0| + i
      invariant forall j :: 0 <= j < |w0| ==> out.written[j] == w0[j]
      invariant forall j :: 0 <= j < i ==> out.written[|w0| + j] == FloatTok(buffer.data[j])
    {
      var got := buffer.Get(i);
      if got.Err? {
        o := Thrown(got.error);
        break;
      }
      out.WriteFloat(got.value);
      i := i + 1;
    }
    if i == buffer.data.Length {
      o := Done;
    }
    assert i == buffer.limit;
    assert out.written == w0 + FloatTokens(buffer.Contents())[..buffer.limit];
  }

  /**
   * serialize(ShortBuffer, out): nothing for a null stream, -1 for a null
   * buffer, otherwise the capacity and then get(0) .. get(capacity-1). The
   * absolute get ignores the position but stops at the limit, so a buffer
   * whose limit is below its capacity throws after the elements before it.
   */
  method SerializeShort(buffer: NioBuffer?<Int16>, out: ObjectOutputStream?) returns (o: Outcome)
    requires buffer != null ==> buffer.Valid()
    modifies out
    ensures out == null ==> o == Done
    ensures out != null && buffer == null ==> o == Done && out.written == old(out.written) + Record(None)
    ensures out != null && buffer != null && buffer.limit == buffer.data.Length ==>
      o == Done && out.written == old(out.written) + Record(Some(ShortTokens(buffer.Contents())))
    ensures out != null && buffer != null && buffer.limit < buffer.data.Length ==>
      && o == Thrown(IndexOutOfBounds)
      && out.written == old(out.written) + Record(Some(ShortTokens(buffer.Contents())))[..1 + buffer.limit]
  {
    o := Done;
    if out != null {
      if buffer != null {
        var capacity := buffer.data.Length;
        out.WriteInt(capacity as Int32);
        o := WriteShorts(buffer, out);
        RecordPrefix(ShortTokens(buffer.Contents()), buffer.limit);
      } else {
        out.WriteInt(-1);
      }
    }
  }

  /** The loop of serialize(ShortBuffer, out): writeShort(get(i)) for i from 0 while get succeeds. */
  method WriteShorts(buffer: NioBuffer<Int16>, out: ObjectOutputStream) returns (o: Outcome)
    requires buffer.Valid()
    modifies out
    ensures out.written == old(out.written) + ShortTokens(buffer.Contents())[..buffer.limit]
    ensures o == (if buffer.limit < buffer.data.Length then Thrown(IndexOutOfBounds) else Done)
  {
    ghost var w0 := out.written;
    var i := 0;
    while i < buffer.data.Length
      invariant 0 <= i <= buffer.limit
      invariant |out.written| == |w0| + i
      invariant forall j :: 0 <= j < |w0| ==> out.written[j] == w0[j]
      invariant forall j :: 0 <= j < i ==> out.written[|w0| + j] == ShortTok(buffer.data[j])
    {
      var got := buffer.Get(i);
      if got.Err? {
        o := Thrown(got.error);
        break;
      }
      out.WriteShort(got.value);
      i := i + 1;
    }
    if i == buffer.data.Length {
      o := Done;
    }
    assert i == buffer.limit;
    assert out.written == w0 + ShortTokens(buffer.Contents())[..buffer.limit];
  }

  /**
   * deserializeFloatBuffer(in): null for a null stream or a negative count;
   * otherwise a fresh buffer of the created capacity filled by that many
   * readFloat calls and rewound. The stream advances by what was read, also
   * when a read throws.
   */
  method DeserializeFloatBuffer(input: ObjectInputStream?) returns (r: Result<NioBuffer?<real>>)
    requires input != null ==> input.Valid()
    modifies input
    ensures input == null ==> r == Ok(null)
    ensures input != null ==>
      var d := DecodeRecord(FloatElem, old(input.Remaining()));
      && input.Valid() && input.pos == old(input.pos) + d.consumed
      && (d.result.Err? ==> r == Err(d.result.error))
      && (d.result.Ok? && d.result.value.None? ==> r == Ok(null))
      && (d.result.Ok? && d.result.value.Some? ==>
            && r.Ok? && r.value != null && fresh(r.value) && fresh(r.value.data) && r.value.Valid()
            && r.value.Contents() == FloatsOf(d.result.value.value)
            && r.value.position == 0 && r.value.limit == r.value.data.Length)
  {
    if input == null {
      return Ok(null);
    }
    ghost var ts := input.Remaining();
    var size := input.ReadInt();
    if size.Err? {
      return Err(size.error);
    }
    assert input.Remaining() == ts[1..];
    var bufferSize := size.value;
    if bufferSize < 0 {
      return Ok(null);
    }
    var created := CreatedCapacity(bufferSize as int, FloatSize);
    if created.Err? {
      return Err(created.error);
    }
    var buffer := new NioBuffer<real>.Allocate(created.value);
    var filled := FillFloats(input, buffer);
    if filled.Thrown? {
      return Err(filled.error);
    }
    buffer.Rewind();
    r := Ok(buffer);
  }

  /** The loop of deserializeFloatBuffer: one readFloat and put per element of the buffer. */
  method FillFloats(input: ObjectInputStream, buffer: NioBuffer<real>) returns (o: Outcome)
    requires input.Valid() && buffer.Valid() && buffer.position == 0 && buffer.limit == buffer.data.Length
    modifies input, buffer, buffer.data
    ensures var run := ReadRun(FloatElem, old(input.Remaining()), buffer.data.Length);
      && input.Valid() && input.pos == old(input.pos) + run.consumed
      && (run.result.Err? ==> o == Thrown(run.result.error))
      && (run.result.Ok? ==>
            && o == Done && buffer.Valid() && buffer.limit == buffer.data.Length
            && buffer.Contents() == FloatsOf(run.result.value))
  {
    ghost var ts := input.Remaining();
    ghost var run := ReadRun(FloatElem, ts, buffer.data.Length);
    var i := 0;
    while i < buffer.data.Length
      invariant 0 <= i <= buffer.data.Length && i <= |ts|
      invariant buffer.Valid() && buffer.position == i && buffer.limit == buffer.data.Length
      invariant input.Valid() && input.pos == old(input.pos) + i && input.Remaining() == ts[i..]
      invariant AllElems(FloatElem, ts[..i])
      invariant buffer.Contents()[..i] == FloatsOf(ts[..i])
    {
      var x := input.ReadFloat();
      if x.Err? {
        assert run.consumed == i by {
          assert i == |ts| || !IsElem(FloatElem, ts[i]);
          assert forall j :: 0 <= j < i ==> IsElem(FloatElem, ts[..i][j]);
        }
        return Thrown(x.error);
      }
      var _ := buffer.Put(x.value);
      assert ts[..i + 1] == ts[..i] + [FloatTok(x.value)];
      i := i + 1;
    }
    assert buffer.Contents() == buffer.Contents()[..i];
    o := Done;
  }

  /**
   * deserializeShortBuffer(in): as for floats, one readShort per element.
   */
  method DeserializeShortBuffer(input: ObjectInputStream?) returns (r: Result<NioBuffer?<Int16>>)
    requires input != null ==> input.Valid()
    modifies input
    ensures input == null ==> r == Ok(null)
    ensures input != null ==>
      var d := DecodeRecord(ShortElem, old(input.Remaining()));
      && input.Valid() && input.pos == old(input.pos) + d.consumed
      && (d.result.Err? ==> r == Err(d.result.error))
      && (d.result.Ok? && d.result.value.None? ==> r == Ok(null))
      && (d.result.Ok? && d.result.value.Some? ==>
            && r.Ok? && r.value != null && fresh(r.value) && fresh(r.value.data) && r.value.Valid()
            && r.value.Contents() == ShortsOf(d.result.value.value)
            && r.value.position == 0 && r.value.limit == r.value.data.Length)
  {
    if input == null {
      return Ok(null);
    }
    ghost var ts := input.Remaining();
    var size := input.ReadInt();
    if size.Err? {
      return Err(size.error);
    }
    assert input.Remaining() == ts[1..];
    var bufferSize := size.value;
    if bufferSize < 0 {
      return Ok(null);
    }
    var created := CreatedCapacity(bufferSize as int, ShortSize);
    if created.Err? {
      return Err(created.error);
    }
    var buffer := new NioBuffer<Int16>.Allocate(created.value);
    var filled := FillShorts(input, buffer);
    if filled.Thrown? {
      return Err(filled.error);
    }
    buffer.Rewind();
    r := Ok(buffer);
  }

  /** The loop of deserializeShortBuffer: one readShort and put per element of the buffer. */
  method FillShorts(input: ObjectInputStream, buffer: NioBuffer<Int16>) returns (o: Outcome)
    requires input.Valid() && buffer.Valid() && buffer.position == 0 && buffer.limit == buffer.data.Length
    modifies input, buffer, buffer.data
    ensures var run := ReadRun(ShortElem, old(input.Remaining()), buffer.data.Length);
      && input.Valid() && input.pos == old(input.pos) + run.consumed
      && (run.result.Err? ==> o == Thrown(run.result.error))
      && (run.result.Ok? ==>
            && o == Done && buffer.Valid() && buffer.limit == buffer.data.Length
            && buffer.Contents() == ShortsOf(run.result.value))
  {
    ghost var ts := input.Remaining();
    ghost var run := ReadRun(ShortElem, ts, buffer.data.Length);
    var i := 0;
    while i < buffer.data.Length
      invariant 0 <= i <= buffer.data.Length && i <= |ts|
      invariant buffer.Valid() && buffer.position == i && buffer.limit == buffer.data.Length
      invariant input.Valid() && input.pos == old(input.pos) + i && input.Remaining() == ts[i..]
      invariant AllElems(ShortElem, ts[..i])
      invariant buffer.Contents()[..i] == ShortsOf(ts[..i])
    {
      var x := input.ReadShort();
      if x.Err? {
        assert run.consumed == i by {
          assert i == |ts| || !IsElem(ShortElem, ts[i]);
          assert forall j :: 0 <= j < i ==> IsElem(ShortElem, ts[..i][j]);
        }
        return Thrown(x.error);
      }
      var _ := buffer.Put(x.value);
      assert ts[..i + 1] == ts[..i] + [ShortTok(x.value)];
      i := i + 1;
    }
    assert buffer.Contents() == buffer.Contents()[..i];
    o := Done;
  }

  /**
   * Writing a float buffer (limit at capacity, allocation size within an int)
   * or null and reading the written stream back yields the same elements at
   * position 0, or null.
   */
  method FloatRoundTrip(buffer: NioBuffer?<real>) returns (copy: Result<NioBuffer?<real>>)
    requires buffer != null ==> buffer.Valid() && buffer.limit == buffer.data.Length
    requires buffer != null ==> buffer.data.Length * FloatSize <= MaxInt32
    ensures buffer == null ==> copy == Ok(null)
    ensures buffer != null ==>
      copy.Ok? && copy.value != null && copy.value.Contents() == buffer.Contents() && copy.value.position == 0
  {
    var out := new ObjectOutputStream();
    var _ := SerializeFloat(buffer, out);
    var input := new ObjectInputStream(out.written);
    if buffer == null {
      RoundTrip(FloatElem, None, []);
    } else {
      RoundTrip(FloatElem, Some(FloatTokens(buffer.Contents())), []);
      assert input.Remaining() == Record(Some(FloatTokens(buffer.Contents()))) + [];
    }
    copy := DeserializeFloatBuffer(input);
    if buffer != null {
      assert FloatsOf(FloatTokens(buffer.Contents())) == buffer.Contents();
    }
  }

  /** The same round trip for short buffers. */
  method ShortRoundTrip(buffer: NioBuffer?<Int16>) returns (copy: Result<NioBuffer?<Int16>>)
    requires buffer != null ==> buffer.Valid() && buffer.limit == buffer.data.Length
    requires buffer != null ==> buffer.data.Length * ShortSize <= MaxInt32
    ensures buffer == null ==> copy == Ok(null)
    ensures buffer != null ==>
      copy.Ok? && copy.value != null && copy.value.Contents() == buffer.Contents() && copy.value.position == 0
  {
    var out := new ObjectOutputStream();
    var _ := SerializeShort(buffer, out);
    var input := new ObjectInputStream(out.written);
    if buffer == null {
      RoundTrip(ShortElem, None, []);
    } else {
      RoundTrip(ShortElem, Some(ShortTokens(buffer.Contents())), []);
      assert input.Remaining() == Record(Some(ShortTokens(buffer.Contents()))) + [];
    }
    copy := DeserializeShortBuffer(input);
    if buffer != null {
      assert ShortsOf(ShortTokens(buffer.Contents())) == buffer.Contents();
    }
  }
}
