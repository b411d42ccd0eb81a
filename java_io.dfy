/**
 * Object streams as sequences of typed tokens. The codec only writes and reads
 * ints, floats and shorts, so a stream is the list of those values in order;
 * the byte encoding of java.io is not modelled.
 */
module JavaIo {
  import opened JavaLang

  datatype Token = IntTok(i: Int32) | FloatTok(f: real) | ShortTok(s: Int16)

  /** An output stream: everything written so far, in order. */
  class ObjectOutputStream {
    var written: seq<Token>

    constructor ()
      ensures written == []
    {
      written := [];
    }

    method WriteInt(v: Int32)
      modifies this
      ensures written == old(written) + [IntTok(v)]
    {
      written := written + [IntTok(v)];
    }

    method WriteFloat(v: real)
      modifies this
      ensures written == old(written) + [FloatTok(v)]
    {
      written := written + [FloatTok(v)];
    }

    method WriteShort(v: Int16)
      modifies this
      ensures written == old(written) + [ShortTok(v)]
    {
      written := written + [ShortTok(v)];
    }
  }

  /**
   * An input stream over a fixed token sequence with a read position. A read at
   * the end of the stream, or of a token of another kind, throws an IOException
   * and consumes nothing.
   */
  class ObjectInputStream {
    const tokens: seq<Token>
    var pos: nat

    ghost predicate Valid()
      reads this
    {
      pos <= |tokens|
    }

    /** The tokens not yet read. */
    ghost function Remaining(): seq<Token>
      reads this
      requires Valid()
    {
      tokens[pos..]
    }

    constructor (tokens: seq<Token>)
      ensures Valid() && this.tokens == tokens && pos == 0
    {
      this.tokens := tokens;
      pos := 0;
    }

    method ReadInt() returns (r: Result<Int32>)
      requires Valid()
      modifies this
      ensures Valid()
      ensures old(pos) < |tokens| && tokens[old(pos)].IntTok? ==> r == Ok(tokens[old(pos)].i) && pos == old(pos) + 1
      ensures !(old(pos) < |tokens| && tokens[old(pos)].IntTok?) ==> r == Err(IOException) && pos == old(pos)
    {
      if pos < |tokens| && tokens[pos].IntTok? {
        r := Ok(tokens[pos].i);
        pos := pos + 1;
      } else {
        r := Err(IOException);
      }
    }

    method ReadFloat() returns (r: Result<real>)
      requires Valid()
      modifies this
      ensures Valid()
      ensures old(pos) < |tokens| && tokens[old(pos)].FloatTok? ==> r == Ok(tokens[old(pos)].f) && pos == old(pos) + 1
      ensures !(old(pos) < |tokens| && tokens[old(pos)].FloatTok?) ==> r == Err(IOException) && pos == old(pos)
    {
      if pos < |tokens| && tokens[pos].FloatTok? {
        r := Ok(tokens[pos].f);
        pos := pos + 1;
      } else {
        r := Err(IOException);
      }
    }

    method ReadShort() returns (r: Result<Int16>)
      requires Valid()
      modifies this
      ensures Valid()
      ensures old(pos) < |tokens| && tokens[old(pos)].ShortTok? ==> r == Ok(tokens[old(pos)].s) && pos == old(pos) + 1
      ensures !(old(pos) < |tokens| && tokens[old(pos)].ShortTok?) ==> r == Err(IOException) && pos == old(pos)
    {
      if pos < |tokens| && tokens[pos].ShortTok? {
        r := Ok(tokens[pos].s);
        pos := pos + 1;
      } else {
        r := Err(IOException);
      }
    }
  }
}
