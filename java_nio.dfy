/**
 * A java.nio typed buffer (FloatBuffer, ShortBuffer, ...): a fixed backing
 * array of `capacity` elements with a position and a limit,
 * 0 <= position <= limit <= capacity.
 */
module JavaNio {
  import opened JavaLang

  class NioBuffer<T(0)> {
    const data: array<T>
    var position: int
    var limit: int

    ghost predicate Valid()
      reads this
    {
      0 <= position <= limit <= data.Length <= MaxInt32
    }

    /** The elements held, index 0 to capacity-1. */
    ghost function Contents(): seq<T>
      reads data
    {
      data[..]
    }

    /** allocate(capacity): position 0, limit at the capacity. */
    constructor Allocate(capacity: int)
      requires 0 <= capacity <= MaxInt32
      ensures Valid() && fresh(data)
      ensures data.Length == capacity && position == 0 && limit == capacity
    {
      data := new T[capacity];
      position := 0;
      limit := capacity;
    }

    /** Relative put(x): store at the position and advance it; overflow at the limit. */
    method Put(x: T) returns (o: Outcome)
      requires Valid()
      modifies this, data
      ensures Valid() && limit == old(limit)
      ensures old(position) < limit ==>
        o == Done && position == old(position) + 1 && data[..] == old(data[..])[old(position) := x]
      ensures old(position) >= limit ==>
        o == Thrown(BufferOverflow) && position == old(position) && data[..] == old(data[..])
    {
      if position >= limit {
        return Thrown(BufferOverflow);
      }
      data[position] := x;
      position := position + 1;
      o := Done;
    }

    /** Bulk put(src): all of src from the position on, or nothing when it does not fit before the limit. */
    method PutAll(src: seq<T>) returns (o: Outcome)
      requires Valid()
      modifies this, data
      ensures Valid() && limit == old(limit)
      ensures |src| <= limit - old(position) ==>
        && o == Done && position == old(position) + |src|
        && data[..] == old(data[..])[..old(position)] + src + old(data[..])[old(position) + |src|..]
      ensures |src| > limit - old(position) ==>
        o == Thrown(BufferOverflow) && position == old(position) && data[..] == old(data[..])
    {
      if |src| > limit - position {
        return Thrown(BufferOverflow);
      }
      var start := position;
      var j := 0;
      while j < |src|
        invariant 0 <= j <= |src| && position == start + j && limit == old(limit)
        invariant data[..] == old(data[..])[..start] + src[..j] + old(data[..])[start + j..]
      {
        data[position] := src[j];
        position := position + 1;
        j := j + 1;
        assert src[..j] == src[..j - 1] + [src[j - 1]];
      }
      assert src[..j] == src;
      o := Done;
    }

    /** Absolute get(i): no change of position; an index at or past the limit is out of bounds. */
    function Get(i: int): (r: Result<T>)
      reads this, data
      requires Valid()
      ensures r.Ok? <==> 0 <= i < limit
      ensures r.Ok? ==> r.value == Contents()[i]
      ensures r.Err? ==> r.error == IndexOutOfBounds
    {
      if 0 <= i < limit then Ok(data[i]) else Err(IndexOutOfBounds)
    }

    /** rewind(): position back to 0, limit kept. */
    method Rewind()
      requires Valid()
      modifies this
      ensures Valid() && position == 0 && limit == old(limit)
    {
      position := 0;
    }

    /** position(p): 0 <= p <= limit, otherwise IllegalArgumentException. */
    method SetPosition(p: int) returns (o: Outcome)
      requires Valid()
      modifies this
      ensures Valid() && limit == old(limit)
      ensures 0 <= p <= limit ==> o == Done && position == p
      ensures !(0 <= p <= limit) ==> o == Thrown(IllegalArgument) && position == old(position)
    {
      if 0 <= p <= limit {
        position := p;
        o := Done;
      } else {
        o := Thrown(IllegalArgument);
      }
    }
  }
}
