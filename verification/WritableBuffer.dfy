/** The growing byte buffer of extension/novsc/writableBuffer.ts, in place on an array. */
module WritableBuffers {
  import opened Options

  /** Rounding up to a multiple: what `Math.ceil(x / increment)` is for. */
  lemma CeilingCovers(x: nat, increment: nat)
    requires increment > 0
    ensures var factor := (x + increment - 1) / increment;
      x <= increment * factor < x + increment
  {
    var y := x + increment - 1;
    assert y == increment * (y / increment) + y % increment;
  }

  class WritableBuffer {
    var buffer: array<char>
    var size: nat
    const increment: nat

    ghost predicate Valid()
      reads this
    {
      size <= buffer.Length && increment > 0
    }

    ghost function Contents(): string
      requires Valid()
      reads this, buffer
    {
      buffer[..size]
    }

    constructor (initialSize: nat, increment: nat)
      requires increment > 0
      ensures Valid() && Contents() == "" && fresh(buffer)
    {
      buffer := new char[initialSize];
      this.increment := increment;
      size := 0;
    }

    /** Enlarges the buffer by whole increments, as few as will do. */
    method Grow(extra: nat)
      requires Valid() && buffer.Length < size + extra
      modifies this`buffer
      ensures Valid() && fresh(buffer) && Contents() == old(Contents())
      ensures size + extra <= buffer.Length < size + extra + increment
    {
      var missing := extra - (buffer.Length - size);
      CeilingCovers(missing, increment);
      var factor := (missing + increment - 1) / increment;
      var newBuffer := new char[buffer.Length + increment * factor];
      for i := 0 to size
        invariant newBuffer[..i] == buffer[..i]
        modifies newBuffer
      {
        newBuffer[i] := buffer[i];
      }
      buffer := newBuffer;
    }

    method Write(chunk: string)
      requires Valid()
      modifies this`buffer, this`size, buffer
      ensures Valid() && Contents() == old(Contents()) + chunk
      ensures fresh(buffer) || buffer == old(buffer)
    {
      if size + |chunk| > buffer.Length {
        Grow(|chunk|);
      }
      ghost var before := Contents();
      for i := 0 to |chunk|
        invariant buffer[..size + i] == before + chunk[..i]
        modifies buffer
      {
        buffer[size + i] := chunk[i];
        assert buffer[..size + i + 1] == buffer[..size + i] + [chunk[i]];
      }
      assert chunk[..|chunk|] == chunk;
      size := size + |chunk|;
    }

    method Head(length: nat) returns (r: Option<string>)
      requires Valid()
      ensures r == if length <= size then Some(Contents()[..length]) else None
    {
      if length > size {
        return None;
      }
      assert buffer[..size][..length] == buffer[..length];
      r := Some(buffer[..length]);
    }

    /** Shifts the rest of the contents to the front of the same array. */
    method Remove(length: nat) returns (ok: bool)
      requires Valid()
      modifies this`size, buffer
      ensures Valid() && ok == (length <= old(size))
      ensures Contents() == if ok then old(Contents())[length..] else old(Contents())
    {
      if length > size {
        return false;
      }
      ghost var before := buffer[..size];
      for i := 0 to size - length
        invariant forall k :: 0 <= k < i ==> buffer[k] == before[length + k]
        invariant forall k :: i <= k < size ==> buffer[k] == before[k]
        modifies buffer
      {
        buffer[i] := buffer[length + i];
      }
      size := size - length;
      assert buffer[..size] == before[length..];
      ok := true;
    }
  }
}
