/** Which disassembly requests cannot be served (src/codelldb/src/debug_session/disassemble.rs). */
module DisassembleFailures {
  import opened Options
  import opened Disassembler
  import opened DisassembleRequest

  lemma AlignedInside(decode: Decoder, maxSize: nat, from: nat, buffer: seq<byte>, base: nat)
    requires GoodDecoder(decode, maxSize)
    ensures Align(decode, maxSize, from, buffer, base, 0).Some? ==> from <= base < from + |buffer|
  {
    var aligned := Align(decode, maxSize, from, buffer, base, 0);
    if aligned.Some? {
      var s := aligned.value;
      AlignSound(decode, maxSize, from, buffer, base, 0);
      TilesSplit(s.items, s.start, from + |buffer|, maxSize, s.baseIndex);
    }
  }

  // ----- requests that fail for every memory and decoder -----

  /** The byte at the base address is not among those that are read. */
  predicate BaseNotRead(base: nat, offset: int, count: int)
  {
    count + offset <= 0 || base == ADDRESS_SPACE - 1
  }

  lemma UnreadBaseFails(read: Memory, decode: Decoder, maxSize: nat, base: nat, offset: int, count: int)
    requires GoodMemory(read) && GoodDecoder(decode, maxSize) && base < ADDRESS_SPACE && count >= 0
    requires BaseNotRead(base, offset, count)
    ensures Handle(read, decode, maxSize, base, offset, count) == NotAligned
  {
    var fetched := Fetched(read, maxSize, base, offset, count);
    assert EndAddress(base, offset, count, maxSize) == base;
    AlignedInside(decode, maxSize, fetched.0, fetched.1, base);
  }

  function Zeros(a: nat, n: nat): Option<seq<byte>> { Some(seq<byte>(n, _ => 0)) }

  function NoInstructions(a: nat, buffer: seq<byte>): seq<nat> { [] }

  lemma {:induction false} RawListing(maxSize: nat, base: nat, buffer: seq<byte>)
    requires maxSize > 0
    ensures GoodDecoder(NoInstructions, maxSize)
    ensures var items := Listing(NoInstructions, maxSize, base, buffer);
      |items| == |buffer| && forall k :: 0 <= k < |items| ==> items[k].start == base + k
    decreases |buffer|
  {
    if buffer != [] { RawListing(maxSize, base + 1, buffer[1..]); }
  }

  /** Bytes that cannot be decoded can be aligned on any of them. */
  lemma RawAligned(maxSize: nat, from: nat, buffer: seq<byte>, base: nat)
    requires maxSize > 0 && from <= base < from + |buffer|
    ensures GoodDecoder(NoInstructions, maxSize) && Align(NoInstructions, maxSize, from, buffer, base, 0).Some?
  {
    RawListing(maxSize, from, buffer);
    assert buffer[0..] == buffer;
    var items := Listing(NoInstructions, maxSize, from, buffer);
    assert items[base - from].start == base;
    assert AlignAt(NoInstructions, maxSize, from, buffer, base, 0).Some?;
  }

  lemma ReadBaseSucceeds(maxSize: nat, base: nat, offset: int, count: int)
    requires maxSize > 0 && base < ADDRESS_SPACE && count >= 0 && !BaseNotRead(base, offset, count)
    ensures GoodMemory(Zeros) && GoodDecoder(NoInstructions, maxSize)
    ensures Handle(Zeros, NoInstructions, maxSize, base, offset, count) != NotAligned
  {
    var fetched := Fetched(Zeros, maxSize, base, offset, count);
    assert EndAddress(base, offset, count, maxSize) > base;
    RawAligned(maxSize, fetched.0, fetched.1, base);
  }

  /** A request fails whatever memory holds and however it is decoded exactly when the window ends
      before the base address, or the base is the last address of all: the byte at the base is then not
      read, so no instruction can be found to start there. */
  lemma AlwaysFailsIff(maxSize: nat, base: nat, offset: int, count: int)
    requires maxSize > 0 && base < ADDRESS_SPACE && count >= 0
    ensures (forall read: Memory, decode: Decoder :: GoodMemory(read) && GoodDecoder(decode, maxSize) ==>
               Handle(read, decode, maxSize, base, offset, count) == NotAligned) <==>
      BaseNotRead(base, offset, count)
  {
    if BaseNotRead(base, offset, count) {
      forall read: Memory, decode: Decoder | GoodMemory(read) && GoodDecoder(decode, maxSize)
        ensures Handle(read, decode, maxSize, base, offset, count) == NotAligned
      {
        UnreadBaseFails(read, decode, maxSize, base, offset, count);
      }
    } else {
      ReadBaseSucceeds(maxSize, base, offset, count);
    }
  }

  // ----- windows that start at the base or later -----

  /** When the window starts at the base or later, alignment is a matter of memory alone: it fails
      exactly when the byte at the base cannot be read. */
  lemma ForwardFailsIff(read: Memory, decode: Decoder, maxSize: nat, base: nat, offset: int, count: int)
    requires GoodMemory(read) && GoodDecoder(decode, maxSize) && base < ADDRESS_SPACE && count >= 0 && offset >= 0
    ensures var fetched := Fetched(read, maxSize, base, offset, count);
      Handle(read, decode, maxSize, base, offset, count) == NotAligned <==> fetched.0 != base || fetched.1 == []
  {
    var fetched := Fetched(read, maxSize, base, offset, count);
    AlignedInside(decode, maxSize, fetched.0, fetched.1, base);
  }

  /** What such a window shows: the instructions listed from the base on, without the first `offset`. */
  lemma ForwardResponse(read: Memory, decode: Decoder, maxSize: nat, base: nat, offset: int, count: int)
    requires GoodMemory(read) && GoodDecoder(decode, maxSize) && base < ADDRESS_SPACE && offset >= 0
    requires Handle(read, decode, maxSize, base, offset, count).Response?
    ensures var items := Listing(decode, maxSize, base, Fetched(read, maxSize, base, offset, count).1);
      && 0 <= count && offset + count <= |items|
      && Handle(read, decode, maxSize, base, offset, count) == Response(ShownAll(items[offset..offset + count]))
  {
    var fetched := Fetched(read, maxSize, base, offset, count);
    ForwardFailsIff(read, decode, maxSize, base, offset, count);
    assert fetched.1[0..] == fetched.1;
    ListingTiles(decode, maxSize, base, fetched.1);
    var s := Stream(base, Listing(decode, maxSize, base, fetched.1), 0);
    assert AlignAt(decode, maxSize, base, fetched.1, base, 0) == Some(s);
    ForwardSlice(s, offset, count);
  }

  lemma ForwardSlice(s: Stream, offset: int, count: int)
    requires s.baseIndex == 0 && offset >= 0 && Window(s, offset, count).Response?
    ensures 0 <= count && offset + count <= |s.items|
    ensures Window(s, offset, count) == Response(ShownAll(s.items[offset..offset + count]))
  {
    assert Padding(s.start, offset) == [];
    assert [] + ShownAll(s.items[offset..offset + count]) == ShownAll(s.items[offset..offset + count]);
  }

  // ----- the slice that is out of range -----

  /** The slice is out of range exactly when the aligned stream holds too few instructions from the
      base on; the start index never is the cause. */
  lemma PanicsIffStreamEnds(read: Memory, decode: Decoder, maxSize: nat, base: nat, offset: int, count: int, s: Stream)
    requires GoodMemory(read) && GoodDecoder(decode, maxSize) && base < ADDRESS_SPACE && count >= 0
    requires var fetched := Fetched(read, maxSize, base, offset, count);
      Align(decode, maxSize, fetched.0, fetched.1, base, 0) == Some(s)
    ensures Handle(read, decode, maxSize, base, offset, count) == Panics <==>
      |s.items| < s.baseIndex + NumAfter(offset, count)
  {
    if count + offset <= 0 {
      UnreadBaseFails(read, decode, maxSize, base, offset, count);
    }
  }

  /** When the window starts at the base or later: it panics exactly when the bytes that can be read there
      hold some instructions, but fewer than the window reaches to. */
  lemma ForwardPanicsIff(read: Memory, decode: Decoder, maxSize: nat, base: nat, offset: int, count: int)
    requires GoodMemory(read) && GoodDecoder(decode, maxSize) && base < ADDRESS_SPACE && count >= 0 && offset >= 0
    ensures var fetched := Fetched(read, maxSize, base, offset, count);
      Handle(read, decode, maxSize, base, offset, count) == Panics <==>
        fetched.0 == base && 0 < |Listing(decode, maxSize, base, fetched.1)| < count + offset
  {
    var fetched := Fetched(read, maxSize, base, offset, count);
    ForwardFailsIff(read, decode, maxSize, base, offset, count);
    ListingTiles(decode, maxSize, base, fetched.1);
    if fetched.0 == base && fetched.1 != [] {
      PanicsIffStreamEnds(read, decode, maxSize, base, offset, count, Stream(base, Listing(decode, maxSize, base, fetched.1), 0));
    }
  }

  /** In terms of memory alone: it panics, however it is decoded, when fewer bytes can be read at the base
      than the window reaches to in instructions. */
  lemma ShortReadPanics(read: Memory, decode: Decoder, maxSize: nat, base: nat, offset: int, count: int)
    requires GoodMemory(read) && GoodDecoder(decode, maxSize) && base < ADDRESS_SPACE && count >= 0 && offset >= 0
    requires var fetched := Fetched(read, maxSize, base, offset, count);
      fetched.0 == base && 0 < |fetched.1| < count + offset
    ensures Handle(read, decode, maxSize, base, offset, count) == Panics
  {
    var fetched := Fetched(read, maxSize, base, offset, count);
    ListingTiles(decode, maxSize, base, fetched.1);
    TilesCount(Listing(decode, maxSize, base, fetched.1), base, base + |fetched.1|, maxSize);
    ForwardPanicsIff(read, decode, maxSize, base, offset, count);
  }

  /** For any offset: with fewer bytes from the base on than instructions wanted there is never a response.
      The padding meant for this case comes after the slice and is not reached. */
  lemma ShortReadNeverAnswered(read: Memory, decode: Decoder, maxSize: nat, base: nat, offset: int, count: int)
    requires GoodMemory(read) && GoodDecoder(decode, maxSize) && base < ADDRESS_SPACE && count >= 0
    requires var fetched := Fetched(read, maxSize, base, offset, count);
      fetched.0 + |fetched.1| < base + NumAfter(offset, count)
    ensures !Handle(read, decode, maxSize, base, offset, count).Response?
  {
    var fetched := Fetched(read, maxSize, base, offset, count);
    var end := fetched.0 + |fetched.1|;
    var aligned := Align(decode, maxSize, fetched.0, fetched.1, base, 0);
    if aligned.Some? {
      var s := aligned.value;
      AlignSound(decode, maxSize, fetched.0, fetched.1, base, 0);
      TilesSplit(s.items, s.start, end, maxSize, s.baseIndex);
      TilesCount(s.items[s.baseIndex..], base, end, maxSize);
    }
  }

  /** Memory that holds a single byte, at address 4096. */
  function OneByte(a: nat, n: nat): Option<seq<byte>>
  {
    if a == 4096 && n > 0 then Some([0]) else None
  }

  /** Asking there for two instructions of up to 16 bytes panics. */
  lemma TwoInstructionsInOneByte()
    ensures GoodMemory(OneByte) && GoodDecoder(NoInstructions, 16)
    ensures Handle(OneByte, NoInstructions, 16, 4096, 0, 2) == Panics
  {
    assert Bytes(1, 16) == 16 && Bytes(2, 16) == 32;
    assert Fetched(OneByte, 16, 4096, 0, 2) == (4096, [0]);
    ShortReadPanics(OneByte, NoInstructions, 16, 4096, 0, 2);
  }
}
