/** `handle_disassemble` (src/codelldb/src/debug_session/disassemble.rs): which stretch of memory is
    read for a request, how the instruction stream is aligned on the base address, and which
    entries the response holds. */
module DisassembleRequest {
  import opened Options
  import opened Disassembler

  const ADDRESS_SPACE := 0x1_0000_0000_0000_0000

  datatype Entry = Shown(item: Item) | Invalid(address: nat)

  /** `Panics` is the slice that is out of range. */
  datatype Outcome = Response(entries: seq<Entry>) | BadCount | NotAligned | Panics

  // ----- address arithmetic -----

  function Max(a: int, b: int): int { if a < b then b else a }

  function Min(a: int, b: int): int { if a < b then a else b }

  /** Wrap-around of 64-bit addresses. */
  function Wrap(x: int): (r: nat)
    ensures r < ADDRESS_SPACE
    decreases if x < 0 then -x else x
  {
    if x < -ADDRESS_SPACE then Wrap(x + ADDRESS_SPACE)
    else if x < 0 then (if x == -ADDRESS_SPACE then 0 else x + ADDRESS_SPACE)
    else if x >= ADDRESS_SPACE then Wrap(x - ADDRESS_SPACE)
    else x
  }

  function NextAddress(a: nat): nat { if a + 1 == ADDRESS_SPACE then 0 else a + 1 }

  lemma {:induction false} WrapNext(x: int)
    ensures Wrap(x + 1) == NextAddress(Wrap(x)) && (0 <= x < ADDRESS_SPACE ==> Wrap(x) == x)
    decreases if x < 0 then -x else x
  {
    if x < -ADDRESS_SPACE {
      WrapNext(x + ADDRESS_SPACE);
    } else if x >= ADDRESS_SPACE {
      WrapNext(x - ADDRESS_SPACE);
    }
  }

  function NumBefore(offset: int): nat { -Min(offset, 0) }

  function NumAfter(offset: int, count: int): nat { Max(count + offset, 0) }

  function StartAddress(base: nat, offset: int, maxSize: nat): (r: nat)
    ensures r <= base
  {
    Max(base - Bytes(NumBefore(offset), maxSize), 0)
  }

  function EndAddress(base: nat, offset: int, count: int, maxSize: nat): (r: nat)
    requires base < ADDRESS_SPACE
    ensures base <= r < ADDRESS_SPACE
  {
    Min(base + Bytes(NumAfter(offset, count), maxSize), ADDRESS_SPACE - 1)
  }

  /** None of the fixed-width products and sums overflows. */
  predicate NoOverflow(offset: int, count: int, maxSize: nat)
  {
    && Bytes(NumBefore(offset), maxSize) < ADDRESS_SPACE
    && Bytes(NumAfter(offset, count), maxSize) < ADDRESS_SPACE
    && -0x8000_0000_0000_0000 <= count + offset < 0x8000_0000_0000_0000
  }

  // ----- aligning the instruction stream -----

  function Position(items: seq<Item>, address: nat): (r: Option<nat>)
    ensures r.Some? ==> r.value < |items| && items[r.value].start == address
    ensures r.None? ==> forall k :: 0 <= k < |items| ==> items[k].start != address
  {
    if items == [] then None
    else if items[0].start == address then Some(0)
    else
      var k := Position(items[1..], address);
      assert forall j :: 1 <= j < |items| ==> items[j] == items[1..][j - 1];
      if k.Some? then Some(k.value + 1) else None
  }

  /** A stream of instructions in which one starts at the base address. */
  datatype Stream = Stream(start: nat, items: seq<Item>, baseIndex: nat)

  ghost predicate AlignedOn(s: Stream, base: nat, end: nat, maxSize: nat)
  {
    && Tiles(s.items, s.start, end, maxSize)
    && s.baseIndex < |s.items| && s.items[s.baseIndex].start == base
  }

  function StreamOf(start: nat, items: seq<Item>, base: nat): (r: Option<Stream>)
    ensures r.Some? ==> r.value.start == start && r.value.items == items
    ensures r.Some? ==> r.value.baseIndex < |items| && items[r.value.baseIndex].start == base
  {
    var k := Position(items, base);
    if k.Some? then Some(Stream(start, items, k.value)) else None
  }

  /** The stream that results from skipping `i` bytes, if an instruction starts at the base address. */
  ghost function AlignAt(decode: Decoder, maxSize: nat, from: nat, buffer: seq<byte>, base: nat, i: nat): Option<Stream>
    requires GoodDecoder(decode, maxSize) && i <= |buffer|
  {
    StreamOf(from + i, Listing(decode, maxSize, from + i, buffer[i..]), base)
  }

  /** The stream that results from skipping as few bytes as possible, from `i` up and fewer than
      `maxSize`, for an instruction to start at the base address. */
  ghost function Align(decode: Decoder, maxSize: nat, from: nat, buffer: seq<byte>, base: nat, i: nat): Option<Stream>
    requires GoodDecoder(decode, maxSize)
    decreases maxSize - i
  {
    if i >= maxSize || i >= |buffer| then None
    else
      var here := AlignAt(decode, maxSize, from, buffer, base, i);
      if here.Some? then here else Align(decode, maxSize, from, buffer, base, i + 1)
  }

  lemma {:induction false} AlignSound(decode: Decoder, maxSize: nat, from: nat, buffer: seq<byte>, base: nat, i: nat)
    requires GoodDecoder(decode, maxSize) && Align(decode, maxSize, from, buffer, base, i).Some?
    ensures var s := Align(decode, maxSize, from, buffer, base, i).value;
      AlignedOn(s, base, from + |buffer|, maxSize) && from + i <= s.start < from + maxSize
    decreases maxSize - i
  {
    ListingTiles(decode, maxSize, from + i, buffer[i..]);
    if AlignAt(decode, maxSize, from, buffer, base, i).None? {
      AlignSound(decode, maxSize, from, buffer, base, i + 1);
    }
  }

  lemma AlignAtFinds(decode: Decoder, maxSize: nat, from: nat, buffer: seq<byte>, base: nat, i: nat, k: nat)
    requires GoodDecoder(decode, maxSize) && i < |buffer| && k < |Listing(decode, maxSize, from + i, buffer[i..])|
    requires Listing(decode, maxSize, from + i, buffer[i..])[k].start == base
    ensures AlignAt(decode, maxSize, from, buffer, base, i).Some?
  {
  }

  /** No smaller skip would do, and there is no stream only when no skip at all does. */
  lemma {:induction false} AlignFewest(decode: Decoder, maxSize: nat, from: nat, buffer: seq<byte>, base: nat, i: nat, j: nat)
    requires GoodDecoder(decode, maxSize) && i <= j < maxSize && j < |buffer|
    requires AlignAt(decode, maxSize, from, buffer, base, j).Some?
    ensures var r := Align(decode, maxSize, from, buffer, base, i); r.Some? && from + i <= r.value.start <= from + j
    decreases maxSize - i
  {
    if AlignAt(decode, maxSize, from, buffer, base, i).None? {
      AlignFewest(decode, maxSize, from, buffer, base, i + 1, j);
    }
  }

  /** The stream is the listing of all the bytes that are not skipped. */
  lemma {:induction false} AlignLists(decode: Decoder, maxSize: nat, from: nat, buffer: seq<byte>, base: nat, i: nat)
      returns (j: nat)
    requires GoodDecoder(decode, maxSize) && Align(decode, maxSize, from, buffer, base, i).Some?
    ensures i <= j < maxSize && j < |buffer|
    ensures Align(decode, maxSize, from, buffer, base, i) == AlignAt(decode, maxSize, from, buffer, base, j)
    decreases maxSize - i
  {
    j := i;
    if AlignAt(decode, maxSize, from, buffer, base, i).None? {
      j := AlignLists(decode, maxSize, from, buffer, base, i + 1);
    }
  }

  method TryAlignment(decode: Decoder, ghost maxSize: nat, from: nat, buffer: seq<byte>, base: nat, i: nat)
      returns (r: Option<Stream>)
    requires GoodDecoder(decode, maxSize) && i < |buffer|
    ensures r == AlignAt(decode, maxSize, from, buffer, base, i)
  {
    var instructions := DisassembleBytes(decode, maxSize, from + i, buffer[i..]);
    r := StreamOf(from + i, instructions, base);
  }

  method FindAlignment(decode: Decoder, maxSize: nat, from: nat, buffer: seq<byte>, base: nat)
      returns (r: Option<Stream>)
    requires GoodDecoder(decode, maxSize)
    ensures r == Align(decode, maxSize, from, buffer, base, 0)
  {
    var i: nat := 0;
    r := None;
    ghost var found := Align(decode, maxSize, from, buffer, base, 0);
    while i < maxSize && i < |buffer| && r.None?
      invariant i <= maxSize
      invariant found == if r.Some? then r else Align(decode, maxSize, from, buffer, base, i)
    {
      r := TryAlignment(decode, maxSize, from, buffer, base, i);
      i := i + 1;
    }
  }

  // ----- cutting out the window -----

  /** Entries for the `-first` positions before the first decoded instruction. */
  function Padding(start: nat, first: int): (r: seq<Entry>)
    ensures |r| == Max(-first, 0)
    ensures forall k :: 0 <= k < |r| ==> r[k] == Invalid(Wrap(start + first + k))
    decreases -first
  {
    if first >= 0 then [] else [Invalid(Wrap(start + first))] + Padding(start, first + 1)
  }

  function ShownAll(items: seq<Item>): (r: seq<Entry>)
    ensures |r| == |items|
    ensures forall k :: 0 <= k < |r| ==> r[k] == Shown(items[k])
  {
    if items == [] then [] else [Shown(items[0])] + ShownAll(items[1..])
  }

  function Window(s: Stream, offset: int, count: int): Outcome
  {
    var first := s.baseIndex + offset;
    var last := first + count;
    if Max(first, 0) <= last <= |s.items|
    then Response(Padding(s.start, first) + ShownAll(s.items[Max(first, 0)..last]))
    else Panics
  }

  method PadBefore(start: nat, first: int) returns (entries: seq<Entry>)
    ensures entries == Padding(start, first)
  {
    entries := [];
    var k := first;
    ghost var all := Padding(start, first);
    while k < 0
      invariant k <= Max(first, 0)
      invariant all == entries + Padding(start, k)
    {
      assert Padding(start, k) == [Invalid(Wrap(start + k))] + Padding(start, k + 1);
      entries := entries + [Invalid(Wrap(start + k))];
      k := k + 1;
    }
  }

  method ShowItems(items: seq<Item>) returns (entries: seq<Entry>)
    ensures entries == ShownAll(items)
  {
    entries := [];
    for j := 0 to |items|
      invariant entries == ShownAll(items)[..j]
    {
      entries := entries + [Shown(items[j])];
    }
  }

  method CutWindow(s: Stream, offset: int, count: int) returns (r: Outcome)
    ensures r == Window(s, offset, count)
  {
    var first := s.baseIndex + offset;
    var last := first + count;
    var entries := PadBefore(s.start, first);
    var from := if first < 0 then 0 else first;
    if !(from <= last <= |s.items|) {
      return Panics;
    }
    var shown := ShowItems(s.items[from..last]);
    r := Response(entries + shown);
  }

  // ----- the request -----

  /** The bytes that the request reads: where they start, and what they are. */
  function Fetched(read: Memory, maxSize: nat, base: nat, offset: int, count: int): (r: (nat, seq<byte>))
    requires GoodMemory(read) && base < ADDRESS_SPACE
    ensures StartAddress(base, offset, maxSize) <= r.0
    ensures r.0 + |r.1| <= EndAddress(base, offset, count, maxSize)
  {
    var start := StartAddress(base, offset, maxSize);
    Readable(read, start, EndAddress(base, offset, count, maxSize) - start)
  }

  ghost function Handle(read: Memory, decode: Decoder, maxSize: nat, base: nat, offset: int, count: int): Outcome
    requires GoodMemory(read) && GoodDecoder(decode, maxSize) && base < ADDRESS_SPACE
  {
    if count < 0 then BadCount
    else
      var fetched := Fetched(read, maxSize, base, offset, count);
      match Align(decode, maxSize, fetched.0, fetched.1, base, 0)
      case None => NotAligned
      case Some(s) => Window(s, offset, count)
  }

  function OrZero(x: Option<int>): int { if x.Some? then x.value else 0 }

  method Fetch(read: Memory, maxSize: nat, base: nat, offset: int, count: int) returns (from: nat, buffer: seq<byte>)
    requires GoodMemory(read) && base < ADDRESS_SPACE && NoOverflow(offset, count, maxSize)
    ensures (from, buffer) == Fetched(read, maxSize, base, offset, count)
  {
    var start := StartAddress(base, offset, maxSize);
    var end := EndAddress(base, offset, count, maxSize);
    from, buffer := ReadMemory(read, start, end - start);
  }

  method HandleAt(read: Memory, decode: Decoder, maxSize: nat, base: nat, offset: int, count: int) returns (r: Outcome)
    requires GoodMemory(read) && GoodDecoder(decode, maxSize) && base < ADDRESS_SPACE
    requires count >= 0 ==> NoOverflow(offset, count, maxSize)
    ensures r == Handle(read, decode, maxSize, base, offset, count)
  {
    if count < 0 {
      return BadCount;
    }
    var from, buffer := Fetch(read, maxSize, base, offset, count);
    var aligned := FindAlignment(decode, maxSize, from, buffer, base);
    if aligned.None? {
      return NotAligned;
    }
    r := CutWindow(aligned.value, offset, count);
  }

  method HandleDisassemble(read: Memory, decode: Decoder, maxSize: nat, memoryReference: nat,
                           byteOffset: Option<int>, instructionOffset: Option<int>, count: int)
      returns (r: Outcome)
    requires GoodMemory(read) && GoodDecoder(decode, maxSize)
    requires count >= 0 ==> NoOverflow(OrZero(instructionOffset), count, maxSize)
    ensures r == Handle(read, decode, maxSize, Wrap(memoryReference + OrZero(byteOffset)), OrZero(instructionOffset), count)
  {
    var base := Wrap(memoryReference + OrZero(byteOffset));
    var offset := OrZero(instructionOffset);
    r := HandleAt(read, decode, maxSize, base, offset, count);
  }

  // ----- what every response looks like -----

  /** Neighbouring entries are neighbours in memory. Nothing follows a decoded instruction but
      another one, so there is no padding at the end. */
  predicate Follows(a: Entry, b: Entry)
  {
    match (a, b)
    case (Invalid(x), Invalid(y)) => y == NextAddress(x)
    case (Invalid(x), Shown(item)) => Wrap(item.start) == NextAddress(x)
    case (Shown(item), Shown(next)) => item.end == next.start
    case (Shown(_), Invalid(_)) => false
  }

  lemma WindowFollows(s: Stream, base: nat, end: nat, maxSize: nat, offset: int, count: int, k: nat)
    requires AlignedOn(s, base, end, maxSize) && count >= 0
    requires Window(s, offset, count).Response? && k + 1 < |Window(s, offset, count).entries|
    ensures var entries := Window(s, offset, count).entries; Follows(entries[k], entries[k + 1])
  {
    var entries, first := Window(s, offset, count).entries, s.baseIndex + offset;
    var pad := Max(-first, 0);
    if k < pad {
      WrapNext(s.start + first + k);
      if k + 1 == pad { assert entries[k + 1] == Shown(s.items[0]); }
    } else {
      assert entries[k] == Shown(s.items[first + k]) && entries[k + 1] == Shown(s.items[first + k + 1]);
      TilesSplit(s.items, s.start, end, maxSize, first + k);
    }
  }

  /** Entry `k` is the instruction `offset + k` places from the one at the base, or padding where the
      stream has none so far in front. */
  predicate Placed(entries: seq<Entry>, s: Stream, offset: int)
  {
    forall k :: 0 <= k < |entries| ==>
      var j := s.baseIndex + offset + k;
      if j < 0 then entries[k] == Invalid(Wrap(s.start + j)) else j < |s.items| && entries[k] == Shown(s.items[j])
  }

  lemma WindowPlaces(s: Stream, offset: int, count: int)
    requires Window(s, offset, count).Response?
    ensures Placed(Window(s, offset, count).entries, s, offset)
  {
    var first := s.baseIndex + offset;
    assert |Padding(s.start, first)| == Max(-first, 0);
  }

  lemma WindowBase(s: Stream, offset: int, count: int)
    requires s.baseIndex < |s.items| && 0 <= -offset < count && Window(s, offset, count).Response?
    requires |Window(s, offset, count).entries| == count
    ensures Window(s, offset, count).entries[-offset] == Shown(s.items[s.baseIndex])
  {
    WindowPlaces(s, offset, count);
  }

  /** As many entries as asked for, neighbours in memory, with the base address in its place. */
  predicate Fills(entries: seq<Entry>, base: nat, offset: int, count: int)
  {
    && |entries| == count
    && (forall k :: 0 <= k < count - 1 ==> Follows(entries[k], entries[k + 1]))
    && (0 <= -offset < count ==> entries[-offset].Shown? && entries[-offset].item.start == base)
  }

  /** A response is a window on an aligned stream. */
  lemma HandleIsWindow(read: Memory, decode: Decoder, maxSize: nat, base: nat, offset: int, count: int)
      returns (s: Stream, end: nat)
    requires GoodMemory(read) && GoodDecoder(decode, maxSize) && base < ADDRESS_SPACE
    requires Handle(read, decode, maxSize, base, offset, count).Response?
    ensures AlignedOn(s, base, end, maxSize) && count >= 0
    ensures Handle(read, decode, maxSize, base, offset, count) == Window(s, offset, count)
    ensures var fetched := Fetched(read, maxSize, base, offset, count);
      Align(decode, maxSize, fetched.0, fetched.1, base, 0) == Some(s)
  {
    var fetched := Fetched(read, maxSize, base, offset, count);
    s := Align(decode, maxSize, fetched.0, fetched.1, base, 0).value;
    AlignSound(decode, maxSize, fetched.0, fetched.1, base, 0);
    end := fetched.0 + |fetched.1|;
  }

  /** Every response has exactly the number of entries asked for; they are contiguous, and the
      one for the base address is where the client expects it. */
  lemma ResponseShape(read: Memory, decode: Decoder, maxSize: nat, base: nat, offset: int, count: int)
    requires GoodMemory(read) && GoodDecoder(decode, maxSize) && base < ADDRESS_SPACE
    requires Handle(read, decode, maxSize, base, offset, count).Response?
    ensures Fills(Handle(read, decode, maxSize, base, offset, count).entries, base, offset, count)
  {
    var s, end := HandleIsWindow(read, decode, maxSize, base, offset, count);
    StreamResponse(s, base, end, maxSize, offset, count);
  }

  /** Which instructions a response shows. */
  lemma ResponsePlaces(read: Memory, decode: Decoder, maxSize: nat, base: nat, offset: int, count: int)
      returns (s: Stream)
    requires GoodMemory(read) && GoodDecoder(decode, maxSize) && base < ADDRESS_SPACE
    requires Handle(read, decode, maxSize, base, offset, count).Response?
    ensures var fetched := Fetched(read, maxSize, base, offset, count);
      Align(decode, maxSize, fetched.0, fetched.1, base, 0) == Some(s)
    ensures s.baseIndex < |s.items| && s.items[s.baseIndex].start == base
    ensures Placed(Handle(read, decode, maxSize, base, offset, count).entries, s, offset)
  {
    var t, end := HandleIsWindow(read, decode, maxSize, base, offset, count);
    s := t;
    WindowPlaces(s, offset, count);
  }

  /** A window that starts after the base: exactly `offset` instructions lie between the two. */
  lemma InstructionsSkipped(read: Memory, decode: Decoder, maxSize: nat, base: nat, offset: int, count: int)
      returns (skipped: seq<Item>)
    requires GoodMemory(read) && GoodDecoder(decode, maxSize) && base < ADDRESS_SPACE
    requires Handle(read, decode, maxSize, base, offset, count).Response? && offset >= 0 && count > 0
    ensures var entries := Handle(read, decode, maxSize, base, offset, count).entries;
      && |skipped| == offset && entries != [] && entries[0].Shown?
      && Tiles(skipped, base, entries[0].item.start, maxSize)
  {
    var s, end := HandleIsWindow(read, decode, maxSize, base, offset, count);
    WindowPlaces(s, offset, count);
    var b := s.baseIndex;
    assert Window(s, offset, count).entries[0] == Shown(s.items[b + offset]);
    TilesSplit(s.items, s.start, end, maxSize, b);
    TilesSplit(s.items[b..], base, end, maxSize, offset);
    skipped := s.items[b..][..offset];
    assert s.items[b..][offset] == s.items[b + offset];
  }

  lemma StreamResponse(s: Stream, base: nat, end: nat, maxSize: nat, offset: int, count: int)
    requires AlignedOn(s, base, end, maxSize) && count >= 0 && Window(s, offset, count).Response?
    ensures Fills(Window(s, offset, count).entries, base, offset, count)
  {
    var entries := Window(s, offset, count).entries;
    assert |entries| == count;
    forall k | 0 <= k < count - 1
      ensures Follows(entries[k], entries[k + 1])
    {
      WindowFollows(s, base, end, maxSize, offset, count, k);
    }
    if 0 <= -offset < count { WindowBase(s, offset, count); }
  }

  // ----- enough is read -----

  /** Skipping fewer than `maxSize` bytes never costs an instruction before the base, and reading
      `maxSize` bytes per instruction leaves enough of them after it. */
  lemma EnoughInstructions(s: Stream, base: nat, end: nat, maxSize: nat, before: nat, after: nat)
    requires AlignedOn(s, base, end, maxSize)
    requires s.start + Bytes(before, maxSize) < base + maxSize
    requires end == base + Bytes(after, maxSize)
    ensures before <= s.baseIndex && s.baseIndex + after <= |s.items|
  {
    TilesSplit(s.items, s.start, end, maxSize, s.baseIndex);
    TilesCount(s.items[..s.baseIndex], s.start, base, maxSize);
    TilesCount(s.items[s.baseIndex..], base, end, maxSize);
    if s.baseIndex < before { BytesMonotone(s.baseIndex, before, maxSize); }
    if |s.items| - s.baseIndex < after { BytesMonotone(|s.items| - s.baseIndex, after, maxSize); }
  }

  /** Nothing saturates and all the bytes asked for are delivered. */
  predicate FullyReadable(read: Memory, maxSize: nat, base: nat, offset: int, count: int)
    requires base < ADDRESS_SPACE
  {
    var start, end := StartAddress(base, offset, maxSize), EndAddress(base, offset, count, maxSize);
    && Bytes(NumBefore(offset), maxSize) <= base
    && base + Bytes(NumAfter(offset, count), maxSize) < ADDRESS_SPACE
    && read(start, end - start).Some? && |read(start, end - start).value| == end - start
  }

  /** When the memory can be read and the stream can be aligned, the whole window is decoded: no
      index is out of range and no entry is a placeholder. */
  lemma FullWindow(read: Memory, decode: Decoder, maxSize: nat, base: nat, offset: int, count: int)
    requires GoodMemory(read) && GoodDecoder(decode, maxSize) && base < ADDRESS_SPACE && count >= 0
    requires FullyReadable(read, maxSize, base, offset, count)
    requires Handle(read, decode, maxSize, base, offset, count) != NotAligned
    ensures Handle(read, decode, maxSize, base, offset, count).Response?
    ensures var entries := Handle(read, decode, maxSize, base, offset, count).entries;
      && |entries| == count && forall k :: 0 <= k < count ==> entries[k].Shown?
  {
    var fetched := Fetched(read, maxSize, base, offset, count);
    var s := Align(decode, maxSize, fetched.0, fetched.1, base, 0).value;
    AlignSound(decode, maxSize, fetched.0, fetched.1, base, 0);
    EnoughInstructions(s, base, fetched.0 + |fetched.1|, maxSize, NumBefore(offset), NumAfter(offset, count));
  }

}
