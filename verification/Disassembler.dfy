/** Turning raw memory into a list of instructions (src/codelldb/src/debug_session/disassemble.rs).
    LLDB's decoder and the debuggee's memory are parameters; all that is assumed of the decoder is
    that the instructions it reports are not empty and lie within the bytes it was given. */
module Disassembler {
  import opened Options

  type byte = x: int | 0 <= x < 256

  /** What was found at an address: an instruction, or a byte that could not be decoded. */
  datatype Body = Instr | RawByte(b: byte)

  datatype Item = Item(start: nat, end: nat, body: Body)

  /** Sizes of the instructions decoded from the given bytes at the given address. */
  type Decoder = (nat, seq<byte>) -> seq<nat>

  /** The bytes read at an address when that many were asked for; None when the read failed. */
  type Memory = (nat, nat) -> Option<seq<byte>>

  function Sum(sizes: seq<nat>): nat
  {
    if sizes == [] then 0 else sizes[0] + Sum(sizes[1..])
  }

  predicate SizesOk(sizes: seq<nat>, maxSize: nat)
  {
    forall i :: 0 <= i < |sizes| ==> 1 <= sizes[i] <= maxSize
  }

  /** Instructions are not empty, are not longer than the maximum, and fit into the bytes there are. */
  predicate SizesFit(sizes: seq<nat>, room: nat, maxSize: nat)
    decreases |sizes|
  {
    sizes == [] ||
    (1 <= sizes[0] <= maxSize && sizes[0] <= room && SizesFit(sizes[1..], room - sizes[0], maxSize))
  }

  ghost predicate GoodDecoder(decode: Decoder, maxSize: nat)
  {
    maxSize > 0 && forall a, buf :: SizesFit(decode(a, buf), |buf|, maxSize)
  }

  lemma {:induction false} FittingSizes(sizes: seq<nat>, room: nat, maxSize: nat)
    requires SizesFit(sizes, room, maxSize)
    ensures Sum(sizes) <= room && SizesOk(sizes, maxSize) && (sizes != [] ==> Sum(sizes) >= 1)
    decreases |sizes|
  {
    if sizes != [] { FittingSizes(sizes[1..], room - sizes[0], maxSize); }
  }

  ghost predicate GoodMemory(read: Memory)
  {
    forall a, n :: read(a, n).Some? ==> |read(a, n).value| <= n
  }

  // ----- disassemble_bytes -----

  function Instructions(base: nat, sizes: seq<nat>): seq<Item>
    decreases sizes
  {
    if sizes == [] then []
    else [Item(base, base + sizes[0], Instr)] + Instructions(base + sizes[0], sizes[1..])
  }

  /** What one call of the decoder yields: the instructions it found or, failing that, one byte. */
  function GroupItems(decode: Decoder, base: nat, buffer: seq<byte>): seq<Item>
    requires buffer != []
  {
    if decode(base, buffer) == [] then [Item(base, base + 1, RawByte(buffer[0]))]
    else Instructions(base, decode(base, buffer))
  }

  function GroupSize(decode: Decoder, base: nat, buffer: seq<byte>): nat
  {
    if decode(base, buffer) == [] then 1 else Sum(decode(base, buffer))
  }

  lemma GroupFits(decode: Decoder, maxSize: nat, base: nat, buffer: seq<byte>)
    requires GoodDecoder(decode, maxSize) && buffer != []
    ensures 0 < GroupSize(decode, base, buffer) <= |buffer|
    ensures SizesOk(decode(base, buffer), maxSize)
  {
    FittingSizes(decode(base, buffer), |buffer|, maxSize);
  }

  ghost function Listing(decode: Decoder, maxSize: nat, base: nat, buffer: seq<byte>): seq<Item>
    requires GoodDecoder(decode, maxSize)
    decreases |buffer|
  {
    if buffer == [] then []
    else
      GroupFits(decode, maxSize, base, buffer);
      var n := GroupSize(decode, base, buffer);
      GroupItems(decode, base, buffer) + Listing(decode, maxSize, base + n, buffer[n..])
  }

  /** The items lie end to end from `lo` to `hi`, none empty and none longer than `maxSize`. */
  ghost predicate Tiles(items: seq<Item>, lo: nat, hi: nat, maxSize: nat)
  {
    if items == [] then lo == hi
    else
      && items[0].start == lo && 1 <= items[0].end - lo <= maxSize
      && Tiles(items[1..], items[0].end, hi, maxSize)
  }

  lemma {:induction false} TilesConcat(a: seq<Item>, b: seq<Item>, lo: nat, mid: nat, hi: nat, maxSize: nat)
    requires Tiles(a, lo, mid, maxSize) && Tiles(b, mid, hi, maxSize)
    ensures Tiles(a + b, lo, hi, maxSize)
  {
    if a == [] {
      assert a + b == b;
    } else {
      TilesConcat(a[1..], b, a[0].end, mid, hi, maxSize);
      assert (a + b)[1..] == a[1..] + b;
    }
  }

  lemma {:induction false} InstructionsTile(base: nat, sizes: seq<nat>, maxSize: nat)
    requires SizesOk(sizes, maxSize)
    ensures Tiles(Instructions(base, sizes), base, base + Sum(sizes), maxSize)
    ensures |Instructions(base, sizes)| == |sizes|
    decreases sizes
  {
    if sizes != [] {
      InstructionsTile(base + sizes[0], sizes[1..], maxSize);
    }
  }

  /** A listing covers exactly the bytes it was made from. */
  lemma {:induction false} ListingTiles(decode: Decoder, maxSize: nat, base: nat, buffer: seq<byte>)
    requires GoodDecoder(decode, maxSize)
    ensures Tiles(Listing(decode, maxSize, base, buffer), base, base + |buffer|, maxSize)
    decreases |buffer|
  {
    if buffer != [] {
      var n := GroupSize(decode, base, buffer);
      GroupFits(decode, maxSize, base, buffer);
      GroupTiles(decode, maxSize, base, buffer);
      ListingTiles(decode, maxSize, base + n, buffer[n..]);
      TilesConcat(GroupItems(decode, base, buffer), Listing(decode, maxSize, base + n, buffer[n..]),
                  base, base + n, base + |buffer|, maxSize);
    }
  }

  lemma GroupTiles(decode: Decoder, maxSize: nat, base: nat, buffer: seq<byte>)
    requires GoodDecoder(decode, maxSize) && buffer != []
    ensures Tiles(GroupItems(decode, base, buffer), base, base + GroupSize(decode, base, buffer), maxSize)
  {
    GroupFits(decode, maxSize, base, buffer);
    var sizes := decode(base, buffer);
    if sizes != [] { InstructionsTile(base, sizes, maxSize); }
  }

  /** A byte reported as undecodable is the byte at its address. */
  predicate ShowsByte(item: Item, base: nat, buffer: seq<byte>)
  {
    item.body.RawByte? ==>
      && base <= item.start < base + |buffer| && item.end == item.start + 1
      && item.body.b == buffer[item.start - base]
  }

  lemma {:induction false} InstructionsShowNoByte(base: nat, sizes: seq<nat>)
    ensures forall k :: 0 <= k < |Instructions(base, sizes)| ==> Instructions(base, sizes)[k].body.Instr?
    decreases sizes
  {
    if sizes != [] { InstructionsShowNoByte(base + sizes[0], sizes[1..]); }
  }

  lemma ListingIndex(decode: Decoder, maxSize: nat, base: nat, buffer: seq<byte>, k: nat)
    requires GoodDecoder(decode, maxSize) && k < |Listing(decode, maxSize, base, buffer)|
    ensures buffer != [] && 0 < GroupSize(decode, base, buffer) <= |buffer|
    ensures var items, n := GroupItems(decode, base, buffer), GroupSize(decode, base, buffer);
      var rest := Listing(decode, maxSize, base + n, buffer[n..]);
      if k < |items| then Listing(decode, maxSize, base, buffer)[k] == items[k]
      else k - |items| < |rest| && Listing(decode, maxSize, base, buffer)[k] == rest[k - |items|]
  {
    GroupFits(decode, maxSize, base, buffer);
  }

  lemma {:induction false} ListingShowsBytes(decode: Decoder, maxSize: nat, base: nat, buffer: seq<byte>, k: nat)
    requires GoodDecoder(decode, maxSize) && k < |Listing(decode, maxSize, base, buffer)|
    ensures ShowsByte(Listing(decode, maxSize, base, buffer)[k], base, buffer)
    decreases |buffer|
  {
    ListingIndex(decode, maxSize, base, buffer, k);
    var items, n := GroupItems(decode, base, buffer), GroupSize(decode, base, buffer);
    if k < |items| {
      InstructionsShowNoByte(base, decode(base, buffer));
    } else {
      ListingShowsBytes(decode, maxSize, base + n, buffer[n..], k - |items|);
    }
  }

  // ----- what the decoder said -----

  /** Instruction `i` of a group starts after the sizes before it. */
  lemma {:induction false} InstructionAt(base: nat, sizes: seq<nat>, i: nat)
    requires i < |sizes|
    ensures |Instructions(base, sizes)| == |sizes|
    ensures Instructions(base, sizes)[i] == Item(base + Sum(sizes[..i]), base + Sum(sizes[..i + 1]), Instr)
    decreases sizes
  {
    if i == 0 {
      assert sizes[..1][1..] == [];
      if |sizes| > 1 { InstructionAt(base + sizes[0], sizes[1..], 0); }
    } else {
      InstructionAt(base + sizes[0], sizes[1..], i - 1);
      assert sizes[..i][1..] == sizes[1..][..i - 1] && sizes[..i + 1][1..] == sizes[1..][..i];
    }
  }

  /** A listing starts with all the instructions that the decoder finds in the buffer, and goes on after
      the last of them. */
  lemma {:induction false} ListingStarts(decode: Decoder, maxSize: nat, base: nat, buffer: seq<byte>, i: nat)
    requires GoodDecoder(decode, maxSize) && i < |decode(base, buffer)|
    ensures var sizes, items := decode(base, buffer), Listing(decode, maxSize, base, buffer);
      && buffer != [] && Sum(sizes) <= |buffer| && |sizes| <= |items|
      && items[i] == Item(base + Sum(sizes[..i]), base + Sum(sizes[..i + 1]), Instr)
      && items[|sizes|..] == Listing(decode, maxSize, base + Sum(sizes), buffer[Sum(sizes)..])
  {
    var sizes := decode(base, buffer);
    FittingSizes(sizes, |buffer|, maxSize);
    InstructionAt(base, sizes, i);
    var first, rest := Instructions(base, sizes), Listing(decode, maxSize, base + Sum(sizes), buffer[Sum(sizes)..]);
    assert Listing(decode, maxSize, base, buffer) == first + rest;
    assert (first + rest)[|sizes|..] == rest;
  }

  /** What the decoder says about the bytes from offset `p` on: the item is instruction `i` of those it
      found there, or it found none and the item is the first of these bytes. */
  predicate DecodedAt(decode: Decoder, base: nat, buffer: seq<byte>, item: Item, p: nat, i: nat)
  {
    p < |buffer| &&
    var sizes := decode(base + p, buffer[p..]);
    if sizes == [] then item == Item(base + p, base + p + 1, RawByte(buffer[p]))
    else i < |sizes| && item == Item(base + p + Sum(sizes[..i]), base + p + Sum(sizes[..i + 1]), Instr)
  }

  lemma GroupDecoded(decode: Decoder, base: nat, buffer: seq<byte>, k: nat)
    requires buffer != [] && k < |GroupItems(decode, base, buffer)|
    ensures DecodedAt(decode, base, buffer, GroupItems(decode, base, buffer)[k], 0, k)
  {
    var sizes := decode(base, buffer);
    assert buffer[0..] == buffer;
    if sizes != [] {
      InstructionAt(base, sizes, 0);
      InstructionAt(base, sizes, k);
    }
  }

  ghost predicate Decoded(decode: Decoder, base: nat, buffer: seq<byte>, item: Item)
  {
    exists p: nat, i: nat :: DecodedAt(decode, base, buffer, item, p, i)
  }

  lemma DecodedFirst(decode: Decoder, base: nat, buffer: seq<byte>, item: Item)
    requires buffer != [] && item in GroupItems(decode, base, buffer)
    ensures Decoded(decode, base, buffer, item)
  {
    var k :| 0 <= k < |GroupItems(decode, base, buffer)| && item == GroupItems(decode, base, buffer)[k];
    GroupDecoded(decode, base, buffer, k);
  }

  lemma DecodedLater(decode: Decoder, base: nat, buffer: seq<byte>, item: Item, n: nat)
    requires n <= |buffer| && Decoded(decode, base + n, buffer[n..], item)
    ensures Decoded(decode, base, buffer, item)
  {
    var p: nat, i: nat :| DecodedAt(decode, base + n, buffer[n..], item, p, i);
    assert buffer[n..][p..] == buffer[n + p..];
    assert DecodedAt(decode, base, buffer, item, n + p, i);
  }

  /** Every item of a listing is what the decoder said at some offset. */
  lemma {:induction false} ListingDecoded(decode: Decoder, maxSize: nat, base: nat, buffer: seq<byte>)
    requires GoodDecoder(decode, maxSize)
    ensures forall item :: item in Listing(decode, maxSize, base, buffer) ==> Decoded(decode, base, buffer, item)
    decreases |buffer|
  {
    if buffer != [] {
      var n := GroupSize(decode, base, buffer);
      GroupFits(decode, maxSize, base, buffer);
      ListingDecoded(decode, maxSize, base + n, buffer[n..]);
      forall item | item in Listing(decode, maxSize, base, buffer)
        ensures Decoded(decode, base, buffer, item)
      {
        if item in GroupItems(decode, base, buffer) {
          DecodedFirst(decode, base, buffer, item);
        } else {
          DecodedLater(decode, base, buffer, item, n);
        }
      }
    }
  }

  /** Splitting a tiling at an item. */
  lemma {:induction false} TilesSplit(items: seq<Item>, lo: nat, hi: nat, maxSize: nat, k: nat)
    requires Tiles(items, lo, hi, maxSize) && k < |items|
    ensures lo <= items[k].start < items[k].end <= hi
    ensures Tiles(items[..k], lo, items[k].start, maxSize)
    ensures Tiles(items[k..], items[k].start, hi, maxSize)
    ensures k + 1 < |items| ==> items[k].end == items[k + 1].start
  {
    TilesOrdered(items[1..], items[0].end, hi, maxSize);
    if k == 0 {
      assert items[0..] == items;
    } else {
      TilesSplit(items[1..], items[0].end, hi, maxSize, k - 1);
      assert items[..k][1..] == items[1..][..k - 1];
      assert items[k..] == items[1..][k - 1..];
    }
  }

  lemma {:induction false} TilesOrdered(items: seq<Item>, lo: nat, hi: nat, maxSize: nat)
    requires Tiles(items, lo, hi, maxSize)
    ensures lo <= hi
  {
    if items != [] {
      TilesOrdered(items[1..], items[0].end, hi, maxSize);
    }
  }

  /** The size of `n` instructions of the maximal size: the product of the two. */
  function Bytes(n: nat, maxSize: nat): nat
  {
    if n == 0 then 0 else maxSize + Bytes(n - 1, maxSize)
  }

  lemma {:induction false} BytesIsProduct(n: nat, maxSize: nat)
    ensures Bytes(n, maxSize) == n * maxSize
  {
    if n > 0 {
      BytesIsProduct(n - 1, maxSize);
      assert n * maxSize == (n - 1) * maxSize + maxSize;
    }
  }

  lemma {:induction false} BytesMonotone(m: nat, n: nat, maxSize: nat)
    requires m < n
    ensures Bytes(m, maxSize) + maxSize <= Bytes(n, maxSize)
  {
    if m + 1 < n { BytesMonotone(m, n - 1, maxSize); }
  }

  /** How many items it takes to cover a stretch of memory. */
  lemma {:induction false} TilesCount(items: seq<Item>, lo: nat, hi: nat, maxSize: nat)
    requires Tiles(items, lo, hi, maxSize)
    ensures |items| <= hi - lo <= Bytes(|items|, maxSize)
  {
    if items != [] {
      TilesCount(items[1..], items[0].end, hi, maxSize);
    }
  }

  /** The inner loop: takes the decoded instructions off the front of the buffer. */
  method TakeInstructions(sizes: seq<nat>, at: nat, from: seq<byte>)
      returns (items: seq<Item>, base: nat, buffer: seq<byte>)
    requires Sum(sizes) <= |from|
    ensures items == Instructions(at, sizes)
    ensures base == at + Sum(sizes) && buffer == from[Sum(sizes)..]
  {
    items, base, buffer := [], at, from;
    assert sizes[0..] == sizes;
    for i := 0 to |sizes|
      invariant Sum(sizes[i..]) <= |buffer|
      invariant base + Sum(sizes[i..]) == at + Sum(sizes)
      invariant buffer[Sum(sizes[i..])..] == from[Sum(sizes)..]
      invariant items + Instructions(base, sizes[i..]) == Instructions(at, sizes)
    {
      assert sizes[i..][0] == sizes[i] && sizes[i..][1..] == sizes[i + 1..];
      var size := sizes[i];
      items := items + [Item(base, base + size, Instr)];
      base, buffer := base + size, buffer[size..];
    }
    assert sizes[|sizes|..] == [];
  }

  /** One pass of the loop: an instruction or more, or a single byte. */
  method DecodeSome(decode: Decoder, ghost maxSize: nat, base: nat, buffer: seq<byte>)
      returns (items: seq<Item>, base': nat, buffer': seq<byte>)
    requires GoodDecoder(decode, maxSize) && buffer != []
    ensures items == GroupItems(decode, base, buffer)
    ensures 0 < GroupSize(decode, base, buffer) <= |buffer|
    ensures base' == base + GroupSize(decode, base, buffer) && buffer' == buffer[GroupSize(decode, base, buffer)..]
  {
    GroupFits(decode, maxSize, base, buffer);
    var sizes := decode(base, buffer);
    if |sizes| > 0 {
      items, base', buffer' := TakeInstructions(sizes, base, buffer);
    } else {
      items := [Item(base, base + 1, RawByte(buffer[0]))];
      base', buffer' := base + 1, buffer[1..];
    }
  }

  lemma ListingFrom(decode: Decoder, maxSize: nat, base: nat, buffer: seq<byte>, before: seq<Item>)
    requires GoodDecoder(decode, maxSize) && buffer != []
    ensures GroupSize(decode, base, buffer) <= |buffer|
    ensures before + Listing(decode, maxSize, base, buffer) == before + GroupItems(decode, base, buffer) +
      Listing(decode, maxSize, base + GroupSize(decode, base, buffer), buffer[GroupSize(decode, base, buffer)..])
  {
    GroupFits(decode, maxSize, base, buffer);
  }

  /** Keeps decoding; a byte that cannot be decoded is reported as such and skipped. */
  method DisassembleBytes(decode: Decoder, ghost maxSize: nat, baseAddr: nat, bytes: seq<byte>)
      returns (items: seq<Item>)
    requires GoodDecoder(decode, maxSize)
    ensures items == Listing(decode, maxSize, baseAddr, bytes)
  {
    ghost var all := Listing(decode, maxSize, baseAddr, bytes);
    items := [];
    var base: nat, buffer := baseAddr, bytes;
    while |buffer| > 0
      invariant all == items + Listing(decode, maxSize, base, buffer)
      decreases |buffer|
    {
      ListingFrom(decode, maxSize, base, buffer, items);
      var more, base', buffer' := DecodeSome(decode, maxSize, base, buffer);
      items := items + more;
      base, buffer := base', buffer';
    }
  }

  // ----- partition_point and read_memory -----

  function Middle(low: nat, high: nat): (mid: nat)
    requires low < high
    ensures low <= mid < high
  {
    low + (high - low) / 2
  }

  function Bisect(low: nat, high: nat, pred: nat -> bool): (r: nat)
    requires low <= high
    ensures low <= r <= high
    ensures r > low ==> pred(r - 1)
    ensures r < high ==> !pred(r)
    decreases high - low
  {
    if low == high then low
    else
      var mid := Middle(low, high);
      if pred(mid) then Bisect(mid + 1, high, pred) else Bisect(low, mid, pred)
  }

  /** For a predicate that never turns true again, the result is where it turns false. */
  lemma BisectFindsBoundary(low: nat, high: nat, pred: nat -> bool, k: nat)
    requires low <= k <= high
    requires forall a :: low <= a < high ==> (pred(a) <==> a < k)
    ensures Bisect(low, high, pred) == k
  {
  }

  method PartitionPoint(start: nat, end: nat, pred: nat -> bool) returns (low: nat)
    requires start <= end
    ensures low == Bisect(start, end, pred)
  {
    low := start;
    var high := end;
    ghost var found := Bisect(start, end, pred);
    while low < high
      invariant start <= low <= high <= end
      invariant found == Bisect(low, high, pred)
    {
      var mid := Middle(low, high);
      if pred(mid) {
        low := mid + 1;
      } else {
        high := mid;
      }
    }
  }

  function Unreadable(read: Memory): nat -> bool
  {
    (a: nat) => read(a, 1).None?
  }

  function OrEmpty(bytes: Option<seq<byte>>): seq<byte> { if bytes.Some? then bytes.value else [] }

  function FirstReadable(read: Memory, start: nat, end: nat): (r: nat)
    requires start <= end
    ensures start <= r <= end
    ensures r > start ==> read(r - 1, 1).None?
    ensures r < end ==> read(r, 1).Some?
  {
    Bisect(start, end, Unreadable(read))
  }

  /** The part of a range that can be read: all of it, or what follows the unreadable beginning. */
  function Readable(read: Memory, start: nat, count: nat): (r: (nat, seq<byte>))
    requires GoodMemory(read)
    ensures start <= r.0 && r.0 + |r.1| <= start + count
  {
    match read(start, count)
    case Some(bytes) => (start, bytes)
    case None =>
      var first := FirstReadable(read, start, start + count);
      (first, OrEmpty(read(first, start + count - first)))
  }

  /** The bytes are those that memory delivered at the address, up to the end of the range; the whole
      range is read whenever that is possible. */
  lemma ReadableBytes(read: Memory, start: nat, count: nat)
    requires GoodMemory(read)
    ensures read(start, count).Some? ==> Readable(read, start, count) == (start, read(start, count).value)
    ensures var (a, bytes) := Readable(read, start, count); bytes != [] ==> read(a, start + count - a) == Some(bytes)
  {
  }

  /** Memory that is unreadable up to a point and readable from there on: all of the rest is read. */
  lemma ReadableRest(read: Memory, start: nat, count: nat, first: nat)
    requires GoodMemory(read) && read(start, count).None? && start <= first <= start + count
    requires forall a :: start <= a < start + count ==> (read(a, 1).None? <==> a < first)
    ensures Readable(read, start, count) == (first, OrEmpty(read(first, start + count - first)))
  {
    BisectFindsBoundary(start, start + count, Unreadable(read), first);
  }

  method ReadMemory(read: Memory, startAddress: nat, count: nat) returns (address: nat, buffer: seq<byte>)
    requires GoodMemory(read)
    ensures (address, buffer) == Readable(read, startAddress, count)
  {
    var whole := read(startAddress, count);
    if whole.Some? {
      return startAddress, whole.value;
    }
    var end := startAddress + count;
    address := PartitionPoint(startAddress, end, Unreadable(read));
    assert address == FirstReadable(read, startAddress, end);
    buffer := OrEmpty(read(address, end - address));
  }
}
