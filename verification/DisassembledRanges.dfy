/** The index of disassembled ranges and the persisted form of their line tables
    (src/codelldb/src/disassembly.rs). */
module DisassembledRanges {
  import opened Options
  import Disassembler

  type Handle = int

  datatype Range = Range(handle: Handle, start: nat, end: nat, addresses: seq<nat>)

  predicate Contains(r: Range, a: nat) { r.start <= a < r.end }

  ghost predicate SortedByStart(rs: seq<Range>)
  {
    forall i, j :: 0 <= i < j < |rs| ==> rs[i].start <= rs[j].start
  }

  predicate Before(r: Range, a: nat, strict: bool)
  {
    if strict then r.start < a else r.start <= a
  }

  /** `partition_point` of a vector, by bisection, with `start < a` (strict) or `start <= a`. */
  function PartitionPoint(rs: seq<Range>, a: nat, strict: bool): (n: nat)
    ensures n <= |rs|
    ensures n > 0 ==> Before(rs[n - 1], a, strict)
    ensures n < |rs| ==> !Before(rs[n], a, strict)
  {
    Disassembler.Bisect(0, |rs|, (i: nat) => i < |rs| && Before(rs[i], a, strict))
  }

  function Lookup(rs: seq<Range>, a: nat): Option<Range>
  {
    var n := PartitionPoint(rs, a, false);
    if n > 0 && Contains(rs[n - 1], a) then Some(rs[n - 1]) else None
  }

  function Inserted(rs: seq<Range>, r: Range): seq<Range>
  {
    var n := PartitionPoint(rs, r.start, true);
    rs[..n] + [r] + rs[n..]
  }

  lemma InsertedAt(rs: seq<Range>, r: Range, k: nat)
    requires k <= |rs|
    ensures |Inserted(rs, r)| == |rs| + 1
    ensures var n := PartitionPoint(rs, r.start, true);
      Inserted(rs, r)[k] == if k < n then rs[k] else if k == n then r else rs[k - 1]
  {
  }

  lemma InsertedSorted(rs: seq<Range>, r: Range)
    requires SortedByStart(rs)
    ensures SortedByStart(Inserted(rs, r))
  {
    var ba, n := Inserted(rs, r), PartitionPoint(rs, r.start, true);
    forall i, j | 0 <= i < j < |ba|
      ensures ba[i].start <= ba[j].start
    {
      InsertedAt(rs, r, i);
      InsertedAt(rs, r, j);
    }
  }

  ghost predicate DistinctHandles(rs: seq<Range>)
  {
    forall i, j :: 0 <= i < j < |rs| ==> rs[i].handle != rs[j].handle
  }

  /** Both indices hold the same ranges. */
  ghost predicate Agree(byHandle: map<Handle, Range>, byAddress: seq<Range>)
  {
    && (forall h :: h in byHandle ==> byHandle[h].handle == h && byHandle[h] in byAddress)
    && (forall r :: r in byAddress ==> r.handle in byHandle && byHandle[r.handle] == r)
  }

  /** Both indices hold the same ranges, under handles that are distinct and consecutive. */
  ghost predicate Inv(byHandle: map<Handle, Range>, byAddress: seq<Range>)
  {
    && SortedByStart(byAddress) && DistinctHandles(byAddress) && Agree(byHandle, byAddress)
    && |byHandle| == |byAddress|
    && (forall h :: h in byHandle <==> 1000 <= h < 1000 + |byAddress|)
  }

  class Ranges {
    var byHandle: map<Handle, Range>
    var byAddress: seq<Range>

    constructor ()
      ensures Inv(byHandle, byAddress) && byAddress == []
    {
      byHandle, byAddress := map[], [];
    }

    method FindByHandle(h: Handle) returns (r: Option<Range>)
      requires Inv(byHandle, byAddress)
      ensures r.Some? ==> r.value in byAddress && r.value.handle == h
      ensures r.None? ==> forall x :: x in byAddress ==> x.handle != h
    {
      r := if h in byHandle then Some(byHandle[h]) else None;
    }

    method FindByAddress(a: nat) returns (r: Option<Range>)
      ensures r == Lookup(byAddress, a)
    {
      var idx := PartitionPoint(byAddress, a, false);
      if idx > 0 {
        var dasm := byAddress[idx - 1];
        if dasm.start <= a < dasm.end {
          return Some(dasm);
        }
      }
      r := None;
    }

    method Add(start: nat, end: nat, addresses: seq<nat>) returns (dasm: Range)
      requires Inv(byHandle, byAddress)
      modifies this
      ensures Inv(byHandle, byAddress)
      ensures dasm == Range(1000 + |old(byAddress)|, start, end, addresses)
      ensures byAddress == Inserted(old(byAddress), dasm)
      ensures byHandle == old(byHandle)[dasm.handle := dasm]
    {
      var handle := |byHandle| + 1000;
      dasm := Range(handle, start, end, addresses);
      AddKeepsInv(byHandle, byAddress, dasm);
      var idx := PartitionPoint(byAddress, start, true);
      byHandle := byHandle[handle := dasm];
      byAddress := byAddress[..idx] + [dasm] + byAddress[idx..];
    }

    /** `from_address`; `loaded` is what LLDB would deliver for the address, if any instruction can be read. */
    method FromAddress(a: nat, loaded: Option<Range>) returns (r: Option<Range>)
      requires Inv(byHandle, byAddress)
      modifies this
      ensures Inv(byHandle, byAddress)
      ensures r == Requested(old(byAddress), a, loaded).0 && byAddress == Requested(old(byAddress), a, loaded).1
    {
      r := FindByAddress(a);
      if r.Some? || loaded.None? {
        return;
      }
      var dasm := Add(loaded.value.start, loaded.value.end, loaded.value.addresses);
      r := Some(dasm);
    }
  }

  /** A range that is known is delivered again; otherwise the one that was loaded is added. */
  function Requested(rs: seq<Range>, a: nat, loaded: Option<Range>): (Option<Range>, seq<Range>)
  {
    if Lookup(rs, a).Some? then (Lookup(rs, a), rs)
    else if loaded.None? then (None, rs)
    else
      var r := loaded.value.(handle := 1000 + |rs|);
      (Some(r), Inserted(rs, r))
  }

  // ----- what every addition keeps -----

  lemma InsertedDistinct(rs: seq<Range>, r: Range)
    requires DistinctHandles(rs) && forall i :: 0 <= i < |rs| ==> rs[i].handle != r.handle
    ensures DistinctHandles(Inserted(rs, r))
  {
    var ba := Inserted(rs, r);
    forall i, j | 0 <= i < j < |ba|
      ensures ba[i].handle != ba[j].handle
    {
      InsertedAt(rs, r, i);
      InsertedAt(rs, r, j);
    }
  }

  lemma {:induction false} InsertedAgree(byHandle: map<Handle, Range>, byAddress: seq<Range>, r: Range)
    requires Agree(byHandle, byAddress) && r.handle !in byHandle
    ensures Agree(byHandle[r.handle := r], Inserted(byAddress, r))
  {
    forall x
      ensures x in Inserted(byAddress, r) <==> x == r || x in byAddress
    {
      var n := PartitionPoint(byAddress, r.start, true);
      assert byAddress == byAddress[..n] + byAddress[n..];
    }
  }

  lemma {:induction false} NewHandle(byHandle: map<Handle, Range>, byAddress: seq<Range>, r: Range)
    requires Inv(byHandle, byAddress) && r.handle == 1000 + |byAddress|
    ensures r.handle !in byHandle && forall i :: 0 <= i < |byAddress| ==> byAddress[i].handle != r.handle
  {
    forall i | 0 <= i < |byAddress|
      ensures byAddress[i].handle != r.handle
    {
      assert byAddress[i] in byAddress;
    }
  }

  lemma {:induction false} AddKeepsInv(byHandle: map<Handle, Range>, byAddress: seq<Range>, r: Range)
    requires Inv(byHandle, byAddress) && r.handle == 1000 + |byAddress|
    ensures Inv(byHandle[r.handle := r], Inserted(byAddress, r))
  {
    NewHandle(byHandle, byAddress, r);
    InsertedSorted(byAddress, r);
    InsertedDistinct(byAddress, r);
    InsertedAgree(byHandle, byAddress, r);
    InsertedAt(byAddress, r, 0);
    OneMore(byHandle, byAddress, r, Inserted(byAddress, r));
  }

  lemma {:induction false} OneMore(byHandle: map<Handle, Range>, byAddress: seq<Range>, r: Range, rs: seq<Range>)
    requires Inv(byHandle, byAddress) && r.handle == 1000 + |byAddress| && |rs| == |byAddress| + 1
    requires SortedByStart(rs) && DistinctHandles(rs) && Agree(byHandle[r.handle := r], rs)
    ensures Inv(byHandle[r.handle := r], rs)
  {
    var more := byHandle[r.handle := r];
    assert more.Keys == byHandle.Keys + {r.handle};
  }

  /** The handle index after any sequence of additions. */
  function ByHandle(ranges: seq<Range>): map<Handle, Range>
  {
    if ranges == [] then map[]
    else
      var n := |ranges| - 1;
      ByHandle(ranges[..n])[1000 + n := ranges[n].(handle := 1000 + n)]
  }

  /** The address index after the same additions. */
  function ByAddress(ranges: seq<Range>): seq<Range>
  {
    if ranges == [] then []
    else
      var n := |ranges| - 1;
      Inserted(ByAddress(ranges[..n]), ranges[n].(handle := 1000 + n))
  }

  /** Over every sequence of additions both indices hold the same ranges, the one in order of address. */
  lemma {:induction false} EveryAddition(ranges: seq<Range>)
    ensures Inv(ByHandle(ranges), ByAddress(ranges)) && |ByAddress(ranges)| == |ranges|
  {
    if ranges != [] {
      var n := |ranges| - 1;
      EveryAddition(ranges[..n]);
      AddKeepsInv(ByHandle(ranges[..n]), ByAddress(ranges[..n]), ranges[n].(handle := 1000 + n));
      InsertedAt(ByAddress(ranges[..n]), ranges[n].(handle := 1000 + n), 0);
    }
  }

  /** Handles are given out consecutively, and each resolves for ever to the range it was given to. */
  lemma {:induction false} HandlesResolve(ranges: seq<Range>, h: Handle)
    ensures h in ByHandle(ranges) <==> 0 <= h - 1000 < |ranges|
    ensures h in ByHandle(ranges) ==> ByHandle(ranges)[h] == ranges[h - 1000].(handle := h)
  {
    if ranges != [] {
      var n := |ranges| - 1;
      HandlesResolve(ranges[..n], h);
      assert 0 <= h - 1000 < n ==> ranges[..n][h - 1000] == ranges[h - 1000];
    }
  }

  // ----- lookups -----

  /** A lookup never delivers a range that does not contain the address. */
  lemma LookupSound(rs: seq<Range>, a: nat)
    ensures Lookup(rs, a).Some? ==> Lookup(rs, a).value in rs && Contains(Lookup(rs, a).value, a)
  {
  }

  /** The last range that starts at or before the address. */
  predicate IsCandidate(rs: seq<Range>, a: nat, k: nat)
  {
    k < |rs| && rs[k].start <= a && (k + 1 < |rs| ==> a < rs[k + 1].start)
  }

  lemma CandidateIs(rs: seq<Range>, a: nat, k: nat)
    requires SortedByStart(rs) && IsCandidate(rs, a, k)
    ensures Lookup(rs, a) == if a < rs[k].end then Some(rs[k]) else None
  {
  }

  /** When a lookup misses: the last range that starts at or before the address, if there is one,
      ends at or before it. Ranges further in front are hidden by that one. */
  lemma LookupMisses(rs: seq<Range>, a: nat)
    requires SortedByStart(rs)
    ensures Lookup(rs, a).None? <==> forall k: nat :: IsCandidate(rs, a, k) ==> rs[k].end <= a
  {
    var n := PartitionPoint(rs, a, false);
    if n > 0 {
      assert IsCandidate(rs, a, n - 1);
      CandidateIs(rs, a, n - 1);
    }
    forall k: nat | IsCandidate(rs, a, k)
      ensures rs[k].end <= a <==> Lookup(rs, a).None?
    {
      CandidateIs(rs, a, k);
    }
  }

  /** A range that the lookup hides: the outer one contains the address, the inner one starts later and
      has already ended. */
  lemma NestedRangeHides(outer: Range, inner: Range, a: nat)
    requires Contains(outer, a) && outer.start <= inner.start <= inner.end <= a
    ensures Lookup([outer, inner], a) == None
  {
    CandidateIs([outer, inner], a, 1);
  }

  ghost predicate Disjoint(rs: seq<Range>)
  {
    forall i, j :: 0 <= i < j < |rs| ==> rs[i].start < rs[i].end <= rs[j].start || rs[j].start < rs[j].end <= rs[i].start
  }

  /** For disjoint ranges the lookup finds exactly what a scan of all ranges would. */
  lemma LookupIsScan(rs: seq<Range>, a: nat, k: nat)
    requires SortedByStart(rs) && Disjoint(rs) && k < |rs|
    ensures Lookup(rs, a) == Some(rs[k]) <==> Contains(rs[k], a)
  {
    if Contains(rs[k], a) {
      assert k + 1 < |rs| ==> rs[k].end <= rs[k + 1].start;
      CandidateIs(rs, a, k);
    }
  }

  // ----- repeated requests -----

  /** No range gets between the start of the new one and the address. */
  predicate Unobstructed(rs: seq<Range>, start: nat, a: nat)
  {
    forall i :: 0 <= i < |rs| ==> rs[i].start < start || a < rs[i].start
  }

  lemma UnobstructedFound(rs: seq<Range>, r: Range, a: nat)
    requires SortedByStart(rs) && Contains(r, a) && Unobstructed(rs, r.start, a)
    ensures Lookup(Inserted(rs, r), a) == Some(r)
  {
    var n := PartitionPoint(rs, r.start, true);
    InsertedSorted(rs, r);
    InsertedAt(rs, r, n);
    assert IsCandidate(Inserted(rs, r), a, n);
    CandidateIs(Inserted(rs, r), a, n);
  }

  lemma ObstructedNotFound(rs: seq<Range>, r: Range, a: nat, i: nat)
    requires SortedByStart(rs) && (forall k :: 0 <= k < |rs| ==> rs[k] != r)
    requires i < |rs| && r.start <= rs[i].start <= a
    ensures Lookup(Inserted(rs, r), a) != Some(r)
  {
    var n, ba := PartitionPoint(rs, r.start, true), Inserted(rs, r);
    InsertedSorted(rs, r);
    var last := PartitionPoint(ba, a, false) - 1;
    InsertedAt(rs, r, last);
  }

  /** When a new range is found again at an address. */
  lemma FoundAfterAdd(rs: seq<Range>, r: Range, a: nat)
    requires SortedByStart(rs) && forall k :: 0 <= k < |rs| ==> rs[k] != r
    ensures Lookup(Inserted(rs, r), a) == Some(r) <==> Contains(r, a) && Unobstructed(rs, r.start, a)
  {
    if Contains(r, a) {
      if Unobstructed(rs, r.start, a) {
        UnobstructedFound(rs, r, a);
      } else {
        var i :| 0 <= i < |rs| && r.start <= rs[i].start <= a;
        ObstructedNotFound(rs, r, a, i);
      }
    }
  }

  /** A request that had to load a range is answered from the index when it is repeated, exactly when the
      loaded range contains the address and no other range starts in between; otherwise there is another
      answer, and whatever is loaded the second time is added as well. */
  lemma AskingTwice(rs: seq<Range>, a: nat, loaded: Option<Range>, again: Option<Range>)
    requires SortedByStart(rs) && (forall k :: 0 <= k < |rs| ==> rs[k].handle != 1000 + |rs|) && loaded.Some?
    ensures var (r, rs') := Requested(rs, a, loaded);
      Requested(rs', a, again) == (r, rs') <==>
        Lookup(rs, a).Some? || (Contains(loaded.value, a) && Unobstructed(rs, loaded.value.start, a))
  {
    if Lookup(rs, a).None? {
      var r := loaded.value.(handle := 1000 + |rs|);
      FoundAfterAdd(rs, r, a);
      InsertedAt(rs, r, 0);
    }
  }

  /** A single instruction without a symbol makes an empty range, which is added again by every request. */
  lemma EmptyRangeIsAddedAgain(rs: seq<Range>, a: nat)
    requires SortedByStart(rs) && Lookup(rs, a).None?
    ensures var single := Some(Range(0, a, a, [a]));
      var (_, once) := Requested(rs, a, single);
      var (_, twice) := Requested(once, a, single);
      |once| == |rs| + 1 && Lookup(once, a).None? && |twice| == |rs| + 2
  {
    var r := Range(1000 + |rs|, a, a, [a]);
    var once := Inserted(rs, r);
    InsertedAt(rs, r, 0);
    InsertedSorted(rs, r);
    InsertMisses(rs, r, a);
    InsertedAt(once, Range(1000 + |once|, a, a, [a]), 0);
  }

  lemma InsertMisses(rs: seq<Range>, r: Range, a: nat)
    requires SortedByStart(rs) && Lookup(rs, a).None? && !Contains(r, a)
    ensures Lookup(Inserted(rs, r), a).None?
  {
    var ba := Inserted(rs, r);
    InsertedSorted(rs, r);
    forall k: nat | IsCandidate(ba, a, k)
      ensures ba[k].end <= a
    {
      InsertCandidate(rs, r, a, k);
    }
    LookupMisses(ba, a);
  }

  lemma InsertCandidate(rs: seq<Range>, r: Range, a: nat, k: nat)
    requires SortedByStart(rs) && Lookup(rs, a).None? && !Contains(r, a) && IsCandidate(Inserted(rs, r), a, k)
    ensures Inserted(rs, r)[k].end <= a
  {
    var n := PartitionPoint(rs, r.start, true);
    InsertedAt(rs, r, k);
    if k != n {
      CandidateIs(rs, a, if k < n then k else k - 1);
    }
  }

  // ----- line tables -----

  const HEADER_LINES := 3

  /** `line_num_by_address` */
  function LineOf(addresses: seq<nat>, a: nat): nat
  {
    Disassembler.Bisect(0, |addresses|, (i: nat) => i < |addresses| && addresses[i] < a) + HEADER_LINES
  }

  ghost predicate Increasing(xs: seq<nat>)
  {
    forall i, j :: 0 <= i < j < |xs| ==> xs[i] < xs[j]
  }

  const U32 := 0x1_0000_0000

  /** `as u32` */
  function Truncate(x: nat): (r: nat)
    ensures r < U32 && (x < U32 ==> r == x)
  {
    if x < U32 then x else x % U32
  }

  /** Differences between neighbours, truncated to 32 bits. */
  function Offsets(xs: seq<nat>): seq<nat>
    requires Increasing(xs)
  {
    if |xs| <= 1 then [] else [Truncate(xs[1] - xs[0])] + Offsets(xs[1..])
  }

  function Scan(from: nat, offsets: seq<nat>): seq<nat>
    decreases |offsets|
  {
    if offsets == [] then [] else [from + offsets[0]] + Scan(from + offsets[0], offsets[1..])
  }

  /** `lines_from_adapter_data`: indexed by line number. */
  function LinesFrom(start: nat, offsets: seq<nat>): seq<nat>
  {
    [start, start, start, start] + Scan(start, offsets)
  }

  ghost predicate SmallSteps(xs: seq<nat>)
  {
    forall i :: 0 <= i < |xs| - 1 ==> xs[i + 1] - xs[i] < U32
  }

  lemma {:induction false} ScanLength(from: nat, xs: seq<nat>)
    requires Increasing(xs)
    ensures |Scan(from, Offsets(xs))| == if xs == [] then 0 else |xs| - 1
    decreases |xs|
  {
    if |xs| > 1 {
      ScanLength(from + Truncate(xs[1] - xs[0]), xs[1..]);
      assert Offsets(xs)[1..] == Offsets(xs[1..]);
    }
  }

  lemma SmallStepsTail(xs: seq<nat>)
    requires SmallSteps(xs) && xs != []
    ensures SmallSteps(xs[1..])
  {
    var t := xs[1..];
    forall i | 0 <= i < |t| - 1
      ensures t[i + 1] - t[i] < U32
    {
      assert t[i] == xs[i + 1] && t[i + 1] == xs[i + 2];
      assert xs[i + 1 + 1] - xs[i + 1] < U32;
    }
  }

  lemma {:induction false} ScanRestores(xs: seq<nat>)
    requires xs != [] && Increasing(xs) && SmallSteps(xs)
    ensures Scan(xs[0], Offsets(xs)) == xs[1..]
    decreases |xs|
  {
    if |xs| > 1 {
      assert xs[0 + 1] - xs[0] < U32;
      SmallStepsTail(xs);
      ScanRestores(xs[1..]);
      assert Offsets(xs)[1..] == Offsets(xs[1..]);
      assert xs[1..] == [xs[1]] + xs[1..][1..];
    }
  }

  lemma {:induction false} BigStepBreaks(xs: seq<nat>)
    requires xs != [] && Increasing(xs) && Scan(xs[0], Offsets(xs)) == xs[1..]
    ensures SmallSteps(xs)
    decreases |xs|
  {
    if |xs| > 1 {
      var s := Scan(xs[0], Offsets(xs));
      assert s[0] == xs[1..][0] == xs[1];
      assert Offsets(xs)[1..] == Offsets(xs[1..]);
      assert s[1..] == Scan(xs[1], Offsets(xs[1..]));
      assert s[1..] == xs[1..][1..];
      BigStepBreaks(xs[1..]);
      forall i | 0 <= i < |xs| - 1
        ensures xs[i + 1] - xs[i] < U32
      {
        if i > 0 { assert xs[1..][i] - xs[1..][i - 1] < U32; }
      }
    }
  }

  /** The address at each line of instructions is the one that was there. */
  ghost predicate Restored(lines: seq<nat>, xs: seq<nat>)
  {
    |lines| == |xs| + HEADER_LINES && forall i :: 0 <= i < |xs| ==> lines[i + HEADER_LINES] == xs[i]
  }

  /** The persisted line table gives back the address of every instruction line, exactly when no
      instruction lies 2^32 bytes or more after the one before. */
  lemma LinesRoundTrip(xs: seq<nat>)
    requires xs != [] && Increasing(xs)
    ensures Restored(LinesFrom(xs[0], Offsets(xs)), xs) <==> SmallSteps(xs)
  {
    var scan := Scan(xs[0], Offsets(xs));
    ScanLength(xs[0], xs);
    if SmallSteps(xs) { ScanRestores(xs); }
    if scan == xs[1..] { BigStepBreaks(xs); }
  }

  /** The lines of the header stand for the start of the range. */
  lemma HeaderLines(start: nat, offsets: seq<nat>, line: nat)
    requires line <= HEADER_LINES
    ensures line < |LinesFrom(start, offsets)| && LinesFrom(start, offsets)[line] == start
  {
  }

  /** The line of an instruction's address is the line the address is listed at. */
  lemma LineOfAddress(xs: seq<nat>, i: nat)
    requires Increasing(xs) && i < |xs|
    ensures LineOf(xs, xs[i]) == i + HEADER_LINES
  {
    Disassembler.BisectFindsBoundary(0, |xs|, (k: nat) => k < |xs| && xs[k] < xs[i], i);
  }
}
