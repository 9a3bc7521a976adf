/** What holds of source breakpoints over every sequence of `setBreakpoints` calls, changes made to the
    target by others, and breakpoint events. */
module BreakpointRuns {
  import opened Breakpoints

  predicate Tracked(s: State, path: string, line: int)
  {
    path in s.source && line in s.source[path]
  }

  function IdAt(s: State, path: string, line: int): Id
    requires Tracked(s, path, line)
  {
    s.source[path][line]
  }

  ghost predicate IsTracked(s: State, id: Id)
  {
    exists path, line :: Tracked(s, path, line) && IdAt(s, path, line) == id
  }

  /** The live breakpoints created by the session are all on record: none has leaked. */
  ghost predicate NoLeak(s: State)
  {
    forall id :: id in s.live && id in s.mine ==> IsTracked(s, id)
  }

  /** What is on record about one line. */
  ghost predicate Sound(s: State, path: string, line: int)
    requires Tracked(s, path, line)
  {
    var id := IdAt(s, path, line);
    && id in s.mine
    && (id in s.live ==> s.live[id] == line && id in s.infos)
    && (id !in s.live ==> id in s.gone)
  }

  ghost predicate Records(s: State)
  {
    && (forall path, line :: Tracked(s, path, line) ==> Sound(s, path, line))
    && (forall p, l, q, m :: Tracked(s, p, l) && Tracked(s, q, m) && IdAt(s, p, l) == IdAt(s, q, m) ==> p == q && l == m)
  }

  ghost predicate Fresh(s: State)
  {
    && (forall id :: id in s.live || id in s.mine || id in s.gone || id in s.infos ==> id < s.next)
    && s.gone !! s.live.Keys
  }

  ghost predicate Inv(s: State)
  {
    Fresh(s) && Records(s) && NoLeak(s)
  }

  // ----- the first loop of setBreakpoints -----

  /** Ids that did not exist before the call. */
  predicate New(s0: State, s: State, id: Id)
  {
    id in s.live && id !in s0.live
  }

  /** How things stand after placing some of the requests. */
  ghost predicate Placing(s0: State, existing: map<int, Id>, s: State, bps: map<int, Id>)
  {
    && s.source == s0.source && s.gone == s0.gone && s0.next <= s.next
    && (forall id :: id in s0.live ==> id in s.live && s.live[id] == s0.live[id])
    && (forall id: Id :: New(s0, s, id) ==> s0.next <= id < s.next)
    && (forall id: Id :: id in s.mine <==> id in s0.mine || New(s0, s, id))
    && (forall id :: id in s0.infos ==> id in s.infos) && (forall id :: id in s.infos ==> id < s.next)
    && (forall line :: line in bps ==> PlacedAt(s0, existing, s, line, bps[line]))
  }

  ghost predicate PlacedAt(s0: State, existing: map<int, Id>, s: State, line: int, id: Id)
  {
    && id in s.live && s.live[id] == line && id in s.infos && id in s.mine
    && if StillLive(s0, existing, line) then id == existing[line] else New(s0, s, id)
  }

  ghost predicate OldIds(s0: State, existing: map<int, Id>)
  {
    && (forall line :: line in existing ==> existing[line] < s0.next)
    && (forall line :: StillLive(s0, existing, line) ==> s0.live[existing[line]] == line && existing[line] in s0.mine)
  }

  ghost predicate AllKept(s0: State, s: State, bps: map<int, Id>)
  {
    forall id: Id :: New(s0, s, id) ==> exists line :: line in bps && bps[line] == id
  }

  ghost predicate Lost(s0: State, s: State, bps: map<int, Id>, id: Id)
  {
    New(s0, s, id) && forall line :: line in bps ==> bps[line] != id
  }

  lemma PlaceStep(s0: State, existing: map<int, Id>, s: State, bps: map<int, Id>, r: Request)
    requires Fresh(s0) && OldIds(s0, existing) && Placing(s0, existing, s, bps)
    ensures StillLive(s, existing, r.line) <==> StillLive(s0, existing, r.line)
    ensures Placing(s0, existing, PlaceOne(s, existing, r), bps[r.line := IdFor(s, existing, r)])
  {
    var t, id := PlaceOne(s, existing, r), IdFor(s, existing, r);
    if r.line in existing && existing[r.line] in s.live && existing[r.line] !in s0.live {
      assert New(s0, s, existing[r.line]);
    }
    forall x: Id
      ensures New(s0, t, x) <==> New(s0, s, x) || (x == s.next && !StillLive(s, existing, r.line))
    {
    }
    forall line | line in bps && line != r.line
      ensures PlacedAt(s0, existing, t, line, bps[line])
    {
      assert PlacedAt(s0, existing, s, line, bps[line]);
    }
  }

  lemma KeptStays(s0: State, existing: map<int, Id>, s: State, bps: map<int, Id>, r: Request)
    requires Fresh(s0) && OldIds(s0, existing) && Placing(s0, existing, s, bps) && AllKept(s0, s, bps)
    requires r.line !in bps || StillLive(s0, existing, r.line)
    ensures AllKept(s0, PlaceOne(s, existing, r), bps[r.line := IdFor(s, existing, r)])
  {
    PlaceStep(s0, existing, s, bps, r);
    var t, bps' := PlaceOne(s, existing, r), bps[r.line := IdFor(s, existing, r)];
    forall id | New(s0, t, id)
      ensures exists line :: line in bps' && bps'[line] == id
    {
      if New(s0, s, id) {
        var line :| line in bps && bps[line] == id;
        assert PlacedAt(s0, existing, s, line, id);
        assert bps'[line] == id;
      } else {
        assert bps'[r.line] == id;
      }
    }
  }

  /** No line that needs a new breakpoint is placed twice, here or before. */
  predicate OncePerLine(s0: State, existing: map<int, Id>, reqs: seq<Request>, bps: map<int, Id>)
    decreases |reqs|
  {
    reqs == [] ||
    ((reqs[0].line !in bps || StillLive(s0, existing, reqs[0].line)) &&
     OncePerLine(s0, existing, reqs[1..], bps[reqs[0].line := 0]))
  }

  lemma {:induction false} OnceByKeys(s0: State, existing: map<int, Id>, reqs: seq<Request>, a: map<int, Id>, b: map<int, Id>)
    requires a.Keys == b.Keys
    ensures OncePerLine(s0, existing, reqs, a) == OncePerLine(s0, existing, reqs, b)
    decreases |reqs|
  {
    if reqs != [] { OnceByKeys(s0, existing, reqs[1..], a[reqs[0].line := 0], b[reqs[0].line := 0]); }
  }

  lemma {:induction false} OnceMeans(s0: State, existing: map<int, Id>, reqs: seq<Request>, bps: map<int, Id>)
    ensures OncePerLine(s0, existing, reqs, bps) <==>
      && (forall i :: 0 <= i < |reqs| && reqs[i].line in bps ==> StillLive(s0, existing, reqs[i].line))
      && (forall i, j :: 0 <= i < j < |reqs| && reqs[i].line == reqs[j].line ==> StillLive(s0, existing, reqs[i].line))
    decreases |reqs|
  {
    if reqs != [] {
      var bps' := bps[reqs[0].line := 0];
      OnceMeans(s0, existing, reqs[1..], bps');
      assert forall i :: 1 <= i < |reqs| ==> reqs[i] == reqs[1..][i - 1];
      if OncePerLine(s0, existing, reqs, bps) {
        forall i, j | 0 <= i < j < |reqs| && reqs[i].line == reqs[j].line
          ensures StillLive(s0, existing, reqs[i].line)
        {
          assert reqs[1..][j - 1] == reqs[j];
          if i > 0 { assert reqs[1..][i - 1] == reqs[i]; }
        }
      }
    }
  }

  function Lines(reqs: seq<Request>): set<int>
  {
    set i | 0 <= i < |reqs| :: reqs[i].line
  }

  lemma {:induction false} PlaceAllPlaces(s0: State, existing: map<int, Id>, named: bool, s: State, reqs: seq<Request>,
                                          bps: map<int, Id>)
    requires Fresh(s0) && OldIds(s0, existing) && Placing(s0, existing, s, bps)
    ensures match PlaceAll(s, existing, named, reqs, bps)
      case Placed(t, bps') => Placing(s0, existing, t, bps') && bps'.Keys == bps.Keys + Lines(reqs)
      case NoFileName(t) => Placing(s0, existing, t, map[]) && (named == false)
    decreases |reqs|
  {
    if reqs == [] {
      assert Lines(reqs) == {};
    } else {
      PlaceStep(s0, existing, s, bps, reqs[0]);
      PlaceAllPlaces(s0, existing, named, PlaceOne(s, existing, reqs[0]), reqs[1..],
                     bps[reqs[0].line := IdFor(s, existing, reqs[0])]);
      LinesCons(reqs);
    }
  }

  lemma LinesCons(reqs: seq<Request>)
    requires reqs != []
    ensures Lines(reqs) == {reqs[0].line} + Lines(reqs[1..])
  {
    forall l | l in Lines(reqs)
      ensures l in {reqs[0].line} + Lines(reqs[1..])
    {
      var i :| 0 <= i < |reqs| && reqs[i].line == l;
      if i > 0 { assert reqs[1..][i - 1] == reqs[i]; }
    }
    forall l | l in Lines(reqs[1..])
      ensures l in Lines(reqs)
    {
      var i :| 0 <= i < |reqs[1..]| && reqs[1..][i].line == l;
      assert reqs[i + 1].line == l;
    }
  }

  /** Nothing is lost exactly when no line that needs a new breakpoint is requested twice. */
  lemma {:induction false} PlaceAllKeeps(s0: State, existing: map<int, Id>, named: bool, s: State, reqs: seq<Request>,
                                         bps: map<int, Id>)
    requires Fresh(s0) && OldIds(s0, existing) && Placing(s0, existing, s, bps) && AllKept(s0, s, bps)
    requires PlaceAll(s, existing, named, reqs, bps).Placed?
    ensures var r := PlaceAll(s, existing, named, reqs, bps);
      AllKept(s0, r.state, r.bps) <==> OncePerLine(s0, existing, reqs, bps)
    decreases |reqs|
  {
    if reqs != [] {
      var t, bps' := PlaceOne(s, existing, reqs[0]), bps[reqs[0].line := IdFor(s, existing, reqs[0])];
      PlaceStep(s0, existing, s, bps, reqs[0]);
      if reqs[0].line in bps && !StillLive(s0, existing, reqs[0].line) {
        PlaceAllLoses(s0, existing, named, t, reqs[1..], bps', bps[reqs[0].line]);
      } else {
        KeptStays(s0, existing, s, bps, reqs[0]);
        PlaceAllKeeps(s0, existing, named, t, reqs[1..], bps');
        OnceByKeys(s0, existing, reqs[1..], bps', bps[reqs[0].line := 0]);
      }
    }
  }

  lemma {:induction false} PlaceAllLoses(s0: State, existing: map<int, Id>, named: bool, s: State, reqs: seq<Request>,
                                         bps: map<int, Id>, id: Id)
    requires Fresh(s0) && OldIds(s0, existing) && Placing(s0, existing, s, bps) && Lost(s0, s, bps, id)
    requires PlaceAll(s, existing, named, reqs, bps).Placed?
    ensures var r := PlaceAll(s, existing, named, reqs, bps); Lost(s0, r.state, r.bps, id)
    decreases |reqs|
  {
    if reqs != [] {
      PlaceStep(s0, existing, s, bps, reqs[0]);
      PlaceAllLoses(s0, existing, named, PlaceOne(s, existing, reqs[0]), reqs[1..],
                    bps[reqs[0].line := IdFor(s, existing, reqs[0])], id);
    }
  }

  // ----- a whole call -----

  lemma ExistingIsOld(s: State, path: string)
    requires Inv(s)
    ensures OldIds(s, Existing(s, path))
    ensures Placing(s, Existing(s, path), s, map[]) && AllKept(s, s, map[])
  {
    forall line | line in Existing(s, path)
      ensures Sound(s, path, line)
    {
      assert Tracked(s, path, line);
    }
  }

  /** Ids on record elsewhere, or for lines that are requested again, are not dropped. */
  lemma NotDropped(s: State, path: string, bps: map<int, Id>, q: string, line: int)
    requires Records(s) && Tracked(s, q, line) && (q != path || line in bps)
    ensures IdAt(s, q, line) !in Dropped(Existing(s, path), bps)
  {
    var existing := Existing(s, path);
    forall l | l in existing && l !in bps
      ensures existing[l] != IdAt(s, q, line)
    {
      assert Tracked(s, path, l) && IdAt(s, path, l) == existing[l];
    }
  }

  lemma PlacedNotDropped(s0: State, path: string, s: State, bps: map<int, Id>, line: int)
    requires Inv(s0) && Placing(s0, Existing(s0, path), s, bps) && line in bps
    ensures bps[line] !in Dropped(Existing(s0, path), bps)
  {
    var existing := Existing(s0, path);
    ExistingIsOld(s0, path);
    assert PlacedAt(s0, existing, s, line, bps[line]);
    if StillLive(s0, existing, line) {
      assert Tracked(s0, path, line);
      NotDropped(s0, path, bps, path, line);
    } else {
      assert New(s0, s, bps[line]);
    }
  }

  /** The state after the second loop and the replacement of the record. */
  function Finished(path: string, existing: map<int, Id>, t: State, bps: map<int, Id>): State
  {
    var d := Dropped(existing, bps);
    t.(live := t.live - d, infos := t.infos - d, source := t.source[path := bps])
  }

  lemma FinishedSound(s0: State, path: string, t: State, bps: map<int, Id>, q: string, line: int)
    requires Inv(s0) && Placing(s0, Existing(s0, path), t, bps)
    requires Tracked(Finished(path, Existing(s0, path), t, bps), q, line)
    ensures Sound(Finished(path, Existing(s0, path), t, bps), q, line)
  {
    var s := Finished(path, Existing(s0, path), t, bps);
    if q == path {
      assert PlacedAt(s0, Existing(s0, path), t, line, bps[line]);
      PlacedNotDropped(s0, path, t, bps, line);
    } else {
      assert Tracked(s0, q, line) && Sound(s0, q, line);
      NotDropped(s0, path, bps, q, line);
      assert !New(s0, t, IdAt(s0, q, line));
    }
  }

  /** Two lines on record, one of them for the path of the call, have different ids. */
  lemma FinishedDiffers(s0: State, path: string, t: State, bps: map<int, Id>, line: int, q: string, m: int)
    requires Inv(s0) && Placing(s0, Existing(s0, path), t, bps) && line in bps
    requires Tracked(Finished(path, Existing(s0, path), t, bps), q, m)
    requires IdAt(Finished(path, Existing(s0, path), t, bps), q, m) == bps[line]
    ensures q == path && m == line
  {
    var existing := Existing(s0, path);
    ExistingIsOld(s0, path);
    assert PlacedAt(s0, existing, t, line, bps[line]);
    if q == path {
      assert PlacedAt(s0, existing, t, m, bps[m]);
    } else {
      OtherDiffers(s0, path, t, bps, line, q, m);
    }
  }

  lemma OtherDiffers(s0: State, path: string, t: State, bps: map<int, Id>, line: int, q: string, m: int)
    requires Inv(s0) && Placing(s0, Existing(s0, path), t, bps) && line in bps
    requires Tracked(s0, q, m) && q != path
    ensures IdAt(s0, q, m) != bps[line]
  {
    assert PlacedAt(s0, Existing(s0, path), t, line, bps[line]);
    assert Sound(s0, q, m);
    if StillLive(s0, Existing(s0, path), line) {
      assert Tracked(s0, path, line) && IdAt(s0, path, line) == bps[line];
    } else {
      assert New(s0, t, bps[line]);
    }
  }

  lemma FinishedRecords(s0: State, path: string, t: State, bps: map<int, Id>)
    requires Inv(s0) && Placing(s0, Existing(s0, path), t, bps)
    ensures Records(Finished(path, Existing(s0, path), t, bps))
  {
    var s := Finished(path, Existing(s0, path), t, bps);
    forall q, line | Tracked(s, q, line)
      ensures Sound(s, q, line)
    {
      FinishedSound(s0, path, t, bps, q, line);
    }
    forall p, l, q, m | Tracked(s, p, l) && Tracked(s, q, m) && IdAt(s, p, l) == IdAt(s, q, m)
      ensures p == q && l == m
    {
      if p == path {
        FinishedDiffers(s0, path, t, bps, l, q, m);
      } else if q == path {
        FinishedDiffers(s0, path, t, bps, m, p, l);
      } else {
        assert Tracked(s0, p, l) && Tracked(s0, q, m);
        assert IdAt(s0, p, l) == IdAt(s0, q, m);
      }
    }
  }

  lemma FinishedFresh(s0: State, path: string, t: State, bps: map<int, Id>)
    requires Inv(s0) && Placing(s0, Existing(s0, path), t, bps)
    ensures Fresh(Finished(path, Existing(s0, path), t, bps))
  {
    forall id | id in t.live || id in t.mine
      ensures id < t.next
    {
      if id !in s0.live && id !in s0.mine { assert New(s0, t, id); }
    }
    forall id | id in t.gone
      ensures id !in t.live
    {
      assert id in s0.gone && id < s0.next;
      assert !New(s0, t, id);
    }
  }

  lemma OldStillTracked(s0: State, path: string, t: State, bps: map<int, Id>, id: Id)
    requires Inv(s0) && Placing(s0, Existing(s0, path), t, bps)
    requires id in s0.live && id in s0.mine && id in Finished(path, Existing(s0, path), t, bps).live
    ensures IsTracked(Finished(path, Existing(s0, path), t, bps), id)
  {
    var s, existing := Finished(path, Existing(s0, path), t, bps), Existing(s0, path);
    assert IsTracked(s0, id);
    var p, l :| Tracked(s0, p, l) && IdAt(s0, p, l) == id;
    if p == path {
      assert l in existing && existing[l] == id;
      assert l in bps;
      assert PlacedAt(s0, existing, t, l, bps[l]);
      assert Tracked(s, path, l) && IdAt(s, path, l) == id;
    } else {
      assert Tracked(s, p, l) && IdAt(s, p, l) == id;
    }
  }

  lemma NewTracked(s0: State, path: string, t: State, bps: map<int, Id>, id: Id)
    requires Inv(s0) && Placing(s0, Existing(s0, path), t, bps) && New(s0, t, id)
    ensures var s := Finished(path, Existing(s0, path), t, bps);
      && id in s.live && id in s.mine
      && (IsTracked(s, id) <==> exists line :: line in bps && bps[line] == id)
  {
    var s, existing := Finished(path, Existing(s0, path), t, bps), Existing(s0, path);
    ExistingIsOld(s0, path);
    assert id >= s0.next;
    assert id !in Dropped(existing, bps);
    forall p, l | Tracked(s, p, l) && p != path
      ensures IdAt(s, p, l) != id
    {
      assert Tracked(s0, p, l) && Sound(s0, p, l);
    }
    if IsTracked(s, id) {
      var p, l :| Tracked(s, p, l) && IdAt(s, p, l) == id;
      assert l in bps && bps[l] == id;
    }
    if exists line :: line in bps && bps[line] == id {
      var line :| line in bps && bps[line] == id;
      assert Tracked(s, path, line) && IdAt(s, path, line) == id;
    }
  }

  lemma FinishedNoLeak(s0: State, path: string, t: State, bps: map<int, Id>)
    requires Inv(s0) && Placing(s0, Existing(s0, path), t, bps)
    ensures NoLeak(Finished(path, Existing(s0, path), t, bps)) <==> AllKept(s0, t, bps)
  {
    var s := Finished(path, Existing(s0, path), t, bps);
    if AllKept(s0, t, bps) {
      forall id | id in s.live && id in s.mine
        ensures IsTracked(s, id)
      {
        if New(s0, t, id) { NewTracked(s0, path, t, bps, id); } else { OldStillTracked(s0, path, t, bps, id); }
      }
    } else {
      var id: Id :| New(s0, t, id) && !exists line :: line in bps && bps[line] == id;
      NewTracked(s0, path, t, bps, id);
    }
  }

  /** A successful call keeps the session and the target in step exactly when no line that needs a new
      breakpoint is requested twice; otherwise a breakpoint is left in the target that the session no
      longer knows. */
  lemma CallKeepsStep(s: State, path: string, named: bool, reqs: seq<Request>)
    requires Inv(s) && Succeeds(s, path, named, reqs)
    ensures Inv(SetSource(s, path, named, reqs)) <==>
      forall i, j :: 0 <= i < j < |reqs| && reqs[i].line == reqs[j].line ==> StillLive(s, Existing(s, path), reqs[i].line)
  {
    var existing := Existing(s, path);
    OnceMeans(s, existing, reqs, map[]);
    ExistingIsOld(s, path);
    PlaceAllPlaces(s, existing, named, s, reqs, map[]);
    PlaceAllKeeps(s, existing, named, s, reqs, map[]);
    var r := PlaceAll(s, existing, named, reqs, map[]);
    FinishedRecords(s, path, r.state, r.bps);
    FinishedFresh(s, path, r.state, r.bps);
    FinishedNoLeak(s, path, r.state, r.bps);
  }

  predicate DistinctLines(reqs: seq<Request>)
  {
    forall i, j :: 0 <= i < j < |reqs| ==> reqs[i].line != reqs[j].line
  }

  lemma {:induction false} DistinctIsOnce(s: State, existing: map<int, Id>, reqs: seq<Request>, bps: map<int, Id>)
    requires DistinctLines(reqs) && forall i :: 0 <= i < |reqs| ==> reqs[i].line !in bps
    ensures OncePerLine(s, existing, reqs, bps)
    decreases |reqs|
  {
    if reqs != [] { DistinctIsOnce(s, existing, reqs[1..], bps[reqs[0].line := 0]); }
  }

  lemma {:induction false} UnnamedPlacesNothing(s: State, existing: map<int, Id>, reqs: seq<Request>, bps: map<int, Id>)
    ensures var r := PlaceAll(s, existing, false, reqs, bps); r.state.live == s.live && r.state.mine == s.mine
    decreases |reqs|
  {
    if reqs != [] && StillLive(s, existing, reqs[0].line) {
      UnnamedPlacesNothing(PlaceOne(s, existing, reqs[0]), existing, reqs[1..],
                           bps[reqs[0].line := IdFor(s, existing, reqs[0])]);
    }
  }

  /** A call fails exactly when the path has no file name and some line needs a new breakpoint. */
  lemma {:induction false} SucceedsIff(s: State, existing: map<int, Id>, named: bool, reqs: seq<Request>, bps: map<int, Id>)
    ensures PlaceAll(s, existing, named, reqs, bps).Placed? <==>
      named || forall i :: 0 <= i < |reqs| ==> StillLive(s, existing, reqs[i].line)
    decreases |reqs|
  {
    if reqs != [] && (named || StillLive(s, existing, reqs[0].line)) {
      var t := PlaceOne(s, existing, reqs[0]);
      SucceedsIff(t, existing, named, reqs[1..], bps[reqs[0].line := IdFor(s, existing, reqs[0])]);
      assert forall i :: 1 <= i < |reqs| ==> reqs[i] == reqs[1..][i - 1];
      if !named { assert t.live == s.live; }
    }
  }

  lemma FailedCallKeepsInv(s: State, path: string, named: bool, reqs: seq<Request>)
    requires Inv(s) && !Succeeds(s, path, named, reqs)
    ensures Inv(SetSource(s, path, named, reqs))
    ensures var t := SetSource(s, path, named, reqs);
      t.live == s.live && t.mine == s.mine && forall q :: Existing(t, q) == Existing(s, q)
  {
    var existing := Existing(s, path);
    ExistingIsOld(s, path);
    PlaceAllPlaces(s, existing, named, s, reqs, map[]);
    UnnamedPlacesNothing(s, existing, reqs, map[]);
    var t := SetSource(s, path, named, reqs);
    forall p, l
      ensures Tracked(t, p, l) <==> Tracked(s, p, l)
      ensures Tracked(t, p, l) ==> IdAt(t, p, l) == IdAt(s, p, l)
    {
    }
    forall p, l | Tracked(t, p, l)
      ensures Sound(t, p, l)
    {
      assert Sound(s, p, l);
    }
    forall id | id in t.live && id in t.mine
      ensures IsTracked(t, id)
    {
      assert IsTracked(s, id);
      var p, l :| Tracked(s, p, l) && IdAt(s, p, l) == id;
      assert Tracked(t, p, l) && IdAt(t, p, l) == id;
    }
  }

  /** After a successful call: the lines on record for the file are those requested, each with a live
      breakpoint, the same as before where there was one; breakpoints of lines no longer requested
      are gone from the target and from `breakpoint_infos`; everything else is as it was. */
  lemma CallResult(s: State, path: string, named: bool, reqs: seq<Request>)
    requires Inv(s) && Succeeds(s, path, named, reqs)
    ensures var t := SetSource(s, path, named, reqs);
      && path in t.source && t.source[path].Keys == Lines(reqs)
      && (forall l :: l in Lines(reqs) ==>
            && t.source[path][l] in t.live && t.live[t.source[path][l]] == l
            && (StillLive(s, Existing(s, path), l) ==> t.source[path][l] == Existing(s, path)[l]))
      && (forall l :: l in Existing(s, path) && l !in Lines(reqs) ==>
            Existing(s, path)[l] !in t.live && Existing(s, path)[l] !in t.infos)
      && (forall q :: q != path ==> Existing(t, q) == Existing(s, q))
      && (forall id :: id in s.live && id !in Dropped(Existing(s, path), t.source[path]) ==>
            id in t.live && t.live[id] == s.live[id])
      && (forall id :: id in s.infos && id !in t.source[path].Values && id !in Dropped(Existing(s, path), t.source[path]) ==>
            id in t.infos && t.infos[id] == s.infos[id])
  {
    var existing := Existing(s, path);
    ExistingIsOld(s, path);
    PlaceAllPlaces(s, existing, named, s, reqs, map[]);
    var r := PlaceAll(s, existing, named, reqs, map[]);
    forall l | l in r.bps
      ensures r.bps[l] !in Dropped(existing, r.bps) && PlacedAt(s, existing, r.state, l, r.bps[l])
    {
      PlacedNotDropped(s, path, r.state, r.bps, l);
    }
    PlacingKeepsInfos(s, path, named, reqs);
  }

  lemma PlacingKeepsInfos(s: State, path: string, named: bool, reqs: seq<Request>)
    requires Inv(s) && Succeeds(s, path, named, reqs)
    ensures var r := PlaceAll(s, Existing(s, path), named, reqs, map[]);
      forall id :: id in s.infos && id !in r.bps.Values ==> id in r.state.infos && r.state.infos[id] == s.infos[id]
  {
    var r := PlaceAll(s, Existing(s, path), named, reqs, map[]);
    ExistingIsOld(s, path);
    forall id | id in s.infos && id !in r.bps.Values
      ensures id in r.state.infos && r.state.infos[id] == s.infos[id]
    {
      assert forall l :: l in r.bps ==> r.bps[l] in r.bps.Values;
      OtherInfosKept(s, Existing(s, path), named, s, reqs, map[], id);
    }
  }

  /** What is placed for a line in the course of a call is what is on record for it in the end. */
  lemma PlacedForLine(s0: State, existing: map<int, Id>, named: bool, s: State, reqs: seq<Request>, bps: map<int, Id>)
    requires Fresh(s0) && OldIds(s0, existing) && Placing(s0, existing, s, bps)
    requires reqs != [] && PlaceAll(s, existing, named, reqs, bps).Placed?
    ensures var id, r := IdFor(s, existing, reqs[0]), PlaceAll(s, existing, named, reqs, bps);
      id < s0.next ==> reqs[0].line in r.bps && r.bps[reqs[0].line] == id
  {
    PlaceStep(s0, existing, s, bps, reqs[0]);
    PlaceAllPlaces(s0, existing, named, s, reqs, bps);
    LinesCons(reqs);
    var line, r := reqs[0].line, PlaceAll(s, existing, named, reqs, bps);
    assert PlacedAt(s0, existing, r.state, line, r.bps[line]);
  }

  lemma {:induction false} OtherInfosKept(s0: State, existing: map<int, Id>, named: bool, s: State, reqs: seq<Request>,
                                          bps: map<int, Id>, id: Id)
    requires Fresh(s0) && OldIds(s0, existing) && Placing(s0, existing, s, bps) && id < s0.next
    requires PlaceAll(s, existing, named, reqs, bps).Placed?
    requires var r := PlaceAll(s, existing, named, reqs, bps); forall l :: l in r.bps ==> r.bps[l] != id
    ensures var r := PlaceAll(s, existing, named, reqs, bps);
      (id in r.state.infos <==> id in s.infos) && (id in s.infos ==> r.state.infos[id] == s.infos[id])
    decreases |reqs|
  {
    if reqs != [] {
      PlacedForLine(s0, existing, named, s, reqs, bps);
      PlaceStep(s0, existing, s, bps, reqs[0]);
      OtherInfosKept(s0, existing, named, PlaceOne(s, existing, reqs[0]), reqs[1..],
                     bps[reqs[0].line := IdFor(s, existing, reqs[0])], id);
    }
  }

  /** Placing requests for other lines leaves the recorded condition of a breakpoint alone. */
  lemma {:induction false} InfoKept(s0: State, existing: map<int, Id>, named: bool, s: State, reqs: seq<Request>,
                                    bps: map<int, Id>, line: int)
    requires Fresh(s0) && OldIds(s0, existing) && Placing(s0, existing, s, bps) && line in bps
    requires forall i :: 0 <= i < |reqs| ==> reqs[i].line != line
    requires PlaceAll(s, existing, named, reqs, bps).Placed?
    ensures var r := PlaceAll(s, existing, named, reqs, bps);
      && line in r.bps && r.bps[line] == bps[line]
      && bps[line] in s.infos && bps[line] in r.state.infos && r.state.infos[bps[line]] == s.infos[bps[line]]
    decreases |reqs|
  {
    assert PlacedAt(s0, existing, s, line, bps[line]);
    if reqs != [] {
      var id := IdFor(s, existing, reqs[0]);
      PlaceStep(s0, existing, s, bps, reqs[0]);
      assert PlacedAt(s0, existing, PlaceOne(s, existing, reqs[0]), reqs[0].line, id);
      assert id != bps[line];
      InfoKept(s0, existing, named, PlaceOne(s, existing, reqs[0]), reqs[1..], bps[reqs[0].line := id], line);
    }
  }

  lemma {:induction false} InfosSet(s0: State, existing: map<int, Id>, named: bool, s: State, reqs: seq<Request>,
                                    bps: map<int, Id>, i: nat)
    requires Fresh(s0) && OldIds(s0, existing) && Placing(s0, existing, s, bps)
    requires DistinctLines(reqs) && i < |reqs| && PlaceAll(s, existing, named, reqs, bps).Placed?
    ensures var r := PlaceAll(s, existing, named, reqs, bps);
      && reqs[i].line in r.bps && r.bps[reqs[i].line] in r.state.infos
      && r.state.infos[r.bps[reqs[i].line]] == Info(reqs[i].condition)
    decreases |reqs|
  {
    var t, bps' := PlaceOne(s, existing, reqs[0]), bps[reqs[0].line := IdFor(s, existing, reqs[0])];
    PlaceStep(s0, existing, s, bps, reqs[0]);
    if i == 0 {
      InfoKept(s0, existing, named, t, reqs[1..], bps', reqs[0].line);
    } else {
      InfosSet(s0, existing, named, t, reqs[1..], bps', i - 1);
    }
  }

  /** After a successful call with distinct lines, each requested breakpoint has the requested condition. */
  lemma ConditionsSet(s: State, path: string, named: bool, reqs: seq<Request>, i: nat)
    requires Inv(s) && Succeeds(s, path, named, reqs) && DistinctLines(reqs) && i < |reqs|
    ensures var t := SetSource(s, path, named, reqs);
      && path in t.source && reqs[i].line in t.source[path]
      && t.source[path][reqs[i].line] in t.infos
      && t.infos[t.source[path][reqs[i].line]] == Info(reqs[i].condition)
  {
    var existing := Existing(s, path);
    ExistingIsOld(s, path);
    PlaceAllPlaces(s, existing, named, s, reqs, map[]);
    InfosSet(s, existing, named, s, reqs, map[], i);
    var r := PlaceAll(s, existing, named, reqs, map[]);
    PlacedNotDropped(s, path, r.state, r.bps, reqs[i].line);
  }

  // ----- runs -----

  datatype Action =
    | SetBreakpoints(path: string, named: bool, reqs: seq<Request>)
    | OthersAdd(line: int)        // by a console command, or for another kind of breakpoint
    | OthersRemove(id: Id)
    | Event(kind: EventKind, id: Id)

  /** A removal is reported after it happened. */
  predicate Enabled(s: State, a: Action)
  {
    match a
    case SetBreakpoints(_, _, reqs) => DistinctLines(reqs)
    case Event(kind, id) => kind.Removed? ==> id !in s.live
    case _ => true
  }

  function Step(s: State, a: Action): State
  {
    match a
    case SetBreakpoints(path, named, reqs) => SetSource(s, path, named, reqs)
    case OthersAdd(line) => s.(live := s.live[s.next := line], next := s.next + 1)
    case OthersRemove(id) => if id in s.live then s.(live := s.live - {id}, gone := s.gone + {id}) else s
    case Event(kind, id) => OnEvent(s, kind, id)
  }

  predicate Possible(s: State, actions: seq<Action>)
    decreases |actions|
  {
    actions == [] || (Enabled(s, actions[0]) && Possible(Step(s, actions[0]), actions[1..]))
  }

  function Exec(s: State, actions: seq<Action>): State
    decreases |actions|
  {
    if actions == [] then s else Exec(Step(s, actions[0]), actions[1..])
  }

  /** Changes that leave the record alone. */
  lemma SameRecordKeepsInv(s: State, t: State)
    requires Inv(s) && t.source == s.source && t.mine == s.mine && Fresh(t)
    requires forall id :: id in t.live && id in s.mine ==> id in s.live && t.live[id] == s.live[id]
    requires forall id :: id in s.mine && id !in t.live ==> id !in s.live || id in t.gone
    requires s.gone <= t.gone
    requires forall id :: id in t.live && id in s.infos ==> id in t.infos
    ensures Inv(t)
  {
    forall p, l | Tracked(t, p, l)
      ensures Sound(t, p, l)
    {
      assert Tracked(s, p, l) && Sound(s, p, l);
    }
    forall p, l, q, m | Tracked(t, p, l) && Tracked(t, q, m) && IdAt(t, p, l) == IdAt(t, q, m)
      ensures p == q && l == m
    {
      assert Tracked(s, p, l) && Tracked(s, q, m) && IdAt(s, p, l) == IdAt(s, q, m);
    }
    forall id | id in t.live && id in t.mine
      ensures IsTracked(t, id)
    {
      assert IsTracked(s, id);
      var p, l :| Tracked(s, p, l) && IdAt(s, p, l) == id;
      assert Tracked(t, p, l) && IdAt(t, p, l) == id;
    }
  }

  lemma StepKeepsInv(s: State, a: Action)
    requires Inv(s) && Enabled(s, a)
    ensures Inv(Step(s, a))
  {
    match a
    case SetBreakpoints(path, named, reqs) =>
      if Succeeds(s, path, named, reqs) {
        DistinctIsOnce(s, Existing(s, path), reqs, map[]);
        CallKeepsStep(s, path, named, reqs);
      } else {
        FailedCallKeepsInv(s, path, named, reqs);
      }
    case _ => SameRecordKeepsInv(s, Step(s, a));
  }

  lemma {:induction false} ExecKeepsInv(s: State, actions: seq<Action>)
    requires Inv(s) && Possible(s, actions)
    ensures Inv(Exec(s, actions))
    decreases |actions|
  {
    if actions != [] {
      StepKeepsInv(s, actions[0]);
      ExecKeepsInv(Step(s, actions[0]), actions[1..]);
    }
  }

  /** Over every run: the live source breakpoints created by the session are exactly those on record for
      some file and line, except the ones that others have removed. */
  lemma EveryRun(actions: seq<Action>, id: Id)
    requires Possible(START, actions)
    ensures var s := Exec(START, actions);
      id in s.live && id in s.mine <==> IsTracked(s, id) && id !in s.gone
  {
    var s := Exec(START, actions);
    ExecKeepsInv(START, actions);
    if IsTracked(s, id) {
      var p, l :| Tracked(s, p, l) && IdAt(s, p, l) == id;
      assert Sound(s, p, l);
    }
  }

  /** The lines that the last successful call for a file asked for; `before` if there is none. */
  function LastRequested(s: State, actions: seq<Action>, path: string, before: set<int>): set<int>
    decreases |actions|
  {
    if actions == [] then before
    else
      var a := actions[0];
      var called := a.SetBreakpoints? && a.path == path && Succeeds(s, path, a.named, a.reqs);
      LastRequested(Step(s, a), actions[1..], path, if called then Lines(a.reqs) else before)
  }

  lemma StepRecord(s: State, a: Action, path: string)
    requires Inv(s) && Enabled(s, a)
    ensures Existing(Step(s, a), path).Keys ==
      if a.SetBreakpoints? && a.path == path && Succeeds(s, path, a.named, a.reqs)
      then Lines(a.reqs) else Existing(s, path).Keys
  {
    if a.SetBreakpoints? {
      if Succeeds(s, a.path, a.named, a.reqs) {
        CallResult(s, a.path, a.named, a.reqs);
      } else {
        ExistingIsOld(s, a.path);
        PlaceAllPlaces(s, Existing(s, a.path), a.named, s, a.reqs, map[]);
      }
    }
  }

  /** What is on record for a file is what was last asked for. */
  lemma {:induction false} RecordIsLastRequested(s: State, actions: seq<Action>, path: string)
    requires Inv(s) && Possible(s, actions)
    ensures Existing(Exec(s, actions), path).Keys == LastRequested(s, actions, path, Existing(s, path).Keys)
    decreases |actions|
  {
    if actions != [] {
      StepRecord(s, actions[0], path);
      StepKeepsInv(s, actions[0]);
      RecordIsLastRequested(Step(s, actions[0]), actions[1..], path);
    }
  }

  /** Over every run: each line last asked for in a file has one breakpoint of its own, at that line,
      which is live unless others have removed it; and the session has no other live breakpoint. */
  lemma LiveAreLastRequested(actions: seq<Action>)
    requires Possible(START, actions)
    ensures var s := Exec(START, actions);
      && (forall path, line :: Tracked(s, path, line) <==> line in LastRequested(START, actions, path, {}))
      && (forall path, line :: Tracked(s, path, line) ==>
            IdAt(s, path, line) in s.gone || (IdAt(s, path, line) in s.live && s.live[IdAt(s, path, line)] == line))
      && (forall p, l, q, m :: Tracked(s, p, l) && Tracked(s, q, m) && IdAt(s, p, l) == IdAt(s, q, m) ==> p == q && l == m)
      && (forall id :: id in s.live && id in s.mine ==> IsTracked(s, id))
  {
    var s := Exec(START, actions);
    ExecKeepsInv(START, actions);
    forall path, line
      ensures Tracked(s, path, line) <==> line in LastRequested(START, actions, path, {})
    {
      RecordIsLastRequested(START, actions, path);
      assert Existing(START, path).Keys == {};
      assert Tracked(s, path, line) <==> line in Existing(s, path).Keys;
    }
    forall path, line | Tracked(s, path, line)
      ensures IdAt(s, path, line) in s.gone || (IdAt(s, path, line) in s.live && s.live[IdAt(s, path, line)] == line)
    {
      assert Sound(s, path, line);
    }
  }
}
