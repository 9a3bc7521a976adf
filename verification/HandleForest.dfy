/** Re-creating a forest of objects after a reset gives every object the handle it had before. */
module HandleForest {
  import opened Options
  import opened Handles

  /** An object is identified by the keys that lead to it from a root. */
  type Path = seq<string>

  type Assigned = map<Path, Handle>

  predicate ParentKnown(acc: Assigned, p: Path)
  {
    p != [] && (|p| > 1 ==> p[..|p| - 1] in acc)
  }

  function PlaceOf(acc: Assigned, p: Path): Place
    requires ParentKnown(acc, p)
  {
    Place(if |p| > 1 then Some(acc[p[..|p| - 1]]) else None, p[|p| - 1])
  }

  /** Paths that are new, distinct and come after their parents. */
  predicate ParentFirst(acc: Assigned, paths: seq<Path>)
    decreases |paths|
  {
    paths == [] ||
    (ParentKnown(acc, paths[0]) && paths[0] !in acc && ParentFirst(acc[paths[0] := 0], paths[1..]))
  }

  lemma {:induction false} OnlyKeysMatter(a: Assigned, b: Assigned, paths: seq<Path>)
    requires a.Keys == b.Keys && ParentFirst(a, paths)
    ensures ParentFirst(b, paths)
    decreases |paths|
  {
    if paths != [] { OnlyKeysMatter(a[paths[0] := 0], b[paths[0] := 0], paths[1..]); }
  }

  /** Creates an object for each path in turn, below the object of its parent path. */
  function Build<V>(t: Tree<V>, acc: Assigned, paths: seq<Path>, v: V): (Tree<V>, Assigned)
    requires ParentFirst(acc, paths)
    decreases |paths|
  {
    if paths == [] then (t, acc)
    else
      var place := PlaceOf(acc, paths[0]);
      var acc' := acc[paths[0] := HandleFor(t, place)];
      OnlyKeysMatter(acc[paths[0] := 0], acc', paths[1..]);
      Build(Create(t, place, v), acc', paths[1..], v)
  }

  /** The objects of this generation are exactly those of the assigned paths. */
  ghost predicate Holds<V>(t: Tree<V>, acc: Assigned)
  {
    Inv(t) && Fits(t, acc)
  }

  ghost predicate Fits<V>(t: Tree<V>, acc: Assigned)
  {
    && Injective(acc)
    && (forall p :: p in acc ==> Recorded(t, acc, p) && acc[p] in t.objects)
    && (forall h :: h in t.objects ==> exists p :: p in acc && acc[p] == h)
    && (forall place :: place in t.current ==> IsPlace(acc, place))
  }

  ghost predicate Injective(acc: Assigned)
  {
    forall p, q :: p in acc && q in acc && acc[p] == acc[q] ==> p == q
  }

  ghost predicate IsPlace(acc: Assigned, place: Place)
  {
    exists p :: p in acc && ParentKnown(acc, p) && place == PlaceOf(acc, p)
  }

  predicate Recorded<V>(t: Tree<V>, acc: Assigned, p: Path)
    requires p in acc
  {
    ParentKnown(acc, p) && PlaceOf(acc, p) in t.current && t.current[PlaceOf(acc, p)] == acc[p]
  }

  lemma SamePlaceSamePath(acc: Assigned, p: Path, q: Path)
    requires Injective(acc)
    requires ParentKnown(acc, p) && ParentKnown(acc, q) && PlaceOf(acc, p) == PlaceOf(acc, q)
    ensures p == q
  {
    assert |p| > 1 <==> |q| > 1;
    if |p| > 1 {
      assert p[..|p| - 1] == q[..|q| - 1];
    }
    assert p == p[..|p| - 1] + [p[|p| - 1]] && q == q[..|q| - 1] + [q[|q| - 1]];
  }

  lemma PlaceKept(acc: Assigned, p: Path, q: Path, h: Handle)
    requires ParentKnown(acc, q) && p !in acc
    ensures ParentKnown(acc[p := h], q) && PlaceOf(acc[p := h], q) == PlaceOf(acc, q)
  {
  }

  lemma PlacesKept(acc: Assigned, p: Path, h: Handle, place: Place)
    requires IsPlace(acc, place) && p !in acc
    ensures IsPlace(acc[p := h], place)
  {
    var q :| q in acc && ParentKnown(acc, q) && place == PlaceOf(acc, q);
    PlaceKept(acc, p, q, h);
    assert q in acc[p := h];
  }

  lemma RecordedKept<V>(t: Tree<V>, acc: Assigned, p: Path, q: Path, v: V)
    requires Injective(acc) && ParentKnown(acc, p) && p !in acc && q in acc && Recorded(t, acc, q)
    ensures Recorded(Create(t, PlaceOf(acc, p), v), acc[p := HandleFor(t, PlaceOf(acc, p))], q)
  {
    PlaceKept(acc, p, q, HandleFor(t, PlaceOf(acc, p)));
    if PlaceOf(acc, q) == PlaceOf(acc, p) { SamePlaceSamePath(acc, p, q); }
  }

  lemma InjectiveKept(acc: Assigned, p: Path, h: Handle)
    requires Injective(acc) && p !in acc && forall q :: q in acc ==> acc[q] != h
    ensures Injective(acc[p := h])
  {
  }

  lemma CoveredKept<V>(t: Tree<V>, acc: Assigned, p: Path, place: Place, v: V)
    requires p !in acc && forall h :: h in t.objects ==> exists q :: q in acc && acc[q] == h
    ensures var acc' := acc[p := HandleFor(t, place)];
      forall h :: h in Create(t, place, v).objects ==> exists q :: q in acc' && acc'[q] == h
  {
    var acc' := acc[p := HandleFor(t, place)];
    forall h | h in Create(t, place, v).objects
      ensures exists q :: q in acc' && acc'[q] == h
    {
      if h == HandleFor(t, place) {
        assert acc'[p] == h;
      } else {
        var q :| q in acc && acc[q] == h;
        assert acc'[q] == h;
      }
    }
  }

  lemma CreateFits<V>(t: Tree<V>, acc: Assigned, p: Path, v: V)
    requires Fits(t, acc) && ParentKnown(acc, p) && p !in acc
    requires HandleFor(t, PlaceOf(acc, p)) !in t.objects
    ensures Fits(Create(t, PlaceOf(acc, p), v), acc[p := HandleFor(t, PlaceOf(acc, p))])
  {
    var place := PlaceOf(acc, p);
    var h := HandleFor(t, place);
    var t', acc' := Create(t, place, v), acc[p := h];
    PlaceKept(acc, p, p, h);
    InjectiveKept(acc, p, h);
    CoveredKept(t, acc, p, place, v);
    forall q | q in acc'
      ensures Recorded(t', acc', q) && acc'[q] in t'.objects
    {
      if q != p { RecordedKept(t, acc, p, q, v); }
    }
    forall pl | pl in t'.current
      ensures IsPlace(acc', pl)
    {
      if pl == place { assert p in acc'; } else { PlacesKept(acc, p, h, pl); }
    }
  }

  lemma CreateHolds<V>(t: Tree<V>, acc: Assigned, p: Path, v: V)
    requires Holds(t, acc) && ParentKnown(acc, p) && p !in acc
    ensures Holds(Create(t, PlaceOf(acc, p), v), acc[p := HandleFor(t, PlaceOf(acc, p))])
  {
    var place := PlaceOf(acc, p);
    assert Live(t, place.parent);
    CreateKeepsInv(t, place, v);
    CreateFits(t, acc, p, v);
  }

  lemma {:induction false} BuildHolds<V>(t: Tree<V>, acc: Assigned, paths: seq<Path>, v: V)
    requires ParentFirst(acc, paths) && Holds(t, acc)
    ensures Holds(Build(t, acc, paths, v).0, Build(t, acc, paths, v).1)
    ensures forall p :: p in Build(t, acc, paths, v).1 <==> p in acc || p in paths
    decreases |paths|
  {
    if paths != [] {
      var place := PlaceOf(acc, paths[0]);
      var acc' := acc[paths[0] := HandleFor(t, place)];
      CreateHolds(t, acc, paths[0], v);
      OnlyKeysMatter(acc[paths[0] := 0], acc', paths[1..]);
      BuildHolds(Create(t, place, v), acc', paths[1..], v);
      assert forall p :: p in paths <==> p == paths[0] || p in paths[1..];
    }
  }

  // ----- the second time -----

  /** Paths of the earlier forest have their old handles; all others have handles issued since. */
  ghost predicate Agrees(acc: Assigned, earlier: Assigned, limit: Handle)
  {
    forall q :: q in acc ==> if q in earlier then acc[q] == earlier[q] else acc[q] > limit
  }

  /** `previous` is what the earlier forest was recorded as. */
  ghost predicate Remembers<V>(t: Tree<V>, before: Tree<V>, earlier: Assigned)
  {
    Holds(before, earlier) && t.previous == before.current && before.last <= t.last
  }

  /** A path gets its old handle, or one that the earlier forest does not have. */
  lemma HandleAgrees<V>(t: Tree<V>, before: Tree<V>, acc: Assigned, earlier: Assigned, p: Path)
    requires Holds(t, acc) && Remembers(t, before, earlier) && Agrees(acc, earlier, before.last)
    requires ParentKnown(acc, p) && p !in acc
    ensures var h := HandleFor(t, PlaceOf(acc, p));
      if p in earlier then h == earlier[p] else h > before.last
  {
    var place := PlaceOf(acc, p);
    if p in earlier {
      OldHandleFree(t, before, acc, earlier, p);
    } else if place in t.previous {
      assert IsPlace(earlier, place);
      var q :| q in earlier && ParentKnown(earlier, q) && place == PlaceOf(earlier, q);
      assert forall x :: x in earlier ==> earlier[x] in before.objects && earlier[x] <= before.last;
      SamePathAsBefore(acc, earlier, before.last, p, q);
    }
  }

  lemma CreateAgrees<V>(t: Tree<V>, before: Tree<V>, acc: Assigned, earlier: Assigned, p: Path, v: V)
    requires Holds(t, acc) && Remembers(t, before, earlier) && Agrees(acc, earlier, before.last)
    requires ParentKnown(acc, p) && p !in acc
    ensures var place := PlaceOf(acc, p);
      && Agrees(acc[p := HandleFor(t, place)], earlier, before.last)
      && Remembers(Create(t, place, v), before, earlier)
  {
    HandleAgrees(t, before, acc, earlier, p);
  }

  /** The old handle of a path that is not assigned yet has not been given to anything else. */
  lemma OldHandleFree<V>(t: Tree<V>, before: Tree<V>, acc: Assigned, earlier: Assigned, p: Path)
    requires Holds(t, acc) && Holds(before, earlier) && Agrees(acc, earlier, before.last)
    requires p in earlier && p !in acc
    ensures earlier[p] !in t.objects
  {
    forall q | q in acc
      ensures acc[q] != earlier[p]
    {
      assert earlier[p] in before.objects;
    }
  }

  /** Places of the two forests are the same only for the same path. */
  lemma SamePathAsBefore(acc: Assigned, earlier: Assigned, limit: Handle, p: Path, q: Path)
    requires Injective(earlier) && Agrees(acc, earlier, limit) && forall x :: x in earlier ==> earlier[x] <= limit
    requires ParentKnown(acc, p) && q in earlier && ParentKnown(earlier, q)
    requires PlaceOf(acc, p) == PlaceOf(earlier, q)
    ensures p == q
  {
    if |p| > 1 {
      var a, b := p[..|p| - 1], q[..|q| - 1];
      assert a in earlier && acc[a] == earlier[a] == earlier[b];
      assert a == b;
    }
    assert p == p[..|p| - 1] + [p[|p| - 1]] && q == q[..|q| - 1] + [q[|q| - 1]];
  }

  lemma {:induction false} BuildAgrees<V>(t: Tree<V>, before: Tree<V>, acc: Assigned, earlier: Assigned, paths: seq<Path>, v: V)
    requires ParentFirst(acc, paths) && Holds(t, acc)
    requires Remembers(t, before, earlier) && Agrees(acc, earlier, before.last)
    ensures Agrees(Build(t, acc, paths, v).1, earlier, before.last)
    decreases |paths|
  {
    if paths != [] {
      var place := PlaceOf(acc, paths[0]);
      var acc' := acc[paths[0] := HandleFor(t, place)];
      CreateHolds(t, acc, paths[0], v);
      CreateAgrees(t, before, acc, earlier, paths[0], v);
      OnlyKeysMatter(acc[paths[0] := 0], acc', paths[1..]);
      BuildAgrees(Create(t, place, v), before, acc', earlier, paths[1..], v);
    }
  }

  /** Build any forest in a fresh generation, reset, and build any forest again, each in any order
      that puts parents first: every path built both times has the same handle, and the handle of
      a path that was not built again resolves to nothing. */
  lemma RebuiltForest<V>(t: Tree<V>, first: seq<Path>, second: seq<Path>, v: V, w: V)
    requires Inv(t) && t.objects == map[] && t.current == map[]
    requires ParentFirst(map[], first) && ParentFirst(map[], second)
    ensures var (t1, a1) := Build(t, map[], first, v);
      var (t2, a2) := Build(Reset(t1), map[], second, w);
      forall p :: p in first ==>
        p in a1 && if p in second then p in a2 && a2[p] == a1[p] else a1[p] !in t2.objects
  {
    var (t1, a1) := Build(t, map[], first, v);
    BuildHolds(t, map[], first, v);
    ResetKeepsInv(t1);
    var (t2, a2) := Build(Reset(t1), map[], second, w);
    BuildHolds(Reset(t1), map[], second, w);
    BuildAgrees(Reset(t1), t1, map[], a1, second, w);
    forall p | p in first && p !in second
      ensures a1[p] !in t2.objects
    {
      OldHandleFree(t2, t1, a2, a1, p);
    }
  }
}
