/** What handles mean over whole runs of `create` and `reset`. */
module HandleHistory {
  import opened Options
  import opened Handles

  /** One successful `create`: the generation counts the resets before it. */
  datatype Created<+V> = Created(handle: Handle, place: Place, value: V, generation: int, warned: bool)

  datatype Op<+V> = CreateOp(place: Place, value: V) | ResetOp

  datatype History<+V> = History(tree: Tree<V>, log: seq<Created<V>>, generation: int)

  function Start<V>(): History<V> { History(Empty(), [], 0) }

  function Entry<V>(s: History<V>, place: Place, value: V): Created<V>
  {
    Created(HandleFor(s.tree, place), place, value, s.generation, Warns(s.tree, place))
  }

  function Step<V>(s: History<V>, op: Op<V>): History<V>
  {
    match op
    case ResetOp => History(Reset(s.tree), s.log, s.generation + 1)
    case CreateOp(place, value) =>
      History(Create(s.tree, place, value), s.log + [Entry(s, place, value)], s.generation)
  }

  /** Runs operations; a `create` under a dead parent panics and ends the run. */
  function Exec<V>(s: History<V>, ops: seq<Op<V>>): History<V>
    decreases |ops|
  {
    if ops == [] || (ops[0].CreateOp? && !Live(s.tree, ops[0].place.parent)) then s
    else Exec(Step(s, ops[0]), ops[1..])
  }

  /** The handle last given to a place in a generation. */
  function LastGiven<V>(log: seq<Created<V>>, generation: int, place: Place): Option<Handle>
  {
    if log == [] then None
    else
      var e := log[|log| - 1];
      if e.generation == generation && e.place == place then Some(e.handle)
      else LastGiven(log[..|log| - 1], generation, place)
  }

  // ----- the facts, as predicates on the log -----

  /** A handle once issued is bound forever to one place. */
  ghost predicate BoundForever<V>(log: seq<Created<V>>)
  {
    forall i, j :: 0 <= i < j < |log| && log[i].handle == log[j].handle ==> log[i].place == log[j].place
  }

  /** No two creates of one generation return the same handle. */
  ghost predicate UniqueInGeneration<V>(log: seq<Created<V>>)
  {
    forall i, j :: 0 <= i < j < |log| && log[i].generation == log[j].generation ==> log[i].handle != log[j].handle
  }

  predicate CreatedIn<V>(log: seq<Created<V>>, generation: int, place: Place)
  {
    exists i :: 0 <= i < |log| && log[i].generation == generation && log[i].place == place
  }

  /** Whether the place of an entry was created before in the same generation. */
  predicate CreatedBefore<V>(log: seq<Created<V>>, j: nat)
    requires j < |log|
  {
    CreatedIn(log[..j], log[j].generation, log[j].place)
  }

  /** The handle that the place of an entry last had in the generation before. */
  function HadBefore<V>(log: seq<Created<V>>, j: nat): Option<Handle>
    requires j < |log|
  {
    LastGiven(log[..j], log[j].generation - 1, log[j].place)
  }

  /** The warning is given exactly for a place that has been created before in the same generation and
      also had a handle in the previous one. */
  predicate WarnsAt<V>(log: seq<Created<V>>, j: nat)
    requires j < |log|
  {
    log[j].warned <==> CreatedBefore(log, j) && HadBefore(log, j).Some?
  }

  /** The first time a place is created again, it gets the handle it last had. */
  predicate ReturnsAt<V>(log: seq<Created<V>>, j: nat)
    requires j < |log|
  {
    !CreatedBefore(log, j) && HadBefore(log, j).Some? ==> log[j].handle == HadBefore(log, j).value
  }

  /** The parent of what is created was itself created since the last reset. */
  predicate ParentAt<V>(log: seq<Created<V>>, j: nat)
    requires j < |log|
  {
    var parent := log[j].place.parent;
    parent.Some? ==> exists i :: 0 <= i < j && log[i].generation == log[j].generation && log[i].handle == parent.value
  }

  ghost predicate EachEntry<V>(log: seq<Created<V>>)
  {
    forall j :: 0 <= j < |log| ==> WarnsAt(log, j) && ReturnsAt(log, j) && ParentAt(log, j)
  }

  ghost predicate Facts<V>(log: seq<Created<V>>)
  {
    BoundForever(log) && UniqueInGeneration(log) && EachEntry(log)
  }

  // ----- the invariant that carries them -----

  ghost predicate Describes<V>(s: History<V>)
  {
    && Inv(s.tree)
    && InOrder(s)
    && Resolves(s)
    && Recalls(s.tree.current, s.log, s.generation)
    && Recalls(s.tree.previous, s.log, s.generation - 1)
  }

  ghost predicate InOrder<V>(s: History<V>)
  {
    && (forall i :: 0 <= i < |s.log| ==> s.log[i].handle <= s.tree.last && s.log[i].generation <= s.generation)
    && (forall i, j :: 0 <= i < j < |s.log| ==> s.log[i].generation <= s.log[j].generation)
  }

  /** What is live is what was created since the last reset, with the place and value it was created with. */
  ghost predicate Resolves<V>(s: History<V>)
  {
    && (forall i :: 0 <= i < |s.log| && s.log[i].generation == s.generation ==>
          s.log[i].handle in s.tree.objects && s.tree.objects[s.log[i].handle] == Object(s.log[i].place, s.log[i].value))
    && (forall h :: h in s.tree.objects ==>
          exists i :: 0 <= i < |s.log| && s.log[i].generation == s.generation && s.log[i].handle == h)
  }

  /** The map holds the handle last given to each place in a generation. */
  ghost predicate Recalls<V>(m: map<Place, Handle>, log: seq<Created<V>>, generation: int)
  {
    forall p {:trigger Lookup(m, p)} :: Lookup(m, p) == LastGiven(log, generation, p)
  }

  function Lookup(m: map<Place, Handle>, p: Place): Option<Handle>
  {
    if p in m then Some(m[p]) else None
  }

  lemma {:induction false} LastGivenIsLogged<V>(log: seq<Created<V>>, generation: int, place: Place) returns (i: nat)
    requires LastGiven(log, generation, place).Some?
    ensures i < |log| && log[i].generation == generation && log[i].place == place
    ensures log[i].handle == LastGiven(log, generation, place).value
  {
    var e := log[|log| - 1];
    if e.generation == generation && e.place == place {
      i := |log| - 1;
    } else {
      i := LastGivenIsLogged(log[..|log| - 1], generation, place);
    }
  }

  /** Entries of other generations at the end of the log do not matter. */
  lemma {:induction false} LastGivenEarlier<V>(log: seq<Created<V>>, n: nat, generation: int, place: Place)
    requires n <= |log| && forall i :: n <= i < |log| ==> log[i].generation != generation
    ensures LastGiven(log, generation, place) == LastGiven(log[..n], generation, place)
    decreases |log|
  {
    if n < |log| {
      LastGivenEarlier(log[..|log| - 1], n, generation, place);
      assert log[..|log| - 1][..n] == log[..n];
    } else {
      assert log[..n] == log;
    }
  }

  lemma ResetDescribes<V>(s: History<V>)
    requires Describes(s)
    ensures Describes(Step(s, ResetOp))
  {
    forall p
      ensures Lookup(map[], p) == LastGiven(s.log, s.generation + 1, p)
    {
      LastGivenEarlier(s.log, 0, s.generation + 1, p);
    }
  }

  lemma CreateRecalls<V>(s: History<V>, place: Place, value: V)
    requires Describes(s)
    ensures var s' := Step(s, CreateOp(place, value));
      Recalls(s'.tree.current, s'.log, s.generation) && Recalls(s'.tree.previous, s'.log, s.generation - 1)
  {
    var e, s' := Entry(s, place, value), Step(s, CreateOp(place, value));
    forall p
      ensures Lookup(s'.tree.current, p) == LastGiven(s'.log, s.generation, p)
      ensures Lookup(s'.tree.previous, p) == LastGiven(s'.log, s.generation - 1, p)
    {
      assert Lookup(s.tree.current, p) == LastGiven(s.log, s.generation, p);
      assert Lookup(s.tree.previous, p) == LastGiven(s.log, s.generation - 1, p);
    }
  }

  lemma CreateResolves<V>(s: History<V>, place: Place, value: V)
    requires Describes(s) && HandleFor(s.tree, place) !in s.tree.objects
    ensures Resolves(Step(s, CreateOp(place, value)))
  {
    var e, s' := Entry(s, place, value), Step(s, CreateOp(place, value));
    assert s'.log[|s.log|] == e;
    forall h | h in s'.tree.objects
      ensures exists i :: 0 <= i < |s'.log| && s'.log[i].generation == s'.generation && s'.log[i].handle == h
    {
      if h != e.handle {
        var i :| 0 <= i < |s.log| && s.log[i].generation == s.generation && s.log[i].handle == h;
        assert s'.log[i] == s.log[i];
      }
    }
  }

  lemma CreateDescribes<V>(s: History<V>, place: Place, value: V)
    requires Describes(s) && Live(s.tree, place.parent)
    ensures Describes(Step(s, CreateOp(place, value)))
  {
    CreateKeepsInv(s.tree, place, value);
    CreateRecalls(s, place, value);
    CreateResolves(s, place, value);
    CreateInOrder(s, place, value);
  }

  lemma {:induction false} CreateInOrder<V>(s: History<V>, place: Place, value: V)
    requires InOrder(s) && Inv(s.tree)
    ensures InOrder(Step(s, CreateOp(place, value)))
  {
    var t := Step(s, CreateOp(place, value));
    assert forall i :: 0 <= i < |s.log| ==> t.log[i] == s.log[i];
  }

  /** How the handle of a new entry relates to the entries before it. */
  lemma NewEntry<V>(s: History<V>, place: Place, i: nat)
    requires Describes(s) && BoundForever(s.log) && i < |s.log|
    ensures s.log[i].generation == s.generation ==> s.log[i].handle != HandleFor(s.tree, place)
    ensures s.log[i].handle == HandleFor(s.tree, place) ==> s.log[i].place == place
  {
    if Reuses(s.tree, place) && s.log[i].handle == s.tree.previous[place] {
      assert Lookup(s.tree.previous, place).Some?;
      var k := LastGivenIsLogged(s.log, s.generation - 1, place);
      assert i < k || i == k || k < i;
    }
  }

  // ----- the warning -----

  lemma WarnedBefore<V>(s: History<V>, place: Place)
    requires Describes(s) && BoundForever(s.log) && Warns(s.tree, place)
    ensures CreatedIn(s.log, s.generation, place)
  {
    var h := s.tree.previous[place];
    assert Lookup(s.tree.previous, place) == Some(h);
    var i :| 0 <= i < |s.log| && s.log[i].generation == s.generation && s.log[i].handle == h;
    var k := LastGivenIsLogged(s.log, s.generation - 1, place);
    assert i < k || i == k || k < i;
  }

  lemma {:induction false} FirstCreated<V>(log: seq<Created<V>>, generation: int, place: Place) returns (i: nat)
    requires CreatedIn(log, generation, place)
    ensures i < |log| && log[i].generation == generation && log[i].place == place
    ensures !CreatedIn(log[..i], generation, place)
    decreases |log|
  {
    i :| 0 <= i < |log| && log[i].generation == generation && log[i].place == place;
    if CreatedIn(log[..i], generation, place) {
      var k := FirstCreated(log[..i], generation, place);
      assert log[..i][..k] == log[..k];
      i := k;
    }
  }

  /** Created twice since the reset, with a handle from before it: the first of the two took that handle. */
  lemma DuplicateWarns<V>(s: History<V>, place: Place)
    requires Describes(s) && EachEntry(s.log) && place in s.tree.previous && CreatedIn(s.log, s.generation, place)
    ensures Warns(s.tree, place)
  {
    var i := FirstCreated(s.log, s.generation, place);
    assert Lookup(s.tree.previous, place) == LastGiven(s.log, s.generation - 1, place);
    LastGivenEarlier(s.log, i, s.generation - 1, place);
    assert ReturnsAt(s.log, i);
  }

  /** When `create` warns, in terms of what was created before. */
  lemma WarnsIff<V>(s: History<V>, place: Place)
    requires Describes(s) && Facts(s.log)
    ensures Warns(s.tree, place) <==>
      CreatedIn(s.log, s.generation, place) && LastGiven(s.log, s.generation - 1, place).Some?
  {
    assert Lookup(s.tree.previous, place) == LastGiven(s.log, s.generation - 1, place);
    if Warns(s.tree, place) {
      WarnedBefore(s, place);
    } else if place in s.tree.previous && CreatedIn(s.log, s.generation, place) {
      DuplicateWarns(s, place);
    }
  }

  // ----- the facts, step by step -----

  lemma NewReturns<V>(s: History<V>, place: Place, value: V)
    requires Describes(s) && BoundForever(s.log)
    ensures ReturnsAt(Step(s, CreateOp(place, value)).log, |s.log|)
  {
    assert Step(s, CreateOp(place, value)).log[..|s.log|] == s.log;
    assert Lookup(s.tree.previous, place) == LastGiven(s.log, s.generation - 1, place);
    if Warns(s.tree, place) { WarnedBefore(s, place); }
  }

  lemma NewEntryFacts<V>(s: History<V>, place: Place, value: V)
    requires Describes(s) && Facts(s.log) && Live(s.tree, place.parent)
    ensures var log := Step(s, CreateOp(place, value)).log;
      WarnsAt(log, |s.log|) && ReturnsAt(log, |s.log|) && ParentAt(log, |s.log|)
  {
    var log := Step(s, CreateOp(place, value)).log;
    assert log[..|s.log|] == s.log;
    WarnsIff(s, place);
    NewReturns(s, place, value);
    if place.parent.Some? {
      var i :| 0 <= i < |s.log| && s.log[i].generation == s.generation && s.log[i].handle == place.parent.value;
      assert log[i] == s.log[i];
    }
  }

  lemma OldEntryFacts<V>(log: seq<Created<V>>, e: Created<V>, j: nat)
    requires j < |log| && WarnsAt(log, j) && ReturnsAt(log, j) && ParentAt(log, j)
    ensures WarnsAt(log + [e], j) && ReturnsAt(log + [e], j) && ParentAt(log + [e], j)
  {
    assert (log + [e])[..j] == log[..j] && (log + [e])[j] == log[j];
    if log[j].place.parent.Some? {
      var i :| 0 <= i < j && log[i].generation == log[j].generation && log[i].handle == log[j].place.parent.value;
      assert (log + [e])[i] == log[i];
    }
  }

  lemma CreateFacts<V>(s: History<V>, place: Place, value: V)
    requires Describes(s) && Facts(s.log) && Live(s.tree, place.parent)
    ensures Facts(Step(s, CreateOp(place, value)).log)
  {
    var n, e := |s.log|, Entry(s, place, value);
    var log := s.log + [e];
    forall i | 0 <= i < n
      ensures log[i].generation == log[n].generation ==> log[i].handle != log[n].handle
      ensures log[i].handle == log[n].handle ==> log[i].place == log[n].place
    {
      NewEntry(s, place, i);
    }
    forall j | 0 <= j < |log|
      ensures WarnsAt(log, j) && ReturnsAt(log, j) && ParentAt(log, j)
    {
      if j == n { NewEntryFacts(s, place, value); } else { OldEntryFacts(s.log, e, j); }
    }
  }

  lemma {:induction false} ExecFacts<V>(s: History<V>, ops: seq<Op<V>>)
    requires Describes(s) && Facts(s.log)
    ensures Describes(Exec(s, ops)) && Facts(Exec(s, ops).log)
    decreases |ops|
  {
    if ops != [] && !(ops[0].CreateOp? && !Live(s.tree, ops[0].place.parent)) {
      match ops[0] {
        case ResetOp => ResetDescribes(s);
        case CreateOp(place, value) =>
          CreateDescribes(s, place, value);
          CreateFacts(s, place, value);
      }
      ExecFacts(Step(s, ops[0]), ops[1..]);
    }
  }

  // ----- key paths -----

  /** The last entry before position `n` that was given a handle. */
  function EntryOf<V>(log: seq<Created<V>>, n: nat, h: Handle): (i: Option<nat>)
    requires n <= |log|
    ensures i.Some? ==> i.value < n && log[i.value].handle == h
    ensures i.None? ==> forall k :: 0 <= k < n ==> log[k].handle != h
  {
    if n == 0 then None else if log[n - 1].handle == h then Some(n - 1) else EntryOf(log, n - 1, h)
  }

  /** The keys that lead from a root to what an entry created. */
  function KeyPath<V>(log: seq<Created<V>>, j: nat): seq<string>
    requires j < |log|
    decreases j
  {
    var place := log[j].place;
    if place.parent.None? || EntryOf(log, j, place.parent.value).None? then [place.key]
    else KeyPath(log, EntryOf(log, j, place.parent.value).value) + [place.key]
  }

  /** A handle stands for one key path, whenever it is given. */
  lemma {:induction false} OnePath<V>(log: seq<Created<V>>, i: nat, j: nat)
    requires Facts(log) && i < |log| && j < |log| && log[i].handle == log[j].handle
    ensures KeyPath(log, i) == KeyPath(log, j)
    decreases i + j
  {
    assert i < j || i == j || j < i;
    assert log[i].place == log[j].place;
    var parent := log[i].place.parent;
    if parent.Some? {
      assert ParentAt(log, i) && ParentAt(log, j);
      OnePath(log, EntryOf(log, i, parent.value).value, EntryOf(log, j, parent.value).value);
    }
  }

  // ----- every run -----

  /** Over every run from the empty tree: handles keep their meaning for ever, are never given twice
      in a generation and come back when their place does, and it is known when there is a warning. */
  lemma EveryRun<V>(ops: seq<Op<V>>)
    ensures var log := Exec(Start(), ops).log;
      && Facts(log)
      && (forall i, j :: 0 <= i < |log| && 0 <= j < |log| && log[i].handle == log[j].handle ==>
            KeyPath(log, i) == KeyPath(log, j))
  {
    ExecFacts(Start(), ops);
    var log := Exec(Start(), ops).log;
    forall i, j | 0 <= i < |log| && 0 <= j < |log| && log[i].handle == log[j].handle
      ensures KeyPath(log, i) == KeyPath(log, j)
    {
      OnePath(log, i, j);
    }
  }

  /** Over every run, a handle resolves exactly when it was given since the last reset, and then to the
      place and the value of the one `create` that gave it. */
  lemma WhatResolves<V>(ops: seq<Op<V>>, h: Handle, found: Object<V>)
    ensures var s := Exec(Start(), ops);
      h in s.tree.objects && s.tree.objects[h] == found <==>
        exists i :: 0 <= i < |s.log| && s.log[i].generation == s.generation && s.log[i].handle == h
                    && Object(s.log[i].place, s.log[i].value) == found
  {
    ExecFacts(Start(), ops);
    var s := Exec(Start(), ops);
    if h in s.tree.objects {
      var i :| 0 <= i < |s.log| && s.log[i].generation == s.generation && s.log[i].handle == h;
      assert s.tree.objects[h] == Object(s.log[i].place, s.log[i].value);
    }
  }

  /** The shortest run with a duplicate that is not reported: there was no generation before. */
  lemma SilentDuplicate<V>(key: string, v: V, w: V)
    ensures var place := Place(None, key);
      var log := Exec(Start(), [CreateOp(place, v), CreateOp(place, w)]).log;
      |log| == 2 && CreatedBefore(log, 1) && !log[1].warned && log[0].handle != log[1].handle
  {
    var place := Place(None, key);
    var once := Step(Start(), CreateOp(place, v));
    var twice := Step(once, CreateOp(place, w));
    assert [CreateOp(place, v), CreateOp(place, w)][1..] == [CreateOp(place, w)];
    assert Exec(twice, []) == twice;
    assert Exec(once, [CreateOp(place, w)]) == twice;
    assert twice.log[..1] == once.log && once.log[0].place == place;
  }
}
