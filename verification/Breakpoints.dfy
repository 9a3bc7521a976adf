/** Bookkeeping of source breakpoints: `set_source_breakpoints` and `handle_breakpoint_event` of
    src/codelldb/src/debug_session/breakpoints.rs, against the target's own table of breakpoints. */
module Breakpoints {
  import opened Options

  type Id = nat

  /** One requested breakpoint. `unresolved` says that it has no location, in which case a transient
      breakpoint is created and deleted to find a hint for the user. */
  datatype Request = Request(line: int, condition: string, unresolved: bool)

  datatype Info = Info(condition: string)

  /** `live` and `next` belong to the target, which never reuses an id; `mine` are the ids of the source
      breakpoints created by the session, and `gone` those that were then removed by someone else. */
  datatype State = State(
    live: map<Id, int>,
    next: Id,
    infos: map<Id, Info>,
    source: map<string, map<int, Id>>,
    mine: set<Id>,
    gone: set<Id>)

  const START := State(map[], 1, map[], map[], {}, {})

  // ----- setBreakpoints -----

  function Existing(s: State, path: string): map<int, Id>
  {
    if path in s.source then s.source[path] else map[]
  }

  predicate StillLive(s: State, existing: map<int, Id>, line: int)
  {
    line in existing && existing[line] in s.live
  }

  function IdFor(s: State, existing: map<int, Id>, r: Request): Id
  {
    if StillLive(s, existing, r.line) then existing[r.line] else s.next
  }

  function PlaceOne(s: State, existing: map<int, Id>, r: Request): State
  {
    var id := IdFor(s, existing, r);
    var found := StillLive(s, existing, r.line);
    s.(live := if found then s.live else s.live[id := r.line],
       next := s.next + (if found then 0 else 1) + (if r.unresolved then 1 else 0),
       infos := s.infos[id := Info(r.condition)],
       mine := if found then s.mine else s.mine + {id})
  }

  datatype Placed = Placed(state: State, bps: map<int, Id>) | NoFileName(state: State)

  /** Finds or creates a breakpoint for each request. A path without a file name makes creation fail
      when breakpoints are set by file name. */
  function PlaceAll(s: State, existing: map<int, Id>, named: bool, reqs: seq<Request>, bps: map<int, Id>): Placed
    decreases |reqs|
  {
    if reqs == [] then Placed(s, bps)
    else if !named && !StillLive(s, existing, reqs[0].line) then NoFileName(s)
    else
      PlaceAll(PlaceOne(s, existing, reqs[0]), existing, named, reqs[1..],
               bps[reqs[0].line := IdFor(s, existing, reqs[0])])
  }

  function Dropped(existing: map<int, Id>, bps: map<int, Id>): set<Id>
  {
    set l | l in existing && l !in bps :: existing[l]
  }

  function SetSource(s: State, path: string, named: bool, reqs: seq<Request>): State
  {
    var existing := Existing(s, path);
    match PlaceAll(s, existing, named, reqs, map[])
    case NoFileName(t) => t.(source := t.source[path := existing])
    case Placed(t, bps) =>
      var d := Dropped(existing, bps);
      t.(live := t.live - d, infos := t.infos - d, source := t.source[path := bps])
  }

  predicate Succeeds(s: State, path: string, named: bool, reqs: seq<Request>)
  {
    PlaceAll(s, Existing(s, path), named, reqs, map[]).Placed?
  }

  /** `handle_breakpoint_event`: breakpoints that others add are tracked from then on, unless they are
      known or already deleted; removed ones are forgotten. */
  function OnAdded(s: State, id: Id): State
  {
    if id in s.infos || id !in s.live then s else s.(infos := s.infos[id := Info("")])
  }

  function OnRemoved(s: State, id: Id): State
  {
    s.(infos := s.infos - {id})
  }

  datatype EventKind = Added | LocationsChanged | Removed

  /** The reason given in the notification of the client. */
  datatype Notice = NewOne | ChangedOne | RemovedOne

  function OnEvent(s: State, kind: EventKind, id: Id): State
  {
    match kind
    case Added => OnAdded(s, id)
    case LocationsChanged => s
    case Removed => OnRemoved(s, id)
  }

  class Session {
    var live: map<Id, int>
    var next: Id
    var infos: map<Id, Info>
    var source: map<string, map<int, Id>>
    ghost var mine: set<Id>
    ghost var gone: set<Id>

    ghost function Abstract(): State
      reads this
    {
      State(live, next, infos, source, mine, gone)
    }

    constructor ()
      ensures Abstract() == START
    {
      live, next, infos, source, mine, gone := map[], 1, map[], map[], {}, {};
    }

    method PlaceRequest(existing: map<int, Id>, r: Request) returns (id: Id)
      modifies this
      ensures id == IdFor(old(Abstract()), existing, r)
      ensures Abstract() == PlaceOne(old(Abstract()), existing, r)
    {
      if r.line in existing && existing[r.line] in live {
        id := existing[r.line];
      } else {
        id := next;
        live, next := live[id := r.line], next + 1;
        mine := mine + {id};
      }
      if r.unresolved {
        next := next + 1;
      }
      infos := infos[id := Info(r.condition)];
    }

    method DropUnrequested(existing: map<int, Id>, bps: map<int, Id>)
      modifies this`live, this`infos
      ensures live == old(live) - Dropped(existing, bps)
      ensures infos == old(infos) - Dropped(existing, bps)
    {
      var lines := existing.Keys;
      ghost var done: set<int> := {};
      while lines != {}
        invariant lines + done == existing.Keys
        invariant live == old(live) - DroppedOf(existing, bps, done)
        invariant infos == old(infos) - DroppedOf(existing, bps, done)
        decreases lines
      {
        SomeLine(lines);
        var line :| line in lines;
        if line !in bps {
          live := live - {existing[line]};
          infos := infos - {existing[line]};
        }
        done := done + {line};
        lines := lines - {line};
      }
      assert DroppedOf(existing, bps, done) == Dropped(existing, bps);
    }

    /** The client is told of a change or removal exactly when the breakpoint was on record, and of a
        new one exactly when it is put on record. */
    method HandleBreakpointEvent(kind: EventKind, id: Id) returns (notice: Option<Notice>)
      modifies this`infos
      ensures Abstract() == OnEvent(old(Abstract()), kind, id)
      ensures infos - {id} == old(infos) - {id}
      ensures id in infos <==> if kind.Added? then id in old(infos) || id in live else id in old(infos) && !kind.Removed?
      ensures notice == Some(NewOne) <==> kind.Added? && id !in old(infos) && id in infos
      ensures notice == Some(ChangedOne) <==> kind.LocationsChanged? && id in infos
      ensures notice == Some(RemovedOne) <==> kind.Removed? && id in old(infos)
    {
      notice := None;
      match kind {
        case Added =>
          if id in infos || id !in live {
            return;
          }
          infos := infos[id := Info("")];
          notice := Some(NewOne);
        case LocationsChanged =>
          if id in infos { notice := Some(ChangedOne); }
        case Removed =>
          if id in infos {
            infos := infos - {id};
            notice := Some(RemovedOne);
          } else {
            assert infos - {id} == infos;
          }
      }
    }

    method SetSourceBreakpoints(path: string, named: bool, reqs: seq<Request>) returns (ok: bool)
      modifies this
      ensures Abstract() == SetSource(old(Abstract()), path, named, reqs)
      ensures ok == Succeeds(old(Abstract()), path, named, reqs)
    {
      var existing := if path in source then source[path] else map[];
      var bps: map<int, Id> := map[];
      for i := 0 to |reqs|
        invariant source == old(source)
        invariant PlaceAll(old(Abstract()), existing, named, reqs, map[]) ==
          PlaceAll(Abstract(), existing, named, reqs[i..], bps)
      {
        assert reqs[i..][0] == reqs[i] && reqs[i..][1..] == reqs[i + 1..];
        if !named && !(reqs[i].line in existing && existing[reqs[i].line] in live) {
          source := source[path := existing];
          return false;
        }
        var id := PlaceRequest(existing, reqs[i]);
        bps := bps[reqs[i].line := id];
      }
      DropUnrequested(existing, bps);
      source := source[path := bps];
      ok := true;
    }
  }

  function DroppedOf(existing: map<int, Id>, bps: map<int, Id>, lines: set<int>): set<Id>
  {
    set l | l in existing && l in lines && l !in bps :: existing[l]
  }

  lemma SomeLine(lines: set<int>)
    ensures lines == {} || exists l :: l in lines
  {
    if !exists l :: l in lines { assert lines == {}; }
  }

}
