/** How requests get from the client to their handlers and how they are cancelled on the way:
    `cancellation_filter` and `handle_request` of src/codelldb/src/debug_session.rs and the tokens
    of src/codelldb/src/cancellation.rs.

    The filter runs on its own task, concurrently with the session that handles requests, so this
    is a state machine whose actions may interleave freely. A token has one receiver, which is never
    cloned: `alive` holds the requests whose receiver count is one. */
module RequestPipeline {
  import opened Options

  type Seq = nat

  datatype Kind =
    | Cancel(target: Option<Seq>)
    | Cancellable  // scopes, variables, evaluate
    | Resume       // continue, pause, next, stepIn, stepOut, stepBack, reverseContinue, terminate, disconnect
    | Other
    | Unknown

  datatype Request = Request(id: Seq, kind: Kind)

  /** Where the filter is in its treatment of the request it received last. */
  datatype Phase = Idle | Deciding | Sweeping(todo: set<Seq>) | Forwarding

  datatype State = State(
    received: seq<Request>,      // all requests taken by the filter, in order
    phase: Phase,
    pending: set<Seq>,           // keys of pending_requests
    cancellable: set<Seq>,       // cancellable_requests
    flagged: set<Seq>,           // tokens on which cancellation was requested
    alive: set<Seq>,             // tokens that have a receiver
    forwarded: seq<Request>,     // everything sent to the session so far
    queue: seq<Request>,         // the part of it that has not been dequeued
    running: Option<Request>,    // the request whose handler is executing
    held: Option<Seq>,           // whose receiver is in current_cancellation
    entered: set<Seq>,           // requests whose handler was called
    futures: set<Request>,       // asynchronous responses being awaited
    answers: seq<Request>)       // the requests that were responded to, in that order

  datatype Action =
    | Receive(r: Request, keepPending: set<Seq>, keepCancellable: set<Seq>)
    | Decide
    | Sweep(x: Seq)
    | Forward
    | Dequeue
    | HandlerReturns(async: bool)
    | FutureResolves(r: Request)

  const START := State([], Idle, {}, {}, {}, {}, [], [], None, None, {}, {}, [])

  /** Pruning reads receiver counts one after the other while handlers are dropping receivers: it keeps
      at least the tokens that still have one when it is done. */
  predicate PrunedTo(from: set<Seq>, to: set<Seq>, alive: set<Seq>)
  {
    to <= from && forall x :: x in from && x in alive ==> x in to
  }

  predicate Enabled(s: State, a: Action)
  {
    match a
    case Receive(r, keepPending, keepCancellable) =>
      && s.phase.Idle? && (forall i :: 0 <= i < |s.received| ==> s.received[i].id != r.id)
      && PrunedTo(s.pending, keepPending, s.alive) && PrunedTo(s.cancellable, keepCancellable, s.alive)
    case Decide => s.phase.Deciding? && s.received != []
    case Sweep(x) => s.phase.Sweeping? && x in s.phase.todo
    case Forward => (s.phase.Forwarding? || s.phase == Sweeping({})) && s.received != []
    case Dequeue => s.running.None? && s.queue != []
    case HandlerReturns(_) => s.running.Some?
    case FutureResolves(r) => r in s.futures
  }

  function OnReceive(s: State, r: Request, keepPending: set<Seq>, keepCancellable: set<Seq>): State
  {
    s.(received := s.received + [r], phase := Deciding, pending := keepPending, cancellable := keepCancellable,
       alive := s.alive + {r.id})
  }

  function OnDecide(s: State): State
    requires s.received != []
  {
    var r := s.received[|s.received| - 1];
    match r.kind
    case Cancel(target) =>
      var hit := if target.Some? && target.value in s.pending then {target.value} else {};
      s.(phase := Idle, pending := s.pending - hit, flagged := s.flagged + hit, alive := s.alive - {r.id})
    case Cancellable => s.(phase := Forwarding, cancellable := s.cancellable + {r.id})
    case Resume => s.(phase := Sweeping(s.cancellable))
    case Other => s.(phase := Forwarding)
    case Unknown => s.(phase := Forwarding)
  }

  function OnForward(s: State): State
    requires s.received != []
  {
    var r := s.received[|s.received| - 1];
    s.(phase := Idle, pending := s.pending + {r.id}, forwarded := s.forwarded + [r], queue := s.queue + [r])
  }

  /** `handle_request` up to the call of the handler. Storing the receiver drops the one that was stored. */
  function OnDequeue(s: State): State
    requires s.queue != []
  {
    var r := s.queue[0];
    var t := s.(queue := s.queue[1..]);
    if r.id in s.flagged then t.(answers := s.answers + [r], alive := s.alive - {r.id})
    else
      var u := t.(held := Some(r.id), alive := if s.held.Some? then s.alive - {s.held.value} else s.alive);
      if r.kind.Unknown? then u.(answers := s.answers + [r])
      else u.(running := Some(r), entered := s.entered + {r.id})
  }

  function OnReturn(s: State, async: bool): State
    requires s.running.Some?
  {
    var r := s.running.value;
    var t := s.(running := None, held := None, alive := s.alive - {r.id});
    if async then t.(futures := s.futures + {r}) else t.(answers := s.answers + [r])
  }

  function Step(s: State, a: Action): State
    requires Enabled(s, a)
  {
    match a
    case Receive(r, keepPending, keepCancellable) => OnReceive(s, r, keepPending, keepCancellable)
    case Decide => OnDecide(s)
    case Sweep(x) => s.(phase := Sweeping(s.phase.todo - {x}), flagged := s.flagged + {x})
    case Forward => OnForward(s)
    case Dequeue => OnDequeue(s)
    case HandlerReturns(async) => OnReturn(s, async)
    case FutureResolves(r) => s.(futures := s.futures - {r}, answers := s.answers + [r])
  }

  predicate Possible(s: State, actions: seq<Action>)
    decreases |actions|
  {
    actions == [] || (Enabled(s, actions[0]) && Possible(Step(s, actions[0]), actions[1..]))
  }

  function Exec(s: State, actions: seq<Action>): State
    requires Possible(s, actions)
    decreases |actions|
  {
    if actions == [] then s else Exec(Step(s, actions[0]), actions[1..])
  }

  // ----- requests are conserved -----

  ghost function InFlight(s: State): multiset<Request>
  {
    multiset(s.queue) + (if s.running.Some? then multiset{s.running.value} else multiset{}) + multiset(s.futures)
  }

  /** Every request sent to the session is waiting, being handled, awaited or answered. */
  ghost predicate Conserved(s: State)
  {
    multiset(s.forwarded) == InFlight(s) + multiset(s.answers)
  }

  /** Number of received requests that the filter has finished with. */
  function DoneCount(s: State): nat
  {
    if s.phase.Idle? || s.received == [] then |s.received| else |s.received| - 1
  }

  /** Requests have distinct ids, and those sent to the session were received, are not `cancel`
      requests, and were sent once. */
  ghost predicate Distinct(s: State)
  {
    && (!s.phase.Idle? ==> s.received != [])
    && (forall i, j :: 0 <= i < j < |s.received| ==> s.received[i].id != s.received[j].id)
    && (forall r :: r in s.forwarded <==> r in s.received[..DoneCount(s)] && !r.kind.Cancel?)
    && (forall r :: multiset(s.forwarded)[r] <= 1)
    && (s.phase.Forwarding? || s.phase.Sweeping? ==> !s.received[|s.received| - 1].kind.Cancel?)
  }

  lemma NotYetAwaited(s: State)
    requires Conserved(s) && Distinct(s) && s.running.Some?
    ensures s.running.value !in s.futures
  {
    var r := s.running.value;
    assert multiset(s.forwarded)[r] <= 1;
    assert multiset(s.forwarded)[r] == InFlight(s)[r] + multiset(s.answers)[r];
  }

  lemma DequeueConserves(s: State)
    requires s.queue != [] && s.running.None? && Conserved(s)
    ensures Conserved(OnDequeue(s))
  {
    assert s.queue == [s.queue[0]] + s.queue[1..];
  }

  lemma ReturnConserves(s: State, async: bool)
    requires Conserved(s) && Distinct(s) && s.running.Some?
    ensures Conserved(OnReturn(s, async))
  {
    NotYetAwaited(s);
  }

  lemma ResolveConserves(s: State, r: Request)
    requires Conserved(s) && r in s.futures
    ensures Conserved(s.(futures := s.futures - {r}, answers := s.answers + [r]))
  {
  }

  lemma StepConserves(s: State, a: Action)
    requires Enabled(s, a) && Conserved(s) && Distinct(s)
    ensures Conserved(Step(s, a))
  {
    match a
    case Receive(_, _, _) =>
    case Decide =>
    case Sweep(_) =>
    case Forward =>
    case Dequeue => DequeueConserves(s);
    case HandlerReturns(async) => ReturnConserves(s, async);
    case FutureResolves(r) => ResolveConserves(s, r);
  }

  lemma DecideDistinct(s: State)
    requires Enabled(s, Decide) && Distinct(s)
    ensures Distinct(OnDecide(s))
  {
    var n := |s.received| - 1;
    var r := s.received[n];
    assert s.received[..n + 1] == s.received[..n] + [r];
    assert OnDecide(s).received == s.received && OnDecide(s).forwarded == s.forwarded;
  }

  lemma SameRequestsDistinct(s: State, t: State)
    requires Distinct(s) && t.received == s.received && t.forwarded == s.forwarded
    requires t.phase == s.phase || (t.phase.Sweeping? && s.phase.Sweeping?)
    ensures Distinct(t)
  {
    assert DoneCount(t) == DoneCount(s);
  }

  lemma StepDistinct(s: State, a: Action)
    requires Enabled(s, a) && Distinct(s)
    ensures Distinct(Step(s, a))
  {
    match a
    case Receive(r, p, c) =>
    case Decide => DecideDistinct(s);
    case Forward =>
    case _ => SameRequestsDistinct(s, Step(s, a));
  }

  // ----- tokens live as long as their requests -----

  /** A request that the filter or the session has not finished with still has its receiver. */
  ghost predicate Tokens(s: State)
  {
    && (!s.phase.Idle? && s.received != [] ==> s.received[|s.received| - 1].id in s.alive)
    && (forall r :: r in s.queue ==> r.id in s.alive)
    && (s.running.Some? ==> s.running.value.id in s.alive && s.held == Some(s.running.value.id))
    && (s.held.Some? ==> exists r :: HeldBy(s, r))
  }

  /** The stored receiver belongs to the running request or, after an unknown one, to one that was answered. */
  predicate HeldBy(s: State, r: Request)
  {
    s.held == Some(r.id) && (s.running == Some(r) || r in s.answers)
  }

  lemma KnownRequest(s: State, r: Request)
    requires Conserved(s) && Distinct(s)
    requires r in s.queue || s.running == Some(r) || r in s.futures || r in s.answers
    ensures r in s.forwarded && r in s.received[..DoneCount(s)] && r in s.received
  {
    assert r in multiset(s.forwarded) by {
      assert multiset(s.forwarded)[r] == InFlight(s)[r] + multiset(s.answers)[r];
    }
  }

  /** A request is in one place only: one that waits is neither running nor answered. */
  lemma OnePlace(s: State, r: Request)
    requires Conserved(s) && Distinct(s) && r in s.queue
    ensures s.running != Some(r) && r !in s.answers && r !in s.futures
    ensures multiset(s.queue)[r] == 1
  {
    assert multiset(s.forwarded)[r] <= 1;
    assert multiset(s.forwarded)[r] == InFlight(s)[r] + multiset(s.answers)[r];
  }

  lemma HeldIsNotQueued(s: State, r: Request)
    requires Conserved(s) && Distinct(s) && Tokens(s) && s.held.Some? && r in s.queue
    ensures r.id != s.held.value
  {
    var h :| HeldBy(s, h);
    KnownRequest(s, h);
    KnownRequest(s, r);
    OnePlace(s, r);
  }

  lemma HeldIsNotCurrent(s: State)
    requires Conserved(s) && Distinct(s) && Tokens(s) && s.held.Some? && !s.phase.Idle?
    ensures s.received[|s.received| - 1].id != s.held.value
  {
    var h :| HeldBy(s, h);
    KnownRequest(s, h);
    var i :| 0 <= i < DoneCount(s) && s.received[i] == h;
  }

  lemma QueuedIsNotCurrent(s: State, r: Request)
    requires Conserved(s) && Distinct(s) && !s.phase.Idle?
    requires r in s.queue || s.running == Some(r)
    ensures s.received[|s.received| - 1].id != r.id
  {
    KnownRequest(s, r);
    var i :| 0 <= i < DoneCount(s) && s.received[i] == r;
  }

  lemma OthersDiffer(s: State, r: Request, q: Request)
    requires Conserved(s) && Distinct(s) && r in s.queue && (q in s.queue || s.running == Some(q)) && q != r
    ensures q.id != r.id
  {
    KnownRequest(s, r);
    KnownRequest(s, q);
  }

  lemma RestDiffers(s: State, q: Request)
    requires Conserved(s) && Distinct(s) && s.queue != [] && q in s.queue[1..]
    ensures q in s.queue && q != s.queue[0] && q.id != s.queue[0].id
  {
    OnePlace(s, s.queue[0]);
    assert s.queue == [s.queue[0]] + s.queue[1..];
    assert multiset(s.queue)[q] == multiset([s.queue[0]])[q] + multiset(s.queue[1..])[q];
    OthersDiffer(s, s.queue[0], q);
  }

  lemma DequeueTokens(s: State)
    requires Conserved(s) && Distinct(s) && Tokens(s) && Enabled(s, Dequeue)
    ensures Tokens(OnDequeue(s))
  {
    var r, t := s.queue[0], OnDequeue(s);
    if !s.phase.Idle? {
      QueuedIsNotCurrent(s, r);
      if s.held.Some? { HeldIsNotCurrent(s); }
    }
    forall q | q in t.queue
      ensures q.id in t.alive
    {
      RestDiffers(s, q);
      if s.held.Some? { HeldIsNotQueued(s, q); }
    }
    if s.held.Some? { HeldIsNotQueued(s, r); }
    if r.id in s.flagged {
      if s.held.Some? {
        var h :| HeldBy(s, h);
        assert HeldBy(t, h);
      }
    } else {
      assert HeldBy(t, r);
    }
  }

  lemma ReturnTokens(s: State, async: bool)
    requires Conserved(s) && Distinct(s) && Tokens(s) && s.running.Some?
    ensures Tokens(OnReturn(s, async))
  {
    var r := s.running.value;
    if !s.phase.Idle? { QueuedIsNotCurrent(s, r); }
    forall q | q in s.queue
      ensures q.id != r.id
    {
      OnePlace(s, q);
      OthersDiffer(s, q, r);
    }
  }

  lemma ForwardTokens(s: State)
    requires Tokens(s) && Enabled(s, Forward)
    ensures Tokens(OnForward(s))
  {
    if s.held.Some? {
      var h :| HeldBy(s, h);
      assert HeldBy(OnForward(s), h);
    }
  }

  lemma DecideTokens(s: State)
    requires Conserved(s) && Distinct(s) && Tokens(s) && Enabled(s, Decide)
    ensures Tokens(OnDecide(s))
  {
    if s.held.Some? {
      var h :| HeldBy(s, h);
      assert HeldBy(OnDecide(s), h);
    }
    forall q | q in s.queue || s.running == Some(q)
      ensures q.id != s.received[|s.received| - 1].id
    {
      QueuedIsNotCurrent(s, q);
    }
  }

  lemma StepTokens(s: State, a: Action)
    requires Enabled(s, a) && Conserved(s) && Distinct(s) && Tokens(s)
    ensures Tokens(Step(s, a))
  {
    match a
    case Decide => DecideTokens(s);
    case Forward => ForwardTokens(s);
    case Dequeue => DequeueTokens(s);
    case HandlerReturns(async) => ReturnTokens(s, async);
    case _ =>
      if s.held.Some? {
        var h :| HeldBy(s, h);
        assert HeldBy(Step(s, a), h);
      }
  }

  // ----- what gets flagged -----

  /** Some cancel request names the request, or it is a cancellable one and a later request resumes
      the debuggee. */
  ghost predicate Justified(rs: seq<Request>, x: Seq)
  {
    exists i, j :: 0 <= i < j < |rs| && rs[i].id == x && Cancels(rs[j].kind, rs[i])
  }

  predicate Cancels(k: Kind, r: Request)
  {
    k == Cancel(Some(r.id)) || (k.Resume? && r.kind.Cancellable?)
  }

  /** Number of received requests whose kind the filter has acted on. */
  function DecidedCount(s: State): nat
  {
    if s.phase.Deciding? && s.received != [] then |s.received| - 1 else |s.received|
  }

  /** Number of received requests that will flag nothing more. */
  function SweptCount(s: State): nat
  {
    if (s.phase.Deciding? || (s.phase.Sweeping? && s.phase.todo != {})) && s.received != []
    then |s.received| - 1 else |s.received|
  }

  ghost predicate HasRequest(rs: seq<Request>, n: nat, x: Seq, cancellable: bool)
    requires n <= |rs|
  {
    exists i :: 0 <= i < n && rs[i].id == x && (cancellable ==> rs[i].kind.Cancellable?)
  }

  /** The filter's collections hold only requests received before, and miss no cancellable request
      that still has a receiver. */
  ghost predicate Tracks(s: State)
  {
    && (!s.phase.Idle? ==> s.received != [])
    && (forall x :: x in s.pending ==> HasRequest(s.received, DoneCount(s), x, false))
    && (forall x :: x in s.cancellable ==> HasRequest(s.received, DecidedCount(s), x, true))
    && (s.phase.Sweeping? ==> s.received[|s.received| - 1].kind.Resume? && s.phase.todo <= s.cancellable)
    && (forall i :: 0 <= i < DecidedCount(s) && s.received[i].kind.Cancellable? && s.received[i].id in s.alive ==>
          s.received[i].id in s.cancellable)
  }

  ghost predicate Flags(s: State)
  {
    && (forall x :: x in s.flagged ==> Justified(s.received, x))
    && (s.phase.Sweeping? ==> forall i :: 0 <= i < |s.received| - 1 && s.received[i].kind.Cancellable? ==>
          Reached(s, s.received[i].id) || s.received[i].id in s.phase.todo)
    && (forall i, j :: 0 <= i < j < SweptCount(s) && s.received[i].kind.Cancellable? && s.received[j].kind.Resume? ==>
          Reached(s, s.received[i].id))
  }

  /** Cancellation was requested, or the handler is done and has let go of its receiver. */
  predicate Reached(s: State, x: Seq)
  {
    x in s.flagged || x !in s.alive
  }

  lemma MoreRequests(rs: seq<Request>, n: nat, x: Seq, c: bool, r: Request, m: nat)
    requires n <= |rs| && HasRequest(rs, n, x, c) && n <= m <= |rs| + 1
    ensures HasRequest(rs + [r], m, x, c)
  {
    var i :| 0 <= i < n && rs[i].id == x && (c ==> rs[i].kind.Cancellable?);
    assert (rs + [r])[i] == rs[i];
  }

  lemma StillRequest(rs: seq<Request>, n: nat, x: Seq, c: bool, m: nat)
    requires n <= m <= |rs| && HasRequest(rs, n, x, c)
    ensures HasRequest(rs, m, x, c)
  {
    var i :| 0 <= i < n && rs[i].id == x && (c ==> rs[i].kind.Cancellable?);
    assert i < m;
  }

  lemma ReceiveTracks(s: State, r: Request, p: set<Seq>, c: set<Seq>)
    requires Enabled(s, Receive(r, p, c)) && Tracks(s)
    ensures Tracks(OnReceive(s, r, p, c))
  {
    var t, n := OnReceive(s, r, p, c), |s.received|;
    forall x | x in t.pending
      ensures HasRequest(t.received, n, x, false)
    {
      MoreRequests(s.received, n, x, false, r, n);
    }
    forall x | x in t.cancellable
      ensures HasRequest(t.received, n, x, true)
    {
      MoreRequests(s.received, n, x, true, r, n);
    }
    forall i | 0 <= i < n && t.received[i].kind.Cancellable? && t.received[i].id in t.alive
      ensures t.received[i].id in t.cancellable
    {
      assert t.received[i] == s.received[i];
      assert s.received[i].id != r.id;
    }
  }

  lemma DecideTracks(s: State)
    requires Enabled(s, Decide) && Tracks(s)
    ensures Tracks(OnDecide(s))
  {
    var t, n := OnDecide(s), |s.received| - 1;
    var r := s.received[n];
    forall x | x in t.pending
      ensures HasRequest(t.received, DoneCount(t), x, false)
    {
      StillRequest(s.received, n, x, false, DoneCount(t));
    }
    forall x | x in t.cancellable
      ensures HasRequest(t.received, n + 1, x, true)
    {
      if x in s.cancellable {
        StillRequest(s.received, n, x, true, n + 1);
      } else {
        assert s.received[n].id == x;
      }
    }
  }

  lemma ForwardTracks(s: State)
    requires Enabled(s, Forward) && Tracks(s)
    ensures Tracks(OnForward(s))
  {
    var t, n := OnForward(s), |s.received| - 1;
    forall x | x in t.pending
      ensures HasRequest(t.received, n + 1, x, false)
    {
      if x in s.pending {
        StillRequest(s.received, n, x, false, n + 1);
      } else {
        assert s.received[n].id == x;
      }
    }
  }

  lemma StepTracks(s: State, a: Action)
    requires Enabled(s, a) && Tracks(s)
    ensures Tracks(Step(s, a))
  {
    match a
    case Receive(r, p, c) => ReceiveTracks(s, r, p, c);
    case Decide => DecideTracks(s);
    case Forward => ForwardTracks(s);
    case _ =>
      var t := Step(s, a);
      assert t.received == s.received && t.pending == s.pending && t.cancellable == s.cancellable && t.alive <= s.alive;
  }

  lemma MoreJustified(rs: seq<Request>, x: Seq, r: Request)
    requires Justified(rs, x)
    ensures Justified(rs + [r], x)
  {
    var i, j :| 0 <= i < j < |rs| && rs[i].id == x && Cancels(rs[j].kind, rs[i]);
    assert (rs + [r])[i] == rs[i] && (rs + [r])[j] == rs[j];
  }

  lemma ReceiveFlags(s: State, r: Request, p: set<Seq>, c: set<Seq>)
    requires Enabled(s, Receive(r, p, c)) && Flags(s)
    ensures Flags(OnReceive(s, r, p, c))
  {
    var t := OnReceive(s, r, p, c);
    forall x | x in t.flagged
      ensures Justified(t.received, x)
    {
      MoreJustified(s.received, x, r);
    }
    forall i, j | 0 <= i < j < |s.received| && t.received[i].kind.Cancellable? && t.received[j].kind.Resume?
      ensures Reached(t, t.received[i].id)
    {
      assert t.received[i] == s.received[i] && t.received[j] == s.received[j];
      assert Reached(s, s.received[i].id);
    }
  }

  /** The last request flags whatever it names or sweeps for a reason. */
  lemma LastJustifies(s: State, x: Seq, cancellable: bool)
    requires s.received != [] && HasRequest(s.received, |s.received| - 1, x, cancellable)
    requires var k := s.received[|s.received| - 1].kind; if cancellable then k.Resume? else k == Cancel(Some(x))
    ensures Justified(s.received, x)
  {
    var n := |s.received| - 1;
    var i :| 0 <= i < n && s.received[i].id == x && (cancellable ==> s.received[i].kind.Cancellable?);
    assert Cancels(s.received[n].kind, s.received[i]);
  }

  lemma DecideSweeps(s: State)
    requires Enabled(s, Decide) && Tracks(s) && Flags(s)
    ensures var t := OnDecide(s);
      forall i, j :: 0 <= i < j < SweptCount(t) && t.received[i].kind.Cancellable? && t.received[j].kind.Resume? ==>
        Reached(t, t.received[i].id)
  {
    var t, n := OnDecide(s), |s.received| - 1;
    assert t.received == s.received && s.flagged <= t.flagged && t.alive <= s.alive;
    forall i, j | 0 <= i < j < SweptCount(t) && t.received[i].kind.Cancellable? && t.received[j].kind.Resume?
      ensures Reached(t, t.received[i].id)
    {
      if j < n { assert Reached(s, s.received[i].id); }
    }
  }

  lemma DecideFlags(s: State)
    requires Enabled(s, Decide) && Tracks(s) && Flags(s)
    ensures Flags(OnDecide(s))
  {
    var t := OnDecide(s);
    var r := s.received[|s.received| - 1];
    if r.kind.Cancel? && r.kind.target.Some? && r.kind.target.value in s.pending {
      LastJustifies(s, r.kind.target.value, false);
    }
    assert t.received == s.received;
    DecideSweeps(s);
  }

  lemma SweepFlags(s: State, x: Seq)
    requires Enabled(s, Sweep(x)) && Tracks(s) && Flags(s)
    ensures Flags(Step(s, Sweep(x)))
  {
    var t, n := Step(s, Sweep(x)), |s.received| - 1;
    assert x in s.cancellable && HasRequest(s.received, n + 1, x, true);
    assert HasRequest(s.received, n, x, true) by {
      var i :| 0 <= i < n + 1 && s.received[i].id == x && s.received[i].kind.Cancellable?;
      assert i < n;
    }
    LastJustifies(s, x, true);
    forall i, j | 0 <= i < j < SweptCount(t) && t.received[i].kind.Cancellable? && t.received[j].kind.Resume?
      ensures Reached(t, t.received[i].id)
    {
      if j < n {
        assert Reached(s, s.received[i].id);
      } else {
        assert Reached(s, s.received[i].id) || s.received[i].id in s.phase.todo;
      }
    }
  }

  lemma SameFlags(s: State, t: State)
    requires Flags(s) && t.received == s.received && t.flagged == s.flagged
    requires SweptCount(t) == SweptCount(s) && (t.phase.Sweeping? ==> t.phase == s.phase) && t.alive <= s.alive
    ensures Flags(t)
  {
    assert forall x :: Reached(s, x) ==> Reached(t, x);
  }

  lemma StepFlags(s: State, a: Action)
    requires Enabled(s, a) && Tracks(s) && Flags(s)
    ensures Flags(Step(s, a))
  {
    match a
    case Receive(r, p, c) => ReceiveFlags(s, r, p, c);
    case Decide => DecideFlags(s);
    case Sweep(x) => SweepFlags(s, x);
    case _ => SameFlags(s, Step(s, a));
  }
}
