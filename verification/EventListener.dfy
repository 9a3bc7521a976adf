/** Corking of debugger events (src/codelldb/src/debug_event_listener.rs): a polling thread waits for
    events without the lock and decides under the lock whether to forward them, while the session
    corks and uncorks at any time. */
module EventListener {
  import opened Options

  datatype SendResult = Sent | Full | Closed

  /** `got` is what the last wait returned (an event or a timeout) until it is dealt with. */
  datatype State<+E> = State(
    corked: bool,
    wasCorked: bool,
    got: Option<Option<E>>,
    stopped: bool,
    received: seq<E>,
    forwarded: seq<E>)

  datatype Action<+E> = Cork | Uncork | WaitReturns(event: Option<E>) | Process(result: SendResult)

  function Start<E>(): State<E> { State(false, false, None, false, [], []) }

  predicate Enabled<E>(s: State<E>, a: Action<E>)
  {
    match a
    case Cork => true
    case Uncork => true
    case WaitReturns(_) => s.got.None? && !s.stopped
    case Process(_) => s.got.Some? && !s.stopped
  }

  /** The event is offered to the channel. */
  predicate Offers<E>(s: State<E>)
  {
    s.got.Some? && s.got.value.Some? && !s.wasCorked
  }

  function Step<E>(s: State<E>, a: Action<E>): State<E>
    requires Enabled(s, a)
  {
    match a
    case Cork => s.(corked := true, wasCorked := true)
    case Uncork => s.(corked := false)
    case WaitReturns(e) => s.(got := Some(e), received := if e.Some? then s.received + [e.value] else s.received)
    case Process(result) =>
      if result.Closed? then s.(stopped := true)
      else
        s.(got := None, wasCorked := s.corked,
           forwarded := if Offers(s) && result.Sent? then s.forwarded + [s.got.value.value] else s.forwarded)
  }

  /** `corked` and `wasCorked` are shared under the lock; the rest is the polling thread and its channel. */
  class DebugEventListener<E> {
    var corked: bool
    var wasCorked: bool
    var got: Option<Option<E>>
    var stopped: bool
    ghost var received: seq<E>
    var forwarded: seq<E>

    ghost function Abstract(): State<E>
      reads this
    {
      State(corked, wasCorked, got, stopped, received, forwarded)
    }

    constructor ()
      ensures Abstract() == Start()
    {
      corked, wasCorked, got, stopped, received, forwarded := false, false, None, false, [], [];
    }

    method Cork()
      modifies this
      ensures Abstract() == Step(old(Abstract()), Action.Cork)
    {
      corked := true;
      wasCorked := true;
    }

    method Uncork()
      modifies this
      ensures Abstract() == Step(old(Abstract()), Action.Uncork)
    {
      corked := false;
    }

    /** The wait for an event returns, with one or after a timeout; this happens without the lock. */
    method WaitForEvent(event: Option<E>)
      requires Enabled(Abstract(), WaitReturns(event))
      modifies this
      ensures Abstract() == Step(old(Abstract()), WaitReturns(event))
    {
      got := Some(event);
      if event.Some? { received := received + [event.value]; }
    }

    /** The rest of a pass of the polling loop, under the lock; `result` is what the channel does. */
    method ProcessEvent(result: SendResult)
      requires Enabled(Abstract(), Process(result))
      modifies this
      ensures Abstract() == Step(old(Abstract()), Process(result))
    {
      if result.Closed? {
        stopped := true;
        return;
      }
      if got.value.Some? && !wasCorked {
        if result.Sent? { forwarded := forwarded + [got.value.value]; }
      }
      got := None;
      wasCorked := corked;
    }
  }

  // ----- runs -----

  predicate Possible<E>(s: State<E>, actions: seq<Action<E>>)
    decreases |actions|
  {
    actions == [] || (Enabled(s, actions[0]) && Possible(Step(s, actions[0]), actions[1..]))
  }

  function Exec<E>(s: State<E>, actions: seq<Action<E>>): State<E>
    requires Possible(s, actions)
    decreases |actions|
  {
    if actions == [] then s else Exec(Step(s, actions[0]), actions[1..])
  }

  lemma {:induction false} PrefixPossible<E>(s: State<E>, actions: seq<Action<E>>, n: nat)
    requires Possible(s, actions) && n <= |actions|
    ensures Possible(s, actions[..n])
    ensures n < |actions| ==> Enabled(Exec(s, actions[..n]), actions[n])
    ensures n < |actions| ==> Possible(s, actions[..n + 1])
    ensures n < |actions| ==> Exec(s, actions[..n + 1]) == Step(Exec(s, actions[..n]), actions[n])
    decreases |actions|
  {
    if n > 0 {
      PrefixPossible(Step(s, actions[0]), actions[1..], n - 1);
      assert actions[..n][1..] == actions[1..][..n - 1];
      if n < |actions| { assert actions[..n + 1][1..] == actions[1..][..n]; }
    } else if actions != [] {
      assert actions[..1][1..] == [] && actions[..0] == [];
    }
  }

  /** The state before action `n` of a run. */
  function At<E>(actions: seq<Action<E>>, n: nat): State<E>
    requires Possible(Start(), actions) && n <= |actions|
  {
    PrefixPossible(Start(), actions, n);
    Exec(Start(), actions[..n])
  }

  lemma AtNext<E>(actions: seq<Action<E>>, n: nat)
    requires Possible(Start(), actions) && n < |actions|
    ensures Enabled(At(actions, n), actions[n]) && At(actions, n + 1) == Step(At(actions, n), actions[n])
  {
    PrefixPossible(Start(), actions, n);
  }

  /** A pass of the polling loop ended with this action. */
  predicate Passes<E>(a: Action<E>)
  {
    a.Process? && !a.result.Closed?
  }

  /** Events were corked at some point from state `from` to state `till`. */
  ghost predicate CorkedWithin<E>(actions: seq<Action<E>>, from: nat, till: nat)
    requires Possible(Start(), actions) && till <= |actions|
  {
    exists k :: from <= k <= till && At(actions, k).corked
  }

  /** No pass ended from state `from` to state `till`, and one did just before `from` (or the run began there). */
  predicate SameWait<E>(actions: seq<Action<E>>, from: nat, till: nat)
    requires from <= till <= |actions|
  {
    (from > 0 ==> Passes(actions[from - 1])) && forall k :: from <= k < till ==> !Passes(actions[k])
  }

  /** The sticky flag says exactly what it is documented to say: whether events were corked at any
      point since the last pass of the loop ended. */
  lemma {:induction false} StickyFlag<E>(actions: seq<Action<E>>, from: nat, till: nat)
    requires Possible(Start(), actions) && from <= till <= |actions| && SameWait(actions, from, till)
    ensures At(actions, till).wasCorked <==> CorkedWithin(actions, from, till)
    decreases till
  {
    if till == from {
      if from > 0 { AtNext(actions, from - 1); }
    } else {
      StickyFlag(actions, from, till - 1);
      AtNext(actions, till - 1);
      if CorkedWithin(actions, from, till - 1) {
        var k :| from <= k <= till - 1 && At(actions, k).corked;
        assert CorkedWithin(actions, from, till);
      } else {
        assert !At(actions, till - 1).corked;
      }
    }
  }

  /** An event that the channel has room for is forwarded exactly when events were not corked at any time
      between the end of the previous pass and its own processing. */
  lemma ForwardedIff<E>(actions: seq<Action<E>>, from: nat, n: nat, e: E)
    requires Possible(Start(), actions) && from <= n < |actions| && SameWait(actions, from, n)
    requires actions[n] == Process(Sent) && At(actions, n).got == Some(Some(e))
    ensures At(actions, n + 1).forwarded ==
      At(actions, n).forwarded + if CorkedWithin(actions, from, n) then [] else [e]
  {
    StickyFlag(actions, from, n);
    AtNext(actions, n);
  }

  /** Nothing else is ever forwarded: not on a timeout, not when the channel is full or closed, and not
      by corking, uncorking or waiting. */
  lemma NothingElseForwarded<E>(actions: seq<Action<E>>, n: nat)
    requires Possible(Start(), actions) && n < |actions|
    requires !(actions[n] == Process(Sent) && At(actions, n).got.Some? && At(actions, n).got.value.Some?)
    ensures At(actions, n + 1).forwarded == At(actions, n).forwarded
  {
    AtNext(actions, n);
  }

  /** What a pass deals with is what the wait before it returned. */
  lemma {:induction false} ProcessedWasReceived<E>(actions: seq<Action<E>>, w: nat, n: nat)
    requires Possible(Start(), actions) && w < n <= |actions| && actions[w].WaitReturns?
    requires forall k :: w < k < n ==> !actions[k].Process?
    ensures At(actions, n).got == Some(actions[w].event)
    decreases n
  {
    AtNext(actions, n - 1);
    if w < n - 1 { ProcessedWasReceived(actions, w, n - 1); }
  }

  /** In particular, an event whose wait returned while events were corked is never forwarded, even if
      they are uncorked before it is processed. */
  lemma CorkedReceiptIsDropped<E>(actions: seq<Action<E>>, from: nat, w: nat, n: nat)
    requires Possible(Start(), actions) && from <= w < n < |actions| && SameWait(actions, from, n)
    requires At(actions, w).corked && actions[n].Process?
    ensures At(actions, n + 1).forwarded == At(actions, n).forwarded
  {
    StickyFlag(actions, from, n);
    assert CorkedWithin(actions, from, n);
    AtNext(actions, n);
  }

  lemma {:induction false} StaysUncorked<E>(actions: seq<Action<E>>, u: nat, n: nat)
    requires Possible(Start(), actions) && u < n <= |actions|
    requires actions[u].Uncork? && forall k :: u < k < n ==> !actions[k].Cork?
    ensures !At(actions, n).corked
    decreases n
  {
    AtNext(actions, n - 1);
    if u < n - 1 { StaysUncorked(actions, u, n - 1); }
  }

  lemma {:induction false} StaysCorked<E>(actions: seq<Action<E>>, c: nat, n: nat)
    requires Possible(Start(), actions) && c < n <= |actions|
    requires actions[c].Cork? && forall k :: c < k < n ==> !actions[k].Uncork?
    ensures At(actions, n).corked
    decreases n
  {
    AtNext(actions, n - 1);
    if c < n - 1 { StaysCorked(actions, c, n - 1); }
  }

  /** After an uncork, and until events are corked again, only what the first pass of the loop deals
      with can be dropped: from then on every event that the channel has room for is forwarded. */
  lemma OnlyFirstPassDrops<E>(actions: seq<Action<E>>, u: nat, from: nat, n: nat, e: E)
    requires Possible(Start(), actions) && u < from - 1 && from <= n < |actions| && SameWait(actions, from, n)
    requires actions[u].Uncork? && (forall k :: u < k < n ==> !actions[k].Cork?)
    requires actions[n] == Process(Sent) && At(actions, n).got == Some(Some(e))
    ensures At(actions, n + 1).forwarded == At(actions, n).forwarded + [e]
  {
    forall k | from <= k <= n
      ensures !At(actions, k).corked
    {
      StaysUncorked(actions, u, k);
    }
    ForwardedIff(actions, from, n, e);
  }

  // ----- order -----

  /** `a` is `b` with some elements left out. */
  predicate Subsequence<E(==)>(a: seq<E>, b: seq<E>)
  {
    if b == [] then a == []
    else if a != [] && a[|a| - 1] == b[|b| - 1] then
      Subsequence(a[..|a| - 1], b[..|b| - 1]) || Subsequence(a, b[..|b| - 1])
    else Subsequence(a, b[..|b| - 1])
  }

  /** Everything received before the event at hand. */
  function Earlier<E>(s: State<E>): seq<E>
  {
    if s.got.Some? && s.got.value.Some? && s.received != [] then s.received[..|s.received| - 1] else s.received
  }

  ghost predicate InOrder<E>(s: State<E>)
  {
    && Subsequence(s.forwarded, Earlier(s))
    && (s.got.Some? && s.got.value.Some? ==> s.received != [] && s.received[|s.received| - 1] == s.got.value.value)
  }

  lemma StepInOrder<E>(s: State<E>, a: Action<E>)
    requires Enabled(s, a) && InOrder(s)
    ensures InOrder(Step(s, a))
  {
    match a
    case Cork =>
    case Uncork =>
    case WaitReturns(e) =>
      if e.Some? { assert (s.received + [e.value])[..|s.received|] == s.received; }
    case Process(result) => ProcessInOrder(s, result);
  }

  lemma ProcessInOrder<E>(s: State<E>, result: SendResult)
    requires Enabled(s, Process(result)) && InOrder(s)
    ensures InOrder(Step(s, Process(result)))
  {
    if s.got.value.Some? && !result.Closed? {
      assert s.received == Earlier(s) + [s.got.value.value];
    }
  }

  lemma {:induction false} ExecInOrder<E>(s: State<E>, actions: seq<Action<E>>)
    requires Possible(s, actions) && InOrder(s)
    ensures InOrder(Exec(s, actions))
    decreases |actions|
  {
    if actions != [] {
      StepInOrder(s, actions[0]);
      ExecInOrder(Step(s, actions[0]), actions[1..]);
    }
  }

  /** Over every run, the forwarded events are received ones, in the order received. */
  lemma ForwardedInOrder<E>(actions: seq<Action<E>>)
    requires Possible(Start(), actions)
    ensures Subsequence(Exec(Start(), actions).forwarded, Exec(Start(), actions).received)
  {
    ExecInOrder(Start(), actions);
    var s := Exec(Start(), actions);
    if s.got.Some? && s.got.value.Some? {
      assert s.received == Earlier(s) + [s.got.value.value];
    }
  }
}
