/** What the filter and the session do with a request, step by step: which requests a `cancel` reaches,
    which handlers are called, and which tokens are still held. */
module RequestHandling {
  import opened Options
  import opened RequestPipeline

  // ----- cancel requests -----

  /** A request that the filter is done with can be named by a `cancel` as long as its receiver exists
      and it is not flagged. */
  ghost predicate Pends(s: State)
  {
    forall i :: 0 <= i < DoneCount(s) && !s.received[i].kind.Cancel? && !Reached(s, s.received[i].id) ==>
      s.received[i].id in s.pending
  }

  /** Every `cancel` that the filter has acted on has reached the earlier request that it names. */
  ghost predicate Obeyed(s: State)
  {
    forall i, j :: 0 <= i < j < DecidedCount(s) && NamedBy(s, i, j) ==> Reached(s, s.received[i].id)
  }

  predicate NamedBy(s: State, i: nat, j: nat)
    requires i < |s.received| && j < |s.received|
  {
    !s.received[i].kind.Cancel? && s.received[j].kind == Cancel(Some(s.received[i].id))
  }

  lemma ReceivePends(s: State, r: Request, p: set<Seq>, c: set<Seq>)
    requires Enabled(s, Receive(r, p, c)) && Pends(s) && Obeyed(s)
    ensures Pends(OnReceive(s, r, p, c)) && Obeyed(OnReceive(s, r, p, c))
  {
    var t, n := OnReceive(s, r, p, c), |s.received|;
    assert forall i :: 0 <= i < n ==> t.received[i] == s.received[i] && s.received[i].id != r.id;
    forall i | 0 <= i < DoneCount(t) && !t.received[i].kind.Cancel? && !Reached(t, t.received[i].id)
      ensures t.received[i].id in t.pending
    {
      assert !Reached(s, s.received[i].id);
    }
    forall i, j | 0 <= i < j < DecidedCount(t) && NamedBy(t, i, j)
      ensures Reached(t, t.received[i].id)
    {
      assert NamedBy(s, i, j);
    }
  }

  lemma DecidePends(s: State)
    requires Enabled(s, Decide) && Distinct(s) && Pends(s) && Obeyed(s)
    ensures Pends(OnDecide(s)) && Obeyed(OnDecide(s))
  {
    var t, n := OnDecide(s), |s.received| - 1;
    assert t.received == s.received && s.flagged <= t.flagged && t.alive <= s.alive;
    assert forall x :: Reached(s, x) ==> Reached(t, x);
    forall i, j | 0 <= i < j < DecidedCount(t) && NamedBy(t, i, j)
      ensures Reached(t, t.received[i].id)
    {
      if j < n { assert NamedBy(s, i, j); }
    }
  }

  lemma ForwardPends(s: State)
    requires Enabled(s, Forward) && Pends(s) && Obeyed(s)
    ensures Pends(OnForward(s)) && Obeyed(OnForward(s))
  {
    var t := OnForward(s);
    forall i, j | 0 <= i < j < DecidedCount(t) && NamedBy(t, i, j)
      ensures Reached(t, t.received[i].id)
    {
      assert NamedBy(s, i, j);
    }
  }

  lemma LaterPends(s: State, t: State)
    requires Pends(s) && Obeyed(s) && t.received == s.received && t.pending == s.pending
    requires DoneCount(t) == DoneCount(s) && DecidedCount(t) == DecidedCount(s)
    requires s.flagged <= t.flagged && t.alive <= s.alive
    ensures Pends(t) && Obeyed(t)
  {
    assert forall x :: Reached(s, x) ==> Reached(t, x);
    forall i, j | 0 <= i < j < DecidedCount(t) && NamedBy(t, i, j)
      ensures Reached(t, t.received[i].id)
    {
      assert NamedBy(s, i, j);
    }
  }

  lemma StepPends(s: State, a: Action)
    requires Enabled(s, a) && Distinct(s) && Pends(s) && Obeyed(s)
    ensures Pends(Step(s, a)) && Obeyed(Step(s, a))
  {
    match a
    case Receive(r, p, c) => ReceivePends(s, r, p, c);
    case Decide => DecidePends(s);
    case Forward => ForwardPends(s);
    case _ => LaterPends(s, Step(s, a));
  }

  // ----- handlers -----

  /** The handler is called for every request that gets as far, except those that were flagged by then
      and those of unknown kinds. */
  ghost predicate Called(s: State)
  {
    && (forall r :: r in s.answers ==> r.id in s.entered || r.id in s.flagged || r.kind.Unknown?)
    && (forall r :: r in s.futures || s.running == Some(r) ==> r.id in s.entered)
    && (forall x :: x in s.entered ==> exists r :: EnteredAs(s, x, r))
  }

  predicate EnteredAs(s: State, x: Seq, r: Request)
  {
    r.id == x && !r.kind.Unknown? && (r in s.futures || s.running == Some(r) || r in s.answers)
  }

  lemma StepCalled(s: State, a: Action)
    requires Enabled(s, a) && Called(s)
    ensures Called(Step(s, a))
  {
    var t := Step(s, a);
    forall x | x in t.entered
      ensures exists r :: EnteredAs(t, x, r)
    {
      if x in s.entered {
        var r :| EnteredAs(s, x, r);
        assert EnteredAs(t, x, r);
      } else {
        assert EnteredAs(t, x, t.running.value);
      }
    }
  }

  // ----- tokens -----

  /** Whoever has a receiver is still in the filter, in the queue, or in `current_cancellation`. */
  ghost predicate NoStrayTokens(s: State)
  {
    forall x :: x in s.alive ==> InFilter(s, x) || InQueue(s, x) || s.held == Some(x)
  }

  /** The stored receiver exists. */
  predicate HeldAlive(s: State)
  {
    s.held.Some? ==> s.held.value in s.alive
  }

  lemma StepHeld(s: State, a: Action)
    requires Enabled(s, a) && Conserved(s) && Distinct(s) && Tokens(s) && HeldAlive(s)
    ensures HeldAlive(Step(s, a))
  {
    if a.Dequeue? {
      assert s.queue[0] in s.queue;
      if s.held.Some? { HeldIsNotQueued(s, s.queue[0]); }
    } else if a.Decide? && s.held.Some? {
      HeldIsNotCurrent(s);
    }
  }

  predicate InFilter(s: State, x: Seq)
  {
    !s.phase.Idle? && s.received != [] && s.received[|s.received| - 1].id == x
  }

  predicate InQueue(s: State, x: Seq)
  {
    exists i :: 0 <= i < |s.queue| && s.queue[i].id == x
  }

  lemma StepStrays(s: State, a: Action)
    requires Enabled(s, a) && Tokens(s) && NoStrayTokens(s)
    ensures NoStrayTokens(Step(s, a))
  {
    var t := Step(s, a);
    forall x | x in t.alive
      ensures InFilter(t, x) || InQueue(t, x) || t.held == Some(x)
    {
      if InQueue(s, x) && x in s.alive {
        var i :| 0 <= i < |s.queue| && s.queue[i].id == x;
        if a.Dequeue? {
          if i > 0 { assert t.queue[i - 1].id == x; }
        } else {
          assert t.queue[i].id == x;
        }
      } else if a.Forward? && InFilter(s, x) {
        assert t.queue[|s.queue|].id == x;
      }
    }
  }
}
