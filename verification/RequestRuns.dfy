/** What holds of requests over every interleaving of the filter and the session. */
module RequestRuns {
  import opened Options
  import opened RequestPipeline
  import opened RequestHandling

  ghost predicate Good(s: State)
  {
    Conserved(s) && Distinct(s) && Tokens(s) && Tracks(s) && Flags(s) && Handling(s)
  }

  ghost predicate Handling(s: State)
  {
    Pends(s) && Obeyed(s) && Called(s) && NoStrayTokens(s) && HeldAlive(s)
  }

  lemma StepHandling(s: State, a: Action)
    requires Enabled(s, a) && Conserved(s) && Distinct(s) && Tokens(s) && Handling(s)
    ensures Handling(Step(s, a))
  {
    StepPends(s, a);
    StepCalled(s, a);
    StepStrays(s, a);
    StepHeld(s, a);
  }

  lemma StepGood(s: State, a: Action)
    requires Enabled(s, a) && Good(s)
    ensures Good(Step(s, a))
  {
    StepConserves(s, a);
    StepDistinct(s, a);
    StepTokens(s, a);
    StepTracks(s, a);
    StepFlags(s, a);
    StepHandling(s, a);
  }

  lemma {:induction false} ExecGood(s: State, actions: seq<Action>)
    requires Possible(s, actions) && Good(s)
    ensures Good(Exec(s, actions))
    decreases |actions|
  {
    if actions != [] {
      StepGood(s, actions[0]);
      ExecGood(Step(s, actions[0]), actions[1..]);
    }
  }

  /** The handler has returned, or the request was answered without calling it. */
  predicate HandlerDone(s: State, r: Request)
  {
    r in s.futures || r in s.answers
  }

  lemma NotAliveIsDone(s: State, i: nat)
    requires Good(s) && i < DoneCount(s) && !s.received[i].kind.Cancel? && s.received[i].id !in s.alive
    ensures HandlerDone(s, s.received[i])
  {
    var r := s.received[i];
    assert r in s.received[..DoneCount(s)];
    assert r in s.forwarded && r in multiset(s.forwarded);
    assert multiset(s.forwarded)[r] == InFlight(s)[r] + multiset(s.answers)[r];
  }

  /** In every interleaving: a request is flagged only by a cancel that names it or, if it is a scopes,
      variables or evaluate request, by a later one that resumes the debuggee. */
  lemma FlaggedForAReason(actions: seq<Action>, x: Seq)
    requires Possible(START, actions) && x in Exec(START, actions).flagged
    ensures Justified(Exec(START, actions).received, x)
  {
    ExecGood(START, actions);
  }

  /** In every interleaving, and in spite of the pruning: once the filter is done with a resume-class
      request, every earlier cancellable request is flagged unless its handler has returned. */
  lemma ResumeFlagsAllEarlier(actions: seq<Action>, i: nat, j: nat)
    requires Possible(START, actions)
    requires i < j < SweptCount(Exec(START, actions))
    requires var s := Exec(START, actions); s.received[i].kind.Cancellable? && s.received[j].kind.Resume?
    ensures var s := Exec(START, actions); s.received[i].id in s.flagged || HandlerDone(s, s.received[i])
  {
    var s := Exec(START, actions);
    ExecGood(START, actions);
    assert Reached(s, s.received[i].id);
    if s.received[i].id !in s.flagged { NotAliveIsDone(s, i); }
  }

  /** In every interleaving: once the filter has acted on a `cancel`, the earlier request that it names is
      flagged unless its handler has returned. */
  lemma CancelFlagsWhatItNames(actions: seq<Action>, i: nat, j: nat)
    requires Possible(START, actions)
    requires i < j < DecidedCount(Exec(START, actions)) && NamedBy(Exec(START, actions), i, j)
    ensures var s := Exec(START, actions); s.received[i].id in s.flagged || HandlerDone(s, s.received[i])
  {
    var s := Exec(START, actions);
    ExecGood(START, actions);
    assert Reached(s, s.received[i].id);
    if s.received[i].id !in s.flagged { NotAliveIsDone(s, i); }
  }

  /** In every interleaving: a request that is awaited or answered had its handler called, unless it was
      flagged or is of an unknown kind; and no handler is called for anything else. */
  lemma HandlerCalled(actions: seq<Action>, r: Request)
    requires Possible(START, actions)
    ensures var s := Exec(START, actions);
      && (HandlerDone(s, r) ==> r.id in s.entered || r.id in s.flagged || r.kind.Unknown?)
      && (r.id in s.entered && r in s.received ==> r in s.forwarded && !r.kind.Unknown?)
  {
    var s := Exec(START, actions);
    ExecGood(START, actions);
    if r.id in s.entered && r in s.received { EnteredIsForwarded(s, r); }
  }

  lemma EnteredIsForwarded(s: State, r: Request)
    requires Good(s) && r.id in s.entered && r in s.received
    ensures r in s.forwarded && !r.kind.Unknown?
  {
    var q :| EnteredAs(s, r.id, q);
    assert q in multiset(s.forwarded) by {
      assert multiset(s.forwarded)[q] == InFlight(s)[q] + multiset(s.answers)[q];
    }
    assert q in s.forwarded && q in s.received;
    SameRequest(s, q, r);
  }

  lemma SameRequest(s: State, q: Request, r: Request)
    requires Distinct(s) && q in s.received && r in s.received && q.id == r.id
    ensures q == r
  {
    var i :| 0 <= i < |s.received| && s.received[i] == q;
    var j :| 0 <= j < |s.received| && s.received[j] == r;
    assert i < j || i == j || j < i;
  }

  /** In every interleaving: a token has a receiver exactly as long as its request is in the filter, in
      the queue or in `current_cancellation`. */
  lemma TokensHeld(actions: seq<Action>, x: Seq)
    requires Possible(START, actions)
    ensures var s := Exec(START, actions);
      x in s.alive <==> InFilter(s, x) || InQueue(s, x) || s.held == Some(x)
  {
    var s := Exec(START, actions);
    ExecGood(START, actions);
    if InQueue(s, x) {
      var i :| 0 <= i < |s.queue| && s.queue[i].id == x;
      assert s.queue[i] in s.queue;
    }
  }

  /** From the moment a waiting request is flagged, its handler is never called. */
  lemma {:induction false} FlaggedNeverEnters(s: State, actions: seq<Action>, x: Seq)
    requires Possible(s, actions) && x in s.flagged && x !in s.entered
    ensures x in Exec(s, actions).flagged && x !in Exec(s, actions).entered
    decreases |actions|
  {
    if actions != [] { FlaggedNeverEnters(Step(s, actions[0]), actions[1..], x); }
  }

  /** In every interleaving: responses are sent only for requests that reached the session, at most
      one each, and a `cancel` request gets none. */
  lemma AnsweredAtMostOnce(actions: seq<Action>, r: Request)
    requires Possible(START, actions)
    ensures multiset(Exec(START, actions).answers)[r] <= 1
    ensures r in Exec(START, actions).answers ==> r in Exec(START, actions).forwarded && !r.kind.Cancel?
  {
    var s := Exec(START, actions);
    ExecGood(START, actions);
    assert multiset(s.forwarded)[r] <= 1;
    assert multiset(s.forwarded)[r] == InFlight(s)[r] + multiset(s.answers)[r];
    if r in s.answers { KnownRequest(s, r); }
  }

  /** Once nothing is waiting, running or awaited, every request that was received, except `cancel`,
      has been answered exactly once. */
  lemma AnsweredExactlyOnce(actions: seq<Action>, i: nat)
    requires Possible(START, actions)
    requires var s := Exec(START, actions);
      && s.phase.Idle? && s.queue == [] && s.running.None? && s.futures == {}
      && i < |s.received| && !s.received[i].kind.Cancel?
    ensures var s := Exec(START, actions); multiset(s.answers)[s.received[i]] == 1
  {
    var s := Exec(START, actions);
    ExecGood(START, actions);
    var r := s.received[i];
    assert r in s.received[..DoneCount(s)];
    assert r in s.forwarded && r in multiset(s.forwarded);
    assert multiset(s.forwarded)[r] == InFlight(s)[r] + multiset(s.answers)[r];
    assert multiset(s.forwarded)[r] <= 1;
  }
}
