/** Incremental decoding in general: a decoder that looks at its state and unread input, and either
    needs more input, moves on, delivers a message or gives up. Both ends of the adapter
    connection are decoders of this kind. */
module Incremental {
  import opened Wire

  datatype Step<+S> =
    | NeedMore
    | Next(state: S, rest: string)
    | Item(payload: string, state: S, rest: string)
    | Fail

  /** `busy` is what a step may use up besides input. */
  datatype Decoder<!S> = Decoder(step: (S, string) -> Step<S>, busy: S -> nat)

  datatype End<+S> = Waiting(state: S, unread: string) | Failed

  /** The messages delivered, and where the decoder stands. */
  datatype Run<+S> = Run(items: seq<string>, end: End<S>)

  function Extend<S>(x: Step<S>, t: string): Step<S>
  {
    match x
    case NeedMore => NeedMore
    case Next(s, rest) => Next(s, rest + t)
    case Item(p, s, rest) => Item(p, s, rest + t)
    case Fail => Fail
  }

  function Size<S>(d: Decoder<S>, s: S, input: string): nat
  {
    2 * |input| + d.busy(s)
  }

  predicate Shrinks<S>(d: Decoder<S>, s: S, b: string)
  {
    match d.step(s, b)
    case NeedMore => true
    case Fail => true
    case Next(s', rest) => Size(d, s', rest) < Size(d, s, b)
    case Item(_, s', rest) => Size(d, s', rest) < Size(d, s, b)
  }

  ghost predicate Settled<S>(d: Decoder<S>, s: S, b: string, t: string)
  {
    !d.step(s, b).NeedMore? ==> d.step(s, b + t) == Extend(d.step(s, b), t)
  }

  /** Every step uses something up, and a step that is possible on some input is the same step
      when more input is there. */
  ghost predicate Valid<S(!new)>(d: Decoder<S>)
  {
    (forall s, b :: Shrinks(d, s, b)) && (forall s, b, t :: Settled(d, s, b, t))
  }

  /** Decodes until more input is needed. */
  function Drain<S(!new)>(d: Decoder<S>, s: S, input: string): Run<S>
    requires Valid(d)
    decreases Size(d, s, input)
  {
    assert Shrinks(d, s, input);
    match d.step(s, input)
    case NeedMore => Run([], Waiting(s, input))
    case Fail => Run([], Failed)
    case Next(s', rest) => Drain(d, s', rest)
    case Item(p, s', rest) => var r := Drain(d, s', rest); Run([p] + r.items, r.end)
  }

  function Feed<S(!new)>(d: Decoder<S>, end: End<S>, chunk: string): Run<S>
    requires Valid(d)
  {
    match end
    case Failed => Run([], Failed)
    case Waiting(s, unread) => Drain(d, s, unread + chunk)
  }

  function FeedAll<S(!new)>(d: Decoder<S>, end: End<S>, chunks: seq<string>): Run<S>
    requires Valid(d)
    decreases |chunks|
  {
    if chunks == [] then Run([], end)
    else
      var first := Feed(d, end, chunks[0]);
      var rest := FeedAll(d, first.end, chunks[1..]);
      Run(first.items + rest.items, rest.end)
  }

  /** Draining what has arrived and then what arrives later is draining it all at once. */
  lemma {:induction false} DrainAppend<S(!new)>(d: Decoder<S>, s: S, b: string, t: string)
    requires Valid(d)
    ensures var first := Drain(d, s, b); var second := Feed(d, first.end, t);
      Drain(d, s, b + t) == Run(first.items + second.items, second.end)
    decreases Size(d, s, b)
  {
    assert Shrinks(d, s, b) && Settled(d, s, b, t);
    match d.step(s, b)
    case NeedMore =>
      assert [] + Drain(d, s, b + t).items == Drain(d, s, b + t).items;
    case Fail =>
    case Next(s', rest) => DrainAppend(d, s', rest, t);
    case Item(p, s', rest) =>
      DrainAppend(d, s', rest, t);
      var first, second := Drain(d, s', rest), Feed(d, Drain(d, s', rest).end, t);
      assert [p] + (first.items + second.items) == ([p] + first.items) + second.items;
  }

  lemma {:induction false} DrainedNeedsMore<S(!new)>(d: Decoder<S>, s: S, b: string)
    requires Valid(d) && Drain(d, s, b).end.Waiting?
    ensures var end := Drain(d, s, b).end; d.step(end.state, end.unread).NeedMore?
    decreases Size(d, s, b)
  {
    assert Shrinks(d, s, b);
    match d.step(s, b)
    case NeedMore =>
    case Fail =>
    case Next(s', rest) => DrainedNeedsMore(d, s', rest);
    case Item(_, s', rest) => DrainedNeedsMore(d, s', rest);
  }

  lemma {:induction false} FailedStaysFailed<S(!new)>(d: Decoder<S>, chunks: seq<string>)
    requires Valid(d)
    ensures FeedAll(d, Failed, chunks) == Run([], Failed)
  {
    if chunks != [] { FailedStaysFailed(d, chunks[1..]); }
  }

  /** For every byte stream and every way of cutting it into chunks, the messages delivered and the
      final state are those of decoding the whole stream at once. */
  lemma {:induction false} ChunkingIrrelevant<S(!new)>(d: Decoder<S>, s: S, unread: string, chunks: seq<string>)
    requires Valid(d) && d.step(s, unread).NeedMore?
    ensures FeedAll(d, Waiting(s, unread), chunks) == Drain(d, s, unread + Concat(chunks))
    decreases |chunks|
  {
    if chunks == [] {
      assert unread + "" == unread;
    } else {
      var first, rest := Drain(d, s, unread + chunks[0]), Concat(chunks[1..]);
      DrainAppend(d, s, unread + chunks[0], rest);
      assert unread + (chunks[0] + rest) == (unread + chunks[0]) + rest;
      if first.end.Waiting? {
        DrainedNeedsMore(d, s, unread + chunks[0]);
        ChunkingIrrelevant(d, first.end.state, first.end.unread, chunks[1..]);
      } else {
        FailedStaysFailed(d, chunks[1..]);
      }
    }
  }

  // ----- one message at a time -----

  datatype Polled<+S> = Nothing(state: S, unread: string) | Delivered(payload: string, state: S, unread: string) | Broken

  /** Decodes until a message is complete or more input is needed. */
  function Poll<S(!new)>(d: Decoder<S>, s: S, input: string): Polled<S>
    requires Valid(d)
    decreases Size(d, s, input)
  {
    assert Shrinks(d, s, input);
    match d.step(s, input)
    case NeedMore => Nothing(s, input)
    case Fail => Broken
    case Next(s', rest) => Poll(d, s', rest)
    case Item(p, s', rest) => Delivered(p, s', rest)
  }

  /** Polling until nothing is delivered is draining. */
  lemma {:induction false} DrainByPolling<S(!new)>(d: Decoder<S>, s: S, input: string)
    requires Valid(d)
    ensures match Poll(d, s, input)
      case Nothing(s', unread) => Drain(d, s, input) == Run([], Waiting(s', unread))
      case Broken => Drain(d, s, input) == Run([], Failed)
      case Delivered(p, s', unread) =>
        && Size(d, s', unread) < Size(d, s, input)
        && Drain(d, s, input) == Run([p] + Drain(d, s', unread).items, Drain(d, s', unread).end)
    decreases Size(d, s, input)
  {
    assert Shrinks(d, s, input);
    if d.step(s, input).Next? {
      DrainByPolling(d, d.step(s, input).state, d.step(s, input).rest);
    }
  }
}
