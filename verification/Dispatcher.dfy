/** The dispatcher of src/codelldb/src/dap_session.rs: it numbers outgoing messages and routes the
    responses of the client to whoever sent the reverse request. */
module Dispatcher {
  import opened Options

  /** Identifies the sender of a reverse request: the receiving end of its one-shot channel. */
  type Requestor = nat

  /** What reaches the dispatcher, from either side. A malformed message may still show its number. */
  datatype Input =
    | ClientRequest
    | ClientEvent
    | ClientResponse(requestSeq: nat, payload: string)
    | Malformed(seqNo: Option<nat>)
    | Outgoing(replyTo: Option<Requestor>)

  datatype Delivery = Delivery(to: Requestor, seqNo: nat, payload: string)

  datatype State = State(
    messageSeq: nat,
    pending: map<nat, Requestor>,
    sent: seq<nat>,              // numbers of the messages sent, in order
    asked: map<nat, Requestor>,  // all reverse requests so far
    delivered: seq<Delivery>)

  const START := State(0, map[], [], map[], [])

  function Step(s: State, i: Input): State
  {
    match i
    case ClientRequest => s
    case ClientEvent => s
    case ClientResponse(n, payload) =>
      if n in s.pending
      then s.(pending := s.pending - {n}, delivered := s.delivered + [Delivery(s.pending[n], n, payload)])
      else s
    case Malformed(n) => if n.Some? then Sent(s, None) else s
    case Outgoing(replyTo) => Sent(s, replyTo)
  }

  function Sent(s: State, replyTo: Option<Requestor>): State
  {
    var n := s.messageSeq + 1;
    var t := s.(messageSeq := n, sent := s.sent + [n]);
    if replyTo.Some? then t.(pending := s.pending[n := replyTo.value], asked := s.asked[n := replyTo.value]) else t
  }

  class DAPSession {
    var messageSeq: nat
    var pendingRequests: map<nat, Requestor>
    var sent: seq<nat>
    ghost var asked: map<nat, Requestor>
    var delivered: seq<Delivery>

    ghost function Abstract(): State
      reads this
    {
      State(messageSeq, pendingRequests, sent, asked, delivered)
    }

    constructor ()
      ensures Abstract() == START
    {
      messageSeq, pendingRequests, sent, asked, delivered := 0, map[], [], map[], [];
    }

    method Send(replyTo: Option<Requestor>)
      modifies this
      ensures Abstract() == Sent(old(Abstract()), replyTo)
    {
      messageSeq := messageSeq + 1;
      if replyTo.Some? {
        pendingRequests := pendingRequests[messageSeq := replyTo.value];
        asked := asked[messageSeq := replyTo.value];
      }
      sent := sent + [messageSeq];
    }

    method Dispatch(i: Input)
      modifies this
      ensures Abstract() == Step(old(Abstract()), i)
    {
      match i
      case ClientRequest =>
      case ClientEvent =>
      case ClientResponse(n, payload) =>
        if n in pendingRequests {
          var sender := pendingRequests[n];
          pendingRequests := pendingRequests - {n};
          delivered := delivered + [Delivery(sender, n, payload)];
        }
      case Malformed(n) =>
        if n.Some? { Send(None); }
      case Outgoing(replyTo) => Send(replyTo);
    }
  }

  // ----- every run -----

  function Exec(s: State, inputs: seq<Input>): State
    decreases |inputs|
  {
    if inputs == [] then s else Exec(Step(s, inputs[0]), inputs[1..])
  }

  /** A delivery goes to the requestor whose message carried that number. */
  predicate Rightful(s: State, d: Delivery)
  {
    d.seqNo in s.asked && s.asked[d.seqNo] == d.to && d.seqNo !in s.pending
  }

  ghost predicate Inv(s: State)
  {
    && |s.sent| == s.messageSeq && (forall i :: 0 <= i < |s.sent| ==> s.sent[i] == i + 1)
    && (forall n :: n in s.pending ==> n in s.asked && s.asked[n] == s.pending[n])
    && (forall n :: n in s.asked ==> 1 <= n <= s.messageSeq)
    && (forall i :: 0 <= i < |s.delivered| ==> Rightful(s, s.delivered[i]))
    && (forall i, j :: 0 <= i < j < |s.delivered| ==> s.delivered[i].seqNo != s.delivered[j].seqNo)
    && (forall n :: n in s.asked && n !in s.pending ==> exists i :: 0 <= i < |s.delivered| && s.delivered[i].seqNo == n)
  }

  lemma SentKeepsInv(s: State, replyTo: Option<Requestor>)
    requires Inv(s)
    ensures Inv(Sent(s, replyTo))
  {
    var t := Sent(s, replyTo);
    forall i | 0 <= i < |t.delivered|
      ensures Rightful(t, t.delivered[i])
    {
      assert Rightful(s, s.delivered[i]);
    }
  }

  lemma ResponseKeepsInv(s: State, n: nat, payload: string)
    requires Inv(s) && n in s.pending
    ensures Inv(Step(s, ClientResponse(n, payload)))
  {
    var t := Step(s, ClientResponse(n, payload));
    forall i | 0 <= i < |t.delivered|
      ensures Rightful(t, t.delivered[i])
      ensures i < |s.delivered| ==> t.delivered[i].seqNo != n
    {
      if i < |s.delivered| { assert t.delivered[i] == s.delivered[i] && Rightful(s, s.delivered[i]); }
    }
    ResponseDelivers(s, n, payload);
  }

  lemma ResponseDelivers(s: State, n: nat, payload: string)
    requires Inv(s) && n in s.pending
    ensures var t := Step(s, ClientResponse(n, payload));
      forall m :: m in t.asked && m !in t.pending ==> exists i :: 0 <= i < |t.delivered| && t.delivered[i].seqNo == m
  {
    var t := Step(s, ClientResponse(n, payload));
    forall m | m in t.asked && m !in t.pending
      ensures exists i :: 0 <= i < |t.delivered| && t.delivered[i].seqNo == m
    {
      if m == n {
        assert t.delivered[|s.delivered|].seqNo == m;
      } else {
        var i :| 0 <= i < |s.delivered| && s.delivered[i].seqNo == m;
        assert t.delivered[i].seqNo == m;
      }
    }
  }

  lemma StepKeepsInv(s: State, i: Input)
    requires Inv(s)
    ensures Inv(Step(s, i))
  {
    match i
    case ClientRequest =>
    case ClientEvent =>
    case ClientResponse(n, payload) => if n in s.pending { ResponseKeepsInv(s, n, payload); }
    case Malformed(n) => SentKeepsInv(s, None);
    case Outgoing(replyTo) => SentKeepsInv(s, replyTo);
  }

  lemma {:induction false} ExecKeepsInv(s: State, inputs: seq<Input>)
    requires Inv(s)
    ensures Inv(Exec(s, inputs))
    decreases |inputs|
  {
    if inputs != [] {
      StepKeepsInv(s, inputs[0]);
      ExecKeepsInv(Step(s, inputs[0]), inputs[1..]);
    }
  }

  /** In every run: outgoing numbers are consecutive from 1; a reverse request is pending or has been
      resolved, once, by a response with its number; nothing else is ever delivered. */
  lemma EveryRun(inputs: seq<Input>, n: nat)
    ensures var s := Exec(START, inputs);
      && |s.sent| == s.messageSeq && (forall i :: 0 <= i < |s.sent| ==> s.sent[i] == i + 1)
      && (n in s.asked ==> 1 <= n <= s.messageSeq)
      && (n in s.asked <==> n in s.pending || exists i :: 0 <= i < |s.delivered| && s.delivered[i].seqNo == n)
      && (forall i :: 0 <= i < |s.delivered| ==> Rightful(s, s.delivered[i]))
      && (forall i, j :: 0 <= i < j < |s.delivered| ==> s.delivered[i].seqNo != s.delivered[j].seqNo)
  {
    ExecKeepsInv(START, inputs);
    var s := Exec(START, inputs);
    if i :| 0 <= i < |s.delivered| && s.delivered[i].seqNo == n {
      assert Rightful(s, s.delivered[i]);
    }
  }

  /** What is delivered was in a response from the client, under the same number. */
  lemma {:induction false} DeliveredWasReceived(s: State, inputs: seq<Input>, i: nat)
    requires |s.delivered| <= i < |Exec(s, inputs).delivered|
    ensures |s.delivered| <= |Exec(s, inputs).delivered|
    ensures var d := Exec(s, inputs).delivered[i]; ClientResponse(d.seqNo, d.payload) in inputs
    decreases |inputs|
  {
    var t := Step(s, inputs[0]);
    DeliveredGrows(t, inputs[1..]);
    if i >= |t.delivered| {
      DeliveredWasReceived(t, inputs[1..], i);
    } else {
      assert Exec(s, inputs).delivered[i] == t.delivered[i];
    }
  }

  lemma {:induction false} DeliveredGrows(s: State, inputs: seq<Input>)
    ensures s.delivered <= Exec(s, inputs).delivered
    decreases |inputs|
  {
    if inputs != [] { DeliveredGrows(Step(s, inputs[0]), inputs[1..]); }
  }

  // ----- every request and its response -----

  predicate Sends(i: Input) { i.Outgoing? || (i.Malformed? && i.seqNo.Some?) }

  /** How many messages the dispatcher has sent by then. */
  function SendCount(inputs: seq<Input>): nat
  {
    if inputs == [] then 0 else SendCount(inputs[..|inputs| - 1]) + if Sends(inputs[|inputs| - 1]) then 1 else 0
  }

  lemma {:induction false} ExecSnoc(s: State, inputs: seq<Input>, i: Input)
    ensures Exec(s, inputs + [i]) == Step(Exec(s, inputs), i)
    decreases |inputs|
  {
    if inputs == [] {
      assert inputs + [i] == [i] && [i][1..] == [];
    } else {
      ExecSnoc(Step(s, inputs[0]), inputs[1..], i);
      assert (inputs + [i])[1..] == inputs[1..] + [i];
    }
  }

  /** The state after the first `k` inputs. */
  function At(inputs: seq<Input>, k: nat): State
    requires k <= |inputs|
  {
    Exec(START, inputs[..k])
  }

  lemma AtNext(inputs: seq<Input>, k: nat)
    requires k < |inputs|
    ensures At(inputs, k + 1) == Step(At(inputs, k), inputs[k]) && Inv(At(inputs, k))
  {
    assert inputs[..k + 1] == inputs[..k] + [inputs[k]];
    ExecSnoc(START, inputs[..k], inputs[k]);
    ExecKeepsInv(START, inputs[..k]);
  }

  lemma {:induction false} NumberSent(inputs: seq<Input>, k: nat)
    requires k <= |inputs|
    ensures At(inputs, k).messageSeq == SendCount(inputs[..k])
  {
    if k > 0 {
      NumberSent(inputs, k - 1);
      AtNext(inputs, k - 1);
      assert inputs[..k][..k - 1] == inputs[..k - 1];
    }
  }

  predicate Answers(i: Input, n: nat) { i.ClientResponse? && i.requestSeq == n }

  /** A reverse request waits under its number until a response with that number arrives. */
  lemma {:induction false} WaitsForResponse(inputs: seq<Input>, i: nat, q: Requestor, k: nat)
    requires i < k <= |inputs| && inputs[i] == Outgoing(Some(q))
    requires forall j :: i < j < k ==> !Answers(inputs[j], SendCount(inputs[..i]) + 1)
    ensures var n := SendCount(inputs[..i]) + 1; n in At(inputs, k).pending && At(inputs, k).pending[n] == q
    decreases k
  {
    var n := SendCount(inputs[..i]) + 1;
    AtNext(inputs, k - 1);
    if k == i + 1 {
      NumberSent(inputs, i);
    } else {
      WaitsForResponse(inputs, i, q, k - 1);
      var s := At(inputs, k - 1);
      assert n in s.asked && n <= s.messageSeq;
    }
  }

  /** In every run: the first response with the number of a reverse request is delivered to its sender. */
  lemma {:induction false} ResponseDelivered(inputs: seq<Input>, i: nat, q: Requestor, j: nat, payload: string)
    requires i < j < |inputs| && inputs[i] == Outgoing(Some(q))
    requires inputs[j] == ClientResponse(SendCount(inputs[..i]) + 1, payload)
    requires forall k :: i < k < j ==> !Answers(inputs[k], SendCount(inputs[..i]) + 1)
    ensures Delivery(q, SendCount(inputs[..i]) + 1, payload) in Exec(START, inputs).delivered
  {
    var d := Delivery(q, SendCount(inputs[..i]) + 1, payload);
    WaitsForResponse(inputs, i, q, j);
    AtNext(inputs, j);
    var t := At(inputs, j + 1);
    assert t.delivered[|t.delivered| - 1] == d;
    assert inputs == inputs[..j + 1] + inputs[j + 1..];
    ExecSplit(START, inputs[..j + 1], inputs[j + 1..]);
    DeliveredGrows(t, inputs[j + 1..]);
  }

  lemma {:induction false} ExecSplit(s: State, a: seq<Input>, b: seq<Input>)
    ensures Exec(s, a + b) == Exec(Exec(s, a), b)
    decreases |a|
  {
    if a == [] {
      assert a + b == b;
    } else {
      assert (a + b)[1..] == a[1..] + b;
      ExecSplit(Step(s, a[0]), a[1..], b);
    }
  }
}
