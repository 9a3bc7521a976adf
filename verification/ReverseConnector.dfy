/** `ReverseAdapterConnector` of extension/novsc/reverseConnector.ts: the extension's end of the
    connection. It waits for a whole block of headers, and for an authentication token. */
module ReverseConnector {
  import opened Options
  import opened Wire
  import opened Incremental
  import opened WritableBuffers

  const BLANK_LINE := "\r\n\r\n"

  // ----- header lines -----

  /** `split('\r\n')` */
  function Lines(s: string): (r: seq<string>)
    decreases |s|
  {
    match Find(s, CRLF)
    case None => [s]
    case Some(i) => [s[..i]] + Lines(s[i + 2..])
  }

  /** First colon that is followed by a space; the length when there is none. */
  function Separator(s: string): (i: nat)
    ensures i <= |s|
    ensures i < |s| ==> s[i] == ':'
  {
    if s == "" then 0
    else if |s| >= 2 && s[0] == ':' && s[1] == ' ' then 0
    else 1 + Separator(s[1..])
  }

  function SkipSpaces(s: string): string
  {
    if s != "" && s[0] == ' ' then SkipSpaces(s[1..]) else s
  }

  /** `split(/: +/, 2)` */
  function Pair(line: string): (string, Option<string>)
  {
    var i := Separator(line);
    if i == |line| then (line, None)
    else
      var rest := SkipSpaces(line[i + 1..]);
      (line[..i], Some(rest[..Separator(rest)]))
  }

  datatype JsNumber = NaN | Int(n: int)

  function LeadingDigits(s: string): (r: string)
    ensures AllDigits(r)
  {
    if s != "" && IsDigit(s[0]) then [s[0]] + LeadingDigits(s[1..]) else ""
  }

  function HexValue(c: char): Option<nat>
  {
    if '0' <= c <= '9' then Some(c as int - '0' as int)
    else if 'a' <= c <= 'f' then Some(c as int - 'a' as int + 10)
    else if 'A' <= c <= 'F' then Some(c as int - 'A' as int + 10)
    else None
  }

  function LeadingHex(s: string, acc: nat): nat
  {
    if s != "" && HexValue(s[0]).Some? then LeadingHex(s[1..], 16 * acc + HexValue(s[0]).value) else acc
  }

  predicate IsJsSpace(c: char) { c == ' ' || 9 <= c as int <= 13 }

  function TrimLeft(s: string): string
  {
    if s != "" && IsJsSpace(s[0]) then TrimLeft(s[1..]) else s
  }

  function ParseMagnitude(s: string): Option<nat>
  {
    if |s| >= 2 && s[0] == '0' && (s[1] == 'x' || s[1] == 'X') then
      if |s| >= 3 && HexValue(s[2]).Some? then Some(LeadingHex(s[2..], 0)) else None
    else if LeadingDigits(s) == "" then None
    else Some(NumberOf(LeadingDigits(s)))
  }

  /** `parseInt` */
  function ParseInt(v: Option<string>): JsNumber
  {
    if v.None? then NaN
    else
      var s := TrimLeft(v.value);
      if s != "" && s[0] == '-' then
        (match ParseMagnitude(s[1..])
         case Some(n) => Int(0 - n)
         case None => NaN)
      else
        match ParseMagnitude(if s != "" && s[0] == '+' then s[1..] else s)
        case Some(n) => Int(n)
        case None => NaN
  }

  // ----- the decoder -----

  datatype State = State(contentLength: JsNumber, authenticated: bool)

  const START := State(Int(-1), false)

  function ReadLine(token: string, s: State, line: string): State
  {
    var pair := Pair(line);
    if pair.0 == "Content-Length" then s.(contentLength := ParseInt(pair.1))
    else if pair.0 == "Auth-Token" && pair.1 == Some(token) then s.(authenticated := true)
    else s
  }

  function ReadLines(token: string, s: State, lines: seq<string>): State
    decreases |lines|
  {
    if lines == [] then s else ReadLines(token, ReadLine(token, s, lines[0]), lines[1..])
  }

  predicate InHeaders(s: State) { s.contentLength.Int? && s.contentLength.n < 0 }

  function OneStep(token: string, s: State, b: string): Step<State>
  {
    if InHeaders(s) then
      match Find(b, BLANK_LINE)
      case None => NeedMore
      case Some(idx) => Next(ReadLines(token, s, Lines(b[..idx])), b[idx + 4..])
    else if !s.authenticated then Fail
    else if s.contentLength.NaN? || |b| < s.contentLength.n then NeedMore
    else
      var n, ready := s.contentLength.n, s.(contentLength := Int(-1));
      if n == 0 then Next(ready, b) else Item(b[..n], ready, b[n..])
  }

  function Busy(s: State): nat { if InHeaders(s) then 0 else 1 }

  function Connector(token: string): Decoder<State>
  {
    Decoder((s, b) => OneStep(token, s, b), Busy)
  }

  lemma StepSettled(token: string, s: State, b: string, t: string)
    ensures Settled(Connector(token), s, b, t)
  {
    if InHeaders(s) {
      if Find(b, BLANK_LINE).Some? {
        FindStable(b, BLANK_LINE, t);
        var idx := Find(b, BLANK_LINE).value;
        assert (b + t)[..idx] == b[..idx];
        assert (b + t)[idx + 4..] == b[idx + 4..] + t;
      }
    } else if s.contentLength.Int? && |b| >= s.contentLength.n {
      var n := s.contentLength.n;
      assert (b + t)[..n] == b[..n];
      assert (b + t)[n..] == b[n..] + t;
    }
  }

  lemma ConnectorValid(token: string)
    ensures Valid(Connector(token))
  {
    forall s, b, t
      ensures Settled(Connector(token), s, b, t)
    {
      StepSettled(token, s, b, t);
    }
  }

  function DecodeAll(token: string, s: State, input: string): Run<State>
  {
    ConnectorValid(token);
    Drain(Connector(token), s, input)
  }

  function DecodeChunks(token: string, end: End<State>, chunks: seq<string>): Run<State>
  {
    ConnectorValid(token);
    FeedAll(Connector(token), end, chunks)
  }

  lemma DecodingIgnoresChunking(token: string, s: State, unread: string, chunks: seq<string>)
    requires OneStep(token, s, unread).NeedMore?
    ensures DecodeChunks(token, Waiting(s, unread), chunks) == DecodeAll(token, s, unread + Concat(chunks))
  {
    ConnectorValid(token);
    ChunkingIrrelevant(Connector(token), s, unread, chunks);
  }

  lemma DecodeStep(token: string, s: State, b: string)
    ensures var all := DecodeAll(token, s, b);
      match OneStep(token, s, b)
      case NeedMore => all == Run([], Waiting(s, b))
      case Fail => all == Run([], Failed)
      case Next(s', rest) =>
        && all == DecodeAll(token, s', rest)
        && 2 * |rest| + Busy(s') < 2 * |b| + Busy(s)
      case Item(p, s', rest) =>
        && all == Run([p] + DecodeAll(token, s', rest).items, DecodeAll(token, s', rest).end)
        && 2 * |rest| + Busy(s') < 2 * |b| + Busy(s)
  {
    ConnectorValid(token);
    assert Shrinks(Connector(token), s, b);
  }

  /** What is still to come of a run, given what has been fired. */
  ghost predicate Owes(token: string, all: Run<State>, before: seq<string>, s: State, b: string, fired: seq<string>,
                       disposed: bool, again: bool)
  {
    if again then
      var rest := DecodeAll(token, s, b);
      !disposed && before + all.items == fired + rest.items && all.end == rest.end
    else
      before + all.items == fired && disposed == all.end.Failed? && (all.end.Waiting? ==> all.end == Waiting(s, b))
  }

  /** What one iteration of the loop does to the state, the unread input and the events fired. */
  ghost predicate Advanced(token: string, s: State, b: string, fired: seq<string>, again: bool, disposed: bool,
                           s': State, b': string, fired': seq<string>)
  {
    match OneStep(token, s, b)
    case NeedMore => !again && !disposed && s' == s && b' == b && fired' == fired
    case Next(t, rest) => again && !disposed && s' == t && b' == rest && fired' == fired
    case Item(p, t, rest) => again && !disposed && s' == t && b' == rest && fired' == fired + [p]
    case Fail => !again && disposed && fired' == fired
  }

  lemma OwesLess(token: string, all: Run<State>, before: seq<string>, s: State, b: string, fired: seq<string>,
                 again: bool, disposed: bool, s': State, b': string, fired': seq<string>)
    requires Owes(token, all, before, s, b, fired, false, true)
    requires Advanced(token, s, b, fired, again, disposed, s', b', fired')
    ensures Owes(token, all, before, s', b', fired', disposed, again)
    ensures again ==> 2 * |b'| + Busy(s') < 2 * |b| + Busy(s)
  {
    DecodeStep(token, s, b);
  }

  class ReverseAdapterConnector {
    const rawData: WritableBuffer
    const authToken: string
    var contentLength: JsNumber
    var authenticated: bool
    var disposed: bool
    var fired: seq<string>

    ghost function Now(): State
      reads this
    {
      State(contentLength, authenticated)
    }

    ghost predicate Valid()
      reads this, rawData
    {
      rawData.Valid()
    }

    constructor (authToken: string)
      ensures Valid() && fresh(rawData) && fresh(rawData.buffer)
      ensures this.authToken == authToken && Now() == START && rawData.Contents() == "" && !disposed && fired == []
    {
      rawData := new WritableBuffer(8192, 8192);
      this.authToken := authToken;
      contentLength, authenticated, disposed, fired := Int(-1), false, false, [];
    }

    method ReadHeaders(header: string)
      modifies this`contentLength, this`authenticated
      ensures Now() == ReadLines(authToken, old(Now()), Lines(header))
    {
      var lines := Lines(header);
      for i := 0 to |lines|
        invariant ReadLines(authToken, old(Now()), lines) == ReadLines(authToken, Now(), lines[i..])
      {
        assert lines[i..][0] == lines[i] && lines[i..][1..] == lines[i + 1..];
        var pair := Pair(lines[i]);
        if pair.0 == "Content-Length" {
          contentLength := ParseInt(pair.1);
        } else if pair.0 == "Auth-Token" {
          if pair.1 == Some(authToken) {
            authenticated := true;
          }
        }
      }
    }

    /** The body of the loop in `handleData`; `again` is its `continue`. */
    method Advance() returns (again: bool)
      requires Valid() && !disposed
      modifies this`contentLength, this`authenticated, this`disposed, this`fired, rawData`size, rawData.buffer
      ensures Valid() && rawData.buffer == old(rawData.buffer)
      ensures Advanced(authToken, old(Now()), old(rawData.Contents()), old(fired), again, disposed,
                       Now(), rawData.Contents(), fired)
    {
      if contentLength.Int? && contentLength.n < 0 {
        var idx := Find(rawData.buffer[..rawData.size], BLANK_LINE);
        if idx.Some? {
          var header := rawData.Head(idx.value);
          ReadHeaders(header.value);
          var _ := rawData.Remove(idx.value + 4);
          return true;
        }
      } else {
        if !authenticated {
          disposed := true;
          return false;
        }
        if contentLength.Int? && rawData.size >= contentLength.n {
          var message := rawData.Head(contentLength.n);
          if |message.value| > 0 {
            fired := fired + [message.value];
          }
          var _ := rawData.Remove(contentLength.n);
          contentLength := Int(-1);
          return true;
        }
      }
      again := false;
    }

    /** `handleData`: the events fired and the new state are what the decoder makes of the chunk. */
    method HandleData(data: string)
      requires Valid() && !disposed
      modifies this, rawData, rawData.buffer
      ensures Valid()
      ensures var r := DecodeAll(authToken, old(Now()), old(rawData.Contents()) + data);
        && fired == old(fired) + r.items
        && disposed == r.end.Failed?
        && (r.end.Waiting? ==> r.end == Waiting(Now(), rawData.Contents()))
      ensures fresh(rawData.buffer) || rawData.buffer == old(rawData.buffer)
    {
      rawData.Write(data);
      ghost var all := DecodeAll(authToken, Now(), rawData.Contents());
      var again := true;
      while again
        invariant Valid()
        invariant fresh(rawData.buffer) || rawData.buffer == old(rawData.buffer)
        invariant Owes(authToken, all, old(fired), Now(), rawData.Contents(), fired, disposed, again)
        decreases again, 2 * |rawData.Contents()| + Busy(Now())
      {
        ghost var s, b, f := Now(), rawData.Contents(), fired;
        again := Advance();
        OwesLess(authToken, all, old(fired), s, b, f, again, disposed, Now(), rawData.Contents(), fired);
      }
    }

    method HandleMessage(json: string) returns (written: string)
      ensures written == Frame(json)
    {
      written := "Content-Length: " + Decimal(|json|) + "\r\n\r\n" + json;
    }
  }
}
