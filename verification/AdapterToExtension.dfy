/** The adapter writes an authentication line and then frames (src/codelldb/src/lib.rs,
    src/codelldb/src/dap_codec.rs); the extension decodes them with `handleData`. */
module AdapterToExtension {
  import opened Options
  import opened Wire
  import opened Incremental
  import opened ReverseConnector

  /** Largest length that JavaScript numbers hold exactly. */
  const SAFE_INTEGER := 0x20_0000_0000_0000

  /** Tokens are base64 text: no separator, no space, no line end. */
  predicate IsToken(token: string)
  {
    forall i :: 0 <= i < |token| ==> token[i] != ':' && token[i] != ' ' && token[i] != '\r'
  }

  function AuthLine(token: string): string
  {
    "Auth-Token: " + token
  }

  function LengthLine(n: nat): string
  {
    "Content-Length: " + Decimal(n)
  }

  // ----- finding the end of the headers -----

  lemma BlankFound(a: string, b: string, rest: string)
    requires '\r' !in a && '\r' !in b && b != ""
    ensures Find(a + CRLF + b + BLANK_LINE + rest, BLANK_LINE) == Some(|a| + 2 + |b|)
  {
    var s := a + CRLF + b + BLANK_LINE + rest;
    var i := |a| + 2 + |b|;
    assert s[i..i + 4] == BLANK_LINE;
    forall j | 0 <= j < i
      ensures !IsAt(s, BLANK_LINE, j)
    {
      if j + 4 <= |s| {
        if j == |a| {
          assert s[j..j + 4][2] == b[0];
        } else {
          assert s[j..j + 4][0] == s[j] != '\r';
        }
      }
    }
    FindIs(s, BLANK_LINE, i);
  }

  lemma BlankFoundAfterLine(h: string, rest: string)
    requires '\r' !in h
    ensures Find(h + BLANK_LINE + rest, BLANK_LINE) == Some(|h|)
  {
    var s := h + BLANK_LINE + rest;
    assert s[|h|..|h| + 4] == BLANK_LINE;
    forall j | 0 <= j < |h|
      ensures !IsAt(s, BLANK_LINE, j)
    {
      if j + 4 <= |s| { assert s[j..j + 4][0] == h[j]; }
    }
    FindIs(s, BLANK_LINE, |h|);
  }

  lemma {:induction false} NoLineEnd(s: string)
    requires '\r' !in s
    ensures Find(s, CRLF) == None
  {
    if |s| >= 2 {
      assert s[..2][0] == s[0];
      NoLineEnd(s[1..]);
    }
  }

  lemma TwoLines(a: string, b: string)
    requires '\r' !in a && '\r' !in b
    ensures Lines(a + CRLF + b) == [a, b]
  {
    var s := a + CRLF + b;
    assert s[|a|..|a| + 2] == CRLF;
    forall j | 0 <= j < |a|
      ensures !IsAt(s, CRLF, j)
    {
      if j + 2 <= |s| { assert s[j..j + 2][0] == a[j]; }
    }
    FindIs(s, CRLF, |a|);
    assert s[..|a|] == a && s[|a| + 2..] == b;
    NoLineEnd(b);
  }

  // ----- reading a header line -----

  lemma {:induction false} SeparatorIs(s: string, i: nat)
    requires i + 1 < |s| && s[i] == ':' && s[i + 1] == ' '
    requires forall j :: 0 <= j < i ==> s[j] != ':'
    ensures Separator(s) == i
  {
    if i > 0 { SeparatorIs(s[1..], i - 1); }
  }

  lemma PairOf(name: string, value: string)
    requires ':' !in name && ':' !in value && (value != "" ==> value[0] != ' ')
    ensures Pair(name + ": " + value) == (name, Some(value))
  {
    var line := name + ": " + value;
    SeparatorIs(line, |name|);
    assert line[..|name|] == name && line[|name| + 1..] == " " + value;
    assert (" " + value)[1..] == value;
    assert SkipSpaces(" " + value) == value;
    assert value[..|value|] == value;
  }

  lemma {:induction false} AllLeading(s: string)
    requires AllDigits(s)
    ensures LeadingDigits(s) == s
  {
    if s != "" {
      AllLeading(s[1..]);
      assert s == [s[0]] + s[1..];
    }
  }

  lemma ParseDecimal(n: nat)
    ensures ParseInt(Some(Decimal(n))) == Int(n)
  {
    var s := Decimal(n);
    MagnitudeOf(s);
    assert IsDigit(s[0]) && TrimLeft(s) == s;
    NumberOfDecimal(n);
  }

  /** A sign is taken into account; a negative length leaves the connector among the headers. */
  lemma ParseSigned(n: nat)
    ensures ParseInt(Some("-" + Decimal(n))) == Int(0 - n) && ParseInt(Some("+" + Decimal(n))) == Int(n)
  {
    var s := Decimal(n);
    MagnitudeOf(s);
    assert ("-" + s)[1..] == s && ("+" + s)[1..] == s;
    assert TrimLeft("-" + s) == "-" + s && TrimLeft("+" + s) == "+" + s;
    NumberOfDecimal(n);
  }

  lemma MagnitudeOf(s: string)
    requires s != "" && AllDigits(s)
    ensures ParseMagnitude(s) == Some(NumberOf(s))
  {
    assert IsDigit(s[0]);
    assert |s| >= 2 ==> IsDigit(s[1]);
    AllLeading(s);
  }

  lemma ReadLengthLine(token: string, s: State, n: nat)
    ensures ReadLine(token, s, LengthLine(n)) == s.(contentLength := Int(n))
  {
    var digits := Decimal(n);
    assert IsDigit(digits[0]);
    assert forall i :: 0 <= i < |digits| ==> digits[i] != ':';
    PairOf("Content-Length", digits);
    assert "Content-Length" + ": " + digits == LengthLine(n);
    ParseDecimal(n);
  }

  lemma ReadAuthLine(token: string, sent: string, s: State)
    requires IsToken(sent)
    ensures ReadLine(token, s, AuthLine(sent)) == if sent == token then s.(authenticated := true) else s
  {
    PairOf("Auth-Token", sent);
    assert "Auth-Token" + ": " + sent == AuthLine(sent);
  }

  /** Headers of other names change nothing. */
  lemma OtherLineIgnored(token: string, name: string, value: string, s: State)
    requires ':' !in name && name != "Content-Length" && name != "Auth-Token"
    requires ':' !in value && (value != "" ==> value[0] != ' ')
    ensures ReadLine(token, s, name + ": " + value) == s
  {
    PairOf(name, value);
  }

  // ----- decoding a frame -----

  lemma StepOneLine(token: string, s: State, h: string, rest: string)
    requires InHeaders(s) && '\r' !in h
    ensures OneStep(token, s, h + BLANK_LINE + rest) == Next(ReadLine(token, s, h), rest)
  {
    var b := h + BLANK_LINE + rest;
    BlankFoundAfterLine(h, rest);
    assert b[..|h|] == h && b[|h| + 4..] == rest;
    NoLineEnd(h);
    assert ReadLines(token, s, [h]) == ReadLine(token, s, h);
  }

  lemma StepTwoLines(token: string, s: State, a: string, h: string, rest: string)
    requires InHeaders(s) && '\r' !in a && '\r' !in h && h != ""
    ensures OneStep(token, s, a + CRLF + h + BLANK_LINE + rest) == Next(ReadLine(token, ReadLine(token, s, a), h), rest)
  {
    BlankFound(a, h, rest);
    CutTwoLines(a, h, rest);
    TwoLines(a, h);
    ReadTwoLines(token, s, a, h);
  }

  lemma CutTwoLines(a: string, h: string, rest: string)
    ensures var b, idx := a + CRLF + h + BLANK_LINE + rest, |a| + 2 + |h|;
      b[..idx] == a + CRLF + h && b[idx + 4..] == rest
  {
  }

  lemma ReadTwoLines(token: string, s: State, a: string, h: string)
    ensures ReadLines(token, s, [a, h]) == ReadLine(token, ReadLine(token, s, a), h)
  {
    assert [a, h][1..] == [h];
    assert ReadLines(token, s, [a, h]) == ReadLines(token, ReadLine(token, s, a), [h]);
  }

  /** The headers of a frame, when they are not the first. */
  lemma StepLength(token: string, s: State, n: nat, rest: string)
    requires InHeaders(s)
    ensures OneStep(token, s, LengthLine(n) + BLANK_LINE + rest) == Next(s.(contentLength := Int(n)), rest)
  {
    StepOneLine(token, s, LengthLine(n), rest);
    ReadLengthLine(token, s, n);
  }

  /** The first headers, which the authentication line precedes: the connection is authenticated
      exactly when the token is the expected one. */
  lemma StepAuthLength(token: string, sent: string, n: nat, rest: string)
    requires IsToken(sent)
    ensures OneStep(token, START, FirstHeaders(sent, n) + rest) == Next(State(Int(n), sent == token), rest)
  {
    var a, h := AuthLine(sent), LengthLine(n);
    StepTwoLines(token, START, a, h, rest);
    ReadAuthLine(token, sent, START);
    ReadLengthLine(token, State(Int(-1), sent == token), n);
  }

  function FirstHeaders(sent: string, n: nat): string
  {
    AuthLine(sent) + CRLF + LengthLine(n) + BLANK_LINE
  }

  const READY := State(Int(-1), true)

  /** What the connector makes of a body: empty ones are not messages. */
  function Messages(payloads: seq<string>): seq<string>
  {
    if payloads == [] then []
    else (if payloads[0] == "" then [] else [payloads[0]]) + Messages(payloads[1..])
  }

  lemma {:induction false} AllMessages(payloads: seq<string>)
    requires forall i :: 0 <= i < |payloads| ==> payloads[i] != ""
    ensures Messages(payloads) == payloads
  {
    if payloads != [] {
      AllMessages(payloads[1..]);
      assert [payloads[0]] + payloads[1..] == payloads;
    }
  }

  lemma BodyDecodes(token: string, payload: string, rest: string)
    ensures var after := DecodeAll(token, READY, rest);
      DecodeAll(token, State(Int(|payload|), true), payload + rest) ==
        Run((if payload == "" then [] else [payload]) + after.items, after.end)
  {
    DecodeStep(token, State(Int(|payload|), true), payload + rest);
    if payload == "" {
      assert payload + rest == rest;
    } else {
      assert (payload + rest)[..|payload|] == payload && (payload + rest)[|payload|..] == rest;
    }
  }

  lemma FrameDecodes(token: string, payload: string, rest: string)
    ensures var after := DecodeAll(token, READY, rest);
      DecodeAll(token, READY, Frame(payload) + rest) ==
        Run((if payload == "" then [] else [payload]) + after.items, after.end)
  {
    assert Frame(payload) + rest == LengthLine(|payload|) + BLANK_LINE + (payload + rest);
    StepLength(token, READY, |payload|, payload + rest);
    DecodeStep(token, READY, Frame(payload) + rest);
    BodyDecodes(token, payload, rest);
  }

  lemma {:induction false} FramesDecode(token: string, payloads: seq<string>)
    ensures DecodeAll(token, READY, Frames(payloads)) == Run(Messages(payloads), Waiting(READY, ""))
  {
    if payloads == [] {
      DecodeStep(token, READY, "");
    } else {
      FramesDecode(token, payloads[1..]);
      FrameDecodes(token, payloads[0], Frames(payloads[1..]));
    }
  }

  /** What the adapter writes: the authentication line and then the frames. */
  function Written(token: string, payloads: seq<string>): string
  {
    AuthLine(token) + CRLF + Frames(payloads)
  }

  lemma WrittenStarts(token: string, payloads: seq<string>)
    requires payloads != []
    ensures Written(token, payloads) ==
      FirstHeaders(token, |payloads[0]|) + (payloads[0] + Frames(payloads[1..]))
  {
    assert Frames(payloads) == LengthLine(|payloads[0]|) + BLANK_LINE + (payloads[0] + Frames(payloads[1..]));
  }

  lemma FirstHeadersDecode(token: string, sent: string, n: nat, rest: string)
    requires IsToken(sent)
    ensures DecodeAll(token, START, FirstHeaders(sent, n) + rest) == DecodeAll(token, State(Int(n), sent == token), rest)
  {
    StepAuthLength(token, sent, n, rest);
    DecodeStep(token, START, FirstHeaders(sent, n) + rest);
  }

  lemma WrittenDecodes(token: string, payloads: seq<string>)
    requires IsToken(token) && payloads != []
    ensures DecodeAll(token, START, Written(token, payloads)) == Run(Messages(payloads), Waiting(READY, ""))
  {
    var p, rest := payloads[0], Frames(payloads[1..]);
    WrittenStarts(token, payloads);
    FirstHeadersDecode(token, token, |p|, p + rest);
    BodyDecodes(token, p, rest);
    FramesDecode(token, payloads[1..]);
  }

  /** However the transport cuts what the adapter writes, the extension fires exactly the messages
      sent, in order, and is left authenticated with nothing unread. */
  lemma AdapterToExtension(token: string, payloads: seq<string>, chunks: seq<string>)
    requires IsToken(token) && payloads != []
    requires forall i :: 0 <= i < |payloads| ==> |payloads[i]| < SAFE_INTEGER
    requires Concat(chunks) == Written(token, payloads)
    ensures DecodeChunks(token, Waiting(START, ""), chunks) == Run(Messages(payloads), Waiting(READY, ""))
    ensures (forall i :: 0 <= i < |payloads| ==> payloads[i] != "") ==> Messages(payloads) == payloads
  {
    WrittenDecodes(token, payloads);
    assert "" + Concat(chunks) == Concat(chunks);
    DecodingIgnoresChunking(token, START, "", chunks);
    if forall i :: 0 <= i < |payloads| ==> payloads[i] != "" { AllMessages(payloads); }
  }

  lemma WrittenFails(token: string, sent: string, payloads: seq<string>)
    requires IsToken(sent) && sent != token && payloads != []
    ensures DecodeAll(token, START, Written(sent, payloads)) == Run([], Failed)
  {
    var p, rest := payloads[0], Frames(payloads[1..]);
    WrittenStarts(sent, payloads);
    FirstHeadersDecode(token, sent, |p|, p + rest);
    DecodeStep(token, State(Int(|p|), false), p + rest);
  }

  /** Without the right token the first complete header block ends the connection, and nothing is fired. */
  lemma WrongTokenFiresNothing(token: string, sent: string, payloads: seq<string>, chunks: seq<string>)
    requires IsToken(sent) && sent != token && payloads != []
    requires Concat(chunks) == Written(sent, payloads)
    ensures DecodeChunks(token, Waiting(START, ""), chunks) == Run([], Failed)
  {
    WrittenFails(token, sent, payloads);
    assert "" + Concat(chunks) == Concat(chunks);
    DecodingIgnoresChunking(token, START, "", chunks);
  }
}
