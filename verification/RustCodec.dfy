/** `DAPCodec` of src/codelldb/src/dap_codec.rs: an incremental decoder that reads header lines one
    at a time and then a body of the announced length. */
module RustCodec {
  import opened Options
  import opened Wire
  import opened Incremental

  const USIZE_LIMIT := 0x1_0000_0000_0000_0000

  // ----- one header line -----

  function Code(c: char): nat { c as nat }

  /** Continuation bytes of a multi-byte UTF-8 sequence. */
  predicate IsContinuation(c: char) { 0x80 <= Code(c) <= 0xBF }

  /** Length of the well-formed UTF-8 sequence at the start of the line; 0 when there is none. */
  function SequenceLength(s: string): (n: nat)
    requires s != ""
    ensures n <= |s|
  {
    var b := Code(s[0]);
    if b < 0x80 then 1
    else if 0xC2 <= b <= 0xDF && |s| >= 2 && IsContinuation(s[1]) then 2
    else if 0xE0 <= b <= 0xEF && |s| >= 3 && IsContinuation(s[1]) && IsContinuation(s[2])
         && (b == 0xE0 ==> Code(s[1]) >= 0xA0) && (b == 0xED ==> Code(s[1]) <= 0x9F) then 3
    else if 0xF0 <= b <= 0xF4 && |s| >= 4 && IsContinuation(s[1]) && IsContinuation(s[2]) && IsContinuation(s[3])
         && (b == 0xF0 ==> Code(s[1]) >= 0x90) && (b == 0xF4 ==> Code(s[1]) <= 0x8F) then 4
    else 0
  }

  predicate IsUtf8(s: string)
    decreases |s|
  {
    s == "" || (SequenceLength(s) > 0 && IsUtf8(s[SequenceLength(s)..]))
  }

  function Lower(c: char): char
  {
    if 'A' <= c <= 'Z' then (c as int + 32) as char else c
  }

  predicate EqIgnoreCase(a: string, b: string)
  {
    |a| == |b| && forall i :: 0 <= i < |a| ==> Lower(a[i]) == Lower(b[i])
  }

  datatype Prefix = Rest(text: string) | Differs | NotBoundary

  /** `has_prefix`; slicing a line in the middle of a character panics. */
  function HasPrefix(line: string, prefix: string): Prefix
  {
    if |line| < |prefix| then Differs
    else if |line| > |prefix| && IsContinuation(line[|prefix|]) then NotBoundary
    else if EqIgnoreCase(line[..|prefix|], prefix) then Rest(line[|prefix|..])
    else Differs
  }

  predicate IsSpace(c: char) { c == ' ' || 9 <= Code(c) <= 13 }

  /** White space of two bytes (U+0085 and U+00A0) and of three (U+1680, U+2000 to U+200A, U+2028,
      U+2029, U+202F, U+205F and U+3000). */
  predicate IsSpace2(a: char, b: char)
  {
    Code(a) == 0xC2 && (Code(b) == 0x85 || Code(b) == 0xA0)
  }

  predicate IsSpace3(a: char, b: char, c: char)
  {
    || (Code(a) == 0xE1 && Code(b) == 0x9A && Code(c) == 0x80)
    || (Code(a) == 0xE2 && Code(b) == 0x80 && (0x80 <= Code(c) <= 0x8A || Code(c) in {0xA8, 0xA9, 0xAF}))
    || (Code(a) == 0xE2 && Code(b) == 0x81 && Code(c) == 0x9F)
    || (Code(a) == 0xE3 && Code(b) == 0x80 && Code(c) == 0x80)
  }

  /** `trim` of UTF-8 text: no character has white space as its last bytes but white space itself. */
  function TrimStart(s: string): string
  {
    if |s| >= 1 && IsSpace(s[0]) then TrimStart(s[1..])
    else if |s| >= 2 && IsSpace2(s[0], s[1]) then TrimStart(s[2..])
    else if |s| >= 3 && IsSpace3(s[0], s[1], s[2]) then TrimStart(s[3..])
    else s
  }

  function TrimEnd(s: string): string
  {
    var n := |s|;
    if n >= 1 && IsSpace(s[n - 1]) then TrimEnd(s[..n - 1])
    else if n >= 2 && IsSpace2(s[n - 2], s[n - 1]) then TrimEnd(s[..n - 2])
    else if n >= 3 && IsSpace3(s[n - 3], s[n - 2], s[n - 1]) then TrimEnd(s[..n - 3])
    else s
  }

  /** `parse::<usize>`: an optional plus sign and digits, no larger than the type allows. */
  function ParseUsize(s: string): Option<nat>
  {
    var digits := if s != "" && s[0] == '+' then s[1..] else s;
    if digits == "" || !AllDigits(digits) || NumberOf(digits) >= USIZE_LIMIT then None
    else Some(NumberOf(digits))
  }

  datatype Header = Blank | Length(n: nat) | Ignored | Rejected | Panicked

  function Classify(line: string): Header
  {
    if |line| == 2 then Blank
    else if !IsUtf8(line) then Ignored
    else
      match HasPrefix(line, "Content-Length:")
      case NotBoundary => Panicked
      case Rest(rest) =>
        (match ParseUsize(TrimEnd(TrimStart(rest)))
         case Some(n) => Length(n)
         case None => Ignored)
      case Differs =>
        match HasPrefix(line, "Origin:")
        case NotBoundary => Panicked
        case Rest(_) => Rejected
        case Differs => Ignored
  }

  // ----- the decoder -----

  datatype Phase = Phase(body: bool, contentLen: nat)

  const START := Phase(false, 0)

  function OneStep(s: Phase, buffer: string): Step<Phase>
  {
    if s.body then
      if |buffer| < s.contentLen then NeedMore
      else Item(buffer[..s.contentLen], START, buffer[s.contentLen..])
    else
      match Find(buffer, CRLF)
      case None => NeedMore
      case Some(pos) => AfterLine(s, Classify(buffer[..pos + 2]), buffer[pos + 2..])
  }

  function AfterLine(s: Phase, header: Header, rest: string): Step<Phase>
  {
    match header
    case Blank => Next(s.(body := true), rest)
    case Length(n) => Next(s.(contentLen := n), rest)
    case Ignored => Next(s, rest)
    case Rejected => Fail
    case Panicked => Fail
  }

  function Busy(s: Phase): nat { if s.body then 1 else 0 }

  const CODEC: Decoder<Phase> := Decoder(OneStep, Busy)

  lemma CutConcat(b: string, t: string, n: nat)
    requires n <= |b|
    ensures (b + t)[..n] == b[..n] && (b + t)[n..] == b[n..] + t
  {
  }

  lemma StepSettled(s: Phase, b: string, t: string)
    ensures Settled(CODEC, s, b, t)
  {
    if s.body {
      if |b| >= s.contentLen { CutConcat(b, t, s.contentLen); }
    } else if Find(b, CRLF).Some? {
      var n := Find(b, CRLF).value + 2;
      FindStable(b, CRLF, t);
      CutConcat(b, t, n);
    }
  }

  /** Hence decoding does not depend on how the input is cut (Incremental.ChunkingIrrelevant). */
  lemma CodecValid()
    ensures Valid(CODEC)
  {
    forall s, b, t
      ensures Settled(CODEC, s, b, t)
    {
      StepSettled(s, b, t);
    }
  }

  function DecodeOne(s: Phase, input: string): Polled<Phase>
  {
    CodecValid();
    Poll(CODEC, s, input)
  }

  function DecodeAll(s: Phase, input: string): Run<Phase>
  {
    CodecValid();
    Drain(CODEC, s, input)
  }

  function DecodeChunks(end: End<Phase>, chunks: seq<string>): Run<Phase>
  {
    CodecValid();
    FeedAll(CODEC, end, chunks)
  }

  /** Decoding is independent of chunking: cutting the input anywhere, even inside a line end or a
      body, yields the same messages and the same final state as decoding it at once. */
  lemma DecodingIgnoresChunking(s: Phase, unread: string, chunks: seq<string>)
    requires OneStep(s, unread).NeedMore?
    ensures DecodeChunks(Waiting(s, unread), chunks) == DecodeAll(s, unread + Concat(chunks))
  {
    CodecValid();
    ChunkingIrrelevant(CODEC, s, unread, chunks);
  }

  class DAPCodec {
    var body: bool
    var contentLen: nat

    ghost function State(): Phase
      reads this
    {
      Phase(body, contentLen)
    }

    constructor ()
      ensures State() == START
    {
      body, contentLen := false, 0;
    }

    /** `decode`: the unread rest of the buffer is returned in place of the consumed one. */
    method Decode(input: string) returns (r: Option<string>, ok: bool, buffer: string)
      modifies this
      ensures match DecodeOne(old(State()), input)
        case Nothing(s, unread) => ok && r == None && State() == s && buffer == unread
        case Delivered(p, s, unread) => ok && r == Some(p) && State() == s && buffer == unread
        case Broken => !ok && r == None
    {
      CodecValid();
      buffer := input;
      while true
        invariant Poll(CODEC, old(State()), input) == Poll(CODEC, State(), buffer)
        decreases Size(CODEC, State(), buffer)
      {
        assert Shrinks(CODEC, State(), buffer);
        if !body {
          var pos := Find(buffer, CRLF);
          if pos.None? {
            return None, true, buffer;
          }
          var line := buffer[..pos.value + 2];
          buffer := buffer[pos.value + 2..];
          match Classify(line)
          case Blank => body := true;
          case Length(n) => contentLen := n;
          case Ignored =>
          case Rejected => return None, false, buffer;
          case Panicked => return None, false, buffer;
        } else {
          if |buffer| < contentLen {
            return None, true, buffer;
          }
          var message := buffer[..contentLen];
          buffer := buffer[contentLen..];
          body, contentLen := false, 0;
          return Some(message), true, buffer;
        }
      }
    }

    /** What the framed stream does with a chunk that arrives: decode until nothing is delivered. */
    method Receive(unread: string, chunk: string) returns (items: seq<string>, ok: bool, buffer: string)
      modifies this
      ensures items == DecodeAll(old(State()), unread + chunk).items
      ensures match DecodeAll(old(State()), unread + chunk).end
        case Waiting(s, rest) => ok && State() == s && buffer == rest
        case Failed => !ok
    {
      CodecValid();
      buffer, items := unread + chunk, [];
      ghost var all := Drain(CODEC, State(), buffer);
      while true
        invariant items + Drain(CODEC, State(), buffer).items == all.items
        invariant Drain(CODEC, State(), buffer).end == all.end
        decreases Size(CODEC, State(), buffer)
      {
        DrainByPolling(CODEC, State(), buffer);
        var message;
        message, ok, buffer := Decode(buffer);
        if !ok || message.None? {
          return;
        }
        items := items + [message.value];
      }
    }

    method Encode(message: string, buffer: string) returns (out: string)
      ensures out == buffer + Frame(message)
    {
      out := buffer + "Content-Length: " + Decimal(|message|) + "\r\n\r\n";
      out := out + message;
      assert out == buffer + Frame(message);
    }
  }

  // ----- a frame is decoded to its payload -----

  lemma {:induction false} AsciiIsUtf8(s: string)
    requires forall i :: 0 <= i < |s| ==> Code(s[i]) < 0x80
    ensures IsUtf8(s)
    decreases |s|
  {
    if s != "" { AsciiIsUtf8(s[1..]); }
  }

  lemma TrimNumber(digits: string)
    requires digits != "" && AllDigits(digits)
    ensures TrimEnd(TrimStart(" " + digits + "\r\n")) == digits
  {
    var s := digits + "\r\n";
    assert (" " + digits + "\r\n")[1..] == s;
    assert TrimStart(s) == s by { assert s[0] == digits[0]; }
    var t := digits + "\r";
    assert s[|s| - 1] == '\n' && s[..|s| - 1] == t;
    assert t[|t| - 1] == '\r' && t[..|t| - 1] == digits;
    assert TrimEnd(digits) == digits;
  }

  lemma AnyCase(prefix: string)
    requires EqIgnoreCase(prefix, "Content-Length:")
    ensures |prefix| == 15 && '\r' !in prefix && forall i :: 0 <= i < |prefix| ==> Code(prefix[i]) < 0x80
  {
    var p := "Content-Length:";
    forall i | 0 <= i < |prefix|
      ensures Code(prefix[i]) < 0x80 && prefix[i] != '\r'
    {
      assert Lower(prefix[i]) == Lower(p[i]);
      assert Code(Lower(p[i])) < 0x80 && Lower(p[i]) != '\r';
    }
  }

  lemma LengthPrefix(prefix: string, digits: string)
    requires EqIgnoreCase(prefix, "Content-Length:") && digits != "" && AllDigits(digits)
    ensures var line := prefix + " " + digits + "\r\n";
      |line| > 2 && IsUtf8(line) && HasPrefix(line, "Content-Length:") == Rest(" " + digits + "\r\n")
  {
    var line := prefix + " " + digits + "\r\n";
    AnyCase(prefix);
    AsciiIsUtf8(line);
    assert line[..15] == prefix && line[15..] == " " + digits + "\r\n";
  }

  lemma ClassifyLength(prefix: string, n: nat)
    requires EqIgnoreCase(prefix, "Content-Length:") && n < USIZE_LIMIT
    ensures Classify(prefix + " " + Decimal(n) + "\r\n") == Length(n)
  {
    var digits := Decimal(n);
    LengthPrefix(prefix, digits);
    TrimNumber(digits);
    assert IsDigit(digits[0]);
    NumberOfDecimal(n);
  }

  lemma LineFound(line: string, rest: string)
    requires '\r' !in line
    ensures Find(line + CRLF + rest, CRLF) == Some(|line|)
  {
    var s := line + CRLF + rest;
    assert s[|line|..|line| + 2] == CRLF;
    forall j | 0 <= j < |line|
      ensures !IsAt(s, CRLF, j)
    {
      if j + 2 <= |s| { assert s[j..j + 2][0] == line[j]; }
    }
    FindIs(s, CRLF, |line|);
  }

  lemma StepLine(s: Phase, line: string, rest: string)
    requires !s.body && '\r' !in line
    ensures OneStep(s, line + CRLF + rest) == AfterLine(s, Classify(line + CRLF), rest)
  {
    LineFound(line, rest);
    var b := line + CRLF + rest;
    assert b[..|line| + 2] == line + CRLF && b[|line| + 2..] == rest;
  }

  // ----- header lines -----

  predicate StartsLike(line: string, prefix: string)
  {
    |line| >= |prefix| && EqIgnoreCase(line[..|prefix|], prefix)
  }

  /** An `Origin` header, however it is capitalised, ends the connection. */
  lemma OriginRejected(s: Phase, line: string, rest: string)
    requires !s.body && '\r' !in line && StartsLike(line, "Origin:") && IsUtf8(line + CRLF)
    ensures OneStep(s, line + CRLF + rest) == Fail
  {
    StepLine(s, line, rest);
    var l := line + CRLF;
    assert l[..7] == line[..7] && Lower(l[0]) == 'o';
    assert |l| >= 15 ==> !EqIgnoreCase(l[..15], "Content-Length:") by {
      if |l| >= 15 { assert l[..15][0] == l[0]; }
    }
  }

  /** Headers of other names are skipped, and so are lines that are not text. */
  lemma OtherHeaderSkipped(s: Phase, line: string, rest: string)
    requires !s.body && '\r' !in line && line != "" && !StartsLike(line, "Content-Length:") && !StartsLike(line, "Origin:")
    requires forall i :: 0 <= i < |line| && IsContinuation(line[i]) ==> i != 7 && i != 15
    ensures OneStep(s, line + CRLF + rest) == Next(s, rest)
  {
    StepLine(s, line, rest);
    NotLike(line, "Content-Length:");
    NotLike(line, "Origin:");
  }

  lemma NotLike(line: string, prefix: string)
    requires !StartsLike(line, prefix) && '\r' !in prefix && '\n' !in prefix
    requires |prefix| < |line| ==> !IsContinuation(line[|prefix|])
    ensures HasPrefix(line + CRLF, prefix) == Differs
  {
    var l, n := line + CRLF, |prefix|;
    if |l| >= n {
      if n <= |line| {
        assert l[..n] == line[..n];
      } else {
        assert l[..n][|line|] == '\r' && Lower('\r') == '\r';
        assert Lower(prefix[|line|]) != '\r';
      }
    }
  }

  /** A length that does not fit in a `usize` is ignored. */
  lemma HugeLengthIgnored(s: Phase, n: nat, rest: string)
    requires !s.body && n >= USIZE_LIMIT
    ensures OneStep(s, "Content-Length:" + " " + Decimal(n) + CRLF + rest) == Next(s, rest)
  {
    var digits := Decimal(n);
    StepLine(s, "Content-Length:" + " " + digits, rest);
    LengthPrefix("Content-Length:", digits);
    TrimNumber(digits);
    assert IsDigit(digits[0]);
    NumberOfDecimal(n);
  }

  /** The length header may be capitalised in any way; the last one before the blank line counts. */
  lemma LengthHeaderRead(s: Phase, prefix: string, n: nat, rest: string)
    requires !s.body && EqIgnoreCase(prefix, "Content-Length:") && n < USIZE_LIMIT
    ensures OneStep(s, prefix + " " + Decimal(n) + CRLF + rest) == Next(s.(contentLen := n), rest)
  {
    AnyCase(prefix);
    ClassifyLength(prefix, n);
    StepLine(s, prefix + " " + Decimal(n), rest);
  }

  lemma StepFrameHeader(payload: string, rest: string)
    requires |payload| < USIZE_LIMIT
    ensures OneStep(START, Frame(payload) + rest) == Next(Phase(false, |payload|), CRLF + (payload + rest))
  {
    var line := "Content-Length: " + Decimal(|payload|);
    assert line == "Content-Length:" + " " + Decimal(|payload|);
    assert Frame(payload) + rest == line + CRLF + (CRLF + (payload + rest));
    LengthHeaderRead(START, "Content-Length:", |payload|, CRLF + (payload + rest));
  }

  lemma StepBlankLine(n: nat, rest: string)
    ensures OneStep(Phase(false, n), CRLF + rest) == Next(Phase(true, n), rest)
  {
    StepLine(Phase(false, n), "", rest);
    assert "" + CRLF + rest == CRLF + rest && "" + CRLF == CRLF;
  }

  /** A frame is decoded to its payload, and the decoder is ready for the next one. */
  lemma FrameDecodes(payload: string, rest: string)
    requires |payload| < USIZE_LIMIT
    ensures var after := DecodeAll(START, rest);
      DecodeAll(START, Frame(payload) + rest) == Run([payload] + after.items, after.end)
  {
    CodecValid();
    var n := |payload|;
    calc {
      Drain(CODEC, START, Frame(payload) + rest);
      { StepFrameHeader(payload, rest); }
      Drain(CODEC, Phase(false, n), CRLF + (payload + rest));
      { StepBlankLine(n, payload + rest); }
      Drain(CODEC, Phase(true, n), payload + rest);
    }
  }

  lemma {:induction false} FramesDecode(payloads: seq<string>)
    requires forall i :: 0 <= i < |payloads| ==> |payloads[i]| < USIZE_LIMIT
    ensures DecodeAll(START, Frames(payloads)) == Run(payloads, Waiting(START, ""))
  {
    CodecValid();
    if payloads == [] {
      assert CODEC.step(START, "").NeedMore?;
    } else {
      FramesDecode(payloads[1..]);
      FrameDecodes(payloads[0], Frames(payloads[1..]));
      assert [payloads[0]] + payloads[1..] == payloads;
    }
  }

  /** Whatever the extension writes with `handleMessage`, and however the transport cuts it, the
      adapter decodes to the same messages in the same order. */
  lemma ExtensionToAdapter(payloads: seq<string>, chunks: seq<string>)
    requires forall i :: 0 <= i < |payloads| ==> |payloads[i]| < USIZE_LIMIT
    requires Concat(chunks) == Frames(payloads)
    ensures DecodeChunks(Waiting(START, ""), chunks) == Run(payloads, Waiting(START, ""))
  {
    CodecValid();
    FramesDecode(payloads);
    assert "" + Concat(chunks) == Concat(chunks);
    DecodingIgnoresChunking(START, "", chunks);
  }
}
