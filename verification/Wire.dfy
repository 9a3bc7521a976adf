/** The wire format shared by both ends of the adapter connection: header lines, a blank line and
    a body of the announced length ("Base Protocol" section of the Debug Adapter Protocol
    overview). A byte sequence is written as a string, one character per byte. */
module Wire {
  import opened Options

  const CRLF := "\r\n"

  ghost predicate IsAt(s: string, pat: string, i: int)
  {
    0 <= i && i + |pat| <= |s| && s[i..i + |pat|] == pat
  }

  /** First occurrence of a pattern. */
  function Find(s: string, pat: string): (r: Option<nat>)
    ensures r.Some? ==> r.value + |pat| <= |s| && s[r.value..r.value + |pat|] == pat
  {
    if |s| < |pat| then None
    else if s[..|pat|] == pat then Some(0)
    else if s == [] then None
    else
      match Find(s[1..], pat)
      case Some(i) => assert s[i + 1..i + 1 + |pat|] == s[1..][i..i + |pat|]; Some(i + 1)
      case None => None
  }

  /** An occurrence before which there is none is the one that is found. */
  lemma {:induction false} FindIs(s: string, pat: string, i: nat)
    requires IsAt(s, pat, i)
    requires forall j :: 0 <= j < i ==> !IsAt(s, pat, j)
    ensures Find(s, pat) == Some(i)
  {
    if i > 0 {
      assert !IsAt(s, pat, 0);
      assert s[1..][i - 1..i - 1 + |pat|] == s[i..i + |pat|];
      forall j | 0 <= j < i - 1
        ensures !IsAt(s[1..], pat, j)
      {
        assert !IsAt(s, pat, j + 1);
        if j + |pat| <= |s[1..]| { assert s[1..][j..j + |pat|] == s[j + 1..j + 1 + |pat|]; }
      }
      FindIs(s[1..], pat, i - 1);
    }
  }

  /** More input does not move the first occurrence. */
  lemma {:induction false} FindStable(s: string, pat: string, t: string)
    requires Find(s, pat).Some?
    ensures Find(s + t, pat) == Find(s, pat)
  {
    assert (s + t)[..|pat|] == s[..|pat|];
    if s[..|pat|] != pat {
      assert (s + t)[1..] == s[1..] + t;
      FindStable(s[1..], pat, t);
    }
  }

  // ----- numbers -----

  predicate IsDigit(c: char) { '0' <= c <= '9' }

  function DigitValue(c: char): nat
    requires IsDigit(c)
  {
    c as int - '0' as int
  }

  function Digit(d: nat): (c: char)
    requires d < 10
    ensures IsDigit(c) && DigitValue(c) == d
  {
    "0123456789"[d]
  }

  predicate AllDigits(s: string)
  {
    forall i :: 0 <= i < |s| ==> IsDigit(s[i])
  }

  function Decimal(n: nat): (s: string)
    ensures s != "" && AllDigits(s)
  {
    if n < 10 then [Digit(n)] else Decimal(n / 10) + [Digit(n % 10)]
  }

  function NumberOf(s: string): nat
    requires AllDigits(s)
  {
    if s == "" then 0 else NumberOf(s[..|s| - 1]) * 10 + DigitValue(s[|s| - 1])
  }

  lemma {:induction false} NumberOfDecimal(n: nat)
    ensures NumberOf(Decimal(n)) == n
  {
    var s := Decimal(n);
    if n < 10 {
      assert s[..0] == "";
    } else {
      NumberOfDecimal(n / 10);
      assert s[..|s| - 1] == Decimal(n / 10);
    }
  }

  // ----- frames -----

  /** What `encode` and `handleMessage` write for one message. */
  function Frame(payload: string): string
  {
    "Content-Length: " + Decimal(|payload|) + "\r\n\r\n" + payload
  }

  function Frames(payloads: seq<string>): string
  {
    if payloads == [] then "" else Frame(payloads[0]) + Frames(payloads[1..])
  }

  function Concat(chunks: seq<string>): string
  {
    if chunks == [] then "" else chunks[0] + Concat(chunks[1..])
  }
}
