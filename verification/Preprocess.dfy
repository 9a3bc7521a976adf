/** Preprocessing of Python expressions (src/codelldb/src/expressions/preprocess.rs and
    qualified_ident.rs): embedded native expressions become calls of `__eval`. A recogniser returns
    the length of what it recognises at the start of the text. */
module Preprocess {
  import opened Options

  // ----- qualified identifiers -----

  predicate IsAlpha(c: char) { 'a' <= c <= 'z' || 'A' <= c <= 'Z' || c == '_' }

  predicate IsAlnum(c: char) { IsAlpha(c) || '0' <= c <= '9' }

  function AlnumRun(s: string): (n: nat)
    ensures n <= |s|
  {
    if s != "" && IsAlnum(s[0]) then 1 + AlnumRun(s[1..]) else 0
  }

  function Ident(s: string): (r: Option<nat>)
    ensures r.Some? ==> 1 <= r.value <= |s|
  {
    if s != "" && IsAlpha(s[0]) then Some(1 + AlnumRun(s[1..])) else None
  }

  function Spaces(s: string): (n: nat)
    ensures n <= |s|
  {
    if s != "" && (s[0] == ' ' || s[0] == '\t') then 1 + Spaces(s[1..]) else 0
  }

  predicate StartsWith(s: string, t: string) { |t| <= |s| && s[..|t|] == t }

  predicate Takes(r: Option<nat>, n: nat) { r.Some? && r.value == n }

  /** Length of the longest beginning without any of the given characters. */
  function Until(s: string, stop: string): (n: nat)
    ensures n <= |s|
  {
    if s != "" && s[0] !in stop then 1 + Until(s[1..], stop) else 0
  }

  predicate TwoColons(s: string) { |s| >= 2 && s[0] == ':' && s[1] == ':' }

  function Lead(s: string): (n: nat)
    ensures n <= |s|
  {
    if TwoColons(s) then 2 + Spaces(s[2..]) else 0
  }

  /** Segments separated by `::`, after an optional leading `::`. */
  function QualifiedIdent(s: string): (r: Option<nat>)
    ensures r.Some? ==> 1 <= r.value <= |s|
    decreases |s|, 5
  {
    match Segments(s[Lead(s)..])
    case None => None
    case Some(n) => Some(Lead(s) + n)
  }

  function Segments(s: string): (r: Option<nat>)
    ensures r.Some? ==> 1 <= r.value <= |s|
    decreases |s|, 4
  {
    match Segment(s)
    case None => None
    case Some(n) => Some(n + MoreSegments(s[n..]))
  }

  /** Length of a `::` with any blanks around it. */
  function Colons(s: string): (n: nat)
    ensures n == 0 || 2 <= n <= |s|
  {
    var a := Spaces(s);
    if TwoColons(s[a..]) then a + 2 + Spaces(s[a + 2..]) else 0
  }

  function MoreSegments(s: string): (n: nat)
    ensures n <= |s|
    decreases |s|, 4
  {
    if Colons(s) == 0 then 0
    else
      match Segment(s[Colons(s)..])
      case None => 0
      case Some(n) => Colons(s) + n + MoreSegments(s[Colons(s)..][n..])
  }

  function Segment(s: string): (r: Option<nat>)
    ensures r.Some? ==> 1 <= r.value <= |s|
    decreases |s|, 3
  {
    match Ident(s)
    case None => None
    case Some(n) =>
      var sp := n + Spaces(s[n..]);
      match TemplateParams(s[sp..])
      case None => Some(n)
      case Some(m) => Some(sp + m)
  }

  function TemplateParams(s: string): (r: Option<nat>)
    ensures r.Some? ==> 2 <= r.value <= |s|
    decreases |s|, 2
  {
    if s == "" || s[0] != '<' then None
    else
      var n := 1 + ParamList(s[1..]);
      if n < |s| && s[n] == '>' then Some(n + 1) else None
  }

  function ParamList(s: string): (n: nat)
    ensures n <= |s|
    decreases |s|, 8
  {
    match SpacedParam(s)
    case None => 0
    case Some(n) => n + MoreParams(s[n..])
  }

  function MoreParams(s: string): (n: nat)
    ensures n <= |s|
    decreases |s|, 0
  {
    if s == "" || s[0] != ',' then 0
    else
      match SpacedParam(s[1..])
      case None => 0
      case Some(n) => 1 + n + MoreParams(s[1..][n..])
  }

  function SpacedParam(s: string): (r: Option<nat>)
    ensures r.Some? ==> 1 <= r.value <= |s|
    decreases |s|, 7
  {
    var a := Spaces(s);
    match Param(s[a..])
    case None => None
    case Some(n) => Some(a + n + Spaces(s[a..][n..]))
  }

  predicate EndsParam(c: char) { c == '<' || c == ',' || c == '>' }

  function OtherParam(s: string): (n: nat)
    ensures n <= |s|
  {
    if s != "" && !EndsParam(s[0]) then 1 + OtherParam(s[1..]) else 0
  }

  function Param(s: string): (r: Option<nat>)
    ensures r.Some? ==> 1 <= r.value <= |s|
    decreases |s|, 6
  {
    match QualifiedIdent(s)
    case Some(n) => Some(n)
    case None => if OtherParam(s) > 0 then Some(OtherParam(s)) else None
  }

  // ----- string literals and native expressions -----

  function Body(s: string, delim: char): (n: nat)
    ensures n <= |s|
  {
    if |s| >= 2 && s[0] == '\\' then 2 + Body(s[2..], delim)
    else if s != "" && s[0] != delim then 1 + Body(s[1..], delim)
    else 0
  }

  function Quoted(s: string, delim: char): (r: Option<nat>)
    ensures r.Some? ==> 2 <= r.value <= |s|
  {
    if s == "" || s[0] != delim then None
    else
      var n := 1 + Body(s[1..], delim);
      if n < |s| && s[n] == delim then Some(n + 1) else None
  }

  /** Raw literals have no escapes and are not empty. */
  function RawQuoted(s: string, delim: char): (r: Option<nat>)
    ensures r.Some? ==> 4 <= r.value <= |s|
  {
    if |s| < 2 || s[0] != 'r' || s[1] != delim || Until(s[2..], [delim]) == 0 then None
    else
      var n := 2 + Until(s[2..], [delim]);
      if n < |s| && s[n] == delim then Some(n + 1) else None
  }

  function OrElse(a: Option<nat>, b: Option<nat>): Option<nat> { if a.Some? then a else b }

  function PythonString(s: string): (r: Option<nat>)
    ensures r.Some? ==> 2 <= r.value <= |s|
  {
    OrElse(Quoted(s, '\"'), OrElse(Quoted(s, '\''), OrElse(RawQuoted(s, '\"'), RawQuoted(s, '\''))))
  }

  /** The piece that starts the text: copied, or a native expression to be evaluated. */
  datatype Piece = Copied(text: string) | Evaluated(expr: string, braced: bool)

  function Native(s: string): (r: Option<Piece>)
    ensures r.Some? ==> r.value.Evaluated? && StartsWith(s, Source(r.value)) && |Source(r.value)| >= 2
  {
    if s == "" || s[0] != '$' then None
    else
      match QualifiedIdent(s[1..])
      case Some(n) => assert s[..n + 1] == "$" + s[1..n + 1]; Some(Evaluated(s[1..n + 1], false))
      case None =>
        var n := if |s| >= 2 && s[1] == '{' then Until(s[2..], "}") else 0;
        if n > 0 && n + 2 < |s| && s[n + 2] == '}'
        then assert s[..n + 3] == "${" + s[2..n + 2] + "}"; Some(Evaluated(s[2..n + 2], true))
        else None
  }

  function FirstPiece(s: string): (p: Piece)
    requires s != ""
    ensures StartsWith(s, Source(p)) && Source(p) != ""
  {
    match PythonString(s)
    case Some(n) => Copied(s[..n])
    case None =>
      match Native(s)
      case Some(p) => p
      case None => Copied(s[..1])
  }

  /** What a piece was in the input, and what it becomes in the output. */
  function Source(p: Piece): string
  {
    match p
    case Copied(t) => t
    case Evaluated(e, braced) => if braced then "${" + e + "}" else "$" + e
  }

  function Output(p: Piece): string
  {
    match p
    case Copied(t) => t
    case Evaluated(e, _) => "__eval('" + e + "')"
  }

  /** `fold_many0` over the alternatives; it stops where none of them matches. */
  function Pieces(s: string): seq<Piece>
    decreases |s|
  {
    if s == "" then [] else [FirstPiece(s)] + Pieces(s[|Source(FirstPiece(s))|..])
  }

  function Sources(ps: seq<Piece>): string
  {
    if ps == [] then "" else Source(ps[0]) + Sources(ps[1..])
  }

  function Outputs(ps: seq<Piece>): string
  {
    if ps == [] then "" else Output(ps[0]) + Outputs(ps[1..])
  }

  // ----- the whole expression -----

  lemma Split(s: string) returns (p: Piece, rest: string)
    requires s != ""
    ensures s == Source(p) + rest && |rest| < |s| && Pieces(s) == [p] + Pieces(rest)
    ensures '$' !in s ==> p.Copied?
  {
    p := FirstPiece(s);
    rest := s[|Source(p)|..];
  }

  lemma Joined(p: Piece, ps: seq<Piece>)
    ensures Sources([p] + ps) == Source(p) + Sources(ps) && Outputs([p] + ps) == Output(p) + Outputs(ps)
  {
    assert ([p] + ps)[1..] == ps;
  }

  /** Every input is consumed to its end, so that neither error arm is ever taken; putting each piece
      back in its source form gives the input. */
  lemma {:induction false} NothingLost(s: string)
    ensures Sources(Pieces(s)) == s
    decreases |s|
  {
    if s != "" {
      var p, rest := Split(s);
      NothingLost(rest);
      Joined(p, Pieces(rest));
    }
  }

  /** An input without `$` is unchanged. */
  lemma {:induction false} NothingToEvaluate(s: string)
    requires '$' !in s
    ensures Outputs(Pieces(s)) == s
    decreases |s|
  {
    if s != "" {
      var p, rest := Split(s);
      assert forall i :: 0 <= i < |rest| ==> rest[i] == s[|Source(p)| + i];
      NothingToEvaluate(rest);
      Joined(p, Pieces(rest));
    }
  }

  /** A string literal is copied as it is, whatever it contains, and preprocessing goes on after it. */
  lemma LiteralCopied(s: string, n: nat)
    requires PythonString(s) == Some(n)
    ensures Outputs(Pieces(s)) == s[..n] + Outputs(Pieces(s[n..]))
  {
    assert Pieces(s)[1..] == Pieces(s[n..]);
  }

  /** The bodies of string literals: no delimiter but an escaped one, no backslash but an escaping one. */
  predicate Escaped(body: string, delim: char)
  {
    body == "" ||
    if body[0] == '\\' then |body| >= 2 && Escaped(body[2..], delim)
    else body[0] != delim && Escaped(body[1..], delim)
  }

  lemma {:induction false} BodyEnds(body: string, delim: char, rest: string)
    requires delim != '\\' && Escaped(body, delim)
    ensures Body(body + [delim] + rest, delim) == |body|
    decreases |body|
  {
    var s := body + [delim] + rest;
    if body != "" {
      var n := if body[0] == '\\' then 2 else 1;
      BodyEnds(body[n..], delim, rest);
      assert s[n..] == body[n..] + [delim] + rest;
    }
  }

  lemma {:induction false} QuotedText(s: string, delim: char, n: nat)
    requires s != "" && s[0] == delim && Body(s[1..], delim) == n && n + 1 < |s| && s[n + 1] == delim
    ensures Takes(Quoted(s, delim), n + 2)
  {
  }

  lemma {:induction false} LiteralQuoted(body: string, delim: char, rest: string)
    requires delim != '\\' && Escaped(body, delim)
    ensures Takes(Quoted([delim] + body + [delim] + rest, delim), |body| + 2)
  {
    var s := [delim] + body + [delim] + rest;
    BodyEnds(body, delim, rest);
    assert s[1..] == body + [delim] + rest;
    QuotedText(s, delim, |body|);
  }

  /** Every literal, of either delimiter and with any escapes, is recognised whole and copied: a `$`
      inside it is not evaluated. */
  lemma LiteralRecognised(body: string, delim: char, rest: string)
    requires (delim == '\"' || delim == '\'') && Escaped(body, delim)
    ensures var literal := [delim] + body + [delim];
      && PythonString(literal + rest) == Some(|literal|)
      && Outputs(Pieces(literal + rest)) == literal + Outputs(Pieces(rest))
  {
    var literal := [delim] + body + [delim];
    var s := literal + rest;
    LiteralQuoted(body, delim, rest);
    LiteralCopied(s, |literal|);
    assert s[..|literal|] == literal && s[|literal|..] == rest;
  }

  lemma {:induction false} UntilIs(e: string, stop: string, rest: string)
    requires (forall i :: 0 <= i < |e| ==> e[i] !in stop) && rest != "" && rest[0] in stop
    ensures Until(e + rest, stop) == |e|
  {
    if e == "" {
      assert e + rest == rest;
    } else {
      UntilIs(e[1..], stop, rest);
      assert (e + rest)[1..] == e[1..] + rest;
    }
  }

  lemma PieceThen(s: string, p: Piece, n: nat)
    requires s != "" && FirstPiece(s) == p && |Source(p)| == n
    ensures Outputs(Pieces(s)) == Output(p) + Outputs(Pieces(s[n..]))
  {
    Joined(p, Pieces(s[n..]));
  }

  /** Raw literals, in which a backslash escapes nothing, are recognised whole as well. */
  lemma {:induction false} RawLiteralRecognised(body: string, delim: char, rest: string)
    requires (delim == '\"' || delim == '\'') && body != "" && delim !in body
    ensures var literal := ['r', delim] + body + [delim];
      Outputs(Pieces(literal + rest)) == literal + Outputs(Pieces(rest))
  {
    var literal := ['r', delim] + body + [delim];
    var s := literal + rest;
    UntilIs(body, [delim], [delim] + rest);
    assert s[2..] == body + ([delim] + rest);
    assert Takes(RawQuoted(s, delim), |literal|);
    RawOther(s, delim);
    LiteralCopied(s, |literal|);
    assert s[..|literal|] == literal && s[|literal|..] == rest;
  }

  lemma {:induction false} RawOther(s: string, delim: char)
    requires (delim == '\"' || delim == '\'') && RawQuoted(s, delim).Some?
    ensures PythonString(s) == RawQuoted(s, delim)
  {
  }

  /** A character that starts neither a literal nor a native expression is copied. */
  lemma {:induction false} OtherwiseCopied(s: string)
    requires s != "" && PythonString(s) == None && Native(s) == None
    ensures Outputs(Pieces(s)) == [s[0]] + Outputs(Pieces(s[1..]))
  {
    assert s[..1] == [s[0]];
    PieceThen(s, Copied(s[..1]), 1);
  }

  lemma {:induction false} CharacterCopied(c: char, rest: string)
    requires c != '\"' && c != '\'' && c != '$' && c != 'r'
    ensures Outputs(Pieces([c] + rest)) == [c] + Outputs(Pieces(rest))
  {
    var s := [c] + rest;
    assert s[1..] == rest;
    OtherwiseCopied(s);
  }

  /** What a native expression outside of literals becomes, and that preprocessing goes on after it. */
  lemma NativeEvaluated(s: string, e: string, braced: bool, n: nat)
    requires s != "" && Native(s) == Some(Evaluated(e, braced)) && n == |e| + if braced then 3 else 1
    ensures Outputs(Pieces(s)) == "__eval('" + e + "')" + Outputs(Pieces(s[n..]))
  {
    assert PythonString(s).None?;
    PieceThen(s, Evaluated(e, braced), n);
  }

  lemma NoIdent(t: string)
    requires t == "" || !(IsAlpha(t[0]) || t[0] == ':')
    ensures QualifiedIdent(t) == None
  {
    assert Lead(t) == 0;
    assert Ident(t) == None;
    assert Segment(t) == None;
    assert t[0..] == t;
    assert Segment(t[Lead(t)..]) == None;
  }

  /** `${` … `}` evaluates everything up to the first closing brace. */
  lemma BracedEvaluated(e: string, rest: string)
    requires e != "" && '}' !in e
    ensures Outputs(Pieces("${" + e + "}" + rest)) == "__eval('" + e + "')" + Outputs(Pieces(rest))
  {
    var s := "${" + e + "}" + rest;
    UntilIs(e, "}", "}" + rest);
    assert s[2..] == e + ("}" + rest);
    assert s[2..|e| + 2] == e && s[|e| + 3..] == rest;
    BracedNative(s, |e|);
    NativeEvaluated(s, e, true, |e| + 3);
  }

  lemma {:induction false} BracedNative(s: string, n: nat)
    requires 0 < n && n + 2 < |s| && s[0] == '$' && s[1] == '{' && Until(s[2..], "}") == n && s[n + 2] == '}'
    ensures Native(s) == Some(Evaluated(s[2..n + 2], true))
  {
    NoIdent(s[1..]);
  }

  lemma {:induction false} AlnumRunIs(word: string, rest: string)
    requires forall i :: 0 <= i < |word| ==> IsAlnum(word[i])
    requires rest == "" || !IsAlnum(rest[0])
    ensures AlnumRun(word + rest) == |word|
  {
    if word == "" {
      assert word + rest == rest;
    } else {
      AlnumRunIs(word[1..], rest);
      assert (word + rest)[1..] == word[1..] + rest;
    }
  }

  lemma {:induction false} IdentNative(s: string, n: nat)
    requires s != "" && s[0] == '$' && Takes(QualifiedIdent(s[1..]), n)
    ensures Native(s) == Some(Evaluated(s[1..n + 1], false))
  {
  }
}
