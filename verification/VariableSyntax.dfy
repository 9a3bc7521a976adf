/** The `${kind:key}` variable syntax that launch configurations are written in, and the
    splitting of a text into literal characters and variable references that
    `String.replace` performs with the pattern of extension/novsc/expand.ts. */
module VariableSyntax {
  import opened Options

  /** One match of the pattern, or one character that is not part of a match. */
  datatype Piece = Char(c: char) | Var(kind: Option<string>, key: string)

  /** Position of the first `c`, or the length when there is none. */
  function IndexOf(s: string, c: char): (i: nat)
    ensures i <= |s|
    ensures i < |s| ==> s[i] == c
    ensures forall j :: 0 <= j < i ==> s[j] != c
  {
    if s == [] || s[0] == c then 0 else 1 + IndexOf(s[1..], c)
  }

  lemma IndexOfIs(s: string, c: char, i: nat)
    requires i <= |s| && (i < |s| ==> s[i] == c)
    requires forall j :: 0 <= j < i ==> s[j] != c
    ensures IndexOf(s, c) == i
  {
  }

  /** The optional kind takes everything before the first colon, provided that it is not
      empty and leaves a non-empty key; otherwise the whole text is the key. */
  function SplitInner(t: string): Piece
  {
    var i := IndexOf(t, ':');
    if 0 < i && i + 1 < |t| then Var(Some(t[..i]), t[i + 1..]) else Var(None, t)
  }

  /** Length of the text between `${` and the first `}`; 0 when the pattern does not match. */
  function InnerLength(s: string): (n: nat)
    ensures n > 0 ==> n + 3 <= |s| && s[n + 2] == '}'
  {
    if |s| >= 2 && s[0] == '$' && s[1] == '{' && IndexOf(s[2..], '}') < |s| - 2
    then IndexOf(s[2..], '}') else 0
  }

  function Tokenize(s: string): seq<Piece>
    decreases |s|
  {
    if s == [] then []
    else
      var n := InnerLength(s);
      if n > 0 then [SplitInner(s[2..2 + n])] + Tokenize(s[n + 3..])
      else [Char(s[0])] + Tokenize(s[1..])
  }

  function InnerText(p: Piece): string
    requires p.Var?
  {
    if p.kind.None? then p.key else p.kind.value + ":" + p.key
  }

  function RenderPiece(p: Piece): string
  {
    match p
    case Char(c) => [c]
    case Var(_, _) => "${" + InnerText(p) + "}"
  }

  function Render(ps: seq<Piece>): string
  {
    if ps == [] then "" else RenderPiece(ps[0]) + Render(ps[1..])
  }

  /** What the pattern allows: a key without `}`, and a kind without `:` and `}`, neither of them empty;
      there is no kind only if the first colon is at the very start or end of the key. */
  predicate WellFormed(p: Piece)
  {
    p.Var? ==>
      && p.key != "" && '}' !in p.key
      && match p.kind
         case Some(kind) => kind != "" && ':' !in kind && '}' !in kind
         case None => IndexOf(p.key, ':') == 0 || IndexOf(p.key, ':') + 1 >= |p.key|
  }

  /** No literal `$` is directly before a literal `{`: nothing but the variables looks like one. */
  predicate Separate(ps: seq<Piece>)
  {
    (forall i :: 0 <= i < |ps| ==> WellFormed(ps[i])) &&
    (forall i :: 0 <= i < |ps| - 1 && ps[i] == Char('$') ==> ps[i + 1] != Char('{'))
  }

  /** What keeps a literal `$` and a literal `{` apart whatever is spliced in around them: each `$` is
      followed by a literal character other than `{`, or each `{` is preceded by one other than `$`. */
  datatype Guard = AfterDollar | BeforeBrace

  predicate Plain(p: Piece) { p.Char? && p.c != '$' }

  predicate AfterPlain(ps: seq<Piece>, i: nat, plain: bool)
    requires i < |ps|
  {
    if i == 0 then plain else Plain(ps[i - 1])
  }

  /** `plain` says whether a plain character comes before the pieces. */
  predicate Guarded(g: Guard, ps: seq<Piece>, plain: bool)
  {
    (forall i :: 0 <= i < |ps| ==> WellFormed(ps[i])) &&
    match g
    case AfterDollar =>
      forall i :: 0 <= i < |ps| && ps[i] == Char('$') ==> i + 1 < |ps| && ps[i + 1].Char? && ps[i + 1].c != '{'
    case BeforeBrace =>
      forall i :: 0 <= i < |ps| && ps[i] == Char('{') ==> AfterPlain(ps, i, plain)
  }

  predicate Stable(g: Guard, ps: seq<Piece>) { Guarded(g, ps, false) }

  // ----- Tokenize and Render are inverse -----

  lemma SplitInnerText(t: string)
    requires t != ""
    ensures InnerText(SplitInner(t)) == t
  {
    var i := IndexOf(t, ':');
    if 0 < i && i + 1 < |t| {
      assert t == t[..i] + ":" + t[i + 1..];
    }
  }

  lemma CutInner(s: string)
    requires InnerLength(s) > 0
    ensures var n := InnerLength(s); s == "${" + s[2..2 + n] + "}" + s[n + 3..]
  {
  }

  lemma {:induction false} RenderCons(p: Piece, ps: seq<Piece>)
    ensures Render([p] + ps) == RenderPiece(p) + Render(ps)
  {
    assert ([p] + ps)[1..] == ps;
  }

  lemma {:induction false} RenderTokenize(s: string)
    ensures Render(Tokenize(s)) == s
    decreases |s|
  {
    if s != [] {
      var n := InnerLength(s);
      if n > 0 {
        var p := SplitInner(s[2..2 + n]);
        SplitInnerText(s[2..2 + n]);
        RenderTokenize(s[n + 3..]);
        RenderCons(p, Tokenize(s[n + 3..]));
        CutInner(s);
      } else {
        RenderTokenize(s[1..]);
        RenderCons(Char(s[0]), Tokenize(s[1..]));
        assert s == [s[0]] + s[1..];
      }
    }
  }

  lemma SeparateTail(ps: seq<Piece>)
    requires Separate(ps) && ps != []
    ensures Separate(ps[1..])
  {
    assert forall i :: 0 <= i < |ps[1..]| ==> ps[1..][i] == ps[i + 1];
  }

  lemma InnerFound(t: string, rest: string)
    requires t != "" && '}' !in t
    ensures InnerLength("${" + t + "}" + rest) == |t|
  {
    var s := "${" + t + "}" + rest;
    assert s[2..] == t + "}" + rest;
    IndexOfIs(s[2..], '}', |t|);
  }

  lemma CutRendered(t: string, rest: string)
    ensures var s := "${" + t + "}" + rest; s[2..2 + |t|] == t && s[|t| + 3..] == rest
  {
  }

  lemma WellFormedSplits(p: Piece)
    requires p.Var? && WellFormed(p)
    ensures InnerText(p) != "" && '}' !in InnerText(p) && SplitInner(InnerText(p)) == p
  {
    if p.kind.Some? {
      var t, n := InnerText(p), |p.kind.value|;
      IndexOfIs(t, ':', n);
      assert t[..n] == p.kind.value && t[n + 1..] == p.key;
    }
  }

  lemma TokenizeVar(p: Piece, rest: string)
    requires p.Var? && WellFormed(p)
    ensures Tokenize(RenderPiece(p) + rest) == [p] + Tokenize(rest)
  {
    WellFormedSplits(p);
    InnerFound(InnerText(p), rest);
    CutRendered(InnerText(p), rest);
  }

  lemma {:induction false} TokenizeChar(ps: seq<Piece>)
    requires Separate(ps) && ps != [] && ps[0].Char?
    ensures InnerLength(Render(ps)) == 0 && Render(ps)[0] == ps[0].c && Render(ps)[1..] == Render(ps[1..])
  {
    var s := Render(ps);
    if s[0] == '$' && |ps| > 1 {
      assert Render(ps[1..]) == RenderPiece(ps[1]) + Render(ps[1..][1..]);
      assert s[1] == Render(ps[1..])[0] == RenderPiece(ps[1])[0];
    }
  }

  lemma {:induction false} TokenizeRender(ps: seq<Piece>)
    requires Separate(ps)
    ensures Tokenize(Render(ps)) == ps
  {
    if ps != [] {
      SeparateTail(ps);
      TokenizeRender(ps[1..]);
      if ps[0].Char? {
        TokenizeChar(ps);
      } else {
        TokenizeVar(ps[0], Render(ps[1..]));
      }
    }
  }

  /** Splitting never produces a malformed reference. */
  lemma {:induction false} TokensWellFormed(s: string)
    ensures forall i :: 0 <= i < |Tokenize(s)| ==> WellFormed(Tokenize(s)[i])
    decreases |s|
  {
    if s != [] {
      var n := InnerLength(s);
      if n > 0 {
        var t := s[2..2 + n];
        SplitInnerText(t);
        assert forall j :: 0 <= j < n ==> t[j] == s[2..][j];
        TokensWellFormed(s[n + 3..]);
      } else {
        TokensWellFormed(s[1..]);
      }
    }
  }

  // ----- either guard survives splicing -----

  lemma GuardedTail(g: Guard, ps: seq<Piece>, plain: bool)
    requires Guarded(g, ps, plain) && ps != []
    ensures Guarded(g, ps[1..], Plain(ps[0]))
  {
    assert forall i :: 0 <= i < |ps[1..]| ==> ps[1..][i] == ps[i + 1];
  }

  lemma GuardedCons(g: Guard, p: Piece, ps: seq<Piece>, plain: bool)
    requires Guarded(g, ps, Plain(p)) && WellFormed(p)
    requires g.AfterDollar? && p == Char('$') ==> ps != [] && ps[0].Char? && ps[0].c != '{'
    requires g.BeforeBrace? && p == Char('{') ==> plain
    ensures Guarded(g, [p] + ps, plain)
  {
    var all := [p] + ps;
    assert forall i :: 0 < i <= |ps| ==> all[i] == ps[i - 1];
    forall i | 0 <= i < |all| && g.BeforeBrace? && all[i] == Char('{')
      ensures AfterPlain(all, i, plain)
    {
      if i > 0 { assert AfterPlain(ps, i - 1, Plain(p)); }
    }
  }

  lemma Assoc(a: string, b: string, c: string)
    ensures a + (b + c) == (a + b) + c
  {
  }

  lemma {:induction false} RenderConcat(a: seq<Piece>, b: seq<Piece>)
    ensures Render(a + b) == Render(a) + Render(b)
  {
    if a == [] {
      assert a + b == b;
      assert Render(a) + Render(b) == Render(b);
    } else {
      var r := RenderPiece(a[0]);
      calc {
        Render(a + b);
        { assert (a + b)[1..] == a[1..] + b && (a + b)[0] == a[0]; }
        r + Render(a[1..] + b);
        { RenderConcat(a[1..], b); }
        r + (Render(a[1..]) + Render(b));
        { Assoc(r, Render(a[1..]), Render(b)); }
        (r + Render(a[1..])) + Render(b);
        Render(a) + Render(b);
      }
    }
  }
}
