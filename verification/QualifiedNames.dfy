/** Qualified names with template parameters, as the grammar of
    src/codelldb/src/expressions/qualified_ident.rs means them: what is written as such a name is
    recognised whole, and evaluated whole when a `$` stands before it. */
module QualifiedNames {
  import opened Options
  import opened Preprocess

  /** One part of a name, with its template parameters if it has any. */
  datatype Part = Simple(name: string) | Template(name: string, args: seq<Arg>)

  /** A template parameter: a name with blanks around it, or a text that does not start like one. */
  datatype Arg = Named(before: string, parts: seq<Part>, after: string) | Literal(before: string, text: string)

  // ----- how names are written -----

  function PartText(p: Part): string
    decreases p, 1
  {
    match p
    case Simple(name) => name
    case Template(name, args) => name + ("<" + (ArgsText(args) + ">"))
  }

  function ArgsText(args: seq<Arg>): string
    decreases args, 1
  {
    if args == [] then "" else ArgText(args[0]) + MoreArgsText(args[1..])
  }

  function MoreArgsText(args: seq<Arg>): string
    decreases args, 0
  {
    if args == [] then "" else "," + (ArgText(args[0]) + MoreArgsText(args[1..]))
  }

  function ArgText(a: Arg): string
    decreases a, 0
  {
    match a
    case Named(before, parts, after) => before + (PathText(parts) + after)
    case Literal(before, text) => before + text
  }

  function PathText(parts: seq<Part>): string
    decreases parts, 3
  {
    if parts == [] then "" else PartText(parts[0]) + TailText(parts[1..])
  }

  function TailText(parts: seq<Part>): string
    decreases parts, 2
  {
    if parts == [] then "" else "::" + (PartText(parts[0]) + TailText(parts[1..]))
  }

  predicate IsName(s: string)
  {
    s != "" && IsAlpha(s[0]) && forall i :: 0 <= i < |s| ==> IsAlnum(s[i])
  }

  predicate IsBlank(s: string)
  {
    forall i :: 0 <= i < |s| ==> s[i] == ' ' || s[i] == '\t'
  }

  predicate GoodPart(p: Part)
    decreases p, 1
  {
    match p
    case Simple(name) => IsName(name)
    case Template(name, args) => IsName(name) && GoodArgs(args)
  }

  predicate GoodArgs(args: seq<Arg>)
    decreases args, 0
  {
    args == [] || (GoodArg(args[0]) && GoodArgs(args[1..]))
  }

  predicate GoodArg(a: Arg)
    decreases a, 0
  {
    match a
    case Named(before, parts, after) => IsBlank(before) && parts != [] && GoodPath(parts) && IsBlank(after)
    case Literal(before, text) =>
      && IsBlank(before) && text != "" && !IsAlpha(text[0]) && text[0] !in " \t:"
      && forall i :: 0 <= i < |text| ==> !EndsParam(text[i])
  }

  predicate GoodPath(parts: seq<Part>)
    decreases parts, 2
  {
    parts == [] || (GoodPart(parts[0]) && GoodPath(parts[1..]))
  }

  /** What follows does not belong to a part: not to its name and, unless it has template parameters
      already, not to those either. */
  predicate PartEnds(p: Part, rest: string)
  {
    p.Simple? ==>
      && (rest == "" || !IsAlnum(rest[0]))
      && var t := rest[Spaces(rest)..]; t != "" && t[0] == '<' ==> '>' !in t
  }

  /** What follows does not start with `::` and another name. */
  predicate PathEnds(rest: string)
  {
    var t := rest[Spaces(rest)..];
    TwoColons(t) ==> var u := t[2 + Spaces(t[2..])..]; u == "" || !IsAlpha(u[0])
  }

  // ----- the recognisers, one rule at a time -----

  lemma {:induction false} PlainSegment(t: string, n: nat)
    requires Takes(Ident(t), n) && TemplateParams(t[n + Spaces(t[n..])..]) == None
    ensures Takes(Segment(t), n)
  {
  }

  lemma {:induction false} SegmentWithParams(t: string, n: nat, m: nat)
    requires Takes(Ident(t), n) && Spaces(t[n..]) == 0 && Takes(TemplateParams(t[n..]), m)
    ensures Takes(Segment(t), n + m)
  {
  }

  lemma {:induction false} BracketedParams(t: string, n: nat)
    requires t != "" && t[0] == '<' && ParamList(t[1..]) == n && n + 1 < |t| && t[n + 1] == '>'
    ensures Takes(TemplateParams(t), n + 2)
  {
  }

  lemma {:induction false} NoBracket(t: string)
    requires t == "" || t[0] != '<' || '>' !in t
    ensures TemplateParams(t) == None
  {
  }

  lemma {:induction false} FirstParam(t: string, n: nat, m: nat)
    requires Takes(SpacedParam(t), n) && MoreParams(t[n..]) == m
    ensures ParamList(t) == n + m
  {
  }

  lemma {:induction false} NextParam(t: string, n: nat, m: nat)
    requires t != "" && t[0] == ',' && Takes(SpacedParam(t[1..]), n) && MoreParams(t[1..][n..]) == m
    ensures MoreParams(t) == 1 + n + m
  {
  }

  lemma {:induction false} ParamBetweenBlanks(t: string, a: nat, n: nat, b: nat)
    requires Spaces(t) == a && Takes(Param(t[a..]), n) && Spaces(t[a..][n..]) == b
    ensures Takes(SpacedParam(t), a + n + b)
  {
  }

  lemma {:induction false} NextSegment(t: string, n: nat, m: nat)
    requires Colons(t) == 2 && Takes(Segment(t[2..]), n) && MoreSegments(t[2..][n..]) == m
    ensures MoreSegments(t) == 2 + n + m
  {
  }

  lemma {:induction false} NoNextSegment(t: string)
    requires Colons(t) == 0 || Ident(t[Colons(t)..]) == None
    ensures MoreSegments(t) == 0
  {
  }

  lemma {:induction false} AllSegments(t: string, n: nat, m: nat)
    requires Takes(Segment(t), n) && MoreSegments(t[n..]) == m
    ensures Takes(Segments(t), n + m)
  {
  }

  lemma {:induction false} WholePath(s: string, t: string, n: nat)
    requires s[Lead(s)..] == t && Takes(Segments(t), n)
    ensures Takes(QualifiedIdent(s), Lead(s) + n)
  {
  }

  // ----- characters -----

  lemma {:induction false} SpacesAre(blanks: string, rest: string)
    requires IsBlank(blanks) && (rest == "" || rest[0] !in " \t")
    ensures Spaces(blanks + rest) == |blanks| && (blanks + rest)[|blanks|..] == rest
  {
    if blanks == "" {
      assert blanks + rest == rest;
    } else {
      SpacesAre(blanks[1..], rest);
      assert (blanks + rest)[1..] == blanks[1..] + rest;
    }
  }

  lemma {:induction false} NameRead(name: string, rest: string)
    requires IsName(name) && (rest == "" || !IsAlnum(rest[0]))
    ensures Takes(Ident(name + rest), |name|) && (name + rest)[|name|..] == rest
  {
    AlnumRunIs(name[1..], rest);
    assert (name + rest)[1..] == name[1..] + rest;
  }

  lemma {:induction false} Cut(a: string, b: string)
    ensures (a + b)[|a|..] == b
  {
  }

  lemma {:induction false} Regroup(a: string, b: string, c: string)
    ensures (a + b) + c == a + (b + c)
  {
  }

  lemma {:induction false} PathStarts(parts: seq<Part>, rest: string)
    requires parts != [] && GoodPath(parts)
    ensures PathText(parts) + rest != "" && IsAlpha((PathText(parts) + rest)[0])
  {
    assert PartText(parts[0])[0] == parts[0].name[0];
  }

  // ----- names are read whole -----

  lemma {:induction false} SimpleRead(name: string, rest: string)
    requires IsName(name) && PartEnds(Simple(name), rest)
    ensures Takes(Segment(name + rest), |name|)
  {
    NameRead(name, rest);
    NoBracket(rest[Spaces(rest)..]);
    PlainSegment(name + rest, |name|);
  }

  lemma {:induction false} TemplateRead(name: string, inner: string, rest: string)
    requires IsName(name) && inner != "" && inner[0] == '<' && Takes(TemplateParams(inner + rest), |inner|)
    ensures Takes(Segment((name + inner) + rest), |name + inner|)
  {
    Regroup(name, inner, rest);
    NameRead(name, inner + rest);
    SegmentWithParams(name + (inner + rest), |name|, |inner|);
  }

  lemma {:induction false} PartRead(p: Part, rest: string)
    requires GoodPart(p) && PartEnds(p, rest)
    ensures Takes(Segment(PartText(p) + rest), |PartText(p)|)
    decreases p, 1
  {
    match p
    case Simple(name) => SimpleRead(name, rest);
    case Template(name, args) =>
      ArgsRead(args, rest);
      TemplateRead(name, "<" + (ArgsText(args) + ">"), rest);
  }

  lemma {:induction false} ArgsRead(args: seq<Arg>, rest: string)
    requires GoodArgs(args)
    ensures Takes(TemplateParams(("<" + (ArgsText(args) + ">")) + rest), |ArgsText(args)| + 2)
    decreases args, 2
  {
    var a := ArgsText(args);
    var t := ("<" + (a + ">")) + rest;
    assert t[1..] == a + (">" + rest);
    ListRead(args, ">" + rest);
    BracketedParams(t, |a|);
  }

  lemma {:induction false} ListRead(args: seq<Arg>, rest: string)
    requires GoodArgs(args) && rest != "" && rest[0] == '>'
    ensures ParamList(ArgsText(args) + rest) == |ArgsText(args)|
    decreases args, 1
  {
    if args == [] {
      assert "" + rest == rest;
      NoParam(rest);
    } else {
      var first, more := ArgText(args[0]), MoreArgsText(args[1..]);
      MoreStarts(args[1..], rest);
      ArgRead(args[0], more + rest);
      MoreRead(args[1..], rest);
      Regroup(first, more, rest);
      Cut(first, more + rest);
      FirstParam(first + (more + rest), |first|, |more|);
    }
  }

  lemma {:induction false} NextTexts(first: string, more: string, rest: string)
    ensures var t := ("," + (first + more)) + rest;
      t != "" && t[0] == ',' && t[1..] == first + (more + rest) && t[1..][|first|..] == more + rest
  {
  }

  lemma {:induction false} MoreRead(args: seq<Arg>, rest: string)
    requires GoodArgs(args) && rest != "" && rest[0] == '>'
    ensures MoreParams(MoreArgsText(args) + rest) == |MoreArgsText(args)|
    decreases args, 0
  {
    if args == [] {
      assert "" + rest == rest;
    } else {
      MoreStarts(args[1..], rest);
      ArgRead(args[0], MoreArgsText(args[1..]) + rest);
      MoreRead(args[1..], rest);
      NextTexts(ArgText(args[0]), MoreArgsText(args[1..]), rest);
      NextParam(MoreArgsText(args) + rest, |ArgText(args[0])|, |MoreArgsText(args[1..])|);
    }
  }

  lemma {:induction false} MoreStarts(args: seq<Arg>, rest: string)
    requires rest != "" && rest[0] == '>'
    ensures var t := MoreArgsText(args) + rest; t != "" && (t[0] == ',' || t[0] == '>')
  {
  }

  lemma {:induction false} NoParam(t: string)
    requires t != "" && t[0] == '>'
    ensures ParamList(t) == 0
  {
    NoIdent(t);
    assert t[0..] == t;
    assert Param(t) == None;
  }

  lemma {:induction false} PathBetweenBlanks(s: string, a: nat, t: string, n: nat, b: nat)
    requires a <= |s| && Spaces(s) == a && s[a..] == t && Takes(QualifiedIdent(t), n) && Spaces(t[n..]) == b
    ensures Takes(SpacedParam(s), a + n + b)
  {
    ParamIsPath(t, n);
    ParamBetweenBlanks(s, a, n, b);
  }

  lemma {:induction false} NamedBlanks(before: string, path: string, after: string, rest: string)
    requires IsBlank(before) && IsBlank(after) && rest != "" && (rest[0] == ',' || rest[0] == '>')
    requires path != "" && IsAlpha(path[0])
    ensures var s, t := (before + (path + after)) + rest, path + (after + rest);
      && Spaces(s) == |before| && |before| <= |s| && s[|before|..] == t
      && Spaces(t[|path|..]) == |after|
  {
    var t := path + (after + rest);
    assert (before + (path + after)) + rest == before + t;
    SpacesAre(before, t);
    SpacesAre(after, rest);
    Cut(path, after + rest);
  }

  lemma {:induction false} LiteralRead(before: string, text: string, rest: string)
    requires GoodArg(Literal(before, text)) && rest != "" && (rest[0] == ',' || rest[0] == '>')
    ensures Takes(SpacedParam((before + text) + rest), |before + text|)
  {
    Regroup(before, text, rest);
    SpacesAre(before, text + rest);
    LiteralParam(text, rest);
    Cut(text, rest);
    ParamBetweenBlanks(before + (text + rest), |before|, |text|, 0);
  }

  lemma {:induction false} NamedRead(a: Arg, path: string, rest: string)
    requires GoodArg(a) && a.Named? && rest != "" && (rest[0] == ',' || rest[0] == '>')
    requires path == PathText(a.parts) && Takes(QualifiedIdent(path + (a.after + rest)), |path|)
    ensures Takes(SpacedParam(ArgText(a) + rest), |ArgText(a)|)
  {
    PathStarts(a.parts, "");
    assert path + "" == path;
    NamedBlanks(a.before, path, a.after, rest);
    PathBetweenBlanks(ArgText(a) + rest, |a.before|, path + (a.after + rest), |path|, |a.after|);
  }

  lemma {:induction false} ArgRead(a: Arg, rest: string)
    requires GoodArg(a) && rest != "" && (rest[0] == ',' || rest[0] == '>')
    ensures Takes(SpacedParam(ArgText(a) + rest), |ArgText(a)|)
    decreases a, 1
  {
    match a
    case Named(_, parts, after) =>
      BlankEnds(after, rest);
      PathRead(parts, after + rest);
      NamedRead(a, PathText(parts), rest);
    case Literal(before, text) => LiteralRead(before, text, rest);
  }

  lemma {:induction false} ParamIsPath(t: string, n: nat)
    requires Takes(QualifiedIdent(t), n)
    ensures Takes(Param(t), n)
  {
  }

  lemma {:induction false} LiteralParam(text: string, rest: string)
    requires text != "" && !IsAlpha(text[0]) && text[0] != ':' && rest != "" && (rest[0] == ',' || rest[0] == '>')
    requires forall i :: 0 <= i < |text| ==> !EndsParam(text[i])
    ensures Takes(Param(text + rest), |text|)
  {
    NoIdent(text + rest);
    OtherParamIs(text, rest);
  }

  lemma {:induction false} OtherParamIs(text: string, rest: string)
    requires (forall i :: 0 <= i < |text| ==> !EndsParam(text[i])) && rest != "" && EndsParam(rest[0])
    ensures OtherParam(text + rest) == |text|
  {
    if text == "" {
      assert text + rest == rest;
    } else {
      OtherParamIs(text[1..], rest);
      assert (text + rest)[1..] == text[1..] + rest;
    }
  }

  /** Blanks and then a `,` or `>` end any name. */
  lemma {:induction false} BlankEnds(after: string, rest: string)
    requires IsBlank(after) && rest != "" && (rest[0] == ',' || rest[0] == '>')
    ensures PathEnds(after + rest) && forall p :: PartEnds(p, after + rest)
  {
    SpacesAre(after, rest);
  }

  lemma {:induction false} PathRead(parts: seq<Part>, rest: string)
    requires parts != [] && GoodPath(parts) && PathEnds(rest) && PartEnds(parts[|parts| - 1], rest)
    ensures Takes(Segments(PathText(parts) + rest), |PathText(parts)|)
    ensures Takes(QualifiedIdent(PathText(parts) + rest), |PathText(parts)|)
    decreases parts, 5
  {
    var t := PathText(parts) + rest;
    SegmentsRead(parts, rest);
    AllSegments(t, |PartText(parts[0])|, |TailText(parts[1..])|);
    PathStarts(parts, rest);
    NoLead(t);
    WholePath(t, t, |PathText(parts)|);
  }

  lemma {:induction false} NoLead(t: string)
    requires t != "" && IsAlpha(t[0])
    ensures Lead(t) == 0 && t[0..] == t
  {
  }

  lemma {:induction false} SegmentsRead(parts: seq<Part>, rest: string)
    requires parts != [] && GoodPath(parts) && PathEnds(rest) && PartEnds(parts[|parts| - 1], rest)
    ensures var t, n := PathText(parts) + rest, |PartText(parts[0])|;
      n <= |t| && Takes(Segment(t), n) && MoreSegments(t[n..]) == |TailText(parts[1..])|
    decreases parts, 3
  {
    var first, tail := PartText(parts[0]), TailText(parts[1..]);
    if |parts| == 1 { assert tail + rest == rest; } else { ColonsEnd(parts[1..], rest); }
    PartRead(parts[0], tail + rest);
    Regroup(first, tail, rest);
    Cut(first, tail + rest);
    TailRead(parts[1..], parts[|parts| - 1], rest);
  }

  /** Another `::` ends any part. */
  lemma {:induction false} ColonsEnd(parts: seq<Part>, rest: string)
    requires parts != []
    ensures forall p :: PartEnds(p, TailText(parts) + rest)
  {
    var t := TailText(parts) + rest;
    assert t[0] == ':';
    assert t[0..] == t;
  }

  lemma {:induction false} TailRead(parts: seq<Part>, last: Part, rest: string)
    requires GoodPath(parts) && PathEnds(rest) && PartEnds(last, rest) && (parts != [] ==> parts[|parts| - 1] == last)
    ensures MoreSegments(TailText(parts) + rest) == |TailText(parts)|
    decreases parts, 4
  {
    if parts == [] {
      assert "" + rest == rest;
      PathStops(rest);
      NoNextSegment(rest);
    } else {
      SegmentsRead(parts, rest);
      PathStarts(parts, rest);
      TailStep(PathText(parts) + rest, |PartText(parts[0])|, |TailText(parts[1..])|);
      TailTexts(parts, rest);
    }
  }

  lemma {:induction false} TailTexts(parts: seq<Part>, rest: string)
    requires parts != []
    ensures TailText(parts) + rest == "::" + (PathText(parts) + rest)
    ensures |TailText(parts)| == 2 + |PartText(parts[0])| + |TailText(parts[1..])|
  {
    Regroup("::", PathText(parts), rest);
  }

  lemma {:induction false} TailStep(t: string, n: nat, m: nat)
    requires t != "" && IsAlpha(t[0]) && Takes(Segment(t), n) && MoreSegments(t[n..]) == m
    ensures MoreSegments("::" + t) == 2 + n + m
  {
    ColonsBefore(t);
    NextSegment("::" + t, n, m);
  }

  lemma {:induction false} ColonsBefore(t: string)
    requires t != "" && IsAlpha(t[0])
    ensures Colons("::" + t) == 2 && Lead("::" + t) == 2 && ("::" + t)[2..] == t
  {
    var s := "::" + t;
    assert s[0..] == s && s[2..] == t && s[..2] == "::";
  }

  lemma {:induction false} PathStops(rest: string)
    requires PathEnds(rest)
    ensures Colons(rest) == 0 || Ident(rest[Colons(rest)..]) == None
  {
    var a := Spaces(rest);
    var t := rest[a..];
    if TwoColons(t) {
      assert t[2..] == rest[a + 2..];
      assert t[2 + Spaces(t[2..])..] == rest[Colons(rest)..];
    }
  }

  // ----- and evaluated whole -----

  /** A `$` before a qualified name, which may start with `::`: the name is evaluated with all its parts
      and template parameters, and nothing more. */
  lemma {:induction false} PathEvaluated(colons: bool, parts: seq<Part>, rest: string)
    requires parts != [] && GoodPath(parts) && PathEnds(rest) && PartEnds(parts[|parts| - 1], rest)
    ensures var name := (if colons then "::" else "") + PathText(parts);
      Outputs(Pieces("$" + (name + rest))) == "__eval('" + name + "')" + Outputs(Pieces(rest))
  {
    var name := (if colons then "::" else "") + PathText(parts);
    NameRecognised(colons, parts, rest);
    CutName(name, rest);
    NameNative("$" + (name + rest), name);
    NativeThen("$" + (name + rest), name, rest);
  }

  lemma {:induction false} NameRecognised(colons: bool, parts: seq<Part>, rest: string)
    requires parts != [] && GoodPath(parts) && PathEnds(rest) && PartEnds(parts[|parts| - 1], rest)
    ensures var name := (if colons then "::" else "") + PathText(parts);
      Takes(QualifiedIdent(name + rest), |name|)
  {
    if colons {
      var t := PathText(parts) + rest;
      PathRead(parts, rest);
      PathStarts(parts, rest);
      ColonsBefore(t);
      WholePath("::" + t, t, |PathText(parts)|);
      Regroup("::", PathText(parts), rest);
    } else {
      assert "" + PathText(parts) == PathText(parts);
      PathRead(parts, rest);
    }
  }

  lemma {:induction false} CutName(name: string, rest: string)
    ensures var s := "$" + (name + rest);
      s[1..] == name + rest && s[1..|name| + 1] == name && s[|name| + 1..] == rest
  {
  }

  lemma {:induction false} NameNative(s: string, name: string)
    requires s != "" && s[0] == '$' && Takes(QualifiedIdent(s[1..]), |name|)
    requires |name| < |s| && s[1..|name| + 1] == name
    ensures Native(s) == Some(Evaluated(name, false))
  {
    IdentNative(s, |name|);
  }

  lemma {:induction false} NativeThen(s: string, name: string, rest: string)
    requires |name| < |s| && s[|name| + 1..] == rest && Native(s) == Some(Evaluated(name, false))
    ensures Outputs(Pieces(s)) == "__eval('" + name + "')" + Outputs(Pieces(rest))
  {
    NativeEvaluated(s, name, false, |name| + 1);
  }

  /** `$name` evaluates the whole name. */
  lemma {:induction false} NameEvaluated(name: string, rest: string)
    requires IsName(name) && PathEnds(rest) && PartEnds(Simple(name), rest)
    ensures Outputs(Pieces("$" + (name + rest))) == "__eval('" + name + "')" + Outputs(Pieces(rest))
  {
    assert [Simple(name)][1..] == [] && name + "" == name && "" + name == name;
    assert GoodPath([Simple(name)][1..]) && PathText([Simple(name)]) == name;
    PathEvaluated(false, [Simple(name)], rest);
  }

  /** `$a::b` evaluates both parts. */
  lemma {:induction false} TwoParts(a: string, b: string, rest: string)
    requires IsName(a) && IsName(b) && PathEnds(rest) && PartEnds(Simple(b), rest)
    ensures Outputs(Pieces("$" + (a + "::" + b + rest))) == "__eval('" + (a + "::" + b) + "')" + Outputs(Pieces(rest))
  {
    var parts := [Simple(a), Simple(b)];
    TwoPartsText(a, b);
    PathEvaluated(false, parts, rest);
  }

  lemma {:induction false} TwoPartsText(a: string, b: string)
    requires IsName(a) && IsName(b)
    ensures GoodPath([Simple(a), Simple(b)]) && "" + PathText([Simple(a), Simple(b)]) == a + "::" + b
  {
    var parts := [Simple(a), Simple(b)];
    assert parts[1..] == [Simple(b)] && [Simple(b)][1..] == [];
    assert GoodPath([Simple(b)][1..]) && TailText([Simple(b)][1..]) == "";
    assert GoodPath([Simple(b)]);
    assert TailText([Simple(b)]) == "::" + (b + "") == "::" + b;
    assert PathText(parts) == a + ("::" + b);
  }
}
