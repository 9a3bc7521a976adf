/** The graph of `${dbgconfig:key}` references between settings, and what rewriting one
    setting in place (splicing the current values of the settings it refers to) does to it.
    Values are sequences of pieces here; DbgConfig.dfy works on the texts themselves. */
module ReferenceGraph {
  import opened Options
  import opened VariableSyntax

  datatype Failure = Circular(key: string) | Undefined(key: string)

  datatype Result<+T> = Ok(value: T) | Err(failure: Failure)

  type Tokens = map<string, seq<Piece>>

  predicate IsRef(p: Piece)
  {
    p.Var? && p.kind == Some("dbgconfig")
  }

  function Refs(ps: seq<Piece>): set<string>
  {
    set i | 0 <= i < |ps| && IsRef(ps[i]) :: ps[i].key
  }

  /** Replaces every reference by the value it names. The first reference, from the left,
      that is to the setting being expanded or to nothing at all makes the whole splice fail. */
  function Splice(ps: seq<Piece>, cfg: Tokens, expanding: Option<string>): Result<seq<Piece>>
  {
    if ps == [] then Ok([])
    else if !IsRef(ps[0]) then
      match Splice(ps[1..], cfg, expanding)
      case Ok(rest) => Ok([ps[0]] + rest)
      case Err(e) => Err(e)
    else if Some(ps[0].key) == expanding then Err(Circular(ps[0].key))
    else if ps[0].key !in cfg then Err(Undefined(ps[0].key))
    else
      match Splice(ps[1..], cfg, expanding)
      case Ok(rest) => Ok(cfg[ps[0].key] + rest)
      case Err(e) => Err(e)
  }

  /** `dbgconfig[prop] = expandVariables(dbgconfig[prop], expander)` */
  function Rewrite(cfg: Tokens, prop: string): Result<Tokens>
    requires prop in cfg
  {
    match Splice(cfg[prop], cfg, Some(prop))
    case Ok(ps) => Ok(cfg[prop := ps])
    case Err(e) => Err(e)
  }

  /** One round of the do-while: every setting is rewritten once, in the given order. */
  function Pass(cfg: Tokens, order: seq<string>): Result<Tokens>
    requires forall k :: k in order ==> k in cfg
  {
    if order == [] then Ok(cfg)
    else
      match Rewrite(cfg, order[0])
      case Ok(next) => Pass(next, order[1..])
      case Err(e) => Err(e)
  }

  // ----- what a splice contains -----

  lemma RefsTail(ps: seq<Piece>)
    requires ps != []
    ensures Refs(ps) == Refs(ps[1..]) + (if IsRef(ps[0]) then {ps[0].key} else {})
  {
    assert forall i :: 1 <= i < |ps| ==> ps[i] == ps[1..][i - 1];
    forall k | k in Refs(ps)
      ensures k in Refs(ps[1..]) + (if IsRef(ps[0]) then {ps[0].key} else {})
    {
      var i :| 0 <= i < |ps| && IsRef(ps[i]) && ps[i].key == k;
      if i > 0 { assert ps[1..][i - 1] == ps[i]; }
    }
  }

  lemma RefsConcat(a: seq<Piece>, b: seq<Piece>)
    ensures Refs(a + b) == Refs(a) + Refs(b)
  {
    forall k | k in Refs(a) + Refs(b)
      ensures k in Refs(a + b)
    {
      if k in Refs(a) {
        var i :| 0 <= i < |a| && IsRef(a[i]) && a[i].key == k;
        assert (a + b)[i] == a[i];
      } else {
        var i :| 0 <= i < |b| && IsRef(b[i]) && b[i].key == k;
        assert (a + b)[|a| + i] == b[i];
      }
    }
  }

  /** The references of a splice are those of the spliced values: the graph edge from a
      setting is replaced by the paths of length two through it. */
  lemma {:induction false} SpliceRefs(ps: seq<Piece>, cfg: Tokens, expanding: Option<string>)
    requires Splice(ps, cfg, expanding).Ok?
    ensures forall k :: k in Refs(ps) ==> k in cfg && Some(k) != expanding
    ensures forall j :: j in Refs(Splice(ps, cfg, expanding).value) <==>
              exists k :: k in Refs(ps) && k in cfg && j in Refs(cfg[k])
  {
    if ps != [] {
      RefsTail(ps);
      SpliceRefs(ps[1..], cfg, expanding);
      var rest := Splice(ps[1..], cfg, expanding).value;
      if IsRef(ps[0]) {
        RefsConcat(cfg[ps[0].key], rest);
      } else {
        RefsConcat([ps[0]], rest);
      }
    }
  }

  lemma {:induction false} SpliceFailure(ps: seq<Piece>, cfg: Tokens, expanding: Option<string>)
    requires Splice(ps, cfg, expanding).Err?
    ensures var e := Splice(ps, cfg, expanding).failure;
      && e.key in Refs(ps)
      && (e.Circular? ==> Some(e.key) == expanding)
      && (e.Undefined? ==> e.key !in cfg)
  {
    RefsTail(ps);
    if !IsRef(ps[0]) || (Some(ps[0].key) != expanding && ps[0].key in cfg) {
      SpliceFailure(ps[1..], cfg, expanding);
    }
  }

  lemma {:induction false} SpliceGuarded(g: Guard, ps: seq<Piece>, cfg: Tokens, expanding: Option<string>, plain: bool)
    requires Guarded(g, ps, plain) && forall k :: k in cfg ==> Stable(g, cfg[k])
    requires Splice(ps, cfg, expanding).Ok?
    ensures Guarded(g, Splice(ps, cfg, expanding).value, plain)
    ensures ps != [] && ps[0].Char? ==>
      Splice(ps, cfg, expanding).value != [] && Splice(ps, cfg, expanding).value[0] == ps[0]
  {
    if ps != [] {
      GuardedTail(g, ps, plain);
      SpliceGuarded(g, ps[1..], cfg, expanding, Plain(ps[0]));
      var rest := Splice(ps[1..], cfg, expanding).value;
      if !IsRef(ps[0]) {
        assert WellFormed(ps[0]);
        assert g.BeforeBrace? && ps[0] == Char('{') ==> AfterPlain(ps, 0, plain);
        GuardedCons(g, ps[0], rest, plain);
      }
    }
  }

  /** A splice of guarded values is guarded, and splits at the variables it was made of. */
  lemma SpliceStable(g: Guard, ps: seq<Piece>, cfg: Tokens, expanding: Option<string>)
    requires Stable(g, ps) && forall k :: k in cfg ==> Stable(g, cfg[k])
    requires Splice(ps, cfg, expanding).Ok?
    ensures var qs := Splice(ps, cfg, expanding).value; Stable(g, qs) && Tokenize(Render(qs)) == qs
  {
    SpliceGuarded(g, ps, cfg, expanding, false);
    TokenizeRender(Splice(ps, cfg, expanding).value);
  }

  // ----- references and plain text -----

  function Chars(s: string): seq<Piece>
  {
    seq(|s|, i requires 0 <= i < |s| => Char(s[i]))
  }

  /** Only references matter here: variables of other kinds are text. */
  function FlatPiece(p: Piece): seq<Piece>
  {
    if IsRef(p) then [p] else Chars(RenderPiece(p))
  }

  function Flat(ps: seq<Piece>): seq<Piece>
  {
    if ps == [] then [] else FlatPiece(ps[0]) + Flat(ps[1..])
  }

  lemma {:induction false} RenderChars(s: string)
    ensures Render(Chars(s)) == s && Refs(Chars(s)) == {}
    decreases |s|
  {
    if s != "" {
      RenderChars(s[1..]);
      assert Chars(s)[1..] == Chars(s[1..]);
      assert s == [s[0]] + s[1..];
    }
  }

  lemma {:induction false} FlatText(ps: seq<Piece>)
    ensures Render(Flat(ps)) == Render(ps) && Refs(Flat(ps)) == Refs(ps)
  {
    if ps != [] {
      FlatText(ps[1..]);
      RefsTail(ps);
      var first := FlatPiece(ps[0]);
      RenderChars(RenderPiece(ps[0]));
      assert Render([ps[0]]) == RenderPiece(ps[0]) + "" == RenderPiece(ps[0]);
      RenderConcat(first, Flat(ps[1..]));
      RefsConcat(first, Flat(ps[1..]));
    }
  }

  lemma PiecesAssoc(a: seq<Piece>, b: seq<Piece>, c: seq<Piece>)
    ensures a + (b + c) == (a + b) + c
  {
  }

  lemma {:induction false} FlatConcat(a: seq<Piece>, b: seq<Piece>)
    ensures Flat(a + b) == Flat(a) + Flat(b)
  {
    if a == [] {
      assert a + b == b && Flat(a) + Flat(b) == Flat(b);
    } else {
      calc {
        Flat(a + b);
        { assert (a + b)[0] == a[0] && (a + b)[1..] == a[1..] + b; }
        FlatPiece(a[0]) + Flat(a[1..] + b);
        { FlatConcat(a[1..], b); }
        FlatPiece(a[0]) + (Flat(a[1..]) + Flat(b));
        { PiecesAssoc(FlatPiece(a[0]), Flat(a[1..]), Flat(b)); }
        Flat(a) + Flat(b);
      }
    }
  }

  lemma {:induction false} SpliceText(text: seq<Piece>, ps: seq<Piece>, cfg: Tokens, expanding: Option<string>)
    requires Refs(text) == {}
    ensures Splice(text + ps, cfg, expanding) ==
      match Splice(ps, cfg, expanding)
      case Ok(rest) => Ok(text + rest)
      case Err(e) => Err(e)
  {
    if text == [] {
      assert text + ps == ps;
      assert Splice(ps, cfg, expanding).Ok? ==> text + Splice(ps, cfg, expanding).value == Splice(ps, cfg, expanding).value;
    } else {
      RefsTail(text);
      SpliceText(text[1..], ps, cfg, expanding);
      assert (text + ps)[0] == text[0] && (text + ps)[1..] == text[1..] + ps;
      if Splice(ps, cfg, expanding).Ok? {
        assert text + Splice(ps, cfg, expanding).value == [text[0]] + (text[1..] + Splice(ps, cfg, expanding).value);
      }
    }
  }

  function FlatAll(cfg: Tokens): Tokens
  {
    map k | k in cfg :: Flat(cfg[k])
  }

  /** It makes no difference whether variables of other kinds are turned into text before or after. */
  lemma {:induction false} SpliceFlat(ps: seq<Piece>, cfg: Tokens, expanding: Option<string>)
    ensures Splice(Flat(ps), FlatAll(cfg), expanding) ==
      match Splice(ps, cfg, expanding)
      case Ok(qs) => Ok(Flat(qs))
      case Err(e) => Err(e)
  {
    if ps != [] {
      var flat, rest := Flat(ps[1..]), Splice(ps[1..], cfg, expanding);
      SpliceFlat(ps[1..], cfg, expanding);
      if IsRef(ps[0]) {
        assert Flat(ps)[0] == ps[0] && Flat(ps)[1..] == flat;
        if ps[0].key in cfg && rest.Ok? { FlatConcat(cfg[ps[0].key], rest.value); }
      } else {
        RenderChars(RenderPiece(ps[0]));
        SpliceText(Chars(RenderPiece(ps[0])), flat, FlatAll(cfg), expanding);
        if rest.Ok? { assert ([ps[0]] + rest.value)[1..] == rest.value; }
      }
    }
  }

  // ----- ranks: a witness that the graph has no cycle -----

  predicate RefersTo(cfg: Tokens, p: string, k: string)
  {
    p in cfg && k in Refs(cfg[p])
  }

  /** Every reference leads strictly downwards. */
  ghost predicate Ranked(cfg: Tokens, rank: map<string, nat>)
  {
    rank.Keys == cfg.Keys &&
    forall p, k :: RefersTo(cfg, p, k) ==>
      rank[p] > 0 && (k in rank ==> rank[k] < rank[p])
  }

  function Lowered(n: nat): nat { if n > 0 then n - 1 else 0 }

  /** Rewriting a setting lowers its rank by one and keeps all others. */
  lemma RewriteLowersRank(cfg: Tokens, rank: map<string, nat>, prop: string)
    requires Ranked(cfg, rank) && prop in cfg && Rewrite(cfg, prop).Ok?
    ensures Ranked(Rewrite(cfg, prop).value, rank[prop := Lowered(rank[prop])])
  {
    SpliceRefs(cfg[prop], cfg, Some(prop));
    var next, rank' := Rewrite(cfg, prop).value, rank[prop := Lowered(rank[prop])];
    forall p, j | RefersTo(next, p, j)
      ensures rank'[p] > 0 && (j in rank' ==> rank'[j] < rank'[p])
    {
      if p == prop {
        var k :| k in Refs(cfg[prop]) && k in cfg && j in Refs(cfg[k]);
        assert RefersTo(cfg, prop, k) && RefersTo(cfg, k, j);
      } else {
        assert RefersTo(cfg, p, j);
      }
    }
  }

  lemma {:induction false} PassLowersRank(cfg: Tokens, rank: map<string, nat>, order: seq<string>)
      returns (rank': map<string, nat>)
    requires Ranked(cfg, rank)
    requires forall k :: k in order ==> k in cfg
    requires forall i, j :: 0 <= i < j < |order| ==> order[i] != order[j]
    requires Pass(cfg, order).Ok?
    ensures Ranked(Pass(cfg, order).value, rank')
    ensures rank'.Keys == cfg.Keys
    ensures forall k :: k in cfg ==> rank'[k] == if k in order then Lowered(rank[k]) else rank[k]
    decreases |order|
  {
    if order == [] {
      rank' := rank;
    } else {
      RewriteLowersRank(cfg, rank, order[0]);
      assert forall k :: k in order <==> k == order[0] || k in order[1..];
      rank' := PassLowersRank(Rewrite(cfg, order[0]).value, rank[order[0] := Lowered(rank[order[0]])], order[1..]);
    }
  }

  // ----- cycles -----

  predicate Edge(cfg: Tokens, p: string, k: string)
  {
    RefersTo(cfg, p, k) && k in cfg
  }

  /** A simple cycle of the reference graph; a self reference is a cycle of length one. */
  ghost predicate IsCycle(cfg: Tokens, c: seq<string>)
  {
    c != [] &&
    (forall i, j :: 0 <= i < j < |c| ==> c[i] != c[j]) &&
    (forall i :: 0 <= i < |c| - 1 ==> Edge(cfg, c[i], c[i + 1])) &&
    Edge(cfg, c[|c| - 1], c[0])
  }

  ghost predicate Acyclic(cfg: Tokens)
  {
    forall c :: !IsCycle(cfg, c)
  }

  lemma Rotate(cfg: Tokens, c: seq<string>, i: nat)
    requires IsCycle(cfg, c) && i < |c|
    ensures IsCycle(cfg, c[i..] + c[..i])
  {
    var d := c[i..] + c[..i];
    forall j | 0 <= j < |d| - 1
      ensures Edge(cfg, d[j], d[j + 1])
    {
      if j < |c| - i - 1 {
        assert d[j] == c[i + j] && d[j + 1] == c[i + j + 1];
      } else if j >= |c| - i {
        assert d[j] == c[j - (|c| - i)] && d[j + 1] == c[j - (|c| - i) + 1];
      }
    }
    if i > 0 {
      assert d[|d| - 1] == c[i - 1] && d[0] == c[i];
    } else {
      assert d == c;
    }
  }

  /** Rewriting a node of a cycle cuts its successor out of the cycle. */
  lemma RewriteShortensCycle(cfg: Tokens, c: seq<string>, prop: string) returns (d: seq<string>)
    requires IsCycle(cfg, c) && prop in c && prop in cfg && Rewrite(cfg, prop).Ok?
    ensures IsCycle(Rewrite(cfg, prop).value, d) && |d| < |c|
  {
    var i :| 0 <= i < |c| && c[i] == prop;
    Rotate(cfg, c, i);
    var e := c[i..] + c[..i];
    assert e[0] == prop;
    var next := Rewrite(cfg, prop).value;
    SpliceRefs(cfg[prop], cfg, Some(prop));
    assert |e| != 1;
    d := [prop] + e[2..];
    var after := if |e| == 2 then prop else e[2];
    assert Edge(cfg, prop, e[1]);
    assert Edge(cfg, e[1], after);
    assert Edge(next, prop, after);
    forall j | 0 <= j < |d| - 1
      ensures Edge(next, d[j], d[j + 1])
    {
      if j > 0 { assert Edge(cfg, e[j + 1], e[j + 2]); }
    }
  }

  lemma {:induction false} PassKeepsCyclic(cfg: Tokens, c: seq<string>, order: seq<string>) returns (d: seq<string>)
    requires IsCycle(cfg, c)
    requires forall k :: k in order ==> k in cfg
    requires Pass(cfg, order).Ok?
    ensures IsCycle(Pass(cfg, order).value, d) && |d| <= |c|
    decreases |order|
  {
    if order == [] {
      d := c;
    } else if order[0] in c {
      d := RewriteShortensCycle(cfg, c, order[0]);
      d := PassKeepsCyclic(Rewrite(cfg, order[0]).value, d, order[1..]);
    } else {
      d := PassKeepsCyclic(Rewrite(cfg, order[0]).value, c, order[1..]);
    }
  }

  /** A round that does not fail shortens every cycle it meets: the argument that a cycle of
      any length is caught after finitely many rounds. */
  lemma {:induction false} PassShortensCycle(cfg: Tokens, c: seq<string>, order: seq<string>) returns (d: seq<string>)
    requires IsCycle(cfg, c)
    requires forall k :: k in order ==> k in cfg
    requires forall k :: k in c ==> k in order
    requires Pass(cfg, order).Ok?
    ensures IsCycle(Pass(cfg, order).value, d) && |d| < |c|
    decreases |order|
  {
    assert c[0] in order;
    if order[0] in c {
      d := RewriteShortensCycle(cfg, c, order[0]);
      d := PassKeepsCyclic(Rewrite(cfg, order[0]).value, d, order[1..]);
    } else {
      d := PassShortensCycle(Rewrite(cfg, order[0]).value, c, order[1..]);
    }
  }

  // ----- exactly one of the two witnesses exists -----

  lemma {:induction false} RankFallsAlongPath(cfg: Tokens, rank: map<string, nat>, c: seq<string>, i: nat)
    requires Ranked(cfg, rank) && IsCycle(cfg, c) && i < |c|
    ensures c[0] in rank && c[i] in rank && rank[c[i]] + i <= rank[c[0]]
  {
    if i > 0 {
      RankFallsAlongPath(cfg, rank, c, i - 1);
      assert Edge(cfg, c[i - 1], c[i]);
    } else {
      assert |c| > 1 ==> Edge(cfg, c[0], c[1]);
    }
  }

  lemma RankedIsAcyclic(cfg: Tokens, rank: map<string, nat>)
    requires Ranked(cfg, rank)
    ensures Acyclic(cfg)
  {
    forall c
      ensures !IsCycle(cfg, c)
    {
      if IsCycle(cfg, c) {
        RankFallsAlongPath(cfg, rank, c, |c| - 1);
      }
    }
  }

  ghost predicate HasSuccessor(cfg: Tokens, s: set<string>, p: string)
  {
    exists k :: k in s && Edge(cfg, p, k)
  }

  ghost predicate IsPath(cfg: Tokens, path: seq<string>)
  {
    path != [] &&
    (forall i, j :: 0 <= i < j < |path| ==> path[i] != path[j]) &&
    (forall i :: 0 <= i < |path| - 1 ==> Edge(cfg, path[i], path[i + 1]))
  }

  /** A path that has reached `s`; `unseen` is what it has not visited of `s` yet. */
  ghost predicate Following(cfg: Tokens, s: set<string>, path: seq<string>, unseen: set<string>)
  {
    IsPath(cfg, path) && path[|path| - 1] in s && forall k :: k in s && k !in path ==> k in unseen
  }

  lemma FollowOn(cfg: Tokens, s: set<string>, path: seq<string>, unseen: set<string>, k: string)
    requires Following(cfg, s, path, unseen) && k in s && k !in path && Edge(cfg, path[|path| - 1], k)
    ensures k in unseen && Following(cfg, s, path + [k], unseen - {k})
  {
  }

  lemma RunsIntoItself(cfg: Tokens, path: seq<string>, k: string) returns (c: seq<string>)
    requires IsPath(cfg, path) && k in path && Edge(cfg, path[|path| - 1], k)
    ensures IsCycle(cfg, c)
  {
    var i :| 0 <= i < |path| && path[i] == k;
    c := path[i..];
  }

  lemma Successor(cfg: Tokens, s: set<string>, p: string) returns (k: string)
    requires HasSuccessor(cfg, s, p)
    ensures k in s && Edge(cfg, p, k)
  {
    k :| k in s && Edge(cfg, p, k);
  }

  /** A path through `s`, every node of which has a successor in `s`, runs into itself. */
  lemma {:induction false} FollowToCycle(cfg: Tokens, s: set<string>, path: seq<string>, unseen: set<string>)
      returns (c: seq<string>)
    requires Following(cfg, s, path, unseen)
    requires forall p :: p in s ==> HasSuccessor(cfg, s, p)
    ensures IsCycle(cfg, c)
    decreases unseen
  {
    var k := Successor(cfg, s, path[|path| - 1]);
    if k in path {
      c := RunsIntoItself(cfg, path, k);
    } else {
      FollowOn(cfg, s, path, unseen, k);
      c := FollowToCycle(cfg, s, path + [k], unseen - {k});
    }
  }

  ghost predicate RankedWithin(cfg: Tokens, s: set<string>, rank: map<string, nat>)
  {
    rank.Keys == s && forall p, k :: p in s && k in s && Edge(cfg, p, k) ==> rank[k] < rank[p]
  }

  lemma RankAboveSink(cfg: Tokens, s: set<string>, sink: string, below: map<string, nat>) returns (rank: map<string, nat>)
    requires sink in s && !HasSuccessor(cfg, s, sink) && RankedWithin(cfg, s - {sink}, below)
    ensures RankedWithin(cfg, s, rank)
  {
    rank := map k | k in s :: if k == sink then 0 else below[k] + 1;
    forall p, k | p in s && k in s && Edge(cfg, p, k)
      ensures rank[k] < rank[p]
    {
      assert p != sink;
    }
  }

  lemma CycleWithin(cfg: Tokens, s: set<string>) returns (c: seq<string>)
    requires s != {} && forall p :: p in s ==> HasSuccessor(cfg, s, p)
    ensures IsCycle(cfg, c)
  {
    var p :| p in s;
    c := FollowToCycle(cfg, s, [p], s - {p});
  }

  /** A rank for the settings in `s`, looking only at references between them, or a cycle. */
  lemma {:induction false} RankOrCycle(cfg: Tokens, s: set<string>) returns (rank: map<string, nat>, c: seq<string>)
    ensures IsCycle(cfg, c) || RankedWithin(cfg, s, rank)
    decreases s
  {
    c, rank := [], map[];
    if forall p :: p in s ==> HasSuccessor(cfg, s, p) {
      if s != {} { c := CycleWithin(cfg, s); }
    } else {
      var sink :| sink in s && !HasSuccessor(cfg, s, sink);
      rank, c := RankOrCycle(cfg, s - {sink});
      if !IsCycle(cfg, c) { rank := RankAboveSink(cfg, s, sink, rank); }
    }
  }

  lemma AcyclicIsRanked(cfg: Tokens) returns (rank: map<string, nat>)
    requires Acyclic(cfg)
    ensures Ranked(cfg, rank)
  {
    var below, c := RankOrCycle(cfg, cfg.Keys);
    rank := map k | k in cfg :: below[k] + 1;
    forall p, k | RefersTo(cfg, p, k)
      ensures rank[p] > 0 && (k in rank ==> rank[k] < rank[p])
    {
      if k in rank { assert Edge(cfg, p, k); }
    }
  }
}
