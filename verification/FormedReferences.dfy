/** What goes wrong in `expandDbgConfig` when a splice forms a reference that no setting contains: a
    setting whose value is `$` is spliced in before a `{`. */
module FormedReferences {
  import opened Options
  import opened VariableSyntax
  import opened ReferenceGraph
  import opened DbgConfig

  function BracedKey(k: string): string { "{dbgconfig:" + k + "}" }

  lemma FormedText(z: string)
    ensures "$" + BracedKey(z) == RefText(z)
  {
    assert "$" + "{dbgconfig:" == "${dbgconfig:";
  }

  // ----- texts with a reference and texts without -----

  lemma {:induction false} PlainText(s: string, cfg: Config, expanding: Option<string>)
    requires '$' !in s
    ensures ExpandText(s, cfg, expanding) == Ok(s) && TextRefs(s) == {}
  {
    RenderRefPieces(s);
    if s != [] {
      PlainText(s[1..], cfg, expanding);
      RenderRefPieces(s[1..]);
      RefsTail(Tokenize(s));
      assert Tokenize(s) == [Char(s[0])] + Tokenize(s[1..]);
      assert s == [s[0]] + s[1..];
    }
  }

  /** A reference that is followed by plain text. */
  lemma RefThen(k: string, rest: string)
    requires k != "" && '}' !in k && '$' !in rest
    ensures Tokenize(RefText(k) + rest) == [Ref(k)] + Tokenize(rest)
    ensures TextRefs(RefText(k) + rest) == {k}
  {
    RefWellFormed(k);
    TokenizeVar(Ref(k), rest);
    PlainText(rest, map[], None);
    RenderRefPieces(rest);
    RenderRefPieces(RefText(k) + rest);
    RefsTail([Ref(k)] + Tokenize(rest));
    assert ([Ref(k)] + Tokenize(rest))[1..] == Tokenize(rest);
  }

  lemma ExpandRefThen(k: string, rest: string, cfg: Config, expanding: Option<string>)
    requires k != "" && '}' !in k && '$' !in rest && Some(k) != expanding
    ensures ExpandText(RefText(k) + rest, cfg, expanding) == if k in cfg then Ok(cfg[k] + rest) else Err(Undefined(k))
  {
    ReferenceReplaced(k, rest, cfg, expanding);
    PlainText(rest, cfg, expanding);
  }

  // ----- passes that change one setting -----

  predicate OnlyRefsAt(cfg: Config, order: seq<string>, x: string)
  {
    (forall k :: k in order ==> k in cfg) && forall k :: k in order && k != x ==> TextRefs(cfg[k]) == {}
  }

  lemma RewriteInert(cfg: Config, k: string)
    requires k in cfg && TextRefs(cfg[k]) == {}
    ensures ExpandText(cfg[k], cfg, Some(k)) == Ok(cfg[k]) && cfg[k := cfg[k]] == cfg
  {
    RewriteNothing(cfg, k);
  }

  lemma {:induction false} PassInert(cfg: Config, order: seq<string>)
    requires forall k :: k in order ==> k in cfg && TextRefs(cfg[k]) == {}
    ensures TextPass(cfg, order) == Ok(cfg)
    decreases |order|
  {
    if order != [] {
      RewriteInert(cfg, order[0]);
      PassInert(cfg, order[1..]);
    }
  }

  lemma {:induction false} PassOne(cfg: Config, order: seq<string>, x: string)
    requires OnlyRefsAt(cfg, order, x) && x in order && forall i, j :: 0 <= i < j < |order| ==> order[i] != order[j]
    ensures TextPass(cfg, order) ==
      match ExpandText(cfg[x], cfg, Some(x))
      case Ok(t) => Ok(cfg[x := t])
      case Err(e) => Err(e)
    decreases |order|
  {
    if order[0] != x {
      RewriteInert(cfg, order[0]);
      PassOne(cfg, order[1..], x);
    } else {
      var t := ExpandText(cfg[x], cfg, Some(x));
      if t.Ok? { PassInert(cfg[x := t.value], order[1..]); }
    }
  }

  lemma {:induction false} UncleanAt(cfg: Config, order: seq<string>, x: string)
    requires OnlyRefsAt(cfg, order, x) && x in order && !CleanText(cfg[x], cfg, Some(x))
    ensures !CleanPass(cfg, order)
    decreases |order|
  {
    if order[0] != x {
      RewriteInert(cfg, order[0]);
      UncleanAt(cfg, order[1..], x);
    }
  }

  // ----- the formed reference -----

  /** `x` refers to `d`, whose value is a dollar sign, and goes on with a braced `z`. */
  predicate Forms(settings: Config, d: string, x: string, z: string)
  {
    && d in settings && x in settings && d != x && z != x
    && d != "" && '}' !in d && z != "" && '}' !in z && '$' !in z
    && settings[d] == "$" && settings[x] == RefText(d) + BracedKey(z)
    && forall k :: k in settings && k != d && k != x ==> '$' !in settings[k]
  }

  lemma FormsRefs(settings: Config, d: string, x: string, z: string)
    requires Forms(settings, d, x, z)
    ensures TextRefs(settings[x]) == {d}
    ensures forall k :: k in settings && k != x ==> TextRefs(settings[k]) == {}
  {
    RefThen(d, BracedKey(z));
    forall k | k in settings && k != d && k != x
      ensures TextRefs(settings[k]) == {}
    {
      PlainText(settings[k], settings, None);
    }
  }

  lemma OneEdgeIsAcyclic(defs: Tokens, d: string, x: string)
    requires d in defs && d != x && forall p, k :: RefersTo(defs, p, k) ==> p == x && k == d
    ensures Closed(defs) && Acyclic(defs)
  {
    RankedIsAcyclic(defs, map k | k in defs :: if k == x then 1 else 0);
  }

  lemma OneRefIsAcyclic(settings: Config, d: string, x: string)
    requires x in settings && d in settings && d != x && TextRefs(settings[x]) == {d}
    requires forall k :: k in settings && k != x ==> TextRefs(settings[k]) == {}
    ensures Closed(TokensOf(settings)) && Acyclic(TokensOf(settings))
  {
    var defs := TokensOf(settings);
    forall p, k | RefersTo(defs, p, k)
      ensures p == x && k == d
    {
      assert k in TextRefs(settings[p]);
    }
    OneEdgeIsAcyclic(defs, d, x);
  }

  lemma OneRefSolved(settings: Config, x: string, t: string)
    requires x in settings && ExpandText(settings[x], settings[x := t], None) == Ok(t)
    requires forall k :: k in settings && k != x ==> TextRefs(settings[k]) == {}
    ensures Solves(TokensOf(settings), settings[x := t])
  {
    var defs, meant := TokensOf(settings), settings[x := t];
    forall k | k in defs
      ensures ExpandPieces(defs[k], meant, None) == Ok(meant[k])
    {
      ExpandFlat(Tokenize(settings[k]), meant, None);
      if k != x {
        NoRefsExpandsToItself(defs[k], meant, None);
        RenderRefPieces(settings[k]);
      }
    }
  }

  lemma FormsExpand(settings: Config, d: string, x: string, z: string, cfg: Config, expanding: Option<string>)
    requires Forms(settings, d, x, z) && d in cfg && cfg[d] == "$" && Some(d) != expanding
    ensures ExpandText(settings[x], cfg, expanding) == Ok(RefText(z))
  {
    ExpandRefThen(d, BracedKey(z), cfg, expanding);
    FormedText(z);
  }

  lemma FormedExpand(z: string, cfg: Config, expanding: Option<string>)
    requires z != "" && '}' !in z && Some(z) != expanding
    ensures ExpandText(RefText(z), cfg, expanding) == if z in cfg then Ok(cfg[z]) else Err(Undefined(z))
  {
    ExpandRefThen(z, "", cfg, expanding);
    assert RefText(z) + "" == RefText(z);
    if z in cfg { assert cfg[z] + "" == cfg[z]; }
  }

  /** The settings themselves are in order, and mean that `x` holds the text of a reference. */
  lemma FormsMeaning(settings: Config, d: string, x: string, z: string)
    requires Forms(settings, d, x, z)
    ensures Closed(TokensOf(settings)) && Acyclic(TokensOf(settings))
    ensures Solves(TokensOf(settings), settings[x := RefText(z)])
  {
    FormsRefs(settings, d, x, z);
    OneRefIsAcyclic(settings, d, x);
    FormsExpand(settings, d, x, z, settings[x := RefText(z)], None);
    OneRefSolved(settings, x, RefText(z));
  }

  lemma FormsUnclean(settings: Config, order: seq<string>, d: string, x: string, z: string)
    requires Forms(settings, d, x, z) && IsKeyOrder(order, settings.Keys)
    ensures !CleanRun(settings, order)
  {
    var ps, tc := RefPieces(settings[x]), TokensOf(settings);
    FormsRefs(settings, d, x, z);
    FormsExpand(settings, d, x, z, settings, Some(x));
    ExpandFlat(Tokenize(settings[x]), settings, Some(x));
    ExpandIsSplice(ps, settings, Some(x));
    SpliceRefs(ps, tc, Some(x));
    var qs := Splice(ps, tc, Some(x)).value;
    assert Render(qs) == RefText(z) && Refs(qs) == {};
    RefThen(z, "");
    assert RefText(z) + "" == RefText(z);
    assert z in TextRefs(RefText(z));
    UncleanAt(settings, order, x);
    assert Rounds(settings, order, 0) == Ok(settings);
  }

  lemma FormsRound(settings: Config, order: seq<string>, d: string, x: string, z: string)
    requires Forms(settings, d, x, z) && IsKeyOrder(order, settings.Keys)
    ensures TextPass(settings, order) == Ok(settings[x := RefText(z)])
  {
    FormsRefs(settings, d, x, z);
    FormsExpand(settings, d, x, z, settings, Some(x));
    PassOne(settings, order, x);
  }

  lemma FormedRound(settings: Config, order: seq<string>, x: string, z: string)
    requires IsKeyOrder(order, settings.Keys) && x in settings && z != x && z != "" && '}' !in z
    requires forall k :: k in settings && k != x ==> TextRefs(settings[k]) == {}
    ensures TextPass(settings[x := RefText(z)], order) ==
      if z in settings then Ok(settings[x := settings[z]]) else Err(Undefined(z))
  {
    var once := settings[x := RefText(z)];
    FormedExpand(z, once, Some(x));
    PassOne(once, order, x);
    if z in settings { assert once[x := settings[z]] == settings[x := settings[z]]; }
  }

  lemma TwoRounds(settings: Config, order: seq<string>, once: Config)
    requires (forall k :: k in order ==> k in settings) && TextPass(settings, order) == Ok(once)
    ensures Rounds(settings, order, 2) == TextPass(once, order)
  {
    assert Rounds(settings, order, 0) == Ok(settings);
    assert Rounds(settings, order, 1) == Ok(once);
  }

  /** The first round forms a reference to `z` and the second expands it. */
  lemma FormsTwoRounds(settings: Config, order: seq<string>, d: string, x: string, z: string)
    requires Forms(settings, d, x, z) && IsKeyOrder(order, settings.Keys)
    ensures Rounds(settings, order, 2) == if z in settings then Ok(settings[x := settings[z]]) else Err(Undefined(z))
  {
    FormsRefs(settings, d, x, z);
    FormsRound(settings, order, d, x, z);
    FormedRound(settings, order, x, z);
    TwoRounds(settings, order, settings[x := RefText(z)]);
  }

  lemma FormsNotSolved(settings: Config, d: string, x: string, z: string, fin: Config)
    requires Forms(settings, d, x, z) && d in fin && fin[d] == "$" && x in fin && fin[x] != RefText(z)
    ensures !Solves(TokensOf(settings), fin)
  {
    FormsExpand(settings, d, x, z, fin, None);
    ExpandFlat(Tokenize(settings[x]), fin, None);
    assert x in TokensOf(settings);
  }

  /** The do-while stops with a result that is not what the settings mean. */
  lemma FormedReferenceIsExpanded(settings: Config, order: seq<string>, d: string, x: string, z: string)
    requires Forms(settings, d, x, z) && IsKeyOrder(order, settings.Keys) && z in settings
    ensures var got := settings[x := settings[z]];
      && Rounds(settings, order, 2) == Ok(got) && TextPass(got, order) == Ok(got)
      && (forall k :: k in got ==> TextRefs(got[k]) == {})
      && !Solves(TokensOf(settings), got)
  {
    var got := settings[x := settings[z]];
    FormsRefs(settings, d, x, z);
    FormsTwoRounds(settings, order, d, x, z);
    PassInert(got, order);
    FormsNotSolved(settings, d, x, z, got);
  }

  /** It fails although every reference in the settings is defined and none is circular. */
  lemma FormedReferenceFails(settings: Config, order: seq<string>, d: string, x: string, z: string)
    requires Forms(settings, d, x, z) && IsKeyOrder(order, settings.Keys) && z !in settings
    ensures Rounds(settings, order, 2) == Err(Undefined(z))
    ensures Closed(TokensOf(settings)) && Acyclic(TokensOf(settings))
  {
    FormsTwoRounds(settings, order, d, x, z);
    FormsMeaning(settings, d, x, z);
  }
}
