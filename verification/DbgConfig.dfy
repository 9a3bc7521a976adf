/** The settings under `lldb.dbgconfig` (`expandDbgConfig` of extension/configUtils.ts): they are
    rewritten in place until no `${dbgconfig:}` reference is left in them. LaunchConfig.dfy expands
    the launch configuration against the result. */
module DbgConfig {
  import opened Options
  import opened VariableSyntax
  import opened ReferenceGraph

  type Config = map<string, string>

  // ----- expandVariables on a text -----

  function ExpandPieces(ps: seq<Piece>, cfg: Config, expanding: Option<string>): Result<string>
  {
    if ps == [] then Ok("")
    else if !IsRef(ps[0]) then
      match ExpandPieces(ps[1..], cfg, expanding)
      case Ok(rest) => Ok(RenderPiece(ps[0]) + rest)
      case Err(e) => Err(e)
    else if Some(ps[0].key) == expanding then Err(Circular(ps[0].key))
    else if ps[0].key !in cfg then Err(Undefined(ps[0].key))
    else
      match ExpandPieces(ps[1..], cfg, expanding)
      case Ok(rest) => Ok(cfg[ps[0].key] + rest)
      case Err(e) => Err(e)
  }

  function ExpandText(s: string, cfg: Config, expanding: Option<string>): Result<string>
  {
    ExpandPieces(Tokenize(s), cfg, expanding)
  }

  /** A text as references and literal characters. */
  function RefPieces(s: string): seq<Piece>
  {
    Flat(Tokenize(s))
  }

  function TextRefs(s: string): set<string>
  {
    Refs(RefPieces(s))
  }

  function TokensOf(cfg: Config): Tokens
  {
    map k | k in cfg :: RefPieces(cfg[k])
  }

  // ----- what the settings mean -----

  /** `fin` solves the settings, read as one equation per key: each value is its defining text
      with every reference replaced by the value of the key it names. */
  ghost predicate Solves(defs: Tokens, fin: Config)
  {
    fin.Keys == defs.Keys &&
    forall k :: k in defs ==> ExpandPieces(defs[k], fin, None) == Ok(fin[k])
  }

  ghost predicate Closed(defs: Tokens)
  {
    forall p, k :: RefersTo(defs, p, k) ==> k in defs
  }

  /** One guard holds throughout, so that no splice can bring a `$` before a `{`. */
  predicate StableConfig(g: Guard, cfg: Config)
  {
    forall k :: k in cfg ==> Stable(g, Tokenize(cfg[k]))
  }

  // ----- the rounds of the do-while, on texts -----

  /** One round: every setting is rewritten once, in the given order. */
  function TextPass(cfg: Config, order: seq<string>): (r: Result<Config>)
    requires forall k :: k in order ==> k in cfg
    ensures r.Ok? ==> r.value.Keys == cfg.Keys
    decreases |order|
  {
    if order == [] then Ok(cfg)
    else
      match ExpandText(cfg[order[0]], cfg, Some(order[0]))
      case Ok(t) => TextPass(cfg[order[0] := t], order[1..])
      case Err(e) => Err(e)
  }

  function Rounds(cfg: Config, order: seq<string>, n: nat): (r: Result<Config>)
    requires forall k :: k in order ==> k in cfg
    ensures r.Ok? ==> r.value.Keys == cfg.Keys
  {
    if n == 0 then Ok(cfg)
    else
      match Rounds(cfg, order, n - 1)
      case Ok(before) => TextPass(before, order)
      case Err(e) => Err(e)
  }

  /** Expanding the text neither forms nor destroys a reference: those in the result are those in the
      texts it is spliced from. */
  predicate CleanText(s: string, cfg: Config, expanding: Option<string>)
  {
    match Splice(RefPieces(s), TokensOf(cfg), expanding)
    case Ok(qs) => RefPieces(Render(qs)) == qs
    case Err(_) => true
  }

  predicate CleanPass(cfg: Config, order: seq<string>)
    requires forall k :: k in order ==> k in cfg
    decreases |order|
  {
    order == [] ||
    (CleanText(cfg[order[0]], cfg, Some(order[0])) &&
     match ExpandText(cfg[order[0]], cfg, Some(order[0]))
     case Ok(t) => CleanPass(cfg[order[0] := t], order[1..])
     case Err(_) => true)
  }

  /** No rewrite that the do-while reaches forms or destroys a reference by accident. */
  ghost predicate CleanRun(settings: Config, order: seq<string>)
    requires forall k :: k in order ==> k in settings
  {
    forall n: nat ::
      Rounds(settings, order, n).Ok? ==> CleanPass(Rounds(settings, order, n).value, order)
  }

  // ----- texts refine pieces -----

  lemma RenderRefPieces(s: string)
    ensures Render(RefPieces(s)) == s && TextRefs(s) == Refs(Tokenize(s))
  {
    FlatText(Tokenize(s));
    RenderTokenize(s);
  }

  // ----- what expanding a text does, from left to right -----

  function Ref(key: string): Piece { Var(Some("dbgconfig"), key) }

  function RefText(k: string): string { "${dbgconfig:" + k + "}" }

  lemma RefWellFormed(k: string)
    requires k != "" && '}' !in k
    ensures WellFormed(Ref(k)) && RenderPiece(Ref(k)) == RefText(k)
  {
    assert "${" + ("dbgconfig" + ":" + k) + "}" == RefText(k);
  }

  /** A reference is replaced by the value of its key, and what follows is expanded in its turn. */
  lemma {:induction false} ReferenceReplaced(k: string, rest: string, cfg: Config, expanding: Option<string>)
    requires k != "" && '}' !in k
    ensures ExpandText(RefText(k) + rest, cfg, expanding) ==
      if Some(k) == expanding then Err(Circular(k))
      else if k !in cfg then Err(Undefined(k))
      else Prefixed(cfg[k], ExpandText(rest, cfg, expanding))
  {
    RefWellFormed(k);
    TokenizeVar(Ref(k), rest);
    assert ([Ref(k)] + Tokenize(rest))[1..] == Tokenize(rest);
  }

  /** A variable of another kind, or of none, is left as it is. */
  lemma {:induction false} OtherVariableKept(p: Piece, rest: string, cfg: Config, expanding: Option<string>)
    requires p.Var? && WellFormed(p) && p.kind != Some("dbgconfig")
    ensures ExpandText(RenderPiece(p) + rest, cfg, expanding) == Prefixed(RenderPiece(p), ExpandText(rest, cfg, expanding))
  {
    TokenizeVar(p, rest);
    assert ([p] + Tokenize(rest))[1..] == Tokenize(rest);
  }

  /** So is a character that does not start a variable. */
  lemma {:induction false} LiteralKept(c: char, rest: string, cfg: Config, expanding: Option<string>)
    requires c == '$' && rest != "" && rest[0] == '{' ==> '}' !in rest
    ensures ExpandText([c] + rest, cfg, expanding) == Prefixed([c], ExpandText(rest, cfg, expanding))
  {
    var s := [c] + rest;
    assert s[1..] == rest;
    assert InnerLength(s) == 0;
    assert ([Char(c)] + Tokenize(rest))[1..] == Tokenize(rest);
  }

  function Prefixed(text: string, r: Result<string>): Result<string>
  {
    match r
    case Ok(t) => Ok(text + t)
    case Err(e) => Err(e)
  }

  lemma {:induction false} ExpandLiteral(text: string, ps: seq<Piece>, cfg: Config, expanding: Option<string>)
    ensures ExpandPieces(Chars(text) + ps, cfg, expanding) == Prefixed(text, ExpandPieces(ps, cfg, expanding))
    decreases |text|
  {
    var all := ExpandPieces(ps, cfg, expanding);
    if text == "" {
      assert Chars(text) + ps == ps;
      if all.Ok? { assert text + all.value == all.value; }
    } else {
      ExpandLiteral(text[1..], ps, cfg, expanding);
      assert Chars(text) + ps == [Char(text[0])] + (Chars(text[1..]) + ps);
      if all.Ok? { PrefixTwice(text, all.value); }
    }
  }

  lemma PrefixTwice(text: string, t: string)
    requires text != ""
    ensures [text[0]] + (text[1..] + t) == text + t
  {
  }

  lemma {:induction false} ExpandFlat(ps: seq<Piece>, cfg: Config, expanding: Option<string>)
    ensures ExpandPieces(Flat(ps), cfg, expanding) == ExpandPieces(ps, cfg, expanding)
  {
    if ps != [] {
      ExpandFlat(ps[1..], cfg, expanding);
      if IsRef(ps[0]) {
        assert Flat(ps)[0] == ps[0] && Flat(ps)[1..] == Flat(ps[1..]);
      } else {
        ExpandLiteral(RenderPiece(ps[0]), Flat(ps[1..]), cfg, expanding);
      }
    }
  }

  lemma {:induction false} ExpandIsSplice(ps: seq<Piece>, cfg: Config, expanding: Option<string>)
    ensures match Splice(ps, TokensOf(cfg), expanding)
      case Ok(qs) => ExpandPieces(ps, cfg, expanding) == Ok(Render(qs))
      case Err(e) => ExpandPieces(ps, cfg, expanding) == Err(e)
  {
    if ps != [] {
      ExpandIsSplice(ps[1..], cfg, expanding);
      var rest := Splice(ps[1..], TokensOf(cfg), expanding);
      if rest.Ok? {
        if !IsRef(ps[0]) {
          assert ([ps[0]] + rest.value)[1..] == rest.value;
        } else if ps[0].key in cfg {
          RenderRefPieces(cfg[ps[0].key]);
          RenderConcat(RefPieces(cfg[ps[0].key]), rest.value);
        }
      }
    }
  }

  /** Rewriting a text is rewriting its pieces, when the splice forms no new variable. */
  lemma RewriteText(cfg: Config, prop: string)
    requires prop in cfg && CleanText(cfg[prop], cfg, Some(prop))
    ensures match ExpandText(cfg[prop], cfg, Some(prop))
      case Ok(t) => Rewrite(TokensOf(cfg), prop) == Ok(TokensOf(cfg[prop := t]))
      case Err(e) => Rewrite(TokensOf(cfg), prop) == Err(e)
  {
    var ps, tc := RefPieces(cfg[prop]), TokensOf(cfg);
    ExpandFlat(Tokenize(cfg[prop]), cfg, Some(prop));
    ExpandIsSplice(ps, cfg, Some(prop));
    if Splice(ps, tc, Some(prop)).Ok? {
      TokensUpdate(cfg, prop, Render(Splice(ps, tc, Some(prop)).value));
    }
  }

  lemma {:induction false} PassText(cfg: Config, order: seq<string>)
    requires (forall k :: k in order ==> k in cfg) && CleanPass(cfg, order)
    ensures match TextPass(cfg, order)
      case Ok(next) => Pass(TokensOf(cfg), order) == Ok(TokensOf(next))
      case Err(e) => Pass(TokensOf(cfg), order) == Err(e)
    decreases |order|
  {
    if order != [] {
      RewriteText(cfg, order[0]);
      var t := ExpandText(cfg[order[0]], cfg, Some(order[0]));
      if t.Ok? { PassText(cfg[order[0] := t.value], order[1..]); }
    }
  }

  // ----- guarded settings are clean -----

  lemma StableText(g: Guard, s: string, cfg: Config, expanding: Option<string>)
    requires Stable(g, Tokenize(s)) && StableConfig(g, cfg)
    ensures CleanText(s, cfg, expanding)
    ensures ExpandText(s, cfg, expanding).Ok? ==> Stable(g, Tokenize(ExpandText(s, cfg, expanding).value))
  {
    var ps, tc := Tokenize(s), map k | k in cfg :: Tokenize(cfg[k]);
    assert FlatAll(tc) == TokensOf(cfg);
    ExpandFlat(ps, cfg, expanding);
    ExpandIsSplice(Flat(ps), cfg, expanding);
    SpliceFlat(ps, tc, expanding);
    if Splice(ps, tc, expanding).Ok? {
      SpliceStable(g, ps, tc, expanding);
      FlatText(Splice(ps, tc, expanding).value);
    }
  }

  lemma {:induction false} StablePass(g: Guard, cfg: Config, order: seq<string>)
    requires (forall k :: k in order ==> k in cfg) && StableConfig(g, cfg)
    ensures CleanPass(cfg, order)
    ensures TextPass(cfg, order).Ok? ==> StableConfig(g, TextPass(cfg, order).value)
    decreases |order|
  {
    if order != [] {
      StableText(g, cfg[order[0]], cfg, Some(order[0]));
      var t := ExpandText(cfg[order[0]], cfg, Some(order[0]));
      if t.Ok? { StablePass(g, cfg[order[0] := t.value], order[1..]); }
    }
  }

  /** What every round keeps holds after any number of them. */
  lemma {:induction false} RoundsKeep(keeps: Config -> bool, settings: Config, order: seq<string>, n: nat)
    requires (forall k :: k in order ==> k in settings) && keeps(settings)
    requires forall cfg: Config :: keeps(cfg) && cfg.Keys == settings.Keys && TextPass(cfg, order).Ok? ==>
               keeps(TextPass(cfg, order).value)
    ensures Rounds(settings, order, n).Ok? ==> keeps(Rounds(settings, order, n).value)
  {
    if n > 0 { RoundsKeep(keeps, settings, order, n - 1); }
  }

  lemma StableRounds(g: Guard, settings: Config, order: seq<string>, n: nat)
    requires (forall k :: k in order ==> k in settings) && StableConfig(g, settings)
    ensures Rounds(settings, order, n).Ok? ==> StableConfig(g, Rounds(settings, order, n).value)
  {
    forall cfg: Config | StableConfig(g, cfg) && cfg.Keys == settings.Keys && TextPass(cfg, order).Ok?
      ensures StableConfig(g, TextPass(cfg, order).value)
    {
      StablePass(g, cfg, order);
    }
    RoundsKeep(cfg => StableConfig(g, cfg), settings, order, n);
  }

  /** Either guard on the settings is enough for a clean run, in any order. */
  lemma StableIsClean(g: Guard, settings: Config, order: seq<string>)
    requires (forall k :: k in order ==> k in settings) && StableConfig(g, settings)
    ensures CleanRun(settings, order)
  {
    forall n: nat | Rounds(settings, order, n).Ok?
      ensures CleanPass(Rounds(settings, order, n).value, order)
    {
      StableRounds(g, settings, order, n);
      StablePass(g, Rounds(settings, order, n).value, order);
    }
  }

  lemma TokensUpdate(cfg: Config, prop: string, t: string)
    ensures TokensOf(cfg[prop := t]) == TokensOf(cfg)[prop := RefPieces(t)]
  {
  }

  // ----- rewriting keeps the meaning -----

  lemma {:induction false} ExpandConcat(a: seq<Piece>, b: seq<Piece>, fin: Config)
    requires ExpandPieces(a, fin, None).Ok?
    ensures match ExpandPieces(b, fin, None)
      case Ok(t) => ExpandPieces(a + b, fin, None) == Ok(ExpandPieces(a, fin, None).value + t)
      case Err(e) => ExpandPieces(a + b, fin, None) == Err(e)
  {
    if a == [] {
      assert a + b == b;
      if ExpandPieces(b, fin, None).Ok? {
        assert "" + ExpandPieces(b, fin, None).value == ExpandPieces(b, fin, None).value;
      }
    } else {
      ExpandConcat(a[1..], b, fin);
      assert (a + b)[1..] == a[1..] + b && (a + b)[0] == a[0];
      var head := if IsRef(a[0]) then fin[a[0].key] else RenderPiece(a[0]);
      if ExpandPieces(b, fin, None).Ok? {
        Assoc(head, ExpandPieces(a[1..], fin, None).value, ExpandPieces(b, fin, None).value);
      }
    }
  }

  /** A splice means what the text meant, under any `fin` that already solves the settings
      that were spliced in. */
  lemma {:induction false} SpliceMeaning(ps: seq<Piece>, defs: Tokens, expanding: Option<string>, fin: Config)
    requires Splice(ps, defs, expanding).Ok? && fin.Keys == defs.Keys
    requires forall k :: k in defs && Some(k) != expanding ==> ExpandPieces(defs[k], fin, None) == Ok(fin[k])
    ensures ExpandPieces(Splice(ps, defs, expanding).value, fin, None) == ExpandPieces(ps, fin, None)
  {
    if ps != [] {
      SpliceMeaning(ps[1..], defs, expanding, fin);
      var rest := Splice(ps[1..], defs, expanding).value;
      if IsRef(ps[0]) {
        ExpandConcat(defs[ps[0].key], rest, fin);
      } else {
        assert ([ps[0]] + rest)[1..] == rest;
      }
    }
  }

  lemma RewriteMeaning(defs: Tokens, prop: string, fin: Config)
    requires prop in defs && Rewrite(defs, prop).Ok?
    requires Solves(Rewrite(defs, prop).value, fin)
    ensures Solves(defs, fin)
  {
    var next := Rewrite(defs, prop).value;
    assert next.Keys == defs.Keys;
    forall k | k in defs && k != prop
      ensures ExpandPieces(defs[k], fin, None) == Ok(fin[k])
    {
      assert k in next && next[k] == defs[k];
    }
    SpliceMeaning(defs[prop], defs, Some(prop), fin);
    assert prop in next;
  }

  lemma {:induction false} PassMeaning(defs: Tokens, order: seq<string>, fin: Config)
    requires forall k :: k in order ==> k in defs
    requires Pass(defs, order).Ok? && Solves(Pass(defs, order).value, fin)
    ensures Solves(defs, fin)
    decreases |order|
  {
    if order != [] {
      PassMeaning(Rewrite(defs, order[0]).value, order[1..], fin);
      RewriteMeaning(defs, order[0], fin);
    }
  }

  // ----- the meaning is unique -----

  lemma {:induction false} ExpandAgrees(ps: seq<Piece>, a: Config, b: Config)
    requires a.Keys == b.Keys
    requires forall k :: k in Refs(ps) && k in a ==> a[k] == b[k]
    ensures ExpandPieces(ps, a, None) == ExpandPieces(ps, b, None)
  {
    if ps != [] {
      RefsTail(ps);
      ExpandAgrees(ps[1..], a, b);
    }
  }

  lemma {:induction false} SameValue(defs: Tokens, rank: map<string, nat>, a: Config, b: Config, k: string)
    requires Ranked(defs, rank) && Solves(defs, a) && Solves(defs, b) && k in defs
    ensures a[k] == b[k]
    decreases rank[k]
  {
    forall j | j in Refs(defs[k]) && j in a
      ensures a[j] == b[j]
    {
      assert RefersTo(defs, k, j);
      SameValue(defs, rank, a, b, j);
    }
    ExpandAgrees(defs[k], a, b);
  }

  /** Settings without circular references have at most one meaning. */
  lemma SolutionUnique(defs: Tokens, a: Config, b: Config)
    requires Acyclic(defs) && Solves(defs, a) && Solves(defs, b)
    ensures a == b
  {
    var rank := AcyclicIsRanked(defs);
    forall k | k in defs
      ensures a[k] == b[k]
    {
      SameValue(defs, rank, a, b, k);
    }
  }

  // ----- the do-while -----

  lemma {:induction false} NoRefsExpandsToItself(ps: seq<Piece>, cfg: Config, expanding: Option<string>)
    requires Refs(ps) == {}
    ensures ExpandPieces(ps, cfg, expanding) == Ok(Render(ps))
  {
    if ps != [] {
      RefsTail(ps);
      NoRefsExpandsToItself(ps[1..], cfg, expanding);
    }
  }

  lemma RefFreeSolvesItself(cfg: Config)
    requires forall k :: k in cfg ==> TextRefs(cfg[k]) == {}
    ensures Solves(TokensOf(cfg), cfg)
  {
    forall k | k in cfg
      ensures ExpandPieces(RefPieces(cfg[k]), cfg, None) == Ok(cfg[k])
    {
      NoRefsExpandsToItself(RefPieces(cfg[k]), cfg, None);
      RenderRefPieces(cfg[k]);
    }
  }

  lemma {:induction false} ExpandDefined(ps: seq<Piece>, cfg: Config, expanding: Option<string>)
    ensures ExpandPieces(ps, cfg, expanding).Ok? <==>
      forall k :: k in Refs(ps) ==> k in cfg && Some(k) != expanding
    ensures ExpandPieces(ps, cfg, expanding).Err? ==>
      var e := ExpandPieces(ps, cfg, expanding).failure;
      e.key in Refs(ps) && (if e.Circular? then Some(e.key) == expanding else e.key !in cfg)
  {
    if ps != [] {
      RefsTail(ps);
      ExpandDefined(ps[1..], cfg, expanding);
    }
  }

  /** Only keys that some setting refers to can be reported, and a circularity only when there is one. */
  lemma {:induction false} PassFailure(defs: Tokens, order: seq<string>)
    requires forall k :: k in order ==> k in defs
    requires Pass(defs, order).Err?
    ensures var e := Pass(defs, order).failure;
      && (exists p :: RefersTo(defs, p, e.key))
      && (e.Undefined? ==> e.key !in defs)
      && (e.Circular? ==> !Acyclic(defs))
    decreases |order|
  {
    var prop, e := order[0], Pass(defs, order).failure;
    if Rewrite(defs, prop).Err? {
      SpliceFailure(defs[prop], defs, Some(prop));
      assert RefersTo(defs, prop, e.key);
      if e.Circular? { assert IsCycle(defs, [prop]); }
    } else {
      var next := Rewrite(defs, prop).value;
      PassFailure(next, order[1..]);
      SpliceRefs(defs[prop], defs, Some(prop));
      var p :| RefersTo(next, p, e.key);
      if p == prop {
        var k :| k in Refs(defs[prop]) && k in defs && e.key in Refs(defs[k]);
        assert RefersTo(defs, k, e.key);
      } else {
        assert RefersTo(defs, p, e.key);
      }
      if e.Circular? && Acyclic(defs) {
        var rank := AcyclicIsRanked(defs);
        RewriteLowersRank(defs, rank, prop);
        RankedIsAcyclic(next, rank[prop := Lowered(rank[prop])]);
      }
    }
  }

  lemma {:induction false} PassRefs(defs: Tokens, order: seq<string>)
    requires forall k :: k in order ==> k in defs
    requires Pass(defs, order).Ok?
    ensures Pass(defs, order).value.Keys == defs.Keys
    ensures forall p, k :: RefersTo(Pass(defs, order).value, p, k) ==> exists q :: RefersTo(defs, q, k)
    decreases |order|
  {
    if order != [] {
      var next := Rewrite(defs, order[0]).value;
      PassRefs(next, order[1..]);
      SpliceRefs(defs[order[0]], defs, Some(order[0]));
      forall p, k | RefersTo(next, p, k)
        ensures exists q :: RefersTo(defs, q, k)
      {
        if p == order[0] {
          var j :| j in Refs(defs[p]) && j in defs && k in Refs(defs[j]);
          assert RefersTo(defs, j, k);
        } else {
          assert RefersTo(defs, p, k);
        }
      }
    }
  }

  ghost predicate IsKeyOrder(order: seq<string>, keys: set<string>)
  {
    (forall i, j :: 0 <= i < j < |order| ==> order[i] != order[j]) &&
    (forall k :: k in order <==> k in keys)
  }

  ghost predicate HasRef(cfg: Config)
  {
    exists p, k :: RefersTo(TokensOf(cfg), p, k)
  }

  predicate RefFree(cfg: Config, keys: seq<string>)
  {
    forall k :: k in keys && k in cfg ==> TextRefs(cfg[k]) == {}
  }

  /** A setting without references is left as it is. */
  lemma RewriteNothing(cfg: Config, prop: string)
    requires prop in cfg && TextRefs(cfg[prop]) == {}
    ensures ExpandText(cfg[prop], cfg, Some(prop)) == Ok(cfg[prop])
  {
    RenderRefPieces(cfg[prop]);
    NoRefsExpandsToItself(Tokenize(cfg[prop]), cfg, Some(prop));
    RenderTokenize(cfg[prop]);
  }

  lemma RefFound(cfg: Config, prop: string)
    requires prop in cfg && TextRefs(cfg[prop]) != {}
    ensures HasRef(cfg)
  {
    var k :| k in TextRefs(cfg[prop]);
    assert RefersTo(TokensOf(cfg), prop, k);
  }

  /** After rewriting the keys before position `i`. */
  ghost predicate RoundInv(settings: Config, order: seq<string>, i: nat, dbgconfig: Config)
    requires IsKeyOrder(order, settings.Keys) && i <= |order|
  {
    && dbgconfig.Keys == settings.Keys
    && TextPass(settings, order) == TextPass(dbgconfig, order[i..])
  }

  /** The flag says whether a reference has been met in this round. */
  ghost predicate FlagInv(settings: Config, order: seq<string>, i: nat, dbgconfig: Config, converged: bool)
    requires i <= |order|
  {
    if converged then dbgconfig == settings && RefFree(settings, order[..i]) else HasRef(settings)
  }

  lemma RoundStep(settings: Config, order: seq<string>, i: nat, dbgconfig: Config)
    requires IsKeyOrder(order, settings.Keys) && i < |order| && RoundInv(settings, order, i, dbgconfig)
    ensures match ExpandText(dbgconfig[order[i]], dbgconfig, Some(order[i]))
      case Ok(t) => RoundInv(settings, order, i + 1, dbgconfig[order[i] := t])
      case Err(e) => TextPass(settings, order) == Err(e)
  {
  }

  lemma RoundEnds(settings: Config, order: seq<string>, dbgconfig: Config, converged: bool)
    requires IsKeyOrder(order, settings.Keys) && RoundInv(settings, order, |order|, dbgconfig)
    requires FlagInv(settings, order, |order|, dbgconfig, converged)
    ensures TextPass(settings, order) == Ok(dbgconfig)
    ensures converged ==> dbgconfig == settings && RefFree(settings, order)
    ensures !converged ==> HasRef(settings)
  {
    assert order[|order|..] == [] && order[..|order|] == order;
  }

  lemma FlagStep(settings: Config, order: seq<string>, i: nat, dbgconfig: Config, converged: bool, t: string)
    requires i < |order| && order[i] in dbgconfig
    requires FlagInv(settings, order, i, dbgconfig, converged)
    requires ExpandText(dbgconfig[order[i]], dbgconfig, Some(order[i])) == Ok(t)
    ensures FlagInv(settings, order, i + 1, dbgconfig[order[i] := t],
                    converged && TextRefs(dbgconfig[order[i]]) == {})
  {
    if converged {
      if TextRefs(dbgconfig[order[i]]) == {} {
        RewriteNothing(dbgconfig, order[i]);
        assert dbgconfig[order[i] := t] == dbgconfig;
      } else {
        RefFound(settings, order[i]);
      }
    }
  }

  /** The body of the do-while. */
  method ExpandRound(settings: Config, order: seq<string>) returns (r: Result<Config>, converged: bool)
    requires IsKeyOrder(order, settings.Keys)
    ensures r == TextPass(settings, order)
    ensures r.Ok? && converged ==> r.value == settings && RefFree(settings, order)
    ensures r.Ok? && !converged ==> HasRef(settings)
  {
    var dbgconfig := settings;
    converged := true;
    assert order[0..] == order;
    for i := 0 to |order|
      invariant RoundInv(settings, order, i, dbgconfig)
      invariant FlagInv(settings, order, i, dbgconfig, converged)
    {
      RoundStep(settings, order, i, dbgconfig);
      var expanding := order[i];
      var expanded := ExpandText(dbgconfig[expanding], dbgconfig, Some(expanding));
      if expanded.Err? {
        return Err(expanded.failure), converged;
      }
      FlagStep(settings, order, i, dbgconfig, converged, expanded.value);
      if TextRefs(dbgconfig[expanding]) != {} { converged := false; }
      dbgconfig := dbgconfig[expanding := expanded.value];
    }
    RoundEnds(settings, order, dbgconfig, converged);
    r := Ok(dbgconfig);
  }

  /** What bounds the number of rounds: the ranks when there is no cycle, else a cycle's length. */
  ghost predicate Progress(defs: Tokens, acyclic: bool, rank: map<string, nat>, cycle: seq<string>, bound: nat)
  {
    if acyclic then Ranked(defs, rank) && forall k :: k in rank ==> rank[k] <= bound
    else IsCycle(defs, cycle) && |cycle| <= bound
  }

  lemma StartProgress(defs: Tokens) returns (rank: map<string, nat>, cycle: seq<string>, bound: nat)
    ensures Progress(defs, Acyclic(defs), rank, cycle, bound)
  {
    rank, cycle := map[], [];
    if Acyclic(defs) {
      rank := AcyclicIsRanked(defs);
      bound := MaxRank(rank);
    } else {
      cycle :| IsCycle(defs, cycle);
      bound := |cycle|;
    }
  }

  lemma {:induction false} MaxRank(rank: map<string, nat>) returns (m: nat)
    ensures forall k :: k in rank ==> rank[k] <= m
    decreases |rank|
  {
    m := 0;
    if rank != map[] {
      var k :| k in rank;
      var rest := rank - {k};
      assert rest.Keys == rank.Keys - {k};
      m := MaxRank(rest);
      assert forall j :: j in rank && j != k ==> j in rest && rest[j] == rank[j];
      if m < rank[k] { m := rank[k]; }
    }
  }

  /** A round that succeeds without converging brings the bound down. */
  lemma RoundProgress(defs: Tokens, order: seq<string>, acyclic: bool, rank: map<string, nat>, cycle: seq<string>,
                      bound: nat)
      returns (rank': map<string, nat>, cycle': seq<string>)
    requires IsKeyOrder(order, defs.Keys) && Pass(defs, order).Ok?
    requires Progress(defs, acyclic, rank, cycle, bound)
    requires exists p, k :: RefersTo(defs, p, k)
    ensures bound > 0 && Progress(Pass(defs, order).value, acyclic, rank', cycle', bound - 1)
  {
    rank', cycle' := rank, cycle;
    if acyclic {
      var p, k :| RefersTo(defs, p, k);
      assert 0 < rank[p] <= bound;
      rank' := PassLowersRank(defs, rank, order);
    } else {
      forall k | k in cycle
        ensures k in order
      {
        var i :| 0 <= i < |cycle| && cycle[i] == k;
        assert i < |cycle| - 1 ==> Edge(defs, cycle[i], cycle[i + 1]);
      }
      cycle' := PassShortensCycle(defs, cycle, order);
    }
  }

  /** Whatever solves the later settings solves the earlier ones, and they mention no new key. */
  ghost predicate Descends(later: Tokens, earlier: Tokens)
  {
    (forall fin :: Solves(later, fin) ==> Solves(earlier, fin)) &&
    (forall p, k :: RefersTo(later, p, k) ==> exists q :: RefersTo(earlier, q, k))
  }

  lemma PassDescends(defs: Tokens, earlier: Tokens, order: seq<string>)
    requires forall k :: k in order ==> k in defs
    requires Pass(defs, order).Ok? && Descends(defs, earlier)
    ensures Descends(Pass(defs, order).value, earlier)
  {
    PassRefs(defs, order);
    forall fin | Solves(Pass(defs, order).value, fin)
      ensures Solves(earlier, fin)
    {
      PassMeaning(defs, order, fin);
    }
  }

  lemma RoundFails(defs: Tokens, earlier: Tokens, order: seq<string>, acyclic: bool, rank: map<string, nat>,
                   cycle: seq<string>, bound: nat)
    requires forall k :: k in order ==> k in defs
    requires Pass(defs, order).Err? && Descends(defs, earlier)
    requires Progress(defs, acyclic, rank, cycle, bound)
    ensures var e := Pass(defs, order).failure;
      && (exists p :: RefersTo(earlier, p, e.key))
      && (e.Undefined? ==> e.key !in defs)
      && (e.Circular? ==> !acyclic)
  {
    PassFailure(defs, order);
    if acyclic { RankedIsAcyclic(defs, rank); }
  }

  lemma RoundConverges(cfg: Config, earlier: Tokens, order: seq<string>, acyclic: bool, rank: map<string, nat>,
                       cycle: seq<string>, bound: nat)
    requires IsKeyOrder(order, cfg.Keys) && RefFree(cfg, order)
    requires Descends(TokensOf(cfg), earlier) && Progress(TokensOf(cfg), acyclic, rank, cycle, bound)
    ensures acyclic && Solves(earlier, cfg) && Closed(earlier)
  {
    RefFreeSolvesItself(cfg);
    SolvedIsClosed(earlier, cfg);
  }

  /** What holds at the start of every round. */
  ghost predicate LoopInv(settings: Config, order: seq<string>, n: nat, dbgconfig: Config, acyclic: bool,
                          rank: map<string, nat>, cycle: seq<string>, bound: nat)
    requires forall k :: k in order ==> k in settings
  {
    && Rounds(settings, order, n) == Ok(dbgconfig)
    && Progress(TokensOf(dbgconfig), acyclic, rank, cycle, bound)
    && Descends(TokensOf(dbgconfig), TokensOf(settings))
  }

  /** What the settings mean, if anything, and what is wrong with them otherwise. */
  ghost predicate Expansion(settings: Config, r: Result<Config>)
  {
    var defs := TokensOf(settings);
    match r
    case Ok(fin) => Closed(defs) && Acyclic(defs) && Solves(defs, fin) && forall k :: k in fin ==> TextRefs(fin[k]) == {}
    case Err(Circular(_)) => !Acyclic(defs)
    case Err(Undefined(k)) => k !in settings && exists p :: RefersTo(defs, p, k)
  }

  lemma LoopFails(settings: Config, order: seq<string>, n: nat, dbgconfig: Config, acyclic: bool,
                  rank: map<string, nat>, cycle: seq<string>, bound: nat, e: Failure)
    requires IsKeyOrder(order, settings.Keys) && CleanRun(settings, order) && acyclic == Acyclic(TokensOf(settings))
    requires LoopInv(settings, order, n, dbgconfig, acyclic, rank, cycle, bound) && TextPass(dbgconfig, order) == Err(e)
    ensures Expansion(settings, Err(e))
  {
    PassText(dbgconfig, order);
    RoundFails(TokensOf(dbgconfig), TokensOf(settings), order, acyclic, rank, cycle, bound);
  }

  lemma LoopConverges(settings: Config, order: seq<string>, n: nat, dbgconfig: Config, acyclic: bool,
                      rank: map<string, nat>, cycle: seq<string>, bound: nat)
    requires IsKeyOrder(order, settings.Keys) && acyclic == Acyclic(TokensOf(settings))
    requires LoopInv(settings, order, n, dbgconfig, acyclic, rank, cycle, bound) && RefFree(dbgconfig, order)
    ensures Expansion(settings, Ok(dbgconfig))
  {
    RoundConverges(dbgconfig, TokensOf(settings), order, acyclic, rank, cycle, bound);
  }

  lemma LoopContinues(settings: Config, order: seq<string>, n: nat, dbgconfig: Config, acyclic: bool,
                      rank: map<string, nat>, cycle: seq<string>, bound: nat, next: Config)
      returns (rank': map<string, nat>, cycle': seq<string>)
    requires IsKeyOrder(order, settings.Keys) && CleanRun(settings, order) && HasRef(dbgconfig)
    requires LoopInv(settings, order, n, dbgconfig, acyclic, rank, cycle, bound) && TextPass(dbgconfig, order) == Ok(next)
    ensures bound > 0 && LoopInv(settings, order, n + 1, next, acyclic, rank', cycle', bound - 1)
  {
    PassText(dbgconfig, order);
    PassDescends(TokensOf(dbgconfig), TokensOf(settings), order);
    rank', cycle' := RoundProgress(TokensOf(dbgconfig), order, acyclic, rank, cycle, bound);
  }

  /** An error excludes a solution. */
  lemma ExpansionDecides(settings: Config, r: Result<Config>)
    requires Expansion(settings, r)
    ensures r.Ok? <==> Closed(TokensOf(settings)) && Acyclic(TokensOf(settings))
  {
  }

  /** The do-while, for any order of the keys: it stops, it succeeds exactly when every reference
      is defined and none is circular, and then it has computed the unique meaning of the settings. */
  method ExpandSettings(settings: Config, order: seq<string>) returns (r: Result<Config>)
    requires IsKeyOrder(order, settings.Keys) && CleanRun(settings, order)
    ensures r.Ok? <==> Closed(TokensOf(settings)) && Acyclic(TokensOf(settings))
    ensures Expansion(settings, r)
  {
    ghost var acyclic := Acyclic(TokensOf(settings));
    ghost var rank, cycle, bound := StartProgress(TokensOf(settings));
    var dbgconfig := settings;
    ghost var n: nat := 0;
    while true
      invariant dbgconfig.Keys == settings.Keys
      invariant LoopInv(settings, order, n, dbgconfig, acyclic, rank, cycle, bound)
      decreases bound
    {
      var round, converged := ExpandRound(dbgconfig, order);
      if round.Err? {
        LoopFails(settings, order, n, dbgconfig, acyclic, rank, cycle, bound, round.failure);
        r := Err(round.failure);
        ExpansionDecides(settings, r);
        return;
      }
      if converged {
        LoopConverges(settings, order, n, dbgconfig, acyclic, rank, cycle, bound);
        r := Ok(dbgconfig);
        ExpansionDecides(settings, r);
        return;
      }
      rank, cycle := LoopContinues(settings, order, n, dbgconfig, acyclic, rank, cycle, bound, round.value);
      bound, n := bound - 1, n + 1;
      dbgconfig := round.value;
    }
  }

  lemma SolvedIsClosed(defs: Tokens, fin: Config)
    requires Solves(defs, fin)
    ensures Closed(defs)
  {
    forall p, k | RefersTo(defs, p, k)
      ensures k in defs
    {
      ExpandDefined(defs[p], fin, None);
    }
  }
}
