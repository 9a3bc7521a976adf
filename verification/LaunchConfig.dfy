/** Expansion of whole launch configurations: `expandVariables` on nested values
    (extension/novsc/expand.ts) and the final step of `expandDbgConfig`. */
module LaunchConfig {
  import opened Options
  import opened VariableSyntax
  import opened ReferenceGraph
  import opened DbgConfig

  /** A JSON-like value. An object keeps its property names beside their values. */
  datatype Value =
    | Text(text: string)
    | Scalar(repr: string)
    | List(items: seq<Value>)
    | Object(names: seq<string>, values: seq<Value>)

  function ExpandValue(v: Value, cfg: Config): Result<Value>
    decreases v
  {
    match v
    case Text(s) =>
      (match ExpandText(s, cfg, None)
       case Ok(t) => Ok(Text(t))
       case Err(e) => Err(e))
    case Scalar(_) => Ok(v)
    case List(items) =>
      (match ExpandItems(items, cfg)
       case Ok(r) => Ok(List(r))
       case Err(e) => Err(e))
    case Object(names, values) =>
      (match ExpandItems(values, cfg)
       case Ok(r) => Ok(Object(names, r))
       case Err(e) => Err(e))
  }

  function ExpandItems(items: seq<Value>, cfg: Config): Result<seq<Value>>
    decreases items
  {
    if items == [] then Ok([])
    else
      match ExpandValue(items[0], cfg)
      case Err(e) => Err(e)
      case Ok(v) =>
        match ExpandItems(items[1..], cfg)
        case Err(e) => Err(e)
        case Ok(rest) => Ok([v] + rest)
  }

  /** What expansion does to a value: the texts in it are expanded, and nothing else changes. */
  predicate ExpandedTo(v: Value, w: Value, cfg: Config)
    decreases v
  {
    match (v, w)
    case (Text(s), Text(t)) => ExpandText(s, cfg, None) == Ok(t)
    case (Scalar(a), Scalar(b)) => a == b
    case (List(xs), List(ys)) => |xs| == |ys| && forall i :: 0 <= i < |xs| ==> ExpandedTo(xs[i], ys[i], cfg)
    case (Object(names, xs), Object(same, ys)) =>
      names == same && |xs| == |ys| && forall i :: 0 <= i < |xs| ==> ExpandedTo(xs[i], ys[i], cfg)
    case (_, _) => false
  }

  lemma {:induction false} ValueExpanded(v: Value, cfg: Config)
    requires ExpandValue(v, cfg).Ok?
    ensures ExpandedTo(v, ExpandValue(v, cfg).value, cfg)
    ensures ValueRefs(v) == {} ==> ExpandValue(v, cfg).value == v
    decreases v
  {
    match v
    case Text(s) => if TextRefs(s) == {} { PlainExpands(s, cfg); }
    case Scalar(_) =>
    case List(items) => ItemsExpanded(items, cfg);
    case Object(_, values) => ItemsExpanded(values, cfg);
  }

  lemma {:induction false} ItemsExpanded(items: seq<Value>, cfg: Config)
    requires ExpandItems(items, cfg).Ok?
    ensures var rs := ExpandItems(items, cfg).value;
      |rs| == |items| && forall i :: 0 <= i < |items| ==> ExpandedTo(items[i], rs[i], cfg)
    ensures ItemRefs(items) == {} ==> ExpandItems(items, cfg).value == items
    decreases items
  {
    if items != [] {
      ValueExpanded(items[0], cfg);
      ItemsExpanded(items[1..], cfg);
      var rest := ExpandItems(items[1..], cfg).value;
      forall i | 0 <= i < |items|
        ensures ExpandedTo(items[i], ExpandItems(items, cfg).value[i], cfg)
      {
        if i > 0 { assert items[i] == items[1..][i - 1] && ExpandItems(items, cfg).value[i] == rest[i - 1]; }
      }
    }
  }

  lemma PlainExpands(s: string, cfg: Config)
    requires TextRefs(s) == {}
    ensures ExpandText(s, cfg, None) == Ok(s)
  {
    RenderRefPieces(s);
    NoRefsExpandsToItself(Tokenize(s), cfg, None);
    RenderTokenize(s);
  }

  function ValueRefs(v: Value): set<string>
    decreases v
  {
    match v
    case Text(s) => TextRefs(s)
    case Scalar(_) => {}
    case List(items) => ItemRefs(items)
    case Object(_, values) => ItemRefs(values)
  }

  function ItemRefs(items: seq<Value>): set<string>
    decreases items
  {
    if items == [] then {} else ValueRefs(items[0]) + ItemRefs(items[1..])
  }

  predicate StableValue(g: Guard, v: Value)
    decreases v
  {
    match v
    case Text(s) => Stable(g, Tokenize(s))
    case Scalar(_) => true
    case List(items) => StableItems(g, items)
    case Object(_, values) => StableItems(g, values)
  }

  predicate StableItems(g: Guard, items: seq<Value>)
    decreases items
  {
    items != [] ==> StableValue(g, items[0]) && StableItems(g, items[1..])
  }

  /** Expanding the value against the settings neither forms nor destroys a reference. */
  predicate CleanValue(v: Value, cfg: Config)
    decreases v
  {
    match v
    case Text(s) => CleanText(s, cfg, None)
    case Scalar(_) => true
    case List(items) => CleanItems(items, cfg)
    case Object(_, values) => CleanItems(values, cfg)
  }

  predicate CleanItems(items: seq<Value>, cfg: Config)
    decreases items
  {
    items != [] ==> CleanValue(items[0], cfg) && CleanItems(items[1..], cfg)
  }

  lemma {:induction false} StableValueIsClean(g: Guard, v: Value, cfg: Config)
    requires StableValue(g, v) && StableConfig(g, cfg)
    ensures CleanValue(v, cfg)
    decreases v
  {
    match v
    case Text(s) => StableText(g, s, cfg, None);
    case Scalar(_) =>
    case List(items) => StableItemsAreClean(g, items, cfg);
    case Object(_, values) => StableItemsAreClean(g, values, cfg);
  }

  lemma {:induction false} StableItemsAreClean(g: Guard, items: seq<Value>, cfg: Config)
    requires StableItems(g, items) && StableConfig(g, cfg)
    ensures CleanItems(items, cfg)
    decreases items
  {
    if items != [] {
      StableValueIsClean(g, items[0], cfg);
      StableItemsAreClean(g, items[1..], cfg);
    }
  }

  // ----- the final pass -----

  /** Expansion fails exactly when some text refers to a key that is not there. */
  lemma {:induction false} ValueDefined(v: Value, cfg: Config)
    ensures ExpandValue(v, cfg).Ok? <==> ValueRefs(v) <= cfg.Keys
    ensures ExpandValue(v, cfg).Err? ==>
      var e := ExpandValue(v, cfg).failure; e.Undefined? && e.key in ValueRefs(v) && e.key !in cfg
    decreases v
  {
    match v
    case Text(s) =>
      RenderRefPieces(s);
      ExpandDefined(Tokenize(s), cfg, None);
    case Scalar(_) =>
    case List(items) => ItemsDefined(items, cfg);
    case Object(_, values) => ItemsDefined(values, cfg);
  }

  lemma {:induction false} ItemsDefined(items: seq<Value>, cfg: Config)
    ensures ExpandItems(items, cfg).Ok? <==> ItemRefs(items) <= cfg.Keys
    ensures ExpandItems(items, cfg).Err? ==>
      var e := ExpandItems(items, cfg).failure; e.Undefined? && e.key in ItemRefs(items) && e.key !in cfg
    decreases items
  {
    if items != [] {
      ValueDefined(items[0], cfg);
      ItemsDefined(items[1..], cfg);
    }
  }

  lemma TextRefFree(s: string, cfg: Config)
    requires CleanText(s, cfg, None) && ExpandText(s, cfg, None).Ok?
    requires forall k :: k in cfg ==> TextRefs(cfg[k]) == {}
    ensures TextRefs(ExpandText(s, cfg, None).value) == {}
  {
    var ps, tc := RefPieces(s), TokensOf(cfg);
    ExpandFlat(Tokenize(s), cfg, None);
    ExpandIsSplice(ps, cfg, None);
    SpliceRefs(ps, tc, None);
  }

  /** One pass over the launch configuration is enough: no reference is left in it. */
  lemma {:induction false} ValueRefFree(v: Value, cfg: Config)
    requires CleanValue(v, cfg) && ExpandValue(v, cfg).Ok?
    requires forall k :: k in cfg ==> TextRefs(cfg[k]) == {}
    ensures ValueRefs(ExpandValue(v, cfg).value) == {}
    decreases v
  {
    match v
    case Text(s) => TextRefFree(s, cfg);
    case Scalar(_) =>
    case List(items) => ItemsRefFree(items, cfg);
    case Object(_, values) => ItemsRefFree(values, cfg);
  }

  lemma {:induction false} ItemsRefFree(items: seq<Value>, cfg: Config)
    requires CleanItems(items, cfg) && ExpandItems(items, cfg).Ok?
    requires forall k :: k in cfg ==> TextRefs(cfg[k]) == {}
    ensures ItemRefs(ExpandItems(items, cfg).value) == {}
    decreases items
  {
    if items != [] {
      ValueRefFree(items[0], cfg);
      ItemsRefFree(items[1..], cfg);
      assert ExpandItems(items, cfg).value[1..] == ExpandItems(items[1..], cfg).value;
    }
  }

  // ----- expandVariables as it is written -----

  lemma {:induction false} ExpandItemsSnoc(items: seq<Value>, last: Value, cfg: Config)
    requires ExpandItems(items, cfg).Ok?
    ensures ExpandItems(items + [last], cfg) ==
      match ExpandValue(last, cfg)
      case Ok(v) => Ok(ExpandItems(items, cfg).value + [v])
      case Err(e) => Err(e)
  {
    if items == [] {
      assert items + [last] == [last];
      assert [last][1..] == [];
      if ExpandValue(last, cfg).Ok? {
        var v := ExpandValue(last, cfg).value;
        assert [v] + [] == [] + [v];
      }
    } else {
      ExpandItemsSnoc(items[1..], last, cfg);
      assert (items + [last])[1..] == items[1..] + [last];
      var first, rest := ExpandValue(items[0], cfg), ExpandItems(items[1..], cfg);
      if first.Ok? && rest.Ok? && ExpandValue(last, cfg).Ok? {
        var w := ExpandValue(last, cfg).value;
        assert [first.value] + (rest.value + [w]) == ([first.value] + rest.value) + [w];
      }
    }
  }

  lemma {:induction false} ExpandItemsFails(items: seq<Value>, i: nat, cfg: Config)
    requires i < |items| && ExpandItems(items[..i], cfg).Ok? && ExpandValue(items[i], cfg).Err?
    ensures ExpandItems(items, cfg) == Err(ExpandValue(items[i], cfg).failure)
  {
    if i > 0 {
      assert items[..i][1..] == items[1..][..i - 1] && items[..i][0] == items[0];
      ExpandItemsFails(items[1..], i - 1, cfg);
    }
  }

  /** The object case fills its result property by property; lists are mapped. */
  method ExpandVariables(obj: Value, cfg: Config) returns (r: Result<Value>)
    ensures r == ExpandValue(obj, cfg)
    ensures r.Ok? ==> ExpandedTo(obj, r.value, cfg)
    ensures ValueRefs(obj) == {} ==> r == Ok(obj)
    decreases obj, 1
  {
    ValueDefined(obj, cfg);
    if ExpandValue(obj, cfg).Ok? { ValueExpanded(obj, cfg); }
    match obj
    case Text(s) =>
      var t := ExpandText(s, cfg, None);
      r := if t.Ok? then Ok(Text(t.value)) else Err(t.failure);
    case Scalar(_) =>
      r := Ok(obj);
    case List(items) =>
      var vs := ExpandEach(items, cfg);
      r := if vs.Ok? then Ok(List(vs.value)) else Err(vs.failure);
    case Object(names, values) =>
      var vs := ExpandEach(values, cfg);
      r := if vs.Ok? then Ok(Object(names, vs.value)) else Err(vs.failure);
  }

  method ExpandEach(items: seq<Value>, cfg: Config) returns (r: Result<seq<Value>>)
    ensures r == ExpandItems(items, cfg)
    decreases items, 0
  {
    var result := [];
    for i := 0 to |items|
      invariant ExpandItems(items[..i], cfg) == Ok(result)
    {
      var v := ExpandVariables(items[i], cfg);
      if v.Err? {
        ExpandItemsFails(items, i, cfg);
        return Err(v.failure);
      }
      ExpandItemsSnoc(items[..i], items[i], cfg);
      assert items[..i + 1] == items[..i] + [items[i]];
      result := result + [v.value];
    }
    assert items[..|items|] == items;
    r := Ok(result);
  }

  /** The whole of `expandDbgConfig`, for any order in which the keys are enumerated. */
  method ExpandDbgConfig(launch: Value, settings: Config, order: seq<string>) returns (r: Result<Value>)
    requires IsKeyOrder(order, settings.Keys) && CleanRun(settings, order)
    ensures r.Ok? <==>
      Closed(TokensOf(settings)) && Acyclic(TokensOf(settings)) && ValueRefs(launch) <= settings.Keys
    ensures r.Ok? ==> exists fin :: Solves(TokensOf(settings), fin)
    ensures r.Ok? ==> forall fin :: Solves(TokensOf(settings), fin) ==>
      && r == ExpandValue(launch, fin) && ExpandedTo(launch, r.value, fin)
      && (CleanValue(launch, fin) ==> ValueRefs(r.value) == {})
    ensures r.Ok? && ValueRefs(launch) == {} ==> r.value == launch
    ensures r.Err? && r.failure.Circular? ==> !Acyclic(TokensOf(settings))
    ensures r.Err? && r.failure.Undefined? ==> r.failure.key !in settings
  {
    var dbgconfig := ExpandSettings(settings, order);
    if dbgconfig.Err? {
      return Err(dbgconfig.failure);
    }
    r := ExpandVariables(launch, dbgconfig.value);
    ValueDefined(launch, dbgconfig.value);
    if r.Ok? {
      forall fin | Solves(TokensOf(settings), fin)
        ensures fin == dbgconfig.value
      {
        SolutionUnique(TokensOf(settings), fin, dbgconfig.value);
      }
      if CleanValue(launch, dbgconfig.value) {
        ValueRefFree(launch, dbgconfig.value);
      }
    }
  }
}
