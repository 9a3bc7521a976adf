/** Names under which variables can be evaluated again (src/codelldb/src/debug_session/variables.rs). */
module EvalNames {
  import opened Options
  import opened Handles

  /** What a variables handle refers to. Registers are grouped in values of their own kind. */
  datatype Container = Scope | Variable(registerSet: bool)

  predicate Named(c: Container) { c.Variable? && !c.registerSet }

  /** `compose_eval_name` */
  function Compose(prefix: string, suffix: string): string
  {
    if prefix == "" then suffix
    else if suffix == "" then prefix
    else if suffix[0] == '[' then prefix + suffix
    else prefix + "." + suffix
  }

  /** A suffix with the separator that goes before it. */
  function Tail(suffix: string): string
    requires suffix != ""
  {
    (if suffix[0] == '[' then "" else ".") + suffix
  }

  lemma ComposeAssociative(a: string, b: string, c: string)
    ensures Compose(Compose(a, b), c) == Compose(a, Compose(b, c))
  {
    if a != "" && b != "" && c != "" {
      assert (a + Tail(b)) + Tail(c) == a + (Tail(b) + Tail(c));
    }
  }

  /** The parts of a name: members are separated by a dot, indices follow directly, and a missing part
      leaves the other alone. */
  lemma ComposeParts(prefix: string, first: char, rest: string)
    requires prefix != ""
    ensures Compose(prefix, [first] + rest) == if first == '[' then prefix + [first] + rest else prefix + "." + [first] + rest
    ensures Compose(prefix, "") == prefix && Compose("", [first] + rest) == [first] + rest
  {
    assert prefix + ([first] + rest) == prefix + [first] + rest;
    assert prefix + "." + ([first] + rest) == prefix + "." + [first] + rest;
  }

  /** The name of the object with a handle, read from the top: the name of its container followed
      by its own key. Scopes and register sets have no name. */
  ghost function NameOf(t: Tree<Container>, handle: Option<Handle>): string
    requires Inv(t) && Live(t, handle)
    decreases if handle.Some? then Rank(t, handle.value) else 0, if handle.Some? then 1 else 0
  {
    if handle.None? || !Named(t.objects[handle.value].value) then ""
    else
      var o := t.objects[handle.value];
      if o.place.parent.Some? then RankFalls(t, handle.value); Compose(NameOf(t, o.place.parent), o.place.key)
      else Compose("", o.place.key)
  }

  /** Handles can be any integers; what bounds a walk upwards is the number of smaller live ones. */
  ghost function Rank(t: Tree<Container>, h: Handle): nat
  {
    |set x | x in t.objects && x <= h|
  }

  lemma RankFalls(t: Tree<Container>, h: Handle)
    requires Inv(t) && h in t.objects && t.objects[h].place.parent.Some?
    ensures Rank(t, t.objects[h].place.parent.value) < Rank(t, h)
  {
    var p := t.objects[h].place.parent.value;
    var a, b := set x | x in t.objects && x <= p, set x | x in t.objects && x <= h;
    assert a <= b && h in b && h !in a;
    assert a < b;
    SmallerSet(a, b);
  }

  lemma SmallerSet<T>(a: set<T>, b: set<T>)
    requires a < b
    ensures |a| < |b|
  {
    assert b == a + (b - a);
  }

  /** `compose_container_eval_name`: walks up from a live handle, so that the keys are met in the
      opposite order; every handle on the way is live. */
  method ComposeContainerEvalName(tree: HandleTree<Container>, handle: Handle) returns (evalName: string)
    requires Inv(tree.Abstract()) && handle in tree.Abstract().objects
    ensures evalName == NameOf(tree.Abstract(), Some(handle))
  {
    evalName := "";
    var containerHandle := Some(handle);
    while containerHandle.Some?
      invariant Live(tree.Abstract(), containerHandle)
      invariant NameOf(tree.Abstract(), Some(handle)) == Compose(NameOf(tree.Abstract(), containerHandle), evalName)
      decreases if containerHandle.Some? then Rank(tree.Abstract(), containerHandle.value) + 1 else 0
    {
      var info := tree.GetFullInfo(containerHandle.value);
      var o := info.value;
      if !Named(o.value) {
        break;
      }
      ghost var above := NameOf(tree.Abstract(), o.place.parent);
      ComposeAssociative(above, o.place.key, evalName);
      if o.place.parent.Some? { RankFalls(tree.Abstract(), containerHandle.value); }
      evalName := Compose(o.place.key, evalName);
      containerHandle := o.place.parent;
    }
  }

  /** Creating an object does not change the names of the others. */
  lemma {:induction false} NameKept(t: Tree<Container>, place: Place, value: Container, h: Handle)
    requires Inv(t) && Live(t, place.parent) && h in t.objects
    ensures Inv(Create(t, place, value))
    ensures NameOf(Create(t, place, value), Some(h)) == NameOf(t, Some(h))
    decreases Rank(t, h)
  {
    CreateKeepsInv(t, place, value);
    if Named(t.objects[h].value) && t.objects[h].place.parent.Some? {
      RankFalls(t, h);
      NameKept(t, place, value, t.objects[h].place.parent.value);
    }
  }

  /** The name shown for a variable in a container, and the name recomputed later by walking up from
      the child's own handle, are the same. */
  lemma ChildName(t: Tree<Container>, container: Handle, name: string, value: Container)
    requires Inv(t) && container in t.objects
    ensures var place := Place(Some(container), name);
      && Inv(Create(t, place, value))
      && HandleFor(t, place) in Create(t, place, value).objects
      && NameOf(Create(t, place, value), Some(HandleFor(t, place))) ==
           (if value == Variable(false) then Compose(NameOf(t, Some(container)), name) else "")
  {
    var place := Place(Some(container), name);
    CreateKeepsInv(t, place, value);
    NameKept(t, place, value, container);
    RankFalls(Create(t, place, value), HandleFor(t, place));
  }

  /** Without a container a variable goes by its own name. */
  lemma RootName(t: Tree<Container>, name: string, value: Container)
    requires Inv(t)
    ensures var place := Place(None, name);
      && Inv(Create(t, place, value))
      && HandleFor(t, place) in Create(t, place, value).objects
      && NameOf(Create(t, place, value), Some(HandleFor(t, place))) == (if value == Variable(false) then name else "")
  {
    CreateKeepsInv(t, Place(None, name), value);
  }
}
