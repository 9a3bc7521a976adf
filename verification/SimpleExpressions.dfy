/** Translation of Simple Expressions to Python (src/codelldb/src/expressions/simple_expressions.rs):
    the text emitted for an operator tree, as Python tokens, and what Python makes of it. */
module SimpleExpressions {
  import opened PythonGrammar

  datatype Expr =
    | Constant(text: string)               // numbers, booleans, string literals
    | Native(name: string)                 // __eval('name')
    | Cast(typeName: string, operand: Expr)
    | Paren(inner: Expr)
    | Not(operand: Expr)
    | Signed(sign: Sign, operand: Expr)
    | Deref(operand: Expr)
    | AddressOf(operand: Expr)
    | Bin(op: BinOp, left: Expr, right: Expr)
    | Field(base: Expr, field: string)     // base.field
    | Arrow(base: Expr, field: string)     // base->field
    | Index(base: Expr, index: Expr)

  function SignToken(s: Sign): Token
  {
    match s
    case Minus => Operator(Sub)
    case Plus => Operator(Add)
    case Invert => Tilde
  }

  function Method(name: string): seq<Token> { [Name("Value"), Dot, Name(name), LParen] }

  function GetAttr(field: string): seq<Token> { [Dot, Name("__getattr__"), LParen, Str(field), RParen] }

  /** The emitted Python expression. Only a sign is written without parentheses of its own. */
  function Emit(e: Expr): seq<Token>
  {
    match e
    case Constant(s) => [Literal(s)]
    case Native(s) => [Name("__eval"), LParen, Str(s), RParen]
    case Cast(t, o) => Method("cast") + [Str(t), Comma] + Emit(o) + [RParen]
    case Paren(i) => [LParen] + Emit(i) + [RParen]
    case Not(o) => [LParen, NotOp] + Emit(o) + [RParen]
    case Signed(s, o) => [SignToken(s)] + Emit(o)
    case Deref(o) => Method("dereference") + Emit(o) + [RParen]
    case AddressOf(o) => Method("address_of") + Emit(o) + [RParen]
    case Bin(op, l, r) => [LParen] + Emit(l) + [Operator(op)] + Emit(r) + [RParen]
    case Field(b, f) => Emit(b) + GetAttr(f)
    case Arrow(b, f) => Method("dereference") + Emit(b) + [RParen] + GetAttr(f)
    case Index(b, i) => Emit(b) + [LBracket] + Emit(i) + [RBracket]
  }

  function Call(name: string, args: seq<Py>): Py { PCall(PAttr(PName("Value"), name), args) }

  function Attr(base: Py, field: string): Py { PCall(PAttr(base, "__getattr__"), [PStr(field)]) }

  function Operation(op: BinOp, l: Py, r: Py): Py
  {
    if Level(op) == 3 then PCompare(l, [op], [r]) else PBinary(op, l, r)
  }

  /** The structure that was written: what the emitted text is meant to be. */
  function Meaning(e: Expr): Py
  {
    match e
    case Constant(s) => PLiteral(s)
    case Native(s) => PCall(PName("__eval"), [PStr(s)])
    case Cast(t, o) => Call("cast", [PStr(t), Meaning(o)])
    case Paren(i) => Meaning(i)
    case Not(o) => PNot(Meaning(o))
    case Signed(s, o) => PUnary(s, Meaning(o))
    case Deref(o) => Call("dereference", [Meaning(o)])
    case AddressOf(o) => Call("address_of", [Meaning(o)])
    case Bin(op, l, r) => Operation(op, Meaning(l), Meaning(r))
    case Field(b, f) => Attr(Meaning(b), f)
    case Arrow(b, f) => Attr(Call("dereference", [Meaning(b)]), f)
    case Index(b, i) => PIndex(Meaning(b), Meaning(i))
  }

  /** Postfix operators bind tighter than prefix ones, so their operand never begins with a bare sign. */
  predicate Producible(e: Expr)
  {
    match e
    case Constant(_) => true
    case Native(_) => true
    case Cast(_, o) => Producible(o)
    case Paren(i) => Producible(i)
    case Not(o) => Producible(o)
    case Signed(_, o) => Producible(o)
    case Deref(o) => Producible(o)
    case AddressOf(o) => Producible(o)
    case Bin(_, l, r) => Producible(l) && Producible(r)
    case Field(b, _) => !b.Signed? && Producible(b)
    case Arrow(b, _) => !b.Signed? && Producible(b)
    case Index(b, i) => !b.Signed? && Producible(b) && Producible(i)
  }

  /** No power has a bare sign as its left operand. */
  predicate NoSignedBase(e: Expr)
  {
    match e
    case Constant(_) => true
    case Native(_) => true
    case Cast(_, o) => NoSignedBase(o)
    case Paren(i) => NoSignedBase(i)
    case Not(o) => NoSignedBase(o)
    case Signed(_, o) => NoSignedBase(o)
    case Deref(o) => NoSignedBase(o)
    case AddressOf(o) => NoSignedBase(o)
    case Bin(op, l, r) => !(op.Pow? && l.Signed?) && NoSignedBase(l) && NoSignedBase(r)
    case Field(b, _) => NoSignedBase(b)
    case Arrow(b, _) => NoSignedBase(b)
    case Index(b, i) => NoSignedBase(b) && NoSignedBase(i)
  }

  /** What Python reads: as meant, except that a sign before the left operand of a power is applied
      to the power. */
  function Reparsed(e: Expr): Py
    decreases e, 0
  {
    match e
    case Constant(s) => PLiteral(s)
    case Native(s) => PCall(PName("__eval"), [PStr(s)])
    case Cast(t, o) => Call("cast", [PStr(t), Reparsed(o)])
    case Paren(i) => Reparsed(i)
    case Not(o) => PNot(Reparsed(o))
    case Signed(s, o) => PUnary(s, Reparsed(o))
    case Deref(o) => Call("dereference", [Reparsed(o)])
    case AddressOf(o) => Call("address_of", [Reparsed(o)])
    case Bin(op, l, r) => if op.Pow? then PowerOf(l, Reparsed(r)) else Operation(op, Reparsed(l), Reparsed(r))
    case Field(b, f) => Attr(Reparsed(b), f)
    case Arrow(b, f) => Attr(Call("dereference", [Reparsed(b)]), f)
    case Index(b, i) => PIndex(Reparsed(b), Reparsed(i))
  }

  function PowerOf(base: Expr, exponent: Py): Py
    decreases base, 1
  {
    if base.Signed? then PUnary(base.sign, PowerOf(base.operand, exponent))
    else PBinary(Pow, Reparsed(base), exponent)
  }

  function Size(e: Expr): nat
  {
    match e
    case Constant(_) => 1
    case Native(_) => 1
    case Cast(_, o) => 1 + Size(o)
    case Paren(i) => 1 + Size(i)
    case Not(o) => 1 + Size(o)
    case Signed(_, o) => 1 + Size(o)
    case Deref(o) => 1 + Size(o)
    case AddressOf(o) => 1 + Size(o)
    case Bin(_, l, r) => 1 + Size(l) + Size(r)
    case Field(b, _) => 1 + Size(b)
    case Arrow(b, _) => 1 + Size(b)
    case Index(b, i) => 1 + Size(b) + Size(i)
  }

  // ----- ends of expressions -----

  /** Nothing that could continue an expression follows. */
  predicate Closed(k: seq<Token>)
  {
    k == [] || k[0].RParen? || k[0].RBracket? || k[0].Comma?
  }

  /** Nothing that could continue a primary or make it a base of a power follows. */
  predicate UnaryEnds(k: seq<Token>)
  {
    k == [] || !(k[0].Dot? || k[0].LParen? || k[0].LBracket? || k[0] == Operator(Pow))
  }

  lemma {:induction false} EmitStart(e: Expr)
    requires Producible(e)
    ensures Emit(e) != [] && !Emit(e)[0].NotOp?
    ensures !e.Signed? ==> SignOf(Emit(e)[0]).None?
  {
    match e
    case Field(b, _) => EmitStart(b);
    case Index(b, _) => EmitStart(b);
    case _ =>
  }

  /** What the levels above the signs make of an operand that is followed by nothing they know. */
  lemma {:induction false} ThroughLevels(k: nat, ts: seq<Token>, e: Py, rest: seq<Token>)
    requires k <= 10 && ts != [] && !ts[0].NotOp? && ParseUnary(ts) == Got(e, rest)
    requires forall j :: k <= j < 10 ==> !StartsWithOp(rest, j)
    ensures ParseLevel(k, ts) == Got(e, rest)
    decreases 10 - k
  {
    if k < 10 { ThroughLevels(k + 1, ts, e, rest); }
  }

  /** The same, when an operator of level `k` and a second operand follow. */
  lemma OneOperator(op: BinOp, ts: seq<Token>, l: Py, rest: seq<Token>, r: Py, k: seq<Token>)
    requires !op.Pow? && ts != [] && !ts[0].NotOp? && ParseUnary(ts) == Got(l, [Operator(op)] + rest)
    requires rest != [] && !rest[0].NotOp? && ParseUnary(rest) == Got(r, k) && Closed(k)
    ensures ParseLevel(Level(op), ts) == Got(Operation(op, l, r), k)
  {
    var n := Level(op);
    ThroughLevels(n + 1, ts, l, [Operator(op)] + rest);
    ThroughLevels(n + 1, rest, r, k);
    var tail := [Operator(op)] + rest;
    assert tail[1..] == rest;
    if n == 3 {
      assert ParseComparisons(l, [], [], tail) == ParseComparisons(l, [] + [op], [] + [r], k);
      assert [] + [op] == [op] && [] + [r] == [r];
    } else {
      assert ParseRest(n, l, tail) == ParseRest(n, PBinary(op, l, r), k);
    }
  }

  /** Levels below the one at which an expression was recognised add nothing to it. */
  lemma {:induction false} DownToZero(n: nat, ts: seq<Token>, e: Py, k: seq<Token>)
    requires n <= 10 && ts != [] && (n > 2 ==> !ts[0].NotOp?) && ParseLevel(n, ts) == Got(e, k) && Closed(k)
    ensures ParseLevel(0, ts) == Got(e, k)
  {
    if n > 0 {
      assert ParseLevel(n - 1, ts) == Got(e, k);
      DownToZero(n - 1, ts, e, k);
    }
  }

  lemma ClosedToZero(ts: seq<Token>, e: Py, k: seq<Token>)
    requires ts != [] && !ts[0].NotOp? && ParseUnary(ts) == Got(e, k) && Closed(k)
    ensures ParseLevel(0, ts) == Got(e, k)
  {
    ThroughLevels(0, ts, e, k);
  }

  // ----- calls -----

  function CallTrailer(fn: Py, ts: seq<Token>): Parsed
  {
    match ParseArgs(ts)
    case NoArgs => NoParse
    case GotArgs(args, rest) =>
      if rest != [] && rest[0].RParen? then ParseTrailers(PCall(fn, args), rest[1..]) else NoParse
  }

  lemma MethodPrimary(name: string, ts: seq<Token>)
    ensures ParsePrimary(Method(name) + ts) == CallTrailer(PAttr(PName("Value"), name), ts)
  {
    var all := Method(name) + ts;
    var a := [Dot, Name(name), LParen] + ts;
    var b := [LParen] + ts;
    assert all[0] == Name("Value") && all[1..] == a;
    assert a[0] == Dot && a[1] == Name(name) && a[2..] == b;
    assert b[0] == LParen && b[1..] == ts;
    assert ParsePrimary(all) == ParseTrailers(PName("Value"), a);
    assert ParseTrailers(PName("Value"), a) == ParseTrailers(PAttr(PName("Value"), name), b);
  }

  lemma StrArg(s: string, k: seq<Token>)
    requires Closed(k)
    ensures ParseLevel(0, [Str(s)] + k) == Got(PStr(s), k)
  {
    var ts := [Str(s)] + k;
    assert ts[1..] == k;
    assert ParseTrailers(PStr(s), k) == Got(PStr(s), k);
    assert ParsePrimary(ts) == Got(PStr(s), k);
    assert ParsePower(ts) == Got(PStr(s), k);
    ClosedToZero(ts, PStr(s), k);
  }

  lemma StrCall(fn: Py, s: string, k: seq<Token>)
    ensures CallTrailer(fn, [Str(s), RParen] + k) == ParseTrailers(PCall(fn, [PStr(s)]), k)
  {
    StrArg(s, [RParen] + k);
    assert [Str(s), RParen] + k == [Str(s)] + ([RParen] + k);
    assert ([RParen] + k)[1..] == k;
  }

  lemma GetAttrTrailer(base: Py, field: string, k: seq<Token>)
    ensures ParseTrailers(base, GetAttr(field) + k) == ParseTrailers(Attr(base, field), k)
  {
    var all := GetAttr(field) + k;
    var a := [LParen] + ([Str(field), RParen] + k);
    assert all[0] == Dot && all[1] == Name("__getattr__") && all[2..] == a;
    assert a[1..] == [Str(field), RParen] + k;
    StrCall(PAttr(base, "__getattr__"), field, k);
  }

  // ----- the emitted text is read back -----

  lemma {:induction false} EmitPrimary(e: Expr, k: seq<Token>)
    requires Producible(e) && !e.Signed?
    ensures ParsePrimary(Emit(e) + k) == ParseTrailers(Reparsed(e), k)
    decreases Size(e), 1
  {
    match e
    case Constant(s) => assert (Emit(e) + k)[1..] == k;
    case Native(s) => NativePrimary(s, k);
    case Cast(t, o) => CastPrimary(t, o, k);
    case Paren(i) => ParenCase(i, k);
    case Not(o) => NotPrimary(o, k);
    case Deref(o) => UnaryMethod("dereference", o, k);
    case AddressOf(o) => UnaryMethod("address_of", o, k);
    case Bin(op, l, r) => BinCase(op, l, r, k);
    case Field(b, f) => FieldCase(b, f, k);
    case Arrow(b, f) => ArrowCase(b, f, k);
    case Index(b, i) => IndexPrimary(b, i, k);
  }

  lemma ParenTokens(ts: seq<Token>, k: seq<Token>)
    ensures ([LParen] + ts + [RParen]) + k == [LParen] + (ts + ([RParen] + k))
  {
  }

  lemma {:induction false} ParenCase(i: Expr, k: seq<Token>)
    requires Producible(i)
    ensures ParsePrimary(Emit(Paren(i)) + k) == ParseTrailers(Reparsed(i), k)
    decreases Size(i), 5
  {
    EmitInner(i, [RParen] + k);
    ParenTokens(Emit(i), k);
  }

  lemma BinTokens(l: seq<Token>, op: Token, r: seq<Token>, k: seq<Token>)
    ensures ([LParen] + l + [op] + r + [RParen]) + k == [LParen] + ((l + ([op] + r)) + ([RParen] + k))
    ensures (l + ([op] + r)) + ([RParen] + k) == l + ([op] + (r + ([RParen] + k)))
  {
  }

  lemma {:induction false} BinCase(op: BinOp, l: Expr, r: Expr, k: seq<Token>)
    requires Producible(l) && Producible(r)
    ensures ParsePrimary(Emit(Bin(op, l, r)) + k) == ParseTrailers(Reparsed(Bin(op, l, r)), k)
    decreases Size(l) + Size(r), 7
  {
    var close := [RParen] + k;
    BinTokens(Emit(l), Operator(op), Emit(r), k);
    if op.Pow? {
      EmitPowerInside(l, r, close);
    } else {
      EmitOperation(op, l, r, close, Emit(r) + close, Emit(l) + ([Operator(op)] + (Emit(r) + close)));
    }
  }

  lemma {:induction false} FieldCase(b: Expr, f: string, k: seq<Token>)
    requires Producible(b) && !b.Signed?
    ensures ParsePrimary(Emit(Field(b, f)) + k) == ParseTrailers(Reparsed(Field(b, f)), k)
    decreases Size(b), 5
  {
    EmitPrimary(b, GetAttr(f) + k);
    assert Emit(Field(b, f)) + k == Emit(b) + (GetAttr(f) + k);
    GetAttrTrailer(Reparsed(b), f, k);
  }

  lemma {:induction false} ArrowCase(b: Expr, f: string, k: seq<Token>)
    requires Producible(b)
    ensures ParsePrimary(Emit(Arrow(b, f)) + k) == ParseTrailers(Reparsed(Arrow(b, f)), k)
    decreases Size(b), 6
  {
    var rest := GetAttr(f) + k;
    UnaryMethod("dereference", b, rest);
    assert Emit(Arrow(b, f)) + k == Method("dereference") + Emit(b) + [RParen] + rest;
    GetAttrTrailer(Call("dereference", [Reparsed(b)]), f, k);
  }

  lemma NativePrimary(s: string, k: seq<Token>)
    ensures ParsePrimary(Emit(Native(s)) + k) == ParseTrailers(Reparsed(Native(s)), k)
  {
    var all := Emit(Native(s)) + k;
    var a := [LParen] + ([Str(s), RParen] + k);
    assert all[0] == Name("__eval") && all[1..] == a;
    assert a[1..] == [Str(s), RParen] + k;
    StrCall(PName("__eval"), s, k);
  }

  lemma {:induction false} EmitInner(e: Expr, k: seq<Token>)
    requires Producible(e) && Closed(k)
    ensures ParseLevel(0, Emit(e) + k) == Got(Reparsed(e), k)
    decreases Size(e), 3
  {
    EmitStart(e);
    EmitUnary(e, k);
    ClosedToZero(Emit(e) + k, Reparsed(e), k);
  }

  lemma {:induction false} EmitUnary(e: Expr, k: seq<Token>)
    requires Producible(e) && UnaryEnds(k)
    ensures ParseUnary(Emit(e) + k) == Got(Reparsed(e), k)
    decreases Size(e), 2
  {
    EmitStart(e);
    if e.Signed? {
      EmitUnary(e.operand, k);
      assert Emit(e) + k == [SignToken(e.sign)] + (Emit(e.operand) + k);
    } else {
      EmitPrimary(e, k);
    }
  }

  lemma {:induction false} PowerFrom(l: Expr, right: seq<Token>, exponent: Py, k: seq<Token>)
    requires Producible(l) && ParseUnary(right) == Got(exponent, k)
    ensures ParseUnary(Emit(l) + ([Operator(Pow)] + right)) == Got(PowerOf(l, exponent), k)
    decreases Size(l), 4
  {
    var tail := [Operator(Pow)] + right;
    if l.Signed? {
      PowerFrom(l.operand, right, exponent, k);
      assert Emit(l) + tail == [SignToken(l.sign)] + (Emit(l.operand) + tail);
    } else {
      EmitPrimaryPower(l, right, exponent, k);
    }
  }

  lemma {:induction false} EmitPower(l: Expr, r: Expr, k: seq<Token>)
    requires Producible(l) && Producible(r) && UnaryEnds(k)
    ensures ParseUnary(Emit(l) + ([Operator(Pow)] + (Emit(r) + k))) == Got(PowerOf(l, Reparsed(r)), k)
    decreases Size(l) + Size(r), 4
  {
    EmitUnary(r, k);
    PowerFrom(l, Emit(r) + k, Reparsed(r), k);
  }

  lemma {:induction false} EmitPrimaryPower(l: Expr, right: seq<Token>, exponent: Py, k: seq<Token>)
    requires Producible(l) && !l.Signed? && ParseUnary(right) == Got(exponent, k)
    ensures ParseUnary(Emit(l) + ([Operator(Pow)] + right)) == Got(PowerOf(l, exponent), k)
    decreases Size(l), 3
  {
    var tail := [Operator(Pow)] + right;
    EmitStart(l);
    EmitPrimary(l, tail);
  }

  /** An operator between two operands, in parentheses. */
  lemma BothOperands(op: BinOp, ts: seq<Token>, l: Py, right: seq<Token>, r: Py, k: seq<Token>)
    requires !op.Pow? && ts != [] && !ts[0].NotOp? && ParseUnary(ts) == Got(l, [Operator(op)] + right)
    requires right != [] && !right[0].NotOp? && ParseUnary(right) == Got(r, k) && Closed(k)
    ensures ParseLevel(0, ts) == Got(Operation(op, l, r), k)
  {
    OneOperator(op, ts, l, right, r, k);
    DownToZero(Level(op), ts, Operation(op, l, r), k);
  }

  lemma {:induction false} RightOperand(op: BinOp, ts: seq<Token>, l: Py, r: Expr, k: seq<Token>, right: seq<Token>)
    requires Producible(r) && Closed(k) && !op.Pow? && right == Emit(r) + k
    requires ts != [] && !ts[0].NotOp? && ParseUnary(ts) == Got(l, [Operator(op)] + right)
    ensures ParseLevel(0, ts) == Got(Operation(op, l, Reparsed(r)), k)
    decreases Size(r), 4
  {
    EmitStart(r);
    EmitUnary(r, k);
    BothOperands(op, ts, l, right, Reparsed(r), k);
  }

  lemma {:induction false} EmitOperation(op: BinOp, l: Expr, r: Expr, k: seq<Token>, right: seq<Token>, ts: seq<Token>)
    requires Producible(l) && Producible(r) && Closed(k) && !op.Pow?
    requires right == Emit(r) + k && ts == Emit(l) + ([Operator(op)] + right)
    ensures ParseLevel(0, ts) == Got(Operation(op, Reparsed(l), Reparsed(r)), k)
    decreases Size(l) + Size(r), 5
  {
    EmitStart(l);
    EmitUnary(l, [Operator(op)] + right);
    RightOperand(op, ts, Reparsed(l), r, k, right);
  }

  lemma {:induction false} EmitPowerInside(l: Expr, r: Expr, k: seq<Token>)
    requires Producible(l) && Producible(r) && Closed(k)
    ensures ParseLevel(0, Emit(l) + ([Operator(Pow)] + (Emit(r) + k))) == Got(PowerOf(l, Reparsed(r)), k)
    decreases Size(l) + Size(r), 5
  {
    var tail := [Operator(Pow)] + (Emit(r) + k);
    EmitStart(l);
    EmitPower(l, r, k);
    ClosedToZero(Emit(l) + tail, PowerOf(l, Reparsed(r)), k);
  }

  lemma NotTokens(ts: seq<Token>, k: seq<Token>)
    ensures ([LParen, NotOp] + ts + [RParen]) + k == [LParen] + (([NotOp] + ts) + ([RParen] + k))
    ensures ([NotOp] + ts) + ([RParen] + k) == [NotOp] + (ts + ([RParen] + k))
  {
  }

  lemma NotLevel(ts: seq<Token>, e: Py, k: seq<Token>)
    requires ts != [] && !ts[0].NotOp? && ParseUnary(ts) == Got(e, k) && Closed(k)
    ensures ParseLevel(0, [NotOp] + ts) == Got(PNot(e), k)
  {
    ThroughLevels(2, ts, e, k);
    assert ([NotOp] + ts)[1..] == ts;
    DownToZero(2, [NotOp] + ts, PNot(e), k);
  }

  lemma {:induction false} NotPrimary(o: Expr, k: seq<Token>)
    requires Producible(o)
    ensures ParsePrimary(Emit(Not(o)) + k) == ParseTrailers(Reparsed(Not(o)), k)
    decreases Size(o), 5
  {
    var close := [RParen] + k;
    EmitStart(o);
    EmitUnary(o, close);
    NotLevel(Emit(o) + close, Reparsed(o), close);
    NotTokens(Emit(o), k);
  }

  lemma CallTokens(m: seq<Token>, ts: seq<Token>, k: seq<Token>)
    ensures m + ts + [RParen] + k == m + (ts + ([RParen] + k))
  {
  }

  lemma {:induction false} UnaryMethod(name: string, o: Expr, k: seq<Token>)
    requires Producible(o)
    ensures ParsePrimary(Method(name) + Emit(o) + [RParen] + k) == ParseTrailers(Call(name, [Reparsed(o)]), k)
    decreases Size(o), 5
  {
    var close := [RParen] + k;
    EmitInner(o, close);
    MethodPrimary(name, Emit(o) + close);
    CallTokens(Method(name), Emit(o), k);
  }

  lemma CastTokens(m: seq<Token>, t: Token, ts: seq<Token>, k: seq<Token>)
    ensures (m + [t, Comma] + ts + [RParen]) + k == m + ([t] + ([Comma] + (ts + ([RParen] + k))))
  {
  }

  lemma TwoArgs(fn: Py, ts: seq<Token>, e: Py, second: seq<Token>, f: Py, k: seq<Token>)
    requires ParseLevel(0, ts) == Got(e, [Comma] + second) && ParseLevel(0, second) == Got(f, [RParen] + k)
    ensures CallTrailer(fn, ts) == ParseTrailers(PCall(fn, [e, f]), k)
  {
    assert ([Comma] + second)[1..] == second && ([RParen] + k)[1..] == k;
    assert ParseArgs(second) == GotArgs([f], [RParen] + k);
    assert [e] + [f] == [e, f];
  }

  lemma {:induction false} CastPrimary(t: string, o: Expr, k: seq<Token>)
    requires Producible(o)
    ensures ParsePrimary(Emit(Cast(t, o)) + k) == ParseTrailers(Reparsed(Cast(t, o)), k)
    decreases Size(o), 5
  {
    var second := Emit(o) + ([RParen] + k);
    var args := [Str(t)] + ([Comma] + second);
    EmitInner(o, [RParen] + k);
    StrArg(t, [Comma] + second);
    MethodPrimary("cast", args);
    CastTokens(Method("cast"), Str(t), Emit(o), k);
    TwoArgs(PAttr(PName("Value"), "cast"), args, PStr(t), second, Reparsed(o), k);
  }

  lemma IndexTokens(b: seq<Token>, i: seq<Token>, k: seq<Token>)
    ensures (b + [LBracket] + i + [RBracket]) + k == b + ([LBracket] + (i + ([RBracket] + k)))
  {
  }

  lemma IndexRead(b: seq<Token>, i: seq<Token>, k: seq<Token>, base: Py, e: Py, rest: seq<Token>, tail: seq<Token>)
    requires rest == [RBracket] + k && tail == [LBracket] + (i + rest)
    requires ParsePrimary(b + tail) == ParseTrailers(base, tail) && ParseLevel(0, i + rest) == Got(e, rest)
    ensures ParsePrimary((b + [LBracket] + i + [RBracket]) + k) == ParseTrailers(PIndex(base, e), k)
  {
    IndexTokens(b, i, k);
  }

  lemma {:induction false} IndexInner(b: seq<Token>, base: Py, i: Expr, k: seq<Token>, rest: seq<Token>, tail: seq<Token>)
    requires Producible(i) && rest == [RBracket] + k && tail == [LBracket] + (Emit(i) + rest)
    requires ParsePrimary(b + tail) == ParseTrailers(base, tail)
    ensures ParsePrimary((b + [LBracket] + Emit(i) + [RBracket]) + k) == ParseTrailers(PIndex(base, Reparsed(i)), k)
    decreases Size(i), 4
  {
    EmitInner(i, rest);
    IndexRead(b, Emit(i), k, base, Reparsed(i), rest, tail);
  }

  lemma {:induction false} IndexPrimary(b: Expr, i: Expr, k: seq<Token>)
    requires Producible(b) && !b.Signed? && Producible(i)
    ensures ParsePrimary((Emit(b) + [LBracket] + Emit(i) + [RBracket]) + k) ==
      ParseTrailers(PIndex(Reparsed(b), Reparsed(i)), k)
    decreases Size(b) + Size(i), 5
  {
    var rest := [RBracket] + k;
    var tail := [LBracket] + (Emit(i) + rest);
    EmitPrimary(b, tail);
    IndexInner(Emit(b), Reparsed(b), i, k, rest, tail);
  }

  // ----- main results -----

  /** Python reads every emitted expression, to the end, and reads it as `Reparsed` says. */
  lemma PythonReads(e: Expr)
    requires Producible(e)
    ensures Parse(Emit(e)) == Got(Reparsed(e), [])
  {
    assert Emit(e) + [] == Emit(e);
    EmitInner(e, []);
  }

  /** That is what was meant exactly when no bare sign stands before the left operand of a power. */
  lemma {:induction false} ReparsedAsMeant(e: Expr)
    ensures Reparsed(e) == Meaning(e) <==> NoSignedBase(e)
  {
    match e
    case Constant(_) =>
    case Native(_) =>
    case Cast(t, o) =>
      ReparsedAsMeant(o);
      assert [PStr(t), Reparsed(o)][1] == Reparsed(o) && [PStr(t), Meaning(o)][1] == Meaning(o);
    case Paren(i) => ReparsedAsMeant(i);
    case Not(o) => ReparsedAsMeant(o);
    case Signed(_, o) => ReparsedAsMeant(o);
    case Deref(o) => ReparsedAsMeant(o); SameArg(Reparsed(o), Meaning(o));
    case AddressOf(o) => ReparsedAsMeant(o); SameArg(Reparsed(o), Meaning(o));
    case Bin(op, l, r) =>
      ReparsedAsMeant(l);
      ReparsedAsMeant(r);
      SameArg(Reparsed(r), Meaning(r));
    case Field(b, _) => ReparsedAsMeant(b);
    case Arrow(b, _) => ReparsedAsMeant(b); SameArg(Reparsed(b), Meaning(b));
    case Index(b, i) => ReparsedAsMeant(b); ReparsedAsMeant(i);
  }

  lemma SameArg(a: Py, b: Py)
    ensures [a] == [b] <==> a == b
  {
    assert [a][0] == a && [b][0] == b;
  }

  /** The translation preserves structure, with no comparison chained to another, exactly for the
      trees without a signed base. */
  lemma TranslationPreservesStructure(e: Expr)
    requires Producible(e)
    ensures Parse(Emit(e)) == Got(Meaning(e), []) <==> NoSignedBase(e)
  {
    PythonReads(e);
    ReparsedAsMeant(e);
  }

  /** `-a ** b`, which the table reads as a power of `-a`, is emitted as the negative of a power. */
  lemma SignedBaseIsMisread(a: string, b: string)
    ensures var e := Bin(Pow, Signed(Minus, Native(a)), Native(b));
      && Producible(e) && !NoSignedBase(e)
      && Parse(Emit(e)) == Got(PUnary(Minus, PBinary(Pow, Meaning(Native(a)), Meaning(Native(b)))), [])
  {
    var e := Bin(Pow, Signed(Minus, Native(a)), Native(b));
    assert Producible(e.left) && Producible(e.right);
    PythonReads(e);
    assert PowerOf(e.left, Reparsed(e.right)) == PUnary(Minus, PowerOf(Native(a), Reparsed(Native(b))));
    assert PowerOf(Native(a), Reparsed(Native(b))) == PBinary(Pow, Reparsed(Native(a)), Reparsed(Native(b)));
  }
}
