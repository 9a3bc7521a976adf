/** A parser for the part of Python's expression grammar that translated expressions use, with
    Python's precedence levels ("Operator precedence", section 6.17 of the Python language
    reference). It knows nothing about how the expressions came to be. */
module PythonGrammar {
  import opened Options

  datatype BinOp =
    | Or | And
    | Lt | Le | Gt | Ge | Eq | Ne
    | BitOr | BitXor | BitAnd
    | Shl | Shr
    | Add | Sub
    | Mul | Div | FloorDiv | Mod
    | Pow

  datatype Sign = Minus | Plus | Invert

  datatype Token =
    | Name(name: string) | Literal(text: string) | Str(text: string)
    | Operator(op: BinOp)       // + and - are also signs
    | Tilde
    | NotOp
    | LParen | RParen | LBracket | RBracket | Comma | Dot

  datatype Py =
    | PName(name: string) | PLiteral(text: string) | PStr(text: string)
    | PAttr(base: Py, attr: string)
    | PCall(fn: Py, args: seq<Py>)
    | PIndex(base: Py, index: Py)
    | PUnary(sign: Sign, operand: Py)
    | PNot(operand: Py)
    | PBinary(op: BinOp, left: Py, right: Py)
    | PCompare(first: Py, ops: seq<BinOp>, rest: seq<Py>)  // comparisons chain

  /** Binding strength, weakest first. Level 2 is `not`, level 10 the signs, level 11 `**`. */
  function Level(op: BinOp): (k: nat)
    ensures k <= 11 && k != 2 && k != 10
  {
    match op
    case Or => 0
    case And => 1
    case Lt => 3 case Le => 3 case Gt => 3 case Ge => 3 case Eq => 3 case Ne => 3
    case BitOr => 4
    case BitXor => 5
    case BitAnd => 6
    case Shl => 7 case Shr => 7
    case Add => 8 case Sub => 8
    case Mul => 9 case Div => 9 case FloorDiv => 9 case Mod => 9
    case Pow => 11
  }

  function SignOf(t: Token): Option<Sign>
  {
    match t
    case Operator(Sub) => Some(Minus)
    case Operator(Add) => Some(Plus)
    case Tilde => Some(Invert)
    case _ => None
  }

  datatype Parsed = NoParse | Got(e: Py, rest: seq<Token>)
  datatype ParsedArgs = NoArgs | GotArgs(args: seq<Py>, rest: seq<Token>)

  predicate StartsWithOp(ts: seq<Token>, k: nat)
  {
    ts != [] && ts[0].Operator? && Level(ts[0].op) == k
  }

  function ParseLevel(k: nat, ts: seq<Token>): (r: Parsed)
    requires k <= 10
    ensures r.Got? ==> |r.rest| < |ts|
    decreases |ts|, 20 - k
  {
    if k == 10 then ParseUnary(ts)
    else if k == 2 then
      if ts != [] && ts[0].NotOp? then
        match ParseLevel(2, ts[1..])
        case NoParse => NoParse
        case Got(e, rest) => Got(PNot(e), rest)
      else ParseLevel(3, ts)
    else
      match ParseLevel(k + 1, ts)
      case NoParse => NoParse
      case Got(e, rest) => if k == 3 then ParseComparisons(e, [], [], rest) else ParseRest(k, e, rest)
  }

  /** Operators of one level group to the left. */
  function ParseRest(k: nat, left: Py, ts: seq<Token>): (r: Parsed)
    requires k < 10 && k != 2 && k != 3
    ensures r.Got? ==> |r.rest| <= |ts|
    decreases |ts|, 20 - k
  {
    if !StartsWithOp(ts, k) then Got(left, ts)
    else
      match ParseLevel(k + 1, ts[1..])
      case NoParse => NoParse
      case Got(e, rest) => ParseRest(k, PBinary(ts[0].op, left, e), rest)
  }

  function ParseComparisons(first: Py, ops: seq<BinOp>, operands: seq<Py>, ts: seq<Token>): (r: Parsed)
    ensures r.Got? ==> |r.rest| <= |ts|
    decreases |ts|, 0
  {
    if !StartsWithOp(ts, 3) then Got(if ops == [] then first else PCompare(first, ops, operands), ts)
    else
      match ParseLevel(4, ts[1..])
      case NoParse => NoParse
      case Got(e, rest) => ParseComparisons(first, ops + [ts[0].op], operands + [e], rest)
  }

  function ParseUnary(ts: seq<Token>): (r: Parsed)
    ensures r.Got? ==> |r.rest| < |ts|
    decreases |ts|, 9
  {
    if ts != [] && SignOf(ts[0]).Some? then
      match ParseUnary(ts[1..])
      case NoParse => NoParse
      case Got(e, rest) => Got(PUnary(SignOf(ts[0]).value, e), rest)
    else ParsePower(ts)
  }

  /** `**` binds tighter than a sign on its left and looser than one on its right. */
  function ParsePower(ts: seq<Token>): (r: Parsed)
    ensures r.Got? ==> |r.rest| < |ts|
    decreases |ts|, 8
  {
    match ParsePrimary(ts)
    case NoParse => NoParse
    case Got(base, rest) =>
      if rest != [] && rest[0] == Operator(Pow) then
        match ParseUnary(rest[1..])
        case NoParse => NoParse
        case Got(e, rest') => Got(PBinary(Pow, base, e), rest')
      else Got(base, rest)
  }

  function ParsePrimary(ts: seq<Token>): (r: Parsed)
    ensures r.Got? ==> |r.rest| < |ts|
    decreases |ts|, 7
  {
    if ts == [] then NoParse
    else
      match ts[0]
      case Name(s) => ParseTrailers(PName(s), ts[1..])
      case Literal(s) => ParseTrailers(PLiteral(s), ts[1..])
      case Str(s) => ParseTrailers(PStr(s), ts[1..])
      case LParen =>
        (match ParseLevel(0, ts[1..])
         case NoParse => NoParse
         case Got(e, rest) => if rest != [] && rest[0].RParen? then ParseTrailers(e, rest[1..]) else NoParse)
      case _ => NoParse
  }

  /** Attribute access, calls and subscripts. */
  function ParseTrailers(base: Py, ts: seq<Token>): (r: Parsed)
    ensures r.Got? ==> |r.rest| <= |ts|
    decreases |ts|, 6
  {
    if ts == [] then Got(base, ts)
    else
      match ts[0]
      case Dot =>
        if |ts| >= 2 && ts[1].Name? then ParseTrailers(PAttr(base, ts[1].name), ts[2..]) else NoParse
      case LParen =>
        (match ParseArgs(ts[1..])
         case NoArgs => NoParse
         case GotArgs(args, rest) =>
           if rest != [] && rest[0].RParen? then ParseTrailers(PCall(base, args), rest[1..]) else NoParse)
      case LBracket =>
        (match ParseLevel(0, ts[1..])
         case NoParse => NoParse
         case Got(e, rest) =>
           if rest != [] && rest[0].RBracket? then ParseTrailers(PIndex(base, e), rest[1..]) else NoParse)
      case _ => Got(base, ts)
  }

  function ParseArgs(ts: seq<Token>): (r: ParsedArgs)
    ensures r.GotArgs? ==> |r.rest| < |ts|
    decreases |ts|, 21
  {
    match ParseLevel(0, ts)
    case NoParse => NoArgs
    case Got(e, rest) =>
      if rest != [] && rest[0].Comma? then
        match ParseArgs(rest[1..])
        case NoArgs => NoArgs
        case GotArgs(args, rest') => GotArgs([e] + args, rest')
      else GotArgs([e], rest)
  }

  /** A whole expression, with nothing left over. */
  function Parse(ts: seq<Token>): Parsed
  {
    var r := ParseLevel(0, ts);
    if r.Got? && r.rest == [] then r else NoParse
  }
}
