/** The parser of the expression language: its abstract syntax, a functional account of what each
    precedence level reads, and the class with a moving cursor proved against it.

    The functional account works on the tokens that are left and returns what it leaves in turn, so that
    both the recursion and the loops end because fewer tokens are left or the level is higher. The grammar
    is not mentioned here; that the account reads exactly the phrases of the grammar is proved about it
    separately. */
module Parser {
  import opened Lexer
  import opened Pipelines

  datatype Constant = Number(text: string) | Characters(value: string) | Truth(truth: bool) | Nothing

  /** A syntax tree without source positions. */
  datatype Node =
    | Literal(value: Constant)
    | Ident(name: string)
    | Member(left: Node, name: string)
    | Subscript(left: Node, index: Node)
    | Unary(op: string, right: Node)
    | Binary(op: string, left: Node, right: Node)
    | Ternary(cond: Node, yes: Node, no: Node)
    | Call(name: string, args: seq<Node>)

  function FlattenName(n: Node): string {
    match n
    case Ident(name) => name
    case Member(left, name) => FlattenName(left) + "." + name
    case _ => ""
  }

  predicate Callable(n: Node) {
    n.Ident? || n.Member?
  }

  // ---- Precedence levels ----

  const TERNARY: nat := 0
  const UNARY: nat := 7
  const POSTFIX: nat := 8
  const PRIMARY: nat := 9

  /** The level of a binary operator, from 1 for || to 6 for * / %; 0 for any other text. */
  function BinaryLevel(op: string): (k: nat)
    ensures k < UNARY
  {
    if op == "||" then 1
    else if op == "&&" then 2
    else if op == "==" || op == "!=" then 3
    else if op == "<" || op == ">" || op == "<=" || op == ">=" then 4
    else if op == "+" || op == "-" then 5
    else if op == "*" || op == "/" || op == "%" then 6
    else 0
  }

  predicate IsPrefix(op: string) {
    op == "!" || op == "-"
  }

  // ---- What each level reads ----

  datatype Parsed<T> = Yes(value: T, rest: seq<Token>) | No

  /** The next token of what is left, which does not list the final EOF. */
  function Peek(ts: seq<Token>): Token {
    if ts == [] then TokEOF else ts[0]
  }

  predicate At(ts: seq<Token>, op: string) {
    ts != [] && ts[0] == TokPunct(op)
  }

  /** The next token is a binary operator of level `k`. */
  predicate AtLevel(ts: seq<Token>, k: nat) {
    ts != [] && ts[0].TokPunct? && BinaryLevel(ts[0].op) == k
  }

  function Expression(k: nat, ts: seq<Token>): (r: Parsed<Node>)
    requires k <= PRIMARY
    ensures r.Yes? ==> |r.rest| < |ts|
    decreases |ts|, 2 * (11 - k)
  {
    if k == TERNARY then ReadTernary(ts)
    else if k < UNARY then
      (match Expression(k + 1, ts)
       case Yes(left, rest) => Chain(k, left, rest)
       case No => No)
    else if k == UNARY then ReadUnary(ts)
    else if k == POSTFIX then
      (match Expression(PRIMARY, ts)
       case Yes(left, rest) => Suffixes(left, rest)
       case No => No)
    else ReadPrimary(ts)
  }

  function ReadTernary(ts: seq<Token>): (r: Parsed<Node>)
    ensures r.Yes? ==> |r.rest| < |ts|
    decreases |ts|, 21
  {
    match Expression(1, ts)
    case No => No
    case Yes(cond, rest) =>
      if !At(rest, "?") then Yes(cond, rest)
      else
        match Expression(TERNARY, rest[1..])
        case No => No
        case Yes(yes, rest') =>
          if !At(rest', ":") then No
          else
            match Expression(TERNARY, rest'[1..])
            case No => No
            case Yes(no, rest'') => Yes(Ternary(cond, yes, no), rest'')
  }

  /** The operators of level `k` and their right operands, folded to the left onto `left`. */
  function Chain(k: nat, left: Node, ts: seq<Token>): (r: Parsed<Node>)
    requires 0 < k < UNARY
    ensures r.Yes? ==> |r.rest| <= |ts|
    decreases |ts|, 0
  {
    if !AtLevel(ts, k) then Yes(left, ts)
    else
      match Expression(k + 1, ts[1..])
      case No => No
      case Yes(right, rest) => Chain(k, Binary(ts[0].op, left, right), rest)
  }

  function ReadUnary(ts: seq<Token>): (r: Parsed<Node>)
    ensures r.Yes? ==> |r.rest| < |ts|
    decreases |ts|, 7
  {
    if ts != [] && ts[0].TokPunct? && IsPrefix(ts[0].op) then
      match Expression(UNARY, ts[1..])
      case No => No
      case Yes(right, rest) => Yes(Unary(ts[0].op, right), rest)
    else Expression(POSTFIX, ts)
  }

  /** Member accesses, subscripts and calls applied to `left`. */
  function Suffixes(left: Node, ts: seq<Token>): (r: Parsed<Node>)
    ensures r.Yes? ==> |r.rest| <= |ts|
    decreases |ts|, 0
  {
    if At(ts, ".") then
      if Peek(ts[1..]).TokIdent? then Suffixes(Member(left, ts[1].name), ts[2..]) else No
    else if At(ts, "[") then
      match Expression(TERNARY, ts[1..])
      case No => No
      case Yes(index, rest) => if At(rest, "]") then Suffixes(Subscript(left, index), rest[1..]) else No
    else if At(ts, "(") then
      if !Callable(left) then No
      else
        match Arguments(ts[1..])
        case No => No
        case Yes(args, rest) => Suffixes(Call(FlattenName(left), args), rest)
    else Yes(left, ts)
  }

  function Arguments(ts: seq<Token>): (r: Parsed<seq<Node>>)
    ensures r.Yes? ==> |r.rest| < |ts|
    decreases |ts|, 24
  {
    if At(ts, ")") then Yes([], ts[1..]) else ArgumentList(ts)
  }

  function ArgumentList(ts: seq<Token>): (r: Parsed<seq<Node>>)
    ensures r.Yes? ==> |r.rest| < |ts|
    decreases |ts|, 23
  {
    match Expression(TERNARY, ts)
    case No => No
    case Yes(arg, rest) =>
      if At(rest, ",") then
        match ArgumentList(rest[1..])
        case No => No
        case Yes(args, rest') => Yes([arg] + args, rest')
      else if At(rest, ")") then Yes([arg], rest[1..])
      else No
  }

  function ReadPrimary(ts: seq<Token>): (r: Parsed<Node>)
    ensures r.Yes? ==> |r.rest| < |ts|
    decreases |ts|, 3
  {
    match Peek(ts)
    case TokNumber(text) => Yes(Literal(Number(text)), ts[1..])
    case TokString(value) => Yes(Literal(Characters(value)), ts[1..])
    case TokBool(truth) => Yes(Literal(Truth(truth)), ts[1..])
    case TokNull => Yes(Literal(Nothing), ts[1..])
    case TokIdent(name) => Yes(Ident(name), ts[1..])
    case TokPunct(op) =>
      if op != "(" then No
      else
        (match Expression(TERNARY, ts[1..])
         case No => No
         case Yes(inner, rest) => if At(rest, ")") then Yes(inner, rest[1..]) else No)
    case TokEOF => No
  }

  // ---- The parser with its cursor ----

  class Parser {
    const tokens: seq<Token>
    var pos: nat

    /** The only EOF is the last token, and the cursor has not passed it. */
    ghost predicate Valid()
      reads this
    {
      && pos < |tokens| && forall i :: 0 <= i < |tokens| ==> (tokens[i] == TokEOF <==> i == |tokens| - 1)
    }

    /** The tokens left before EOF. */
    ghost function Rest(): seq<Token>
      reads this
      requires Valid()
    {
      tokens[pos..|tokens| - 1]
    }

    /** `r` is what the functional account reads, and the cursor is where that leaves it. */
    ghost predicate Agrees<T>(p: Parsed<T>, r: Option<T>)
      reads this
      requires Valid()
    {
      if p.Yes? then r == Some(p.value) && Rest() == p.rest else r == None
    }

    constructor (tokens: seq<Token>)
      requires tokens != [] && forall i :: 0 <= i < |tokens| ==> (tokens[i] == TokEOF <==> i == |tokens| - 1)
      ensures Valid() && Rest() == tokens[..|tokens| - 1]
    {
      this.tokens := tokens;
      pos := 0;
    }

    method PeekToken() returns (t: Token)
      requires Valid()
      ensures t == Peek(Rest())
    {
      t := tokens[pos];
    }

    method Eat() returns (t: Token)
      requires Valid() && Rest() != []
      modifies this`pos
      ensures Valid() && t == old(Rest())[0] && Rest() == old(Rest())[1..]
    {
      t := tokens[pos];
      pos := pos + 1;
    }

    method MatchPunct(op: string) returns (ok: bool)
      requires Valid()
      modifies this`pos
      ensures Valid() && ok == At(old(Rest()), op)
      ensures Rest() == if ok then old(Rest())[1..] else old(Rest())
    {
      var t := PeekToken();
      ok := t.TokPunct? && t.op == op;
      if ok {
        var _ := Eat();
      }
    }

    method ParseTernary() returns (r: Option<Node>)
      requires Valid()
      modifies this`pos
      ensures Valid() && Agrees(Expression(TERNARY, old(Rest())), r)
      decreases |tokens| - pos, 21
    {
      var cond := ParseBinary(1);
      if cond.None? {
        return None;
      }
      var choice := MatchPunct("?");
      if !choice {
        return cond;
      }
      var yes := ParseTernary();
      if yes.None? {
        return None;
      }
      var colon := MatchPunct(":");
      if !colon {
        return None;
      }
      var no := ParseTernary();
      if no.None? {
        return None;
      }
      return Some(Ternary(cond.value, yes.value, no.value));
    }

    /** parseOr, parseAnd, parseEq, parseCmp, parseAdd and parseMul, for levels 1 to 6. */
    method ParseBinary(k: nat) returns (r: Option<Node>)
      requires Valid() && 0 < k < UNARY
      modifies this`pos
      ensures Valid() && Agrees(Expression(k, old(Rest())), r)
      decreases |tokens| - pos, 2 * (11 - k)
    {
      ghost var all := Rest();
      if k + 1 < UNARY {
        r := ParseBinary(k + 1);
      } else {
        r := ParseUnary();
      }
      if r.None? {
        return;
      }
      var t := PeekToken();
      while t.TokPunct? && BinaryLevel(t.op) == k
        invariant Valid() && r.Some? && t == Peek(Rest())
        invariant old(pos) < pos
        invariant Expression(k, all) == Chain(k, r.value, Rest())
        decreases |tokens| - pos
      {
        var _ := Eat();
        var right: Option<Node>;
        if k + 1 < UNARY {
          right := ParseBinary(k + 1);
        } else {
          right := ParseUnary();
        }
        if right.None? {
          return None;
        }
        r := Some(Binary(t.op, r.value, right.value));
        t := PeekToken();
      }
    }

    method ParseUnary() returns (r: Option<Node>)
      requires Valid()
      modifies this`pos
      ensures Valid() && Agrees(Expression(UNARY, old(Rest())), r)
      decreases |tokens| - pos, 7
    {
      var t := PeekToken();
      if t.TokPunct? && IsPrefix(t.op) {
        var _ := Eat();
        var right := ParseUnary();
        if right.None? {
          return None;
        }
        return Some(Unary(t.op, right.value));
      }
      r := ParsePostfix();
    }

    method ParsePostfix() returns (r: Option<Node>)
      requires Valid()
      modifies this`pos
      ensures Valid() && Agrees(Expression(POSTFIX, old(Rest())), r)
      decreases |tokens| - pos, 6
    {
      ghost var all := Rest();
      r := ParsePrimary();
      if r.None? {
        return;
      }
      var more := true;
      while more
        invariant Valid() && r.Some?
        invariant old(pos) < pos
        invariant Expression(POSTFIX, all) == if more then Suffixes(r.value, Rest()) else Yes(r.value, Rest())
        decreases |tokens| - pos, more
      {
        var t := PeekToken();
        if t == TokPunct(".") {
          r := ParseMember(r.value);
        } else if t == TokPunct("[") {
          r := ParseSubscript(r.value);
        } else if t == TokPunct("(") {
          r := ParseCall(r.value);
        } else {
          more := false;
        }
        if r.None? {
          return;
        }
      }
    }

    /** The case "." of parsePostfix. */
    method ParseMember(left: Node) returns (r: Option<Node>)
      requires Valid() && At(Rest(), ".")
      modifies this`pos
      ensures Valid() && (r.Some? ==> pos > old(pos))
      ensures Suffixes(left, old(Rest())) == if r.Some? then Suffixes(r.value, Rest()) else No
      decreases |tokens| - pos, 5
    {
      var _ := Eat();
      var id := PeekToken();
      if !id.TokIdent? {
        return None;
      }
      ghost var rest := Rest();
      var _ := Eat();
      assert rest[1..] == old(Rest())[2..];
      return Some(Member(left, id.name));
    }

    /** The case "[" of parsePostfix. */
    method ParseSubscript(left: Node) returns (r: Option<Node>)
      requires Valid() && At(Rest(), "[")
      modifies this`pos
      ensures Valid() && (r.Some? ==> pos > old(pos))
      ensures Suffixes(left, old(Rest())) == if r.Some? then Suffixes(r.value, Rest()) else No
      decreases |tokens| - pos, 5
    {
      var _ := Eat();
      var index := ParseTernary();
      if index.None? {
        return None;
      }
      var close := MatchPunct("]");
      if !close {
        return None;
      }
      return Some(Subscript(left, index.value));
    }

    /** The case "(" of parsePostfix. */
    method ParseCall(left: Node) returns (r: Option<Node>)
      requires Valid() && At(Rest(), "(")
      modifies this`pos
      ensures Valid() && (r.Some? ==> pos > old(pos))
      ensures Suffixes(left, old(Rest())) == if r.Some? then Suffixes(r.value, Rest()) else No
      decreases |tokens| - pos, 5
    {
      if !Callable(left) {
        return None;
      }
      var _ := Eat();
      var args := ParseArguments();
      if args.None? {
        return None;
      }
      return Some(Call(FlattenName(left), args.value));
    }

    method ParseArguments() returns (r: Option<seq<Node>>)
      requires Valid()
      modifies this`pos
      ensures Valid() && Agrees(Arguments(old(Rest())), r)
      decreases |tokens| - pos, 24
    {
      var args: seq<Node> := [];
      ghost var all := Rest();
      var done := MatchPunct(")");
      AfterNothing(ArgumentList(all));
      while !done
        invariant Valid() && old(pos) <= pos
        invariant done ==> Arguments(all) == Yes(args, Rest())
        invariant !done ==> Arguments(all) == After(args, ArgumentList(Rest()))
        decreases |tokens| - pos, !done
      {
        var arg := ParseTernary();
        if arg.None? {
          return None;
        }
        ghost var rest := Rest();
        var comma := MatchPunct(",");
        if comma {
          AfterAnother(args, arg.value, ArgumentList(rest[1..]));
        }
        if !comma {
          var close := MatchPunct(")");
          if !close {
            return None;
          }
          done := true;
        }
        args := args + [arg.value];
      }
      return Some(args);
    }

    method ParsePrimary() returns (r: Option<Node>)
      requires Valid()
      modifies this`pos
      ensures Valid() && Agrees(Expression(PRIMARY, old(Rest())), r)
      decreases |tokens| - pos, 4
    {
      ghost var all := Rest();
      assert Expression(PRIMARY, all) == ReadPrimary(all);
      var t := PeekToken();
      match t {
        case TokNumber(text) =>
          var _ := Eat();
          return Some(Literal(Number(text)));
        case TokString(value) =>
          var _ := Eat();
          return Some(Literal(Characters(value)));
        case TokBool(truth) =>
          var _ := Eat();
          return Some(Literal(Truth(truth)));
        case TokNull =>
          var _ := Eat();
          return Some(Literal(Nothing));
        case TokIdent(name) =>
          var _ := Eat();
          return Some(Ident(name));
        case TokPunct(op) =>
          if op != "(" {
            return None;
          }
          var _ := Eat();
          r := ParseTernary();
          if r.Some? {
            var close := MatchPunct(")");
            if !close {
              return None;
            }
          }
        case TokEOF =>
          return None;
      }
    }
  }

  /** The list `args` followed by what is still to be read. */
  function After(args: seq<Node>, p: Parsed<seq<Node>>): Parsed<seq<Node>> {
    if p.Yes? then Yes(args + p.value, p.rest) else No
  }

  lemma AfterNothing(p: Parsed<seq<Node>>)
    ensures After([], p) == p
  {
    if p.Yes? {
      assert [] + p.value == p.value;
    }
  }

  lemma AfterAnother(args: seq<Node>, arg: Node, p: Parsed<seq<Node>>)
    ensures After(args + [arg], p) == After(args, After([arg], p))
  {
    if p.Yes? {
      assert args + [arg] + p.value == args + ([arg] + p.value);
    }
  }

  lemma OneEOF(ts: seq<Token>)
    requires forall t :: t in ts ==> Sound(t)
    ensures forall i :: 0 <= i <= |ts| ==> ((ts + [TokEOF])[i] == TokEOF <==> i == |ts|)
  {
    forall i | 0 <= i < |ts| ensures ts[i] != TokEOF {
      assert Sound(ts[i]);
    }
  }

  /** The whole of `src` as one expression. */
  ghost function Accepts(src: string): Option<Node> {
    var ts := Lex(src);
    if ts.None? then None
    else
      var p := Expression(TERNARY, ts.value);
      if p.Yes? && p.rest == [] then Some(p.value) else None
  }

  method Parse(src: string) returns (r: Option<Node>)
    ensures r == Accepts(src)
  {
    var tokens := Tokenize(src);
    if tokens.None? {
      return None;
    }
    hide Lex;
    LexIsSound(src);
    OneEOF(Lex(src).value);
    assert tokens.value[..|tokens.value| - 1] == Lex(src).value;
    var p := new Parser(tokens.value);
    r := p.ParseTernary();
    if r.Some? {
      var t := p.PeekToken();
      if t != TokEOF {
        return None;
      }
    }
  }
}
