/** The grammar the parser's comments document, as concrete syntax trees, and the proof that the
    parser accepts exactly the token lists of those trees. */
module Grammar {
  import opened Lexer
  import opened Parser
  import opened Pipelines

  datatype Phrase =
    | Atom(token: Token)
    | Paren(inner: Phrase)
    | Dot(left: Phrase, name: string)
    | Bracket(left: Phrase, index: Phrase)
    | Apply(left: Phrase, args: seq<Phrase>)
    | Prefix(op: string, right: Phrase)
    | Infix(op: string, left: Phrase, right: Phrase)
    | Choice(cond: Phrase, yes: Phrase, no: Phrase)

  /** The precedence level a phrase belongs to. */
  function Level(c: Phrase): (k: nat)
    ensures k <= PRIMARY
  {
    match c
    case Atom(_) => PRIMARY
    case Paren(_) => PRIMARY
    case Dot(_, _) => POSTFIX
    case Bracket(_, _) => POSTFIX
    case Apply(_, _) => POSTFIX
    case Prefix(_, _) => UNARY
    case Infix(op, _, _) => BinaryLevel(op)
    case Choice(_, _, _) => TERNARY
  }

  predicate IsAtom(t: Token) {
    !t.TokPunct? && !t.TokEOF?
  }

  /** The grammar's rules. */
  predicate Derived(c: Phrase) {
    match c
    case Atom(t) => IsAtom(t)
    case Paren(inner) => Derived(inner)
    case Dot(left, _) => Derived(left) && Level(left) >= POSTFIX
    case Bracket(left, index) => Derived(left) && Level(left) >= POSTFIX && Derived(index)
    case Apply(left, args) =>
      && Derived(left) && Level(left) >= POSTFIX && Callable(Tree(left))
      && forall a :: a in args ==> Derived(a)
    case Prefix(op, right) => IsPrefix(op) && Derived(right) && Level(right) >= UNARY
    case Infix(op, left, right) =>
      && BinaryLevel(op) > 0 && Derived(left) && Derived(right)
      && Level(left) >= BinaryLevel(op) && Level(right) > BinaryLevel(op)
    case Choice(cond, yes, no) => Derived(cond) && Derived(yes) && Derived(no) && Level(cond) > TERNARY
  }

  /** The tokens of a phrase. */
  function Yield(c: Phrase): (ts: seq<Token>)
    ensures ts != []
  {
    match c
    case Atom(t) => [t]
    case Paren(inner) => [TokPunct("(")] + Yield(inner) + [TokPunct(")")]
    case Dot(left, name) => Yield(left) + [TokPunct("."), TokIdent(name)]
    case Bracket(left, index) => Yield(left) + [TokPunct("[")] + Yield(index) + [TokPunct("]")]
    case Apply(left, args) => Yield(left) + [TokPunct("(")] + YieldArgs(args) + [TokPunct(")")]
    case Prefix(op, right) => [TokPunct(op)] + Yield(right)
    case Infix(op, left, right) => Yield(left) + [TokPunct(op)] + Yield(right)
    case Choice(cond, yes, no) => Yield(cond) + [TokPunct("?")] + Yield(yes) + [TokPunct(":")] + Yield(no)
  }

  function YieldArgs(args: seq<Phrase>): seq<Token> {
    if args == [] then []
    else if |args| == 1 then Yield(args[0])
    else Yield(args[0]) + [TokPunct(",")] + YieldArgs(args[1..])
  }

  /** The syntax tree of a phrase: parentheses vanish, and a called phrase is reduced to a name. */
  function Tree(c: Phrase): Node {
    match c
    case Atom(t) => TreeOfAtom(t)
    case Paren(inner) => Tree(inner)
    case Dot(left, name) => Member(Tree(left), name)
    case Bracket(left, index) => Subscript(Tree(left), Tree(index))
    case Apply(left, args) => Call(FlattenName(Tree(left)), Trees(args))
    case Prefix(op, right) => Unary(op, Tree(right))
    case Infix(op, left, right) => Binary(op, Tree(left), Tree(right))
    case Choice(cond, yes, no) => Ternary(Tree(cond), Tree(yes), Tree(no))
  }

  function Trees(args: seq<Phrase>): (r: seq<Node>)
    ensures |r| == |args|
  {
    if args == [] then [] else [Tree(args[0])] + Trees(args[1..])
  }

  function TreeOfAtom(t: Token): Node {
    match t
    case TokNumber(text) => Literal(Number(text))
    case TokString(value) => Literal(Characters(value))
    case TokBool(truth) => Literal(Truth(truth))
    case TokIdent(name) => Ident(name)
    case _ => Literal(Nothing)
  }

  // ---- Whatever the parser accepts is in the grammar ----

  /** `c` is a phrase of level `k` that the tokens `ts` begin with, leaving `p.rest`. */
  ghost predicate Reads(c: Phrase, k: nat, ts: seq<Token>, p: Parsed<Node>) {
    p.Yes? && Derived(c) && Level(c) >= k && Tree(c) == p.value && ts == Yield(c) + p.rest
  }

  lemma {:induction false} ExpressionSound(k: nat, ts: seq<Token>) returns (c: Phrase)
    requires k <= PRIMARY && Expression(k, ts).Yes?
    ensures Reads(c, k, ts, Expression(k, ts))
    decreases |ts|, 2 * (11 - k)
  {
    if k == TERNARY {
      c := TernarySound(ts);
    } else if k < UNARY {
      var left := ExpressionSound(k + 1, ts);
      var p := Expression(k + 1, ts);
      c := ChainSound(k, ts, left, p.value, p.rest);
    } else if k == UNARY {
      c := UnarySound(ts);
    } else if k == POSTFIX {
      var left := ExpressionSound(PRIMARY, ts);
      var p := Expression(PRIMARY, ts);
      c := SuffixesSound(ts, left, p.value, p.rest);
    } else {
      c := PrimarySound(ts);
    }
  }

  lemma {:induction false} TernarySound(ts: seq<Token>) returns (c: Phrase)
    requires ReadTernary(ts).Yes?
    ensures Reads(c, TERNARY, ts, ReadTernary(ts))
    decreases |ts|, 21
  {
    var cond := ExpressionSound(1, ts);
    var rest := Expression(1, ts).rest;
    if !At(rest, "?") {
      return cond;
    }
    var yes := ExpressionSound(TERNARY, rest[1..]);
    var rest' := Expression(TERNARY, rest[1..]).rest;
    var no := ExpressionSound(TERNARY, rest'[1..]);
    c := Choice(cond, yes, no);
    Mixfix(ts, Yield(cond), rest, Yield(yes), rest', Yield(no), Expression(TERNARY, rest'[1..]).rest);
  }

  lemma Mixfix(ts: seq<Token>, a: seq<Token>, rest: seq<Token>, b: seq<Token>, rest': seq<Token>, c: seq<Token>,
               rest'': seq<Token>)
    requires ts == a + rest && rest != [] && rest[1..] == b + rest' && rest' != [] && rest'[1..] == c + rest''
    ensures ts == a + [rest[0]] + b + [rest'[0]] + c + rest''
  {
    assert rest == [rest[0]] + rest[1..] && rest' == [rest'[0]] + rest'[1..];
  }

  lemma {:induction false} ChainSound(k: nat, all: seq<Token>, left: Phrase, n: Node, ts: seq<Token>)
    returns (c: Phrase)
    requires 0 < k < UNARY && Reads(left, k, all, Yes(n, ts)) && Chain(k, n, ts).Yes?
    ensures Reads(c, k, all, Chain(k, n, ts))
    decreases |ts|, 0
  {
    if !AtLevel(ts, k) {
      return left;
    }
    var right := ExpressionSound(k + 1, ts[1..]);
    var p := Expression(k + 1, ts[1..]);
    InfixReads(k, all, left, n, ts, right, p);
    hide Reads;
    c := ChainSound(k, all, Infix(ts[0].op, left, right), Binary(ts[0].op, n, p.value), p.rest);
  }

  lemma InfixReads(k: nat, all: seq<Token>, left: Phrase, n: Node, ts: seq<Token>, right: Phrase, p: Parsed<Node>)
    requires 0 < k < UNARY && Reads(left, k, all, Yes(n, ts)) && AtLevel(ts, k) && Reads(right, k + 1, ts[1..], p)
    ensures Reads(Infix(ts[0].op, left, right), k, all, Yes(Binary(ts[0].op, n, p.value), p.rest))
  {
    assert ts == [ts[0]] + ts[1..];
  }

  lemma {:induction false} UnarySound(ts: seq<Token>) returns (c: Phrase)
    requires ReadUnary(ts).Yes?
    ensures Reads(c, UNARY, ts, ReadUnary(ts))
    decreases |ts|, 7
  {
    if ts != [] && ts[0].TokPunct? && IsPrefix(ts[0].op) {
      var right := ExpressionSound(UNARY, ts[1..]);
      c := Prefix(ts[0].op, right);
      assert ts == [ts[0]] + ts[1..];
    } else {
      c := ExpressionSound(POSTFIX, ts);
    }
  }

  lemma {:induction false} SuffixesSound(all: seq<Token>, left: Phrase, n: Node, ts: seq<Token>) returns (c: Phrase)
    requires Reads(left, POSTFIX, all, Yes(n, ts)) && Suffixes(n, ts).Yes?
    ensures Reads(c, POSTFIX, all, Suffixes(n, ts))
    decreases |ts|, 0
  {
    hide Reads, ReadsAll;
    if At(ts, ".") {
      DotReads(all, left, n, ts);
      c := SuffixesSound(all, Dot(left, ts[1].name), Member(n, ts[1].name), ts[2..]);
    } else if At(ts, "[") {
      var index := ExpressionSound(TERNARY, ts[1..]);
      var p := Expression(TERNARY, ts[1..]);
      BracketReads(all, left, n, ts, index, p);
      c := SuffixesSound(all, Bracket(left, index), Subscript(n, p.value), p.rest[1..]);
    } else if At(ts, "(") {
      var args := ArgumentsSound(ts[1..]);
      var p := Arguments(ts[1..]);
      ApplyReads(all, left, n, ts, args, p);
      c := SuffixesSound(all, Apply(left, args), Call(FlattenName(n), p.value), p.rest);
    } else {
      c := left;
    }
  }

  lemma DotReads(all: seq<Token>, left: Phrase, n: Node, ts: seq<Token>)
    requires Reads(left, POSTFIX, all, Yes(n, ts)) && At(ts, ".") && Peek(ts[1..]).TokIdent?
    ensures Reads(Dot(left, ts[1].name), POSTFIX, all, Yes(Member(n, ts[1].name), ts[2..]))
  {
    assert ts == [ts[0], ts[1]] + ts[2..];
  }

  lemma BracketReads(all: seq<Token>, left: Phrase, n: Node, ts: seq<Token>, index: Phrase, p: Parsed<Node>)
    requires Reads(left, POSTFIX, all, Yes(n, ts)) && At(ts, "[")
    requires Reads(index, TERNARY, ts[1..], p) && At(p.rest, "]")
    ensures Reads(Bracket(left, index), POSTFIX, all, Yes(Subscript(n, p.value), p.rest[1..]))
  {
    Bracketed(all, Yield(left), ts, Yield(index), p.rest);
  }

  lemma ApplyReads(all: seq<Token>, left: Phrase, n: Node, ts: seq<Token>, args: seq<Phrase>, p: Parsed<seq<Node>>)
    requires Reads(left, POSTFIX, all, Yes(n, ts)) && At(ts, "(") && Callable(n) && ReadsAll(args, ts[1..], p)
    ensures Reads(Apply(left, args), POSTFIX, all, Yes(Call(FlattenName(n), p.value), p.rest))
  {
    var close := [TokPunct(")")] + p.rest;
    assert ts[1..] == YieldArgs(args) + close;
    Bracketed(all, Yield(left), ts, YieldArgs(args), close);
  }

  lemma Bracketed(all: seq<Token>, a: seq<Token>, ts: seq<Token>, b: seq<Token>, rest: seq<Token>)
    requires all == a + ts && ts != [] && ts[1..] == b + rest && rest != []
    ensures all == a + [ts[0]] + b + [rest[0]] + rest[1..]
  {
    assert ts == [ts[0]] + ts[1..] && rest == [rest[0]] + rest[1..];
  }

  /** `args` are phrases that `ts` begins with, closed by a parenthesis. */
  ghost predicate ReadsAll(args: seq<Phrase>, ts: seq<Token>, p: Parsed<seq<Node>>) {
    p.Yes? && (forall a :: a in args ==> Derived(a)) && Trees(args) == p.value
    && ts == YieldArgs(args) + [TokPunct(")")] + p.rest
  }

  lemma {:induction false} ArgumentsSound(ts: seq<Token>) returns (args: seq<Phrase>)
    requires Arguments(ts).Yes?
    ensures ReadsAll(args, ts, Arguments(ts))
    decreases |ts|, 24
  {
    if At(ts, ")") {
      args := [];
      assert ts == [ts[0]] + ts[1..];
    } else {
      args := ArgumentListSound(ts);
    }
  }

  lemma {:induction false} ArgumentListSound(ts: seq<Token>) returns (args: seq<Phrase>)
    requires ArgumentList(ts).Yes?
    ensures args != [] && ReadsAll(args, ts, ArgumentList(ts))
    decreases |ts|, 23
  {
    var arg := ExpressionSound(TERNARY, ts);
    var rest := Expression(TERNARY, ts).rest;
    assert rest == [rest[0]] + rest[1..];
    if At(rest, ",") {
      var more := ArgumentListSound(rest[1..]);
      args := [arg] + more;
      assert args[1..] == more;
    } else {
      args := [arg];
      assert Trees(args[1..]) == [];
    }
  }

  lemma {:induction false} PrimarySound(ts: seq<Token>) returns (c: Phrase)
    requires ReadPrimary(ts).Yes?
    ensures Reads(c, PRIMARY, ts, ReadPrimary(ts))
    decreases |ts|, 3
  {
    if ts[0].TokPunct? {
      var inner := ExpressionSound(TERNARY, ts[1..]);
      var rest := Expression(TERNARY, ts[1..]).rest;
      c := Paren(inner);
      assert ts == [ts[0]] + ts[1..] && rest == [rest[0]] + rest[1..];
    } else {
      c := Atom(ts[0]);
      assert ts == [ts[0]] + ts[1..];
    }
  }

  // ---- Whatever is in the grammar is accepted ----

  /** The tokens `rest` cannot continue a phrase of level `k`. */
  predicate Stops(k: nat, rest: seq<Token>) {
    rest != [] && rest[0].TokPunct? ==>
      var op := rest[0].op;
      && (k <= POSTFIX ==> op != "." && op != "[" && op != "(")
      && (BinaryLevel(op) > 0 ==> BinaryLevel(op) < k)
      && (k == TERNARY ==> op != "?")
  }

  lemma {:induction false} FirstToken(c: Phrase)
    requires Derived(c)
    ensures var t := Yield(c)[0];
            IsAtom(t) || t == TokPunct("(") || (Level(c) < POSTFIX && t.TokPunct? && IsPrefix(t.op))
  {
    match c
    case Atom(_) =>
    case Paren(_) =>
    case Dot(left, _) => FirstToken(left);
    case Bracket(left, _) => FirstToken(left);
    case Apply(left, _) => FirstToken(left);
    case Prefix(_, _) =>
    case Infix(_, left, _) => FirstToken(left);
    case Choice(cond, _, _) => FirstToken(cond);
  }

  lemma {:induction false} Complete(k: nat, c: Phrase, rest: seq<Token>)
    requires k <= PRIMARY && Derived(c) && Level(c) >= k && Stops(k, rest)
    ensures Expression(k, Yield(c) + rest) == Yes(Tree(c), rest)
    decreases c, 2 * (11 - k)
  {
    if k == TERNARY {
      CompleteTernary(c, rest);
    } else if k < UNARY {
      CompleteChain(k, c, rest);
    } else if k == UNARY {
      CompleteUnary(c, rest);
    } else if k == POSTFIX {
      CompleteSuffixes(c, rest);
    } else {
      CompletePrimary(c, rest);
    }
  }

  lemma {:induction false} CompleteTernary(c: Phrase, rest: seq<Token>)
    requires Derived(c) && Stops(TERNARY, rest)
    ensures ReadTernary(Yield(c) + rest) == Yes(Tree(c), rest)
    decreases c, 21
  {
    if Level(c) > TERNARY {
      Complete(1, c, rest);
    } else {
      CompleteChoice(c, rest);
    }
  }

  lemma {:induction false} CompleteChoice(c: Phrase, rest: seq<Token>)
    requires Derived(c) && c.Choice? && Stops(TERNARY, rest)
    ensures ReadTernary(Yield(c) + rest) == Yes(Tree(c), rest)
    decreases c, 20
  {
    assert Tree(c) == Ternary(Tree(c.cond), Tree(c.yes), Tree(c.no));
    assert Derived(c.cond) && Derived(c.yes) && Derived(c.no) && Level(c.cond) > TERNARY;
    hide Yield, Expression, Tree, ReadTernary, Derived, Level;
    var colon := [TokPunct(":")] + (Yield(c.no) + rest);
    var question := [TokPunct("?")] + (Yield(c.yes) + colon);
    ChoiceTokens(c, rest);
    Complete(1, c.cond, question);
    Complete(TERNARY, c.yes, colon);
    Complete(TERNARY, c.no, rest);
    AfterOperator("?", Yield(c.yes) + colon);
    AfterOperator(":", Yield(c.no) + rest);
    hide *;
    TernaryReads(Yield(c) + rest, Tree(c.cond), question, Tree(c.yes), colon, Tree(c.no), rest);
  }

  lemma AfterOperator(op: string, ts: seq<Token>)
    ensures At([TokPunct(op)] + ts, op) && ([TokPunct(op)] + ts)[1..] == ts
  {
  }

  lemma ChoiceTokens(c: Phrase, rest: seq<Token>)
    requires c.Choice?
    ensures Yield(c) + rest
         == Yield(c.cond) + ([TokPunct("?")] + (Yield(c.yes) + ([TokPunct(":")] + (Yield(c.no) + rest))))
  {
    Regroup(Yield(c.cond) + [TokPunct("?")] + Yield(c.yes), [TokPunct(":")], Yield(c.no), rest);
    Regroup(Yield(c.cond), [TokPunct("?")], Yield(c.yes), [TokPunct(":")] + (Yield(c.no) + rest));
  }

  lemma Regroup(a: seq<Token>, b: seq<Token>, c: seq<Token>, rest: seq<Token>)
    ensures a + b + c + rest == a + (b + (c + rest))
    ensures a + b + c + rest == a + b + (c + rest)
  {
  }

  lemma TernaryReads(ts: seq<Token>, cond: Node, question: seq<Token>, yes: Node, colon: seq<Token>, no: Node,
                     rest: seq<Token>)
    requires Expression(1, ts) == Yes(cond, question) && At(question, "?")
    requires Expression(TERNARY, question[1..]) == Yes(yes, colon) && At(colon, ":")
    requires Expression(TERNARY, colon[1..]) == Yes(no, rest)
    ensures ReadTernary(ts) == Yes(Ternary(cond, yes, no), rest)
  {
    hide Expression;
  }

  /** A phrase of level `k` is read as a chain, whatever follows it at that level. */
  lemma {:induction false} CompleteChain(k: nat, c: Phrase, rest: seq<Token>)
    requires 0 < k < UNARY && Derived(c) && Level(c) >= k && Stops(k + 1, rest)
    ensures Expression(k, Yield(c) + rest) == Chain(k, Tree(c), rest)
    decreases c, 2 * (11 - k) - 1
  {
    if Level(c) > k {
      Complete(k + 1, c, rest);
    } else {
      CompleteInfix(k, c, rest);
    }
  }

  lemma {:induction false} CompleteInfix(k: nat, c: Phrase, rest: seq<Token>)
    requires 0 < k < UNARY && Derived(c) && c.Infix? && BinaryLevel(c.op) == k && Stops(k + 1, rest)
    ensures Expression(k, Yield(c) + rest) == Chain(k, Tree(c), rest)
    decreases c, 2 * (11 - k) - 2
  {
    assert Tree(c) == Binary(c.op, Tree(c.left), Tree(c.right)) && Level(c) == k;
    var more := [TokPunct(c.op)] + (Yield(c.right) + rest);
    Regroup(Yield(c.left), [TokPunct(c.op)], Yield(c.right), rest);
    assert Yield(c) + rest == Yield(c.left) + more;
    AfterOperator(c.op, Yield(c.right) + rest);
    hide Yield, Tree, Expression;
    CompleteChain(k, c.left, more);
    Complete(k + 1, c.right, rest);
  }

  lemma {:induction false} CompleteUnary(c: Phrase, rest: seq<Token>)
    requires Derived(c) && Level(c) >= UNARY && Stops(UNARY, rest)
    ensures ReadUnary(Yield(c) + rest) == Yes(Tree(c), rest)
    decreases c, 7
  {
    if Level(c) > UNARY {
      FirstToken(c);
      Complete(POSTFIX, c, rest);
    } else {
      assert (Yield(c) + rest)[1..] == Yield(c.right) + rest;
      Complete(UNARY, c.right, rest);
    }
  }

  /** A phrase of level 8 is read first, then whatever suffixes follow. */
  lemma {:induction false} CompleteSuffixes(c: Phrase, rest: seq<Token>)
    requires Derived(c) && Level(c) >= POSTFIX
    ensures Expression(POSTFIX, Yield(c) + rest) == Suffixes(Tree(c), rest)
    decreases c, 5
  {
    if Level(c) == PRIMARY {
      CompletePrimary(c, rest);
    } else if c.Dot? {
      var suffix := [TokPunct("."), TokIdent(c.name)] + rest;
      assert Yield(c) + rest == Yield(c.left) + suffix;
      CompleteSuffixes(c.left, suffix);
      assert suffix[2..] == rest;
    } else if c.Bracket? {
      CompleteBracket(c, rest);
    } else {
      CompleteApply(c, rest);
    }
  }

  lemma {:induction false} CompleteBracket(c: Phrase, rest: seq<Token>)
    requires Derived(c) && c.Bracket?
    ensures Expression(POSTFIX, Yield(c) + rest) == Suffixes(Tree(c), rest)
    decreases c, 4
  {
    var close := [TokPunct("]")] + rest;
    var more := [TokPunct("[")] + (Yield(c.index) + close);
    assert Yield(c) + rest == Yield(c.left) + more;
    CompleteSuffixes(c.left, more);
    Complete(TERNARY, c.index, close);
    hide Expression, Yield;
    assert more[1..] == Yield(c.index) + close && close[1..] == rest;
    assert Suffixes(Tree(c.left), more) == Suffixes(Subscript(Tree(c.left), Tree(c.index)), rest);
  }

  lemma {:induction false} CompleteApply(c: Phrase, rest: seq<Token>)
    requires Derived(c) && c.Apply?
    ensures Expression(POSTFIX, Yield(c) + rest) == Suffixes(Tree(c), rest)
    decreases c, 4
  {
    var args := YieldArgs(c.args) + ([TokPunct(")")] + rest);
    var more := [TokPunct("(")] + args;
    assert Yield(c) + rest == Yield(c.left) + more;
    CompleteSuffixes(c.left, more);
    CompleteArguments(c.args, rest);
    assert more[1..] == args;
  }

  lemma {:induction false} CompleteArguments(args: seq<Phrase>, rest: seq<Token>)
    requires forall a :: a in args ==> Derived(a)
    ensures Arguments(YieldArgs(args) + ([TokPunct(")")] + rest)) == Yes(Trees(args), rest)
    decreases args, 4
  {
    var close := [TokPunct(")")] + rest;
    assert close[1..] == rest;
    if args == [] {
      assert YieldArgs(args) + close == close;
    } else {
      FirstToken(args[0]);
      CompleteArgumentList(args, rest);
    }
  }

  lemma {:induction false} CompleteArgumentList(args: seq<Phrase>, rest: seq<Token>)
    requires args != [] && forall a :: a in args ==> Derived(a)
    ensures ArgumentList(YieldArgs(args) + ([TokPunct(")")] + rest)) == Yes(Trees(args), rest)
    decreases args, 3
  {
    var close := [TokPunct(")")] + rest;
    if |args| == 1 {
      Complete(TERNARY, args[0], close);
      assert YieldArgs(args) == Yield(args[0]);
      assert Trees(args) == [Tree(args[0])] by {
        assert args[1..] == [];
      }
      assert close[1..] == rest;
      assert ArgumentList(Yield(args[0]) + close) == Yes([Tree(args[0])], rest);
    } else {
      var more := YieldArgs(args[1..]) + close;
      assert YieldArgs(args) + close == Yield(args[0]) + ([TokPunct(",")] + more);
      Complete(TERNARY, args[0], [TokPunct(",")] + more);
      assert ([TokPunct(",")] + more)[1..] == more;
      CompleteArgumentList(args[1..], rest);
    }
  }

  lemma {:induction false} CompletePrimary(c: Phrase, rest: seq<Token>)
    requires Derived(c) && Level(c) == PRIMARY
    ensures ReadPrimary(Yield(c) + rest) == Yes(Tree(c), rest)
    decreases c, 3
  {
    if c.Paren? {
      var close := [TokPunct(")")] + rest;
      assert (Yield(c) + rest)[1..] == Yield(c.inner) + close;
      Complete(TERNARY, c.inner, close);
      assert close[1..] == rest;
    } else {
      assert (Yield(c) + rest)[1..] == rest;
    }
  }

  // ---- The main results ----

  /** The parser reads all of `ts` as `n` exactly when the grammar derives `n` from `ts`. */
  lemma ParserMeetsGrammar(ts: seq<Token>, n: Node)
    ensures Expression(TERNARY, ts) == Yes(n, []) <==> exists c :: Derived(c) && Yield(c) == ts && Tree(c) == n
  {
    if Expression(TERNARY, ts) == Yes(n, []) {
      var c := ExpressionSound(TERNARY, ts);
      assert Yield(c) + [] == Yield(c);
    }
    if c :| Derived(c) && Yield(c) == ts && Tree(c) == n {
      Complete(TERNARY, c, []);
      assert Yield(c) + [] == ts;
    }
  }

  /** The grammar gives a token list at most one syntax tree. */
  lemma Unambiguous(c: Phrase, d: Phrase)
    requires Derived(c) && Derived(d) && Yield(c) == Yield(d)
    ensures Tree(c) == Tree(d)
  {
    ParserMeetsGrammar(Yield(c), Tree(c));
    ParserMeetsGrammar(Yield(c), Tree(d));
  }
}
