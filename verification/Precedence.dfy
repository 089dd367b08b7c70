/** The operators of the expression language, row by row. */
module Precedence {
  import opened Lexer
  import opened Parser
  import opened Grammar
  import opened Pipelines

  // The table at the head of api/pkg/expr/parser.go as a grammar of its own: which tree a list of tokens stands for by
  // each row. It mentions neither the parser nor its phrases, and the parser reads exactly what it derives.

  /** The binary operators, row by row, the loosest first. */
  const ROWS: seq<seq<string>> := [
    ["||"],
    ["&&"],
    ["==", "!="],
    ["<", ">", "<=", ">="],
    ["+", "-"],
    ["*", "/", "%"]]

  /** The tokens between the brackets, when `ts` is closed by `op`. */
  predicate ClosedBy(ts: seq<Token>, op: string) {
    ts != [] && ts[|ts| - 1] == TokPunct(op)
  }

  /** `ts` stands for `n` by rule `k`: 0 is ternary, 1 to 6 are the rows of binary operators, 7 is unary, 8 postfix
      and 9 primary. What stands for a tree by one rule does so by every rule before it. */
  ghost predicate Derives(k: nat, ts: seq<Token>, n: Node)
    requires k <= 9
    decreases |ts|, 9 - k
  {
    || (k < 9 && Derives(k + 1, ts, n))
    || (k == 9 && |ts| > 1 && ts[0] == TokPunct("(") && ClosedBy(ts, ")") && Derives(0, ts[1..|ts| - 1], n))
    || match n
       case Ternary(cond, yes, no) =>
         k == 0 && exists i, j ::
           && 0 <= i < j < |ts| && ts[i] == TokPunct("?") && ts[j] == TokPunct(":")
           && Derives(1, ts[..i], cond) && Derives(0, ts[i + 1..j], yes) && Derives(0, ts[j + 1..], no)
       case Binary(op, left, right) =>
         1 <= k <= 6 && op in ROWS[k - 1] && exists i ::
           && 0 <= i < |ts| && ts[i] == TokPunct(op)
           && Derives(k, ts[..i], left) && Derives(k + 1, ts[i + 1..], right)
       case Unary(op, right) =>
         k == 7 && op in ["!", "-"] && ts != [] && ts[0] == TokPunct(op) && Derives(7, ts[1..], right)
       case Member(left, name) =>
         && k == 8 && |ts| > 1 && ts[|ts| - 2..] == [TokPunct("."), TokIdent(name)]
         && Derives(8, ts[..|ts| - 2], left)
       case Subscript(left, index) =>
         k == 8 && ClosedBy(ts, "]") && exists i ::
           && 0 <= i < |ts| - 1 && ts[i] == TokPunct("[")
           && Derives(8, ts[..i], left) && Derives(0, ts[i + 1..|ts| - 1], index)
       case Call(name, args) =>
         k == 8 && ClosedBy(ts, ")") && exists i, f: Node ::
           && 0 <= i < |ts| - 1 && ts[i] == TokPunct("(")
           && (f.Ident? || f.Member?) && FlattenName(f) == name
           && Derives(8, ts[..i], f) && DerivesAll(ts[i + 1..|ts| - 1], args)
       case Ident(name) => k == 9 && ts == [TokIdent(name)]
       case Literal(Number(text)) => k == 9 && ts == [TokNumber(text)]
       case Literal(Characters(value)) => k == 9 && ts == [TokString(value)]
       case Literal(Truth(truth)) => k == 9 && ts == [TokBool(truth)]
       case Literal(Nothing) => k == 9 && ts == [TokNull]
  }

  /** `ts` stands for the arguments `args`, with commas between them. */
  ghost predicate DerivesAll(ts: seq<Token>, args: seq<Node>)
    decreases |ts|, 10
  {
    if args == [] then ts == []
    else if |args| == 1 then Derives(0, ts, args[0])
    else
      exists i ::
        && 0 <= i < |ts| && ts[i] == TokPunct(",")
        && Derives(0, ts[..i], args[0]) && DerivesAll(ts[i + 1..], args[1..])
  }

  lemma RowLevel(op: string, k: nat)
    requires 1 <= k <= 6
    ensures op in ROWS[k - 1] <==> BinaryLevel(op) == k
  {
  }

  // ---- What is derived has a phrase ----

  /** `c` is a phrase of rule `k` with these tokens and this tree. */
  ghost predicate Stands(c: Phrase, k: nat, ts: seq<Token>, n: Node) {
    Derived(c) && Level(c) >= k && Yield(c) == ts && Tree(c) == n
  }

  lemma StandsUp(c: Phrase, k: nat, ts: seq<Token>, n: Node)
    requires Stands(c, k + 1, ts, n)
    ensures Stands(c, k, ts, n)
  {
  }

  lemma {:induction false} PhraseOf(k: nat, ts: seq<Token>, n: Node) returns (c: Phrase)
    requires k <= 9 && Derives(k, ts, n)
    ensures Stands(c, k, ts, n)
    decreases |ts|, 9 - k
  {
    hide Stands;
    if k < 9 && Derives(k + 1, ts, n) {
      c := PhraseOf(k + 1, ts, n);
      StandsUp(c, k, ts, n);
    } else if k == 9 && |ts| > 1 && ts[0] == TokPunct("(") && ClosedBy(ts, ")") && Derives(0, ts[1..|ts| - 1], n) {
      var inner := PhraseOf(0, ts[1..|ts| - 1], n);
      c := Paren(inner);
      ParenStands(inner, ts, n);
    } else {
      match n
      case Ternary(_, _, _) =>
        c := ChoicePhrase(k, ts, n);
      case Binary(op, left, right) =>
        var i :| 0 <= i < |ts| && ts[i] == TokPunct(op) &&
          Derives(k, ts[..i], left) && Derives(k + 1, ts[i + 1..], right);
        var x := PhraseOf(k, ts[..i], left);
        var y := PhraseOf(k + 1, ts[i + 1..], right);
        c := Infix(op, x, y);
        InfixStands(x, y, k, ts, i, n);
      case Unary(op, right) =>
        var x := PhraseOf(7, ts[1..], right);
        c := Prefix(op, x);
        PrefixStands(x, ts, n);
      case Member(left, name) =>
        var x := PhraseOf(8, ts[..|ts| - 2], left);
        c := Dot(x, name);
        DotStands(x, ts, n);
      case Subscript(left, index) =>
        var i :| 0 <= i < |ts| - 1 && ts[i] == TokPunct("[") &&
          Derives(8, ts[..i], left) && Derives(0, ts[i + 1..|ts| - 1], index);
        var x := PhraseOf(8, ts[..i], left);
        var y := PhraseOf(0, ts[i + 1..|ts| - 1], index);
        c := Bracket(x, y);
        BracketStands(x, y, ts, i, n);
      case Call(_, _) =>
        c := CallPhrase(k, ts, n);
      case _ =>
        c := Atom(ts[0]);
        AtomStands(ts, n);
    }
  }

  lemma {:induction false} ChoicePhrase(k: nat, ts: seq<Token>, n: Node) returns (c: Phrase)
    requires k == 0 && Derives(k, ts, n) && !Derives(1, ts, n) && n.Ternary?
    ensures Stands(c, k, ts, n)
    decreases |ts|, 0
  {
    var i, j :| 0 <= i < j < |ts| && ts[i] == TokPunct("?") && ts[j] == TokPunct(":") &&
      Derives(1, ts[..i], n.cond) && Derives(0, ts[i + 1..j], n.yes) && Derives(0, ts[j + 1..], n.no);
    hide Stands, Derives;
    var x := PhraseOf(1, ts[..i], n.cond);
    var y := PhraseOf(0, ts[i + 1..j], n.yes);
    var z := PhraseOf(0, ts[j + 1..], n.no);
    c := Choice(x, y, z);
    ChoiceStands(x, y, z, ts, i, j, n);
  }

  lemma {:induction false} CallPhrase(k: nat, ts: seq<Token>, n: Node) returns (c: Phrase)
    requires k == 8 && Derives(k, ts, n) && !Derives(9, ts, n) && n.Call?
    ensures Stands(c, k, ts, n)
    decreases |ts|, 0
  {
    var i, f: Node :| 0 <= i < |ts| - 1 && ts[i] == TokPunct("(") && (f.Ident? || f.Member?) &&
      FlattenName(f) == n.name && Derives(8, ts[..i], f) && DerivesAll(ts[i + 1..|ts| - 1], n.args);
    hide Stands, Derives, DerivesAll;
    var x := PhraseOf(8, ts[..i], f);
    var ys := PhrasesOf(ts[i + 1..|ts| - 1], n.args);
    c := Apply(x, ys);
    ApplyStands(x, ys, ts, i, f, n);
  }

  ghost predicate AllStand(cs: seq<Phrase>, ts: seq<Token>, args: seq<Node>) {
    (forall c :: c in cs ==> Derived(c)) && YieldArgs(cs) == ts && Trees(cs) == args
  }

  lemma {:induction false} PhrasesOf(ts: seq<Token>, args: seq<Node>) returns (cs: seq<Phrase>)
    requires DerivesAll(ts, args)
    ensures AllStand(cs, ts, args)
    decreases |ts|, 10
  {
    hide Stands, AllStand;
    if args == [] {
      cs := [];
      NoneStand();
    } else if |args| == 1 {
      var c := PhraseOf(0, ts, args[0]);
      cs := [c];
      OneStands(c, ts, args);
    } else {
      var i :| 0 <= i < |ts| && ts[i] == TokPunct(",") &&
        Derives(0, ts[..i], args[0]) && DerivesAll(ts[i + 1..], args[1..]);
      var c := PhraseOf(0, ts[..i], args[0]);
      var more := PhrasesOf(ts[i + 1..], args[1..]);
      cs := [c] + more;
      FirstStands(c, more, ts, i, args);
    }
  }

  lemma FirstStands(c: Phrase, more: seq<Phrase>, ts: seq<Token>, i: nat, args: seq<Node>)
    requires |args| > 1 && i < |ts| && ts[i] == TokPunct(",")
    requires Stands(c, 0, ts[..i], args[0]) && AllStand(more, ts[i + 1..], args[1..])
    ensures AllStand([c] + more, ts, args)
  {
    var cs := [c] + more;
    hide Derived, Level, Tree;
    assert |more| == |args| - 1;
    assert cs[1..] == more;
    assert ts == ts[..i] + [ts[i]] + ts[i + 1..];
    assert args == [args[0]] + args[1..];
  }

  lemma NoneStand()
    ensures AllStand([], [], [])
  {
  }

  lemma OneStands(c: Phrase, ts: seq<Token>, args: seq<Node>)
    requires |args| == 1 && Stands(c, 0, ts, args[0])
    ensures AllStand([c], ts, args)
  {
    assert Trees([c][1..]) == [];
    assert args == [args[0]];
  }

  lemma ParenStands(inner: Phrase, ts: seq<Token>, n: Node)
    requires |ts| > 1 && ts[0] == TokPunct("(") && ClosedBy(ts, ")") && Stands(inner, 0, ts[1..|ts| - 1], n)
    ensures Stands(Paren(inner), 9, ts, n)
  {
    assert ts == [ts[0]] + ts[1..|ts| - 1] + [ts[|ts| - 1]];
  }

  lemma ChoiceStands(x: Phrase, y: Phrase, z: Phrase, ts: seq<Token>, i: nat, j: nat, n: Node)
    requires i < j < |ts| && ts[i] == TokPunct("?") && ts[j] == TokPunct(":") && n.Ternary?
    requires Stands(x, 1, ts[..i], n.cond) && Stands(y, 0, ts[i + 1..j], n.yes) && Stands(z, 0, ts[j + 1..], n.no)
    ensures Stands(Choice(x, y, z), 0, ts, n)
  {
    assert ts == ts[..i] + [ts[i]] + ts[i + 1..j] + [ts[j]] + ts[j + 1..];
  }

  lemma InfixStands(x: Phrase, y: Phrase, k: nat, ts: seq<Token>, i: nat, n: Node)
    requires n.Binary? && 1 <= k <= 6 && n.op in ROWS[k - 1] && i < |ts| && ts[i] == TokPunct(n.op)
    requires Stands(x, k, ts[..i], n.left) && Stands(y, k + 1, ts[i + 1..], n.right)
    ensures Stands(Infix(n.op, x, y), k, ts, n)
  {
    RowLevel(n.op, k);
    assert ts == ts[..i] + [ts[i]] + ts[i + 1..];
  }

  lemma PrefixStands(x: Phrase, ts: seq<Token>, n: Node)
    requires n.Unary? && n.op in ["!", "-"] && ts != [] && ts[0] == TokPunct(n.op) && Stands(x, 7, ts[1..], n.right)
    ensures Stands(Prefix(n.op, x), 7, ts, n)
  {
    assert ts == [ts[0]] + ts[1..];
  }

  lemma DotStands(x: Phrase, ts: seq<Token>, n: Node)
    requires n.Member? && |ts| > 1 && ts[|ts| - 2..] == [TokPunct("."), TokIdent(n.name)]
    requires Stands(x, 8, ts[..|ts| - 2], n.left)
    ensures Stands(Dot(x, n.name), 8, ts, n)
  {
    assert ts == ts[..|ts| - 2] + ts[|ts| - 2..];
  }

  lemma BracketStands(x: Phrase, y: Phrase, ts: seq<Token>, i: nat, n: Node)
    requires n.Subscript? && ClosedBy(ts, "]") && i < |ts| - 1 && ts[i] == TokPunct("[")
    requires Stands(x, 8, ts[..i], n.left) && Stands(y, 0, ts[i + 1..|ts| - 1], n.index)
    ensures Stands(Bracket(x, y), 8, ts, n)
  {
    assert ts == ts[..i] + [ts[i]] + ts[i + 1..|ts| - 1] + [ts[|ts| - 1]];
  }

  lemma ApplyStands(x: Phrase, ys: seq<Phrase>, ts: seq<Token>, i: nat, f: Node, n: Node)
    requires n.Call? && ClosedBy(ts, ")") && i < |ts| - 1 && ts[i] == TokPunct("(")
    requires (f.Ident? || f.Member?) && FlattenName(f) == n.name
    requires Stands(x, 8, ts[..i], f) && AllStand(ys, ts[i + 1..|ts| - 1], n.args)
    ensures Stands(Apply(x, ys), 8, ts, n)
  {
    assert ts == ts[..i] + [ts[i]] + ts[i + 1..|ts| - 1] + [ts[|ts| - 1]];
  }

  lemma AtomStands(ts: seq<Token>, n: Node)
    requires n.Ident? || n.Literal?
    requires ts == match n
                   case Ident(name) => [TokIdent(name)]
                   case Literal(Number(text)) => [TokNumber(text)]
                   case Literal(Characters(value)) => [TokString(value)]
                   case Literal(Truth(truth)) => [TokBool(truth)]
                   case _ => [TokNull]
    ensures Stands(Atom(ts[0]), 9, ts, n)
  {
  }

  // ---- Putting lists together ----

  predicate InRow(op: string, row: nat) {
    row < |ROWS| && op in ROWS[row]
  }

  lemma BinaryDerives(row: nat, a: seq<Token>, x: Node, op: string, b: seq<Token>, y: Node)
    requires InRow(op, row) && Derives(row + 1, a, x) && Derives(row + 2, b, y)
    ensures Derives(row + 1, a + [TokPunct(op)] + b, Binary(op, x, y))
  {
    var ts, i := a + [TokPunct(op)] + b, |a|;
    assert ts[i] == TokPunct(op) && ts[..i] == a && ts[i + 1..] == b;
  }

  lemma PickDerives(a: seq<Token>, x: Node, b: seq<Token>, y: Node, c: seq<Token>, z: Node)
    requires Derives(1, a, x) && Derives(0, b, y) && Derives(0, c, z)
    ensures Derives(0, a + [TokPunct("?")] + b + [TokPunct(":")] + c, Ternary(x, y, z))
  {
    var ts, i, j := a + [TokPunct("?")] + b + [TokPunct(":")] + c, |a|, |a| + 1 + |b|;
    assert ts[i] == TokPunct("?") && ts[j] == TokPunct(":");
    assert ts[..i] == a && ts[i + 1..j] == b && ts[j + 1..] == c;
  }

  lemma UnaryDerives(op: string, a: seq<Token>, x: Node)
    requires op in ["!", "-"] && Derives(7, a, x)
    ensures Derives(7, [TokPunct(op)] + a, Unary(op, x))
  {
    assert ([TokPunct(op)] + a)[1..] == a;
  }

  lemma MemberDerives(a: seq<Token>, x: Node, name: string)
    requires Derives(8, a, x)
    ensures Derives(8, a + [TokPunct("."), TokIdent(name)], Member(x, name))
  {
    var ts := a + [TokPunct("."), TokIdent(name)];
    assert ts[..|ts| - 2] == a && ts[|ts| - 2..] == [TokPunct("."), TokIdent(name)];
  }

  lemma IndexDerives(a: seq<Token>, x: Node, b: seq<Token>, y: Node)
    requires Derives(8, a, x) && Derives(0, b, y)
    ensures Derives(8, a + [TokPunct("[")] + b + [TokPunct("]")], Subscript(x, y))
  {
    var ts, i := a + [TokPunct("[")] + b + [TokPunct("]")], |a|;
    assert ts[i] == TokPunct("[") && ts[..i] == a && ts[i + 1..|ts| - 1] == b;
  }

  lemma CallDerives(a: seq<Token>, f: Node, b: seq<Token>, args: seq<Node>)
    requires Callable(f) && Derives(8, a, f) && DerivesAll(b, args)
    ensures Derives(8, a + [TokPunct("(")] + b + [TokPunct(")")], Call(FlattenName(f), args))
  {
    var ts, i := a + [TokPunct("(")] + b + [TokPunct(")")], |a|;
    assert ts[i] == TokPunct("(") && ts[..i] == a && ts[i + 1..|ts| - 1] == b;
    hide FlattenName, DerivesAll;
  }

  // ---- What a phrase stands for is derived ----

  lemma {:induction false} PhraseDerives(k: nat, c: Phrase)
    requires k <= Level(c) && Derived(c)
    ensures Derives(k, Yield(c), Tree(c))
    decreases c, 9 - k
  {
    hide Derives, DerivesAll, Yield, YieldArgs, Tree, Trees, BinaryLevel, IsPrefix, IsAtom;
    if k < Level(c) {
      PhraseDerives(k + 1, c);
      DerivesUp(k, k + 1, Yield(c), Tree(c));
    } else {
      match c
      case Atom(_) =>
        AtomDerives(c);
      case Paren(inner) =>
        PhraseDerives(0, inner);
        ParenDerives(c);
      case Dot(left, _) =>
        PhraseDerives(8, left);
        DotDerives(c);
      case Bracket(left, index) =>
        PhraseDerives(8, left);
        PhraseDerives(0, index);
        BracketDerives(c);
      case Apply(left, args) =>
        PhraseDerives(8, left);
        PhrasesDerive(args);
        ApplyDerives(c);
      case Prefix(_, right) =>
        PhraseDerives(7, right);
        PrefixDerives(c);
      case Infix(op, left, right) =>
        PhraseDerives(k, left);
        PhraseDerives(k + 1, right);
        InfixDerives(c);
      case Choice(cond, yes, no) =>
        PhraseDerives(1, cond);
        PhraseDerives(0, yes);
        PhraseDerives(0, no);
        ChoiceDerives(c);
    }
  }

  lemma AtomDerives(c: Phrase)
    requires c.Atom? && IsAtom(c.token)
    ensures Derives(9, Yield(c), Tree(c))
  {
  }

  lemma ParenDerives(c: Phrase)
    requires c.Paren? && Derives(0, Yield(c.inner), Tree(c.inner))
    ensures Derives(9, Yield(c), Tree(c))
  {
    assert Yield(c)[1..|Yield(c)| - 1] == Yield(c.inner);
  }

  lemma PrefixDerives(c: Phrase)
    requires c.Prefix? && IsPrefix(c.op) && Derives(7, Yield(c.right), Tree(c.right))
    ensures Derives(7, Yield(c), Tree(c))
  {
    hide Derives;
    UnaryDerives(c.op, Yield(c.right), Tree(c.right));
  }

  lemma DotDerives(c: Phrase)
    requires c.Dot? && Derives(8, Yield(c.left), Tree(c.left))
    ensures Derives(8, Yield(c), Tree(c))
  {
    hide Derives;
    MemberDerives(Yield(c.left), Tree(c.left), c.name);
  }

  lemma InfixDerives(c: Phrase)
    requires c.Infix? && 0 < BinaryLevel(c.op) <= 6
    requires Derives(BinaryLevel(c.op), Yield(c.left), Tree(c.left))
    requires Derives(BinaryLevel(c.op) + 1, Yield(c.right), Tree(c.right))
    ensures Derives(BinaryLevel(c.op), Yield(c), Tree(c))
  {
    RowLevel(c.op, BinaryLevel(c.op));
    hide Derives, BinaryLevel;
    BinaryDerives(BinaryLevel(c.op) - 1, Yield(c.left), Tree(c.left), c.op, Yield(c.right), Tree(c.right));
  }

  lemma ChoiceDerives(c: Phrase)
    requires c.Choice? && Derives(1, Yield(c.cond), Tree(c.cond))
    requires Derives(0, Yield(c.yes), Tree(c.yes)) && Derives(0, Yield(c.no), Tree(c.no))
    ensures Derives(0, Yield(c), Tree(c))
  {
    hide Derives;
    PickDerives(Yield(c.cond), Tree(c.cond), Yield(c.yes), Tree(c.yes), Yield(c.no), Tree(c.no));
  }

  lemma BracketDerives(c: Phrase)
    requires c.Bracket? && Derives(8, Yield(c.left), Tree(c.left)) && Derives(0, Yield(c.index), Tree(c.index))
    ensures Derives(8, Yield(c), Tree(c))
  {
    hide Derives;
    IndexDerives(Yield(c.left), Tree(c.left), Yield(c.index), Tree(c.index));
  }

  lemma ApplyDerives(c: Phrase)
    requires c.Apply? && Callable(Tree(c.left)) && Derives(8, Yield(c.left), Tree(c.left))
    requires DerivesAll(YieldArgs(c.args), Trees(c.args))
    ensures Derives(8, Yield(c), Tree(c))
  {
    hide Derives, DerivesAll;
    CallDerives(Yield(c.left), Tree(c.left), YieldArgs(c.args), Trees(c.args));
  }

  lemma {:induction false} PhrasesDerive(args: seq<Phrase>)
    requires forall a :: a in args ==> Derived(a)
    ensures DerivesAll(YieldArgs(args), Trees(args))
    decreases args, 0
  {
    if args != [] {
      PhraseDerives(0, args[0]);
      if |args| > 1 {
        PhrasesDerive(args[1..]);
        var ts, i := YieldArgs(args), |Yield(args[0])|;
        assert ts[i] == TokPunct(",") && ts[..i] == Yield(args[0]) && ts[i + 1..] == YieldArgs(args[1..]);
        assert Trees(args)[1..] == Trees(args[1..]);
      }
    }
  }

  // ---- The parser ----

  /** The parser reads all of `ts` as `n` exactly when the table derives `n` from `ts`. */
  lemma ParserMeetsTable(ts: seq<Token>, n: Node)
    ensures Expression(TERNARY, ts) == Yes(n, []) <==> Derives(0, ts, n)
  {
    hide Expression, Derives, Derived;
    ParserMeetsGrammar(ts, n);
    if Expression(TERNARY, ts) == Yes(n, []) {
      var c :| Derived(c) && Yield(c) == ts && Tree(c) == n;
      PhraseDerives(0, c);
    }
    if Derives(0, ts, n) {
      var c := PhraseOf(0, ts, n);
      assert Derived(c) && Yield(c) == ts && Tree(c) == n;
    }
  }

  /** What a text means: the tree that the table derives from its tokens. */
  lemma AcceptsTable(src: string, n: Node)
    ensures Accepts(src) == Some(n) <==> Lex(src).Some? && Derives(0, Lex(src).value, n)
  {
    hide Derives, Expression, Lex;
    if Lex(src).Some? {
      ParserMeetsTable(Lex(src).value, n);
    }
  }

  // ---- What binds tighter ----

  lemma {:induction false} DerivesUp(k: nat, j: nat, ts: seq<Token>, n: Node)
    requires k <= j <= 9 && Derives(j, ts, n)
    ensures Derives(k, ts, n)
    decreases j - k
  {
    if k < j {
      DerivesUp(k + 1, j, ts, n);
    }
  }

  /** Two binary operators between operands without binary operators of their own: the second one takes the middle
      operand exactly if it is in a later row. */
  lemma TwoOperators(src: string, a: seq<Token>, x: Node, op1: string, row1: nat, b: seq<Token>, y: Node,
                     op2: string, row2: nat, c: seq<Token>, z: Node)
    requires Derives(7, a, x) && Derives(7, b, y) && Derives(7, c, z) && InRow(op1, row1) && InRow(op2, row2)
    requires Lex(src) == Some(a + [TokPunct(op1)] + b + [TokPunct(op2)] + c)
    ensures Accepts(src) == Some(
              if row1 < row2 then Binary(op1, x, Binary(op2, y, z)) else Binary(op2, Binary(op1, x, y), z))
  {
    hide Derives, Lex, Accepts, InRow;
    var ts := a + [TokPunct(op1)] + b + [TokPunct(op2)] + c;
    InRows(op1, row1);
    InRows(op2, row2);
    if row1 < row2 {
      GroupsRight(a, x, op1, row1, b, y, op2, row2, c, z);
      DerivesUp(0, row1 + 1, ts, Binary(op1, x, Binary(op2, y, z)));
      AcceptsTable(src, Binary(op1, x, Binary(op2, y, z)));
    } else {
      GroupsLeft(a, x, op1, row1, b, y, op2, row2, c, z);
      DerivesUp(0, row2 + 1, ts, Binary(op2, Binary(op1, x, y), z));
      AcceptsTable(src, Binary(op2, Binary(op1, x, y), z));
    }
  }

  lemma GroupsRight(a: seq<Token>, x: Node, op1: string, row1: nat, b: seq<Token>, y: Node,
                    op2: string, row2: nat, c: seq<Token>, z: Node)
    requires Derives(7, a, x) && Derives(7, b, y) && Derives(7, c, z) && InRow(op1, row1) && InRow(op2, row2)
    requires row1 < row2 < 6
    ensures Derives(row1 + 1, a + [TokPunct(op1)] + b + [TokPunct(op2)] + c, Binary(op1, x, Binary(op2, y, z)))
  {
    hide Derives, InRow;
    DerivesUp(row1 + 1, 7, a, x);
    DerivesUp(row2 + 1, 7, b, y);
    DerivesUp(row2 + 2, 7, c, z);
    BinaryDerives(row2, b, y, op2, c, z);
    DerivesUp(row1 + 2, row2 + 1, b + [TokPunct(op2)] + c, Binary(op2, y, z));
    BinaryDerives(row1, a, x, op1, b + [TokPunct(op2)] + c, Binary(op2, y, z));
    assert a + [TokPunct(op1)] + (b + [TokPunct(op2)] + c) == a + [TokPunct(op1)] + b + [TokPunct(op2)] + c;
  }

  lemma GroupsLeft(a: seq<Token>, x: Node, op1: string, row1: nat, b: seq<Token>, y: Node,
                   op2: string, row2: nat, c: seq<Token>, z: Node)
    requires Derives(7, a, x) && Derives(7, b, y) && Derives(7, c, z) && InRow(op1, row1) && InRow(op2, row2)
    requires row2 <= row1 < 6
    ensures Derives(row2 + 1, a + [TokPunct(op1)] + b + [TokPunct(op2)] + c, Binary(op2, Binary(op1, x, y), z))
  {
    hide Derives, InRow;
    DerivesUp(row1 + 1, 7, a, x);
    DerivesUp(row1 + 2, 7, b, y);
    DerivesUp(row2 + 2, 7, c, z);
    BinaryDerives(row1, a, x, op1, b, y);
    DerivesUp(row2 + 1, row1 + 1, a + [TokPunct(op1)] + b, Binary(op1, x, y));
    BinaryDerives(row2, a + [TokPunct(op1)] + b, Binary(op1, x, y), op2, c, z);
  }

  lemma InRows(op: string, row: nat)
    requires InRow(op, row)
    ensures row < 6
  {
  }

  /** A prefix operator takes its operand before any binary operator does, also as a right operand. */
  lemma PrefixBindsTighter(src: string, prefix: string, a: seq<Token>, x: Node, op: string, row: nat,
                           prefix': string, b: seq<Token>, y: Node)
    requires prefix in ["!", "-"] && prefix' in ["!", "-"] && InRow(op, row) && Derives(7, a, x) && Derives(7, b, y)
    requires Lex(src) == Some([TokPunct(prefix)] + a + [TokPunct(op)] + ([TokPunct(prefix')] + b))
    ensures Accepts(src) == Some(Binary(op, Unary(prefix, x), Unary(prefix', y)))
  {
    hide Derives, Lex, Accepts, InRow;
    InRows(op, row);
    var ts, ts' := [TokPunct(prefix)] + a, [TokPunct(prefix')] + b;
    UnaryDerives(prefix, a, x);
    UnaryDerives(prefix', b, y);
    DerivesUp(row + 1, 7, ts, Unary(prefix, x));
    DerivesUp(row + 2, 7, ts', Unary(prefix', y));
    BinaryDerives(row, ts, Unary(prefix, x), op, ts', Unary(prefix', y));
    DerivesUp(0, row + 1, ts + [TokPunct(op)] + ts', Binary(op, Unary(prefix, x), Unary(prefix', y)));
    AcceptsTable(src, Binary(op, Unary(prefix, x), Unary(prefix', y)));
  }

  /** A condition extends to the left over every binary operator, its last branch to the right. */
  lemma ChoiceBindsLooser(src: string, a: seq<Token>, x: Node, op1: string, row1: nat, b: seq<Token>, y: Node,
                          yes: seq<Token>, u: Node,
                          c: seq<Token>, z: Node, op2: string, row2: nat, d: seq<Token>, w: Node)
    requires Derives(7, a, x) && Derives(7, b, y) && Derives(0, yes, u) && Derives(7, c, z) && Derives(7, d, w)
    requires InRow(op1, row1) && InRow(op2, row2)
    requires Lex(src) == Some(a + [TokPunct(op1)] + b + [TokPunct("?")] + yes + [TokPunct(":")] +
                              (c + [TokPunct(op2)] + d))
    ensures Accepts(src) == Some(Ternary(Binary(op1, x, y), u, Binary(op2, z, w)))
  {
    hide Derives, Lex, Accepts, InRow;
    RowDerives(a, x, op1, row1, b, y);
    RowDerives(c, z, op2, row2, d, w);
    var cond, no := a + [TokPunct(op1)] + b, c + [TokPunct(op2)] + d;
    DerivesUp(0, 1, no, Binary(op2, z, w));
    PickDerives(cond, Binary(op1, x, y), yes, u, no, Binary(op2, z, w));
    AcceptsTable(src, Ternary(Binary(op1, x, y), u, Binary(op2, z, w)));
  }

  lemma RowDerives(a: seq<Token>, x: Node, op: string, row: nat, b: seq<Token>, y: Node)
    requires InRow(op, row) && Derives(7, a, x) && Derives(7, b, y)
    ensures Derives(1, a + [TokPunct(op)] + b, Binary(op, x, y))
  {
    hide Derives;
    DerivesUp(row + 1, 7, a, x);
    DerivesUp(row + 2, 7, b, y);
    BinaryDerives(row, a, x, op, b, y);
    DerivesUp(1, row + 1, a + [TokPunct(op)] + b, Binary(op, x, y));
  }

  /** No other text is an operator. */
  lemma {:induction false} OnlyTheseOperators(k: nat, ts: seq<Token>, n: Node)
    requires k <= 9 && Derives(k, ts, n)
    ensures n.Binary? ==> exists row :: InRow(n.op, row)
    ensures n.Unary? ==> n.op in ["!", "-"]
    decreases |ts|, 9 - k
  {
    if k < 9 && Derives(k + 1, ts, n) {
      OnlyTheseOperators(k + 1, ts, n);
    } else if k == 9 && |ts| > 1 && ts[0] == TokPunct("(") && ClosedBy(ts, ")") && Derives(0, ts[1..|ts| - 1], n) {
      OnlyTheseOperators(0, ts[1..|ts| - 1], n);
    } else if n.Binary? {
      assert InRow(n.op, k - 1);
    }
  }
}
