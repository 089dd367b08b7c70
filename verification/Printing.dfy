/** Printing a syntax tree so that the lexer and the parser give the same tree back. */
module Printing {
  import opened Grammar
  import opened Lexer
  import opened Parser
  import opened Pipelines

  // ---- Names of calls ----

  predicate IsName(s: string) {
    Word(s) && !Reserved(s)
  }

  function LastDot(s: string): (p: nat)
    requires '.' in s
    ensures p < |s| && s[p] == '.' && '.' !in s[p + 1..]
  {
    var n := |s| - 1;
    if s[n] == '.' then n else
      assert s == s[..n] + [s[n]];
      LastDot(s[..n])
  }

  /** The names a call can have: identifiers joined by dots, where the first may be missing if another follows. */
  predicate CallName(s: string) {
    if '.' !in s then IsName(s)
    else IsName(s[LastDot(s) + 1..]) && (LastDot(s) == 0 || CallName(s[..LastDot(s)]))
  }

  /** The shortest callee with the name `s`. A missing first identifier is any phrase without a name. */
  function Callee(s: string): Phrase
    requires CallName(s)
  {
    if '.' !in s then Atom(TokIdent(s))
    else Dot(if LastDot(s) == 0 then Atom(TokNull) else Callee(s[..LastDot(s)]), s[LastDot(s) + 1..])
  }

  // ---- Printing ----

  /** The trees that some text parses to. */
  predicate Printable(n: Node) {
    match n
    case Literal(Number(text)) => Numeral(text) && Fits(text)
    case Literal(Characters(value)) => '\'' !in value || '"' !in value
    case Literal(_) => true
    case Ident(name) => IsName(name)
    case Member(left, name) => Printable(left) && IsName(name)
    case Subscript(left, index) => Printable(left) && Printable(index)
    case Unary(op, right) => IsPrefix(op) && Printable(right)
    case Binary(op, left, right) => BinaryLevel(op) > 0 && Printable(left) && Printable(right)
    case Ternary(cond, yes, no) => Printable(cond) && Printable(yes) && Printable(no)
    case Call(name, args) => CallName(name) && forall a :: a in args ==> Printable(a)
  }

  /** Parentheses, where the precedence table needs them. */
  function Wrap(k: nat, c: Phrase): Phrase {
    if Level(c) >= k then c else Paren(c)
  }

  function Print(n: Node): Phrase
    requires Printable(n)
  {
    match n
    case Literal(Number(text)) => Atom(TokNumber(text))
    case Literal(Characters(value)) => Atom(TokString(value))
    case Literal(Truth(truth)) => Atom(TokBool(truth))
    case Literal(Nothing) => Atom(TokNull)
    case Ident(name) => Atom(TokIdent(name))
    case Member(left, name) => Dot(Wrap(POSTFIX, Print(left)), name)
    case Subscript(left, index) => Bracket(Wrap(POSTFIX, Print(left)), Print(index))
    case Unary(op, right) => Prefix(op, Wrap(UNARY, Print(right)))
    case Binary(op, left, right) =>
      Infix(op, Wrap(BinaryLevel(op), Print(left)), Wrap(BinaryLevel(op) + 1, Print(right)))
    case Ternary(cond, yes, no) => Choice(Wrap(TERNARY + 1, Print(cond)), Print(yes), Print(no))
    case Call(name, args) => Apply(Callee(name), PrintAll(args))
  }

  function PrintAll(args: seq<Node>): (r: seq<Phrase>)
    requires forall a :: a in args ==> Printable(a)
    ensures |r| == |args|
  {
    if args == [] then [] else [Print(args[0])] + PrintAll(args[1..])
  }

  function PrintText(n: Node): string
    requires Printable(n)
  {
    Text(Yield(Print(n)))
  }

  // ---- What is printed has the tree it was printed from ----

  lemma {:induction false} CalleeDerived(s: string)
    requires CallName(s)
    ensures Derived(Callee(s)) && Level(Callee(s)) >= POSTFIX
    ensures Callable(Tree(Callee(s))) && FlattenName(Tree(Callee(s))) == s
  {
    if '.' in s {
      var p := LastDot(s);
      if p > 0 {
        CalleeDerived(s[..p]);
      }
      assert s == s[..p] + "." + s[p + 1..];
    }
  }

  lemma Wrapped(k: nat, c: Phrase)
    requires k <= PRIMARY && Derived(c)
    ensures var w := Wrap(k, c);
            Derived(w) && Level(w) >= k && Tree(w) == Tree(c)
  {
  }

  lemma InfixDerived(op: string, left: Phrase, right: Phrase)
    requires BinaryLevel(op) > 0 && Derived(left) && Derived(right)
    ensures var c := Infix(op, Wrap(BinaryLevel(op), left), Wrap(BinaryLevel(op) + 1, right));
            Derived(c) && Tree(c) == Binary(op, Tree(left), Tree(right))
  {
    Wrapped(BinaryLevel(op), left);
    Wrapped(BinaryLevel(op) + 1, right);
    hide Wrap, BinaryLevel;
  }

  lemma ChoiceDerived(cond: Phrase, yes: Phrase, no: Phrase)
    requires Derived(cond) && Derived(yes) && Derived(no)
    ensures var c := Choice(Wrap(TERNARY + 1, cond), yes, no);
            Derived(c) && Tree(c) == Ternary(Tree(cond), Tree(yes), Tree(no))
  {
    Wrapped(TERNARY + 1, cond);
    hide Wrap;
  }

  lemma {:induction false} PrintDerived(n: Node)
    requires Printable(n)
    ensures Derived(Print(n)) && Tree(Print(n)) == n
  {
    hide Wrap, BinaryLevel, IsName, Callee, CallName, Fits, Numeral;
    match n
    case Literal(_) =>
    case Ident(_) =>
    case Member(left, _) => PrintDerived(left); Wrapped(POSTFIX, Print(left));
    case Subscript(left, index) => PrintDerived(left); PrintDerived(index); Wrapped(POSTFIX, Print(left));
    case Unary(_, right) => PrintDerived(right); Wrapped(UNARY, Print(right));
    case Binary(op, left, right) =>
      PrintDerived(left);
      PrintDerived(right);
      InfixDerived(op, Print(left), Print(right));
    case Ternary(cond, yes, no) =>
      PrintDerived(cond);
      PrintDerived(yes);
      PrintDerived(no);
      ChoiceDerived(Print(cond), Print(yes), Print(no));
    case Call(name, args) => CalleeDerived(name); PrintAllDerived(args);
  }

  lemma {:induction false} PrintAllDerived(args: seq<Node>)
    requires forall a :: a in args ==> Printable(a)
    ensures (forall c :: c in PrintAll(args) ==> Derived(c)) && Trees(PrintAll(args)) == args
  {
    if args != [] {
      PrintDerived(args[0]);
      PrintAllDerived(args[1..]);
      assert args == [args[0]] + args[1..];
      assert PrintAll(args)[1..] == PrintAll(args[1..]);
    }
  }

  // ---- What is printed can be lexed ----

  ghost predicate AllSound(ts: seq<Token>) {
    forall t :: t in ts ==> Sound(t)
  }

  lemma {:induction false} CalleeSound(s: string)
    requires CallName(s)
    ensures AllSound(Yield(Callee(s)))
  {
    if '.' in s && LastDot(s) > 0 {
      CalleeSound(s[..LastDot(s)]);
    }
  }

  lemma BinaryOperator(op: string)
    requires BinaryLevel(op) > 0
    ensures Operator(op)
  {
  }

  lemma {:induction false} PrintSound(n: Node)
    requires Printable(n)
    ensures AllSound(Yield(Print(n)))
  {
    hide Wrap, BinaryLevel, Callee, CallName;
    match n
    case Literal(_) =>
    case Ident(_) =>
    case Member(left, _) => PrintSound(left); WrapSound(POSTFIX, Print(left));
    case Subscript(left, index) => PrintSound(left); PrintSound(index); WrapSound(POSTFIX, Print(left));
    case Unary(_, right) => PrintSound(right); WrapSound(UNARY, Print(right));
    case Binary(op, left, right) =>
      PrintSound(left);
      PrintSound(right);
      BinaryOperator(op);
      WrapSound(BinaryLevel(op), Print(left));
      WrapSound(BinaryLevel(op) + 1, Print(right));
    case Ternary(cond, yes, no) =>
      PrintSound(cond);
      PrintSound(yes);
      PrintSound(no);
      WrapSound(TERNARY + 1, Print(cond));
    case Call(name, args) => CalleeSound(name); PrintAllSound(args);
  }

  lemma WrapSound(k: nat, c: Phrase)
    requires AllSound(Yield(c))
    ensures AllSound(Yield(Wrap(k, c)))
  {
  }

  lemma {:induction false} PrintAllSound(args: seq<Node>)
    requires forall a :: a in args ==> Printable(a)
    ensures AllSound(YieldArgs(PrintAll(args)))
  {
    if args != [] {
      PrintSound(args[0]);
      PrintAllSound(args[1..]);
      assert PrintAll(args)[1..] == PrintAll(args[1..]);
    }
  }

  /** Printing and parsing give the tree back. */
  lemma RoundTrip(n: Node)
    requires Printable(n)
    ensures Accepts(PrintText(n)) == Some(n)
  {
    PrintDerived(n);
    PrintSound(n);
    TextLexesBack(Yield(Print(n)));
    ParserMeetsGrammar(Yield(Print(n)), n);
  }

  // ---- Whatever is parsed can be printed ----

  lemma {:induction false} NameHasNoDot(s: string)
    requires IsName(s)
    ensures '.' !in s && s != ""
  {
  }

  lemma DottedCallee(left: string, name: string)
    requires IsName(name) && (left == "" || CallName(left))
    ensures CallName(left + "." + name)
    ensures Callee(left + "." + name) == Dot(if left == "" then Atom(TokNull) else Callee(left), name)
  {
    var s := left + "." + name;
    NameHasNoDot(name);
    assert s[|left|] == '.' && s[|left| + 1..] == name && s[..|left|] == left;
    LastDotIs(s, |left|);
  }

  lemma LastDotIs(s: string, p: nat)
    requires p < |s| && s[p] == '.' && '.' !in s[p + 1..]
    ensures LastDot(s) == p
  {
    var q := LastDot(s);
    DotAfter(s, p);
    DotAfter(s, q);
  }

  lemma DotAfter(s: string, q: nat)
    requires q < |s| && s[q] == '.'
    ensures forall p {:trigger s[p]} :: 0 <= p < q ==> '.' in s[p + 1..]
  {
    forall p {:trigger s[p]} | 0 <= p < q ensures '.' in s[p + 1..] {
      assert s[p + 1..][q - p - 1] == '.';
    }
  }

  lemma {:induction false} FlattenedIsCallName(n: Node)
    requires Printable(n) && Callable(n)
    ensures CallName(FlattenName(n)) && FlattenName(n) != ""
  {
    if n.Ident? {
      NameHasNoDot(n.name);
    } else {
      if Callable(n.left) {
        FlattenedIsCallName(n.left);
      }
      DottedCallee(FlattenName(n.left), n.name);
    }
  }

  lemma {:induction false} SoundIsPrintable(c: Phrase)
    requires Derived(c) && AllSound(Yield(c))
    ensures Printable(Tree(c))
  {
    match c
    case Atom(t) => assert t in Yield(c);
    case Paren(inner) => SoundIsPrintable(inner);
    case Dot(left, name) => assert TokIdent(name) in Yield(c); SoundIsPrintable(left);
    case Bracket(left, index) => SoundIsPrintable(left); SoundIsPrintable(index);
    case Apply(left, args) =>
      SoundIsPrintable(left);
      FlattenedIsCallName(Tree(left));
      AllPrintable(args);
    case Prefix(_, right) => SoundIsPrintable(right);
    case Infix(_, left, right) => SoundIsPrintable(left); SoundIsPrintable(right);
    case Choice(cond, yes, no) => SoundIsPrintable(cond); SoundIsPrintable(yes); SoundIsPrintable(no);
  }

  lemma {:induction false} AllPrintable(args: seq<Phrase>)
    requires (forall c :: c in args ==> Derived(c)) && AllSound(YieldArgs(args))
    ensures forall n :: n in Trees(args) ==> Printable(n)
  {
    if args != [] {
      SoundIsPrintable(args[0]);
      AllPrintable(args[1..]);
    }
  }

  /** The parser returns exactly the printable trees. */
  lemma ParserRange(n: Node)
    ensures (exists src :: Accepts(src) == Some(n)) <==> Printable(n)
  {
    if src :| Accepts(src) == Some(n) {
      var ts := Lex(src).value;
      LexIsSound(src);
      ParserMeetsGrammar(ts, n);
      var c :| Derived(c) && Yield(c) == ts && Tree(c) == n;
      SoundIsPrintable(c);
    }
    if Printable(n) {
      RoundTrip(n);
    }
  }

  // ---- Nothing shorter has the same tree ----

  lemma {:induction false} CalleeShortest(c: Phrase)
    requires Derived(c) && AllSound(Yield(c)) && Callable(Tree(c))
    ensures CallName(FlattenName(Tree(c))) && |Yield(Callee(FlattenName(Tree(c))))| <= |Yield(c)|
  {
    SoundIsPrintable(c);
    FlattenedIsCallName(Tree(c));
    if c.Atom? {
      NameHasNoDot(c.token.name);
    } else if c.Paren? {
      CalleeShortest(c.inner);
    } else {
      var left := Tree(c.left);
      if Callable(left) {
        FlattenedIsCallName(left);
        CalleeShortest(c.left);
      }
      DottedCallee(FlattenName(left), c.name);
    }
  }

  /** `p` prints the tree of `c` with no more tokens, and fewer by two if `c` is in parentheses. */
  ghost predicate NoLonger(p: Phrase, c: Phrase) {
    && |Yield(p)| + (if c.Paren? then 2 else 0) <= |Yield(c)|
    && (!c.Paren? ==> Level(p) == Level(c))
  }

  lemma WrapNoLonger(k: nat, p: Phrase, c: Phrase)
    requires NoLonger(p, c) && Level(c) >= k
    ensures |Yield(Wrap(k, p))| <= |Yield(c)|
  {
  }

  /** No phrase with the same tree has fewer tokens than the printed one. */
  lemma {:induction false} Shortest(c: Phrase)
    requires Derived(c) && AllSound(Yield(c))
    ensures Printable(Tree(c)) && NoLonger(Print(Tree(c)), c)
    decreases c, 1
  {
    hide Wrap, BinaryLevel, Sound, CallName, FlattenName, IsName, Callee;
    SoundIsPrintable(c);
    match c
    case Atom(_) =>
    case Paren(inner) => Shortest(inner);
    case Dot(left, _) => ShortestAt(POSTFIX, left);
    case Bracket(left, index) => ShortestAt(POSTFIX, left); Shortest(index);
    case Apply(_, _) => ApplyShortest(c);
    case Prefix(_, right) => ShortestAt(UNARY, right);
    case Infix(_, _, _) => InfixShortest(c);
    case Choice(_, _, _) => ChoiceShortest(c);
  }

  lemma {:induction false} ApplyShortest(c: Phrase)
    requires Derived(c) && AllSound(Yield(c)) && c.Apply?
    ensures Printable(Tree(c)) && NoLonger(Print(Tree(c)), c)
    decreases c, 0
  {
    hide Wrap, BinaryLevel, Sound, CallName, FlattenName, IsName, Callee;
    SoundIsPrintable(c);
    CalleeShortest(c.left);
    AllShortest(c.args);
  }

  lemma {:induction false} InfixShortest(c: Phrase)
    requires Derived(c) && AllSound(Yield(c)) && c.Infix?
    ensures Printable(Tree(c)) && NoLonger(Print(Tree(c)), c)
    decreases c, 0
  {
    hide Wrap, BinaryLevel, Sound, CallName, FlattenName, IsName, Callee;
    SoundIsPrintable(c);
    ShortestAt(BinaryLevel(c.op), c.left);
    ShortestAt(BinaryLevel(c.op) + 1, c.right);
  }

  lemma {:induction false} ChoiceShortest(c: Phrase)
    requires Derived(c) && AllSound(Yield(c)) && c.Choice?
    ensures Printable(Tree(c)) && NoLonger(Print(Tree(c)), c)
    decreases c, 0
  {
    hide Wrap, BinaryLevel, Sound, CallName, FlattenName, IsName, Callee;
    ShortestAt(TERNARY + 1, c.cond);
    Shortest(c.yes);
    Shortest(c.no);
  }

  lemma {:induction false} ShortestAt(k: nat, c: Phrase)
    requires Derived(c) && AllSound(Yield(c)) && Level(c) >= k
    ensures Printable(Tree(c)) && |Yield(Wrap(k, Print(Tree(c))))| <= |Yield(c)|
    decreases c, 2
  {
    Shortest(c);
    WrapNoLonger(k, Print(Tree(c)), c);
  }

  lemma {:induction false} AllShortest(args: seq<Phrase>)
    requires (forall c :: c in args ==> Derived(c)) && AllSound(YieldArgs(args))
    ensures (forall n :: n in Trees(args) ==> Printable(n)) && |YieldArgs(PrintAll(Trees(args)))| <= |YieldArgs(args)|
    decreases args, 1
  {
    AllPrintable(args);
    if args != [] {
      Shortest(args[0]);
      AllShortest(args[1..]);
    }
  }

  /** Whatever parses to `n` has at least the tokens of the printed text, so no parenthesis is wasted. */
  lemma PrintIsShortest(src: string, n: Node)
    requires Accepts(src) == Some(n)
    ensures Printable(n) && Lex(src).Some? && Lex(PrintText(n)).Some?
    ensures |Lex(PrintText(n)).value| <= |Lex(src).value|
  {
    var ts := Lex(src).value;
    LexIsSound(src);
    ParserMeetsGrammar(ts, n);
    var c :| Derived(c) && Yield(c) == ts && Tree(c) == n;
    Shortest(c);
    PrintSound(n);
    TextLexesBack(Yield(Print(n)));
  }
}
