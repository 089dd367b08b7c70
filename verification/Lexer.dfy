/** The lexer of the expression language. */
module Lexer {
  import opened Pipelines

  /** A token without its source position. A number keeps its digits, which fix the float the source stores. */
  datatype Token =
    | TokNumber(text: string)
    | TokString(value: string)
    | TokIdent(name: string)
    | TokBool(truth: bool)
    | TokNull
    | TokPunct(op: string)
    | TokEOF

  // ---- Character classes ----

  predicate IsSpace(c: char) {
    c == ' ' || c == '\t' || c == '\n' || c == '\r'
  }

  predicate IsDigit(c: char) {
    '0' <= c <= '9'
  }

  predicate IsQuote(c: char) {
    c == '\'' || c == '"'
  }

  predicate IsIdentStart(c: char) {
    c == '_' || 'a' <= c <= 'z' || 'A' <= c <= 'Z'
  }

  predicate IsIdentCont(c: char) {
    IsIdentStart(c) || c == '-' || IsDigit(c)
  }

  predicate IsComparison(c: char) {
    c == '=' || c == '!' || c == '<' || c == '>'
  }

  predicate IsLogic(c: char) {
    c == '&' || c == '|'
  }

  predicate IsSingle(c: char) {
    || c == '+' || c == '-' || c == '*' || c == '/' || c == '%' || c == '(' || c == ')'
    || c == '[' || c == ']' || c == ',' || c == '.' || c == '?' || c == ':'
  }

  // ---- Lexemes: the texts a token can be read from ----

  predicate Word(s: string) {
    s != "" && IsIdentStart(s[0]) && forall k :: 0 <= k < |s| ==> IsIdentCont(s[k])
  }

  predicate Numeral(s: string) {
    && s != "" && IsDigit(s[0])
    && (forall k :: 0 <= k < |s| ==> IsDigit(s[k]) || s[k] == '.')
    && (forall j, k :: 0 <= j < k < |s| ==> s[j] != '.' || s[k] != '.')
  }

  predicate Quoted(s: string) {
    && |s| >= 2 && IsQuote(s[0]) && s[|s| - 1] == s[0]
    && forall k :: 0 < k < |s| - 1 ==> s[k] != s[0]
  }

  predicate Operator(s: string) {
    || (|s| == 1 && (IsSingle(s[0]) || IsComparison(s[0])))
    || (|s| == 2 && ((IsComparison(s[0]) && s[1] == '=') || (IsLogic(s[0]) && s[1] == s[0])))
  }

  predicate Lexeme(s: string) {
    Word(s) || Numeral(s) || Quoted(s) || Operator(s)
  }

  predicate Reserved(s: string) {
    s == "true" || s == "false" || s == "null"
  }

  function TokenOf(s: string): Token
    requires Lexeme(s)
  {
    if Word(s) then
      if s == "true" then TokBool(true) else if s == "false" then TokBool(false)
      else if s == "null" then TokNull else TokIdent(s)
    else if Numeral(s) then TokNumber(s)
    else if Quoted(s) then TokString(s[1..|s| - 1])
    else TokPunct(s)
  }

  // ---- Numbers that a float64 can hold ----

  function Power(b: nat, e: nat): nat {
    if e == 0 then 1 else b * Power(b, e - 1)
  }

  function DigitValue(c: char): nat
    requires IsDigit(c)
  {
    (c - '0') as nat
  }

  /** The value of the digits before the decimal point. */
  function WholePart(s: string): nat
    requires Numeral(s)
  {
    var n := |s| - 1;
    if n == 0 then DigitValue(s[0])
    else
      assert Numeral(s[..n]);
      if '.' in s then WholePart(s[..n]) else 10 * WholePart(s[..n]) + DigitValue(s[n])
  }

  /** A binary floating-point format. */
  datatype Format = Format(precision: nat, maxExponent: nat)

  const FLOAT64 := Format(53, 1024)

  /** Half a unit beyond the largest number of the format: from there on conversion overflows. */
  function Overflow(f: Format): int
    requires f.precision < f.maxExponent
  {
    Power(2, f.maxExponent) - Power(2, f.maxExponent - f.precision - 1)
  }

  predicate Fits(s: string)
    requires Numeral(s)
  {
    WholePart(s) < Overflow(FLOAT64)
  }

  // ---- The specification: longest match ----

  ghost predicate Longest(s: string, n: nat) {
    && 0 < n <= |s| && Lexeme(s[..n])
    && forall m :: n < m <= |s| ==> !Lexeme(s[..m])
  }

  predicate Readable(s: string)
    requires Lexeme(s)
  {
    Numeral(s) ==> Fits(s)
  }

  function Prepend<T>(a: seq<T>, r: Option<seq<T>>): Option<seq<T>> {
    if r.Some? then Some(a + r.value) else None
  }

  /** The tokens of `s`: lexemes, each as long as possible, with white space anywhere between them. */
  ghost function Lex(s: string): Option<seq<Token>>
    decreases |s|
  {
    if s == "" then Some([])
    else if IsSpace(s[0]) then Lex(s[1..])
    else if exists n :: Longest(s, n) then
      var n: nat :| Longest(s, n);
      if Readable(s[..n]) then Prepend([TokenOf(s[..n])], Lex(s[n..])) else None
    else None
  }

  lemma LongestUnique(s: string, n: nat, m: nat)
    requires Longest(s, n) && Longest(s, m)
    ensures n == m
  {
  }

  lemma LexLongest(s: string, n: nat)
    requires Longest(s, n) && !IsSpace(s[0])
    ensures Lexeme(s[..n])
    ensures Lex(s) == if Readable(s[..n]) then Prepend([TokenOf(s[..n])], Lex(s[n..])) else None
  {
    assert Lexeme(s[..n]) && s != "";
    hide Longest, Lexeme, Readable, TokenOf;
    forall m: nat | Longest(s, m) ensures m == n {
      LongestUnique(s, n, m);
    }
  }

  lemma LexStuck(s: string)
    requires s != "" && !IsSpace(s[0]) && forall m :: 0 < m <= |s| ==> !Lexeme(s[..m])
    ensures Lex(s) == None
  {
    hide Lexeme;
  }

  // ---- The longest lexeme of each class ----

  lemma WordLongest(s: string, n: nat)
    requires 0 < n <= |s| && IsIdentStart(s[0]) && Word(s[..n]) && (n < |s| ==> !IsIdentCont(s[n]))
    ensures Longest(s, n)
  {
    forall m | n < m <= |s| ensures !Lexeme(s[..m]) {
      assert s[..m][0] == s[0] && s[..m][n] == s[n];
    }
  }

  lemma NumeralLongest(s: string, n: nat)
    requires 0 < n <= |s| && IsDigit(s[0]) && Numeral(s[..n])
    requires n < |s| ==> !IsDigit(s[n]) && (s[n] == '.' ==> '.' in s[..n])
    ensures Longest(s, n)
  {
    forall m | n < m <= |s| ensures !Lexeme(s[..m]) {
      assert s[..m][0] == s[0] && s[..m][n] == s[n];
      if s[n] == '.' {
        var k :| 0 <= k < n && s[..n][k] == '.';
        assert s[..m][k] == '.';
      }
    }
  }

  lemma QuotedLongest(s: string, n: nat)
    requires 1 < n <= |s| && IsQuote(s[0]) && s[n - 1] == s[0] && forall k :: 0 < k < n - 1 ==> s[k] != s[0]
    ensures Longest(s, n)
  {
    assert Quoted(s[..n]);
    forall m | n < m <= |s| ensures !Lexeme(s[..m]) {
      assert s[..m][0] == s[0] && s[..m][n - 1] == s[n - 1];
    }
  }

  lemma Unterminated(s: string)
    requires s != "" && IsQuote(s[0]) && forall k :: 0 < k < |s| ==> s[k] != s[0]
    ensures forall m :: 0 < m <= |s| ==> !Lexeme(s[..m])
  {
    forall m | 0 < m <= |s| ensures !Lexeme(s[..m]) {
      assert s[..m][0] == s[0];
    }
  }

  lemma OperatorLongest(s: string)
    requires s != "" && (IsComparison(s[0]) || IsLogic(s[0]) || IsSingle(s[0]))
    ensures |s| > 1 && s[1] == (if IsLogic(s[0]) then s[0] else '=') && !IsSingle(s[0]) ==> Longest(s, 2)
    ensures |s| == 1 || s[1] != '=' || IsSingle(s[0]) ==> !IsLogic(s[0]) ==> Longest(s, 1)
    ensures IsLogic(s[0]) && (|s| == 1 || s[1] != s[0]) ==> forall m :: 0 < m <= |s| ==> !Lexeme(s[..m])
  {
    forall m | 0 < m <= |s| ensures s[..m][0] == s[0] && (m > 1 ==> s[..m][1] == s[1]) {
    }
    forall m | 0 < m <= |s| ensures Lexeme(s[..m]) <==> Operator(s[..m]) {
    }
  }

  lemma NoLexeme(s: string)
    requires s != "" && !IsIdentStart(s[0]) && !IsDigit(s[0]) && !IsQuote(s[0])
    requires !IsComparison(s[0]) && !IsLogic(s[0]) && !IsSingle(s[0])
    ensures forall m :: 0 < m <= |s| ==> !Lexeme(s[..m])
  {
    forall m | 0 < m <= |s| ensures !Lexeme(s[..m]) {
      assert s[..m][0] == s[0];
    }
  }

  // ---- The lexer ----

  method NumberEnd(src: string, i: nat) returns (j: nat)
    requires i < |src| && IsDigit(src[i])
    ensures i < j <= |src| && Longest(src[i..], j - i) && Numeral(src[i..j])
  {
    j := i;
    var dot := false;
    while j < |src| && (IsDigit(src[j]) || src[j] == '.') && !(src[j] == '.' && dot)
      invariant i <= j <= |src| && (j == i ==> !dot)
      invariant forall k :: i <= k < j ==> IsDigit(src[k]) || src[k] == '.'
      invariant forall k, l :: i <= k < l < j ==> src[k] != '.' || src[l] != '.'
      invariant dot <==> exists k :: i <= k < j && src[k] == '.'
    {
      if src[j] == '.' {
        dot := true;
      }
      j := j + 1;
    }
    var s := src[i..];
    assert s[..j - i] == src[i..j];
    if dot {
      var k :| i <= k < j && src[k] == '.';
      assert s[..j - i][k - i] == '.';
    }
    NumeralLongest(s, j - i);
  }

  method WordEnd(src: string, i: nat) returns (j: nat)
    requires i < |src| && IsIdentStart(src[i])
    ensures i < j <= |src| && Longest(src[i..], j - i) && Word(src[i..j])
  {
    j := i + 1;
    while j < |src| && IsIdentCont(src[j])
      invariant i < j <= |src| && forall k :: i <= k < j ==> IsIdentCont(src[k])
    {
      j := j + 1;
    }
    assert src[i..][..j - i] == src[i..j];
    WordLongest(src[i..], j - i);
  }

  /** The end of the string literal at `i`, or None when it is not closed. */
  method QuoteEnd(src: string, i: nat) returns (end: Option<nat>)
    requires i < |src| && IsQuote(src[i])
    ensures end.Some? ==> i + 1 < end.value <= |src| && Longest(src[i..], end.value - i) && Quoted(src[i..end.value])
    ensures end.None? ==> forall m :: 0 < m <= |src| - i ==> !Lexeme(src[i..][..m])
  {
    var j := i + 1;
    while j < |src| && src[j] != src[i]
      invariant i < j <= |src| && forall k :: i < k < j ==> src[k] != src[i]
    {
      j := j + 1;
    }
    if j >= |src| {
      Unterminated(src[i..]);
      return None;
    }
    QuotedLongest(src[i..], j + 1 - i);
    return Some(j + 1);
  }

  ghost predicate Progress(src: string, out: seq<Token>, i: nat) {
    i <= |src| && Lex(src) == Prepend(out, Lex(src[i..]))
  }

  lemma Begin(src: string)
    ensures Progress(src, [], 0)
  {
    assert src[0..] == src;
    if Lex(src).Some? {
      assert [] + Lex(src).value == Lex(src).value;
    }
  }

  lemma End(src: string, out: seq<Token>)
    requires Progress(src, out, |src|)
    ensures Lex(src) == Some(out)
  {
    assert src[|src|..] == "" && out + [] == out;
  }

  lemma SkipSpace(src: string, out: seq<Token>, i: nat)
    requires Progress(src, out, i) && i < |src| && IsSpace(src[i])
    ensures Progress(src, out, i + 1)
  {
    assert src[i..][1..] == src[i + 1..];
  }

  lemma TakeLexeme(src: string, out: seq<Token>, i: nat, j: nat)
    requires Progress(src, out, i) && i < j <= |src| && !IsSpace(src[i]) && Longest(src[i..], j - i)
    ensures Lexeme(src[i..j])
    ensures Readable(src[i..j]) ==> Progress(src, out + [TokenOf(src[i..j])], j)
    ensures !Readable(src[i..j]) ==> Lex(src) == None
  {
    hide Lex, Readable, TokenOf, Lexeme, Longest, Prepend;
    SliceTwice(src, i, j);
    LexLongest(src[i..], j - i);
    PrependMore(out, TokenOf(src[i..j]), Lex(src[j..]));
  }

  lemma SliceTwice(src: string, i: nat, j: nat)
    requires i <= j <= |src|
    ensures src[i..][..j - i] == src[i..j] && src[i..][j - i..] == src[j..]
  {
  }

  lemma PrependMore<T>(a: seq<T>, t: T, r: Option<seq<T>>)
    ensures Prepend(a, Prepend([t], r)) == Prepend(a + [t], r) && Prepend(a, None) == None
  {
    if r.Some? {
      assert a + ([t] + r.value) == a + [t] + r.value;
    }
  }

  lemma NoToken(src: string, out: seq<Token>, i: nat)
    requires Progress(src, out, i) && i < |src| && !IsSpace(src[i])
    requires forall m :: 0 < m <= |src| - i ==> !Lexeme(src[i..][..m])
    ensures Lex(src) == None
  {
    LexStuck(src[i..]);
  }

  lemma TakeOperator(src: string, out: seq<Token>, i: nat, n: nat, op: string)
    requires Progress(src, out, i) && i + n <= |src| && src[i..i + n] == op && Operator(op)
    requires Longest(src[i..], n)
    ensures Progress(src, out + [TokPunct(op)], i + n)
  {
    hide Progress, Longest;
    TakeLexeme(src, out, i, i + n);
  }

  lemma QuotedToken(src: string, i: nat, j: nat)
    requires i + 1 < j <= |src| && Quoted(src[i..j])
    ensures Lexeme(src[i..j]) && TokenOf(src[i..j]) == TokString(src[i + 1..j - 1]) && Readable(src[i..j])
  {
    var s := src[i..j];
    assert |s| == j - i && s[0] == src[i];
    var u, v := s[1..j - i - 1], src[i + 1..j - 1];
    assert |u| == |v| == j - i - 2;
    forall k | 0 <= k < |u| ensures u[k] == v[k] {
      assert s[1..][k] == s[1 + k] == src[i + 1 + k];
    }
  }

  method Tokenize(src: string) returns (r: Option<seq<Token>>)
    ensures var ts := Lex(src); r == if ts.Some? then Some(ts.value + [TokEOF]) else None
  {
    hide Lex, Longest, Lexeme, Fits, Progress;
    var out: seq<Token> := [];
    var i := 0;
    Begin(src);
    while i < |src|
      invariant i <= |src| && Progress(src, out, i)
    {
      var c := src[i];
      if IsSpace(c) {
        SkipSpace(src, out, i);
        i := i + 1;
      } else if IsDigit(c) {
        var j := NumberEnd(src, i);
        TakeLexeme(src, out, i, j);
        if !Fits(src[i..j]) {
          return None;
        }
        out := out + [TokNumber(src[i..j])];
        i := j;
      } else if IsQuote(c) {
        var end := QuoteEnd(src, i);
        if end.None? {
          NoToken(src, out, i);
          return None;
        }
        TakeLexeme(src, out, i, end.value);
        QuotedToken(src, i, end.value);
        out := out + [TokString(src[i + 1..end.value - 1])];
        i := end.value;
      } else if IsIdentStart(c) {
        var j := WordEnd(src, i);
        TakeLexeme(src, out, i, j);
        var name := src[i..j];
        match name {
          case "true" => out := out + [TokBool(true)];
          case "false" => out := out + [TokBool(false)];
          case "null" => out := out + [TokNull];
          case _ => out := out + [TokIdent(name)];
        }
        i := j;
      } else if IsComparison(c) {
        OperatorLongest(src[i..]);
        if i + 1 < |src| && src[i + 1] == '=' {
          TakeOperator(src, out, i, 2, [c, '=']);
          out := out + [TokPunct([c, '='])];
          i := i + 2;
        } else {
          TakeOperator(src, out, i, 1, [c]);
          out := out + [TokPunct([c])];
          i := i + 1;
        }
      } else if IsLogic(c) {
        OperatorLongest(src[i..]);
        if i + 1 < |src| && src[i + 1] == c {
          TakeOperator(src, out, i, 2, [c, c]);
          out := out + [TokPunct([c, c])];
          i := i + 2;
        } else {
          NoToken(src, out, i);
          return None;
        }
      } else if IsSingle(c) {
        OperatorLongest(src[i..]);
        TakeOperator(src, out, i, 1, [c]);
        out := out + [TokPunct([c])];
        i := i + 1;
      } else {
        NoLexeme(src[i..]);
        NoToken(src, out, i);
        return None;
      }
    }
    End(src, out);
    return Some(out + [TokEOF]);
  }

  // ---- Printing tokens ----

  /** The tokens the lexer can produce. */
  predicate Sound(t: Token) {
    match t
    case TokNumber(text) => Numeral(text) && Fits(text)
    case TokString(value) => '\'' !in value || '"' !in value
    case TokIdent(name) => Word(name) && !Reserved(name)
    case TokBool(_) => true
    case TokNull => true
    case TokPunct(op) => Operator(op)
    case TokEOF => false
  }

  function Quote(value: string): string {
    if '\'' in value then "\"" + value + "\"" else "'" + value + "'"
  }

  function Spelling(t: Token): string {
    match t
    case TokNumber(text) => text
    case TokString(value) => Quote(value)
    case TokIdent(name) => name
    case TokBool(truth) => if truth then "true" else "false"
    case TokNull => "null"
    case TokPunct(op) => op
    case TokEOF => ""
  }

  /** Every token followed by a space. */
  function Text(ts: seq<Token>): string {
    if ts == [] then "" else Spelling(ts[0]) + " " + Text(ts[1..])
  }

  lemma SpellingReads(t: Token)
    requires Sound(t)
    ensures Lexeme(Spelling(t)) && Readable(Spelling(t)) && TokenOf(Spelling(t)) == t
  {
    hide Fits, Power, WholePart;
    if t.TokString? {
      var s := Spelling(t);
      assert s[1..|s| - 1] == t.value;
      assert Quoted(s) by {
        forall k | 0 < k < |s| - 1 ensures s[k] != s[0] {
          assert s[k] == t.value[k - 1];
        }
      }
    }
  }

  lemma LexemeSpaces(s: string, k: nat)
    requires Lexeme(s) && k < |s| && s[k] == ' '
    ensures Quoted(s)
  {
  }

  lemma SpacedLongest(s: string, rest: string)
    requires Lexeme(s)
    ensures Longest(s + " " + rest, |s|)
  {
    var src := s + " " + rest;
    var n := |s|;
    assert src[..n] == s;
    forall m | n < m <= |src| ensures !Lexeme(src[..m]) {
      assert src[..m][n] == ' ' && src[..m][0] == s[0] && src[..m][n - 1] == s[n - 1];
      if Lexeme(src[..m]) {
        LexemeSpaces(src[..m], n);
      }
    }
  }

  /** Sound tokens, printed with spaces between them, are read back as they were. */
  lemma {:induction false} TextLexesBack(ts: seq<Token>)
    requires forall t :: t in ts ==> Sound(t)
    ensures Lex(Text(ts)) == Some(ts)
  {
    if ts != [] {
      hide Lex, Lexeme, Readable, Sound, Spelling, TokenOf;
      TextLexesBack(ts[1..]);
      SpellingReads(ts[0]);
      LexSpaced(Spelling(ts[0]), Text(ts[1..]));
      assert ts == [ts[0]] + ts[1..];
    }
  }

  lemma LexSpaced(s: string, tail: string)
    requires Lexeme(s) && Readable(s)
    ensures Lex(s + " " + tail) == Prepend([TokenOf(s)], Lex(tail))
  {
    var src := s + " " + tail;
    SpacedLongest(s, tail);
    assert src[..|s|] == s && src[|s|..] == " " + tail && (" " + tail)[1..] == tail;
    assert Lex(src[|s|..]) == Lex(tail);
    assert src[0] == s[0];
    hide Lex, Longest, Readable;
    LexLongest(src, |s|);
  }

  lemma ReadIsSound(s: string)
    requires Lexeme(s) && Readable(s)
    ensures Sound(TokenOf(s))
  {
    hide Fits;
    if Quoted(s) {
      var v := s[1..|s| - 1];
      forall k | 0 <= k < |v| ensures v[k] != s[0] {
        assert v[k] == s[k + 1];
      }
    }
  }

  /** Whatever is lexed is sound. */
  lemma {:induction false} LexIsSound(s: string)
    requires Lex(s).Some?
    ensures forall t :: t in Lex(s).value ==> Sound(t)
    decreases |s|
  {
    hide Longest, Lexeme, Readable, TokenOf, Sound;
    if s != "" && IsSpace(s[0]) {
      LexIsSound(s[1..]);
    } else if s != "" {
      var n: nat :| Longest(s, n);
      LexLongest(s, n);
      LongestBounds(s, n);
      LexIsSound(s[n..]);
      ReadIsSound(s[..n]);
    }
  }

  lemma LongestBounds(s: string, n: nat)
    requires Longest(s, n)
    ensures 0 < n <= |s|
  {
  }
}
