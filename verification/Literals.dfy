/** The tokens of the expression language with their characters written out (api/pkg/expr/lexer.go): which texts
    are operators, and what a single word, string, number or operator is read as. */
module Literals {
  import opened Lexer
  import opened Matrix
  import opened Pipelines

  predicate Letter(c: char) {
    'a' <= c <= 'z' || 'A' <= c <= 'Z'
  }

  predicate Decimal(s: string) {
    forall k :: 0 <= k < |s| ==> '0' <= s[k] <= '9'
  }

  /** Text without tokens. */
  lemma {:induction false} BlankReads(s: string)
    requires forall k :: 0 <= k < |s| ==> s[k] in [' ', '\t', '\n', '\r']
    ensures Lex(s) == Some([])
  {
    if s != "" {
      BlankReads(s[1..]);
    }
  }

  /** The operators and brackets. */
  predicate Written(s: string) {
    s in ["||", "&&", "==", "!=", "<", ">", "<=", ">=", "+", "-", "*", "/", "%", "!", "=",
          "(", ")", "[", "]", ",", ".", "?", ":"]
  }

  lemma OperatorsSay(s: string)
    ensures Operator(s) <==> Written(s)
  {
    if |s| == 1 {
      assert s == [s[0]];
    } else if |s| == 2 {
      assert s == [s[0], s[1]];
    }
  }

  /** A text that is one lexeme is one token. */
  lemma OneToken(s: string)
    requires Lexeme(s)
    ensures Lex(s) == if Readable(s) then Some([TokenOf(s)]) else None
  {
    assert s[..|s|] == s && s[|s|..] == "";
    assert Longest(s, |s|) && !IsSpace(s[0]);
    hide Longest, Lexeme, Readable, TokenOf, Fits;
    LexLongest(s, |s|);
    assert Lex("") == Some([]);
    if Readable(s) {
      assert [TokenOf(s)] + [] == [TokenOf(s)];
    }
  }

  /** A word is an identifier, but for three. */
  lemma WordReads(s: string)
    requires s != "" && (Letter(s[0]) || s[0] == '_')
    requires forall k :: 0 <= k < |s| ==> Letter(s[k]) || '0' <= s[k] <= '9' || s[k] == '_' || s[k] == '-'
    ensures Lex(s) == Some([if s == "true" then TokBool(true)
                            else if s == "false" then TokBool(false)
                            else if s == "null" then TokNull
                            else TokIdent(s)])
  {
    assert Word(s);
    hide Lex, Fits;
    OneToken(s);
  }

  /** A string is what stands between two quotes of the same kind. */
  lemma StringReads(q: char, v: string)
    requires (q == '\'' || q == '"') && q !in v
    ensures Lex([q] + v + [q]) == Some([TokString(v)])
  {
    var s := [q] + v + [q];
    forall k | 0 < k < |s| - 1 ensures s[k] != s[0] {
      assert s[k] == v[k - 1];
    }
    assert Quoted(s) && s[1..|s| - 1] == v;
    hide Lex, Fits;
    OneToken(s);
  }

  lemma OperatorReads(s: string)
    requires Written(s)
    ensures Lex(s) == Some([TokPunct(s)])
  {
    OperatorsSay(s);
    hide Lex, Fits, Written;
    OneToken(s);
  }

  // ---- Numbers ----

  /** The value of a number before its point is the one that its digits write in base ten. */
  lemma {:induction false} WholeReads(n: nat)
    ensures Numeral(Itoa(n)) && WholePart(Itoa(n)) == n
  {
    var s := Itoa(n);
    if n >= 10 {
      WholeReads(n / 10);
      assert s[..|s| - 1] == Itoa(n / 10);
    }
    assert '.' !in s;
  }

  lemma {:induction false} PointReads(n: nat, f: string)
    requires Decimal(f)
    ensures Numeral(Itoa(n) + "." + f) && WholePart(Itoa(n) + "." + f) == n
  {
    var s := Itoa(n) + "." + f;
    WholeReads(n);
    hide Itoa;
    assert s[|Itoa(n)|] == '.';
    if f == "" {
      assert s[..|s| - 1] == Itoa(n);
    } else {
      PointReads(n, f[..|f| - 1]);
      assert s[..|s| - 1] == Itoa(n) + "." + f[..|f| - 1];
    }
  }

  /** A number is read, with or without a fraction, if it is less than 2^1024 - 2^970, where a float64 overflows. */
  lemma NumberReads(n: nat, f: string)
    requires Decimal(f)
    ensures var s := Itoa(n) + "." + f;
            Lex(s) == if n < Power(2, 1024) - Power(2, 970) then Some([TokNumber(s)]) else None
    ensures Lex(Itoa(n)) == if n < Power(2, 1024) - Power(2, 970) then Some([TokNumber(Itoa(n))]) else None
  {
    WholeReads(n);
    PointReads(n, f);
    hide Power, WholePart, Itoa;
    assert Overflow(FLOAT64) == Power(2, 1024) - Power(2, 970);
    OneToken(Itoa(n));
    OneToken(Itoa(n) + "." + f);
  }
}
