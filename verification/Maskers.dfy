/** Masking secrets in a stream of log lines (api/pkg/masker/masker.go). */
module Maskers {
  import opened Pipelines
  import opened Sequences
  import opened Strings

  const MASK := "***"
  const MIN_LEN: nat := 4

  // ---- One string ----

  predicate Usable(patterns: seq<string>) {
    forall p :: p in patterns ==> p != ""
  }

  /** The first pattern in table order that `s` begins with. */
  function FirstMatch(patterns: seq<string>, s: string): (r: Option<string>)
    ensures r.Some? ==> r.value in patterns && r.value <= s
    ensures r.None? ==> forall p :: p in patterns ==> !(p <= s)
  {
    if patterns == [] then None
    else if patterns[0] <= s then Some(patterns[0])
    else
      assert patterns == [patterns[0]] + patterns[1..];
      FirstMatch(patterns[1..], s)
  }

  /** strings.Replacer: from left to right, at each place the first matching pattern of the table. */
  function Mask(patterns: seq<string>, s: string): string
    requires Usable(patterns)
    decreases |s|
  {
    if s == "" then ""
    else
      var m := FirstMatch(patterns, s);
      if m.Some? then MASK + Mask(patterns, s[|m.value|..]) else [s[0]] + Mask(patterns, s[1..])
  }

  lemma {:induction false} FirstMatchIs(patterns: seq<string>, s: string, i: nat)
    requires i < |patterns| && patterns[i] <= s && forall k :: 0 <= k < i ==> !(patterns[k] <= s)
    ensures FirstMatch(patterns, s) == Some(patterns[i])
  {
    if i > 0 {
      assert !(patterns[0] <= s);
      FirstMatchIs(patterns[1..], s, i - 1);
    }
  }

  /** What masking does: a text in which no pattern occurs stays as it is. */
  lemma {:induction false} MaskNothing(patterns: seq<string>, s: string)
    requires Usable(patterns) && forall j, p :: 0 <= j < |s| && p in patterns ==> !(p <= s[j..])
    ensures Mask(patterns, s) == s
  {
    if s != "" {
      assert s[0..] == s;
      forall j, p | 0 <= j < |s[1..]| && p in patterns ensures !(p <= s[1..][j..]) {
        assert s[1..][j..] == s[j + 1..];
      }
      MaskNothing(patterns, s[1..]);
    }
  }

  /** At the first place where patterns occur the first of them in the table is replaced by three stars, and masking
      goes on behind it. */
  lemma {:induction false} MaskSays(patterns: seq<string>, x: string, i: nat, y: string)
    requires Usable(patterns) && i < |patterns|
    requires forall j, p :: 0 <= j < |x| && p in patterns ==> !(p <= (x + patterns[i] + y)[j..])
    requires forall k :: 0 <= k < i ==> !(patterns[k] <= patterns[i] + y)
    ensures Mask(patterns, x + patterns[i] + y) == x + "***" + Mask(patterns, y)
  {
    var s := x + patterns[i] + y;
    if x == "" {
      assert s == patterns[i] + y;
      FirstMatchIs(patterns, s, i);
      assert s[|patterns[i]|..] == y;
    } else {
      assert s[0..] == s;
      assert s[1..] == x[1..] + patterns[i] + y;
      forall j, p | 0 <= j < |x[1..]| && p in patterns ensures !(p <= s[1..][j..]) {
        assert s[1..][j..] == s[j + 1..];
      }
      MaskSays(patterns, x[1..], i, y);
      assert Mask(patterns, s) == [s[0]] + Mask(patterns, s[1..]);
      assert [x[0]] + (x[1..] + "***" + Mask(patterns, y)) == x + "***" + Mask(patterns, y);
    }
  }

  // ---- Line by line ----

  /** The length of the first line of `s` with its newline, or of all of `s`. */
  function LineEnd(s: string): (n: nat)
    ensures n <= |s| && (s != "" ==> n > 0)
    ensures forall k :: 0 <= k < n - 1 ==> s[k] != '\n'
    ensures n < |s| ==> s[n - 1] == '\n'
  {
    if s == "" then 0 else if s[0] == '\n' then 1 else 1 + LineEnd(s[1..])
  }

  function MaskLines(patterns: seq<string>, s: string): string
    requires Usable(patterns)
    decreases |s|
  {
    if s == "" then "" else Mask(patterns, s[..LineEnd(s)]) + MaskLines(patterns, s[LineEnd(s)..])
  }

  /** Complete lines only. */
  predicate Whole(s: string) {
    s == "" || s[|s| - 1] == '\n'
  }

  lemma LineEndIs(s: string, n: nat)
    requires 0 < n <= |s| && (forall k :: 0 <= k < n - 1 ==> s[k] != '\n')
    requires n == |s| || s[n - 1] == '\n'
    ensures LineEnd(s) == n
  {
  }

  /** Complete lines are masked on their own. */
  lemma {:induction false} MaskWhole(patterns: seq<string>, t: string, rest: string)
    requires Usable(patterns) && Whole(t)
    ensures MaskLines(patterns, t + rest) == MaskLines(patterns, t) + MaskLines(patterns, rest)
    decreases |t|
  {
    if t == "" {
      assert t + rest == rest;
    } else {
      var n := LineEnd(t);
      FirstLine(t, rest);
      MaskWhole(patterns, t[n..], rest);
      hide Mask, LineEnd;
      Associate(Mask(patterns, t[..n]), MaskLines(patterns, t[n..]), MaskLines(patterns, rest));
    }
  }

  lemma FirstLine(t: string, rest: string)
    requires t != "" && Whole(t)
    ensures var n := LineEnd(t);
            LineEnd(t + rest) == n > 0 && Whole(t[n..]) && (t + rest)[..n] == t[..n] && (t + rest)[n..] == t[n..] + rest
  {
    LineEndIs(t + rest, LineEnd(t));
  }

  lemma Associate(a: string, b: string, c: string)
    ensures a + b + c == a + (b + c)
  {
  }

  lemma MaskOneLine(patterns: seq<string>, s: string)
    requires Usable(patterns) && (forall k :: 0 <= k < |s| - 1 ==> s[k] != '\n')
    ensures MaskLines(patterns, s) == Mask(patterns, s)
  {
    if s != "" {
      LineEndIs(s, |s|);
      assert s[..|s|] == s && s[|s|..] == "";
    }
  }

  // ---- The writer ----

  /** The underlying writer: it takes all of a line or reports an error. */
  class Sink {
    var out: string

    constructor ()
      ensures out == ""
    {
      out := "";
    }

    method Accept(s: string) returns (ok: bool)
      modifies this
      ensures out == if ok then old(out) + s else old(out)
    {
      ok := *;
      if ok {
        out := out + s;
      }
    }
  }

  /** What the sink has received and what is still buffered. */
  datatype Stream = Stream(out: string, buf: string)

  /** Some complete lines have moved, masked, from the buffer to the sink. */
  ghost predicate Drained(patterns: seq<string>, before: Stream, after: Stream)
    requires Usable(patterns)
  {
    exists t :: DrainedBy(patterns, before, t, after)
  }

  ghost predicate DrainedBy(patterns: seq<string>, before: Stream, t: string, after: Stream)
    requires Usable(patterns)
  {
    Whole(t) && before.buf == t + after.buf && after.out == before.out + MaskLines(patterns, t)
  }

  lemma DrainMore(patterns: seq<string>, before: Stream, t: string, now: Stream, u: string, after: Stream)
    requires Usable(patterns) && DrainedBy(patterns, before, t, now) && DrainedBy(patterns, now, u, after)
    ensures DrainedBy(patterns, before, t + u, after)
  {
    MaskWhole(patterns, t, u);
    Associate(t, u, after.buf);
    Associate(before.out, MaskLines(patterns, t), MaskLines(patterns, u));
  }

  lemma DrainNothing(patterns: seq<string>, s: Stream)
    requires Usable(patterns)
    ensures Drained(patterns, s, s)
  {
    assert DrainedBy(patterns, s, "", s);
  }

  lemma DrainLine(patterns: seq<string>, before: Stream, now: Stream)
    requires Usable(patterns) && Drained(patterns, before, now) && '\n' in now.buf
    ensures var i := LineEnd(now.buf);
            i > 0 && Drained(patterns, before, Stream(now.out + Mask(patterns, now.buf[..i]), now.buf[i..]))
  {
    var i := LineEnd(now.buf);
    var line := now.buf[..i];
    var after := Stream(now.out + Mask(patterns, line), now.buf[i..]);
    NewlineEnds(now.buf);
    MaskOneLine(patterns, line);
    assert DrainedBy(patterns, now, line, after);
    var t :| DrainedBy(patterns, before, t, now);
    hide *;
    DrainMore(patterns, before, t, now, line, after);
    DrainedWith(patterns, before, t + line, after);
  }

  lemma DrainedWith(patterns: seq<string>, before: Stream, t: string, after: Stream)
    requires Usable(patterns) && DrainedBy(patterns, before, t, after)
    ensures Drained(patterns, before, after)
  {
  }

  lemma {:induction false} NewlineEnds(s: string)
    requires '\n' in s
    ensures LineEnd(s) > 0 && s[LineEnd(s) - 1] == '\n'
  {
    if s[0] != '\n' {
      assert s == [s[0]] + s[1..];
      NewlineEnds(s[1..]);
    }
  }

  class Writer {
    const patterns: seq<string>
    const w: Sink
    var buf: string

    ghost function Current(): Stream
      reads this, w
    {
      Stream(w.out, buf)
    }

    constructor (patterns: seq<string>, w: Sink)
      ensures this.patterns == patterns && this.w == w && Current() == Stream(w.out, "")
    {
      this.patterns, this.w, buf := patterns, w, "";
    }

    method Write(p: string) returns (n: nat, ok: bool)
      requires Usable(patterns)
      modifies this, w
      ensures Drained(patterns, Stream(old(w.out), old(buf) + p), Current())
      ensures n == if ok then |p| else 0
      ensures ok <==> '\n' !in buf
    {
      ghost var before := Stream(w.out, buf + p);
      buf := buf + p;
      DrainNothing(patterns, before);
      while '\n' in buf
        invariant Drained(patterns, before, Current())
        decreases |buf|
      {
        ghost var now := Current();
        var i := LineEnd(buf);
        var line := buf[..i];
        var accepted := w.Accept(Mask(patterns, line));
        if !accepted {
          return 0, false;
        }
        DrainLine(patterns, before, now);
        buf := buf[i..];
      }
      return |p|, true;
    }

    /** What is left is masked and passed on; on an error it is lost. */
    method Flush() returns (ok: bool)
      requires Usable(patterns)
      modifies this, w
      ensures buf == ""
      ensures w.out == if ok then old(w.out) + Mask(patterns, old(buf)) else old(w.out)
    {
      if buf == "" {
        return true;
      }
      var masked := Mask(patterns, buf);
      buf := "";
      ok := w.Accept(masked);
    }
  }

  // ---- The stream does not depend on how it was cut ----

  function Concat(chunks: seq<string>): string {
    if chunks == [] then "" else Concat(chunks[..|chunks| - 1]) + chunks[|chunks| - 1]
  }

  /** `states` are the states around a series of writes, whatever errors they reported. */
  ghost predicate Session(patterns: seq<string>, chunks: seq<string>, states: seq<Stream>)
    requires Usable(patterns)
  {
    && |states| == |chunks| + 1 && states[0] == Stream("", "")
    && forall i, j :: 0 <= i < |chunks| && j == i + 1 ==>
         Drained(patterns, Stream(states[i].out, states[i].buf + chunks[i]), states[j])
  }

  lemma {:induction false} SessionSplits(patterns: seq<string>, chunks: seq<string>, states: seq<Stream>)
    requires Usable(patterns) && Session(patterns, chunks, states)
    ensures Drained(patterns, Stream("", Concat(chunks)), states[|chunks|])
  {
    if chunks == [] {
      DrainNothing(patterns, Stream("", ""));
    } else {
      var n := |chunks| - 1;
      var now := states[n];
      SessionSplits(patterns, chunks[..n], states[..n + 1]);
      var t :| DrainedBy(patterns, Stream("", Concat(chunks[..n])), t, now);
      var more := Stream(now.out, now.buf + chunks[n]);
      var u :| DrainedBy(patterns, more, u, states[n + 1]);
      Associate(t, now.buf, chunks[n]);
      assert DrainedBy(patterns, Stream("", Concat(chunks)), t, more);
      hide DrainedBy, Concat;
      DrainMore(patterns, Stream("", Concat(chunks)), t, more, u, states[n + 1]);
    }
  }

  /** Flushing after the last write, if that went through, leaves the line-by-line masking of the whole stream. */
  lemma ChunkIndependence(patterns: seq<string>, chunks: seq<string>, states: seq<Stream>)
    requires Usable(patterns) && Session(patterns, chunks, states)
    requires '\n' !in states[|chunks|].buf
    ensures states[|chunks|].out + Mask(patterns, states[|chunks|].buf) == MaskLines(patterns, Concat(chunks))
  {
    SessionSplits(patterns, chunks, states);
    var t :| DrainedBy(patterns, Stream("", Concat(chunks)), t, states[|chunks|]);
    FlushRest(patterns, Concat(chunks), t, states[|chunks|]);
  }

  lemma FlushRest(patterns: seq<string>, whole: string, t: string, last: Stream)
    requires Usable(patterns) && DrainedBy(patterns, Stream("", whole), t, last) && '\n' !in last.buf
    ensures last.out + Mask(patterns, last.buf) == MaskLines(patterns, whole)
  {
    hide Mask, MaskLines;
    MaskOneLine(patterns, last.buf);
    MaskWhole(patterns, t, last.buf);
    assert last.out == MaskLines(patterns, t);
  }

  // ---- No secret in the output ----

  /** Matching one place after the other, within the current line. */
  function Scan(patterns: seq<string>, s: string): string
    requires Usable(patterns)
    decreases |s|
  {
    if s == "" then ""
    else
      var m := FirstMatch(patterns, s[..LineEnd(s)]);
      if m.Some? then MASK + Scan(patterns, s[|m.value|..]) else [s[0]] + Scan(patterns, s[1..])
  }

  /** A line, or the rest of one, is scanned as it is masked. */
  lemma {:induction false} ScanLine(patterns: seq<string>, line: string, rest: string)
    requires Usable(patterns) && (forall k :: 0 <= k < |line| - 1 ==> line[k] != '\n')
    requires rest != "" ==> Whole(line)
    ensures Scan(patterns, line + rest) == Mask(patterns, line) + Scan(patterns, rest)
    decreases |line|
  {
    if line == "" {
      assert line + rest == rest;
    } else {
      var s := line + rest;
      var m := FirstMatch(patterns, line);
      var n := if m.Some? then |m.value| else 1;
      ScanStep(patterns, line, rest, n);
      ScanLine(patterns, line[n..], rest);
      Associate(if m.Some? then MASK else [line[0]], Mask(patterns, line[n..]), Scan(patterns, rest));
    }
  }

  lemma ScanStep(patterns: seq<string>, line: string, rest: string, n: nat)
    requires Usable(patterns) && line != "" && (forall k :: 0 <= k < |line| - 1 ==> line[k] != '\n')
    requires rest != "" ==> Whole(line)
    requires n == var m := FirstMatch(patterns, line); if m.Some? then |m.value| else 1
    ensures n <= |line| && (rest != "" ==> Whole(line[n..]))
    ensures forall k :: 0 <= k < |line[n..]| - 1 ==> line[n..][k] != '\n'
    ensures Scan(patterns, line + rest)
         == (if FirstMatch(patterns, line).Some? then MASK else [line[0]]) + Scan(patterns, line[n..] + rest)
  {
    var s := line + rest;
    LineEndIs(s, |line|);
    assert s[..|line|] == line && s[n..] == line[n..] + rest;
  }

  lemma {:induction false} ScanIsMask(patterns: seq<string>, s: string)
    requires Usable(patterns)
    ensures Scan(patterns, s) == MaskLines(patterns, s)
    decreases |s|
  {
    if s != "" {
      var n := LineEnd(s);
      ScanIsMask(patterns, s[n..]);
      assert s == s[..n] + s[n..];
      ScanLine(patterns, s[..n], s[n..]);
    }
  }

  /** A pattern that masking is sure to remove: within one line, and not to be pieced together with the mask. */
  predicate Clean(p: string) {
    p != "" && p[0] != '*' && Plain(p)
  }

  /** `q` has no newline except at its end, no mask in it and no star at its end. */
  predicate Plain(q: string) {
    && (q != "" ==> q[|q| - 1] != '*') && !Contains(q, MASK)
    && forall k :: 0 <= k < |q| - 1 ==> q[k] != '\n'
  }

  lemma PlainTail(q: string)
    requires q != "" && Plain(q)
    ensures Plain(q[1..])
  {
    if Contains(q[1..], MASK) {
      var k :| 0 <= k <= |q[1..]| && OccursAt(MASK, q[1..], k);
      assert q[1..][k..k + 3] == q[k + 1..k + 4];
      assert OccursAt(MASK, q, k + 1);
    }
  }

  lemma PlainStart(q: string, rest: string)
    requires q != "" && Plain(q)
    ensures !(q <= MASK + rest)
  {
    if |q| > 3 {
      assert !OccursAt(MASK, q, 0);
      assert (MASK + rest)[..3] == MASK;
    }
  }

  /** A plain beginning of the output is the beginning of the line it was made from. */
  lemma {:induction false} PrefixIsLiteral(patterns: seq<string>, s: string, q: string)
    requires Usable(patterns) && Plain(q) && q <= Scan(patterns, s)
    ensures q <= s[..LineEnd(s)]
    ensures q != "" ==> s != "" && FirstMatch(patterns, s[..LineEnd(s)]) == None
    decreases |s|
  {
    if q != "" {
      var m := FirstMatch(patterns, s[..LineEnd(s)]);
      if m.Some? {
        PlainStart(q, Scan(patterns, s[|m.value|..]));
      } else {
        PlainTail(q);
        PrefixIsLiteral(patterns, s[1..], q[1..]);
        assert q == [q[0]] + q[1..];
        if s[0] != '\n' {
          assert s[..LineEnd(s)] == [s[0]] + s[1..][..LineEnd(s[1..])];
        }
      }
    }
  }

  /** A clean pattern of the table occurs nowhere in the output. */
  lemma {:induction false} NoLeak(patterns: seq<string>, s: string, p: string, k: nat)
    requires Usable(patterns) && p in patterns && Clean(p)
    ensures !OccursAt(p, Scan(patterns, s), k)
    decreases |s|
  {
    var out := Scan(patterns, s);
    if OccursAt(p, out, k) {
      var m := FirstMatch(patterns, s[..LineEnd(s)]);
      assert out[k] == p[0];
      if k == 0 {
        assert p <= out;
        PrefixIsLiteral(patterns, s, p);
      } else if m.None? {
        assert out[k..k + |p|] == out[1..][k - 1..k - 1 + |p|];
        NoLeak(patterns, s[1..], p, k - 1);
      } else if k >= 3 {
        assert out[k..k + |p|] == out[3..][k - 3..k - 3 + |p|];
        NoLeak(patterns, s[|m.value|..], p, k - 3);
      }
    }
  }

  /** No clean pattern occurs in what the sink receives. */
  lemma CleanNeverLeaks(patterns: seq<string>, s: string, p: string)
    requires Usable(patterns) && p in patterns && Clean(p)
    ensures !Contains(MaskLines(patterns, s), p)
  {
    ScanIsMask(patterns, s);
    forall k: nat ensures !OccursAt(p, Scan(patterns, s), k) {
      NoLeak(patterns, s, p, k);
    }
  }

  // ---- Every other pattern leaks ----

  /** Up to `k` the pattern does not occur, so nothing is masked. */
  lemma {:induction false} Untouched(p: string, s: string, k: nat)
    requires p != "" && k <= |s| && forall j :: 0 <= j < k ==> !(p <= s[j..])
    ensures Scan([p], s) == s[..k] + Scan([p], s[k..])
    decreases |s|
  {
    hide Scan;
    assert s[0..] == s;
    if k > 0 {
      NotMatched(p, s);
      forall j | 0 <= j < k - 1 ensures !(p <= s[1..][j..]) {
        assert s[1..][j..] == s[j + 1..];
      }
      Untouched(p, s[1..], k - 1);
      Later(s, k, Scan([p], s[k..]));
    }
  }

  lemma Later(s: string, k: nat, rest: string)
    requires 0 < k <= |s|
    ensures s[1..][k - 1..] == s[k..] && [s[0]] + (s[1..][..k - 1] + rest) == s[..k] + rest
  {
    assert s[..k] == [s[0]] + s[1..][..k - 1];
  }

  lemma NotMatched(p: string, s: string)
    requires p != "" && s != "" && !(p <= s)
    ensures Scan([p], s) == [s[0]] + Scan([p], s[1..])
  {
    var line := s[..LineEnd(s)];
    assert FirstMatch([p], line) == None by {
      assert line <= s;
    }
  }

  lemma TooShort(p: string, s: string)
    requires p != "" && |s| < |p|
    ensures Scan([p], s) == s
  {
    Untouched(p, s, |s|);
    assert s[..|s|] == s && s[|s|..] == "";
  }

  /** `x` and `y` around the pattern stay, the pattern is masked. */
  lemma MaskedOnce(p: string, x: string, y: string)
    requires p != "" && (forall k :: 0 <= k < |p| - 1 ==> p[k] != '\n') && |y| < |p|
    requires forall j :: 0 <= j < |x| ==> !(p <= (x + p + y)[j..])
    ensures Scan([p], x + p + y) == x + (MASK + y)
  {
    var s := x + p + y;
    Untouched(p, s, |x|);
    assert s[|x|..] == p + y && s[..|x|] == x;
    LineEndCovers(p, y);
    assert p <= (p + y)[..LineEnd(p + y)];
    assert (p + y)[|p|..] == y;
    TooShort(p, y);
  }

  lemma LineEndCovers(p: string, y: string)
    requires p != "" && forall k :: 0 <= k < |p| - 1 ==> p[k] != '\n'
    ensures LineEnd(p + y) >= |p|
  {
    assert forall k :: 0 <= k < |p| - 1 ==> (p + y)[k] == p[k];
  }

  lemma LeakSpanning(p: string, k: nat)
    requires k < |p| - 1 && p[k] == '\n'
    ensures Scan([p], p) == p
  {
    assert p[0..] == p;
    assert FirstMatch([p], p[..LineEnd(p)]) == None by {
      assert LineEnd(p) < |p|;
    }
    TooShort(p, p[1..]);
  }

  lemma LeakFront(p: string)
    requires p != "" && p[0] == '*' && forall k :: 0 <= k < |p| - 1 ==> p[k] != '\n'
    ensures Contains(Scan([p], p + p[1..]), p)
  {
    hide Scan;
    MaskedOnce(p, "", p[1..]);
    assert "" + p + p[1..] == p + p[1..] && "" + (MASK + p[1..]) == MASK + p[1..];
    MaskTail(p);
  }

  lemma MaskTail(p: string)
    requires p != "" && p[0] == '*'
    ensures Contains(MASK + p[1..], p)
  {
    var s := MASK + p[1..];
    assert s[2..2 + |p|] == p;
    assert OccursAt(p, s, 2);
  }

  lemma LeakBack(p: string)
    requires p != "" && p[0] != '*' && p[|p| - 1] == '*' && forall k :: 0 <= k < |p| - 1 ==> p[k] != '\n'
    ensures Contains(Scan([p], p[..|p| - 1] + p), p)
  {
    hide Scan;
    var x := p[..|p| - 1];
    forall j | 0 <= j < |x| ensures !(p <= (x + p + "")[j..]) {
      NotShifted(p, x, x + p + "", j);
    }
    MaskedOnce(p, x, "");
    assert x + p + "" == x + p && MASK + "" == MASK;
    BackTail(p, x);
  }

  lemma NotShifted(p: string, x: string, s: string, j: nat)
    requires p != "" && p[0] != '*' && p == x + "*" && s == x + p + "" && j < |x|
    ensures !(p <= s[j..])
  {
    assert s[j..][0] == s[j] == x[j] == p[j] == s[j + |x|] == s[j..][|x|];
  }

  lemma BackTail(p: string, x: string)
    requires p == x + "*"
    ensures Contains(x + MASK, p)
  {
    assert (x + MASK)[0..|p|] == p;
    assert OccursAt(p, x + MASK, 0);
  }

  lemma NotEarlier(p: string, k: nat, s: string, j: nat)
    requires OccursAt(MASK, p, k) && j < k && !OccursAt(MASK, p, j) && OccursAt(p, s, k)
    ensures !(p <= s[j..])
  {
    assert |p[j..j + 3]| == 3;
    var i :| 0 <= i < 3 && p[j..j + 3][i] != '*';
    assert p[k..k + 3][i] == '*' == p[k + i];
    assert s[j..][k + i] == s[k..k + |p|][j + i] == p[j + i];
  }

  lemma LeakInside(p: string, k: nat)
    requires p != "" && OccursAt(MASK, p, k)
    requires (forall j :: 0 <= j < k ==> !OccursAt(MASK, p, j)) && forall j :: 0 <= j < |p| - 1 ==> p[j] != '\n'
    ensures Contains(Scan([p], p[..k] + p + p[k + 3..]), p)
  {
    hide Scan;
    var x, y := p[..k], p[k + 3..];
    var s := x + p + y;
    InsideParts(p, k);
    forall j | 0 <= j < |x| ensures !(p <= s[j..]) {
      NotEarlier(p, k, s, j);
    }
    MaskedOnce(p, x, y);
  }

  lemma InsideParts(p: string, k: nat)
    requires OccursAt(MASK, p, k)
    ensures OccursAt(p, p[..k] + p + p[k + 3..], k) && p[..k] + (MASK + p[k + 3..]) == p && Contains(p, p)
  {
    assert p[k..k + 3] == MASK;
    assert p[0..] == p && OccursAt(p, p, 0);
  }

  lemma {:induction false} FirstMask(p: string, k: nat) returns (m: nat)
    requires OccursAt(MASK, p, k)
    ensures OccursAt(MASK, p, m) && forall j :: 0 <= j < m ==> !OccursAt(MASK, p, j)
  {
    if j :| 0 <= j < k && OccursAt(MASK, p, j) {
      m := FirstMask(p, j);
    } else {
      m := k;
    }
  }

  /** `s` is written with characters of `p` only. */
  predicate Within(s: string, p: string) {
    forall k :: 0 <= k < |s| ==> s[k] in p
  }

  /** Every pattern but `p` has a character that `p` has not. */
  predicate Apart(patterns: seq<string>, p: string) {
    forall q :: q in patterns && q != p ==> !Within(q, p)
  }

  lemma {:induction false} OnlyMatch(patterns: seq<string>, p: string, s: string)
    requires p in patterns && Apart(patterns, p) && Within(s, p)
    ensures FirstMatch(patterns, s) == FirstMatch([p], s)
  {
    var m := FirstMatch(patterns, s);
    if m.Some? && m.value != p {
      WithinPrefix(m.value, s, p);
    }
  }

  lemma WithinPrefix(q: string, s: string, p: string)
    requires q <= s && Within(s, p)
    ensures Within(q, p)
  {
    assert forall k :: 0 <= k < |q| ==> q[k] == s[k];
  }

  /** Texts written with the characters of `p` are masked as if it were the only pattern. */
  lemma {:induction false} ScanAlone(patterns: seq<string>, p: string, s: string)
    requires Usable(patterns) && p in patterns && Apart(patterns, p) && Within(s, p)
    ensures Scan(patterns, s) == Scan([p], s)
    decreases |s|
  {
    if s != "" {
      var line := s[..LineEnd(s)];
      WithinPrefix(line, s, p);
      OnlyMatch(patterns, p, line);
      var m := FirstMatch(patterns, line);
      ScanAlone(patterns, p, if m.Some? then s[|m.value|..] else s[1..]);
    }
  }

  /** Some text lets the pattern through. */
  ghost predicate Leaks(patterns: seq<string>, p: string)
    requires Usable(patterns)
  {
    exists s :: Contains(MaskLines(patterns, s), p)
  }

  /** Some text lets a pattern through exactly when it is not clean, if every other pattern of the table has a
      character of its own. */
  lemma LeaksExactly(patterns: seq<string>, p: string)
    requires Usable(patterns) && p in patterns && Apart(patterns, p)
    ensures Leaks(patterns, p) <==> !Clean(p)
  {
    if s :| Contains(MaskLines(patterns, s), p) {
      if Clean(p) {
        CleanNeverLeaks(patterns, s, p);
      }
    }
    if !Clean(p) {
      var s := LeakingText(p);
      ScanAlone(patterns, p, s);
      ScanIsMask(patterns, s);
    }
  }

  lemma ContainsOn(s: string, p: string, q: string)
    requires Contains(s, p) && Contains(p, q)
    ensures Contains(s, q)
  {
    var i: nat :| i <= |s| && OccursAt(p, s, i);
    var k: nat :| k <= |p| && OccursAt(q, p, k);
    forall j | 0 <= j < |q| ensures s[i + k + j] == q[j] {
      assert s[i..i + |p|][k + j] == p[k + j] && p[k..k + |q|][j] == q[j];
    }
    assert OccursAt(q, s, i + k);
  }

  /** A pattern that contains a clean one never leaks either, clean or not. */
  lemma ShelteredNeverLeaks(patterns: seq<string>, p: string, q: string)
    requires Usable(patterns) && q in patterns && Clean(q) && Contains(p, q)
    ensures !Leaks(patterns, p)
  {
    if s :| Contains(MaskLines(patterns, s), p) {
      ContainsOn(MaskLines(patterns, s), p, q);
      CleanNeverLeaks(patterns, s, q);
    }
  }

  lemma LeakingText(p: string) returns (s: string)
    requires p != "" && !Clean(p)
    ensures Contains(Scan([p], s), p) && Within(s, p)
  {
    hide Scan;
    if k :| 0 <= k < |p| - 1 && p[k] == '\n' {
      LeakSpanning(p, k);
      s := p;
      assert p[0..|p|] == p && OccursAt(p, p, 0);
    } else if p[0] == '*' {
      LeakFront(p);
      s := p + p[1..];
    } else if p[|p| - 1] == '*' {
      LeakBack(p);
      s := p[..|p| - 1] + p;
    } else {
      var k :| 0 <= k <= |p| && OccursAt(MASK, p, k);
      var m := FirstMask(p, k);
      LeakInside(p, m);
      s := p[..m] + p + p[m + 3..];
    }
  }

  // ---- The table of patterns ----

  /** strings.TrimSpace, base64 without padding, and url.QueryEscape. */
  datatype Encoders = Encoders(trim: string -> string, base64: string -> string, escape: string -> string)

  /** The forms of one secret, in the order they are tried. */
  function Forms(enc: Encoders, secret: string): seq<string> {
    var s := enc.trim(secret);
    if s == "" then [] else [s, enc.base64(s), enc.escape(s)]
  }

  /** A form joins the table if it is long enough and not in it yet. */
  function AddForm(table: seq<string>, v: string): (r: seq<string>)
    ensures Usable(table) ==> Usable(r)
  {
    if |v| < MIN_LEN || v in table then table else table + [v]
  }

  function AddForms(table: seq<string>, forms: seq<string>): (r: seq<string>)
    ensures Usable(table) ==> Usable(r)
  {
    if forms == [] then table else AddForm(AddForms(table, forms[..|forms| - 1]), forms[|forms| - 1])
  }

  function Table(enc: Encoders, secrets: seq<string>): (r: seq<string>)
    ensures Usable(r)
  {
    if secrets == [] then []
    else AddForms(Table(enc, secrets[..|secrets| - 1]), Forms(enc, secrets[|secrets| - 1]))
  }

  /** The pairs hold the table with the mask beside each entry, and `seen` its entries. */
  ghost predicate Holds(pairs: seq<(string, string)>, seen: set<string>, table: seq<string>) {
    && seen == Elements(table) && |pairs| == |table|
    && forall i :: 0 <= i < |pairs| ==> pairs[i] == (table[i], MASK)
  }

  method Add(pairs: seq<(string, string)>, seen: set<string>, v: string, ghost table: seq<string>)
    returns (pairs': seq<(string, string)>, seen': set<string>)
    requires Holds(pairs, seen, table)
    ensures Holds(pairs', seen', AddForm(table, v))
  {
    if v == "" || |v| < MIN_LEN {
      return pairs, seen;
    }
    if v in seen {
      return pairs, seen;
    }
    return pairs + [(v, MASK)], seen + {v};
  }

  method BuildPairs(enc: Encoders, secrets: seq<string>) returns (pairs: seq<(string, string)>)
    ensures Holds(pairs, Elements(Table(enc, secrets)), Table(enc, secrets))
  {
    pairs := [];
    var seen: set<string> := {};
    for i := 0 to |secrets|
      invariant Holds(pairs, seen, Table(enc, secrets[..i]))
    {
      assert secrets[..i + 1][..i] == secrets[..i];
      ghost var table := Table(enc, secrets[..i]);
      var s := enc.trim(secrets[i]);
      if s == "" {
        continue;
      }
      var b64, ue := enc.base64(s), enc.escape(s);
      ThreeForms(table, s, b64, ue);
      hide Holds, AddForm, AddForms;
      pairs, seen := Add(pairs, seen, s, table);
      pairs, seen := Add(pairs, seen, b64, AddForm(table, s));
      if ue != s {
        pairs, seen := Add(pairs, seen, ue, AddForm(AddForm(table, s), b64));
      }
    }
    assert secrets[..|secrets|] == secrets;
  }

  lemma ThreeForms(table: seq<string>, s: string, b64: string, ue: string)
    ensures AddForms(table, [s, b64, ue]) == AddForm(AddForm(AddForm(table, s), b64), ue)
    ensures ue == s ==> AddForm(AddForm(AddForm(table, s), b64), ue) == AddForm(AddForm(table, s), b64)
  {
    assert [s, b64, ue][..2] == [s, b64] && [s, b64][..1] == [s];
    assert AddForms(table, [s]) == AddForm(table, s);
    assert AddForms(table, [s, b64]) == AddForm(AddForm(table, s), b64);
  }

  lemma {:induction false} AddFormsMembers(table: seq<string>, forms: seq<string>)
    ensures forall v :: v in AddForms(table, forms) <==> v in table || (v in forms && |v| >= MIN_LEN)
    ensures Distinct(table) ==> Distinct(AddForms(table, forms))
  {
    if forms != [] {
      var n := |forms| - 1;
      AddFormsMembers(table, forms[..n]);
      assert forms == forms[..n] + [forms[n]];
    }
  }

  /** The forms of the secrets that are tried: trimmed, then in base64, then escaped, unless nothing is left of the
      secret. */
  function Tried(enc: Encoders, secrets: seq<string>): seq<string> {
    if secrets == [] then []
    else
      var t := enc.trim(secrets[|secrets| - 1]);
      Tried(enc, secrets[..|secrets| - 1]) + if t == "" then [] else [t, enc.base64(t), enc.escape(t)]
  }

  function LongEnough(forms: seq<string>): seq<string> {
    if forms == [] then []
    else
      LongEnough(forms[..|forms| - 1]) + if |forms[|forms| - 1]| >= 4 then [forms[|forms| - 1]] else []
  }

  lemma {:induction false} LongEnoughMore(a: seq<string>, b: seq<string>)
    ensures LongEnough(a + b) == LongEnough(a) + LongEnough(b)
  {
    if b == [] {
      assert a + b == a;
    } else {
      LongEnoughMore(a, b[..|b| - 1]);
      assert (a + b)[..|a + b| - 1] == a + b[..|b| - 1];
    }
  }

  lemma {:induction false} AddFormsFirsts(s: seq<string>, table: seq<string>, forms: seq<string>)
    requires FirstsOf(s, table)
    ensures FirstsOf(s + LongEnough(forms), AddForms(table, forms))
  {
    hide FirstsOf;
    if forms == [] {
      assert s + [] == s;
    } else {
      var n := |forms| - 1;
      AddFormsFirsts(s, table, forms[..n]);
      FirstsMore(s + LongEnough(forms[..n]), AddForms(table, forms[..n]), forms[n]);
      assert s + LongEnough(forms) == s + LongEnough(forms[..n]) + (if |forms[n]| >= 4 then [forms[n]] else []);
      assert s + LongEnough(forms[..n]) + [] == s + LongEnough(forms[..n]);
    }
  }

  /** The table lists those of four characters or more, each once, in the order in which they come first; that is the
      order in which they are matched. */
  lemma {:induction false} TableFirsts(enc: Encoders, secrets: seq<string>)
    ensures FirstsOf(LongEnough(Tried(enc, secrets)), Table(enc, secrets))
  {
    hide FirstsOf, AddForms;
    if secrets == [] {
      FirstsNone<string>();
    } else {
      var n := |secrets| - 1;
      TableFirsts(enc, secrets[..n]);
      LongEnoughMore(Tried(enc, secrets[..n]), Forms(enc, secrets[n]));
      AddFormsFirsts(LongEnough(Tried(enc, secrets[..n])), Table(enc, secrets[..n]), Forms(enc, secrets[n]));
    }
  }

  /** The table lists, each once, exactly the forms of the secrets that have four characters or more. */
  lemma {:induction false} TableMembers(enc: Encoders, secrets: seq<string>)
    ensures Distinct(Table(enc, secrets))
    ensures forall v :: v in Table(enc, secrets) <==>
              |v| >= MIN_LEN && exists s :: s in secrets && v in Forms(enc, s)
  {
    if secrets != [] {
      var n := |secrets| - 1;
      TableMembers(enc, secrets[..n]);
      AddFormsMembers(Table(enc, secrets[..n]), Forms(enc, secrets[n]));
      assert secrets == secrets[..n] + [secrets[n]];
    }
  }

  /** Which secrets are safe on their own: a secret of four characters or more whose encoded forms, where they are
      long enough and differ from it, have a character that it has not. */
  lemma SecretLeaksExactly(enc: Encoders, secret: string)
    requires |enc.trim(secret)| >= MIN_LEN
    requires forall q :: q in Forms(enc, secret) && |q| >= MIN_LEN && q != enc.trim(secret) ==>
               !Within(q, enc.trim(secret))
    ensures Leaks(Table(enc, [secret]), enc.trim(secret)) <==> !Clean(enc.trim(secret))
  {
    var table, p := Table(enc, [secret]), enc.trim(secret);
    TableMembers(enc, [secret]);
    assert secret in [secret] && p in Forms(enc, secret);
    forall q | q in table && q != p ensures !Within(q, p) {
      assert exists s :: s in [secret] && q in Forms(enc, s);
    }
    LeaksExactly(table, p);
  }

  /** A secret of four characters or more that is clean never reaches the sink, whatever the other secrets are. */
  lemma SecretsStay(enc: Encoders, secrets: seq<string>, secret: string, form: string, chunks: seq<string>,
                    states: seq<Stream>)
    requires secret in secrets && form in Forms(enc, secret) && |form| >= MIN_LEN && Clean(form)
    requires Session(Table(enc, secrets), chunks, states)
    requires '\n' !in states[|chunks|].buf
    ensures !Contains(states[|chunks|].out + Mask(Table(enc, secrets), states[|chunks|].buf), form)
  {
    TableMembers(enc, secrets);
    ChunkIndependence(Table(enc, secrets), chunks, states);
    CleanNeverLeaks(Table(enc, secrets), Concat(chunks), form);
  }
}
