/** String helpers shared by the model: the handful of Ruby `String` operations
    and regular-expression shapes the core uses, written out as functions. */
module Text {

  /** Ruby's whitespace class (`\s` and `String#split` with no argument). */
  predicate IsSpace(c: char) {
    c == ' ' || c == '\t' || c == '\n' || c == '\U{0B}' || c == '\U{0C}' || c == '\r'
  }

  predicate StartsWith(s: string, p: string) {
    |p| <= |s| && s[..|p|] == p
  }

  predicate EndsWith(s: string, x: string) {
    |x| <= |s| && s[|s| - |x|..] == x
  }

  /** `lit` occurs in `s` at position `i`. */
  predicate HasAt(s: string, i: int, lit: string) {
    0 <= i && i + |lit| <= |s| && s[i..i + |lit|] == lit
  }

  predicate Contains(s: string, lit: string) {
    exists i | 0 <= i <= |s| :: HasAt(s, i, lit)
  }

  /** Ruby's `^`: the start of the string or just after a newline. */
  predicate LineStartAt(s: string, p: int) {
    p == 0 || (0 < p <= |s| && s[p - 1] == '\n')
  }

  /** Ruby's `$`: the end of the string or just before a newline. */
  predicate LineEndAt(s: string, p: int) {
    p == |s| || (0 <= p < |s| && s[p] == '\n')
  }

  /** `s =~ /^lit/` for a literal `lit`. */
  predicate MatchesAtLineStart(s: string, lit: string) {
    exists p | 0 <= p <= |s| :: LineStartAt(s, p) && HasAt(s, p, lit)
  }

  /** `s =~ /lit$/` for a literal `lit`. */
  predicate MatchesAtLineEnd(s: string, lit: string) {
    exists p | 0 <= p <= |s| :: HasAt(s, p, lit) && LineEndAt(s, p + |lit|)
  }

  lemma StartsWithMatchesAtLineStart(s: string, lit: string)
    requires StartsWith(s, lit)
    ensures MatchesAtLineStart(s, lit)
  {
    assert LineStartAt(s, 0) && HasAt(s, 0, lit);
  }

  lemma EndsWithMatchesAtLineEnd(s: string, lit: string)
    requires EndsWith(s, lit)
    ensures MatchesAtLineEnd(s, lit)
  {
    assert HasAt(s, |s| - |lit|, lit) && LineEndAt(s, |s|);
  }

  /** Ruby's `str.split` (and `split(' ')`): the maximal runs of non-space characters. */
  function Words(s: string): (r: seq<string>)
    ensures forall k :: 0 <= k < |r| ==> r[k] != [] && forall c :: c in r[k] ==> !IsSpace(c)
    decreases |s|
  {
    if s == [] then []
    else if IsSpace(s[0]) then Words(s[1..])
    else
      var n := WordLength(s);
      [s[..n]] + Words(s[n..])
  }

  /** Length of the run of non-space characters at the head of `s`. */
  function WordLength(s: string): (n: nat)
    ensures n <= |s|
    ensures forall k :: 0 <= k < n ==> !IsSpace(s[k])
    ensures n < |s| ==> IsSpace(s[n])
  {
    if s == [] || IsSpace(s[0]) then 0 else 1 + WordLength(s[1..])
  }

  /** Words are found exactly where the text has no surrounding space. */
  lemma {:induction false} WordsOfSpaced(a: string, w: string, b: string)
    requires w != [] && forall c :: c in w ==> !IsSpace(c)
    ensures w in Words(a + " " + w + " " + b)
    decreases |a|
  {
    var s := a + " " + w + " " + b;
    if a == [] {
      assert s[0] == ' ' && s[1..] == w + " " + b;
      var t := w + " " + b;
      WordLengthOf(w, " " + b);
      assert t[..|w|] == w && t[|w|..] == " " + b;
    } else if IsSpace(a[0]) {
      assert s[1..] == a[1..] + " " + w + " " + b;
      WordsOfSpaced(a[1..], w, b);
    } else {
      var rest := " " + w + " " + b;
      assert s == a + rest;
      WordLengthBound(a, rest);
      var n := WordLength(s);
      assert s[0] == a[0];
      assert 0 < n <= |a|;
      assert s[n..] == a[n..] + " " + w + " " + b;
      assert Words(s) == [s[..n]] + Words(s[n..]);
      WordsOfSpaced(a[n..], w, b);
    }
  }

  lemma {:induction false} WordLengthOf(w: string, rest: string)
    requires forall c :: c in w ==> !IsSpace(c)
    requires rest != [] && IsSpace(rest[0])
    ensures WordLength(w + rest) == |w|
    decreases |w|
  {
    if w == [] {
      assert (w + rest)[0] == rest[0];
    } else {
      assert (w + rest)[0] == w[0];
      assert (w + rest)[1..] == w[1..] + rest;
      WordLengthOf(w[1..], rest);
    }
  }

  lemma {:induction false} WordLengthBound(a: string, rest: string)
    requires rest != [] && IsSpace(rest[0])
    ensures WordLength(a + rest) <= |a|
    decreases |a|
  {
    if a == [] {
      assert (a + rest)[0] == rest[0];
    } else if IsSpace(a[0]) {
      assert (a + rest)[0] == a[0];
    } else {
      assert (a + rest)[0] == a[0];
      assert (a + rest)[1..] == a[1..] + rest;
      WordLengthBound(a[1..], rest);
    }
  }

  /** A space splits the text: the words on either side of it, in order. */
  lemma {:induction false} WordsSplitAtSpace(a: string, c: char, b: string)
    requires IsSpace(c)
    ensures Words(a + [c] + b) == Words(a) + Words(b)
    decreases |a|
  {
    var s := a + [c] + b;
    if a == [] {
      assert s[0] == c && s[1..] == b;
    } else if IsSpace(a[0]) {
      assert s[0] == a[0];
      assert s[1..] == a[1..] + [c] + b;
      WordsSplitAtSpace(a[1..], c, b);
    } else {
      var rest := [c] + b;
      assert s == a + rest;
      WordLengthAppend(a, rest);
      var n := WordLength(a);
      assert s[0] == a[0];
      assert 0 < n <= |a|;
      assert s[..n] == a[..n];
      assert s[n..] == a[n..] + [c] + b;
      WordsSplitAtSpace(a[n..], c, b);
      assert Words(s) == [a[..n]] + (Words(a[n..]) + Words(b));
      assert Words(a) == [a[..n]] + Words(a[n..]);
      SeqAssoc([a[..n]], Words(a[n..]), Words(b));
    }
  }

  /** A non-empty run of non-space characters is one word. */
  lemma WordsOfWord(w: string)
    requires w != [] && forall c :: c in w ==> !IsSpace(c)
    ensures Words(w) == [w]
  {
    var n := WordLength(w);
    assert w[..n] == w && w[n..] == [];
  }

  /** A text of spaces only has no words. */
  lemma {:induction false} WordsOfSpaces(s: string)
    requires forall k :: 0 <= k < |s| ==> IsSpace(s[k])
    ensures Words(s) == []
    decreases |s|
  {
    if s != [] {
      assert forall k :: 0 <= k < |s[1..]| ==> s[1..][k] == s[k + 1];
      WordsOfSpaces(s[1..]);
    }
  }

  /** The first word's length does not see past a space. */
  lemma {:induction false} WordLengthAppend(a: string, rest: string)
    requires rest != [] && IsSpace(rest[0])
    ensures WordLength(a + rest) == WordLength(a)
    decreases |a|
  {
    if a == [] {
      assert (a + rest)[0] == rest[0];
    } else {
      assert (a + rest)[0] == a[0];
      if !IsSpace(a[0]) {
        assert (a + rest)[1..] == a[1..] + rest;
        WordLengthAppend(a[1..], rest);
      }
    }
  }

  /** Length of the first line of `s`, its newline included (as `gets` reads it). */
  function LineLength(s: string): (n: nat)
    ensures n <= |s|
    ensures s != [] ==> 0 < n
    ensures forall k :: 0 <= k < n - 1 ==> s[k] != '\n'
    ensures n < |s| ==> s[n - 1] == '\n'
  {
    if s == [] then 0
    else if s[0] == '\n' then 1
    else 1 + LineLength(s[1..])
  }

  /** Ruby's `String#lines` (and `IO.readlines`): one element per line, newline kept. */
  function Lines(s: string): (r: seq<string>)
    ensures forall k :: 0 <= k < |r| ==> r[k] != []
    decreases |s|
  {
    if s == [] then []
    else
      var n := LineLength(s);
      [s[..n]] + Lines(s[n..])
  }

  function Concat(ls: seq<string>): string {
    if ls == [] then [] else ls[0] + Concat(ls[1..])
  }

  /** Splitting into lines loses nothing: gluing the lines back gives the text. */
  lemma {:induction false} LinesConcat(s: string)
    ensures Concat(Lines(s)) == s
    decreases |s|
  {
    if s != [] {
      var n := LineLength(s);
      LinesConcat(s[n..]);
      assert s[..n] + s[n..] == s;
    }
  }

  /** A line as `String#lines` cuts a text that ends with a newline. */
  predicate WholeLine(line: string) {
    line != [] && line[|line| - 1] == '\n' && '\n' !in line[..|line| - 1]
  }

  /** A text that ends with a newline keeps its lines when more text follows. */
  lemma {:induction false} LinesSplit(a: string, b: string)
    requires a == [] || a[|a| - 1] == '\n'
    ensures Lines(a + b) == Lines(a) + Lines(b)
    decreases |a|
  {
    if a == [] {
      assert a + b == b;
    } else {
      var n := LineLength(a);
      var rest := a[n..];
      assert LineLength(a + b) == n by {
        LineLengthOfEnded(a, b);
      }
      assert (a + b)[..n] == a[..n];
      assert (a + b)[n..] == rest + b;
      assert rest == [] || rest[|rest| - 1] == '\n' by {
        if rest != [] {
          assert rest[|rest| - 1] == a[|a| - 1];
        }
      }
      assert Lines(rest + b) == Lines(rest) + Lines(b) by {
        LinesSplit(rest, b);
      }
      assert Lines(a + b) == [a[..n]] + Lines(rest + b);
      assert Lines(a) == [a[..n]] + Lines(rest);
      SeqAssoc([a[..n]], Lines(rest), Lines(b));
    }
  }

  lemma SeqAssoc<T>(x: seq<T>, y: seq<T>, z: seq<T>)
    ensures x + (y + z) == (x + y) + z
  {
  }

  lemma {:induction false} LineLengthOfEnded(a: string, b: string)
    requires a != [] && a[|a| - 1] == '\n'
    ensures LineLength(a + b) == LineLength(a)
    decreases |a|
  {
    assert (a + b)[0] == a[0];
    if a[0] != '\n' {
      assert (a + b)[1..] == a[1..] + b;
      LineLengthOfEnded(a[1..], b);
    }
  }

  lemma WholeLineOf(t: string)
    requires '\n' !in t
    ensures WholeLine(t + "\n")
  {
    assert (t + "\n")[..|t|] == t;
  }

  lemma {:induction false} ConcatSnoc(ls: seq<string>, x: string)
    ensures Concat(ls + [x]) == Concat(ls) + x
  {
    if ls != [] {
      assert (ls + [x])[1..] == ls[1..] + [x];
      ConcatSnoc(ls[1..], x);
    }
  }

  /** Appending one more piece to a text built as `text + Concat(ls)`. */
  lemma AppendPiece(text: string, r: string, ls: seq<string>, x: string)
    requires r == text + Concat(ls)
    ensures r + x == text + Concat(ls + [x])
  {
    ConcatSnoc(ls, x);
    assert r + x == text + (Concat(ls) + x);
  }

  /** Whole lines glued together are split back into the same lines. */
  lemma {:induction false} LinesOfWholeLines(ls: seq<string>)
    requires forall k :: 0 <= k < |ls| ==> WholeLine(ls[k])
    ensures Lines(Concat(ls)) == ls
  {
    if ls != [] {
      var a := ls[0];
      assert forall j :: 0 <= j < |a| - 1 ==> a[j] == a[..|a| - 1][j];
      LinesAppend(a, Concat(ls[1..]));
      LinesOfWholeLines(ls[1..]);
    }
  }

  /** Only a line's last character can be a newline, and every line but the
      last one ends with a newline. */
  lemma {:induction false} LineShape(s: string, k: nat)
    requires k < |Lines(s)|
    ensures forall j :: 0 <= j < |Lines(s)[k]| - 1 ==> Lines(s)[k][j] != '\n'
    ensures k < |Lines(s)| - 1 ==> Lines(s)[k][|Lines(s)[k]| - 1] == '\n'
    decreases |s|
  {
    var n := LineLength(s);
    assert Lines(s) == [s[..n]] + Lines(s[n..]);
    if k > 0 {
      LineShape(s[n..], k - 1);
      assert Lines(s)[k] == Lines(s[n..])[k - 1];
    }
  }

  /** A text made of one line with no newline inside is split into that line. */
  lemma LinesOfOneLine(line: string)
    requires line != []
    requires forall j :: 0 <= j < |line| - 1 ==> line[j] != '\n'
    ensures Lines(line) == [line]
  {
    var n := LineLength(line);
    assert n == |line|;
    assert line[..n] == line && line[n..] == [];
  }

  /** Lines of a concatenation whose first part ends with a newline. */
  lemma {:induction false} LinesAppend(a: string, b: string)
    requires a != [] && a[|a| - 1] == '\n'
    requires forall j :: 0 <= j < |a| - 1 ==> a[j] != '\n'
    ensures Lines(a + b) == [a] + Lines(b)
  {
    var s := a + b;
    LineLengthPrefix(a, b);
    assert s[..|a|] == a && s[|a|..] == b;
  }

  lemma {:induction false} LineLengthPrefix(a: string, b: string)
    requires a != [] && a[|a| - 1] == '\n'
    requires forall j :: 0 <= j < |a| - 1 ==> a[j] != '\n'
    ensures LineLength(a + b) == |a|
    decreases |a|
  {
    var s := a + b;
    assert s[0] == a[0];
    if |a| > 1 {
      assert s[1..] == a[1..] + b;
      LineLengthPrefix(a[1..], b);
    }
  }

  /** Ruby's `String#chomp`: drop one trailing "\r\n", "\n" or "\r". */
  function Chomp(s: string): (r: string)
    ensures StartsWith(s, r) && |s| - 2 <= |r|
    ensures !EndsWith(s, "\n") && !EndsWith(s, "\r") ==> r == s
    ensures EndsWith(s, "\n") && !EndsWith(s, "\r\n") ==> r + "\n" == s
    ensures EndsWith(s, "\r\n") ==> r + "\r\n" == s
    ensures EndsWith(s, "\r") ==> r + "\r" == s
  {
    if EndsWith(s, "\r\n") then
      assert s[..|s| - 2] + s[|s| - 2..] == s;
      s[..|s| - 2]
    else if EndsWith(s, "\n") then
      assert s == s[..|s| - 1] + "\n";
      s[..|s| - 1]
    else if EndsWith(s, "\r") then
      assert s == s[..|s| - 1] + "\r";
      s[..|s| - 1]
    else s
  }

  /** Ruby's `IO#puts` of one string: a newline is added unless there is one. */
  function Puts(s: string): (r: string)
    ensures EndsWith(r, "\n")
    ensures StartsWith(r, s) && |r| <= |s| + 1
    ensures EndsWith(s, "\n") ==> r == s
    ensures !EndsWith(s, "\n") ==> r == s + "\n"
  {
    if s != [] && s[|s| - 1] == '\n' then s else s + "\n"
  }

  /** Trailing characters `String#rstrip` removes: whitespace and NUL. */
  predicate IsTrailingStrip(c: char) {
    IsSpace(c) || c == '\0'
  }

  function LStrip(s: string): (r: string)
    ensures EndsWith(s, r)
    ensures r != [] ==> !IsSpace(r[0])
    ensures forall k :: 0 <= k < |s| - |r| ==> IsSpace(s[k])
  {
    if s != [] && IsSpace(s[0]) then
      var r := LStrip(s[1..]);
      assert forall k :: 1 <= k < |s| - |r| ==> s[k] == s[1..][k - 1];
      r
    else s
  }

  function RStrip(s: string): (r: string)
    ensures StartsWith(s, r)
    ensures r != [] ==> !IsTrailingStrip(r[|r| - 1])
    ensures forall k :: |r| <= k < |s| ==> IsTrailingStrip(s[k])
  {
    if s != [] && IsTrailingStrip(s[|s| - 1]) then
      var r := RStrip(s[..|s| - 1]);
      assert forall k :: |r| <= k < |s| - 1 ==> s[k] == s[..|s| - 1][k];
      r
    else s
  }

  /** Ruby's `String#strip`. */
  function Strip(s: string): (r: string)
    ensures r != [] ==> !IsSpace(r[0]) && !IsTrailingStrip(r[|r| - 1])
    ensures r == [] <==> forall k :: 0 <= k < |s| ==> IsTrailingStrip(s[k])
    ensures exists i, j :: StrippedSlice(s, r, i, j)
  {
    StripEnds(s);
    StripSlice(s);
    RStrip(LStrip(s))
  }

  /** `r` is the slice `s[i..j]`, with only whitespace before it and only
      whitespace or NUL after it. */
  predicate StrippedSlice(s: string, r: string, i: int, j: int) {
    0 <= i <= j <= |s| && r == s[i..j] && AllSpace(s[..i]) && AllTrailingStrip(s[j..])
  }

  predicate AllSpace(t: string) {
    forall c :: c in t ==> IsSpace(c)
  }

  predicate AllTrailingStrip(t: string) {
    forall c :: c in t ==> IsTrailingStrip(c)
  }

  /** What `strip` keeps is one slice of the text, with only leading
      whitespace before it and only trailing whitespace or NUL after it. */
  lemma StripSlice(s: string)
    ensures var i := |s| - |LStrip(s)|;
      StrippedSlice(s, RStrip(LStrip(s)), i, i + |RStrip(LStrip(s))|)
  {
    var a := LStrip(s);
    var r := RStrip(a);
    var i := |s| - |a|;
    LeadingSpaces(s, i);
    TrailingStrips(s, a, r);
  }

  lemma LeadingSpaces(s: string, i: int)
    requires 0 <= i <= |s|
    requires forall k :: 0 <= k < i ==> IsSpace(s[k])
    ensures AllSpace(s[..i])
  {
    forall c | c in s[..i] ensures IsSpace(c) {
      var k :| 0 <= k < i && s[..i][k] == c;
    }
  }

  /** A prefix `r` of a suffix `a` of `s` is a slice of `s`; what follows `r`
      in `a` follows it in `s`. */
  lemma TrailingStrips(s: string, a: string, r: string)
    requires EndsWith(s, a) && StartsWith(a, r)
    requires forall k :: |r| <= k < |a| ==> IsTrailingStrip(a[k])
    ensures var i := |s| - |a|; r == s[i..i + |r|] && AllTrailingStrip(s[i + |r|..])
  {
    var i := |s| - |a|;
    assert a == s[i..];
    assert s[i + |r|..] == a[|r|..];
    forall c | c in a[|r|..] ensures IsTrailingStrip(c) {
      var k :| 0 <= k < |a| - |r| && a[|r|..][k] == c;
      assert c == a[|r| + k];
    }
  }

  lemma StripEnds(s: string)
    ensures var r := RStrip(LStrip(s));
      && (r != [] ==> !IsSpace(r[0]) && !IsTrailingStrip(r[|r| - 1]))
      && (r == [] <==> forall k :: 0 <= k < |s| ==> IsTrailingStrip(s[k]))
  {
    var a := LStrip(s);
    var r := RStrip(a);
    var n := |s| - |a|;
    assert a == s[n..];
    if r != [] {
      assert r[0] == a[0];
      assert !IsSpace(r[0]);
      assert s[n + |r| - 1] == a[|r| - 1];
    } else {
      forall k | 0 <= k < |s| ensures IsTrailingStrip(s[k]) {
        if k >= n {
          assert s[k] == a[k - n];
        }
      }
    }
  }

  /** Ruby's `String#sub(pat, rep)` with a literal pattern: the first occurrence only. */
  function ReplaceFirst(s: string, pat: string, rep: string): (r: string)
    requires pat != []
    ensures !Contains(s, pat) ==> r == s
    decreases |s|
  {
    if |s| < |pat| then
      assert !Contains(s, pat);
      s
    else if s[..|pat|] == pat then
      assert HasAt(s, 0, pat);
      rep + s[|pat|..]
    else
      var t := ReplaceFirst(s[1..], pat, rep);
      assert !Contains(s, pat) ==> !Contains(s[1..], pat) by {
        if Contains(s[1..], pat) {
          var i :| 0 <= i <= |s[1..]| && HasAt(s[1..], i, pat);
          assert s[i + 1..i + 1 + |pat|] == s[1..][i..i + |pat|];
          assert HasAt(s, i + 1, pat);
        }
      }
      [s[0]] + t
  }

  lemma ReplaceFirstAtHead(s: string, pat: string, rep: string)
    requires pat != [] && StartsWith(s, pat)
    ensures ReplaceFirst(s, pat, rep) == rep + s[|pat|..]
  {
  }

  /** The replacement happens at the first occurrence of the pattern, and
      nowhere else. */
  lemma {:induction false} ReplaceFirstAt(s: string, pat: string, rep: string, i: nat)
    requires pat != [] && HasAt(s, i, pat)
    requires forall j :: 0 <= j < i ==> !HasAt(s, j, pat)
    ensures ReplaceFirst(s, pat, rep) == s[..i] + rep + s[i + |pat|..]
    decreases i
  {
    if i > 0 {
      assert !HasAt(s, 0, pat);
      assert s[..|pat|] != pat;
      var t := s[1..];
      assert HasAt(t, i - 1, pat) by {
        assert t[i - 1..i - 1 + |pat|] == s[i..i + |pat|];
      }
      forall j | 0 <= j < i - 1 ensures !HasAt(t, j, pat) {
        assert !HasAt(s, j + 1, pat);
        assert t[j..j + |pat|] == s[j + 1..j + 1 + |pat|];
      }
      ReplaceFirstAt(t, pat, rep, i - 1);
      assert t[..i - 1] == s[1..i] && t[i - 1 + |pat|..] == s[i + |pat|..];
      assert ReplaceFirst(s, pat, rep) == [s[0]] + ReplaceFirst(t, pat, rep);
      calc {
        [s[0]] + ReplaceFirst(t, pat, rep);
        [s[0]] + (s[1..i] + rep + s[i + |pat|..]);
        { SeqAssoc([s[0]], s[1..i] + rep, s[i + |pat|..]);
          SeqAssoc([s[0]], s[1..i], rep); }
        [s[0]] + s[1..i] + rep + s[i + |pat|..];
        { assert [s[0]] + s[1..i] == s[..i]; }
        s[..i] + rep + s[i + |pat|..];
      }
    } else {
      assert s[..|pat|] == pat;
      assert s[..0] + rep == rep;
    }
  }

  /** A character in neither the text nor the replacement is not in the result. */
  lemma {:induction false} ReplaceFirstKeepsOut(s: string, pat: string, rep: string, c: char)
    requires pat != [] && c !in s && c !in rep
    ensures c !in ReplaceFirst(s, pat, rep)
    decreases |s|
  {
    if |s| >= |pat| && s[..|pat|] != pat {
      assert forall x :: x in s[1..] ==> x in s;
      ReplaceFirstKeepsOut(s[1..], pat, rep, c);
    } else if |s| >= |pat| {
      assert forall x :: x in s[|pat|..] ==> x in s;
    }
  }

  /** `s.gsub(a, b)` for single characters `a` and `b`. */
  function ReplaceChar(s: string, a: char, b: char): (r: string)
    ensures |r| == |s|
    ensures forall k :: 0 <= k < |s| ==> r[k] == (if s[k] == a then b else s[k])
  {
    if s == [] then [] else [if s[0] == a then b else s[0]] + ReplaceChar(s[1..], a, b)
  }

  /** `parts.join(sep)`. */
  function Join(parts: seq<string>, sep: string): string {
    if parts == [] then []
    else if |parts| == 1 then parts[0]
    else parts[0] + sep + Join(parts[1..], sep)
  }

  /** The text after the last `/`. */
  function LastSegment(f: string): (r: string)
    ensures EndsWith(f, r) && '/' !in r
    ensures |r| < |f| ==> f[|f| - |r| - 1] == '/'
    ensures f != [] && f[|f| - 1] != '/' ==> r != []
  {
    if f == [] then []
    else if f[|f| - 1] == '/' then []
    else LastSegment(f[..|f| - 1]) + [f[|f| - 1]]
  }

  /** `f` without its trailing slashes. */
  function TrimTrailingSlashes(f: string): (r: string)
    ensures StartsWith(f, r)
    ensures r == [] || r[|r| - 1] != '/'
    ensures forall k :: |r| <= k < |f| ==> f[k] == '/'
  {
    if f != [] && f[|f| - 1] == '/' then TrimTrailingSlashes(f[..|f| - 1]) else f
  }

  /** `File.basename`: the last component of the path, trailing slashes
      ignored; a path of slashes only gives `/`. */
  function Basename(f: string): (r: string)
    ensures r == [] <==> f == []
    ensures r == "/" <==> f != [] && forall k :: 0 <= k < |f| ==> f[k] == '/'
    ensures r != "/" ==> '/' !in r
    ensures r != "/" ==> var t := TrimTrailingSlashes(f);
      EndsWith(t, r) && (|r| < |t| ==> t[|t| - |r| - 1] == '/')
  {
    var t := TrimTrailingSlashes(f);
    if t == [] then (if f == [] then [] else "/")
    else
      assert t[|t| - 1] == f[|t| - 1];
      LastSegment(t)
  }

  /** A trailing slash does not change the base name. */
  lemma BasenameIgnoresTrailingSlash(f: string)
    requires f != []
    ensures Basename(f + "/") == Basename(f)
  {
    assert (f + "/")[..|f|] == f;
    assert TrimTrailingSlashes(f + "/") == TrimTrailingSlashes(f);
  }

  /** Index of the last occurrence of `c` in `s`, if any. */
  function LastIndexOf(s: string, c: char): (r: Option<nat>)
    ensures r.None? <==> c !in s
    ensures r.Some? ==> r.value < |s| && s[r.value] == c && c !in s[r.value + 1..]
  {
    if s == [] then None
    else if s[|s| - 1] == c then
      assert s[|s|..] == [];
      Some(|s| - 1)
    else
      var init := s[..|s| - 1];
      var r := LastIndexOf(init, c);
      assert c in s <==> c in init by {
        assert s == init + [s[|s| - 1]];
      }
      assert r.Some? ==> s[r.value + 1..] == init[r.value + 1..] + [s[|s| - 1]];
      r
  }

  /** The last occurrence is the one with none after it. */
  lemma LastIndexOfAt(s: string, c: char, k: nat)
    requires k < |s| && s[k] == c && c !in s[k + 1..]
    ensures LastIndexOf(s, c) == Some(k)
  {
    assert s[k] in s;
  }

  /** `a` can be obtained from `b` by deleting elements: the order is kept. */
  predicate IsSubsequence<T(==)>(a: seq<T>, b: seq<T>)
    decreases |b|
  {
    if a == [] then true
    else if b == [] then false
    else if a[0] == b[0] then IsSubsequence(a[1..], b[1..])
    else IsSubsequence(a, b[1..])
  }

  lemma {:induction false} SubsequenceAppend<T>(a: seq<T>, b: seq<T>, x: T, keep: bool)
    requires IsSubsequence(a, b)
    ensures IsSubsequence(if keep then a + [x] else a, b + [x])
    decreases |b|
  {
    if a == [] {
      if keep {
        assert a + [x] == [x];
        SubsequenceOfSingleton(x, b);
      }
    } else if b == [] {
    } else if a[0] == b[0] {
      SubsequenceAppend(a[1..], b[1..], x, keep);
      assert (b + [x])[1..] == b[1..] + [x];
      if keep { assert (a + [x])[1..] == a[1..] + [x]; }
    } else {
      SubsequenceAppend(a, b[1..], x, keep);
      assert (b + [x])[1..] == b[1..] + [x];
      if keep { assert (a + [x])[0] == a[0]; }
    }
  }

  lemma {:induction false} SubsequenceOfSingleton<T>(x: T, b: seq<T>)
    ensures IsSubsequence([x], b + [x])
    decreases |b|
  {
    if b != [] {
      assert (b + [x])[1..] == b[1..] + [x];
      if b[0] != x {
        SubsequenceOfSingleton(x, b[1..]);
      } else {
        assert [x][1..] == [];
      }
    } else {
      assert [x][1..] == [] && ([] + [x])[1..] == [];
    }
  }

  /** Ruby's `Array#-`: the elements of `a` that do not occur in `b`, in order. */
  function Difference(a: seq<string>, b: seq<string>): (r: seq<string>)
    ensures forall x :: x in r <==> x in a && x !in b
    ensures |r| <= |a|
  {
    if a == [] then [] else (if a[0] in b then [] else [a[0]]) + Difference(a[1..], b)
  }

  datatype Option<T> = None | Some(value: T)
}
