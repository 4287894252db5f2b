/** The parts of Python's `str` that the migration code relies on, over Dafny strings.
    Character classes follow Python's definitions for the ASCII range; `IsSpace` is the
    full `str.isspace` set. */
module PyStr {

  /** Python's `str.isspace()` (also the `\s` class of `re` on `str` patterns). */
  predicate IsSpace(c: char) {
    c == ' ' || ('\t' <= c <= '\r') || ('\U{1c}' <= c <= '\U{1f}') || c == '\U{85}' || c == '\U{a0}'
    || c == '\U{1680}' || ('\U{2000}' <= c <= '\U{200a}') || c == '\U{2028}' || c == '\U{2029}'
    || c == '\U{202f}' || c == '\U{205f}' || c == '\U{3000}'
  }

  /** The `\d` class (ASCII digits). */
  predicate IsDigit(c: char) { '0' <= c <= '9' }

  /** `[A-Za-z]`. */
  predicate IsAlpha(c: char) { 'A' <= c <= 'Z' || 'a' <= c <= 'z' }

  /** The `\w` class (ASCII letters, digits and underscore). */
  predicate IsWordChar(c: char) { IsAlpha(c) || IsDigit(c) || c == '_' }

  /** A line boundary of `str.splitlines()`; `\r\n` is handled as one boundary there. */
  predicate IsLineBreak(c: char) {
    c == '\n' || c == '\r' || c == '\U{0b}' || c == '\U{0c}' || ('\U{1c}' <= c <= '\U{1e}')
    || c == '\U{85}' || c == '\U{2028}' || c == '\U{2029}'
  }

  predicate AllDigits(s: string) { forall i :: 0 <= i < |s| ==> IsDigit(s[i]) }

  function Upper(c: char): char { if 'a' <= c <= 'z' then c - 'a' + 'A' else c }

  function Lower(c: char): char { if 'A' <= c <= 'Z' then c - 'A' + 'a' else c }

  /** Python's `str.capitalize()`: first character upper case, the rest lower case. */
  function Capitalize(s: string): (r: string)
    ensures |r| == |s|
    ensures forall i :: 0 <= i < |r| ==> Lower(r[i]) == Lower(s[i])
    ensures r != [] ==> !('a' <= r[0] <= 'z')
    ensures forall i :: 1 <= i < |r| ==> !('A' <= r[i] <= 'Z')
  {
    if s == [] then []
    else
      var r := [Upper(s[0])] + LowerAll(s[1..]);
      CapitalizeCases(s, r);
      r
  }

  /** Python's `str.lower()` on ASCII letters. */
  function LowerAll(t: string): (r: string)
    ensures |r| == |t| && forall i :: 0 <= i < |t| ==> r[i] == Lower(t[i])
  {
    seq(|t|, i requires 0 <= i < |t| => Lower(t[i]))
  }

  /** The case facts behind `Capitalize`'s contract. */
  lemma CapitalizeCases(s: string, r: string)
    requires s != [] && r == [Upper(s[0])] + LowerAll(s[1..])
    ensures |r| == |s| && forall i :: 0 <= i < |r| ==> Lower(r[i]) == Lower(s[i])
    ensures !('a' <= r[0] <= 'z') && forall i :: 1 <= i < |r| ==> !('A' <= r[i] <= 'Z')
  {
    CaseFolds(s[0]);
    forall i | 1 <= i < |r|
      ensures Lower(r[i]) == Lower(s[i]) && !('A' <= r[i] <= 'Z')
    {
      assert r[i] == Lower(s[i]);
      CaseFolds(s[i]);
    }
  }

  /** Lower-casing forgets any earlier change of case. */
  lemma CaseFolds(c: char)
    ensures Lower(Upper(c)) == Lower(c) && Lower(Lower(c)) == Lower(c)
    ensures !('A' <= Lower(c) <= 'Z') && !('a' <= Upper(c) <= 'z')
  {
  }

  /** Capitalizing twice is capitalizing once. */
  lemma CapitalizeIdempotent(s: string)
    ensures Capitalize(Capitalize(s)) == Capitalize(s)
  {
    var c := Capitalize(s);
    if c != [] {
      assert Capitalize(c)[0] == c[0];
      assert forall i :: 1 <= i < |c| ==> Capitalize(c)[i] == c[i];
    }
  }

  /** Number of leading whitespace characters. */
  function LeadingSpace(s: string): (n: nat)
    ensures n <= |s|
    ensures forall i :: 0 <= i < n ==> IsSpace(s[i])
    ensures n < |s| ==> !IsSpace(s[n])
  {
    if s == [] || !IsSpace(s[0]) then 0 else 1 + LeadingSpace(s[1..])
  }

  /** Number of trailing whitespace characters. */
  function TrailingSpace(s: string): (n: nat)
    ensures n <= |s|
    ensures forall i :: |s| - n <= i < |s| ==> IsSpace(s[i])
    ensures n < |s| ==> !IsSpace(s[|s| - 1 - n])
  {
    if s == [] || !IsSpace(s[|s| - 1]) then 0 else 1 + TrailingSpace(s[..|s| - 1])
  }

  /** Only whitespace lies outside `s[a..b]`. */
  predicate Trims(s: string, a: int, b: int) {
    0 <= a <= b <= |s| && (forall i :: 0 <= i < a ==> IsSpace(s[i])) &&
    (forall i :: b <= i < |s| ==> IsSpace(s[i]))
  }

  /** Python's `str.strip()`: the slice of `s` left once the whitespace at both ends is cut. */
  function Strip(s: string): (r: string)
    ensures Trims(s, LeadingSpace(s), LeadingSpace(s) + |r|)
    ensures r == s[LeadingSpace(s)..LeadingSpace(s) + |r|]
    ensures r == [] || (!IsSpace(r[0]) && !IsSpace(r[|r| - 1]))
    ensures (s == [] || (!IsSpace(s[0]) && !IsSpace(s[|s| - 1]))) ==> r == s
  {
    var a := LeadingSpace(s);
    if a == |s| then
      assert Trims(s, a, a);
      []
    else
      var b := |s| - TrailingSpace(s);
      assert Trims(s, a, b);
      s[a..b]
  }

  /** Python's `s.replace(c, t)` for a one-character pattern. */
  function ReplaceChar(s: string, c: char, t: string): (r: string)
    ensures |s| == 1 ==> r == (if s[0] == c then t else s)
    ensures |t| == 1 ==> |r| == |s| && forall i :: 0 <= i < |s| ==> r[i] == (if s[i] == c then t[0] else s[i])
    ensures c !in t ==> c !in r
    ensures c !in s ==> r == s
    ensures forall d :: d !in s && d !in t ==> d !in r
  {
    if s == [] then [] else (if s[0] == c then t else [s[0]]) + ReplaceChar(s[1..], c, t)
  }

  /** Replacing in a concatenation replaces in each part. */
  lemma {:induction false} ReplaceCharAppend(a: string, b: string, c: char, t: string)
    ensures ReplaceChar(a + b, c, t) == ReplaceChar(a, c, t) + ReplaceChar(b, c, t)
    decreases |a|
  {
    if a == [] {
      assert a + b == b;
    } else {
      assert (a + b)[0] == a[0] && (a + b)[1..] == a[1..] + b;
      ReplaceCharAppend(a[1..], b, c, t);
    }
  }

  /** Python's `sep.join(xs)`. */
  function Join(sep: string, xs: seq<string>): string
  {
    if xs == [] then "" else if |xs| == 1 then xs[0] else xs[0] + sep + Join(sep, xs[1..])
  }

  /** A character absent from the separator and from every piece is absent from the join. */
  lemma {:induction false} JoinAvoids(sep: string, xs: seq<string>, c: char)
    requires c !in sep
    requires forall i :: 0 <= i < |xs| ==> c !in xs[i]
    ensures c !in Join(sep, xs)
  {
    if |xs| > 1 {
      JoinAvoids(sep, xs[1..], c);
    }
  }

  /** Index of the first line boundary, or `|s|`. */
  function LineEnd(s: string): (n: nat)
    ensures n <= |s|
    ensures forall i :: 0 <= i < n ==> !IsLineBreak(s[i])
    ensures n < |s| ==> IsLineBreak(s[n])
  {
    if s == [] || IsLineBreak(s[0]) then 0 else 1 + LineEnd(s[1..])
  }

  /** The length of the line boundary at `n`: two for `\r\n`, one otherwise. */
  function BreakWidth(s: string, n: nat): (w: nat)
    requires n < |s|
    ensures w == 1 || w == 2
    ensures w == 2 <==> s[n] == '\r' && n + 1 < |s| && s[n + 1] == '\n'
  {
    if s[n] == '\r' && n + 1 < |s| && s[n + 1] == '\n' then 2 else 1
  }

  /** Text with no line boundary in it. */
  predicate SingleLine(t: string) {
    forall c :: c in t ==> !IsLineBreak(c)
  }

  /** Python's `str.splitlines()`: the lines without their boundaries; a final boundary does
      not open an empty last line, and `\r\n` is a single boundary. */
  function SplitLines(s: string): (lines: seq<string>)
    ensures s == [] <==> lines == []
    ensures s != [] ==> lines[0] == s[..LineEnd(s)]
    ensures LineEnd(s) == |s| && s != [] ==> lines == [s]
    decreases |s|
  {
    if s == [] then []
    else if LineEnd(s) == |s| then [s]
    else [s[..LineEnd(s)]] + SplitLines(s[LineEnd(s) + BreakWidth(s, LineEnd(s))..])
  }

  /** No line `SplitLines` returns holds a line boundary. */
  lemma {:induction false} SplitLinesSingle(s: string)
    ensures forall i :: 0 <= i < |SplitLines(s)| ==> SingleLine(SplitLines(s)[i])
    decreases |s|
  {
    var n := LineEnd(s);
    if s != [] && n < |s| {
      SplitLinesUnfold(s);
      SplitLinesSingle(s[n + BreakWidth(s, n)..]);
    }
  }

  /** `' '.join(s.splitlines())`: the text of a leaf element on a single line. */
  function JoinLines(s: string): (r: string)
    ensures SingleLine(r)
  {
    var lines := SplitLines(s);
    SplitLinesSingle(s);
    forall c | IsLineBreak(c) ensures c !in Join(" ", lines) {
      JoinAvoids(" ", lines, c);
    }
    Join(" ", lines)
  }

  /** Text whose only line boundaries are `\n` and which does not end with one. */
  predicate PlainLines(s: string) {
    (forall i :: 0 <= i < |s| && IsLineBreak(s[i]) ==> s[i] == '\n') && (s == [] || s[|s| - 1] != '\n')
  }

  /** `splitlines` undone: joining the lines of plain text with `\n` gives the text back. */
  lemma {:induction false} SplitLinesJoin(s: string)
    requires PlainLines(s)
    ensures Join("\n", SplitLines(s)) == s
    decreases |s|
  {
    var n := LineEnd(s);
    if s != [] && n < |s| {
      var rest := s[n + 1..];
      PlainLinesRest(s, n);
      SplitLinesJoin(rest);
      SplitLinesStep(s, n);
      JoinCons("\n", s[..n], SplitLines(rest));
      CutAt(s, n);
    } else if s != [] {
      assert SplitLines(s) == [s];
    } else {
      assert SplitLines(s) == [];
    }
  }

  /** A string is the part before position `n`, the character there, and the part after. */
  lemma CutAt(s: string, n: nat)
    requires n < |s|
    ensures s == s[..n] + [s[n]] + s[n + 1..]
  {
    assert s[n..] == [s[n]] + s[n + 1..];
    assert s == s[..n] + s[n..];
  }

  /** What follows the first boundary of plain text is plain text, and not empty. */
  lemma PlainLinesRest(s: string, n: nat)
    requires PlainLines(s) && n < |s| && IsLineBreak(s[n])
    ensures s[n] == '\n' && n + 1 < |s| && PlainLines(s[n + 1..])
  {
    var rest := s[n + 1..];
    assert forall i :: 0 <= i < |rest| ==> rest[i] == s[n + 1 + i];
  }

  /** At a `\n` boundary the first line is cut off. */
  lemma SplitLinesStep(s: string, n: nat)
    requires n == LineEnd(s) && n + 1 < |s| && s[n] == '\n'
    ensures SplitLines(s) == [s[..n]] + SplitLines(s[n + 1..]) && SplitLines(s[n + 1..]) != []
  {
    SplitLinesUnfold(s);
    assert BreakWidth(s, n) == 1 && s[n + 1..] != [];
  }

  /** One step of `SplitLines` on text with a line boundary. */
  lemma SplitLinesUnfold(s: string)
    requires LineEnd(s) < |s|
    ensures SplitLines(s) ==
      [s[..LineEnd(s)]] + SplitLines(s[LineEnd(s) + BreakWidth(s, LineEnd(s))..])
  {
    assert s != [];
  }

  /** Joining with `sep` and then replacing `c` by `t` joins the replaced pieces with `t`, when
      `sep` is `c` and no piece holds `c`. */
  lemma {:induction false} ReplaceJoin(xs: seq<string>, c: char, t: string)
    requires forall i :: 0 <= i < |xs| ==> c !in xs[i]
    ensures ReplaceChar(Join([c], xs), c, t) == Join(t, xs)
    decreases |xs|
  {
    if |xs| > 1 {
      ReplaceJoin(xs[1..], c, t);
      ReplaceCharAppend(xs[0] + [c], Join([c], xs[1..]), c, t);
      ReplaceCharAppend(xs[0], [c], c, t);
    }
  }

  /** For plain text, `' '.join(s.splitlines())` is the text with each `\n` turned into a space. */
  lemma JoinLinesSpaces(s: string)
    requires PlainLines(s)
    ensures JoinLines(s) == ReplaceChar(s, '\n', " ")
  {
    SplitLinesJoin(s);
    SplitLinesSingle(s);
    ReplaceJoin(SplitLines(s), '\n', " ");
  }

  /** Python's `s.startswith(p)`. */
  predicate StartsWith(s: string, p: string) { |p| <= |s| && s[..|p|] == p }

  /** Python's `sub in s`: `sub` occurs at some position of `s`. */
  predicate Contains(s: string, sub: string)
    decreases |s|
  {
    StartsWith(s, sub) || (s != [] && Contains(s[1..], sub))
  }

  /** `sub` occurs in `s` at position `i`. */
  predicate OccursAt(s: string, sub: string, i: int) {
    0 <= i && i + |sub| <= |s| && s[i..i + |sub|] == sub
  }

  /** An occurrence matches character by character. */
  lemma OccursChar(s: string, sub: string, i: int, j: int)
    requires OccursAt(s, sub, i) && 0 <= j < |sub|
    ensures s[i + j] == sub[j]
  {
    assert s[i..i + |sub|][j] == s[i + j];
  }

  /** `sub in s` means `sub` occurs at some position of `s`. */
  lemma {:induction false} ContainsOccurs(s: string, sub: string)
    requires Contains(s, sub)
    ensures exists i :: OccursAt(s, sub, i)
    decreases |s|
  {
    if StartsWith(s, sub) {
      assert OccursAt(s, sub, 0);
    } else {
      ContainsOccurs(s[1..], sub);
      var i :| OccursAt(s[1..], sub, i);
      assert s[i + 1..i + 1 + |sub|] == s[1..][i..i + |sub|];
      assert OccursAt(s, sub, i + 1);
    }
  }

  /** Index of the first `c` in `s`, or `|s|`. */
  function IndexOf(s: string, c: char): (n: nat)
    ensures n <= |s|
    ensures c !in s[..n]
    ensures n < |s| ==> s[n] == c
  {
    if s == [] || s[0] == c then 0 else 1 + IndexOf(s[1..], c)
  }

  /** Python's `s.split(c)` for a one-character separator. */
  function SplitOn(s: string, c: char): (pieces: seq<string>)
    ensures |pieces| >= 1
    ensures forall i :: 0 <= i < |pieces| ==> c !in pieces[i]
    decreases |s|
  {
    var n := IndexOf(s, c);
    if n == |s| then [s] else [s[..n]] + SplitOn(s[n + 1..], c)
  }

  /** Joining a piece in front of a non-empty list puts the separator after it. */
  lemma JoinCons(sep: string, x: string, rest: seq<string>)
    requires rest != []
    ensures Join(sep, [x] + rest) == x + sep + Join(sep, rest)
  {
    assert ([x] + rest)[1..] == rest;
  }

  /** Splitting on `c` and joining with `c` gives the original string back. */
  lemma {:induction false} SplitOnJoin(s: string, c: char)
    ensures Join([c], SplitOn(s, c)) == s
    decreases |s|
  {
    var n := IndexOf(s, c);
    if n < |s| {
      var head, tail := s[..n], s[n + 1..];
      var rest := SplitOn(tail, c);
      assert SplitOn(s, c) == [head] + rest;
      SplitOnJoin(tail, c);
      JoinCons([c], head, rest);
      assert Join([c], SplitOn(s, c)) == head + [c] + tail;
      CutAt(s, n);
    } else {
      assert SplitOn(s, c) == [s];
    }
  }

  /** Python's `s.split()` (no argument): the maximal runs of non-whitespace characters. */
  function Words(s: string): (ws: seq<string>)
    ensures forall i :: 0 <= i < |ws| ==> ws[i] != [] && forall c :: c in ws[i] ==> !IsSpace(c)
    ensures (exists i :: 0 <= i < |s| && !IsSpace(s[i])) ==> ws != []
    ensures s != [] && LeadingSpace(s) == 0 && WordEnd(s) == |s| ==> ws == [s]
    decreases |s|
  {
    var rest := s[LeadingSpace(s)..];
    if rest == [] then
      assert forall i :: 0 <= i < |s| ==> IsSpace(s[i]);
      []
    else
      var n := WordEnd(rest);
      assert n == |rest| ==> rest[..n] == rest && Words(rest[n..]) == [];
      [rest[..n]] + Words(rest[n..])
  }

  /** Leading whitespace does not change the words. */
  lemma WordsAfterSpace(s: string)
    ensures Words(s) == Words(s[LeadingSpace(s)..])
  {
    var rest := s[LeadingSpace(s)..];
    assert LeadingSpace(rest) == 0;
    assert rest[0..] == rest;
  }

  /** Length of the leading run of non-whitespace characters. */
  function WordEnd(s: string): (n: nat)
    ensures n <= |s|
    ensures forall i :: 0 <= i < n ==> !IsSpace(s[i])
    ensures n < |s| ==> IsSpace(s[n])
  {
    if s == [] || IsSpace(s[0]) then 0 else 1 + WordEnd(s[1..])
  }

  /** `split()` undone: words without whitespace, joined with single spaces, split back into
      the same words. */
  lemma {:induction false} WordsJoin(ws: seq<string>)
    requires forall i :: 0 <= i < |ws| ==> ws[i] != [] && forall c :: c in ws[i] ==> !IsSpace(c)
    ensures Words(Join(" ", ws)) == ws
    decreases |ws|
  {
    if |ws| == 1 {
      assert Join(" ", ws) == ws[0];
    } else if |ws| > 1 {
      var w, rest := ws[0], Join(" ", ws[1..]);
      WordsJoin(ws[1..]);
      JoinCons(" ", w, ws[1..]);
      WordsCons(w, rest);
    }
  }

  /** The words of `w + " " + rest`, for a word `w`. */
  lemma WordsCons(w: string, rest: string)
    requires w != [] && forall c :: c in w ==> !IsSpace(c)
    ensures Words(w + " " + rest) == [w] + Words(rest)
  {
    WordsFirst(w, rest);
    WordsSpace(rest);
  }

  /** A word followed by a space is the first word. */
  lemma WordsFirst(w: string, rest: string)
    requires w != [] && forall c :: c in w ==> !IsSpace(c)
    ensures Words(w + " " + rest) == [w] + Words(" " + rest)
  {
    var s, tail := w + " " + rest, " " + rest;
    assert s[0] == w[0];
    assert LeadingSpace(s) == 0;
    assert s[0..] == s;
    assert s[..|w|] == w;
    WordEndAt(s, w);
    assert s[|w|..] == tail;
  }

  /** One more leading space does not change the words. */
  lemma WordsSpace(rest: string)
    ensures Words(" " + rest) == Words(rest)
  {
    var tail := " " + rest;
    assert tail[1..] == rest;
    assert LeadingSpace(tail) == 1 + LeadingSpace(rest);
    WordsAfterSpace(tail);
    WordsAfterSpace(rest);
  }

  /** The first word of `w + " " + rest` is `w`. */
  lemma {:induction false} WordEndAt(s: string, w: string)
    requires |w| < |s| && s[..|w|] == w && IsSpace(s[|w|])
    requires forall c :: c in w ==> !IsSpace(c)
    ensures WordEnd(s) == |w|
    decreases |w|
  {
    if w != [] {
      assert s[0] == w[0];
      assert s[1..][..|w| - 1] == w[1..];
      WordEndAt(s[1..], w[1..]);
    }
  }
}
