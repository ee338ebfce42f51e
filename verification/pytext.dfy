/**
 * The few pieces of Python's string and sequence semantics that the dream
 * service relies on: `str.isspace`, `strip`/`rstrip`, `lower`, `find`, `in`,
 * `splitlines`, `"\n".join`, and slices with possibly negative bounds.
 * Strings are sequences of Unicode code points, as `len` counts them.
 */
module Basics {
  datatype Option<+T> = None | Some(value: T) {
    function GetOr(default: T): T {
      match this
      case Some(v) => v
      case None => default
    }
  }

  function Min(a: int, b: int): int { if a <= b then a else b }
  function Max(a: int, b: int): int { if a <= b then b else a }
}

module PyText {
  import opened Basics

  /** The characters for which Python's `str.isspace()` is true. */
  predicate IsSpace(c: char) {
    c == ' ' || ('\t' <= c <= '\r') || ('\U{1C}' <= c <= '\U{1F}')
    || c == '\U{85}' || c == '\U{A0}' || c == '\U{1680}'
    || ('\U{2000}' <= c <= '\U{200A}') || c == '\U{2028}' || c == '\U{2029}'
    || c == '\U{202F}' || c == '\U{205F}' || c == '\U{3000}'
  }

  /** The line boundaries of Python's `str.splitlines()` (all of them are spaces). */
  predicate IsLineBreak(c: char) {
    ('\n' <= c <= '\r') || ('\U{1C}' <= c <= '\U{1E}')
    || c == '\U{85}' || c == '\U{2028}' || c == '\U{2029}'
  }

  /** `not s.strip()`: the text is empty or only whitespace. */
  predicate IsBlank(s: string) {
    forall i :: 0 <= i < |s| ==> IsSpace(s[i])
  }

  /** Neither end of the text is a space (what `strip()` produces). */
  predicate IsStripped(s: string) {
    s == [] || (!IsSpace(s[0]) && !IsSpace(s[|s| - 1]))
  }

  predicate StartsWith(s: string, prefix: string) {
    |prefix| <= |s| && s[..|prefix|] == prefix
  }

  predicate EndsWith(s: string, suffix: string) {
    |suffix| <= |s| && s[|s| - |suffix|..] == suffix
  }

  /** `s.lstrip()` */
  function LStrip(s: string): (r: string)
    ensures |r| <= |s| && r == s[|s| - |r|..]
    ensures r == [] || !IsSpace(r[0])
    ensures forall i :: 0 <= i < |s| - |r| ==> IsSpace(s[i])
  {
    if s != [] && IsSpace(s[0]) then
      var r := LStrip(s[1..]);
      assert s[1..][|s| - 1 - |r|..] == s[|s| - |r|..];
      assert forall i :: 1 <= i < |s| - |r| ==> s[i] == s[1..][i - 1];
      r
    else s
  }

  /** `s.rstrip()` */
  function RStrip(s: string): (r: string)
    ensures r <= s
    ensures r == [] || !IsSpace(r[|r| - 1])
    ensures forall i :: |r| <= i < |s| ==> IsSpace(s[i])
  {
    if s != [] && IsSpace(s[|s| - 1]) then
      var r := RStrip(s[..|s| - 1]);
      assert forall i :: |r| <= i < |s| - 1 ==> s[i] == s[..|s| - 1][i];
      r
    else s
  }

  /** `s.strip()` */
  function Strip(s: string): (r: string)
    ensures IsStripped(r)
    ensures r == [] <==> IsBlank(s)
    ensures |r| <= |s|
  {
    var l := LStrip(s);
    StripParts(s, l, RStrip(l));
    RStrip(l)
  }

  /** Stripping a text without spaces at either end changes nothing. */
  lemma {:induction false} StripStripped(s: string)
    requires IsStripped(s)
    ensures Strip(s) == s
  {
    assert LStrip(s) == s;
    assert RStrip(s) == s;
  }

  lemma {:induction false} StripParts(s: string, l: string, r: string)
    requires l == LStrip(s) && r == RStrip(l)
    ensures IsStripped(r)
    ensures r == [] <==> IsBlank(s)
  {
    if r == [] {
      // a non-empty `l` starts with a non-space, which `rstrip` keeps
      assert l == [];
    } else {
      assert r[0] == l[0];
      assert s[|s| - |l|] == l[0];
    }
  }

  /** Python's `str.lower()` restricted to the letters that have a
      one-character lower-case form in ASCII and Latin-1. */
  function LowerChar(c: char): char {
    if 'A' <= c <= 'Z' || ('\U{C0}' <= c <= '\U{DE}' && c != '\U{D7}')
    then (c as int + 32) as char
    else c
  }

  function Lower(s: string): (r: string)
    ensures |r| == |s|
    ensures forall i :: 0 <= i < |r| ==> !('A' <= r[i] <= 'Z')
    ensures forall i :: 0 <= i < |s| && !('A' <= s[i] <= 'Z') && !('\U{C0}' <= s[i] <= '\U{DE}') ==> r[i] == s[i]
  {
    seq(|s|, i requires 0 <= i < |s| => LowerChar(s[i]))
  }

  /** `sub` occurs in `s` starting at index `i`. */
  predicate OccursAt(s: string, sub: string, i: int) {
    0 <= i && i + |sub| <= |s| && s[i..i + |sub|] == sub
  }

  /** Python's `sub in s`. */
  predicate Contains(s: string, sub: string) {
    exists i :: 0 <= i <= |s| - |sub| && OccursAt(s, sub, i)
  }

  lemma OccursInConcat(a: string, b: string, c: string)
    ensures OccursAt(a + b + c, b, |a|)
  {
    assert (a + b + c)[|a|..|a| + |b|] == b;
  }

  lemma StartsWithConcat(x: string, y: string)
    ensures StartsWith(x + y, x)
  {
    assert (x + y)[..|x|] == x;
  }

  lemma EndsWithConcat(x: string, y: string)
    ensures EndsWith(x + y, y)
  {
    assert (x + y)[|x + y| - |y|..] == y;
  }

  lemma EndsWithGrow(pre: string, s: string, suffix: string)
    requires EndsWith(s, suffix)
    ensures EndsWith(pre + s, suffix)
  {
    assert (pre + s)[|pre + s| - |suffix|..] == s[|s| - |suffix|..];
  }

  lemma StartsWithGrow(s: string, p: string, post: string)
    requires StartsWith(s, p)
    ensures StartsWith(s + post, p)
  {
    assert (s + post)[..|p|] == s[..|p|];
  }

  lemma StartsWithContains(s: string, p: string)
    requires StartsWith(s, p)
    ensures Contains(s, p)
  {
    assert OccursAt(s, p, 0);
  }

  lemma ContainsSelf(s: string)
    ensures Contains(s, s)
  {
    assert OccursAt(s, s, 0);
  }

  lemma ContainsGrow(s: string, sub: string, pre: string, post: string)
    requires Contains(s, sub)
    ensures Contains(pre + s, sub) && Contains(s + post, sub)
  {
    var i :| 0 <= i <= |s| - |sub| && OccursAt(s, sub, i);
    assert (pre + s)[|pre| + i..|pre| + i + |sub|] == s[i..i + |sub|];
    assert OccursAt(pre + s, sub, |pre| + i);
    assert (s + post)[i..i + |sub|] == s[i..i + |sub|];
    assert OccursAt(s + post, sub, i);
  }

  function FindFrom(s: string, sub: string, i: nat): (r: int)
    requires i <= |s|
    ensures r == -1 || (i <= r && OccursAt(s, sub, r))
    ensures r == -1 ==> forall j :: i <= j ==> !OccursAt(s, sub, j)
    ensures r != -1 ==> forall j :: i <= j < r ==> !OccursAt(s, sub, j)
    decreases |s| - i
  {
    if i + |sub| > |s| then -1
    else if s[i..i + |sub|] == sub then i
    else if i == |s| then -1
    else FindFrom(s, sub, i + 1)
  }

  /** Python's `s.find(sub)`: the first index where `sub` occurs, or -1. */
  function Find(s: string, sub: string): (r: int)
    ensures r == -1 <==> !Contains(s, sub)
    ensures r != -1 ==> OccursAt(s, sub, r) && forall j :: 0 <= j < r ==> !OccursAt(s, sub, j)
  {
    FindFrom(s, sub, 0)
  }

  /** Python's `s[:j]`, negative `j` counting from the end. */
  function PyTo<T>(s: seq<T>, j: int): (r: seq<T>)
    ensures r <= s
    ensures j >= 0 ==> |r| == Min(j, |s|)
    ensures j < 0 ==> |r| == Max(0, |s| + j)
  {
    if j >= 0 then s[..Min(j, |s|)] else s[..Max(0, |s| + j)]
  }

  /** Python's `s[i:]`, negative `i` counting from the end. */
  function PyFrom<T>(s: seq<T>, i: int): (r: seq<T>)
    ensures |r| <= |s| && r == s[|s| - |r|..]
    ensures i >= 0 ==> |r| == |s| - Min(i, |s|)
    ensures i < 0 ==> |r| == Min(-i, |s|)
  {
    if i >= 0 then s[Min(i, |s|)..] else s[Max(0, |s| + i)..]
  }

  /** The index of the first line boundary in `s`, or `|s|`. */
  function LineEnd(s: string): (r: nat)
    ensures r <= |s|
    ensures r < |s| ==> IsLineBreak(s[r])
    ensures forall j :: 0 <= j < r ==> !IsLineBreak(s[j])
  {
    if s == [] || IsLineBreak(s[0]) then 0 else 1 + LineEnd(s[1..])
  }

  predicate NoLineBreak(s: string) {
    forall j :: 0 <= j < |s| ==> !IsLineBreak(s[j])
  }

  /** Python's `s.splitlines()`; "\r\n" is one boundary and a final
      boundary does not start an empty last line. */
  function SplitLines(s: string): (r: seq<string>)
    ensures s != [] <==> |r| >= 1
    ensures s != [] ==> r[0] == s[..LineEnd(s)]
    ensures forall k :: 0 <= k < |r| ==> NoLineBreak(r[k])
    decreases |s|
  {
    if s == [] then []
    else
      var e := LineEnd(s);
      if e == |s| then [s]
      else
        var next := if s[e] == '\r' && e + 1 < |s| && s[e + 1] == '\n' then e + 2 else e + 1;
        [s[..e]] + SplitLines(s[next..])
  }

  /** Python's `sep.join(parts)`. */
  function Join(sep: string, parts: seq<string>): (r: string)
    ensures parts != [] ==> StartsWith(r, parts[0]) && EndsWith(r, parts[|parts| - 1])
    ensures parts == [] ==> r == []
  {
    if parts == [] then []
    else if |parts| == 1 then parts[0]
    else
      JoinStep(parts[0], sep, Join(sep, parts[1..]), parts[|parts| - 1]);
      parts[0] + sep + Join(sep, parts[1..])
  }

  /** A joined piece keeps the first part at its head and the last part's
      tail at its end. */
  lemma {:induction false} JoinStep(first: string, sep: string, rest: string, last: string)
    requires EndsWith(rest, last)
    ensures StartsWith(first + sep + rest, first) && EndsWith(first + sep + rest, last)
  {
    assert (first + sep + rest)[..|first|] == first;
    EndsWithGrow(first + sep, rest, last);
    assert first + sep + rest == (first + sep) + rest;
  }

  /** Joining one more part appends the separator and that part. */
  lemma {:induction false} JoinSnoc(sep: string, parts: seq<string>)
    requires |parts| >= 2
    ensures Join(sep, parts) == Join(sep, parts[..|parts| - 1]) + sep + parts[|parts| - 1]
    decreases |parts|
  {
    var n := |parts|;
    var init, last := parts[..n - 1], parts[n - 1];
    if n == 2 {
      assert parts[1..] == [last];
      assert init == [parts[0]];
    } else {
      var tail := parts[1..];
      JoinSnoc(sep, tail);
      assert tail[..|tail| - 1] == init[1..] && tail[|tail| - 1] == last;
      assert init[0] == parts[0];
      var x := Join(sep, init[1..]);
      assert Join(sep, tail) == x + sep + last;
      assert Join(sep, init) == parts[0] + sep + x;
      assert Join(sep, parts) == parts[0] + sep + Join(sep, tail);
      Regroup(parts[0], sep, x, last, Join(sep, tail), Join(sep, init), Join(sep, parts));
    }
  }

  lemma Regroup(first: string, sep: string, x: string, last: string, jt: string, ji: string, jp: string)
    requires jt == x + sep + last && ji == first + sep + x && jp == first + sep + jt
    ensures jp == ji + sep + last
  {
  }

  /** `s[:n].rstrip() + "…"`: a prefix of the text that ends in a
      non-space, marked with "…"; only spaces are dropped below `n`. */
  function Marked(s: string, n: int): (r: string)
    ensures EndsWith(r, Ellipsis) && r[..|r| - 1] <= s
    ensures r[..|r| - 1] == [] || !IsSpace(r[|r| - 2])
    ensures 0 <= n < |s| ==> |r| - 1 <= n && forall i :: |r| - 1 <= i < n ==> IsSpace(s[i])
    ensures 0 <= n < |s| ==> r[..|r| - 1] <= s[..n]
  {
    MarkedCut(s, n, RStrip(PyTo(s, n)) + Ellipsis);
    RStrip(PyTo(s, n)) + Ellipsis
  }

  /** The proof of `Marked`'s contract for the text it returns. */
  lemma {:induction false} MarkedCut(s: string, n: int, r: string)
    requires r == RStrip(PyTo(s, n)) + Ellipsis
    ensures EndsWith(r, Ellipsis) && r[..|r| - 1] <= s
    ensures r[..|r| - 1] == [] || !IsSpace(r[|r| - 2])
    ensures 0 <= n < |s| ==> |r| - 1 <= n && forall i :: |r| - 1 <= i < n ==> IsSpace(s[i])
    ensures 0 <= n < |s| ==> r[..|r| - 1] <= s[..n]
  {
    var p := PyTo(s, n);
    var cut := RStrip(p);
    EndsWithConcat(cut, Ellipsis);
    assert r[..|cut|] == cut;
    if 0 <= n < |s| {
      assert forall i :: |cut| <= i < n ==> p[i] == s[i];
      assert p == s[..n];
    }
  }

  /** Dropping a trailing space does not change what `strip()` gives. */
  lemma StripTrailingSpace(x: string)
    requires x != [] && IsSpace(x[|x| - 1])
    ensures Strip(x[..|x| - 1]) == Strip(x)
  {
    var y, c := x[..|x| - 1], x[|x| - 1];
    assert x == y + [c];
    if IsBlank(y) {
      BlankSnoc(y, c);
    } else {
      LStripSnoc(y, c);
      RStripSpace(LStrip(y), c);
    }
  }

  lemma BlankSnoc(y: string, c: char)
    requires IsBlank(y) && IsSpace(c)
    ensures Strip(y + [c]) == [] && Strip(y) == []
  {
    assert forall i :: 0 <= i < |y| ==> (y + [c])[i] == y[i];
  }

  lemma RStripSpace(l: string, c: char)
    requires IsSpace(c)
    ensures RStrip(l + [c]) == RStrip(l)
  {
    assert (l + [c])[..|l + [c]| - 1] == l;
  }

  /** A space after a text that is not blank stays after `lstrip()`. */
  lemma {:induction false} LStripSnoc(y: string, c: char)
    requires !IsBlank(y)
    ensures LStrip(y + [c]) == LStrip(y) + [c]
    decreases |y|
  {
    if IsSpace(y[0]) {
      assert (y + [c])[1..] == y[1..] + [c];
      assert !IsBlank(y[1..]) by {
        var i :| 0 <= i < |y| && !IsSpace(y[i]);
        assert i > 0 && y[1..][i - 1] == y[i];
      }
      LStripSnoc(y[1..], c);
    }
  }

  /** Every line break in the text is a '\n'. */
  predicate OnlyNewlineBreaks(s: string) {
    forall i :: 0 <= i < |s| && IsLineBreak(s[i]) ==> s[i] == '\n'
  }

  lemma OnlyNewlineBreaksSuffix(s: string, k: nat)
    requires OnlyNewlineBreaks(s) && k <= |s|
    ensures OnlyNewlineBreaks(s[k..])
  {
    assert forall i :: 0 <= i < |s| - k ==> s[k..][i] == s[k + i];
  }

  /** When every line break is '\n', joining the lines of `x` gives `x`
      back, less one final '\n' that `splitlines` drops. */
  lemma {:induction false} JoinSplitLines(x: string)
    requires OnlyNewlineBreaks(x)
    ensures var j := Join("\n", SplitLines(x));
      j == x || (x != [] && x[|x| - 1] == '\n' && j == x[..|x| - 1])
    decreases |x|
  {
    if x == [] {
    } else if LineEnd(x) == |x| {
      assert SplitLines(x) == [x];
      assert Join("\n", [x]) == x;
    } else {
      var e := LineEnd(x);
      var rest := x[e + 1..];
      SplitLinesNewline(x, rest);
      var ls := SplitLines(rest);
      if rest != [] {
        OnlyNewlineBreaksSuffix(x, e + 1);
        JoinSplitLines(rest);
        var jr := Join("\n", ls);
        JoinCons("\n", x[..e], ls);
        JoinLineStep(x, e, rest, jr);
      } else {
        assert SplitLines(x) == [x[..e]];
        assert Join("\n", [x[..e]]) == x[..e];
        assert x[..|x| - 1] == x[..e];
      }
    }
  }

  /** The lines after the first, joined with '\n' and stripped, are the
      text after the first line break, stripped. */
  lemma StripLinesAfterBreak(x: string)
    requires x != [] && LineEnd(x) < |x|
    requires OnlyNewlineBreaks(x)
    ensures Strip(Join("\n", SplitLines(x)[1..])) == Strip(x[LineEnd(x) + 1..])
  {
    var rest := x[LineEnd(x) + 1..];
    SplitLinesNewline(x, rest);
    OnlyNewlineBreaksSuffix(x, LineEnd(x) + 1);
    StripJoinedLines(rest, SplitLines(x)[1..]);
  }

  /** Joining the lines of `x` with '\n' and stripping gives `x` stripped. */
  lemma StripJoinedLines(x: string, lines: seq<string>)
    requires lines == SplitLines(x)
    requires OnlyNewlineBreaks(x)
    ensures Strip(Join("\n", lines)) == Strip(x)
  {
    JoinSplitLines(x);
    if Join("\n", lines) != x {
      StripTrailingSpace(x);
    }
  }

  /** One step of `splitlines` at a '\n'. */
  lemma SplitLinesNewline(x: string, rest: string)
    requires x != [] && LineEnd(x) < |x| && x[LineEnd(x)] == '\n'
    requires rest == x[LineEnd(x) + 1..]
    ensures SplitLines(x) == [x[..LineEnd(x)]] + SplitLines(rest)
    ensures SplitLines(x)[1..] == SplitLines(rest)
  {
    var e := LineEnd(x);
    assert x[e] != '\r';
    assert SplitLines(x) == [x[..e]] + SplitLines(x[e + 1..]);
    assert ([x[..e]] + SplitLines(rest))[1..] == SplitLines(rest);
  }

  /** Joining a list that has a head and a non-empty tail. */
  lemma JoinCons(sep: string, a: string, ls: seq<string>)
    requires ls != []
    ensures Join(sep, [a] + ls) == a + sep + Join(sep, ls)
  {
    assert ([a] + ls)[1..] == ls;
  }

  /** Putting the first line back in front of the joined rest. */
  lemma JoinLineStep(x: string, e: nat, rest: string, jr: string)
    requires e < |x| && x[e] == '\n' && rest == x[e + 1..] && rest != []
    requires jr == rest || (rest[|rest| - 1] == '\n' && jr == rest[..|rest| - 1])
    ensures x[..e] + "\n" + jr == x || (x != [] && x[|x| - 1] == '\n' && x[..e] + "\n" + jr == x[..|x| - 1])
  {
    if jr == rest {
      assert x[..e] + "\n" + jr == x;
    } else {
      assert x[..e] + "\n" + jr == x[..|x| - 1];
    }
  }

  /** The truncation marker, one code point. */
  const Ellipsis: string := "…"
}
