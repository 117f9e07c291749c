/** String primitives that the question analyzer, the query generator and the
    LLM-output cleanup are built on: substring containment, Python's whitespace
    and word-character classes, `str.strip`, `str.splitlines`, `str.join`,
    `str.replace`, `str.count` and the code-point ordering behind `min`/`max`. */
module Text {

  datatype Option<T> = None | Some(value: T)

  // ---------------------------------------------------------------------------
  // Substrings

  /** `sub` occurs in `s` starting at index `i`. */
  predicate OccursAt(s: string, sub: string, i: nat)
  {
    i + |sub| <= |s| && s[i..i + |sub|] == sub
  }

  /** Python's `sub in s`. */
  predicate Contains(s: string, sub: string)
  {
    exists i: nat :: i <= |s| && OccursAt(s, sub, i)
  }

  /** Python's `any(c in s for c in cues)`. */
  predicate AnyIn(s: string, cues: seq<string>)
  {
    exists c :: c in cues && Contains(s, c)
  }

  /** A substring of a substring is a substring. */
  lemma ContainsTrans(s: string, mid: string, sub: string)
    requires Contains(s, mid) && Contains(mid, sub)
    ensures Contains(s, sub)
  {
    var i: nat :| i <= |s| && OccursAt(s, mid, i);
    var j: nat :| j <= |mid| && OccursAt(mid, sub, j);
    assert forall k :: 0 <= k < |sub| ==> s[i + j + k] == mid[j + k] == sub[k];
    assert OccursAt(s, sub, i + j);
  }

  /** The two ends of a concatenation, recovered by slicing. */
  lemma ConcatEnds(a: string, b: string, c: string)
    ensures var s := a + b + c;
      |s| >= |a| + |c| && s[..|a|] == a && s[|s| - |c|..] == c
  {
    var s := a + b + c;
    assert s[..|a|] == a;
    assert s[|s| - |c|..] == c;
  }

  /** The middle of a concatenation occurs in it. */
  lemma ContainsInfix(a: string, b: string, c: string)
    ensures Contains(a + b + c, b)
  {
    assert (a + b + c)[|a|..|a| + |b|] == b;
    assert OccursAt(a + b + c, b, |a|);
  }

  // ---------------------------------------------------------------------------
  // Character classes

  /** Python's `str.isspace`, which is also what `\s` and `str.strip()` use. */
  predicate IsSpace(c: char)
  {
    c == ' ' || ('\t' <= c <= '\r') || ('\U{1C}' <= c <= '\U{1F}') ||
    c == '\U{85}' || c == '\U{A0}' || c == '\U{1680}' ||
    ('\U{2000}' <= c <= '\U{200A}') || c == '\U{2028}' || c == '\U{2029}' ||
    c == '\U{202F}' || c == '\U{205F}' || c == '\U{3000}'
  }

  /** The line boundaries of Python's `str.splitlines` (`\r\n` is one boundary). */
  predicate IsLineBreak(c: char)
  {
    c == '\n' || c == '\r' || c == '\U{0B}' || c == '\U{0C}' ||
    ('\U{1C}' <= c <= '\U{1E}') || c == '\U{85}' || c == '\U{2028}' || c == '\U{2029}'
  }

  predicate IsAsciiDigit(c: char)
  {
    '0' <= c <= '9'
  }

  /** Cyrillic letters (the Cyrillic blocks minus the thousands sign and the combining marks). */
  predicate IsCyrillicLetter(c: char)
  {
    ('\U{400}' <= c <= '\U{481}') || ('\U{48A}' <= c <= '\U{52F}')
  }

  /** The regex class `\w`, for ASCII and Cyrillic text. */
  predicate IsWordChar(c: char)
  {
    ('a' <= c <= 'z') || ('A' <= c <= 'Z') || IsAsciiDigit(c) || c == '_' || IsCyrillicLetter(c)
  }

  /** ASCII case folding, the part of `re.IGNORECASE` this model keeps. */
  function LowerAscii(c: char): (d: char)
    ensures 'A' <= c <= 'Z' ==> 'a' <= d <= 'z'
    ensures !('A' <= c <= 'Z') ==> d == c
  {
    if 'A' <= c <= 'Z' then (c as int + 32) as char else c
  }

  /** The lower-case ASCII literal `m` matches `s` at index `i`, ignoring ASCII case. */
  predicate MatchesIgnoreCaseAt(s: string, i: nat, m: string)
  {
    i + |m| <= |s| && forall k :: 0 <= k < |m| ==> LowerAscii(s[i + k]) == m[k]
  }

  // ---------------------------------------------------------------------------
  // Scanning

  /** The first index at or after `i` that does not hold whitespace (`\s*`, greedy). */
  function SkipSpace(s: string, i: nat): (j: nat)
    requires i <= |s|
    ensures i <= j <= |s|
    ensures forall k :: i <= k < j ==> IsSpace(s[k])
    ensures j < |s| ==> !IsSpace(s[j])
    decreases |s| - i
  {
    if i < |s| && IsSpace(s[i]) then SkipSpace(s, i + 1) else i
  }

  /** The first index at or after `i` that does not hold a word character (`\w*`, greedy). */
  function SkipWord(s: string, i: nat): (j: nat)
    requires i <= |s|
    ensures i <= j <= |s|
    ensures forall k :: i <= k < j ==> IsWordChar(s[k])
    ensures j < |s| ==> !IsWordChar(s[j])
    decreases |s| - i
  {
    if i < |s| && IsWordChar(s[i]) then SkipWord(s, i + 1) else i
  }

  /** The smallest `j >= lo` such that `s[j..hi]` is all whitespace. */
  function BackSkipSpace(s: string, lo: nat, hi: nat): (j: nat)
    requires lo <= hi <= |s|
    ensures lo <= j <= hi
    ensures forall k :: j <= k < hi ==> IsSpace(s[k])
    ensures j > lo ==> !IsSpace(s[j - 1])
    decreases hi - lo
  {
    if hi > lo && IsSpace(s[hi - 1]) then BackSkipSpace(s, lo, hi - 1) else hi
  }

  // ---------------------------------------------------------------------------
  // Python string methods

  /** Python's `s.strip()`: the slice between the leading and the trailing whitespace. */
  function Strip(s: string): (r: string)
    ensures r == [] || (!IsSpace(r[0]) && !IsSpace(r[|r| - 1]))
    ensures r == [] <==> forall k :: 0 <= k < |s| ==> IsSpace(s[k])
    ensures |r| <= |s|
  {
    var i := SkipSpace(s, 0);
    var j := BackSkipSpace(s, i, |s|);
    s[i..j]
  }

  /** `Strip` returns a slice of its argument. */
  lemma StripIsSlice(s: string) returns (i: nat, j: nat)
    ensures i <= j <= |s| && Strip(s) == s[i..j]
  {
    i := SkipSpace(s, 0);
    j := BackSkipSpace(s, i, |s|);
  }

  /** `Strip` leaves a text alone whose ends are not whitespace. */
  lemma StripUnframed(s: string)
    requires s == [] || (!IsSpace(s[0]) && !IsSpace(s[|s| - 1]))
    ensures Strip(s) == s
  {
    if s != [] {
      assert SkipSpace(s, 0) == 0;
      assert BackSkipSpace(s, 0, |s|) == |s|;
    }
    assert s[0..|s|] == s;
  }

  /** `sep.join(xs)`. */
  function Join(sep: string, xs: seq<string>): string
  {
    if |xs| == 0 then ""
    else if |xs| == 1 then xs[0]
    else xs[0] + sep + Join(sep, xs[1..])
  }

  /** The two ends of a concatenation occur in it. */
  lemma ContainsEnds(a: string, b: string, c: string)
    ensures Contains(a + b + c, a) && Contains(a + b + c, c)
  {
    var s := a + b + c;
    assert s[..|a|] == a;
    assert OccursAt(s, a, 0);
    assert s[|a| + |b|..] == c;
    assert OccursAt(s, c, |a| + |b|);
  }

  /** Every joined element occurs in the joined text. */
  lemma {:induction false} ContainsJoined(sep: string, xs: seq<string>, k: nat)
    requires k < |xs|
    ensures Contains(Join(sep, xs), xs[k])
  {
    if |xs| == 1 {
      assert OccursAt(xs[0], xs[0], 0);
    } else {
      var rest := Join(sep, xs[1..]);
      assert Join(sep, xs) == xs[0] + sep + rest;
      ContainsEnds(xs[0], sep, rest);
      if k > 0 {
        ContainsJoined(sep, xs[1..], k - 1);
        assert xs[1..][k - 1] == xs[k];
        ContainsTrans(Join(sep, xs), rest, xs[k]);
      }
    }
  }

  /** The first line boundary at or after `i`, or `|s|`. */
  function LineEnd(s: string, i: nat): (j: nat)
    requires i <= |s|
    ensures i <= j <= |s|
    ensures forall k :: i <= k < j ==> !IsLineBreak(s[k])
    ensures j < |s| ==> IsLineBreak(s[j])
    decreases |s| - i
  {
    if i == |s| || IsLineBreak(s[i]) then i else LineEnd(s, i + 1)
  }

  /** Python's `s.splitlines()`: no trailing empty line, `\r\n` counts once. */
  function SplitLines(s: string): (lines: seq<string>)
    ensures s == [] <==> lines == []
    ensures forall l, k :: l in lines && 0 <= k < |l| ==> !IsLineBreak(l[k])
    decreases |s|
  {
    if s == [] then []
    else
      var n := LineEnd(s, 0);
      if n == |s| then [s]
      else
        [s[..n]] + SplitLines(s[AfterBreak(s, n)..])
  }

  /** Where the next line starts after the line break at `n`: `\r\n` is one
      break. */
  function AfterBreak(s: string, n: nat): (next: nat)
    requires n < |s|
    ensures n < next <= |s|
  {
    if s[n] == '\r' && n + 1 < |s| && s[n + 1] == '\n' then n + 2 else n + 1
  }

  /** Python's `s.replace(pat, rep)`: leftmost, non-overlapping occurrences. */
  function ReplaceAll(s: string, pat: string, rep: string): string
    requires |pat| > 0
    decreases |s|
  {
    if |s| < |pat| then s
    else if s[..|pat|] == pat then rep + ReplaceAll(s[|pat|..], pat, rep)
    else [s[0]] + ReplaceAll(s[1..], pat, rep)
  }

  /** Python's `s.count(c)` for a one-character string. */
  function CountChar(s: string, c: char): nat
  {
    if s == [] then 0 else (if s[0] == c then 1 else 0) + CountChar(s[1..], c)
  }

  lemma CountCharAppend(a: string, b: string, c: char)
    ensures CountChar(a + b, c) == CountChar(a, c) + CountChar(b, c)
  {
    if a == [] {
      assert a + b == b;
    } else {
      assert (a + b)[1..] == a[1..] + b;
      CountCharAppend(a[1..], b, c);
    }
  }

  lemma {:induction false} CountCharAbsent(s: string, c: char)
    requires c !in s
    ensures CountChar(s, c) == 0
  {
    if s != [] {
      assert c !in s[1..];
      CountCharAbsent(s[1..], c);
    }
  }

  /** When the separator lacks `c`, the occurrences of `c` in a joined text
      are those of its elements. */
  lemma {:induction false} CountCharJoin(sep: string, xs: seq<string>, c: char)
    requires CountChar(sep, c) == 0
    ensures CountChar(Join(sep, xs), c) == SumCounts(xs, c)
  {
    if |xs| == 1 {
      assert xs[1..] == [];
    } else if |xs| > 1 {
      CountCharJoin(sep, xs[1..], c);
      CountCharAppend(xs[0], sep, c);
      CountCharAppend(xs[0] + sep, Join(sep, xs[1..]), c);
    }
  }

  /** The number of occurrences of `c` over all of `xs`. */
  function SumCounts(xs: seq<string>, c: char): nat
  {
    if xs == [] then 0 else CountChar(xs[0], c) + SumCounts(xs[1..], c)
  }

  // ---------------------------------------------------------------------------
  // Python's ordering of `str` values (code point by code point)

  /** Python's `a < b` on strings. */
  predicate LexLess(a: string, b: string)
  {
    if a == [] then b != []
    else if b == [] then false
    else a[0] < b[0] || (a[0] == b[0] && LexLess(a[1..], b[1..]))
  }

  lemma {:induction false} LexLessIrreflexive(a: string)
    ensures !LexLess(a, a)
  {
    if a != [] {
      LexLessIrreflexive(a[1..]);
    }
  }

  lemma {:induction false} LexLessTrans(a: string, b: string, c: string)
    requires LexLess(a, b) && LexLess(b, c)
    ensures LexLess(a, c)
  {
    if a != [] && b != [] && c != [] && a[0] == b[0] == c[0] {
      LexLessTrans(a[1..], b[1..], c[1..]);
    }
  }

  lemma {:induction false} LexLessTotal(a: string, b: string)
    ensures a == b || LexLess(a, b) || LexLess(b, a)
  {
    if a != [] && b != [] && a[0] == b[0] {
      LexLessTotal(a[1..], b[1..]);
      if a[1..] == b[1..] {
        assert a == [a[0]] + a[1..] && b == [b[0]] + b[1..];
      }
    }
  }

  /** Python's `min(xs)`: keeps the first element that nothing later undercuts. */
  function MinStr(xs: seq<string>): (m: string)
    requires |xs| > 0
    ensures m in xs
    ensures forall x :: x in xs ==> !LexLess(x, m)
  {
    if |xs| == 1 then LexLessIrreflexive(xs[0]); xs[0]
    else
      var prev := MinStr(xs[..|xs| - 1]);
      var last := xs[|xs| - 1];
      assert xs == xs[..|xs| - 1] + [last];
      if LexLess(last, prev) then
        LexLessIrreflexive(last);
        assert forall x :: x in xs[..|xs| - 1] && LexLess(x, last) ==> LexLess(x, prev) by {
          forall x | x in xs[..|xs| - 1] && LexLess(x, last) ensures LexLess(x, prev) {
            LexLessTrans(x, last, prev);
          }
        }
        last
      else
        LexLessIrreflexive(prev);
        prev
  }

  /** Python's `max(xs)`: keeps the first element that nothing later exceeds. */
  function MaxStr(xs: seq<string>): (m: string)
    requires |xs| > 0
    ensures m in xs
    ensures forall x :: x in xs ==> !LexLess(m, x)
  {
    if |xs| == 1 then LexLessIrreflexive(xs[0]); xs[0]
    else
      var prev := MaxStr(xs[..|xs| - 1]);
      var last := xs[|xs| - 1];
      assert xs == xs[..|xs| - 1] + [last];
      if LexLess(prev, last) then
        LexLessIrreflexive(last);
        assert forall x :: x in xs[..|xs| - 1] && LexLess(last, x) ==> LexLess(prev, x) by {
          forall x | x in xs[..|xs| - 1] && LexLess(last, x) ensures LexLess(prev, x) {
            LexLessTrans(prev, last, x);
          }
        }
        last
      else
        LexLessIrreflexive(prev);
        prev
  }
}
