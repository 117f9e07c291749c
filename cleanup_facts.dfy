/** What the query cleanup guarantees: the captures it takes, the text it
    removes, the lines it keeps, and the tag it reads. */
module CleanupFacts {
  import opened Text
  import opened LlmCleanup

  // ---------------------------------------------------------------------------
  // Captures

  /** Both captures start past the whitespace after their marker. */
  lemma CaptureStartsAtText(output: string)
    requires Extract(output).Some? && Extract(output).value != []
    ensures !IsSpace(Extract(output).value[0])
  {
    FenceCaptureStart(output, 0);
    if FenceCapture(output, 0).None? {
      MarkerCaptureStart(output, 0);
    }
  }

  lemma {:induction false} FenceCaptureStart(s: string, i: nat)
    requires i <= |s|
    ensures FenceCapture(s, i).Some? ==> FencedShape(FenceCapture(s, i).value)
    decreases |s| - i
  {
    if i + |FenceOpen| <= |s| {
      if MatchesIgnoreCaseAt(s, i, FenceOpen) {
        var b := SkipSpace(s, i + |FenceOpen|);
        var f := FindFrom(s, b, Fence);
        if f.Some? {
          FencedBody(s, i + |FenceOpen|, f.value);
        } else {
          FenceCaptureStart(s, i + 1);
        }
      } else {
        FenceCaptureStart(s, i + 1);
      }
    }
  }

  /** A fenced capture starts at a non-space and holds no fence. */
  predicate FencedShape(c: string)
  {
    (c != [] ==> !IsSpace(c[0])) && !Contains(c, Fence)
  }

  /** The text between the whitespace after an opening and the first fence
      starts with a non-space and holds no fence. */
  lemma FencedBody(s: string, from: nat, f: nat)
    requires from <= |s|
    requires FindFrom(s, SkipSpace(s, from), Fence) == Some(f)
    ensures FencedShape(s[SkipSpace(s, from)..f])
  {
    var b := SkipSpace(s, from);
    var c := s[b..f];
    forall k: nat | k <= |c| ensures !OccursAt(c, Fence, k) {
      OccursInSlice(s, b, f, k, Fence);
    }
  }

  lemma {:induction false} MarkerCaptureStart(s: string, i: nat)
    requires i <= |s|
    ensures var c := MarkerCapture(s, i); c.Some? && c.value != [] ==> !IsSpace(c.value[0])
    ensures var c := MarkerCapture(s, i);
      c.Some? ==> forall k :: 0 <= k < |c.value| ==> !MatchesIgnoreCaseAt(c.value, k, VisualizationMarker)
    decreases |s| - i
  {
    if i + |SparqlMarker| <= |s| {
      if MatchesIgnoreCaseAt(s, i, SparqlMarker) {
        var b := SkipSpace(s, i + |SparqlMarker|);
        var e := CaptureEnd(s, b);
        var c := s[b..e];
        forall k | 0 <= k < |c| ensures !MatchesIgnoreCaseAt(c, k, VisualizationMarker) {
          MatchInSlice(s, b, e, k, VisualizationMarker);
          assert b + k < e ==> !EndsCapture(s, b + k);
        }
      } else {
        MarkerCaptureStart(s, i + 1);
      }
    }
  }

  /** An occurrence inside a slice is an occurrence in the whole text. */
  lemma OccursInSlice(s: string, b: nat, e: nat, k: nat, pat: string)
    requires b <= e <= |s|
    ensures OccursAt(s[b..e], pat, k) ==> OccursAt(s, pat, b + k)
  {
    if OccursAt(s[b..e], pat, k) {
      forall j | 0 <= j < |pat| ensures s[b + k + j] == pat[j] {
        assert s[b..e][k..k + |pat|][j] == s[b + k + j];
      }
      assert s[b + k..b + k + |pat|] == pat;
    }
  }

  lemma MatchInSlice(s: string, b: nat, e: nat, k: nat, m: string)
    requires b <= e <= |s|
    ensures MatchesIgnoreCaseAt(s[b..e], k, m) ==> MatchesIgnoreCaseAt(s, b + k, m)
  {
    if MatchesIgnoreCaseAt(s[b..e], k, m) {
      forall j | 0 <= j < |m| ensures LowerAscii(s[b + k + j]) == m[j] {
        assert s[b..e][k + j] == s[b + k + j];
      }
    }
  }

  // ---------------------------------------------------------------------------
  // Fence removal

  /** The length of the backtick run `s` starts with. */
  function LeadingTicks(s: string): nat
  {
    if s != [] && s[0] == '`' then 1 + LeadingTicks(s[1..]) else 0
  }

  lemma FenceAtStart(s: string)
    ensures OccursAt(s, Fence, 0) <==> LeadingTicks(s) >= 3
  {
    if |s| >= 3 {
      assert s[1..][1..] == s[2..] && s[2..][1..] == s[3..];
      assert OccursAt(s, Fence, 0) <==> s[0] == '`' && s[1] == '`' && s[2] == '`';
      if s[0] == '`' {
        assert LeadingTicks(s) == 1 + LeadingTicks(s[1..]);
        if s[1] == '`' {
          assert LeadingTicks(s[1..]) == 1 + LeadingTicks(s[2..]);
          if s[2] == '`' {
            assert LeadingTicks(s[2..]) == 1 + LeadingTicks(s[3..]);
          }
        }
      }
    } else {
      LeadingTicksBound(s);
    }
  }

  /** A fence in `[c] + t` starts at the front or lies in `t`. */
  lemma FenceInCons(c: char, t: string)
    ensures Contains([c] + t, Fence) <==> OccursAt([c] + t, Fence, 0) || Contains(t, Fence)
  {
    var s := [c] + t;
    assert s[1..] == t;
    if Contains(s, Fence) && !OccursAt(s, Fence, 0) {
      var k: nat :| k <= |s| && OccursAt(s, Fence, k);
      assert s[k..k + 3] == t[k - 1..k + 2];
      assert OccursAt(t, Fence, k - 1);
    }
    if Contains(t, Fence) {
      var k: nat :| k <= |t| && OccursAt(t, Fence, k);
      assert s[k + 1..k + 4] == t[k..k + 3];
      assert OccursAt(s, Fence, k + 1);
    }
  }

  /** No fence is left, and the leading backtick run of length k shrinks to
      k mod 3; RunAfterShrinks carries this to every later run. */
  lemma {:induction false} RemoveFencesLeavesNone(s: string)
    ensures !Contains(RemoveFences(s), Fence)
    ensures LeadingTicks(RemoveFences(s)) == LeadingTicks(s) % 3
    decreases |s|
  {
    var r := RemoveFences(s);
    if |s| < 3 {
      assert r == s;
      FenceAtStart(s);
      LeadingTicksBound(s);
      SmallModThree(LeadingTicks(s));
      forall k: nat | k <= |s| ensures !OccursAt(s, Fence, k) {
      }
    } else if s[..3] == Fence {
      RemoveFencesLeavesNone(s[3..]);
      assert r == RemoveFences(s[3..]);
      FenceTicks(s);
      ModThreeShift(LeadingTicks(s[3..]));
    } else {
      RemoveFencesLeavesNone(s[1..]);
      var t := RemoveFences(s[1..]);
      assert r == [s[0]] + t;
      assert s == [s[0]] + s[1..];
      KeptCharacter(s[0], s[1..], t);
    }
  }

  /** A character other than a backtick splits the replacement: no fence
      can straddle it. */
  lemma {:induction false} RemoveFencesSplit(x: string, c: char, y: string)
    requires c != '`'
    ensures RemoveFences(x + [c] + y) == RemoveFences(x) + [c] + RemoveFences(y)
    decreases |x|
  {
    var s := x + [c] + y;
    if x == [] {
      assert s == [c] + y;
      KeptHead(s);
    } else if |x| >= 3 && x[..3] == Fence {
      assert s[..3] == Fence;
      assert s[3..] == x[3..] + [c] + y;
      RemoveFencesSplit(x[3..], c, y);
    } else {
      assert !(|s| >= 3 && s[..3] == Fence) by {
        if |s| >= 3 && |x| < 3 {
          assert s[|x|] == c;
        }
      }
      KeptHead(s);
      KeptHead(x);
      assert s[1..] == x[1..] + [c] + y;
      RemoveFencesSplit(x[1..], c, y);
    }
  }

  /** A first character that does not open a fence is kept as it is. */
  lemma KeptHead(s: string)
    requires s != [] && !(|s| >= 3 && s[..3] == Fence)
    ensures RemoveFences(s) == [s[0]] + RemoveFences(s[1..])
  {
    if |s| < 3 {
      assert RemoveFences(s[1..]) == s[1..];
      assert s == [s[0]] + s[1..];
    }
  }

  /** Every maximal backtick run, the one after any character that is not a
      backtick, shrinks from k to k mod 3 backticks, and the text before that
      character is replaced on its own. */
  lemma RunAfterShrinks(x: string, c: char, y: string)
    requires c != '`'
    ensures var r := RemoveFences(y);
      RemoveFences(x + [c] + y) == RemoveFences(x) + [c] + r && LeadingTicks(r) == LeadingTicks(y) % 3
  {
    RemoveFencesSplit(x, c, y);
    RemoveFencesLeavesNone(y);
  }

  /** A fence adds three to the backtick run that follows it. */
  lemma FenceTicks(s: string)
    requires |s| >= 3 && s[..3] == Fence
    ensures LeadingTicks(s) == 3 + LeadingTicks(s[3..])
  {
    assert s[0] == '`' && s[1] == '`' && s[2] == '`';
    var s1, s2 := s[1..], s[2..];
    assert s1[1..] == s2 && s2[1..] == s[3..];
    assert LeadingTicks(s2) == 1 + LeadingTicks(s[3..]);
    assert LeadingTicks(s1) == 1 + LeadingTicks(s2);
  }

  /** A character kept in front of a fence-free rest leaves no fence, and
      its backtick run is the one it had, reduced mod 3. */
  lemma KeptCharacter(c: char, u: string, t: string)
    requires !OccursAt([c] + u, Fence, 0)
    requires !Contains(t, Fence) && LeadingTicks(t) == LeadingTicks(u) % 3
    ensures !Contains([c] + t, Fence) && LeadingTicks([c] + t) == LeadingTicks([c] + u) % 3
  {
    FenceAtStart([c] + u);
    KeptTicks(c, u, t);
    KeptNoFence(c, t);
  }

  lemma SmallModThree(n: nat)
    requires n < 3
    ensures n % 3 == n
  {
  }

  lemma ModThreeShift(n: nat)
    ensures (3 + n) % 3 == n % 3
  {
  }

  lemma KeptTicks(c: char, u: string, t: string)
    requires LeadingTicks([c] + u) < 3 && LeadingTicks(t) == LeadingTicks(u) % 3
    ensures LeadingTicks([c] + t) == LeadingTicks([c] + u) == LeadingTicks([c] + u) % 3
  {
    var s, r := [c] + u, [c] + t;
    assert s[1..] == u && r[1..] == t;
    if c == '`' {
      assert LeadingTicks(s) == 1 + LeadingTicks(u);
      assert LeadingTicks(r) == 1 + LeadingTicks(t);
      SmallModThree(LeadingTicks(u));
      SmallModThree(LeadingTicks(s));
    } else {
      assert LeadingTicks(s) == 0 && LeadingTicks(r) == 0;
    }
  }

  lemma KeptNoFence(c: char, t: string)
    requires LeadingTicks([c] + t) < 3 && !Contains(t, Fence)
    ensures !Contains([c] + t, Fence)
  {
    FenceAtStart([c] + t);
    FenceInCons(c, t);
  }

  lemma {:induction false} LeadingTicksBound(s: string)
    ensures LeadingTicks(s) <= |s|
  {
    if s != [] && s[0] == '`' {
      LeadingTicksBound(s[1..]);
    }
  }

  /** A fence in a suffix is a fence in the whole text. */
  lemma FenceInSuffix(s: string, j: nat)
    requires j <= |s|
    ensures Contains(s[j..], Fence) ==> Contains(s, Fence)
  {
    ContainsInfix(s[..j], s[j..], []);
    assert s[..j] + s[j..] + [] == s;
    if Contains(s[j..], Fence) {
      ContainsTrans(s, s[j..], Fence);
    }
  }

  /** Removing language tags neither creates a fence nor changes the leading
      backtick run. */
  lemma {:induction false} LangTagsKeepNoFence(s: string)
    requires !Contains(s, Fence)
    ensures !Contains(StripLangTags(s), Fence)
    ensures LeadingTicks(StripLangTags(s)) == LeadingTicks(s)
    decreases |s|
  {
    var r := StripLangTags(s);
    if |s| < 4 {
      assert r == s;
    } else if s[..4] == "\"@en" {
      FenceInSuffix(s, 4);
      LangTagsKeepNoFence(s[4..]);
      var t := StripLangTags(s[4..]);
      assert r == ['"'] + t;
      FenceInCons('"', t);
      FenceAtStart(r);
      assert s[0] == '"';
    } else {
      FenceInSuffix(s, 1);
      LangTagsKeepNoFence(s[1..]);
      var t := StripLangTags(s[1..]);
      assert r == [s[0]] + t;
      FenceInCons(s[0], t);
      FenceAtStart(r);
      FenceAtStart(s);
      assert r[1..] == t;
      assert OccursAt(s, Fence, 0) ==> Contains(s, Fence);
    }
  }

  /** A prefix and a suffix of a text occur in it. */
  lemma PrefixSuffixOccur(s: string, n: nat)
    requires n <= |s|
    ensures Contains(s, s[..n]) && Contains(s, s[n..])
  {
    assert OccursAt(s, s[..n], 0);
    assert s[n..][..] == s[n..];
    assert OccursAt(s, s[n..], n);
  }

  /** `splitlines` peels off the first line and goes on after its boundary. */
  lemma SplitLinesStep(s: string) returns (n: nat, next: nat)
    requires s != []
    ensures n <= |s| && n <= next <= |s|
    ensures n == |s| ==> SplitLines(s) == [s]
    ensures n < |s| ==> SplitLines(s) == [s[..n]] + SplitLines(s[next..]) && n < next
  {
    n := LineEnd(s, 0);
    if n == |s| {
      next := n;
      assert SplitLines(s) == [s];
    } else {
      next := AfterBreak(s, n);
      assert SplitLines(s) == [s[..n]] + SplitLines(s[next..]);
    }
  }

  /** Every line `splitlines` returns occurs in the text. */
  lemma {:induction false} SplitLinesInfixes(s: string)
    ensures forall l :: l in SplitLines(s) ==> Contains(s, l)
    decreases |s|
  {
    if s != [] {
      var n, next := SplitLinesStep(s);
      PrefixSuffixOccur(s, n);
      if n == |s| {
        assert s[..n] == s;
      } else {
        var rest := SplitLines(s[next..]);
        SplitLinesInfixes(s[next..]);
        PrefixSuffixOccur(s, next);
        forall l | l in SplitLines(s) ensures Contains(s, l) {
          if l != s[..n] {
            assert l in rest;
            ContainsTrans(s, s[next..], l);
          }
        }
      }
    }
  }

  /** A fence cannot straddle a character that is not a backtick. */
  lemma NoFenceAcross(a: string, c: char, b: string)
    requires c != '`' && !Contains(a, Fence) && !Contains(b, Fence)
    ensures !Contains(a + [c] + b, Fence)
  {
    var s := a + [c] + b;
    forall k: nat | k <= |s| ensures !OccursAt(s, Fence, k) {
      if k + 3 <= |a| {
        assert s[k..k + 3] == a[k..k + 3];
        assert !OccursAt(a, Fence, k);
      } else if k > |a| {
        if k + 3 <= |s| {
          assert s[k..k + 3] == b[k - |a| - 1..k - |a| + 2];
          assert !OccursAt(b, Fence, k - |a| - 1);
        }
      } else if k + 3 <= |s| {
        assert s[|a|] == c;
        assert s[k..k + 3][|a| - k] == c;
      }
    }
  }

  lemma {:induction false} JoinLinesNoFence(xs: seq<string>)
    requires forall l :: l in xs ==> !Contains(l, Fence)
    ensures !Contains(Join("\n", xs), Fence)
  {
    if |xs| == 0 {
      assert !OccursAt("", Fence, 0);
    } else if |xs| > 1 {
      JoinLinesNoFence(xs[1..]);
      NoFenceAcross(xs[0], '\n', Join("\n", xs[1..]));
      assert xs[0] + "\n" + Join("\n", xs[1..]) == xs[0] + ['\n'] + Join("\n", xs[1..]);
    }
  }

  lemma StripInfix(s: string)
    ensures Contains(s, Strip(s))
  {
    var i, j := StripIsSlice(s);
    assert OccursAt(s, s[i..j], i);
  }

  /** No fence survives the cleanup. */
  lemma NoFenceInResult(output: string)
    requires Cleaned(output).Some?
    ensures !Contains(Cleaned(output).value, Fence)
  {
    var q := Extract(output).value;
    RemoveFencesLeavesNone(q);
    var t := StripLangTags(RemoveFences(q));
    LangTagsKeepNoFence(RemoveFences(q));
    var lines := SplitLines(t);
    SplitLinesInfixes(t);
    var kept := lines[..KeepCount(lines)];
    forall l | l in kept ensures !Contains(l, Fence) {
      assert l in lines;
      if Contains(l, Fence) {
        ContainsTrans(t, l, Fence);
      }
    }
    JoinLinesNoFence(kept);
    StripInfix(Join("\n", kept));
    if Contains(Strip(Join("\n", kept)), Fence) {
      ContainsTrans(Join("\n", kept), Strip(Join("\n", kept)), Fence);
    }
  }

  /** The text without its backticks. */
  function DropTicks(s: string): string
  {
    if s == [] then [] else (if s[0] == '`' then [] else [s[0]]) + DropTicks(s[1..])
  }

  lemma {:induction false} DropTicksAppend(a: string, b: string)
    ensures DropTicks(a + b) == DropTicks(a) + DropTicks(b)
  {
    if a == [] {
      assert a + b == b;
    } else {
      assert (a + b)[1..] == a[1..] + b;
      DropTicksAppend(a[1..], b);
    }
  }

  /** Fence removal deletes backticks and nothing else. */
  lemma {:induction false} RemoveFencesOnlyDropsTicks(s: string)
    ensures DropTicks(RemoveFences(s)) == DropTicks(s)
    decreases |s|
  {
    if |s| >= 3 {
      if s[..3] == Fence {
        RemoveFencesOnlyDropsTicks(s[3..]);
        assert s == Fence + s[3..];
        DropTicksAppend(Fence, s[3..]);
        assert DropTicks("```") == [];
        assert RemoveFences(s) == "" + RemoveFences(s[3..]) == RemoveFences(s[3..]);
      } else {
        RemoveFencesOnlyDropsTicks(s[1..]);
        assert RemoveFences(s) == [s[0]] + RemoveFences(s[1..]);
        DropTicksAppend([s[0]], RemoveFences(s[1..]));
        assert [s[0]] + s[1..] == s;
        DropTicksAppend([s[0]], s[1..]);
      }
    }
  }

  /** Removing language tags keeps every quote: each `"@en` leaves its `"`. */
  lemma {:induction false} LangTagsKeepQuotes(s: string)
    ensures CountChar(StripLangTags(s), '"') == CountChar(s, '"')
    decreases |s|
  {
    if |s| >= 4 {
      if s[..4] == "\"@en" {
        LangTagsKeepQuotes(s[4..]);
        assert s == "\"@en" + s[4..];
        CountCharAppend("\"@en", s[4..], '"');
        CountCharAppend("\"", StripLangTags(s[4..]), '"');
      } else {
        LangTagsKeepQuotes(s[1..]);
        assert StripLangTags(s) == [s[0]] + StripLangTags(s[1..]);
        CountCharAppend([s[0]], StripLangTags(s[1..]), '"');
        assert [s[0]] + s[1..] == s;
        CountCharAppend([s[0]], s[1..], '"');
      }
    }
  }

  /** One pass only: a tag uncovered by a replacement stays. */
  lemma LangTagsSinglePass()
    ensures StripLangTags("\"@en@en") == "\"@en"
  {
    assert "\"@en@en"[..4] == "\"@en";
    assert "\"@en@en"[4..] == "@en";
  }

  // ---------------------------------------------------------------------------
  // Truncation

  lemma BalanceOfPrefix(lines: seq<string>, extra: seq<string>, j: nat)
    requires j < |lines|
    ensures (lines + extra)[..j + 1] == lines[..j + 1]
    ensures StopsAt(lines + extra, j) == StopsAt(lines, j)
  {
    assert (lines + extra)[..j + 1] == lines[..j + 1];
  }

  /** Whatever follows the line that ends the query is dropped, so it cannot
      change the result. */
  lemma TrailingLinesIgnored(lines: seq<string>, extra: seq<string>)
    requires KeepCount(lines) < |lines| || (lines != [] && StopsAt(lines, |lines| - 1))
    ensures KeepCount(lines + extra) == KeepCount(lines)
  {
    var n := KeepCount(lines);
    forall j | 0 <= j < |lines| ensures StopsAt(lines + extra, j) == StopsAt(lines, j) {
      BalanceOfPrefix(lines, extra, j);
    }
    KeepFromAgree(lines, extra, 0);
  }

  lemma {:induction false} KeepFromAgree(lines: seq<string>, extra: seq<string>, j: nat)
    requires j <= |lines|
    requires forall k :: 0 <= k < |lines| ==> StopsAt(lines + extra, k) == StopsAt(lines, k)
    requires KeepFrom(lines, j) < |lines| || (lines != [] && j < |lines| && StopsAt(lines, |lines| - 1))
    ensures KeepFrom(lines + extra, j) == KeepFrom(lines, j)
    decreases |lines| - j
  {
    if j < |lines| && !StopsAt(lines, j) {
      KeepFromAgree(lines, extra, j + 1);
    }
  }

  // ---------------------------------------------------------------------------
  // Round trips

  /** Replacing a pattern that does not occur changes nothing. */
  lemma {:induction false} ReplaceAbsent(s: string, pat: string, rep: string)
    requires |pat| > 0 && !Contains(s, pat)
    ensures ReplaceAll(s, pat, rep) == s
    decreases |s|
  {
    if |s| >= |pat| {
      assert !OccursAt(s, pat, 0);
      forall k: nat | k <= |s[1..]| ensures !OccursAt(s[1..], pat, k) {
        assert !OccursAt(s, pat, k + 1);
        if k + |pat| <= |s[1..]| {
          assert s[1..][k..k + |pat|] == s[k + 1..k + 1 + |pat|];
        }
      }
      ReplaceAbsent(s[1..], pat, rep);
      assert [s[0]] + s[1..] == s;
    }
  }

  lemma NoTickNoFence(s: string)
    requires '`' !in s
    ensures !Contains(s, Fence)
  {
    forall k: nat | k <= |s| ensures !OccursAt(s, Fence, k) {
      if k + 3 <= |s| {
        assert s[k..k + 3][0] == s[k];
      }
    }
  }

  /** A text that is one stripped line comes through the cleanup unchanged. */
  lemma FinishOneLine(body: string)
    requires body != [] && !IsSpace(body[0]) && !IsSpace(body[|body| - 1])
    requires '`' !in body && !Contains(body, "\"@en")
    requires forall k :: 0 <= k < |body| ==> !IsLineBreak(body[k])
    ensures Finish(body) == body
  {
    NoTickNoFence(body);
    ReplaceAbsent(body, Fence, "");
    ReplaceAbsent(body, "\"@en", "\"");
    assert LineEnd(body, 0) == |body|;
    assert SplitLines(body) == [body];
    assert KeepCount([body]) == 1;
    assert [body][..1] == [body];
    assert SkipSpace(body, 0) == 0;
    assert BackSkipSpace(body, 0, |body|) == |body|;
    assert body[0..|body|] == body;
  }

  /** No fenced block can open before the first backtick. */
  lemma {:induction false} FenceCaptureSkips(s: string, i: nat, j: nat)
    requires i <= j <= |s|
    requires '`' !in s[i..j]
    ensures FenceCapture(s, i) == FenceCapture(s, j)
    decreases j - i
  {
    if i < j {
      assert s[i..j][0] == s[i] && s[i..j][1..] == s[i + 1..j];
      FenceCaptureStep(s, i);
      FenceCaptureSkips(s, i + 1, j);
    }
  }

  /** Where there is no backtick, the search moves on to the next index. */
  lemma FenceCaptureStep(s: string, i: nat)
    requires i < |s| && s[i] != '`'
    ensures FenceCapture(s, i) == FenceCapture(s, i + 1)
  {
    NoOpenAt(s, i);
    if i + |FenceOpen| > |s| {
      assert FenceCapture(s, i + 1) == None;
    }
  }

  /** A fenced block cannot open where there is no backtick. */
  lemma NoOpenAt(s: string, i: nat)
    requires i < |s| && s[i] != '`'
    ensures !MatchesIgnoreCaseAt(s, i, FenceOpen)
  {
    assert LowerAscii(s[i]) != '`' && FenceOpen[0] == '`';
    assert i + |FenceOpen| <= |s| ==> LowerAscii(s[i + 0]) != FenceOpen[0];
  }

  /** The opening `"```sparql\n"` matches the fence pattern's opening. */
  lemma OpenAt(s: string, o: nat)
    requires o + 10 <= |s| && s[o..o + 10] == "```sparql\n"
    ensures MatchesIgnoreCaseAt(s, o, FenceOpen) && s[o + 9] == '\n'
  {
    forall k | 0 <= k < 10 ensures s[o + k] == "```sparql\n"[k] {
      assert s[o..o + 10][k] == s[o + k];
    }
  }

  /** The first fence from where the body starts is the one right after it. */
  lemma CloseAfter(s: string, b: nat, body: string)
    requires b + |body| + 3 <= |s| && s[b..b + |body|] == body && s[b + |body|..b + |body| + 3] == Fence
    requires '`' !in body
    ensures FindFrom(s, b, Fence) == Some(b + |body|)
  {
    var c := b + |body|;
    forall k | b <= k < c ensures !OccursAt(s, Fence, k) {
      assert s[b..c][k - b] == s[k];
      if k + 3 <= |s| {
        assert s[k..k + 3][0] == s[k];
      }
    }
    assert OccursAt(s, Fence, c);
  }

  /** A fenced block opening at `o` captures the text up to its closing fence. */
  lemma FenceCaptureFrom(s: string, o: nat, body: string)
    requires o + 13 + |body| <= |s| && s[o..o + 10] == "```sparql\n"
    requires s[o + 10..o + 10 + |body|] == body && s[o + 10 + |body|..o + 13 + |body|] == Fence
    requires body != [] && !IsSpace(body[0]) && '`' !in body
    ensures FenceCapture(s, o) == Some(body)
  {
    var b := o + 10;
    OpenAt(s, o);
    assert s[b] == s[b..b + |body|][0];
    assert SkipSpace(s, b) == b;
    assert SkipSpace(s, o + 9) == b;
    CloseAfter(s, b, body);
  }

  /** The middle of a concatenation, recovered by slicing. */
  lemma Middle(a: string, b: string, c: string)
    ensures |a + b + c| >= |a| + |b| && (a + b + c)[|a|..|a| + |b|] == b
  {
    assert (a + b + c)[|a|..|a| + |b|] == b;
  }

  /** The three parts of a fenced block: opening, body and closing fence. */
  lemma FencedParts(pre: string, body: string, post: string)
    ensures var s := pre + "```sparql\n" + body + Fence + post; var o := |pre|;
      o + 13 + |body| <= |s| && s[o..o + 10] == "```sparql\n" &&
      s[o + 10..o + 10 + |body|] == body && s[o + 10 + |body|..o + 13 + |body|] == Fence
  {
    var op := "```sparql\n";
    var s := pre + op + body + Fence + post;
    Middle(pre, op, body + Fence + post);
    assert s == pre + op + (body + Fence + post);
    Middle(pre + op, body, Fence + post);
    assert s == (pre + op) + body + (Fence + post);
    Middle(pre + op + body, Fence, post);
  }

  /** The fenced block, found where it opens. */
  lemma FenceCaptureAt(s: string, pre: string, body: string, post: string)
    requires s == pre + "```sparql\n" + body + Fence + post
    requires body != [] && !IsSpace(body[0]) && '`' !in body
    ensures FenceCapture(s, |pre|) == Some(body)
  {
    FencedParts(pre, body, post);
    FenceCaptureFrom(s, |pre|, body);
  }

  /** A fenced one-line query comes back as it was written, whatever follows
      the block and whatever text without backticks precedes it,
      even a `SPARQL:` marker: the fence wins. */
  lemma FencedQueryRoundTrip(output: string, pre: string, body: string, post: string)
    requires output == pre + "```sparql\n" + body + Fence + post
    requires '`' !in pre
    requires body != [] && !IsSpace(body[0]) && !IsSpace(body[|body| - 1])
    requires '`' !in body && !Contains(body, "\"@en")
    requires forall k :: 0 <= k < |body| ==> !IsLineBreak(body[k])
    ensures Cleaned(output) == Some(body)
  {
    FencedParts(pre, body, post);
    assert output[0..|pre|] == pre;
    FenceCaptureSkips(output, 0, |pre|);
    FenceCaptureAt(output, pre, body, post);
    FinishOneLine(body);
  }

  /** A match inside a suffix is a match of the suffix. */
  lemma MatchInSuffix(s: string, b: nat, k: nat, m: string)
    requires b <= k <= |s|
    ensures MatchesIgnoreCaseAt(s, k, m) ==> MatchesIgnoreCaseAt(s[b..], k - b, m)
  {
    if MatchesIgnoreCaseAt(s, k, m) {
      forall j | 0 <= j < |m| ensures LowerAscii(s[b..][k - b + j]) == m[j] {
        assert s[b..][k - b + j] == s[k + j];
      }
    }
  }

  /** No fenced block without a backtick. */
  lemma NoTicksNoFencedBlock(s: string)
    requires '`' !in s
    ensures FenceCapture(s, 0) == None
  {
    assert s[0..|s|] == s;
    FenceCaptureSkips(s, 0, |s|);
  }

  /** The capture after a leading `SPARQL: ` marker runs to the end when no
      `VISUALIZATION:` marker follows and the text does not end in a newline. */
  lemma MarkerCaptureAll(output: string, body: string)
    requires output == "SPARQL: " + body
    requires body != [] && !IsSpace(body[0]) && !IsSpace(body[|body| - 1])
    requires forall k :: 0 <= k < |body| ==> !MatchesIgnoreCaseAt(body, k, VisualizationMarker)
    ensures MarkerCapture(output, 0) == Some(body)
  {
    var m := "SPARQL: ";
    assert output[..8] == m && output[8..] == body;
    forall k | 0 <= k < 7 ensures LowerAscii(output[k]) == SparqlMarker[k] {
      assert output[k] == m[k];
    }
    assert output[7] == ' ' && output[8] == body[0];
    assert SkipSpace(output, 7) == 8;
    forall k | 8 <= k < |output| ensures !EndsCapture(output, k) {
      MatchInSuffix(output, 8, k, VisualizationMarker);
      if k + 1 == |output| {
        assert output[k] == body[|body| - 1];
      }
    }
    assert CaptureEnd(output, 8) == |output|;
    assert output[8..|output|] == body;
  }

  /** Without a fenced block, a one-line query after a `SPARQL:` marker comes
      back as written when no `VISUALIZATION:` marker follows it. */
  lemma MarkedQueryRoundTrip(output: string, body: string)
    requires output == "SPARQL: " + body
    requires body != [] && !IsSpace(body[0]) && !IsSpace(body[|body| - 1])
    requires '`' !in body && !Contains(body, "\"@en")
    requires forall k :: 0 <= k < |body| ==> !IsLineBreak(body[k])
    requires forall k :: 0 <= k < |body| ==> !MatchesIgnoreCaseAt(body, k, VisualizationMarker)
    ensures Cleaned(output) == Some(body)
  {
    var m := "SPARQL: ";
    forall k | 0 <= k < |output| ensures output[k] != '`' {
      if k < 8 {
        assert output[k] == m[k];
      } else {
        assert output[k] == body[k - 8];
      }
    }
    NoTicksNoFencedBlock(output);
    MarkerCaptureAll(output, body);
    FinishOneLine(body);
  }

  /** The emptiness check comes before the cleanup: a capture made only of a
      fence passes it and comes back as the empty query. */
  lemma EmptyAfterCleanup()
    ensures Cleaned("SPARQL: ```") == Some("")
  {
    FenceOnlyCapture();
    assert RemoveFences("```") == "";
    assert StripLangTags("") == "";
    assert SplitLines("") == [];
  }

  /** The marker pattern captures the bare fence after `SPARQL: `. */
  lemma FenceOnlyCapture()
    ensures Extract("SPARQL: ```") == Some("```")
  {
    var body := "```";
    assert "SPARQL: " + body == "SPARQL: ```";
    MarkedShortNoFence(body);
    MarkerCaptureAll("SPARQL: " + body, body);
  }

  /** A marker followed by fewer than nine characters leaves no room for a
      fenced block. */
  lemma MarkedShortNoFence(x: string)
    requires |x| < |FenceOpen|
    ensures FenceCapture("SPARQL: " + x, 0) == None
  {
    var s := "SPARQL: " + x;
    assert s[0..8] == "SPARQL: ";
    FenceCaptureSkips(s, 0, 8);
    assert FenceCapture(s, 8) == None;
  }

  // ---------------------------------------------------------------------------
  // The visualization tag

  /** Word characters are never whitespace. */
  lemma WordNotSpace(c: char)
    requires IsWordChar(c)
    ensures !IsSpace(c)
  {
  }

  /** The tag is "bar" or a non-empty run of word characters, which the
      final strip leaves as it is. */
  lemma TagIsWordOrBar(output: string)
    ensures var t := VisualizationTag(output);
      t == "bar" || (t != [] && forall k :: 0 <= k < |t| ==> IsWordChar(t[k]))
  {
    match TagWord(output, 0)
    case Some(w) =>
      WordNotSpace(w[0]);
      WordNotSpace(w[|w| - 1]);
      StripUnframed(w);
    case None =>
  }

  /** The word run from `i` ends at the first non-word character. */
  lemma {:induction false} SkipWordTo(s: string, i: nat, j: nat)
    requires i <= j <= |s|
    requires forall k :: i <= k < j ==> IsWordChar(s[k])
    requires j == |s| || !IsWordChar(s[j])
    ensures SkipWord(s, i) == j
    decreases j - i
  {
    if i < j {
      SkipWordTo(s, i + 1, j);
    }
  }

  /** A text that begins with the marker in capitals names its word. */
  lemma TagRoundTrip(output: string, w: string, rest: string)
    requires output == "VISUALIZATION: " + w + rest
    requires w != [] && forall k :: 0 <= k < |w| ==> IsWordChar(w[k])
    requires rest == [] || !IsWordChar(rest[0])
    ensures VisualizationTag(output) == w
  {
    var m := "VISUALIZATION: ";
    assert output[..15] == m;
    forall k | 0 <= k < 14 ensures LowerAscii(output[k]) == VisualizationMarker[k] {
      assert output[k] == m[k];
    }
    assert output[14] == ' ';
    assert output[15..15 + |w|] == w;
    assert output[15] == w[0];
    WordNotSpace(w[0]);
    assert SkipSpace(output, 14) == 15;
    var e := SkipWord(output, 15);
    forall k | 15 <= k < 15 + |w| ensures IsWordChar(output[k]) {
      assert output[k] == w[k - 15];
    }
    if 15 + |w| < |output| {
      assert output[15 + |w|] == rest[0];
    }
    SkipWordTo(output, 15, 15 + |w|);
    WordNotSpace(w[|w| - 1]);
    StripUnframed(w);
  }
}
