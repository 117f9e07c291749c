/** Extraction of a SPARQL query from free text written by a language model,
    and of the visualization tag that text names.  The query is taken from a
    fenced ```sparql block, or else from after a `SPARQL:` marker; fences and
    `"@en` language tags are removed, the lines after the one that closes the
    outermost brace are dropped and the result is stripped. */
module LlmCleanup {
  import opened Text

  // ---------------------------------------------------------------------------
  // Searching

  /** The leftmost occurrence of `pat` at or after `i`. */
  function FindFrom(s: string, i: nat, pat: string): (r: Option<nat>)
    requires i <= |s|
    ensures r.Some? ==> i <= r.value && OccursAt(s, pat, r.value)
    ensures r.Some? ==> forall k :: i <= k < r.value ==> !OccursAt(s, pat, k)
    ensures r.None? ==> forall k :: i <= k <= |s| ==> !OccursAt(s, pat, k)
    decreases |s| - i
  {
    if OccursAt(s, pat, i) then Some(i)
    else if i == |s| then None
    else FindFrom(s, i + 1, pat)
  }

  const Fence := "```"

  /** The opening of a fenced block, in lower case: matched ignoring case. */
  const FenceOpen := "```sparql"

  const SparqlMarker := "sparql:"
  const VisualizationMarker := "visualization:"

  // ---------------------------------------------------------------------------
  // The two patterns

  /** The pattern ```sparql\s*(.*?)``` searched from `i` on (dot matching
      newlines, case ignored): at the leftmost opening that some later fence
      closes, the capture runs from after the opening's whitespace to the
      first fence. */
  function FenceCapture(s: string, i: nat): Option<string>
    requires i <= |s|
    decreases |s| - i
  {
    if i + |FenceOpen| > |s| then None
    else if MatchesIgnoreCaseAt(s, i, FenceOpen) then
      var b := SkipSpace(s, i + |FenceOpen|);
      match FindFrom(s, b, Fence)
      case Some(c) => Some(s[b..c])
      case None => FenceCapture(s, i + 1)
    else FenceCapture(s, i + 1)
  }

  /** The capture of the marker pattern may end here: before a
      `VISUALIZATION:` marker, at the end, or before a final newline (what
      `$` matches without MULTILINE). */
  predicate EndsCapture(s: string, e: nat)
  {
    MatchesIgnoreCaseAt(s, e, VisualizationMarker) || e == |s| || (e + 1 == |s| && s[e] == '\n')
  }

  /** The lazy capture's end: the first place at or after `p` where it may end. */
  function CaptureEnd(s: string, p: nat): (e: nat)
    requires p <= |s|
    ensures p <= e <= |s| && EndsCapture(s, e)
    ensures forall k :: p <= k < e ==> !EndsCapture(s, k)
    decreases |s| - p
  {
    if EndsCapture(s, p) then p else CaptureEnd(s, p + 1)
  }

  /** The pattern SPARQL:\s*(.*?)(VISUALIZATION:|$) searched from `i` on. */
  function MarkerCapture(s: string, i: nat): Option<string>
    requires i <= |s|
    decreases |s| - i
  {
    if i + |SparqlMarker| > |s| then None
    else if MatchesIgnoreCaseAt(s, i, SparqlMarker) then
      var b := SkipSpace(s, i + |SparqlMarker|);
      Some(s[b..CaptureEnd(s, b)])
    else MarkerCapture(s, i + 1)
  }

  /** The raw capture: the fenced block if there is one, else the marker. */
  function Extract(output: string): Option<string>
  {
    match FenceCapture(output, 0)
    case Some(q) => Some(q)
    case None => MarkerCapture(output, 0)
  }

  // ---------------------------------------------------------------------------
  // Cleanup

  function RemoveFences(q: string): string
  {
    ReplaceAll(q, Fence, "")
  }

  /** `"@en` becomes `"`, one non-overlapping pass. */
  function StripLangTags(q: string): string
  {
    ReplaceAll(q, "\"@en", "\"")
  }

  /** The running brace count after `lines`: opening minus closing braces. */
  function Balance(lines: seq<string>): int
  {
    if lines == [] then 0
    else Balance(lines[..|lines| - 1]) + CountChar(lines[|lines| - 1], '{') - CountChar(lines[|lines| - 1], '}')
  }

  /** Line `j` ends the query: the count is no longer positive and the line
      holds a closing brace. */
  predicate StopsAt(lines: seq<string>, j: nat)
    requires j < |lines|
  {
    Balance(lines[..j + 1]) <= 0 && '}' in lines[j]
  }

  /** How many lines from `j` on survive the truncation. */
  function KeepFrom(lines: seq<string>, j: nat): (n: nat)
    requires j <= |lines|
    ensures j <= n <= |lines|
    ensures forall k :: j <= k < n - 1 ==> !StopsAt(lines, k)
    ensures n < |lines| ==> j < n && StopsAt(lines, n - 1)
    decreases |lines| - j
  {
    if j == |lines| then j
    else if StopsAt(lines, j) then j + 1
    else KeepFrom(lines, j + 1)
  }

  /** The number of lines kept: up to and including the first line that ends
      the query, or all of them. */
  function KeepCount(lines: seq<string>): (n: nat)
    ensures n <= |lines|
    ensures forall k :: 0 <= k < n - 1 ==> !StopsAt(lines, k)
    ensures n < |lines| ==> 0 < n && StopsAt(lines, n - 1)
  {
    KeepFrom(lines, 0)
  }

  /** The truncation loop: keeps lines while tracking the brace count and
      stops after the first line that ends the query. */
  method TruncateLines(lines: seq<string>) returns (kept: seq<string>)
    ensures kept == lines[..KeepCount(lines)]
  {
    kept := [];
    var braceCount := 0;
    for i := 0 to |lines|
      invariant kept == lines[..i]
      invariant braceCount == Balance(lines[..i])
      invariant KeepFrom(lines, i) == KeepCount(lines)
    {
      var line := lines[i];
      assert lines[..i + 1][..i] == lines[..i];
      braceCount := braceCount + CountChar(line, '{');
      braceCount := braceCount - CountChar(line, '}');
      kept := kept + [line];
      if braceCount <= 0 && '}' in line {
        return;
      }
    }
    assert lines[..|lines|] == lines;
  }

  /** The query text after the capture: fences and language tags removed,
      lines truncated, joined and stripped. */
  function Finish(q: string): string
  {
    var lines := SplitLines(StripLangTags(RemoveFences(q)));
    Strip(Join("\n", lines[..KeepCount(lines)]))
  }

  /** `clean_sparql`: no query when nothing was captured or the capture is
      empty; otherwise the finished capture. */
  function Cleaned(output: string): Option<string>
  {
    match Extract(output)
    case None => None
    case Some(q) => if q == [] then None else Some(Finish(q))
  }

  /** `clean_sparql` as the source runs it, with its truncation loop. */
  method CleanSparql(output: string) returns (r: Option<string>)
    ensures r == Cleaned(output)
  {
    var captured := Extract(output);
    if captured.None? || captured.value == [] {
      return None;
    }
    var query := RemoveFences(captured.value);
    query := StripLangTags(query);
    var lines := SplitLines(query);
    var validLines := TruncateLines(lines);
    r := Some(Strip(Join("\n", validLines)));
  }

  // ---------------------------------------------------------------------------
  // Visualization tag

  /** The pattern VISUALIZATION:\s*(\w+) searched from `i` on, case ignored;
      what it captures is a non-empty run of word characters. */
  function TagWord(s: string, i: nat): (t: Option<string>)
    requires i <= |s|
    ensures t.Some? ==> t.value != [] && forall k :: 0 <= k < |t.value| ==> IsWordChar(t.value[k])
    decreases |s| - i
  {
    if i + |VisualizationMarker| > |s| then None
    else if MatchesIgnoreCaseAt(s, i, VisualizationMarker) then
      var b := SkipSpace(s, i + |VisualizationMarker|);
      if b < |s| && IsWordChar(s[b]) then Some(s[b..SkipWord(s, b)]) else TagWord(s, i + 1)
    else TagWord(s, i + 1)
  }

  /** The tag the model's text names, stripped, or "bar" when it names none;
      never empty, since a word character is not whitespace. */
  function VisualizationTag(output: string): (tag: string)
    ensures tag != []
  {
    match TagWord(output, 0)
    case Some(w) => Strip(w)
    case None => "bar"
  }
}
