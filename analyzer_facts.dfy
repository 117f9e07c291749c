/** What the question analyzer guarantees: lexicon matching, the priority of
    the gender cues, the year extraction, the shape of the grouping list and
    the order in which the cue rules override one another. */
module AnalyzerFacts {
  import opened Text
  import opened Analyzer

  // ---------------------------------------------------------------------------
  // Lexicon matching

  /** Entry `i` of `lex` maps to `v` and its key occurs in `text`. */
  predicate Hit(lex: Lexicon, text: string, i: int, v: string)
  {
    0 <= i < |lex| && lex[i].1 == v && Contains(text, lex[i].0)
  }

  predicate NoDuplicates(xs: seq<string>)
  {
    forall i, j :: 0 <= i < j < |xs| ==> xs[i] != xs[j]
  }

  /** The first lexicon index at which `v` is hit, or `|lex|` if it never is. */
  function FirstHit(lex: Lexicon, text: string, v: string): (n: nat)
    ensures n <= |lex|
    ensures n < |lex| ==> Hit(lex, text, n, v)
    ensures forall i :: 0 <= i < n ==> !Hit(lex, text, i, v)
    decreases |lex|
  {
    if lex == [] then 0
    else
      var init := lex[..|lex| - 1];
      var p := FirstHit(init, text, v);
      assert forall i :: 0 <= i < |init| ==> (Hit(init, text, i, v) <==> Hit(lex, text, i, v));
      if p < |init| then p
      else if Hit(lex, text, |init|, v) then |init|
      else |lex|
  }

  /** A canonical value is collected exactly when one of its keys occurs in the text. */
  lemma {:induction false} CollectMembership(lex: Lexicon, text: string, v: string)
    ensures v in Collect(lex, text) <==> exists i :: Hit(lex, text, i, v)
  {
    if lex != [] {
      var init := lex[..|lex| - 1];
      CollectMembership(init, text, v);
      assert forall i :: Hit(init, text, i, v) <==> i < |init| && Hit(lex, text, i, v);
      if Hit(lex, text, |init|, v) {
        assert v in Collect(lex, text);
      }
    }
  }

  /** No canonical value is collected twice. */
  lemma {:induction false} CollectNoDuplicates(lex: Lexicon, text: string)
    ensures NoDuplicates(Collect(lex, text))
  {
    if lex != [] {
      CollectNoDuplicates(lex[..|lex| - 1], text);
    }
  }

  /** A value collected from all entries but the last is first hit there. */
  lemma FirstHitInInit(lex: Lexicon, text: string, v: string)
    requires lex != [] && v in Collect(lex[..|lex| - 1], text)
    ensures FirstHit(lex, text, v) == FirstHit(lex[..|lex| - 1], text, v) < |lex| - 1
  {
    CollectMembership(lex[..|lex| - 1], text, v);
  }

  /** Two values collected from all entries but the last keep their order. */
  lemma InitOrderKept(lex: Lexicon, text: string, i: nat, j: nat)
    requires lex != [] && i < j < |Collect(lex[..|lex| - 1], text)|
    requires var prev := Collect(lex[..|lex| - 1], text);
      FirstHit(lex[..|lex| - 1], text, prev[i]) < FirstHit(lex[..|lex| - 1], text, prev[j])
    ensures var prev := Collect(lex[..|lex| - 1], text);
      FirstHit(lex, text, prev[i]) < FirstHit(lex, text, prev[j])
  {
    var prev := Collect(lex[..|lex| - 1], text);
    FirstHitInInit(lex, text, prev[i]);
    FirstHitInInit(lex, text, prev[j]);
  }

  /** Collected values follow the lexicon's declaration order (of their first
      matching key), not their position in the text. */
  lemma {:induction false} CollectOrder(lex: Lexicon, text: string)
    ensures var r := Collect(lex, text);
      forall i, j :: 0 <= i < j < |r| ==> FirstHit(lex, text, r[i]) < FirstHit(lex, text, r[j])
  {
    if lex != [] {
      var init := lex[..|lex| - 1];
      var prev := Collect(init, text);
      CollectOrder(init, text);
      var entry := lex[|lex| - 1];
      var r := Collect(lex, text);
      if Contains(text, entry.0) && entry.1 !in prev {
        assert r == prev + [entry.1];
        CollectMembership(init, text, entry.1);
        assert FirstHit(init, text, entry.1) == |init|;
        assert Hit(lex, text, |init|, entry.1);
        forall i, j | 0 <= i < j < |r|
          ensures FirstHit(lex, text, r[i]) < FirstHit(lex, text, r[j])
        {
          assert r[i] == prev[i];
          if j < |prev| {
            assert r[j] == prev[j];
            InitOrderKept(lex, text, i, j);
          } else {
            FirstHitInInit(lex, text, prev[i]);
          }
        }
      } else {
        assert r == prev;
        forall i, j | 0 <= i < j < |r|
          ensures FirstHit(lex, text, r[i]) < FirstHit(lex, text, r[j])
        {
          InitOrderKept(lex, text, i, j);
        }
      }
    }
  }

  /** The three entity lists of the analysis: membership, no duplicates, order. */
  lemma EntityLists(question: string, lowered: string)
    ensures var a := Analyze(question, lowered);
      a.diseases == Collect(Diseases, lowered) &&
      a.locations == Collect(Locations, lowered) &&
      a.measures == Collect(Measures, lowered)
    ensures var a := Analyze(question, lowered);
      NoDuplicates(a.diseases) && NoDuplicates(a.locations) && NoDuplicates(a.measures)
    ensures forall v :: v in Analyze(question, lowered).diseases <==> exists i :: Hit(Diseases, lowered, i, v)
    ensures forall v :: v in Analyze(question, lowered).locations <==> exists i :: Hit(Locations, lowered, i, v)
    ensures forall v :: v in Analyze(question, lowered).measures <==> exists i :: Hit(Measures, lowered, i, v)
  {
    CollectNoDuplicates(Diseases, lowered);
    CollectNoDuplicates(Locations, lowered);
    CollectNoDuplicates(Measures, lowered);
    forall v ensures v in Collect(Diseases, lowered) <==> exists i :: Hit(Diseases, lowered, i, v) {
      CollectMembership(Diseases, lowered, v);
    }
    forall v ensures v in Collect(Locations, lowered) <==> exists i :: Hit(Locations, lowered, i, v) {
      CollectMembership(Locations, lowered, v);
    }
    forall v ensures v in Collect(Measures, lowered) <==> exists i :: Hit(Measures, lowered, i, v) {
      CollectMembership(Measures, lowered, v);
    }
  }

  // ---------------------------------------------------------------------------
  // Quote-free canonical values

  /** No canonical value of `lex` holds a double quote. */
  predicate QuoteFreeValues(lex: Lexicon)
  {
    forall i :: 0 <= i < |lex| ==> '"' !in lex[i].1
  }

  lemma QuoteFreeConcat(a: Lexicon, b: Lexicon)
    requires QuoteFreeValues(a) && QuoteFreeValues(b)
    ensures QuoteFreeValues(a + b)
  {
    forall i | 0 <= i < |a + b| ensures '"' !in (a + b)[i].1 {
      if i < |a| {
        assert (a + b)[i] == a[i];
      } else {
        assert (a + b)[i] == b[i - |a|];
      }
    }
  }

  lemma DiseasesFront()
    ensures QuoteFreeValues(Diseases[..16])
  {
  }

  lemma DiseasesBack()
    ensures QuoteFreeValues(Diseases[16..])
  {
  }

  /** The disease lexicon's canonical values hold no quote. */
  lemma DiseaseValuesQuoteFree()
    ensures QuoteFreeValues(Diseases)
  {
    DiseasesFront();
    DiseasesBack();
    QuoteFreeConcat(Diseases[..16], Diseases[16..]);
    assert Diseases[..16] + Diseases[16..] == Diseases;
  }

  /** The location lexicon's canonical values hold no quote. */
  lemma LocationValuesQuoteFree()
    ensures QuoteFreeValues(Locations)
  {
  }

  /** The measure lexicon's canonical values hold no quote. */
  lemma MeasureValuesQuoteFree()
    ensures QuoteFreeValues(Measures)
  {
  }

  /** Whatever is collected from a quote-free lexicon is quote-free. */
  lemma CollectedQuoteFree(lex: Lexicon, text: string, v: string)
    requires QuoteFreeValues(lex) && v in Collect(lex, text)
    ensures '"' !in v
  {
    CollectMembership(lex, text, v);
    var i :| Hit(lex, text, i, v);
  }

  /** No value of `a` that a query can interpolate holds a quote. */
  predicate QuoteFreeAnalysis(a: Analysis)
  {
    (forall v :: v in a.diseases ==> '"' !in v) &&
    (forall v :: v in a.locations ==> '"' !in v) &&
    (forall v :: v in a.measures ==> '"' !in v) &&
    (a.timePeriod.Some? ==> '"' !in a.timePeriod.value)
  }

  lemma YearTokenQuoteFree(t: string)
    requires IsYearToken(t)
    ensures '"' !in t
  {
    assert forall k :: 0 <= k < |t| ==> IsAsciiDigit(t[k]);
  }

  /** Entity lists collected from the lexicons and a year-token period make a
      quote-free analysis. */
  lemma CollectedAnalysisQuoteFree(a: Analysis, lowered: string)
    requires a.diseases == Collect(Diseases, lowered)
    requires a.locations == Collect(Locations, lowered)
    requires a.measures == Collect(Measures, lowered)
    requires a.timePeriod.Some? ==> IsYearToken(a.timePeriod.value)
    ensures QuoteFreeAnalysis(a)
  {
    DiseaseValuesQuoteFree();
    LocationValuesQuoteFree();
    MeasureValuesQuoteFree();
    forall v | v in a.diseases ensures '"' !in v {
      CollectedQuoteFree(Diseases, lowered, v);
    }
    forall v | v in a.locations ensures '"' !in v {
      CollectedQuoteFree(Locations, lowered, v);
    }
    forall v | v in a.measures ensures '"' !in v {
      CollectedQuoteFree(Measures, lowered, v);
    }
    if a.timePeriod.Some? {
      YearTokenQuoteFree(a.timePeriod.value);
    }
  }

  /** No value the analysis extracts holds a quote: entity values come from
      the lexicons and a time period is a year token. */
  lemma AnalysisQuoteFree(question: string, lowered: string)
    ensures QuoteFreeAnalysis(Analyze(question, lowered))
  {
    EntityLists(question, lowered);
    YearFields(question, lowered);
    CollectedAnalysisQuoteFree(Analyze(question, lowered), lowered);
  }

  /** No key before index 8 of the measures lexicon maps to Incidence. */
  lemma IncidenceKeysStartAtEight(lowered: string)
    ensures FirstHit(Measures, lowered, "Incidence") >= 8
  {
    forall k | 0 <= k < 8 ensures !Hit(Measures, lowered, k, "Incidence") {
      assert Measures[k].1 != "Incidence";
    }
  }

  /** "new cases" contains the key "cases": both measures are collected,
      Prevalence first. */
  lemma NewCasesCollectsBoth(lowered: string)
    requires Contains(lowered, "new cases")
    ensures var ms := Collect(Measures, lowered);
      exists i, j :: 0 <= i < j < |ms| && ms[i] == "Prevalence" && ms[j] == "Incidence"
  {
    assert OccursAt("new cases", "cases", 4);
    ContainsTrans(lowered, "new cases", "cases");
    assert Hit(Measures, lowered, 4, "Prevalence");
    assert Hit(Measures, lowered, 10, "Incidence");
    IncidenceKeysStartAtEight(lowered);
    CollectedInOrder(Measures, lowered, "Prevalence", "Incidence", 4);
  }

  /** A value hit at index `k`, before the first hit of another value that is
      hit somewhere, is collected before it. */
  lemma CollectedInOrder(lex: Lexicon, text: string, u: string, v: string, k: nat)
    requires Hit(lex, text, k, u)
    requires exists m :: Hit(lex, text, m, v)
    requires FirstHit(lex, text, v) > k
    ensures var ms := Collect(lex, text);
      exists i, j :: 0 <= i < j < |ms| && ms[i] == u && ms[j] == v
  {
    var ms := Collect(lex, text);
    CollectMembership(lex, text, u);
    CollectMembership(lex, text, v);
    CollectOrder(lex, text);
    var i :| 0 <= i < |ms| && ms[i] == u;
    var j :| 0 <= j < |ms| && ms[j] == v;
    assert FirstHit(lex, text, ms[i]) <= k;
    assert i < j;
  }

  /** Different canonical values for one concept co-occur: a question saying
      "new cases" reports both Prevalence and Incidence, Prevalence first. */
  lemma NewCasesYieldsBothMeasures(question: string, lowered: string)
    requires Contains(lowered, "new cases")
    ensures var ms := Analyze(question, lowered).measures;
      exists i, j :: 0 <= i < j < |ms| && ms[i] == "Prevalence" && ms[j] == "Incidence"
  {
    assert Analyze(question, lowered).measures == Collect(Measures, lowered);
    NewCasesCollectsBoth(lowered);
  }

  // ---------------------------------------------------------------------------
  // Gender

  /** A female cue always wins; a male cue counts only without one. */
  lemma GenderPriority(question: string, lowered: string)
    ensures Analyze(question, lowered).gender == Some(Female) <==> AnyIn(lowered, FemaleCues)
    ensures Analyze(question, lowered).gender == Some(Male) <==>
      !AnyIn(lowered, FemaleCues) && AnyIn(lowered, MaleCues)
    ensures Analyze(question, lowered).gender == None <==>
      !AnyIn(lowered, FemaleCues) && !AnyIn(lowered, MaleCues)
  {
  }

  /** "women" contains the male cue "men" and "female" contains "male": the
      female branch is what keeps such questions Female. */
  lemma MaleCueShadowed(question: string, lowered: string)
    requires Contains(lowered, "women") || Contains(lowered, "female")
    ensures AnyIn(lowered, MaleCues)
    ensures Analyze(question, lowered).gender == Some(Female)
  {
    if Contains(lowered, "women") {
      assert OccursAt("women", "men", 2);
      ContainsTrans(lowered, "women", "men");
      assert "men" in MaleCues;
      assert "women" in FemaleCues;
    } else {
      assert OccursAt("female", "male", 2);
      ContainsTrans(lowered, "female", "male");
      assert "male" in MaleCues;
      assert "female" in FemaleCues;
    }
  }

  // ---------------------------------------------------------------------------
  // Years

  function Digit(c: char): int
  {
    c as int - '0' as int
  }

  /** The number a year token denotes. */
  function YearValue(t: string): (n: int)
    requires IsYearToken(t)
    ensures 1900 <= n <= 2099
  {
    1000 * Digit(t[0]) + 100 * Digit(t[1]) + 10 * Digit(t[2]) + Digit(t[3])
  }

  /** On year tokens, Python's string order is the numeric order, so the
      string min/max of the source picks the earliest and the latest year. */
  lemma YearOrderIsNumeric(a: string, b: string)
    requires IsYearToken(a) && IsYearToken(b)
    ensures LexLess(a, b) <==> YearValue(a) < YearValue(b)
  {
    assert LexLess(a, b) == (a[0] < b[0] || (a[0] == b[0] && LexLess(a[1..], b[1..])));
    assert LexLess(a[1..], b[1..]) == (a[1] < b[1] || (a[1] == b[1] && LexLess(a[2..], b[2..])));
    assert a[2..][1..] == a[3..] && b[2..][1..] == b[3..];
    assert LexLess(a[2..], b[2..]) == (a[2] < b[2] || (a[2] == b[2] && LexLess(a[3..], b[3..])));
    assert a[3..][1..] == [] && b[3..][1..] == [];
    assert LexLess(a[3..], b[3..]) == (a[3] < b[3]);
  }

  /** The year fields: a range from two or more matches (duplicates counted),
      a single period from exactly one, nothing from none; later rules never
      touch them. */
  lemma YearFields(question: string, lowered: string)
    ensures var a := Analyze(question, lowered); var ys := FindYears(question);
      (|ys| >= 2 ==> a.timeRange == Some((MinStr(ys), MaxStr(ys))) && a.timePeriod == None) &&
      (|ys| == 1 ==> a.timePeriod == Some(ys[0]) && a.timeRange == None) &&
      (|ys| == 0 ==> a.timePeriod == None && a.timeRange == None)
    ensures var a := Analyze(question, lowered);
      a.timePeriod.Some? ==> IsYearToken(a.timePeriod.value)
  {
  }

  /** The range spans the earliest and the latest year mentioned, numerically. */
  lemma YearRangeBounds(question: string, lowered: string)
    requires |FindYears(question)| >= 2
    ensures var r := Analyze(question, lowered).timeRange;
      r.Some? && r.value.0 in FindYears(question) && r.value.1 in FindYears(question) &&
      forall y :: y in FindYears(question) ==>
        YearValue(r.value.0) <= YearValue(y) <= YearValue(r.value.1)
  {
    var ys := FindYears(question);
    var lo, hi := MinStr(ys), MaxStr(ys);
    forall y | y in ys ensures YearValue(lo) <= YearValue(y) <= YearValue(hi) {
      YearOrderIsNumeric(y, lo);
      YearOrderIsNumeric(hi, y);
    }
  }

  /** Word boundaries: a year glued to a letter or digit is not a year. */
  lemma YearPatternExamples()
    ensures FindYears("2020s") == []
    ensures FindYears("y2020") == []
    ensures FindYears("1899") == [] && FindYears("2100") == []
  {
    assert !YearAt("2020s", 0);
    assert !YearAt("2020s", 1);
    assert !YearAt("y2020", 0);
    assert !YearAt("y2020", 1);
    assert !YearAt("1899", 0) && !YearAt("2100", 0);
  }

  /** Years separated by words are all found, in order of appearance. */
  lemma TwoYearsExample()
    ensures FindYears("from 1990 to 2020") == ["1990", "2020"]
  {
    var q := "from 1990 to 2020";
    forall k | 0 <= k < 4 ensures q[5 + k] == "1990"[k] && q[13 + k] == "2020"[k] {
    }
    assert q[5..9] == "1990";
    assert q[13..17] == "2020";
    assert YearAt(q, 5) && YearAt(q, 13);
    assert forall i :: 0 <= i < 5 ==> !YearAt(q, i);
    assert forall i :: 9 <= i < 13 ==> !YearAt(q, i);
    assert YearsFrom(q, 13) == ["2020"];
    assert YearsFrom(q, 9) == ["2020"];
    assert YearsFrom(q, 5) == ["1990", "2020"];
  }

  /** Two matches make a range even when they are the same year: the count
      includes repeats. */
  lemma RepeatedYearMakesRange(lowered: string)
    ensures Analyze("2000 2000", lowered).timeRange == Some(("2000", "2000"))
    ensures Analyze("2000 2000", lowered).timePeriod == None
  {
    var q := "2000 2000";
    assert q[0..4] == "2000" && q[5..9] == "2000";
    assert YearAt(q, 0) && YearAt(q, 5);
    assert !YearAt(q, 4);
    assert YearsFrom(q, 5) == ["2000"];
    assert YearsFrom(q, 4) == ["2000"];
    assert FindYears(q) == ["2000", "2000"];
  }

  /** Matches of the year pattern cannot overlap: every character of a match
      is a digit, so no word boundary opens inside it. */
  lemma YearsDoNotOverlap(q: string, i: nat)
    requires YearAt(q, i)
    ensures forall k :: i < k < i + 4 ==> !YearAt(q, k)
  {
    forall k | i < k < i + 4 ensures !YearAt(q, k) {
      assert q[k - 1] == q[i..i + 4][k - 1 - i];
    }
  }

  /** Reference for the scan: every index from `i` on at which the year
      pattern matches, in increasing order. */
  ghost function YearStarts(q: string, i: nat): (ks: seq<nat>)
    requires i <= |q|
    ensures forall j :: 0 <= j < |ks| ==> i <= ks[j] && YearAt(q, ks[j])
    ensures forall j, l :: 0 <= j < l < |ks| ==> ks[j] < ks[l]
    ensures forall k :: i <= k && YearAt(q, k) ==> k in ks
    decreases |q| - i
  {
    if i + 4 > |q| then []
    else if YearAt(q, i) then YearsDoNotOverlap(q, i); [i] + YearStarts(q, i + 4)
    else YearStarts(q, i + 1)
  }

  /** `ys` holds the text of the four-character matches starting at `ks`, one by one. */
  predicate TokensAt(q: string, ks: seq<nat>, ys: seq<string>)
  {
    |ys| == |ks| && forall j :: 0 <= j < |ks| ==> ks[j] + 4 <= |q| && ys[j] == q[ks[j]..ks[j] + 4]
  }

  lemma TokensCons(q: string, i: nat, ks: seq<nat>, ys: seq<string>)
    requires i + 4 <= |q| && TokensAt(q, ks, ys)
    ensures TokensAt(q, [i] + ks, [q[i..i + 4]] + ys)
  {
    var ks', ys' := [i] + ks, [q[i..i + 4]] + ys;
    forall j | 1 <= j < |ks'| ensures ks'[j] + 4 <= |q| && ys'[j] == q[ks'[j]..ks'[j] + 4] {
      assert ks'[j] == ks[j - 1] && ys'[j] == ys[j - 1];
    }
  }

  /** The scan returns the text of every match, in the order the matches
      occur, and nothing else. */
  lemma {:induction false} YearsFromInOrder(q: string, i: nat)
    requires i <= |q|
    ensures TokensAt(q, YearStarts(q, i), YearsFrom(q, i))
    decreases |q| - i
  {
    if i + 4 > |q| {
    } else if YearAt(q, i) {
      YearsFromInOrder(q, i + 4);
      TokensCons(q, i, YearStarts(q, i + 4), YearsFrom(q, i + 4));
    } else {
      YearsFromInOrder(q, i + 1);
    }
  }

  /** Every token found is the text of a match. */
  lemma FoundIsMatch(q: string, y: string)
    requires y in FindYears(q)
    ensures exists k: nat :: YearAt(q, k) && q[k..k + 4] == y
  {
    var ks, ys := YearStarts(q, 0), FindYears(q);
    YearsFromInOrder(q, 0);
    var j :| 0 <= j < |ys| && ys[j] == y;
    assert YearAt(q, ks[j]) && q[ks[j]..ks[j] + 4] == y;
  }

  /** The text of every match is found. */
  lemma MatchIsFound(q: string, k: nat)
    requires YearAt(q, k)
    ensures q[k..k + 4] in FindYears(q)
  {
    var ks, ys := YearStarts(q, 0), FindYears(q);
    YearsFromInOrder(q, 0);
    var j :| 0 <= j < |ks| && ks[j] == k;
    assert ys[j] == q[k..k + 4];
  }

  /** A token is found if and only if the year pattern matches it somewhere
      in the question. */
  lemma YearsFromExact(q: string)
    ensures forall y :: y in FindYears(q) <==> exists k: nat :: YearAt(q, k) && q[k..k + 4] == y
  {
    forall y | y in FindYears(q) ensures exists k: nat :: YearAt(q, k) && q[k..k + 4] == y {
      FoundIsMatch(q, y);
    }
    forall y | exists k: nat :: YearAt(q, k) && q[k..k + 4] == y ensures y in FindYears(q) {
      var k: nat :| YearAt(q, k) && q[k..k + 4] == y;
      MatchIsFound(q, k);
    }
  }

  // ---------------------------------------------------------------------------
  // Grouping and aggregation

  function Rank(d: Dimension): nat
  {
    match d
    case Sex => 0
    case Location => 1
    case Age => 2
    case Year => 3
  }

  predicate RankSorted(g: seq<Dimension>)
  {
    forall i, j :: 0 <= i < j < |g| ==> Rank(g[i]) < Rank(g[j])
  }

  lemma AppendRanked(g: seq<Dimension>, d: Dimension)
    requires RankSorted(g) && forall x :: x in g ==> Rank(x) < Rank(d)
    ensures RankSorted(g + [d])
  {
    var g' := g + [d];
    forall i, j | 0 <= i < j < |g'| ensures Rank(g'[i]) < Rank(g'[j]) {
      assert g'[i] in g;
    }
  }

  /** The list the grouping stage builds from an empty one, given which
      group cues occur. */
  function CueGrouping(sex: bool, loc: bool, age: bool, year: bool): seq<Dimension>
  {
    var g1: seq<Dimension> := if sex then [Sex] else [];
    var g2 := if loc then g1 + [Location] else g1;
    var g3 := if age then g2 + [Age] else g2;
    if year then g3 + [Year] else g3
  }

  lemma CueGroupingMembers(sex: bool, loc: bool, age: bool, year: bool)
    ensures var g := CueGrouping(sex, loc, age, year);
      (Sex in g <==> sex) && (Location in g <==> loc) &&
      (Age in g <==> age) && (Year in g <==> year)
  {
  }

  lemma CueGroupingSorted(sex: bool, loc: bool, age: bool, year: bool)
    ensures RankSorted(CueGrouping(sex, loc, age, year))
  {
    var g1: seq<Dimension> := if sex then [Sex] else [];
    var g2 := if loc then g1 + [Location] else g1;
    var g3 := if age then g2 + [Age] else g2;
    assert forall d :: d in g1 ==> Rank(d) < 1;
    if loc { AppendRanked(g1, Location); }
    assert forall d :: d in g2 ==> Rank(d) < 2;
    if age { AppendRanked(g2, Age); }
    assert forall d :: d in g3 ==> Rank(d) < 3;
    if year { AppendRanked(g3, Year); }
  }

  /** The grouping stage appends the cue-selected dimensions in rank order. */
  lemma GroupingStage(a: Analysis, lowered: string)
    requires a.grouping == []
    ensures var g := ApplyGrouping(a, lowered).grouping;
      (Sex in g <==> AnyIn(lowered, SexGroupCues)) &&
      (Location in g <==> AnyIn(lowered, LocationGroupCues)) &&
      (Age in g <==> AnyIn(lowered, AgeGroupCues)) &&
      (Year in g <==> AnyIn(lowered, YearGroupCues)) &&
      RankSorted(g)
  {
    var sex, loc := AnyIn(lowered, SexGroupCues), AnyIn(lowered, LocationGroupCues);
    var age, year := AnyIn(lowered, AgeGroupCues), AnyIn(lowered, YearGroupCues);
    assert a.grouping + [Sex] == [Sex];
    assert ApplyGrouping(a, lowered).grouping == CueGrouping(sex, loc, age, year);
    CueGroupingMembers(sex, loc, age, year);
    CueGroupingSorted(sex, loc, age, year);
  }

  /** The grouping list is the cue-selected part of [sex, location, age, year],
      in that order and without duplicates. */
  lemma GroupingShape(question: string, lowered: string)
    ensures var g := Analyze(question, lowered).grouping;
      (Sex in g <==> AnyIn(lowered, SexGroupCues)) &&
      (Location in g <==> AnyIn(lowered, LocationGroupCues)) &&
      (Age in g <==> AnyIn(lowered, AgeGroupCues)) &&
      (Year in g <==> AnyIn(lowered, YearGroupCues))
    ensures RankSorted(Analyze(question, lowered).grouping)
  {
    var a3 := ApplyYears(ApplyGender(ApplyLexicons(Initial, lowered), lowered), question);
    GroupingStage(a3, lowered);
  }

  /** Sum cues take priority over average cues; the two never both apply. */
  lemma AggregationPriority(question: string, lowered: string)
    ensures Analyze(question, lowered).aggregation == Some(Sum) <==> AnyIn(lowered, SumCues)
    ensures Analyze(question, lowered).aggregation == Some(Avg) <==>
      !AnyIn(lowered, SumCues) && AnyIn(lowered, AvgCues)
    ensures Analyze(question, lowered).aggregation == None <==>
      !AnyIn(lowered, SumCues) && !AnyIn(lowered, AvgCues)
  {
  }

  // ---------------------------------------------------------------------------
  // The override cascade

  /** The final query type, as a priority table: comparison, ranking, sum,
      average, then the trend set by a year-grouping cue or by two years. */
  lemma QueryTypeCascade(question: string, lowered: string)
    ensures var t := Analyze(question, lowered).queryType;
      if AnyIn(lowered, ComparisonCues) then t == Comparison
      else if AnyIn(lowered, RankingCues) then t == Ranking
      else if AnyIn(lowered, SumCues) then t == Total
      else if AnyIn(lowered, AvgCues) then t == Average
      else if AnyIn(lowered, YearGroupCues) || |FindYears(question)| >= 2 then t == Trend
      else t == General
  {
    var a3 := ApplyYears(ApplyGender(ApplyLexicons(Initial, lowered), lowered), question);
    assert a3.queryType == if |FindYears(question)| >= 2 then Trend else General;
    var a4 := ApplyGrouping(a3, lowered);
    GroupingQueryType(a3, lowered);
    var a5 := ApplyAggregation(a4, lowered);
    AggregationQueryType(a4, lowered);
    var a6 := ApplyOverrides(a5, lowered);
    OverridesQueryType(a5, lowered);
    assert Analyze(question, lowered).queryType == a6.queryType;
  }

  lemma GroupingQueryType(a: Analysis, lowered: string)
    ensures ApplyGrouping(a, lowered).queryType == if AnyIn(lowered, YearGroupCues) then Trend else a.queryType
  {
  }

  lemma AggregationQueryType(a: Analysis, lowered: string)
    ensures ApplyAggregation(a, lowered).queryType ==
      if AnyIn(lowered, SumCues) then Total else if AnyIn(lowered, AvgCues) then Average else a.queryType
  {
  }

  lemma OverridesQueryType(a: Analysis, lowered: string)
    ensures ApplyOverrides(a, lowered).queryType ==
      if AnyIn(lowered, ComparisonCues) then Comparison else if AnyIn(lowered, RankingCues) then Ranking else a.queryType
  {
  }

  /** The final visualization, as a priority table: the grouping refinement
      first, then the override cues, then the aggregation, then the trend. */
  lemma VisualizationCascade(question: string, lowered: string)
    ensures var a := Analyze(question, lowered);
      var trendView := if AnyIn(lowered, YearGroupCues) || |FindYears(question)| >= 2 then Line else Table;
      if a.grouping == [Sex] then a.visualization == Pie
      else if Location in a.grouping && a.queryType != Trend then a.visualization == Bar
      else if AnyIn(lowered, ComparisonCues) || AnyIn(lowered, RankingCues) then a.visualization == Bar
      else if AnyIn(lowered, DistributionCues) then a.visualization == Pie
      else if AnyIn(lowered, MapCues) then a.visualization == Map
      else if AnyIn(lowered, SumCues) then a.visualization == (if a.grouping == [] then Metric else trendView)
      else if AnyIn(lowered, AvgCues) then a.visualization == Metric
      else a.visualization == trendView
  {
    var a3 := ApplyYears(ApplyGender(ApplyLexicons(Initial, lowered), lowered), question);
    assert a3.visualization == if |FindYears(question)| >= 2 then Line else Table;
    var a4 := ApplyGrouping(a3, lowered);
    GroupingVisualization(a3, lowered);
    var a5 := ApplyAggregation(a4, lowered);
    AggregationVisualization(a4, lowered);
    var a6 := ApplyOverrides(a5, lowered);
    OverridesVisualization(a5, lowered);
    assert Analyze(question, lowered) == ApplyRefinement(a6);
    RefinementVisualization(a6);
  }

  lemma RefinementVisualization(a: Analysis)
    ensures var r := ApplyRefinement(a);
      r.grouping == a.grouping && r.queryType == a.queryType &&
      r.visualization ==
        if a.grouping == [Sex] then Pie
        else if Location in a.grouping && a.queryType != Trend then Bar
        else a.visualization
  {
    if a.grouping == [Sex] {
      assert Sex in a.grouping && |a.grouping| == 1;
    }
  }

  lemma GroupingVisualization(a: Analysis, lowered: string)
    ensures ApplyGrouping(a, lowered).visualization == if AnyIn(lowered, YearGroupCues) then Line else a.visualization
  {
  }

  lemma AggregationVisualization(a: Analysis, lowered: string)
    ensures ApplyAggregation(a, lowered).visualization ==
      if AnyIn(lowered, SumCues) then (if a.grouping == [] then Metric else a.visualization)
      else if AnyIn(lowered, AvgCues) then Metric else a.visualization
  {
  }

  lemma OverridesVisualization(a: Analysis, lowered: string)
    ensures ApplyOverrides(a, lowered).visualization ==
      if AnyIn(lowered, ComparisonCues) || AnyIn(lowered, RankingCues) then Bar
      else if AnyIn(lowered, DistributionCues) then Pie
      else if AnyIn(lowered, MapCues) then Map
      else a.visualization
  {
  }

  /** A question whose only grouping cue is a sex cue ends up as a pie chart. */
  lemma SexOnlyGroupingIsPie(question: string, lowered: string)
    requires AnyIn(lowered, SexGroupCues)
    requires !AnyIn(lowered, LocationGroupCues) && !AnyIn(lowered, AgeGroupCues) && !AnyIn(lowered, YearGroupCues)
    ensures Analyze(question, lowered).grouping == [Sex]
    ensures Analyze(question, lowered).visualization == Pie
  {
  }
}
