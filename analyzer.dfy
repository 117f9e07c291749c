/** The rule-based question analyzer (`QueryAnalysis` in backend/main.py).

    A question is classified by substring containment against three lexicons
    (diseases, locations, measures) and a fixed list of cue phrases, plus one
    hand-written year pattern.  The cue rules run in a fixed order and later
    rules overwrite fields that earlier ones set; `Analyze` states that order
    as a pipeline of stages, and `AnalyzeQuestion` is the step-by-step version
    that fills the record the way the source does. */
module Analyzer {
  import opened Text

  datatype Gender = Female | Male
  datatype Dimension = Sex | Location | Age | Year
  datatype Aggregation = Sum | Avg
  datatype QueryType = General | Trend | Total | Average | Comparison | Ranking
  datatype Visualization = Table | Bar | Line | Pie | Map | Metric

  /** The analysis record: one field per key of the source's dict. */
  datatype Analysis = Analysis(
    diseases: seq<string>,
    locations: seq<string>,
    measures: seq<string>,
    timePeriod: Option<string>,
    timeRange: Option<(string, string)>,
    gender: Option<Gender>,
    queryType: QueryType,
    grouping: seq<Dimension>,
    aggregation: Option<Aggregation>,
    visualization: Visualization)

  /** The record every analysis starts from. */
  const Initial := Analysis([], [], [], None, None, None, General, [], None, Table)

  // ---------------------------------------------------------------------------
  // Lexicons: surface term -> canonical value, in declaration order

  type Lexicon = seq<(string, string)>

  const Diseases: Lexicon := [
    ("malaria", "Malaria"), ("маларија", "Malaria"),
    ("lung cancer", "Lung Cancer"), ("белодробен рак", "Lung Cancer"),
    ("tuberculosis", "Tuberculosis"), ("туберкулоза", "Tuberculosis"),
    ("covid", "COVID-19"), ("ковид", "COVID-19"), ("covid-19", "COVID-19"),
    ("diabetes", "Diabetes mellitus type 2"), ("дијабетес", "Diabetes mellitus type 2"),
    ("hiv", "HIV/AIDS"), ("aids", "HIV/AIDS"), ("hiv/aids", "HIV/AIDS"),
    ("breast cancer", "Breast cancer"), ("рак на дојка", "Breast cancer"),
    ("prostate cancer", "Prostate cancer"), ("рак на простата", "Prostate cancer"),
    ("stomach cancer", "Stomach cancer"), ("рак на желудник", "Stomach cancer"),
    ("leukemia", "Leukemia"), ("леукемија", "Leukemia"),
    ("stroke", "Stroke"), ("мозочен удар", "Stroke"),
    ("anorexia", "Anorexia nervosa"), ("анорексија", "Anorexia nervosa"),
    ("schizophrenia", "Schizophrenia"), ("шизофренија", "Schizophrenia"),
    ("bipolar", "Bipolar disorder"), ("биполарно", "Bipolar disorder"),
    ("bulimia", "Bulimia nervosa"), ("булимија", "Bulimia nervosa")
  ]

  const Locations: Lexicon := [
    ("africa", "Africa"), ("африка", "Africa"),
    ("europe", "Europe"), ("европа", "Europe"),
    ("asia", "Asia"), ("азија", "Asia"),
    ("america", "America"), ("америка", "America"),
    ("world", "Global"), ("свет", "Global"), ("global", "Global"), ("глобално", "Global"),
    ("albania", "Albania"), ("denmark", "Denmark"), ("hungary", "Hungary"),
    ("spain", "Spain"), ("macedonia", "Macedonia"), ("serbia", "Serbia"), ("russia", "Russia")
  ]

  const Measures: Lexicon := [
    ("deaths", "Deaths"), ("смртност", "Deaths"), ("умрени", "Deaths"), ("died", "Deaths"),
    ("cases", "Prevalence"), ("случаи", "Prevalence"),
    ("prevalence", "Prevalence"), ("распространетост", "Prevalence"),
    ("incidence", "Incidence"), ("инциденција", "Incidence"), ("new cases", "Incidence")
  ]

  // ---------------------------------------------------------------------------
  // Cue phrases

  const FemaleCues := ["women", "female", "жени", "females"]
  const MaleCues := ["men", "male", "мажи", "males"]
  const SexGroupCues := ["by sex", "by gender", "grouped by sex", "по пол"]
  const LocationGroupCues := ["by location", "by country", "by region", "по локација"]
  const AgeGroupCues := ["by age", "age groups", "по возраст"]
  const YearGroupCues := ["over time", "by year", "trend", "низ години"]
  const SumCues := ["total", "sum", "вкупно"]
  const AvgCues := ["average", "mean", "просек"]
  const ComparisonCues := ["compare", "comparison", "vs", "versus", "спореди"]
  const RankingCues := ["top", "highest", "most", "најмногу", "највисоки", "ranking"]
  const DistributionCues := ["distribution", "breakdown", "дистрибуција"]
  const MapCues := ["map", "geographic", "geography", "карта"]

  // ---------------------------------------------------------------------------
  // Lexicon matching

  /** The canonical values whose keys occur in `text`, scanning the lexicon in
      declaration order and skipping values already collected. */
  function Collect(lex: Lexicon, text: string): seq<string>
    decreases |lex|
  {
    if lex == [] then []
    else
      var prev := Collect(lex[..|lex| - 1], text);
      var entry := lex[|lex| - 1];
      if Contains(text, entry.0) && entry.1 !in prev then prev + [entry.1] else prev
  }

  /** One lexicon scan as the source runs it: a loop that appends new values. */
  method MatchLexicon(lex: Lexicon, lowered: string) returns (found: seq<string>)
    ensures found == Collect(lex, lowered)
  {
    found := [];
    for i := 0 to |lex|
      invariant found == Collect(lex[..i], lowered)
    {
      assert lex[..i + 1][..i] == lex[..i];
      var entry := lex[i];
      if Contains(lowered, entry.0) && entry.1 !in found {
        found := found + [entry.1];
      }
    }
    assert lex[..|lex|] == lex;
  }

  // ---------------------------------------------------------------------------
  // The year pattern \b(?:19|20)\d{2}\b

  /** A four-character token the year pattern accepts: "19" or "20" and two digits. */
  predicate IsYearToken(t: string)
  {
    |t| == 4 && ((t[0] == '1' && t[1] == '9') || (t[0] == '2' && t[1] == '0')) &&
    IsAsciiDigit(t[2]) && IsAsciiDigit(t[3])
  }

  /** The year pattern matches `q` at index `i`: a year token with a word
      boundary on both sides. */
  predicate YearAt(q: string, i: nat)
  {
    i + 4 <= |q| && IsYearToken(q[i..i + 4]) &&
    (i == 0 || !IsWordChar(q[i - 1])) &&
    (i + 4 == |q| || !IsWordChar(q[i + 4]))
  }

  /** `re.findall` of the year pattern from index `i`: scanning resumes after each match. */
  function YearsFrom(q: string, i: nat): (ys: seq<string>)
    requires i <= |q|
    ensures forall y :: y in ys ==> IsYearToken(y)
    decreases |q| - i
  {
    if i + 4 > |q| then []
    else if YearAt(q, i) then [q[i..i + 4]] + YearsFrom(q, i + 4)
    else YearsFrom(q, i + 1)
  }

  function FindYears(q: string): seq<string>
  {
    YearsFrom(q, 0)
  }

  // ---------------------------------------------------------------------------
  // The analysis as a pipeline of stages, in the order the source applies them

  function ApplyLexicons(a: Analysis, lowered: string): Analysis
  {
    a.(diseases := Collect(Diseases, lowered),
       locations := Collect(Locations, lowered),
       measures := Collect(Measures, lowered))
  }

  function ApplyGender(a: Analysis, lowered: string): (r: Analysis)
    ensures r == a.(gender := r.gender)
  {
    if AnyIn(lowered, FemaleCues) then a.(gender := Some(Female))
    else if AnyIn(lowered, MaleCues) then a.(gender := Some(Male))
    else a
  }

  function ApplyYears(a: Analysis, question: string): (r: Analysis)
    ensures r == a.(timePeriod := r.timePeriod, timeRange := r.timeRange, queryType := r.queryType, visualization := r.visualization)
  {
    var years := FindYears(question);
    if |years| >= 2 then
      a.(timeRange := Some((MinStr(years), MaxStr(years))), queryType := Trend, visualization := Line)
    else if |years| == 1 then a.(timePeriod := Some(years[0]))
    else a
  }

  function ApplyGrouping(a: Analysis, lowered: string): (r: Analysis)
    ensures r == a.(grouping := r.grouping, queryType := r.queryType, visualization := r.visualization)
  {
    var g1 := if AnyIn(lowered, SexGroupCues) then a.grouping + [Sex] else a.grouping;
    var g2 := if AnyIn(lowered, LocationGroupCues) then g1 + [Location] else g1;
    var g3 := if AnyIn(lowered, AgeGroupCues) then g2 + [Age] else g2;
    if AnyIn(lowered, YearGroupCues) then
      a.(grouping := g3 + [Year], queryType := Trend, visualization := Line)
    else a.(grouping := g3)
  }

  function ApplyAggregation(a: Analysis, lowered: string): (r: Analysis)
    ensures r == a.(aggregation := r.aggregation, queryType := r.queryType, visualization := r.visualization)
  {
    if AnyIn(lowered, SumCues) then
      a.(aggregation := Some(Sum), queryType := Total,
         visualization := if a.grouping == [] then Metric else a.visualization)
    else if AnyIn(lowered, AvgCues) then
      a.(aggregation := Some(Avg), queryType := Average, visualization := Metric)
    else a
  }

  function ApplyOverrides(a: Analysis, lowered: string): (r: Analysis)
    ensures r == a.(queryType := r.queryType, visualization := r.visualization)
  {
    if AnyIn(lowered, ComparisonCues) then a.(queryType := Comparison, visualization := Bar)
    else if AnyIn(lowered, RankingCues) then a.(queryType := Ranking, visualization := Bar)
    else if AnyIn(lowered, DistributionCues) then a.(visualization := Pie)
    else if AnyIn(lowered, MapCues) then a.(visualization := Map)
    else a
  }

  function ApplyRefinement(a: Analysis): (r: Analysis)
    ensures r == a.(visualization := r.visualization)
  {
    if Sex in a.grouping && |a.grouping| == 1 then a.(visualization := Pie)
    else if Location in a.grouping && a.queryType != Trend then a.(visualization := Bar)
    else a
  }

  /** The cue rules after the lexicon scan, in the source's order. */
  function ApplyCueRules(a: Analysis, question: string, lowered: string): Analysis
  {
    var a2 := ApplyGender(a, lowered);
    var a3 := ApplyYears(a2, question);
    var a4 := ApplyGrouping(a3, lowered);
    var a5 := ApplyAggregation(a4, lowered);
    var a6 := ApplyOverrides(a5, lowered);
    ApplyRefinement(a6)
  }

  /** The analysis of `question`, whose lower-cased form is `lowered`.  The
      year pattern runs on the question as given, every other rule on `lowered`. */
  function Analyze(question: string, lowered: string): Analysis
  {
    ApplyCueRules(ApplyLexicons(Initial, lowered), question, lowered)
  }

  /** `analyze_question`: fills the record rule after rule, each rule a step
      that overwrites what earlier steps set. */
  method AnalyzeQuestion(question: string, lowered: string) returns (a: Analysis)
    ensures a == Analyze(question, lowered)
  {
    var diseases := MatchLexicon(Diseases, lowered);
    var locations := MatchLexicon(Locations, lowered);
    var measures := MatchLexicon(Measures, lowered);
    a := Initial.(diseases := diseases, locations := locations, measures := measures);
    a := DetectGender(a, lowered);
    a := DetectYears(a, question);
    a := DetectGrouping(a, lowered);
    a := DetectAggregation(a, lowered);
    a := DetectOverrides(a, lowered);
    a := RefineVisualization(a);
  }

  method DetectGender(a0: Analysis, lowered: string) returns (a: Analysis)
    ensures a == ApplyGender(a0, lowered)
  {
    a := a0;
    if AnyIn(lowered, FemaleCues) {
      a := a.(gender := Some(Female));
    } else if AnyIn(lowered, MaleCues) {
      a := a.(gender := Some(Male));
    }
  }

  method DetectYears(a0: Analysis, question: string) returns (a: Analysis)
    ensures a == ApplyYears(a0, question)
  {
    a := a0;
    var years := FindYears(question);
    if |years| >= 2 {
      a := a.(timeRange := Some((MinStr(years), MaxStr(years))), queryType := Trend, visualization := Line);
    } else if |years| == 1 {
      a := a.(timePeriod := Some(years[0]));
    }
  }

  method DetectGrouping(a0: Analysis, lowered: string) returns (a: Analysis)
    ensures a == ApplyGrouping(a0, lowered)
  {
    a := a0;
    if AnyIn(lowered, SexGroupCues) {
      a := a.(grouping := a.grouping + [Sex]);
    }
    if AnyIn(lowered, LocationGroupCues) {
      a := a.(grouping := a.grouping + [Location]);
    }
    if AnyIn(lowered, AgeGroupCues) {
      a := a.(grouping := a.grouping + [Age]);
    }
    if AnyIn(lowered, YearGroupCues) {
      a := a.(grouping := a.grouping + [Year], queryType := Trend, visualization := Line);
    }
  }

  method DetectAggregation(a0: Analysis, lowered: string) returns (a: Analysis)
    ensures a == ApplyAggregation(a0, lowered)
  {
    a := a0;
    if AnyIn(lowered, SumCues) {
      a := a.(aggregation := Some(Sum), queryType := Total);
      if a.grouping == [] {
        a := a.(visualization := Metric);
      }
    } else if AnyIn(lowered, AvgCues) {
      a := a.(aggregation := Some(Avg), queryType := Average, visualization := Metric);
    }
  }

  method DetectOverrides(a0: Analysis, lowered: string) returns (a: Analysis)
    ensures a == ApplyOverrides(a0, lowered)
  {
    a := a0;
    if AnyIn(lowered, ComparisonCues) {
      a := a.(queryType := Comparison, visualization := Bar);
    } else if AnyIn(lowered, RankingCues) {
      a := a.(queryType := Ranking, visualization := Bar);
    } else if AnyIn(lowered, DistributionCues) {
      a := a.(visualization := Pie);
    } else if AnyIn(lowered, MapCues) {
      a := a.(visualization := Map);
    }
  }

  method RefineVisualization(a0: Analysis) returns (a: Analysis)
    ensures a == ApplyRefinement(a0)
  {
    a := a0;
    if Sex in a.grouping && |a.grouping| == 1 {
      a := a.(visualization := Pie);
    } else if Location in a.grouping && a.queryType != Trend {
      a := a.(visualization := Bar);
    }
  }
}
