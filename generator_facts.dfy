/** What the generated query guarantees: its frame, its visualization tag,
    the fields it reads, the conjuncts it filters on and where they appear,
    and the balance of its string literals. */
module GeneratorFacts {
  import opened Text
  import opened Analyzer
  import opened SparqlGenerator
  import AnalyzerFacts

  // ---------------------------------------------------------------------------
  // Frame and tag

  /** The tail a query ends with after its WHERE clause. */
  function Tail(a: Analysis): string
  {
    if a.aggregation.Some? then "\n" + GroupByClause(GroupVars(a.grouping)) + Limit else Limit
  }

  function SelectLine(a: Analysis): string
  {
    if a.aggregation.Some? then AggregateSelect(GroupVars(a.grouping), a.aggregation.value) else PlainSelect
  }

  lemma QueryParts(a: Analysis)
    ensures GenerateQuery(a).0 == Layout(SelectLine(a), WhereClause(QueryFilters(a)), Tail(a))
  {
  }

  /** The tail ends with the row cap. */
  lemma TailEndsWithLimit(a: Analysis) returns (pre: string)
    ensures Tail(a) == pre + Limit
  {
    pre := if a.aggregation.Some? then "\n" + GroupByClause(GroupVars(a.grouping)) else "";
  }

  /** Every query starts with the namespace prefixes and ends with the row cap. */
  lemma QueryFrame(a: Analysis)
    ensures var q := GenerateQuery(a).0;
      |q| >= |Header| + |Limit| && q[..|Header|] == Header && q[|q| - |Limit|..] == Limit
  {
    QueryParts(a);
    var pre := TailEndsWithLimit(a);
    LayoutFrame(SelectLine(a), WhereClause(QueryFilters(a)), pre);
  }

  lemma RegroupFrame(h: string, select: string, where: string, pre: string, cap: string)
    ensures h + "\n" + select + "\n" + where + (pre + cap) == h + ("\n" + select + "\n" + where + pre) + cap
  {
  }

  lemma LayoutFrame(select: string, where: string, pre: string)
    ensures var q := Layout(select, where, pre + Limit);
      |q| >= |Header| + |Limit| && q[..|Header|] == Header && q[|q| - |Limit|..] == Limit
  {
    PrefixesStripped();
    var mid := "\n" + select + "\n" + where + pre;
    RegroupFrame(Header, select, where, pre, Limit);
    ConcatEnds(Header, mid, Limit);
  }

  /** The tag: the aggregate template answers `Bar` exactly when it groups by
      sex, location or year and `Metric` otherwise; the plain template hands
      back the analysis' own visualization. */
  lemma GeneratedTag(a: Analysis)
    ensures a.aggregation.Some? ==>
      (GenerateQuery(a).1 == Bar <==> Sex in a.grouping || Location in a.grouping || Year in a.grouping) &&
      (GenerateQuery(a).1 == Metric <==> !(Sex in a.grouping || Location in a.grouping || Year in a.grouping))
    ensures a.aggregation.None? ==> GenerateQuery(a).1 == a.visualization
  {
    if a.aggregation.Some? {
      var vs := GroupVars(a.grouping);
      assert vs != [] ==> vs[0] in vs;
    }
  }

  /** Two analyses that agree on the first disease, measure and location, the
      time period, the aggregation, the grouping by sex, location and year,
      and (for the plain template) the visualization compile to the same
      query: the time range, the gender, the query type, age grouping and
      every list element past the first are never read. */
  lemma UnreadFieldsIgnored(a: Analysis, b: Analysis)
    requires (a.diseases == []) == (b.diseases == []) && (a.diseases != [] ==> a.diseases[0] == b.diseases[0])
    requires (a.measures == []) == (b.measures == []) && (a.measures != [] ==> a.measures[0] == b.measures[0])
    requires (a.locations == []) == (b.locations == []) && (a.locations != [] ==> a.locations[0] == b.locations[0])
    requires a.timePeriod == b.timePeriod && a.aggregation == b.aggregation
    requires (Sex in a.grouping <==> Sex in b.grouping) && (Location in a.grouping <==> Location in b.grouping)
    requires (Year in a.grouping <==> Year in b.grouping)
    requires a.aggregation.None? ==> a.visualization == b.visualization
    ensures GenerateQuery(a) == GenerateQuery(b)
  {
    assert GroupVars(a.grouping) == GroupVars(b.grouping);
    assert SkipsLocation(a) == SkipsLocation(b);
    SameFilters(a, b, SkipsLocation(a));
  }

  /** The conjuncts read only the first element of each list and the time period. */
  lemma SameFilters(a: Analysis, b: Analysis, skipLocation: bool)
    requires (a.diseases == []) == (b.diseases == []) && (a.diseases != [] ==> a.diseases[0] == b.diseases[0])
    requires (a.measures == []) == (b.measures == []) && (a.measures != [] ==> a.measures[0] == b.measures[0])
    requires (a.locations == []) == (b.locations == []) && (a.locations != [] ==> a.locations[0] == b.locations[0])
    requires a.timePeriod == b.timePeriod
    ensures Filters(a, skipLocation) == Filters(b, skipLocation)
  {
  }

  // ---------------------------------------------------------------------------
  // Filters

  /** The location conjunct: present in the plain template whenever a location
      was found, left out of the aggregate template that groups by location. */
  lemma LocationFilterAsymmetry(a: Analysis)
    requires a.locations != [] && Location in a.grouping
    ensures a.aggregation.None? ==> Equals("?location", a.locations[0]) in QueryFilters(a)
    ensures a.aggregation.Some? ==> forall x :: Equals("?location", x) !in QueryFilters(a)
  {
  }

  predicate RankedFilters(fs: seq<Filter>)
  {
    forall i, j :: 0 <= i < j < |fs| ==> FilterRank(fs[i]) < FilterRank(fs[j])
  }

  lemma RankedConcat(xs: seq<Filter>, ys: seq<Filter>, bound: nat)
    requires RankedFilters(xs) && RankedFilters(ys)
    requires forall x :: x in xs ==> FilterRank(x) < bound
    requires forall y :: y in ys ==> bound <= FilterRank(y)
    ensures RankedFilters(xs + ys)
  {
    var zs := xs + ys;
    forall i, j | 0 <= i < j < |zs| ensures FilterRank(zs[i]) < FilterRank(zs[j]) {
      if j < |xs| {
        assert zs[i] == xs[i] && zs[j] == xs[j];
      } else if i >= |xs| {
        assert zs[i] == ys[i - |xs|] && zs[j] == ys[j - |xs|];
      } else {
        assert zs[i] in xs && zs[j] in ys;
      }
    }
  }

  lemma PiecesRanked(p1: seq<Filter>, p2: seq<Filter>, p3: seq<Filter>, p4: seq<Filter>)
    requires |p1| <= 1 && |p2| <= 1 && |p3| <= 1 && |p4| <= 1
    requires forall x :: x in p1 ==> FilterRank(x) == 0
    requires forall x :: x in p2 ==> FilterRank(x) == 1
    requires forall x :: x in p3 ==> FilterRank(x) == 2
    requires forall x :: x in p4 ==> FilterRank(x) == 3
    ensures RankedFilters(p1 + p2 + p3 + p4)
  {
    RankedConcat(p1, p2, 1);
    RankedConcat(p1 + p2, p3, 2);
    RankedConcat(p1 + p2 + p3, p4, 3);
  }

  /** The conjuncts come in the fixed order cause name, measure, location,
      year, so the FILTER joins them in that order. */
  lemma FiltersOrdered(a: Analysis, skipLocation: bool)
    ensures RankedFilters(Filters(a, skipLocation))
  {
    var p1 := if a.diseases != [] then [Equals("?causeName", a.diseases[0])] else [];
    var p2 := if a.measures != [] then [Equals("?measure", a.measures[0])] else [];
    var p3 := if a.locations != [] && !skipLocation then [Equals("?location", a.locations[0])] else [];
    var p4 := if a.timePeriod.Some? && a.timePeriod.value != "" then [YearIs(a.timePeriod.value)] else [];
    assert "?measure" != "?causeName";
    assert "?location" != "?causeName" && "?location" != "?measure";
    PiecesRanked(p1, p2, p3, p4);
  }

  /** The FILTER line opens exactly when there is a conjunct. */
  lemma FilterLinePresence(fs: seq<Filter>)
    ensures Contains(FilterLine(fs), "    FILTER(") <==> fs != []
  {
    if fs != [] {
      assert OccursAt(FilterLine(fs), "    FILTER(", 0);
    }
  }

  /** The GROUP BY line is there exactly when something is grouped. */
  lemma GroupByPresence(vs: seq<string>)
    ensures GroupByClause(vs) == [] <==> vs == []
    ensures vs != [] ==> |GroupByClause(vs)| >= 9 && GroupByClause(vs)[..9] == "GROUP BY "
  {
  }

  /** Every grouping variable is both selected and grouped on. */
  lemma GroupedVariablesSelected(vs: seq<string>, k: Aggregation, i: nat)
    requires i < |vs|
    ensures Contains(AggregateSelect(vs, k), vs[i])
    ensures Contains(GroupByClause(vs), vs[i])
  {
    var rest := " (" + AggregateName(k) + "(?value) AS ?value)";
    assert AggregateSelect(vs, k) == "SELECT " + Join(" ", vs) + rest;
    JoinedVariableInside("SELECT ", vs, rest, i);
    assert GroupByClause(vs) == "GROUP BY " + Join(" ", vs) + [];
    JoinedVariableInside("GROUP BY ", vs, [], i);
  }

  lemma JoinedVariableInside(pre: string, vs: seq<string>, post: string, i: nat)
    requires i < |vs|
    ensures Contains(pre + Join(" ", vs) + post, vs[i])
  {
    ContainsJoined(" ", vs, i);
    ContainsInfix(pre, Join(" ", vs), post);
    ContainsTrans(pre + Join(" ", vs) + post, Join(" ", vs), vs[i]);
  }

  /** Every conjunct appears, rendered, in the FILTER line. */
  lemma FilterInLine(fs: seq<Filter>, k: nat)
    requires k < |fs|
    ensures Contains(FilterLine(fs), Render(fs[k]))
  {
    var joined := Join(" && ", RenderAll(fs));
    ContainsJoined(" && ", RenderAll(fs), k);
    ContainsInfix("    FILTER(", joined, ")\n");
    ContainsTrans(FilterLine(fs), joined, Render(fs[k]));
  }

  lemma RegroupWhere(h: string, select: string, patterns: string, line: string, tail: string)
    ensures h + "\n" + select + "\n" + (patterns + line + "}") + tail ==
      (h + "\n" + select + "\n" + patterns) + line + ("}" + tail)
  {
  }

  /** The FILTER line sits inside the WHERE clause of a query. */
  lemma LayoutHasFilterLine(select: string, fs: seq<Filter>, tail: string)
    ensures Contains(Layout(select, WhereClause(fs), tail), FilterLine(fs))
  {
    var head := Strip(Prefixes) + "\n" + select + "\n" + WherePatterns;
    RegroupWhere(Strip(Prefixes), select, WherePatterns, FilterLine(fs), tail);
    ContainsInfix(head, FilterLine(fs), "}" + tail);
  }

  /** The FILTER line appears in the query. */
  lemma FilterLineInQuery(a: Analysis)
    ensures Contains(GenerateQuery(a).0, FilterLine(QueryFilters(a)))
  {
    QueryParts(a);
    LayoutHasFilterLine(SelectLine(a), QueryFilters(a), Tail(a));
  }

  /** Every conjunct the generator chooses appears, rendered, in the query. */
  lemma FiltersAppearInQuery(a: Analysis, f: Filter)
    requires f in QueryFilters(a)
    ensures Contains(GenerateQuery(a).0, Render(f))
  {
    var fs := QueryFilters(a);
    var k :| 0 <= k < |fs| && fs[k] == f;
    FilterInLine(fs, k);
    FilterLineInQuery(a);
    ContainsTrans(GenerateQuery(a).0, FilterLine(fs), Render(f));
  }

  // ---------------------------------------------------------------------------
  // Quotes

  /** The value a conjunct interpolates. */
  function FilterValue(f: Filter): string
  {
    match f
    case Equals(_, x) => x
    case YearIs(y) => y
  }

  /** A conjunct on one of the generator's variables holds two quotes
      besides those of its value. */
  lemma RenderQuotes(f: Filter)
    requires f.Equals? ==> f.variable == "?causeName" || f.variable == "?measure" || f.variable == "?location"
    ensures CountChar(Render(f), '"') == 2 + CountChar(FilterValue(f), '"')
  {
    match f
    case Equals(v, x) =>
      if v == "?causeName" {
        CauseNameUnquoted();
      } else if v == "?measure" {
        MeasureUnquoted();
      } else {
        LocationUnquoted();
      }
      EqualsQuotes(v, x);
    case YearIs(y) =>
      YearQuotes(y);
  }

  // The quotes in the template's literal pieces, one literal at a time.

  lemma CauseNameUnquoted()
    ensures CountChar("?causeName", '"') == 0
  {
  }

  lemma MeasureUnquoted()
    ensures CountChar("?measure", '"') == 0
  {
  }

  lemma LocationUnquoted()
    ensures CountChar("?location", '"') == 0
  {
  }

  lemma YearOpenQuoted()
    ensures CountChar("?year = \"", '"') == 1
  {
  }

  lemma YearCloseQuoted()
    ensures CountChar("\"^^xsd:gYear", '"') == 1
  {
  }

  lemma ConjunctionUnquoted()
    ensures CountChar(" && ", '"') == 0
  {
  }

  lemma FilterOpenUnquoted()
    ensures CountChar("    FILTER(", '"') == 0
  {
  }

  lemma FilterCloseUnquoted()
    ensures CountChar(")\n", '"') == 0
  {
  }

  lemma EqualsQuotes(v: string, x: string)
    requires CountChar(v, '"') == 0
    ensures CountChar(v + " = \"" + x + "\"", '"') == 2 + CountChar(x, '"')
  {
    assert CountChar(" = \"", '"') == 1;
    CountCharAppend(v, " = \"", '"');
    CountCharAppend(v + " = \"", x, '"');
    CountCharAppend(v + " = \"" + x, "\"", '"');
  }

  lemma YearQuotes(y: string)
    ensures CountChar("?year = \"" + y + "\"^^xsd:gYear", '"') == 2 + CountChar(y, '"')
  {
    YearOpenQuoted();
    YearCloseQuoted();
    CountCharAppend("?year = \"", y, '"');
    CountCharAppend("?year = \"" + y, "\"^^xsd:gYear", '"');
  }

  /** The quotes inside the interpolated values of `fs`. */
  function ValueQuotes(fs: seq<Filter>): nat
  {
    if fs == [] then 0 else CountChar(FilterValue(fs[0]), '"') + ValueQuotes(fs[1..])
  }

  /** Conjuncts on the generator's own variables. */
  predicate OwnVariables(fs: seq<Filter>)
  {
    forall f :: f in fs && f.Equals? ==>
      f.variable == "?causeName" || f.variable == "?measure" || f.variable == "?location"
  }

  lemma {:induction false} RenderedQuotes(fs: seq<Filter>)
    requires OwnVariables(fs)
    ensures SumCounts(RenderAll(fs), '"') == 2 * |fs| + ValueQuotes(fs)
  {
    if fs != [] {
      RenderQuotes(fs[0]);
      assert RenderAll(fs)[1..] == RenderAll(fs[1..]);
      RenderedQuotes(fs[1..]);
    }
  }

  /** The FILTER line holds two quotes per conjunct plus whatever quotes the
      values bring: the values are interpolated without escaping. */
  lemma FilterLineQuotes(fs: seq<Filter>)
    requires OwnVariables(fs)
    ensures CountChar(FilterLine(fs), '"') == 2 * |fs| + ValueQuotes(fs)
  {
    if fs != [] {
      var joined := Join(" && ", RenderAll(fs));
      ConjunctionUnquoted();
      FilterOpenUnquoted();
      FilterCloseUnquoted();
      CountCharJoin(" && ", RenderAll(fs), '"');
      RenderedQuotes(fs);
      CountCharAppend("    FILTER(", joined, '"');
      CountCharAppend("    FILTER(" + joined, ")\n", '"');
    }
  }

  /** Every interpolated value is the first disease, measure or location, or
      the time period. */
  lemma FilterValuesFrom(a: Analysis, skipLocation: bool)
    ensures forall f :: f in Filters(a, skipLocation) ==>
      FilterValue(f) in a.diseases || FilterValue(f) in a.measures ||
      FilterValue(f) in a.locations || (a.timePeriod.Some? && FilterValue(f) == a.timePeriod.value)
  {
  }

  lemma {:induction false} QuoteFreeValueQuotes(fs: seq<Filter>)
    requires forall f :: f in fs ==> '"' !in FilterValue(f)
    ensures ValueQuotes(fs) == 0
  {
    if fs != [] {
      CountCharAbsent(FilterValue(fs[0]), '"');
      assert forall f :: f in fs[1..] ==> f in fs;
      QuoteFreeValueQuotes(fs[1..]);
    }
  }

  /** When the analysis' values are quote-free, the FILTER line holds exactly
      two quotes per conjunct: every string literal is closed. */
  lemma FilterLineBalanced(a: Analysis)
    requires AnalyzerFacts.QuoteFreeAnalysis(a)
    ensures CountChar(FilterLine(QueryFilters(a)), '"') == 2 * |QueryFilters(a)|
  {
    var fs := QueryFilters(a);
    FilterValuesFrom(a, SkipsLocation(a));
    QuoteFreeValueQuotes(fs);
    FilterLineQuotes(fs);
  }

  /** For every question, the FILTER line of the generated query holds two
      quotes per conjunct: lexicon values and year tokens bring none. */
  lemma AnalyzedFilterLineBalanced(question: string, lowered: string)
    ensures var fs := QueryFilters(Analyze(question, lowered));
      CountChar(FilterLine(fs), '"') == 2 * |fs|
  {
    AnalyzerFacts.AnalysisQuoteFree(question, lowered);
    FilterLineBalanced(Analyze(question, lowered));
  }

  /** A value holding a quote leaves the FILTER line with an odd number of
      quotes, that is, an unterminated string literal. */
  lemma QuoteInValueUnbalances()
    ensures CountChar(FilterLine([Equals("?causeName", "a\"b")]), '"') == 3
  {
    var fs := [Equals("?causeName", "a\"b")];
    FilterLineQuotes(fs);
    assert ValueQuotes(fs) == CountChar("a\"b", '"') + ValueQuotes([]);
  }

  // ---------------------------------------------------------------------------
  // Worked cases

  /** The SELECT line of a query occurs in it. */
  lemma LayoutHasSelect(select: string, where: string, tail: string)
    ensures Contains(Layout(select, where, tail), select)
  {
    var p := Strip(Prefixes) + "\n";
    assert Layout(select, where, tail) == p + select + ("\n" + where + tail);
    ContainsInfix(p, select, "\n" + where + tail);
  }

  /** The tail of a query occurs in it. */
  lemma LayoutHasTail(select: string, where: string, tail: string)
    ensures Contains(Layout(select, where, tail), tail)
  {
    var p := Strip(Prefixes) + "\n" + select + "\n" + where;
    assert Layout(select, where, tail) == p + tail + [];
    ContainsInfix(p, tail, []);
  }

  /** The aggregate query in terms of its parts. */
  lemma AggregateQuery(a: Analysis)
    requires a.aggregation.Some?
    ensures var vs := GroupVars(a.grouping);
      GenerateQuery(a).0 ==
        Layout(AggregateSelect(vs, a.aggregation.value), WhereClause(QueryFilters(a)), "\n" + GroupByClause(vs) + Limit)
  {
  }

  lemma SumSelectLocation()
    ensures AggregateSelect(["?location"], Sum) == "SELECT " + "?location" + " (SUM(?value) AS ?value)"
  {
    assert Join(" ", ["?location"]) == "?location";
  }

  lemma GroupByLocationTail()
    ensures Contains("\n" + GroupByClause(["?location"]) + Limit, "GROUP BY ?location")
  {
    assert GroupByClause(["?location"]) == "GROUP BY ?location";
    ContainsInfix("\n", "GROUP BY ?location", Limit);
  }

  lemma LocationOnlyVars(grouping: seq<Dimension>)
    requires Location in grouping && Sex !in grouping && Year !in grouping
    ensures GroupVars(grouping) == ["?location"]
  {
  }

  /** A sum grouped by location selects and groups by `?location` and is
      shown as a bar chart. */
  lemma SumByLocation(a: Analysis)
    requires a.aggregation == Some(Sum) && Location in a.grouping
    requires Sex !in a.grouping && Year !in a.grouping
    ensures Contains(GenerateQuery(a).0, "SELECT " + "?location" + " (SUM(?value) AS ?value)")
    ensures Contains(GenerateQuery(a).0, "GROUP BY ?location")
    ensures GenerateQuery(a).1 == Bar
  {
    var vs := GroupVars(a.grouping);
    LocationOnlyVars(a.grouping);
    var tail := "\n" + GroupByClause(vs) + Limit;
    var where := WhereClause(QueryFilters(a));
    AggregateQuery(a);
    LayoutHasSelect(AggregateSelect(vs, Sum), where, tail);
    SumSelectLocation();
    LayoutHasTail(AggregateSelect(vs, Sum), where, tail);
    GroupByLocationTail();
    ContainsTrans(GenerateQuery(a).0, tail, "GROUP BY ?location");
  }

  lemma TuberculosisRendered()
    ensures Render(Equals("?causeName", "Tuberculosis")) == "?causeName = \"Tuberculosis\""
  {
  }

  lemma PlainQueryHasSelect(a: Analysis)
    requires a.aggregation == None
    ensures Contains(GenerateQuery(a).0, PlainSelect)
  {
    LayoutHasSelect(PlainSelect, WhereClause(QueryFilters(a)), Limit);
  }

  /** A plain query about tuberculosis lists every field and filters on the
      cause name. */
  lemma PlainTuberculosis(a: Analysis)
    requires a.aggregation == None && a.diseases != [] && a.diseases[0] == "Tuberculosis"
    ensures Contains(GenerateQuery(a).0, PlainSelect)
    ensures Contains(GenerateQuery(a).0, "?causeName = \"Tuberculosis\"")
  {
    PlainQueryHasSelect(a);
    TuberculosisRendered();
    FiltersAppearInQuery(a, Equals("?causeName", "Tuberculosis"));
  }

  lemma NoGroupVars(grouping: seq<Dimension>)
    requires Sex !in grouping && Location !in grouping && Year !in grouping
    ensures GroupVars(grouping) == []
  {
  }

  /** An aggregate with nothing to group by ends with an empty GROUP BY line
      and is shown as a single metric. */
  lemma UngroupedAggregate(a: Analysis)
    requires a.aggregation.Some?
    requires Sex !in a.grouping && Location !in a.grouping && Year !in a.grouping
    ensures var q := GenerateQuery(a).0;
      |q| >= 2 + |Limit| && q[|q| - |Limit| - 2..] == "}\n" + Limit
    ensures GenerateQuery(a).1 == Metric
  {
    NoGroupVars(a.grouping);
    AggregateQuery(a);
    UngroupedEnds(a);
  }

  lemma UngroupedEnds(a: Analysis)
    requires a.aggregation.Some? && GroupVars(a.grouping) == []
    ensures var q := GenerateQuery(a).0;
      |q| >= 2 + |Limit| && q[|q| - |Limit| - 2..] == "}\n" + Limit
  {
    var vs := GroupVars(a.grouping);
    AggregateQuery(a);
    ClosedLayoutEnds(AggregateSelect(vs, a.aggregation.value), QueryFilters(a));
  }

  /** A layout whose tail has no GROUP BY line ends with the closing brace,
      a newline and the row cap. */
  lemma ClosedLayoutEnds(select: string, fs: seq<Filter>)
    ensures var q := Layout(select, WhereClause(fs), "\n" + GroupByClause([]) + Limit);
      |q| >= 2 + |Limit| && q[|q| - |Limit| - 2..] == "}\n" + Limit
  {
    var h := Strip(Prefixes) + "\n" + select + "\n";
    var body := WherePatterns + FilterLine(fs);
    var tail := "\n" + GroupByClause([]) + Limit;
    assert WhereClause(fs) == body + "}";
    assert Layout(select, WhereClause(fs), tail) == h + (body + "}") + tail;
    ClosedEnds(h, body, Limit);
  }

  lemma ClosedEnds(h: string, body: string, limit: string)
    ensures var q := h + (body + "}") + ("\n" + [] + limit);
      |q| >= 2 + |limit| && q[|q| - |limit| - 2..] == "}\n" + limit
  {
    var q := h + (body + "}") + ("\n" + [] + limit);
    assert q == (h + body) + ("}\n" + limit);
  }

  lemma SumOccursInSelect(vs: seq<string>)
    ensures Contains(AggregateSelect(vs, Sum), "(SUM(?value) AS ?value)")
  {
    var p := "SELECT " + Join(" ", vs) + " ";
    assert AggregateSelect(vs, Sum) == p + "(SUM(?value) AS ?value)" + [];
    ContainsInfix(p, "(SUM(?value) AS ?value)", []);
  }

  /** From question to query: a total with no grouping cue compiles to an
      ungrouped SUM shown as a single metric, whatever the analysis' own
      visualization became. */
  lemma TotalWithoutGroupingCues(question: string, lowered: string)
    requires AnyIn(lowered, SumCues)
    requires !AnyIn(lowered, SexGroupCues) && !AnyIn(lowered, LocationGroupCues)
    requires !AnyIn(lowered, YearGroupCues)
    ensures var r := GenerateQuery(Analyze(question, lowered));
      r.1 == Metric && |r.0| >= 2 + |Limit| && r.0[|r.0| - |Limit| - 2..] == "}\n" + Limit
    ensures Contains(GenerateQuery(Analyze(question, lowered)).0, "(SUM(?value) AS ?value)")
  {
    var a := Analyze(question, lowered);
    AnalyzerFacts.AggregationPriority(question, lowered);
    AnalyzerFacts.GroupingShape(question, lowered);
    UngroupedAggregate(a);
    var vs := GroupVars(a.grouping);
    AggregateQuery(a);
    LayoutHasSelect(AggregateSelect(vs, Sum), WhereClause(QueryFilters(a)), "\n" + GroupByClause(vs) + Limit);
    SumOccursInSelect(vs);
    ContainsTrans(GenerateQuery(a).0, AggregateSelect(vs, Sum), "(SUM(?value) AS ?value)");
  }
}
