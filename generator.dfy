/** The SPARQL template generator: compiles an analysis record into a query
    string over the health-record vocabulary plus a visualization tag.  There
    are two templates, an aggregate one (SUM or AVG with GROUP BY) and a plain
    listing; both share the WHERE patterns and the FILTER construction. */
module SparqlGenerator {
  import opened Text
  import opened Analyzer

  /** The health-record vocabulary and the XML Schema datatypes. */
  const DiseaseNamespace := "<http://diseases.org/disease-kg/>"
  const XsdNamespace := "<http://www.w3.org/2001/XMLSchema#>"

  /** The namespace prefixes every query begins with. */
  const Header := "PREFIX dis: " + DiseaseNamespace + "\n" + "PREFIX xsd: " + XsdNamespace

  /** The generator's prefix block, a newline on either side of `Header`. */
  const Prefixes := "\n" + Header + "\n"

  /** The graph patterns of the WHERE clause: the required predicates of a
      health record, with year and sex optional. */
  const WherePatterns :=
    "WHERE {\n" +
    "    ?record a dis:HealthRecord ;\n" +
    "            dis:value ?value ;\n" +
    "            dis:causeName ?causeName ;\n" +
    "            dis:location ?location ;\n" +
    "            dis:measure ?measure .\n" +
    "    OPTIONAL { ?record dis:year ?year }\n" +
    "    OPTIONAL { ?record dis:sex ?sex }\n"

  /** The SELECT list of the plain template. */
  const PlainSelect := "SELECT ?value ?causeName ?location ?measure ?year ?sex"

  const Limit := "\nLIMIT 20"

  /** Stripping a text framed by two newlines gives the text back when its
      own ends are not whitespace. */
  lemma StripFramed(h: string)
    requires |h| > 0 && !IsSpace(h[0]) && !IsSpace(h[|h| - 1])
    ensures Strip("\n" + h + "\n") == h
  {
    var s := "\n" + h + "\n";
    var n := |s|;
    assert s[1] == h[0] && s[n - 2] == h[|h| - 1];
    assert SkipSpace(s, 0) == SkipSpace(s, 1) == 1;
    assert BackSkipSpace(s, 1, n) == BackSkipSpace(s, 1, n - 1) == n - 1;
    assert s[1..n - 1] == h;
  }

  /** Stripping the prefix block drops exactly its surrounding newlines. */
  lemma PrefixesStripped()
    ensures Strip(Prefixes) == Header
  {
    assert Header[0] == 'P' && Header[|Header| - 1] == '>';
    StripFramed(Header);
  }

  // ---------------------------------------------------------------------------
  // Grouping variables

  /** Position of a grouping variable in the fixed order sex, location, year. */
  function VarOrder(v: string): nat
  {
    if v == "?sex" then 0 else if v == "?location" then 1 else 2
  }

  /** The grouping variables of the aggregate template: one per requested
      dimension among sex, location and year, in that order.  Age has no
      variable in the WHERE patterns and is never grouped on. */
  function GroupVars(grouping: seq<Dimension>): (vs: seq<string>)
    ensures "?sex" in vs <==> Sex in grouping
    ensures "?location" in vs <==> Location in grouping
    ensures "?year" in vs <==> Year in grouping
    ensures forall v :: v in vs ==> v == "?sex" || v == "?location" || v == "?year"
    ensures forall i, j :: 0 <= i < j < |vs| ==> VarOrder(vs[i]) < VarOrder(vs[j])
  {
    (if Sex in grouping then ["?sex"] else []) +
    (if Location in grouping then ["?location"] else []) +
    (if Year in grouping then ["?year"] else [])
  }

  // ---------------------------------------------------------------------------
  // Filters

  /** One conjunct of the FILTER: an equality on a plain literal, or on the
      year typed as `xsd:gYear`. */
  datatype Filter = Equals(variable: string, value: string) | YearIs(year: string)

  /** The text of one conjunct; values are interpolated as they are. */
  function Render(f: Filter): string
  {
    match f
    case Equals(v, x) => v + " = \"" + x + "\""
    case YearIs(y) => "?year = \"" + y + "\"^^xsd:gYear"
  }

  function RenderAll(fs: seq<Filter>): (ts: seq<string>)
    ensures |ts| == |fs|
    ensures forall i :: 0 <= i < |fs| ==> ts[i] == Render(fs[i])
  {
    if fs == [] then [] else [Render(fs[0])] + RenderAll(fs[1..])
  }

  /** Position of a conjunct in the fixed order cause name, measure,
      location, year. */
  function FilterRank(f: Filter): nat
  {
    match f
    case YearIs(_) => 3
    case Equals(v, _) => if v == "?causeName" then 0 else if v == "?measure" then 1 else 2
  }

  /** The conjuncts for an analysis, in the order cause name, measure,
      location, year. */
  function Filters(a: Analysis, skipLocation: bool): (fs: seq<Filter>)
    ensures forall f :: f in fs ==>
      f.YearIs? || f.variable == "?causeName" || f.variable == "?measure" || f.variable == "?location"
    ensures |fs| <= 4
  {
    (if a.diseases != [] then [Equals("?causeName", a.diseases[0])] else []) +
    (if a.measures != [] then [Equals("?measure", a.measures[0])] else []) +
    (if a.locations != [] && !skipLocation then [Equals("?location", a.locations[0])] else []) +
    (if a.timePeriod.Some? && a.timePeriod.value != "" then [YearIs(a.timePeriod.value)] else [])
  }

  /** Which conjuncts there are: the first disease, the first measure, the
      first location unless `skipLocation`, and the time period when it is a
      non-empty string.  Only the first element of each list is used. */
  lemma FilterMembers(a: Analysis, skipLocation: bool)
    ensures var fs := Filters(a, skipLocation);
      forall x :: Equals("?causeName", x) in fs <==> a.diseases != [] && x == a.diseases[0]
    ensures var fs := Filters(a, skipLocation);
      forall x :: Equals("?measure", x) in fs <==> a.measures != [] && x == a.measures[0]
    ensures var fs := Filters(a, skipLocation);
      forall x :: Equals("?location", x) in fs <==> a.locations != [] && !skipLocation && x == a.locations[0]
    ensures var fs := Filters(a, skipLocation);
      forall y :: YearIs(y) in fs <==> a.timePeriod == Some(y) && y != ""
  {
    CauseNameMember(a, skipLocation);
    MeasureMember(a, skipLocation);
    LocationMember(a, skipLocation);
    YearMember(a, skipLocation);
  }

  lemma CauseNameMember(a: Analysis, skipLocation: bool)
    ensures forall x :: Equals("?causeName", x) in Filters(a, skipLocation) <==> a.diseases != [] && x == a.diseases[0]
  {
    assert "?measure" != "?causeName" && "?location" != "?causeName";
  }

  lemma MeasureMember(a: Analysis, skipLocation: bool)
    ensures forall x :: Equals("?measure", x) in Filters(a, skipLocation) <==> a.measures != [] && x == a.measures[0]
  {
    assert "?measure" != "?causeName" && "?location" != "?measure";
  }

  lemma LocationMember(a: Analysis, skipLocation: bool)
    ensures forall x :: Equals("?location", x) in Filters(a, skipLocation) <==>
      a.locations != [] && !skipLocation && x == a.locations[0]
  {
    assert "?location" != "?causeName" && "?location" != "?measure";
  }

  lemma YearMember(a: Analysis, skipLocation: bool)
    ensures forall y :: YearIs(y) in Filters(a, skipLocation) <==> a.timePeriod == Some(y) && y != ""
  {
  }

  /** The aggregate template leaves out the location conjunct when it groups
      by location; the plain template always keeps it. */
  predicate SkipsLocation(a: Analysis)
  {
    a.aggregation.Some? && Location in a.grouping
  }

  function QueryFilters(a: Analysis): seq<Filter>
  {
    Filters(a, SkipsLocation(a))
  }

  /** The FILTER line, absent when there are no conjuncts. */
  function FilterLine(fs: seq<Filter>): string
  {
    if fs == [] then "" else "    FILTER(" + Join(" && ", RenderAll(fs)) + ")\n"
  }

  function WhereClause(fs: seq<Filter>): string
  {
    WherePatterns + FilterLine(fs) + "}"
  }

  // ---------------------------------------------------------------------------
  // The two templates

  function AggregateName(k: Aggregation): string
  {
    match k
    case Sum => "SUM"
    case Avg => "AVG"
  }

  function AggregateSelect(vars: seq<string>, k: Aggregation): string
  {
    "SELECT " + Join(" ", vars) + " (" + AggregateName(k) + "(?value) AS ?value)"
  }

  /** The GROUP BY line, empty when nothing is grouped. */
  function GroupByClause(vars: seq<string>): string
  {
    if vars == [] then "" else "GROUP BY " + Join(" ", vars)
  }

  /** The lines every query is made of: the stripped prefixes, the SELECT
      line, the WHERE clause, then `tail` (the GROUP BY line, if any, and the
      row cap). */
  function Layout(select: string, where: string, tail: string): string
  {
    Strip(Prefixes) + "\n" + select + "\n" + where + tail
  }

  /** `generate_query`: the query text and the visualization tag. */
  function GenerateQuery(a: Analysis): (r: (string, Visualization))
    ensures a.aggregation.Some? ==> r.1 == Bar || r.1 == Metric
    ensures a.aggregation.None? ==> r.1 == a.visualization
  {
    var where := WhereClause(QueryFilters(a));
    match a.aggregation
    case Some(k) =>
      var vars := GroupVars(a.grouping);
      (Layout(AggregateSelect(vars, k), where, "\n" + GroupByClause(vars) + Limit),
       if vars != [] then Bar else Metric)
    case None =>
      (Layout(PlainSelect, where, Limit), a.visualization)
  }
}
