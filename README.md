# Question-to-SPARQL pipeline, modelled in Dafny

This project models the deterministic core of a small health-statistics
question-answering backend. There are three parts:

- **Question analyzer** (`QueryAnalysis` in `backend/main.py`). It lower-cases a
  question and matches it against three lexicons (diseases, locations,
  measures) by substring containment. It then runs a fixed cascade of cue
  rules: gender, years, grouping, aggregation, query-type and visualization
  overrides, and a final visualization refinement. Later rules overwrite what
  earlier rules set.
- **Query generator** (`SPARQLGenerator.generate_query`). It compiles the
  analysis record into a SPARQL SELECT query string and a visualization tag.
  It has an aggregate template (SUM/AVG with GROUP BY) and a plain template.
- **Query extraction from model output** (`clean_sparql` in
  `backend/llm_query.py`), plus the visualization-tag lookup next to it. It
  finds a fenced ```` ```sparql ```` block, or else the text after a `SPARQL:`
  marker. It removes fences and `"@en` language tags, keeps the lines up to
  the one that closes the outermost brace, and strips the result.

Files:

- `text.dfy` (module `Text`): the string primitives the source takes from
  Python. These are substring search, the `\s`/`\w`/`\d` classes, ASCII case
  folding, `strip`, `join`, `splitlines`, `replace`, `count` and string order.
- `analyzer.dfy` (module `Analyzer`): the analysis record and the lexicons.
  The cascade is stated as a pipeline of stage functions (`Analyze`).
  `AnalyzeQuestion` is the step-by-step method with the lexicon loops, proved
  equal to the pipeline.
- `analyzer_facts.dfy` (module `AnalyzerFacts`): what the analyzer guarantees.
- `generator.dfy` (module `SparqlGenerator`): the two templates as functions.
- `generator_facts.dfy` (module `GeneratorFacts`): what the generated query
  guarantees.
- `llm_cleanup.dfy` (module `LlmCleanup`): the two capture patterns and the
  cleanup. The brace-truncation loop is a method proved against `KeepCount`.
- `cleanup_facts.dfy` (module `CleanupFacts`): what the cleanup guarantees,
  including two round trips and the tag's shape.

`str.lower()` is not modelled. `Analyze` and `AnalyzeQuestion` take the question
and its lower-cased form as two parameters. The year pattern runs on the
question as written; every other rule runs on the lower-cased form.

Points of behaviour worth knowing:

- **Year range with repeated years.** `len(years) >= 2` counts matches,
  repeats included, so "2000 2000" gives the range ("2000", "2000")
  (`AnalyzerFacts.RepeatedYearMakesRange`).
- **Quotes in filter values.** Filter values are interpolated without
  escaping. A value holding a quote would leave an odd number of quotes on
  the FILTER line (`GeneratorFacts.QuoteInValueUnbalances`). No value an
  analysis can produce holds one, so every generated FILTER line is balanced
  (`GeneratorFacts.AnalyzedFilterLineBalanced`).
- **Whitespace-only captures.** The greedy `\s*` before each capture means a
  capture never starts with whitespace (`CleanupFacts.CaptureStartsAtText`),
  so a whitespace-only capture cannot occur, and an empty capture gives no
  query. A capture that is non-empty but empties during cleanup is possible:
  "SPARQL: ```" yields the empty query, not none
  (`CleanupFacts.EmptyAfterCleanup`).

## Model

| member | source | states |
|---|---|---|
| Analyzer.MatchLexicon | backend/main.py:88-101 | the lexicon loop collects, in declaration order and without repeats, the canonical values whose keys occur in the lowered question, i.e. `Collect` |
| Analyzer.AnalyzeQuestion | backend/main.py:71-153 | filling the record rule after rule yields exactly the staged pipeline `Analyze` |
| Analyzer.DetectGender | backend/main.py:103-106 | the gender step agrees with the gender stage |
| Analyzer.DetectYears | backend/main.py:108-114 | the year step agrees with the year stage |
| Analyzer.DetectGrouping | backend/main.py:116-125 | the grouping step agrees with the grouping stage |
| Analyzer.DetectAggregation | backend/main.py:127-135 | the aggregation step agrees with the aggregation stage |
| Analyzer.DetectOverrides | backend/main.py:137-146 | the override step agrees with the override stage |
| Analyzer.RefineVisualization | backend/main.py:148-151 | the refinement step agrees with the refinement stage |
| Analyzer.ApplyGender | backend/main.py:103-106 | the gender stage changes no field but the gender |
| Analyzer.ApplyYears | backend/main.py:108-114 | the year stage changes only the period, range, query type and visualization |
| Analyzer.ApplyGrouping | backend/main.py:116-125 | the grouping stage changes only the grouping, query type and visualization |
| Analyzer.ApplyAggregation | backend/main.py:127-135 | the aggregation stage changes only the aggregation, query type and visualization |
| Analyzer.ApplyOverrides | backend/main.py:137-146 | the override stage changes only the query type and visualization |
| Analyzer.ApplyRefinement | backend/main.py:148-151 | the refinement changes only the visualization |
| Analyzer.YearsFrom | backend/main.py:108 | every token the year scan returns is "19" or "20" followed by two digits; `AnalyzerFacts.YearsFromInOrder` ties the scan to the matches |
| AnalyzerFacts.CollectMembership | backend/main.py:88-101 | a canonical value is collected iff one of its keys occurs in the text |
| AnalyzerFacts.CollectNoDuplicates | backend/main.py:88-101 | no canonical value is collected twice |
| AnalyzerFacts.CollectOrder | backend/main.py:88-101 | collected values follow the lexicon order of their first matching key, not their position in the text |
| AnalyzerFacts.EntityLists | backend/main.py:88-101 | the three entity lists of the analysis: membership iff a key occurs, no duplicates |
| AnalyzerFacts.DiseaseValuesQuoteFree | backend/main.py:36-52 | no canonical disease name holds a double quote |
| AnalyzerFacts.LocationValuesQuoteFree | backend/main.py:54-62 | no canonical location name holds a double quote |
| AnalyzerFacts.MeasureValuesQuoteFree | backend/main.py:64-69 | no canonical measure name holds a double quote |
| AnalyzerFacts.CollectedQuoteFree | backend/main.py:88-101 | a value collected from a quote-free lexicon holds no quote |
| AnalyzerFacts.YearTokenQuoteFree | backend/main.py:108 | a year match holds no quote |
| AnalyzerFacts.CollectedAnalysisQuoteFree | backend/main.py:88-113 | entity lists collected from the lexicons and a year-token period hold no quote |
| AnalyzerFacts.AnalysisQuoteFree | backend/main.py:71-153 | no disease, location or measure of any analysis, nor its time period, holds a quote |
| AnalyzerFacts.IncidenceKeysStartAtEight | backend/main.py:64-69 | no measure key before the eighth maps to Incidence |
| AnalyzerFacts.NewCasesCollectsBoth | backend/main.py:64-69 | "new cases" collects both Prevalence and Incidence, Prevalence first |
| AnalyzerFacts.NewCasesYieldsBothMeasures | backend/main.py:64-101 | a question saying "new cases" reports both Prevalence and Incidence, Prevalence first |
| AnalyzerFacts.GenderPriority | backend/main.py:103-106 | Female iff a female cue occurs; Male iff a male cue and no female cue; none otherwise |
| AnalyzerFacts.MaleCueShadowed | backend/main.py:103-106 | "women" and "female" contain the male cues "men" and "male", yet the gender stays Female |
| AnalyzerFacts.YearValue | backend/main.py:108 | a year token denotes a number between 1900 and 2099 |
| AnalyzerFacts.YearOrderIsNumeric | backend/main.py:110 | on year tokens, the string order used by min/max is the numeric order |
| AnalyzerFacts.YearFields | backend/main.py:108-114 | two or more matches set the range to (min, max) and no period; one sets the period and no range; none sets neither; a period is always a year token |
| AnalyzerFacts.YearRangeBounds | backend/main.py:108-110 | the range's ends are matched years, and every matched year lies numerically between them |
| AnalyzerFacts.YearsDoNotOverlap | backend/main.py:108 | no match of the year pattern starts inside another, because a digit precedes it and `\b` fails there |
| AnalyzerFacts.YearStarts | backend/main.py:108 | the indices where the year pattern matches, strictly increasing, with every match from the start index on included |
| AnalyzerFacts.YearsFromInOrder | backend/main.py:108 | the scan returns one token per match, in order: the j-th token is the text of the j-th match |
| AnalyzerFacts.FoundIsMatch | backend/main.py:108 | every year found is the text of a word-bounded match |
| AnalyzerFacts.MatchIsFound | backend/main.py:108 | every word-bounded match is found |
| AnalyzerFacts.YearsFromExact | backend/main.py:108 | a token is found if and only if the pattern matches it somewhere in the question |
| AnalyzerFacts.YearPatternExamples | backend/main.py:108 | word boundaries and the century prefix: "2020s", "y2020", "1899" and "2100" yield no year |
| AnalyzerFacts.TwoYearsExample | backend/main.py:108 | "from 1990 to 2020" yields both years, in the order they occur |
| AnalyzerFacts.RepeatedYearMakesRange | backend/main.py:108-114 | a year mentioned twice yields a range from it to itself, not a single period |
| AnalyzerFacts.CueGroupingMembers | backend/main.py:116-125 | the grouping holds a dimension iff its cue occurs |
| AnalyzerFacts.CueGroupingSorted | backend/main.py:116-125 | the grouping is in the order sex, location, age, year, without repeats |
| AnalyzerFacts.AppendRanked | backend/main.py:116-125 | appending a dimension of higher rank keeps the grouping ordered |
| AnalyzerFacts.GroupingStage | backend/main.py:116-125 | from an empty list, the grouping stage holds exactly the cued dimensions, in order |
| AnalyzerFacts.GroupingShape | backend/main.py:116-125 | the final grouping is the cue-selected part of [sex, location, age, year], in order |
| AnalyzerFacts.AggregationPriority | backend/main.py:127-135 | sum iff a sum cue; average iff an average cue and no sum cue; none otherwise |
| AnalyzerFacts.QueryTypeCascade | backend/main.py:108-146 | the final query type: comparison, then ranking, then total, then average, then trend (year-group cue or two years), else general |
| AnalyzerFacts.VisualizationCascade | backend/main.py:108-151 | the final visualization: pie for grouping [sex], bar for location grouping outside a trend, then the override cues, then the aggregation (sum: metric only when ungrouped), then line for a trend, else table |
| AnalyzerFacts.SexOnlyGroupingIsPie | backend/main.py:116-149 | a question whose only grouping cue is a sex cue is grouped by [sex] and shown as a pie |
| SparqlGenerator.PrefixesStripped | backend/main.py:158-161 | stripping the prefix block leaves the two PREFIX lines |
| SparqlGenerator.GroupVars | backend/main.py:165-176 | the grouping variables: ?sex, ?location, ?year each iff its dimension is grouped, in that order, and nothing else (age never) |
| SparqlGenerator.Filters | backend/main.py:193-201 | conjuncts constrain only the cause name, the measure, the location or the year, and there are at most four |
| SparqlGenerator.FilterMembers | backend/main.py:193-201 | a conjunct on the cause name, measure or location exists iff that list is non-empty (location: and not skipped), and its value is the list's first element; a year conjunct exists iff the period is a non-empty string, with that value |
| SparqlGenerator.GenerateQuery | backend/main.py:163-242 | an aggregate is tagged bar or metric and a plain query keeps the analysis' visualization; the full contract is GeneratorFacts.QueryFrame, GeneratedTag, UnreadFieldsIgnored and FiltersAppearInQuery |
| GeneratorFacts.FiltersOrdered | backend/main.py:193-203 | the conjuncts come in the order cause name, measure, location, year |
| GeneratorFacts.FilterLinePresence | backend/main.py:202-203 | the FILTER line appears iff there is a conjunct |
| GeneratorFacts.QueryFrame | backend/main.py:212-241 | every query starts with the PREFIX lines and ends with `LIMIT 20` |
| GeneratorFacts.GeneratedTag | backend/main.py:209-242 | the aggregate tag is bar iff something is grouped by sex, location or year, else metric; the plain template returns the analysis' visualization |
| GeneratorFacts.UnreadFieldsIgnored | backend/main.py:163-242 | the query depends only on the first disease, measure and location, the period, the aggregation, the sex/location/year grouping and (plain) the visualization; the time range is never read |
| GeneratorFacts.LocationFilterAsymmetry | backend/main.py:198-233 | with a location grouped on, the plain template still filters on the location and the aggregate one does not |
| GeneratorFacts.FiltersAppearInQuery | backend/main.py:193-205 | every chosen conjunct appears, rendered, in the query |
| GeneratorFacts.GroupByPresence | backend/main.py:207-210 | the GROUP BY line is non-empty, and starts with `GROUP BY `, iff there are grouping variables |
| GeneratorFacts.GroupedVariablesSelected | backend/main.py:165-210 | every grouping variable appears both in the SELECT line and in the GROUP BY line |
| GeneratorFacts.RenderQuotes | backend/main.py:195-201 | a rendered conjunct has two quotes besides those of its value |
| GeneratorFacts.RenderedQuotes | backend/main.py:193-201 | the rendered conjuncts hold two quotes each plus the values' quotes |
| GeneratorFacts.FilterLineQuotes | backend/main.py:202-203 | the FILTER line holds two quotes per conjunct plus whatever quotes the values bring |
| GeneratorFacts.QuoteInValueUnbalances | backend/main.py:195 | a value `a"b` leaves three quotes on the FILTER line: values are not escaped |
| GeneratorFacts.FilterValuesFrom | backend/main.py:193-201 | every interpolated value is an entity of the analysis or its time period |
| GeneratorFacts.FilterLineBalanced | backend/main.py:193-203 | with quote-free values the FILTER line holds exactly two quotes per conjunct |
| GeneratorFacts.AnalyzedFilterLineBalanced | backend/main.py:193-203 | for every question, the FILTER line of the generated query holds exactly two quotes per conjunct, so every string literal is closed |
| GeneratorFacts.SumSelectLocation | backend/main.py:179-180 | summing grouped by location selects `?location (SUM(?value) AS ?value)` |
| GeneratorFacts.GroupByLocationTail | backend/main.py:207-212 | grouping by location puts `GROUP BY ?location` in the tail |
| GeneratorFacts.SumByLocation | backend/main.py:164-213 | a sum grouped by location alone selects and groups by ?location and is tagged bar |
| GeneratorFacts.TuberculosisRendered | backend/main.py:195 | a disease conjunct renders as `?causeName = "Tuberculosis"` |
| GeneratorFacts.PlainQueryHasSelect | backend/main.py:217 | a plain query carries the fixed SELECT of all six fields |
| GeneratorFacts.PlainTuberculosis | backend/main.py:216-242 | a plain query about tuberculosis selects every field and filters on the cause name |
| GeneratorFacts.UngroupedAggregate | backend/main.py:207-213 | an aggregate with nothing grouped ends with "}", an empty GROUP BY line and the row cap, and is tagged metric |
| GeneratorFacts.SumOccursInSelect | backend/main.py:179-180 | a SUM select always holds `(SUM(?value) AS ?value)` |
| GeneratorFacts.TotalWithoutGroupingCues | backend/main.py:127-213 | a total question with no sex, location or year grouping cue compiles to an ungrouped SUM tagged metric |
| LlmCleanup.CaptureEnd | backend/llm_query.py:99 | the marker capture ends at the first `VISUALIZATION:`, the end of the text, or a final newline |
| LlmCleanup.KeepCount | backend/llm_query.py:108-116 | the kept lines run up to and including the first line where the brace count is not positive and a `}` occurs, or are all the lines |
| LlmCleanup.TruncateLines | backend/llm_query.py:108-116 | the truncation loop keeps exactly the first `KeepCount` lines |
| LlmCleanup.CleanSparql | backend/llm_query.py:93-119 | the procedure with its loop computes `Cleaned` |
| CleanupFacts.CaptureStartsAtText | backend/llm_query.py:95-100 | a non-empty capture never starts with whitespace |
| CleanupFacts.FenceCaptureStart | backend/llm_query.py:95 | the fenced capture starts at a non-space and holds no fence |
| CleanupFacts.MarkerCaptureStart | backend/llm_query.py:99 | the marker capture starts at a non-space and holds no `VISUALIZATION:` marker |
| CleanupFacts.RemoveFencesLeavesNone | backend/llm_query.py:105 | after fence removal no three backticks remain in a row; the leading run of k backticks becomes k mod 3 (RunAfterShrinks covers every later run) |
| CleanupFacts.RemoveFencesOnlyDropsTicks | backend/llm_query.py:105 | fence removal deletes backticks and nothing else |
| CleanupFacts.RemoveFencesSplit | backend/llm_query.py:105 | a character other than a backtick splits fence removal: the text on each side is replaced on its own |
| CleanupFacts.RunAfterShrinks | backend/llm_query.py:105 | the backtick run after any non-backtick character shrinks from k to k mod 3 |
| CleanupFacts.LangTagsKeepNoFence | backend/llm_query.py:106 | removing language tags creates no fence |
| CleanupFacts.LangTagsKeepQuotes | backend/llm_query.py:106 | removing language tags keeps every quote |
| CleanupFacts.LangTagsSinglePass | backend/llm_query.py:106 | one pass only: a tag uncovered by a replacement stays |
| CleanupFacts.NoFenceInResult | backend/llm_query.py:105-117 | no fence survives the cleanup |
| CleanupFacts.TrailingLinesIgnored | backend/llm_query.py:108-116 | lines after the one that ends the query cannot change what is kept |
| CleanupFacts.FinishOneLine | backend/llm_query.py:105-117 | a stripped one-line query without backticks or tags comes through the cleanup unchanged |
| CleanupFacts.FenceCaptureSkips | backend/llm_query.py:95 | no fenced block opens before the first backtick |
| CleanupFacts.FenceCaptureAt | backend/llm_query.py:95 | a fenced block captures its body up to the closing fence |
| CleanupFacts.FencedQueryRoundTrip | backend/llm_query.py:93-119 | a one-line query in a ```` ```sparql ```` block comes back as written, whatever follows, even after a `SPARQL:` marker |
| CleanupFacts.MarkerCaptureAll | backend/llm_query.py:99-100 | after a leading `SPARQL: ` marker the capture runs to the end when no `VISUALIZATION:` follows |
| CleanupFacts.MarkedQueryRoundTrip | backend/llm_query.py:93-119 | without a fence, a one-line query after `SPARQL:` comes back as written |
| CleanupFacts.EmptyAfterCleanup | backend/llm_query.py:102-117 | the emptiness check precedes the cleanup: "SPARQL: ```" yields the empty query, not none |
| LlmCleanup.TagWord | backend/llm_query.py:131 | the tag pattern captures a non-empty run of word characters (`\w+`) |
| LlmCleanup.VisualizationTag | backend/llm_query.py:131-132 | the tag is never empty; CleanupFacts.TagIsWordOrBar and TagRoundTrip give its shape and round trip |
| CleanupFacts.TagIsWordOrBar | backend/llm_query.py:131-132 | the tag is "bar" or a non-empty run of word characters, left unchanged by the strip |
| CleanupFacts.TagRoundTrip | backend/llm_query.py:131-132 | "VISUALIZATION: " followed by a word yields that word |

## Left out

- Lower-casing: `str.lower()` is not modelled; the caller supplies the lowered question.
- Regex classes: `\w` covers ASCII letters, digits, `_` and Cyrillic letters, not every Unicode letter. `\d` covers ASCII digits only. IGNORECASE folds ASCII letters only.
- The `age_group` key of the analysis record is never set by the source, so it is not a field of the model.
- Dictionary defaults (`analysis.get(..., default)`): the model's record always has every field.
- Analyzer.AnalyzeQuestion: the lexicon loops are modelled; each cue check (`any(...)`) is the predicate `AnyIn`, not a loop.
- GeneratorFacts.GroupByPresence: states that the GROUP BY line is present iff there are grouping variables, on the clause itself. It is not stated for the whole query text, because interpolated filter values could contain the same words.
- The query executor (`execute_sparql_query`), the remote language-model calls, the web endpoints and the ingestion scripts are I/O; they are not part of this model.
- SPARQL is only built as text; it is not parsed or evaluated.
