/**
  The backend's chart-type decision and the guards of visualization and insight
  generation. Plotting, statistics and HTML rendering are outside the model: what they
  produce is passed in, and so is the exception they may raise.
 */
module OutputFormatter {
  import opened Wrappers
  import opened Strings
  import opened Frames

  const TrendKeywords: seq<string> := ["trend", "over time", "history", "changes"]
  const ComparisonKeywords: seq<string> := ["compare", "comparison", "versus", "vs"]
  const DistributionKeywords: seq<string> := ["distribution", "spread", "frequency"]

  /** `any(keyword in query.lower() for keyword in keywords)`. */
  predicate MentionsAny(query: string, keywords: seq<string>) {
    exists i | 0 <= i < |keywords| :: Contains(Lower(query), keywords[i])
  }

  /** A column is date-like when its lower-cased name contains "date" or "time". */
  predicate DateLike(c: Column) {
    Contains(Lower(c.name), "date") || Contains(Lower(c.name), "time")
  }

  predicate HasDateColumn(f: Frame) {
    exists i | 0 <= i < |f.columns| :: DateLike(f.columns[i])
  }

  function NumericCount(f: Frame): nat {
    CountKind(f.columns, Numeric)
  }

  function CategoricalCount(f: Frame): nat {
    CountKind(f.columns, Categorical)
  }

  predicate TrendRule(f: Frame, q: string) {
    MentionsAny(q, TrendKeywords) && HasDateColumn(f) && NumericCount(f) > 0
  }

  predicate CompareRule(f: Frame, q: string) {
    MentionsAny(q, ComparisonKeywords) && CategoricalCount(f) > 0 && NumericCount(f) > 0
  }

  predicate DistributionRule(f: Frame, q: string) {
    MentionsAny(q, DistributionKeywords) && NumericCount(f) > 0
  }

  predicate CorrelationRule(f: Frame, q: string) {
    Contains(Lower(q), "correlation") && NumericCount(f) >= 2
  }

  /** One of the four query-keyword rules fires. */
  predicate KeywordRuleFires(f: Frame, q: string) {
    TrendRule(f, q) || CompareRule(f, q) || DistributionRule(f, q) || CorrelationRule(f, q)
  }

  predicate IsChartType(t: string) {
    t == "line" || t == "bar" || t == "histogram" || t == "scatter" || t == "pie" || t == "table"
  }

  /** `detect_chart_type`: the first rule that fires, in priority order, else "table". */
  function DetectChartType(f: Frame, q: string): (t: string)
    ensures IsChartType(t)
    ensures KeywordRuleFires(f, q) ==> t != "pie" && t != "table"
    ensures TrendRule(f, q) ==> t == "line"
  {
    if TrendRule(f, q) then "line"
    else if CompareRule(f, q) then "bar"
    else if DistributionRule(f, q) then "histogram"
    else if CorrelationRule(f, q) then "scatter"
    else if |f.columns| == 2 && NumericCount(f) == 1 && CategoricalCount(f) == 1 then "pie"
    else if HasDateColumn(f) && NumericCount(f) > 0 then "line"
    else if CategoricalCount(f) > 0 && NumericCount(f) > 0 then "bar"
    else if NumericCount(f) >= 2 then "scatter"
    else "table"
  }

  /**
    A pie chart is chosen exactly for two columns, one numeric and one categorical, when
    no keyword rule fires.
   */
  lemma PieIff(f: Frame, q: string)
    ensures DetectChartType(f, q) == "pie" <==>
      |f.columns| == 2 && NumericCount(f) == 1 && CategoricalCount(f) == 1 && !KeywordRuleFires(f, q)
  {
  }

  /**
    The table fallback is chosen exactly when there is no numeric column, or one numeric
    column with no date-like and no categorical column and no distribution keyword.
   */
  lemma TableIff(f: Frame, q: string)
    ensures DetectChartType(f, q) == "table" <==>
      NumericCount(f) == 0
      || (NumericCount(f) == 1 && !HasDateColumn(f) && CategoricalCount(f) == 0 && !MentionsAny(q, DistributionKeywords))
  {
  }

  /** A keyword mentioned in any letter case selects the same chart. */
  lemma {:induction false} KeywordsIgnoreCase(f: Frame, q: string)
    ensures DetectChartType(f, Lower(q)) == DetectChartType(f, q)
  {
    LowerIdempotent(q);
  }

  lemma LowerIdempotent(s: string)
    ensures Lower(Lower(s)) == Lower(s)
  {
    assert forall i :: 0 <= i < |s| ==> LowerChar(LowerChar(s[i])) == LowerChar(s[i]);
  }

  /**
    The dictionary `create_visualization` returns. `plotly` and `image` record whether an
    interactive figure and a PNG were produced; `tableHtml` whether the frame's HTML was
    attached.
   */
  datatype Visualization = Visualization(
    chartType: string,
    message: Option<string>,
    plotly: bool,
    image: bool,
    tableHtml: bool,
    error: Option<string>)

  const NoDataMessage: string := "No data available for visualization"
  const IndexErrorText: string := "list index out of range"

  /**
    An exception raised while plotting: its text, and whether it came after the Plotly
    figure had been stored under `plotly_html` (the Matplotlib fallback drawn after it can
    still fail, e.g. `plt.pie` on a negative value).
   */
  datatype PlotFailure = PlotFailure(afterFigure: bool, text: string)

  /** The chart branch's own guard passes, so it builds a Plotly figure. */
  predicate DrawsFigure(f: Frame, chartType: string) {
    var num := NumericCount(f);
    var cat := CategoricalCount(f);
    || (chartType == "line" && HasDateColumn(f) && num > 0)
    || (chartType == "bar" && cat > 0 && num > 0)
    || (chartType == "histogram" && num > 0)
    || (chartType == "scatter" && num >= 2)
    || (chartType == "pie" && cat > 0 && num > 0)
  }

  /**
    `create_visualization`. `plotFailure` is the exception plotting raises, if it does; the
    pie branch indexes the first categorical and numeric column itself and raises when
    either is missing. The handler keeps whatever the dictionary already held, so a failure
    after the figure leaves `plotly_html` in place.
   */
  function CreateVisualization(f: Frame, chartType: string, plotFailure: Option<PlotFailure>): (r: Visualization)
    ensures IsEmpty(f) ==> r == Visualization("none", Some(NoDataMessage), false, false, false, None)
    ensures !IsEmpty(f) ==> r.message.None?
    ensures !IsEmpty(f) && r.error.Some? ==> r.chartType == "table" && r.tableHtml && !r.image
    ensures !IsEmpty(f) && chartType == "pie" && (CategoricalCount(f) == 0 || NumericCount(f) == 0)
            ==> r.error == Some(IndexErrorText)
    ensures !IsEmpty(f) && plotFailure.Some? ==> r.error.Some?
    ensures !IsEmpty(f) ==> (r.plotly ==> DrawsFigure(f, chartType))
    ensures !IsEmpty(f) && r.error.None? ==> (r.plotly <==> DrawsFigure(f, chartType))
    ensures !IsEmpty(f) && r.error.Some? ==>
      (r.plotly <==> plotFailure.Some? && plotFailure.value.afterFigure && DrawsFigure(f, chartType))
    ensures !IsEmpty(f) && r.error.None? ==>
      && (chartType in {"line", "bar", "histogram", "scatter", "pie"} ==> r.chartType == chartType)
      && (chartType !in {"line", "bar", "histogram", "scatter", "pie"} ==> r.chartType == "table")
      && (r.image <==> chartType != "table")
      && (r.tableHtml <==> r.chartType == "table")
  {
    if IsEmpty(f) then Visualization("none", Some(NoDataMessage), false, false, false, None)
    else if chartType == "pie" && (CategoricalCount(f) == 0 || NumericCount(f) == 0) then
      Visualization("table", None, false, false, true, Some(IndexErrorText))
    else if plotFailure.Some? then
      Visualization("table", None, plotFailure.value.afterFigure && DrawsFigure(f, chartType), false, true,
                    Some(plotFailure.value.text))
    else if chartType in {"line", "bar", "histogram", "scatter", "pie"} then
      Visualization(chartType, None, DrawsFigure(f, chartType), true, false, None)
    else Visualization("table", None, false, chartType != "table", true, None)
  }

  /**
    Every chart `detect_chart_type` picks for a non-empty frame is drawn without falling
    back to the table, unless plotting itself fails.
   */
  lemma {:induction false} DetectedChartDrawn(f: Frame, q: string)
    requires !IsEmpty(f)
    ensures var t := DetectChartType(f, q);
      var v := CreateVisualization(f, t, None);
      && v.error.None?
      && v.chartType == t
      && (t != "table" ==> v.plotly && v.image)
  {
    var t := DetectChartType(f, q);
    if t == "line" && !TrendRule(f, q) {
      assert HasDateColumn(f) && NumericCount(f) > 0;
    }
  }

  const NoInsightsMessage: string := "No data available to generate insights."
  const MaxInsights: nat := 5
  const TimeInsight: string := "Time-based analysis would require converting the date columns to datetime format."

  /**
    What the statistics part of `generate_insights` produced: the per-column lines and the
    correlation lines, or the lines appended before an exception and its text.
   */
  datatype Statistics =
    | Computed(columnLines: seq<string>, correlationLines: seq<string>)
    | Interrupted(before: seq<string>, failure: string)

  function SummaryLine(f: Frame): string {
    "The dataset contains " + NatToString(f.rows) + " records with " + NatToString(|f.columns|) + " fields."
  }

  function Take(s: seq<string>, n: nat): (r: seq<string>)
    ensures |r| == if |s| <= n then |s| else n
    ensures r == s[..|r|]
  {
    if |s| <= n then s else s[..n]
  }

  /** `generate_insights`: a fixed line for an empty frame; otherwise at most five lines. */
  function GenerateInsights(f: Frame, stats: Statistics): (r: seq<string>)
    ensures IsEmpty(f) ==> r == [NoInsightsMessage]
    ensures 1 <= |r| <= MaxInsights
    ensures !IsEmpty(f) && stats.Computed? ==>
      var all := stats.columnLines + (if HasDateColumn(f) && NumericCount(f) > 0 then [TimeInsight] else [])
                 + stats.correlationLines + [SummaryLine(f)];
      && |r| == (if |all| <= MaxInsights then |all| else MaxInsights)
      && r == all[..|r|]
    ensures !IsEmpty(f) && stats.Interrupted? ==>
      var all := stats.before + ["Error generating insights: " + stats.failure];
      && |r| == (if |all| <= MaxInsights then |all| else MaxInsights)
      && r == all[..|r|]
      && (|all| <= MaxInsights ==> r == all && r[|r| - 1] == "Error generating insights: " + stats.failure)
  {
    if IsEmpty(f) then [NoInsightsMessage]
    else
      match stats
      case Computed(columnLines, correlationLines) =>
        var timeLine := if HasDateColumn(f) && NumericCount(f) > 0 then [TimeInsight] else [];
        Take(columnLines + timeLine + correlationLines + [SummaryLine(f)], MaxInsights)
      case Interrupted(before, failure) =>
        Take(before + ["Error generating insights: " + failure], MaxInsights)
  }

  /**
    When every computed line fits in the five kept, the dataset summary is the last insight,
    after each column, time and correlation line in order.
   */
  lemma SummaryLastWhenFits(f: Frame, columnLines: seq<string>, correlationLines: seq<string>)
    requires !IsEmpty(f)
    requires |columnLines| + |correlationLines| + 2 <= MaxInsights
    ensures var r := GenerateInsights(f, Computed(columnLines, correlationLines));
      && r[|r| - 1] == SummaryLine(f)
      && r[..|columnLines|] == columnLines
  {
    var timeLine := if HasDateColumn(f) && NumericCount(f) > 0 then [TimeInsight] else [];
    var all := columnLines + timeLine + correlationLines + [SummaryLine(f)];
    assert all[..|columnLines|] == columnLines;
  }
}
