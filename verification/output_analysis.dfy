/**
  The analysis step run on every successful SQL result: small results go to the analysis
  model whole, large ones as a truncated summary; a graph is attached when the model
  recommends one. The model, its output parser and the graph renderer are passed in.
 */
module OutputAnalysis {
  import opened Wrappers
  import opened JsonValues
  import opened Strings
  import opened Frames

  /** `truncate_data`'s default `max_length`. */
  const DefaultMaxLength: nat := 1000

  /** The largest result sent to the model whole. */
  const WholeFrameRows: nat := 100

  const AnalysisFailedText: string := "Unable to generate analysis due to an error."

  /** `data_str[:max_length] + "..." if len(data_str) > max_length else data_str`. */
  function Truncate(s: string, maxLength: nat): (r: string)
    ensures |s| <= maxLength ==> r == s
    ensures |s| > maxLength ==> |r| == maxLength + 3 && r[maxLength..] == "..."
    ensures |r| <= maxLength + 3
  {
    if |s| > maxLength then s[..maxLength] + "..." else s
  }

  /** The truncated text always starts with as much of the input as fits. */
  lemma TruncateKeepsPrefix(s: string, maxLength: nat)
    ensures var n := if |s| <= maxLength then |s| else maxLength;
      n <= |Truncate(s, maxLength)| && Truncate(s, maxLength)[..n] == s[..n]
  {
  }

  /**
    Truncation leaves the text as it is exactly when it fits, or when it is already exactly
    `max_length` characters followed by "...".
   */
  lemma TruncateUnchangedIff(s: string, maxLength: nat)
    ensures Truncate(s, maxLength) == s <==> |s| <= maxLength || (|s| == maxLength + 3 && s[maxLength..] == "...")
  {
    if |s| > maxLength && |s| == maxLength + 3 && s[maxLength..] == "..." {
      assert s == s[..maxLength] + s[maxLength..];
    }
  }

  /** What the analysis model is given: the whole result, or the truncated summary text. */
  datatype AnalysisInput = WholeResult(frame: Frame) | SummaryText(text: string)

  /**
    The model input for a result. `summary` is `json.dumps` of the first ten rows, the shape
    and the column names, which the model does not compute; `None` when `json.dumps` raised
    (a date or timestamp cell is not JSON serialisable). The dump is only made for a large
    result, and outside the analyser's `try`, so then there is no input at all.
   */
  function InputFor(f: Frame, summary: Option<string>): (r: Option<AnalysisInput>)
    ensures f.rows <= WholeFrameRows ==> r == Some(WholeResult(f))
    ensures f.rows > WholeFrameRows ==> (r.Some? <==> summary.Some?)
    ensures f.rows > WholeFrameRows && r.Some? ==>
      && r.value.SummaryText?
      && |r.value.text| <= DefaultMaxLength + 3
      && (|summary.value| <= DefaultMaxLength ==> r.value.text == summary.value)
      && (|summary.value| > DefaultMaxLength ==> r.value.text == summary.value[..DefaultMaxLength] + "...")
  {
    if f.rows <= WholeFrameRows then Some(WholeResult(f))
    else match summary
      case None => None
      case Some(text) => Some(SummaryText(Truncate(text, DefaultMaxLength)))
  }

  /** `visualization_data`: the three recommendation fields with their defaults. */
  function VisualizationData(parsed: map<string, Json>): (r: map<string, Json>)
    ensures r.Keys == {"visualization_recommended", "visualization_type", "visualization_config"}
    ensures r["visualization_recommended"] == DictGet(parsed, "visualization_recommended", JBool(false))
    ensures r["visualization_type"] == DictGet(parsed, "visualization_type", JStr("none"))
    ensures r["visualization_config"] == DictGet(parsed, "visualization_config", JObj(map[]))
  {
    map["visualization_recommended" := DictGet(parsed, "visualization_recommended", JBool(false)),
        "visualization_type" := DictGet(parsed, "visualization_type", JStr("none")),
        "visualization_config" := DictGet(parsed, "visualization_config", JObj(map[]))]
  }

  /** `parsed.get('visualization_recommended') == True`: an absent key reads as `None`. */
  predicate Recommended(parsed: map<string, Json>) {
    "visualization_recommended" in parsed && PyEqualsTrue(parsed["visualization_recommended"])
  }

  /** The analyser's result dictionary, or an exception that escapes it. */
  datatype Analysis = Analysis(fields: map<string, Json>) | Raised

  /** The fixed dictionary a large result's failed analysis is replaced by. */
  const FailedAnalysis: map<string, Json> := map["analysis" := JStr(AnalysisFailedText)]

  /** The analysis chain raised, or it recommended a graph and the renderer raised. */
  predicate ChainFailed(input: AnalysisInput,
                        model: AnalysisInput -> Option<map<string, Json>>,
                        render: (AnalysisInput, map<string, Json>) -> Option<Json>) {
    || model(input).None?
    || (Recommended(model(input).value) && render(input, VisualizationData(model(input).value)).None?)
  }

  /**
    `output_analyser`. `model` runs and parses the analysis chain (`None`: it raised);
    `render` draws the recommended graph (`None`: it raised). A chain or renderer exception
    escapes for a small result but is replaced by a fixed analysis for a large one; a large
    result whose summary cannot be serialised raises before the chain runs.
   */
  function Analyse(f: Frame, summary: Option<string>,
                   model: AnalysisInput -> Option<map<string, Json>>,
                   render: (AnalysisInput, map<string, Json>) -> Option<Json>): (r: Analysis)
    ensures InputFor(f, summary).None? ==> r == Raised
    ensures f.rows > WholeFrameRows && summary.Some? ==> r.Analysis?
    ensures f.rows <= WholeFrameRows ==> (r == Raised <==> ChainFailed(WholeResult(f), model, render))
    ensures f.rows > WholeFrameRows && summary.Some? && ChainFailed(InputFor(f, summary).value, model, render)
            ==> r == Analysis(FailedAnalysis)
    ensures InputFor(f, summary).Some? && !ChainFailed(InputFor(f, summary).value, model, render) ==>
      var input := InputFor(f, summary).value;
      var parsed := model(input).value;
      && r.Analysis?
      && r.fields.Keys == parsed.Keys + (if Recommended(parsed) then {"graph_plots"} else {})
      && (forall k :: k in parsed && k != "graph_plots" ==> r.fields[k] == parsed[k])
      && (Recommended(parsed) ==> r.fields["graph_plots"] == render(input, VisualizationData(parsed)).value)
  {
    match InputFor(f, summary)
    case None => Raised
    case Some(input) =>
      var failed := if f.rows <= WholeFrameRows then Raised else Analysis(FailedAnalysis);
      match model(input)
      case None => failed
      case Some(parsed) =>
        if !Recommended(parsed) then Analysis(parsed)
        else
          match render(input, VisualizationData(parsed))
          case None => failed
          case Some(graph) => Analysis(parsed["graph_plots" := graph])
  }

  /**
    A graph is attached exactly when the model's recommendation is `True` (or 1) and the
    renderer succeeds; otherwise the parsed output is returned as it is.
   */
  lemma GraphAttachedOnlyWhenRecommended(f: Frame, summary: Option<string>,
                                         model: AnalysisInput -> Option<map<string, Json>>,
                                         render: (AnalysisInput, map<string, Json>) -> Option<Json>)
    requires InputFor(f, summary).Some? && model(InputFor(f, summary).value).Some?
    ensures var parsed := model(InputFor(f, summary).value).value;
      var r := Analyse(f, summary, model, render);
      && (!Recommended(parsed) ==> r == Analysis(parsed))
      && (r.Analysis? && "graph_plots" in r.fields && "graph_plots" !in parsed ==> Recommended(parsed))
      && (Recommended(parsed) && render(InputFor(f, summary).value, VisualizationData(parsed)).Some? ==>
            r.Analysis? && "graph_plots" in r.fields)
  {
  }

  /** A recommendation given as the string "true" is not `True` in Python, so no graph is drawn. */
  lemma StringTrueNotRecommended(parsed: map<string, Json>)
    requires "visualization_recommended" in parsed && parsed["visualization_recommended"] == JStr("true")
    ensures !Recommended(parsed)
  {
  }
}
