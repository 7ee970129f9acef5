/**
  The two HTTP endpoints. `/get_user_data` runs the text-to-SQL chain on a JSON request;
  `/get_csv_data` reads a CSV file (or CSV text) from a multipart form and hands it to the
  CSV chain. Both reshape a SQL answer into the response the chat pages read: the result as
  JSON records and CSV, an HTML table wrapped as a JSON response, and the analysis text and
  plot.

  Frame serialisation, JSON encoding of the table, form parsing, UTF-8 decoding and CSV
  reading are passed in as functions.
 */
module Api {
  import opened Wrappers
  import opened JsonValues
  import opened Frames
  import opened Chat
  import opened Bedrock
  import opened Sessions
  import opened Submission
  import OutputAnalysis

  /** A result frame as `to_json(orient="records")`, `to_csv(index=False)` and `to_html(...)`. */
  datatype Renderings = Renderings(records: string, csv: string, html: string)

  /**
    A 200 response body. `Passed` is a chain output returned as it is; `Tabular` is the
    reshaped SQL answer, whose `tableBody` is the body of the wrapped HTML table.
   */
  datatype Body =
    | Passed(responseType: string, output: Option<string>)
    | Tabular(responseType: string, result: string, sqlQuery: string, tableBody: string,
              analysisStatement: Json, analysisPlot: Json, csvData: string)

  /** An HTTP response; `Status500` is an exception escaping the handler. */
  datatype Response = Status200(body: Body) | Status400(error: string) | Status500

  const NoCsvText: string := "No CSV data provided"

  const StyleHead: string := "\n    <style>\n        table {"
  const StyleTail: string :=
    "\n            width: 100%;\n            border-collapse: collapse;\n        }\n        th, td {\n            padding: 12px;\n            text-align: left;\n            border: 1px solid #DEE2E6;\n        }\n    </style>\n    "

  /** The style block `/get_csv_data` puts before its table. */
  const CsvStyle: string := StyleHead + StyleTail

  /** The style block `/get_user_data` puts before its table, with a stray `csv_string` in the table rule. */
  const UserDataStyle: string := StyleHead + "csv_string" + StyleTail

  /** The analysis text and plot a response carries. */
  datatype Extracted = Extracted(statement: Json, plot: Json)

  /** The graph's image when it has one, else its HTML tag when it has one, else nothing. */
  function PlotOf(graph: map<string, Json>): (r: Json)
    ensures "image" in graph && PyTruthy(graph["image"]) ==> r == JObj(graph)
    ensures !("image" in graph && PyTruthy(graph["image"])) && "html_tag" in graph && PyTruthy(graph["html_tag"])
            ==> r == graph["html_tag"]
    ensures r != JStr("") ==> r == JObj(graph) || ("html_tag" in graph && r == graph["html_tag"])
  {
    if "image" in graph && PyTruthy(graph["image"]) then JObj(graph)
    else if "html_tag" in graph && PyTruthy(graph["html_tag"]) then graph["html_tag"]
    else JStr("")
  }

  /**
    The analysis text and plot taken from `output.get('analysis')`: both empty unless it is
    a non-empty dictionary; the text defaults to empty, and the plot comes from a dictionary
    `graph_plots` entry only.
   */
  function ExtractAnalysis(analysis: Option<Json>): (r: Extracted)
    ensures !(analysis.Some? && analysis.value.JObj? && PyTruthy(analysis.value)) ==> r == Extracted(JStr(""), JStr(""))
    ensures analysis.Some? && analysis.value.JObj? && PyTruthy(analysis.value) ==>
      var fields := analysis.value.fields;
      && r.statement == DictGet(fields, "analysis", JStr(""))
      && (r.plot != JStr("") ==> "graph_plots" in fields && fields["graph_plots"].JObj?)
      && ("graph_plots" in fields && fields["graph_plots"].JObj? ==> r.plot == PlotOf(fields["graph_plots"].fields))
  {
    if analysis.Some? && analysis.value.JObj? && PyTruthy(analysis.value) then
      var fields := analysis.value.fields;
      var plot := if "graph_plots" in fields && fields["graph_plots"].JObj? then PlotOf(fields["graph_plots"].fields) else JStr("");
      Extracted(DictGet(fields, "analysis", JStr("")), plot)
    else Extracted(JStr(""), JStr(""))
  }

  /** The tabular body of a SQL answer, with the given style before the HTML table. */
  function TabularBody(responseType: string, sqlQuery: string, frame: Frame, analysis: Option<Json>, style: string,
                       render: Frame -> Renderings, encode: string -> string): Body
  {
    var shown := render(frame);
    var extracted := ExtractAnalysis(analysis);
    Tabular(responseType, shown.records, sqlQuery, encode(style + shown.html),
            extracted.statement, extracted.plot, shown.csv)
  }

  /**
    `/get_user_data` after the chain. Only a conversation is passed through; any other
    non-SQL answer (a refusal, the retry-exhausted or unexpected-type error) reads the
    missing `sql_result` key and fails with a server error, as does an exception from the
    chain itself.
   */
  function ShapeUserData(answer: Answer, render: Frame -> Renderings, encode: string -> string): (r: Response)
    ensures r.Status500? <==> answer.Raised? || (answer.Reply? && answer.responseType != "conversation")
    ensures answer.Reply? && answer.responseType == "conversation" ==> r == Status200(Passed("conversation", Some(answer.output)))
    ensures answer.SqlAnswer? ==>
      && r.Status200? && r.body.Tabular?
      && r.body.responseType == "sql"
      && r.body.sqlQuery == answer.sqlQuery
      && r.body.tableBody == encode(UserDataStyle + render(answer.result).html)
      && r.body.csvData == render(answer.result).csv
      && r.body.analysisStatement == ExtractAnalysis(Some(JObj(answer.analysis))).statement
      && r.body.analysisPlot == ExtractAnalysis(Some(JObj(answer.analysis))).plot
      && r.body.result == render(answer.result).records
    ensures !r.Status400?
  {
    match answer
    case Raised => Status500
    case Reply(t, out) => if t == "conversation" then Status200(Passed(t, Some(out))) else Status500
    case SqlAnswer(sql, _, frame, analysis) =>
      Status200(TabularBody("sql", sql, frame, Some(JObj(analysis)), UserDataStyle, render, encode))
  }

  /** `/get_user_data` passing every non-SQL answer through, refusals and errors included. */
  function ShapeUserDataCorrected(answer: Answer, render: Frame -> Renderings, encode: string -> string): (r: Response)
    ensures r.Status500? <==> answer.Raised?
    ensures answer.Reply? ==> r == Status200(Passed(answer.responseType, Some(answer.output)))
    ensures answer.SqlAnswer? ==> r == ShapeUserData(answer, render, encode)
  {
    match answer
    case Reply(t, out) => Status200(Passed(t, Some(out)))
    case _ => ShapeUserData(answer, render, encode)
  }

  /** `/get_user_data` for a request's query and chat history. */
  function GetUserData(query: string, chatHistory: Option<seq<Entry>>, model: Model, execute: Execute, analyse: Analyse,
                       render: Frame -> Renderings, encode: string -> string): (r: Response)
    ensures var chain := Chain(0, HistoryText(Window(chatHistory)), StepOf(query, model, execute, analyse));
      r == ShapeUserData(chain.answer, render, encode)
    ensures var chain := Chain(0, HistoryText(Window(chatHistory)), StepOf(query, model, execute, analyse));
      chain.answer == Exhausted ==> r == Status500
  {
    ShapeUserData(Chain(0, HistoryText(Window(chatHistory)), StepOf(query, model, execute, analyse)).answer, render, encode)
  }

  /** What a chat page reads from a 200 response body: absent keys are `undefined`. */
  function PayloadOf(b: Body): (p: Payload)
    ensures b.Passed? ==> p.output == b.output && p.sqlQuery.None? && p.tableBody.None? && p.csvData.None?
    ensures b.Tabular? ==> p.output.None? && p.sqlQuery == Some(b.sqlQuery) && p.tableBody == Some(b.tableBody)
                           && p.csvData == Some(b.csvData)
    ensures b.Tabular? ==> p.analysisStatement == Some(b.analysisStatement) && p.analysisPlot == Some(b.analysisPlot)
    ensures b.Passed? ==> p.analysisStatement.None? && p.analysisPlot.None?
    ensures p.responseType == Some(b.responseType)
  {
    match b
    case Passed(t, out) => Payload(out, None, None, None, Some(t), None, None)
    case Tabular(t, _, sql, table, statement, plot, csv) =>
      Payload(None, Some(sql), Some(csv), Some(table), Some(t), Some(statement), Some(plot))
  }

  /** A page throws on any non-2xx status, which its `catch` turns into the failure message. */
  function ReplyOf(r: Response): (reply: Reply)
    ensures reply.Delivered? <==> r.Status200?
    ensures r.Status200? ==> reply.data == PayloadOf(r.body)
  {
    if r.Status200? then Delivered(PayloadOf(r.body)) else Failed
  }

  /**
    As written, a refusal the model gives for an inappropriate question never reaches the
    chat: the server errors and the page shows the connection-failure message instead.
   */
  lemma RefusalShownAsConnectionFailure(refusal: string, render: Frame -> Renderings, encode: string -> string,
                                        parse: string -> Option<Json>, stamp: Stamp)
    ensures var r := ShapeUserData(Reply("unauthorized", refusal), render, encode);
      && r == Status500
      && ReplyMessage(Durable, ReplyOf(r), parse, stamp) == ErrorMessage(stamp)
      && ErrorMessage(stamp).content == Some(FailureText)
  {
  }

  /** With every non-SQL answer passed through, the chat shows a non-empty refusal as it is. */
  lemma RefusalShownCorrected(responseType: string, text: string, render: Frame -> Renderings,
                              encode: string -> string, parse: string -> Option<Json>, stamp: Stamp)
    requires text != ""
    ensures var m := ReplyMessage(Durable, ReplyOf(ShapeUserDataCorrected(Reply(responseType, text), render, encode)), parse, stamp);
      m.role == Assistant && m.content == Some(text)
  {
    var p := PayloadOf(Passed(responseType, Some(text)));
    assert AssistantMessage(p, stamp, parse, true).Some?;
  }

  /**
    A SQL answer reaches the chat as an assistant message showing the SQL text (there is no
    `output` field) and the HTML table, provided the table body decodes back to the HTML.
   */
  lemma SqlAnswerShowsTable(answer: Answer, render: Frame -> Renderings, encode: string -> string,
                            parse: string -> Option<Json>, stamp: Stamp)
    requires answer.SqlAnswer?
    requires var html := UserDataStyle + render(answer.result).html;
      encode(html) != "" && parse(encode(html)) == Some(JStr(html))
    ensures var m := ReplyMessage(Durable, ReplyOf(ShapeUserData(answer, render, encode)), parse, stamp);
      && m.role == Assistant
      && m.content == Some(answer.sqlQuery)
      && m.sqlQuery == Some(answer.sqlQuery)
      && m.table == Some(JStr(UserDataStyle + render(answer.result).html))
  {
    var p := PayloadOf(ShapeUserData(answer, render, encode).body);
    assert AssistantMessage(p, stamp, parse, true).Some?;
  }

  /**
    A graph the analyser attached reaches the `/get_user_data` response as its analysis plot
    when the renderer returned a dictionary with an image.
   */
  lemma RenderedGraphReachesPlot(parsed: map<string, Json>, graph: map<string, Json>,
                                 sql: string, explanation: string, frame: Frame,
                                 render: Frame -> Renderings, encode: string -> string)
    requires "image" in graph && PyTruthy(graph["image"])
    ensures ExtractAnalysis(Some(JObj(parsed["graph_plots" := JObj(graph)]))).plot == JObj(graph)
    ensures var r := ShapeUserData(SqlAnswer(sql, explanation, frame, parsed["graph_plots" := JObj(graph)]), render, encode);
      r.Status200? && r.body.Tabular? && r.body.analysisPlot == JObj(graph)
  {
    assert "graph_plots" in parsed["graph_plots" := JObj(graph)];
  }

  /** An analysis dictionary without a `graph_plots` entry yields no plot, whatever else it holds. */
  lemma NoGraphNoPlot(fields: map<string, Json>)
    requires "graph_plots" !in fields
    ensures ExtractAnalysis(Some(JObj(fields))).plot == JStr("")
  {
  }

  /**
    A large result whose analysis chain or renderer failed still answers with the fixed
    analysis text and no plot.
   */
  lemma FailedAnalysisText(f: Frame, summary: Option<string>,
                           model: OutputAnalysis.AnalysisInput -> Option<map<string, Json>>,
                           render: (OutputAnalysis.AnalysisInput, map<string, Json>) -> Option<Json>)
    requires f.rows > OutputAnalysis.WholeFrameRows && summary.Some?
    requires OutputAnalysis.ChainFailed(OutputAnalysis.InputFor(f, summary).value, model, render)
    ensures var r := OutputAnalysis.Analyse(f, summary, model, render);
      && r.Analysis?
      && ExtractAnalysis(Some(JObj(r.fields))) == Extracted(JStr(OutputAnalysis.AnalysisFailedText), JStr(""))
  {
    NoGraphNoPlot(OutputAnalysis.FailedAnalysis);
  }

  /** A multipart form: the uploaded file's bytes (if a file was sent) and the `json_data` text. */
  datatype Form = Form(multipart: bool, file: Option<seq<byte>>, jsonData: Option<string>)

  /** The frame handed to the CSV chain: `""` when the request was not multipart. */
  datatype Source = NoSource | Loaded(frame: Frame)

  /** The CSV chain's inputs: the frame, the `query` and the `chat_history` values. */
  datatype Inputs = Inputs(source: Source, query: Json, chatHistory: Json)

  /**
    Reading the form. `parse` is `json.loads`, `decode` UTF-8 decoding and `readCsv`
    `pandas.read_csv`; `None` from any of them is an exception. An uploaded file takes
    precedence over a `csv_data` text; with neither the answer is a 400.
   */
  function ResolveCsv(form: Form, parse: string -> Option<Json>, decode: seq<byte> -> Option<string>,
                      readCsv: string -> Option<Frame>): (r: Result<Inputs, Response>)
    ensures !form.multipart ==> r == Ok(Inputs(NoSource, JStr(""), JStr("")))
    ensures r.Err? ==> r.error == Status500 || r.error == Status400(NoCsvText)
    ensures form.multipart && (form.jsonData.None? || parse(form.jsonData.value).None?) ==> r == Err(Status500)
    ensures form.multipart && r.Ok? ==>
      && form.jsonData.Some?
      && parse(form.jsonData.value).Some? && parse(form.jsonData.value).value.JObj?
      && var fields := parse(form.jsonData.value).value.fields;
      && r.value.query == DictGet(fields, "query", JNull)
      && r.value.chatHistory == DictGet(fields, "chat_history", JArr([]))
      && r.value.source.Loaded?
      && (form.file.Some? ==> decode(form.file.value).Some? && readCsv(decode(form.file.value).value) == Some(r.value.source.frame))
      && (form.file.None? ==>
            var csvData := DictGet(fields, "csv_data", JNull);
            csvData.JStr? && readCsv(csvData.s) == Some(r.value.source.frame))
    ensures r == Err(Status400(NoCsvText)) <==>
      && form.multipart && form.file.None? && form.jsonData.Some?
      && parse(form.jsonData.value).Some? && parse(form.jsonData.value).value.JObj?
      && !PyTruthy(DictGet(parse(form.jsonData.value).value.fields, "csv_data", JNull))
  {
    if !form.multipart then Ok(Inputs(NoSource, JStr(""), JStr("")))
    else if form.jsonData.None? then Err(Status500)
    else
      match parse(form.jsonData.value)
      case None => Err(Status500)
      case Some(json) =>
        if !json.JObj? then Err(Status500)
        else
          var query := DictGet(json.fields, "query", JNull);
          var chatHistory := DictGet(json.fields, "chat_history", JArr([]));
          var text: Result<string, Response> :=
            if form.file.Some? then
              (match decode(form.file.value)
               case None => Err(Status500)
               case Some(t) => Ok(t))
            else
              var csvData := DictGet(json.fields, "csv_data", JNull);
              if !PyTruthy(csvData) then Err(Status400(NoCsvText))
              else if !csvData.JStr? then Err(Status500)
              else Ok(csvData.s);
          match text
          case Err(resp) => Err(resp)
          case Ok(t) =>
            match readCsv(t)
            case None => Err(Status500)
            case Some(frame) => Ok(Inputs(Loaded(frame), query, chatHistory))
  }

  /**
    The instant-analysis page never puts `csv_data` in `json_data`, so a request it sends
    without a file (the stored copy failed to decode) is always answered with a 400, which
    the page shows as the connection-failure message.
   */
  lemma FilelessInstantRequestRejected(form: Form, parse: string -> Option<Json>, decode: seq<byte> -> Option<string>,
                                       readCsv: string -> Option<Frame>, query: string, history: Json,
                                       parsePayload: string -> Option<Json>, stamp: Stamp)
    requires form.multipart && form.file.None? && form.jsonData.Some?
    requires parse(form.jsonData.value) == Some(JObj(map["query" := JStr(query), "chat_history" := history]))
    ensures ResolveCsv(form, parse, decode, readCsv) == Err(Status400(NoCsvText))
    ensures ReplyMessage(TabSession, ReplyOf(Status400(NoCsvText)), parsePayload, stamp) == ErrorMessage(stamp)
  {
    assert "csv_data" !in map["query" := JStr(query), "chat_history" := history];
  }

  /**
    What the CSV chain returns (the chain is not part of this model): its fields, each
    `None` when the key is absent, or an exception.
   */
  datatype CsvOutput =
    | CsvOutput(responseType: Option<string>, output: Option<string>, sqlQuery: Option<string>,
                sqlResult: Option<Frame>, analysis: Option<Json>)
    | CsvRaised

  /** `output['analysis']['analysis'] if output['analysis'] else ""` raises. */
  predicate AnalysisLookupRaises(analysis: Option<Json>) {
    analysis.None? || (PyTruthy(analysis.value) && !(analysis.value.JObj? && "analysis" in analysis.value.fields))
  }

  /** A CSV-chain output that is not a conversation and has everything the table body needs. */
  predicate CompleteSqlOutput(o: CsvOutput) {
    && o.CsvOutput? && o.responseType.Some? && o.responseType.value != "conversation"
    && o.sqlResult.Some? && o.sqlQuery.Some? && !AnalysisLookupRaises(o.analysis)
  }

  /**
    `/get_csv_data` after the chain: a conversation is passed through; otherwise the
    result frame, the analysis lookup (whose value is then discarded) and the SQL text must
    all be present, or the handler raises.
   */
  function ShapeCsv(o: CsvOutput, render: Frame -> Renderings, encode: string -> string): (r: Response)
    ensures !r.Status400?
    ensures r.Status500? <==>
      o.CsvRaised? || o.responseType.None?
      || (o.responseType != Some("conversation") && (o.sqlResult.None? || AnalysisLookupRaises(o.analysis) || o.sqlQuery.None?))
    ensures o.CsvOutput? && o.responseType == Some("conversation") ==> r == Status200(Passed("conversation", o.output))
    ensures r.Status200? && r.body.Tabular? ==>
      && o.CsvOutput? && o.sqlResult.Some? && o.sqlQuery.Some? && o.responseType.Some?
      && r.body.responseType == o.responseType.value
      && r.body.tableBody == encode(CsvStyle + render(o.sqlResult.value).html)
      && r.body.analysisStatement == ExtractAnalysis(o.analysis).statement
      && r.body.analysisPlot == ExtractAnalysis(o.analysis).plot
      && r.body.sqlQuery == o.sqlQuery.value
      && r.body.csvData == render(o.sqlResult.value).csv
      && r.body.result == render(o.sqlResult.value).records
    ensures CompleteSqlOutput(o) ==> r.Status200? && r.body.Tabular?
  {
    match o
    case CsvRaised => Status500
    case CsvOutput(responseType, output, sqlQuery, sqlResult, analysis) =>
      if responseType.None? then Status500
      else if responseType.value == "conversation" then Status200(Passed(responseType.value, output))
      else if sqlResult.None? || AnalysisLookupRaises(analysis) || sqlQuery.None? then Status500
      else Status200(TabularBody(responseType.value, sqlQuery.value, sqlResult.value, analysis, CsvStyle, render, encode))
  }

  /**
    A complete SQL output of the CSV chain reaches the instant page as an assistant message
    showing the SQL text, the HTML table and the analysis text, with no plot, provided the
    table body decodes back to the HTML.
   */
  lemma CsvSqlShowsTable(o: CsvOutput, render: Frame -> Renderings, encode: string -> string,
                         parse: string -> Option<Json>, stamp: Stamp)
    requires CompleteSqlOutput(o)
    requires var html := CsvStyle + render(o.sqlResult.value).html;
      encode(html) != "" && parse(encode(html)) == Some(JStr(html))
    ensures var m := ReplyMessage(TabSession, ReplyOf(ShapeCsv(o, render, encode)), parse, stamp);
      && m.role == Assistant
      && m.content == Some(o.sqlQuery.value)
      && m.sqlQuery == o.sqlQuery
      && m.table == Some(JStr(CsvStyle + render(o.sqlResult.value).html))
      && m.analysisStatement == Some(ExtractAnalysis(o.analysis).statement)
      && m.analysisPlot.None?
  {
    var p := PayloadOf(ShapeCsv(o, render, encode).body);
    assert AssistantMessage(p, stamp, parse, false).Some?;
  }

  /** `/get_csv_data`: resolve the form, run the CSV chain, shape its output. */
  function GetCsvResults(form: Form, parse: string -> Option<Json>, decode: seq<byte> -> Option<string>,
                         readCsv: string -> Option<Frame>, csvChain: Inputs -> CsvOutput,
                         render: Frame -> Renderings, encode: string -> string): (r: Response)
    ensures ResolveCsv(form, parse, decode, readCsv).Err? ==> r == ResolveCsv(form, parse, decode, readCsv).error
    ensures ResolveCsv(form, parse, decode, readCsv).Ok? ==>
      r == ShapeCsv(csvChain(ResolveCsv(form, parse, decode, readCsv).value), render, encode)
    ensures r.Status400? ==> r.error == NoCsvText && form.file.None?
  {
    match ResolveCsv(form, parse, decode, readCsv)
    case Err(resp) => resp
    case Ok(inputs) => ShapeCsv(csvChain(inputs), render, encode)
  }
}
