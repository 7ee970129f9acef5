/**
  The chat data model of the browser client: messages, the backend payload as the client
  receives it, the request it sends, and the mapping from a payload to an assistant message.
 */
module Chat {
  import opened Wrappers
  import opened JsonValues

  /** The closed set of message roles; rendering is keyed on it. */
  datatype Role = User | Assistant | Error

  function RoleName(r: Role): string {
    match r
    case User => "user"
    case Assistant => "assistant"
    case Error => "error"
  }

  /**
    The backend response after `response.json()`. A `None` field is absent (`undefined`).
    `tableBody` is `data.table?.body`; `analysisStatement` and `analysisPlot` are carried
    verbatim, whatever JSON value the backend put there.
   */
  datatype Payload = Payload(
    output: Option<string>,
    sqlQuery: Option<string>,
    csvData: Option<string>,
    tableBody: Option<string>,
    responseType: Option<string>,
    analysisStatement: Option<Json>,
    analysisPlot: Option<Json>)

  /**
    One chat turn. `content` is `None` when the backend supplied neither `output` nor
    `sql_query`; the optional fields are only ever set on assistant messages.
   */
  datatype Message = Message(
    id: string,
    role: Role,
    content: Option<string>,
    timestamp: int,
    sqlQuery: Option<string>,
    table: Option<Json>,
    chart: Option<Payload>,
    analysisStatement: Option<Json>,
    analysisPlot: Option<Json>)

  type History = seq<Message>

  /** A stored session; `None` is the `null` a JavaScript array hole serialises to. */
  type Slot = Option<History>

  /** The `Date.now()` identifier and the creation time of a new message. */
  datatype Stamp = Stamp(id: string, time: int)

  /** `MAX_MESSAGES`, the per-session cap. */
  const MaxMessages: nat := 10

  const FailureText: string :=
    "Failed to connect to the server. Please ensure it is running at http://127.0.0.1:8000"

  const VisualizationType: string := "visualization"

  /** JavaScript truthiness of a string-valued field. */
  predicate Truthy(s: Option<string>) {
    s.Some? && s.value != ""
  }

  /** The message a submitted query becomes: the user's text as typed, with nothing attached. */
  function UserMessage(query: string, stamp: Stamp): (m: Message)
    ensures m.role == User && m.content == Some(query)
    ensures m.id == stamp.id && m.timestamp == stamp.time
    ensures m.sqlQuery.None? && m.table.None? && m.chart.None?
    ensures m.analysisStatement.None? && m.analysisPlot.None?
  {
    Message(stamp.id, User, Some(query), stamp.time, None, None, None, None, None)
  }

  /** The message a failed request becomes: the fixed connection-failure text, with nothing attached. */
  function ErrorMessage(stamp: Stamp): (m: Message)
    ensures m.role == Error && m.content == Some(FailureText)
    ensures m.id == stamp.id && m.timestamp == stamp.time
    ensures m.sqlQuery.None? && m.table.None? && m.chart.None?
    ensures m.analysisStatement.None? && m.analysisPlot.None?
  {
    Message(stamp.id, Error, Some(FailureText), stamp.time, None, None, None, None, None)
  }

  /** One entry of the `chat_history` request field: a message reduced to role and content. */
  datatype Turn = Turn(role: Role, content: Option<string>)

  /** `messageHistory.map(msg => ({role: msg.role, content: msg.content}))`. */
  function Project(h: History): (t: seq<Turn>)
    ensures |t| == |h|
    ensures forall i :: 0 <= i < |h| ==> t[i].role == h[i].role && t[i].content == h[i].content
  {
    seq(|h|, i requires 0 <= i < |h| => Turn(h[i].role, h[i].content))
  }

  /**
    The assistant message built from a backend payload. `parse` stands for `JSON.parse` of
    the table body; `None` from it is a thrown `SyntaxError`, which makes the whole mapping
    fail (the caller's `catch` then appends an error message). `carryPlot` is false in the
    instant-analysis flow, which has no `analysisPlot` field.
   */
  function AssistantMessage(data: Payload, stamp: Stamp, parse: string -> Option<Json>,
                            carryPlot: bool): (r: Option<Message>)
    ensures r.None? <==> Truthy(data.tableBody) && parse(data.tableBody.value).None?
    ensures r.Some? ==> r.value.role == Assistant && r.value.id == stamp.id
    ensures r.Some? && Truthy(data.output) ==> r.value.content == data.output
    ensures r.Some? && !Truthy(data.output) ==> r.value.content == data.sqlQuery
    ensures r.Some? ==> r.value.sqlQuery == data.sqlQuery
    ensures r.Some? ==> (r.value.chart.Some? <==> data.responseType == Some(VisualizationType))
    ensures r.Some? && r.value.chart.Some? ==> r.value.chart.value == data
    ensures r.Some? && Truthy(data.tableBody) ==> r.value.table == parse(data.tableBody.value)
    ensures r.Some? && !Truthy(data.tableBody) ==> r.value.table.None?
    ensures r.Some? ==> r.value.analysisStatement == data.analysisStatement
    ensures r.Some? ==> r.value.analysisPlot == (if carryPlot then data.analysisPlot else None)
  {
    var table: Option<Option<Json>> :=
      if Truthy(data.tableBody) then
        (match parse(data.tableBody.value)
         case None => None
         case Some(v) => Some(Some(v)))
      else Some(None);
    if table.None? then None
    else
      Some(Message(
        stamp.id,
        Assistant,
        if Truthy(data.output) then data.output else data.sqlQuery,
        stamp.time,
        data.sqlQuery,
        table.value,
        if data.responseType == Some(VisualizationType) then Some(data) else None,
        data.analysisStatement,
        if carryPlot then data.analysisPlot else None))
  }
}
