/**
  The chat box and message list: the submit guard and busy bracket around the page's
  query handler, the text a message shows, the windowed data table under an assistant
  message, and the CSV export button.
 */
module ChatView {
  import opened Wrappers
  import opened JsonValues
  import opened Strings
  import opened Chat
  import opened Submission

  /** The chat box's own state: the typed text, the chosen file, its busy flag and the table window. */
  datatype Box = Box(input: string, file: Option<LocalFile>, busy: bool, loadedRows: nat)

  /** The rows shown before any "load more": `useState(150)`. */
  const InitialRows: nat := 150

  function FreshBox(): Box {
    Box("", None, false, InitialRows)
  }

  /** How the page's query handler finished: it returned, or it threw. */
  datatype Completion = Returned | Threw

  /**
    A form submission: ignored for a blank input; otherwise the handler is called with the
    input as typed (not trimmed) and the chosen file, with the box busy meanwhile.
   */
  datatype Handled = Ignored | Called(query: string, file: Option<LocalFile>, during: Box, after: Box)

  function HandleSubmit(b: Box, completion: Completion): (r: Handled)
    ensures r.Ignored? <==> IsBlank(b.input)
    ensures r.Called? ==> r.query == b.input && r.file == b.file
    ensures r.Called? ==> r.during.busy && !r.after.busy
    ensures r.Called? && completion == Returned ==> r.after.input == "" && r.after.file.None?
    ensures r.Called? && completion == Threw ==> r.after.input == b.input && r.after.file == b.file
    ensures r.Called? ==> r.after.loadedRows == b.loadedRows
  {
    TrimEmptyIffBlank(b.input);
    if Trim(b.input) == "" then Ignored
    else
      var during := b.(busy := true);
      var after := if completion == Returned then b.(busy := false, input := "", file := None) else b.(busy := false);
      Called(b.input, b.file, during, after)
  }

  /** The send button: disabled for a blank input or while busy. */
  function SendDisabled(b: Box): (r: bool)
    ensures r <==> IsBlank(b.input) || b.busy
  {
    TrimEmptyIffBlank(b.input);
    Trim(b.input) == "" || b.busy
  }

  /** Whenever the send button is enabled, submitting calls the handler. */
  lemma EnabledSendCalls(b: Box, completion: Completion)
    requires !SendDisabled(b)
    ensures HandleSubmit(b, completion).Called?
  {
  }

  /** The welcome screen shows only for an empty session with nothing in flight. */
  function ShowsWelcome(messages: History, b: Box): bool {
    |messages| == 0 && !b.busy
  }

  const ResultsText: string := "Here are your results"

  /**
    The text in a message bubble: the fixed results line when the SQL text equals the
    content (including when both are absent), otherwise the content.
   */
  function DisplayText(m: Message): (r: Option<string>)
    ensures m.sqlQuery == m.content ==> r == Some(ResultsText)
    ensures m.sqlQuery != m.content ==> r == m.content
  {
    if m.sqlQuery == m.content then Some(ResultsText) else m.content
  }

  /** A user's bubble always shows the query exactly as sent. */
  lemma UserBubbleShowsQuery(query: string, stamp: Stamp)
    ensures DisplayText(UserMessage(query, stamp)) == Some(query)
  {
  }

  /**
    An assistant bubble shows the results line when the backend sent no output text, and the
    output text when it differs from the SQL text.
   */
  lemma AssistantBubbleText(data: Payload, stamp: Stamp, parse: string -> Option<Json>, carryPlot: bool)
    requires AssistantMessage(data, stamp, parse, carryPlot).Some?
    ensures !Truthy(data.output) ==> DisplayText(AssistantMessage(data, stamp, parse, carryPlot).value) == Some(ResultsText)
    ensures Truthy(data.output) && data.output != data.sqlQuery ==>
      DisplayText(AssistantMessage(data, stamp, parse, carryPlot).value) == data.output
  {
  }

  /** The table block's footer. */
  datatype Footer = ExportButton | LoadMoreButton | NoFooter

  /**
    What renders for a message's `table` field: nothing for a falsy value, a thrown
    `TypeError` for a truthy non-string (it has no `split`), else the windowed rows.
   */
  datatype TableBlock = NoTable | TableCrash | Table(display: string, footer: Footer)

  function Min(a: int, b: int): int {
    if a <= b then a else b
  }

  function RenderTable(table: Option<Json>, loadedRows: nat): (r: TableBlock)
    ensures r.NoTable? <==> table.None? || !JsTruthy(table.value)
    ensures r.TableCrash? <==> table.Some? && JsTruthy(table.value) && !table.value.JStr?
    ensures r.Table? ==>
      var rows := Split(table.value.s, "\n");
      && r.display == Join(rows[..Min(loadedRows, |rows|)], "\n")
      && (r.footer == ExportButton <==> |rows| > 1)
      && (r.footer == LoadMoreButton <==> |rows| <= 1 && |rows| > loadedRows)
  {
    if table.None? || !JsTruthy(table.value) then NoTable
    else if !table.value.JStr? then TableCrash
    else
      var rows := Split(table.value.s, "\n");
      var shown := Join(rows[..Min(loadedRows, |rows|)], "\n");
      Table(shown, if |rows| > 1 then ExportButton else if |rows| > loadedRows then LoadMoreButton else NoFooter)
  }

  /** "Load more": `Math.min(prev + 50, totalRows)`. */
  function LoadMore(loadedRows: nat, totalRows: nat): (r: nat)
    ensures r <= totalRows
    ensures loadedRows + 50 <= totalRows ==> r == loadedRows + 50
    ensures loadedRows + 50 > totalRows ==> r == totalRows
  {
    Min(loadedRows + 50, totalRows)
  }

  /** The first `n` rows joined back are a prefix of the table text. */
  lemma {:induction false} JoinedRowsArePrefix(s: string, sep: string, n: nat)
    requires |sep| > 0
    requires n <= |Split(s, sep)|
    ensures IsPrefix(Join(Split(s, sep)[..n], sep), s)
    decreases |s|
  {
    if n == 0 {
      JoinedNoRows(s, sep);
    } else if FindFrom(s, sep, 0).None? {
      JoinedWholeText(s, sep, n);
    } else {
      var i := FindFrom(s, sep, 0).value;
      if n == 1 {
        JoinedFirstRow(s, sep, i);
      } else {
        JoinedRowsArePrefix(s[i + |sep|..], sep, n - 1);
        JoinedRowsCons(s, sep, i, n);
      }
    }
  }

  lemma JoinedNoRows(s: string, sep: string)
    requires |sep| > 0
    ensures IsPrefix(Join(Split(s, sep)[..0], sep), s)
  {
    assert Split(s, sep)[..0] == [];
  }

  lemma JoinedWholeText(s: string, sep: string, n: nat)
    requires |sep| > 0
    requires FindFrom(s, sep, 0).None? && 1 <= n <= |Split(s, sep)|
    ensures IsPrefix(Join(Split(s, sep)[..n], sep), s)
  {
    assert Split(s, sep) == [s];
    assert Split(s, sep)[..n] == [s];
  }

  lemma JoinedFirstRow(s: string, sep: string, i: nat)
    requires |sep| > 0
    requires FindFrom(s, sep, 0) == Some(i)
    ensures 1 <= |Split(s, sep)|
    ensures IsPrefix(Join(Split(s, sep)[..1], sep), s)
  {
    SplitAt(s, sep, i);
    assert Split(s, sep)[..1] == [s[..i]];
  }

  /** The inductive step: the first row and its separator, then the prefix of the rest. */
  lemma JoinedRowsCons(s: string, sep: string, i: nat, n: nat)
    requires |sep| > 0
    requires FindFrom(s, sep, 0) == Some(i)
    requires 2 <= n <= |Split(s, sep)|
    requires IsPrefix(Join(Split(s[i + |sep|..], sep)[..n - 1], sep), s[i + |sep|..])
    ensures IsPrefix(Join(Split(s, sep)[..n], sep), s)
  {
    var rest := s[i + |sep|..];
    var tail := Split(rest, sep);
    SplitAt(s, sep, i);
    assert Split(s, sep)[..n] == [s[..i]] + tail[..n - 1];
    JoinCons(s[..i], tail[..n - 1], sep);
    PrefixAfter(s[..i] + sep, Join(tail[..n - 1], sep), rest);
  }

  /** One step of a split: the piece before the first separator, then the split of the rest. */
  lemma SplitAt(s: string, sep: string, i: nat)
    requires |sep| > 0
    requires FindFrom(s, sep, 0) == Some(i)
    ensures Split(s, sep) == [s[..i]] + Split(s[i + |sep|..], sep)
    ensures s == s[..i] + sep + s[i + |sep|..]
  {
    assert s[i..i + |sep|] == sep;
    assert s == s[..i] + s[i..i + |sep|] + s[i + |sep|..];
  }

  lemma PrefixAfter(a: string, p: string, s: string)
    requires IsPrefix(p, s)
    ensures IsPrefix(a + p, a + s)
  {
    assert (a + s)[..|a + p|] == a + s[..|p|];
  }

  /**
    The shown rows are always a prefix of the table text, and the whole text once the
    window covers every row.
   */
  lemma ShownRowsPrefix(table: string, loadedRows: nat)
    ensures var r := RenderTable(Some(JStr(table)), loadedRows);
      r.Table? ==> IsPrefix(r.display, table)
    ensures var r := RenderTable(Some(JStr(table)), loadedRows);
      r.Table? && loadedRows >= |Split(table, "\n")| ==> r.display == table
  {
    var rows := Split(table, "\n");
    JoinedRowsArePrefix(table, "\n", Min(loadedRows, |rows|));
    if loadedRows >= |rows| {
      assert rows[..|rows|] == rows;
      JoinSplit(table, "\n");
    }
  }

  /**
    The load-more button can never appear: a table has at least one row, so it needs an
    empty window, but the window starts at 150 rows and loading more never empties it.
   */
  lemma LoadMoreNeverShown(table: Option<Json>, loadedRows: nat, totalRows: nat)
    requires loadedRows >= 1
    ensures RenderTable(table, loadedRows).Table? ==> RenderTable(table, loadedRows).footer != LoadMoreButton
    ensures totalRows >= 1 ==> LoadMore(loadedRows, totalRows) >= 1
  {
  }

  /** The `csvs` list: one `{messageId: csvData}` record per export click. */
  type CsvLog = seq<map<string, Option<string>>>

  /** `csvs.find(...)`: the first record holding the message's id. */
  function FindCsv(log: CsvLog, id: string): (r: Option<Option<string>>)
    ensures r.Some? <==> exists k :: 0 <= k < |log| && id in log[k]
    ensures r.Some? ==> exists k :: 0 <= k < |log| && id in log[k] && log[k][id] == r.value
                                    && forall j :: 0 <= j < k ==> id !in log[j]
  {
    if |log| == 0 then None
    else if id in log[0] then Some(log[0][id])
    else
      var r := FindCsv(log[1..], id);
      assert forall k :: 1 <= k < |log| ==> log[k] == log[1..][k - 1];
      r
  }

  /** An export click: the log it leaves, and the CSV text downloaded (`None`: nothing, the click threw). */
  datatype Export = Export(log: CsvLog, download: Option<Option<string>>)

  /**
    `exportToCSV` as written: it queues the new record, then searches the list as it was
    before the click, so a message's first click finds nothing and throws.
   */
  function ExportAsWritten(log: CsvLog, id: string, csvData: Option<string>): (r: Export)
    ensures r.log == log + [map[id := csvData]]
    ensures r.download == FindCsv(log, id)
  {
    Export(log + [map[id := csvData]], FindCsv(log, id))
  }

  /** The first export click on a message downloads nothing; only a second click does. */
  lemma FirstExportClickThrows(id: string, csv: string)
    ensures ExportAsWritten([], id, Some(csv)).download.None?
    ensures var first := ExportAsWritten([], id, Some(csv));
      ExportAsWritten(first.log, id, Some(csv)).download == Some(Some(csv))
  {
    var first := ExportAsWritten([], id, Some(csv));
    assert id in first.log[0];
  }

  /** `exportToCSV` downloading the data passed to it: every click downloads the current CSV text. */
  function ExportCorrected(log: CsvLog, id: string, csvData: Option<string>): (r: Export)
    ensures r.download == Some(csvData)
    ensures r.log == log + [map[id := csvData]]
  {
    Export(log + [map[id := csvData]], Some(csvData))
  }
}
