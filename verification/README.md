# Phaser chat: a Dafny model

Phaser is a natural-language front end to a retail database. The repository has three parts.

The browser client has two chat pages:
- the main page sends questions to `/get_user_data` and keeps its sessions in local storage;
- the instant-analysis page sends questions together with a CSV file to `/get_csv_data` and keeps its sessions in tab-session storage.

The Python backend turns a question into SQL with a language model. It retries failing SQL with the error appended to the prompt, analyses the result, and reshapes it into the response the pages read.

A landing page has four small widgets: a tutorial carousel, an FAQ accordion, a table selector and a simulated file upload.

This project models the parts of all three that decide what happens:
- the session controller both pages share: new chat, switching chats, the storage sync effect, and the ten-message cap;
- the submission protocol and the mapping from backend payload to message;
- the chat box, the message list and the sidebar;
- history windowing and the bounded retry chain;
- the chart-type rules and the guards of the visualization and insight builders;
- result truncation and the analysis branch;
- the shaping of both endpoints' responses;
- reassembly of the warehouse key;
- the four widgets.

Everything the code does not compute itself is a function parameter: the language model, SQL execution, graph rendering, `JSON.parse`, base64 conversion, CSV reading. React effects are modelled in the order React runs them.

Modules, one per file:
- `Wrappers`, `JsonValues`, `Strings`, `Frames`: shared foundations.
- `Chat`: messages and payloads.
- `Sessions`: the session controller.
- `Submission`: the submission protocol shared by both pages.
- `AppPage` and `InstantPage`: the two pages as event-driven state machines.
- `ChatView` and `Sidebar`: the chat box, message list and session list.
- `Bedrock`: the text-to-SQL chain.
- `OutputAnalysis` and `OutputFormatter`: analysis, chart type, visualization and insights.
- `Api`: the two endpoints.
- `PemKey`: warehouse key reassembly.
- `Widgets`: the landing-page widgets.

Two behaviours of the code that a user might not expect, each modelled as written:
- After a failed request, the main page leaves its loading flag set (finding 4).
- A reload does not restore the current session index (finding 3).

## Model

| member | source | states |
|---|---|---|
| JsonValues.DictGet | backend/app/main.py:48 | `dict.get` yields the stored value for a present key and the default for an absent one |
| JsonValues.Field | frontend/src/App.tsx:111-117 | reading a property of a parsed object is defined exactly when the key is present, and then gives its value |
| JsonValues.TruthinessDiffersOnlyOnEmptyContainers | backend/app/main.py:46 | Python's and JavaScript's truthiness disagree on exactly two values: the empty list and the empty dictionary |
| Strings.Find | backend/src/output_formmater.py:37 | the left-to-right scan finds a match exactly when the substring occurs, at a position where it occurs |
| Strings.Lower | backend/src/output_formmater.py:37 | lower-casing keeps the length and maps every character independently |
| Strings.Upper | backend/src/bedrock.py:60 | upper-casing keeps the length and maps every character independently |
| Strings.Inner | backend/src/connection.py:43 | `s[1:-1]` drops exactly the first and last characters, and gives "" for strings shorter than two |
| Strings.JoinSplit | frontend/src/components/ChatInterface.jsx:93-95 | joining the pieces of a split with the same separator rebuilds the original text |
| Strings.SplitPiecesAvoidSeparator | backend/src/connection.py:45 | no piece of a split contains the separator |
| Strings.SplitJoin | frontend/src/components/ChatInterface.jsx:93 | splitting a join at a one-character separator that no piece contains gives the pieces back |
| Strings.TrimEmptyIffBlank | frontend/src/components/ChatInterface.jsx:63 | `trim()` yields "" exactly when every character is JavaScript white space |
| Strings.NatToString | backend/src/output_formmater.py:250 | `str(n)` is a non-empty string of decimal digits |
| Strings.NatToStringValue | backend/src/output_formmater.py:250 | the digits of `str(n)` denote n, with no leading zero for a positive n |
| Frames.CountKind | backend/src/output_formmater.py:40-43 | the count of columns of a kind is at most the column count, and is zero exactly when no column has that kind |
| Frames.OfKind | backend/src/output_formmater.py:40 | `select_dtypes` lists as many columns as the count of that kind, each of that kind and from the frame |
| OutputFormatter.DetectChartType | backend/src/output_formmater.py:51-68 | the result is always one of the six chart names; a firing keyword rule never yields pie or table; a trend query on dated numeric data always yields line |
| OutputFormatter.PieIff | backend/src/output_formmater.py:59-60 | pie is chosen exactly for two columns, one numeric and one categorical, when no keyword rule fires |
| OutputFormatter.TableIff | backend/src/output_formmater.py:61-68 | table is chosen exactly when there is no numeric column, or one numeric column with no date-like column, no categorical column and no distribution keyword |
| OutputFormatter.KeywordsIgnoreCase | backend/src/output_formmater.py:51-57 | the letter case of the query never changes the chart chosen |
| OutputFormatter.CreateVisualization | backend/src/output_formmater.py:70-196 | an empty frame gives chart type none with the no-data message; a pie without a categorical or numeric column, or any plotting failure, falls back to table with an error and no image, keeping the Plotly figure exactly when the failure came after it was built; otherwise a requested line, bar, histogram, scatter or pie chart is kept and any other type becomes a table, with an image unless it is a table, and with a figure exactly when the chart branch's guard passes |
| OutputFormatter.DetectedChartDrawn | backend/src/output_formmater.py:91-178 | every chart the detector picks for a non-empty frame is drawn as that chart, with a figure and an image, unless plotting itself fails |
| OutputFormatter.Take | backend/src/output_formmater.py:255 | `insights[:5]` is a prefix of the list, of length at most five |
| OutputFormatter.GenerateInsights | backend/src/output_formmater.py:210-255 | an empty frame gives the single fixed message; otherwise the result is the first five computed lines, in order, or all of them when there are at most five, ending with the error line when it fits |
| OutputFormatter.SummaryLastWhenFits | backend/src/output_formmater.py:216-255 | when every computed line fits, the column lines come first and the dataset summary is the last insight |
| OutputAnalysis.Truncate | backend/src/output_analysis.py:17-19 | text that fits is unchanged; longer text becomes exactly max_length characters plus "..."; the result is never longer than max_length + 3 |
| OutputAnalysis.TruncateKeepsPrefix | backend/src/output_analysis.py:19 | the truncated text starts with as much of the input as fits |
| OutputAnalysis.TruncateUnchangedIff | backend/src/output_analysis.py:17-19 | truncation leaves a text unchanged exactly when it fits, or is already max_length characters followed by "..." |
| OutputAnalysis.InputFor | backend/src/output_analysis.py:80-100 | results of at most 100 rows go to the model whole; a larger one goes as its summary, truncated to 1000 characters plus "...", and has no input at all when the summary cannot be serialised |
| OutputAnalysis.VisualizationData | backend/src/output_analysis.py:84-88 | the recommendation has exactly three keys, each the parsed value or its default |
| OutputAnalysis.Analyse | backend/src/output_analysis.py:80-120 | a large result whose summary cannot be serialised raises before the `try`; otherwise a large result never raises, and a chain or renderer failure gives the fixed analysis dictionary; a small result raises exactly when the chain or the recommended render fails; on success the parsed fields are kept and `graph_plots` is added exactly when a graph is recommended |
| OutputAnalysis.GraphAttachedOnlyWhenRecommended | backend/src/output_analysis.py:89-92 | without a recommendation the parsed output is returned as it is; a new `graph_plots` key implies a recommendation; a recommendation with a successful render attaches one |
| OutputAnalysis.StringTrueNotRecommended | backend/src/output_analysis.py:89 | the string "true" is not `True`, so it draws no graph |
| PemKey.RFind | backend/src/connection.py:52 | `rfind` returns the last index holding the character, or -1 when the character does not occur |
| PemKey.SliceTo | backend/src/connection.py:52 | `s[:k]` takes k characters for a non-negative k, and counts from the end for a negative one |
| PemKey.RemoveLastLine | backend/src/connection.py:51-52 | the text before the last newline; with no newline the last character is dropped |
| PemKey.RemoveTrailingNewline | backend/src/connection.py:51-54 | removing the last line of text that ends in a newline drops just that newline |
| PemKey.Inners | backend/src/connection.py:47 | every item loses its own first and last character, in order |
| PemKey.AccumulateKey | backend/src/connection.py:44-49 | the loop builds each item's inner text followed by a newline, which is the inner texts joined by newlines plus one final newline |
| PemKey.LinesJoin | backend/src/connection.py:44-49 | the accumulated lines equal the newline join of the inner texts plus a final newline |
| PemKey.ReassembleKey | backend/src/connection.py:43-54 | the rebuilt key is the inner texts of the ", "-separated items joined by newlines, with no trailing newline |
| PemKey.SplitJoinSeparated | backend/src/connection.py:45 | splitting a join gives back the pieces when no separator starts inside any piece |
| PemKey.QuotedEndsAtSeparator | backend/src/connection.py:45-47 | a quoted line without ", " never runs into the separator |
| PemKey.ReassembleStoredSecret | backend/src/connection.py:43-54 | round trip: a key stored as a bracketed list of quoted lines comes back as those lines joined by newlines, provided no line contains ", " |
| Bedrock.Window | backend/src/bedrock.py:37-44 | a missing history reads as empty; otherwise the window is the last at most four items, and the whole history when it is that short |
| Bedrock.Memory | backend/src/bedrock.py:47-55 | the memory is empty exactly when no item has non-empty content with a user or assistant role, never holds an empty text, and has at most one item per history item |
| Bedrock.HistoryLine | backend/src/bedrock.py:58-63 | an item gives a line exactly when its role and content are both non-empty, and the line is the upper-cased role, ": ", the content and a blank line |
| Bedrock.HistoryText | backend/src/bedrock.py:58-63 | the history text is empty exactly when no item has both a role and a content; a shown first item opens it with its line, and a hidden one contributes nothing |
| Bedrock.HistoryTextOne | backend/src/bedrock.py:58-63 | one item's history text is its line; with HistoryTextAppend this fixes the text of every window |
| Bedrock.HistoryTextAppend | backend/src/bedrock.py:58-63 | the history text of two runs of items is the concatenation of their texts |
| Bedrock.MemoryAppend | backend/src/bedrock.py:47-55 | the memory of two runs of items is the concatenation of their memories |
| Bedrock.ErrorTurnInPromptNotMemory | backend/src/bedrock.py:47-63 | the failure message a page sends back reaches the prompt as an "ERROR:" line but is not put in the memory |
| Bedrock.RetryNote | backend/src/bedrock.py:195 | the retry note opens with "ai: " and the failing SQL, then the human's error lead and the exception text, and ends by asking for a fix |
| Bedrock.NextPrompt | backend/src/bedrock.py:195 | after a failed attempt the history text keeps everything before it and gains exactly the retry note for that SQL and its error |
| Bedrock.Attempt | backend/src/bedrock.py:161-203 | an attempt retries exactly when the model answers with SQL whose execution or analysis raises, and then appends the retry note; a SQL answer carries the model's text and the executed and analysed result; no attempt gives the give-up answer |
| Bedrock.Chain | backend/src/bedrock.py:154-196 | the model is called at most four times, the first time with the history text the chain starts from |
| Bedrock.ChainLinks | backend/src/bedrock.py:193-196 | every attempt but the last retried, and each history text is the one the previous attempt retried with |
| Bedrock.ChainGivesUp | backend/src/bedrock.py:154-159 | when no attempt gives up by itself, the chain gives up exactly when every remaining attempt retried |
| Bedrock.RunChain | backend/src/bedrock.py:154-203 | the retry loop computes exactly the chain's answer and the sequence of history texts the model saw |
| Bedrock.TextToSqlAndResult | backend/src/bedrock.py:25-203 | the request's answer is the chain started from the windowed and formatted chat history |
| Bedrock.AttemptsNeverGiveUp | backend/src/bedrock.py:169-203 | no single attempt yields the "unable to process" answer |
| Bedrock.ExhaustedIffFourFailures | backend/src/bedrock.py:154-196 | the "unable to process" error is returned exactly when the model was called four times and each time gave SQL that failed |
| Bedrock.AttemptsExtend | backend/src/bedrock.py:195 | a retry only appends to the history text |
| Bedrock.PromptsGrow | backend/src/bedrock.py:193-196 | every history text the model sees starts with the original one, so retries never lose context |
| Chat.Project | frontend/src/App.tsx:90-93 | `chat_history` has one entry per prior message, with its role and content |
| Chat.UserMessage | frontend/src/App.tsx:74-79 | a submitted query becomes a user message holding the text as typed, with no SQL, table, chart or analysis |
| Chat.ErrorMessage | frontend/src/App.tsx:122-128 | a failed request becomes an error message holding the fixed connection-failure text and nothing else |
| Chat.AssistantMessage | frontend/src/App.tsx:108-118 | the mapping fails exactly when a present table body does not parse; content is `output` when truthy, else `sql_query`; a chart is attached exactly for the visualization type; the plot is carried only on the main page |
| Sessions.StoreAt | frontend/src/App.tsx:30 | assigning past the end of a JavaScript array grows it, leaving null holes before the new slot; other slots are unchanged |
| Sessions.ReadSlot | frontend/src/App.tsx:60 | a missing or null slot reads as the empty history |
| Sessions.Sync | frontend/src/App.tsx:25-38 | after the sync effect the current slot holds the history, all three keys are up to date, and every other stored session is unchanged |
| Sessions.SetHistory | frontend/src/App.tsx:25-34 | a history change puts the new history in the current slot and leaves every other session as it was |
| Sessions.LoadCurrent | frontend/src/App.tsx:57-62 | changing the index loads that session, or the empty history for a missing or null slot |
| Sessions.NewChatHandler | frontend/src/App.tsx:40-50 | before its effects run, New Chat saves the history in the current slot, leaves every other slot and the other two keys as they were, empties the history and moves the index one on |
| Sessions.StartNewChat | frontend/src/App.tsx:40-55 | with an empty history nothing changes; otherwise the history is saved at the current slot, emptied, and the index moves one on (null becomes 0) |
| Sessions.SelectChat | frontend/src/App.tsx:57-62 | selecting a session loads its stored history and changes no other session; selecting the current one does nothing |
| Sessions.MountAsWritten | frontend/src/App.tsx:16-38 | a page load always starts at session 0 with the restored history, which the first sync writes over slot 0; every other stored slot is kept |
| Sessions.MountRestoring | frontend/src/App.tsx:16-21 | a load that reads the stored index resumes at it, or at 0 when none is stored |
| Sessions.FreshMountConsistent | frontend/src/App.tsx:16-38 | a first visit yields a consistent page with one empty session |
| Sessions.SetHistoryConsistent | frontend/src/App.tsx:25-34 | storing a well-formed history keeps the page consistent and the session count unchanged |
| Sessions.StartNewChatConsistent | frontend/src/App.tsx:40-55 | a new chat keeps the page consistent: no holes, and every session well formed |
| Sessions.SelectChatConsistent | frontend/src/App.tsx:57-62 | switching to a stored session keeps the page consistent and the session count unchanged |
| Sessions.MountRestoringRoundTrip | frontend/src/App.tsx:16-38 | round trip: reloading a consistent page with the index restored gives back the identical page |
| Sessions.MountAsWrittenConsistent | frontend/src/App.tsx:16-38 | a reload as written keeps the page consistent and keeps the active history |
| Sessions.MountAsWrittenOverwritesFirstSession | frontend/src/App.tsx:16-38 | as written, reloading while session 1 is current copies session 1 over session 0 |
| Sessions.StartNewChatOverwritesNextSession | frontend/src/App.tsx:40-55 | as written, a new chat from session 0 of two wipes session 1 |
| Sessions.StartNewChatAppending | frontend/src/App.tsx:40-55 | a new chat at the end keeps every stored session and appends one empty session |
| Sessions.StartNewChatAppendingConsistent | frontend/src/App.tsx:40-55 | a new chat at the end keeps the page consistent and changes no session other than the current one |
| Submission.ReplyMessage | frontend/src/App.tsx:108-129 | the reply is an assistant message exactly when the call delivered a payload that maps; otherwise it is the fixed failure message |
| Submission.Exchanged | frontend/src/App.tsx:73-129 | the request carries the history from before the query; exactly one user message and then one reply are appended; other sessions are untouched; loading stays set only on the main page after a failure |
| Submission.ExchangeKeepsWellFormed | frontend/src/App.tsx:74-120 | below the cap, an exchange keeps a session alternating query and reply, with at most ten messages |
| Submission.ExchangeConsistent | frontend/src/App.tsx:73-129 | an exchange below the cap keeps the page consistent |
| AppPage.SubmitQuery | frontend/src/App.tsx:67-130 | refused with no request exactly at ten messages; otherwise a JSON request with the prior history, then the query and one reply; as written, loading stays set exactly when the reply is an error, and the corrected handler always clears it |
| AppPage.Step | frontend/src/App.tsx:40-150 | while a request is pending, New Chat and session clicks do nothing; a click on a listed session selects it and one on an unlisted index does nothing; a query never changes the current index; a reload starts with nothing loading |
| AppPage.Run | frontend/src/components/Sidebar.jsx:9-26 | while a request is pending, any run of New Chat and session clicks leaves the page exactly as it was |
| AppPage.StepConsistent | frontend/src/App.tsx:25-62 | each user event keeps the page consistent |
| AppPage.SubmitConsistent | frontend/src/App.tsx:67-130 | a sent query keeps the page consistent |
| AppPage.RunConsistent | frontend/src/App.tsx:25-130 | any sequence of events keeps the page consistent |
| AppPage.ReachableFromFirstVisit | frontend/src/App.tsx:16-130 | from a first visit, whatever the user does, the active session alternates query and reply, holds at most ten messages, and the sidebar renders |
| AppPage.CorrectedStepKeepsOtherSessions | frontend/src/App.tsx:40-62 | with the corrected handlers, no event changes a stored session other than the current one |
| AppPage.FailedQueryLocksSidebar | frontend/src/App.tsx:122-129 | as written, a failed request leaves loading set, so New Chat and every session click are then ignored |
| InstantPage.ByteArray | frontend/src/InstantAnalysis.tsx:79-87 | one byte per character of the decoded text; byte i is character i's code modulo 256 |
| InstantPage.ByteArrayLoop | frontend/src/InstantAnalysis.tsx:81-85 | the loop builds exactly the byte array of the decoded text |
| InstantPage.Latin1 | frontend/src/InstantAnalysis.tsx:80 | the binary string has one character per byte, with that byte's code |
| InstantPage.ByteArrayLatin1 | frontend/src/InstantAnalysis.tsx:79-87 | round trip: bytes rebuilt from their binary string are the original bytes |
| InstantPage.SubmitQuery | frontend/src/InstantAnalysis.tsx:90-224 | the cap is checked first; a query is refused, with no change, exactly when the session is at the cap, a chosen file cannot be stored, or no file is chosen and none is stored for the session; a chosen file is stored for the session and sent; otherwise the stored copy is rebuilt, or the query goes without a file when decoding fails; loading is cleared on both paths |
| InstantPage.Step | frontend/src/InstantAnalysis.tsx:42-244 | while a request is pending, New Chat and session clicks do nothing; a click on a listed session selects it and one on an unlisted index does nothing; a query never changes the current index |
| InstantPage.Run | frontend/src/components/Sidebar.jsx:9-26 | while a request is pending, any run of New Chat and session clicks leaves the page exactly as it was |
| InstantPage.StoredFileResentIntact | frontend/src/InstantAnalysis.tsx:100-139 | a file stored by one query is resent byte for byte by the session's next query that chooses no file |
| InstantPage.StepConsistent | frontend/src/InstantAnalysis.tsx:27-64 | each user event keeps the page consistent and loading clear |
| InstantPage.SubmitConsistent | frontend/src/InstantAnalysis.tsx:90-224 | a sent query keeps the page consistent and loading clear |
| InstantPage.RunConsistent | frontend/src/InstantAnalysis.tsx:27-224 | any sequence of events keeps the page consistent and never leaves loading set |
| Sidebar.EntriesFrom | frontend/src/components/Sidebar.jsx:22-35 | entries are listed sessions in index order, each captioned with its first message and highlighted exactly when it is current |
| Sidebar.EntriesComplete | frontend/src/components/Sidebar.jsx:22-23 | every non-empty session at or after the start index has an entry |
| Sidebar.Render | frontend/src/components/Sidebar.jsx:9-38 | rendering crashes exactly on a null slot; the button is disabled exactly while loading; the list is absent exactly when there are no sessions |
| Sidebar.Click | frontend/src/components/Sidebar.jsx:26 | a click selects the entry's own index, except while loading |
| Sidebar.ConsistentRenders | frontend/src/components/Sidebar.jsx:20-23 | a consistent page's sidebar always renders, with its list |
| Sidebar.EntriesExactlyListed | frontend/src/components/Sidebar.jsx:22-23 | a session has an entry exactly when it is non-empty, and no index has two entries |
| ChatView.HandleSubmit | frontend/src/components/ChatInterface.jsx:61-74 | a blank input is ignored; otherwise the handler gets the input as typed with the box busy, the box is not busy afterwards even if the handler threw, and input and file are cleared only on a normal return |
| ChatView.SendDisabled | frontend/src/components/ChatInterface.jsx:331-333 | the send button is disabled exactly for a blank input or while busy |
| ChatView.EnabledSendCalls | frontend/src/components/ChatInterface.jsx:61-74 | an enabled send button always reaches the handler |
| ChatView.DisplayText | frontend/src/components/ChatInterface.jsx:164 | a bubble shows the results line when the SQL text equals the content, otherwise the content |
| ChatView.UserBubbleShowsQuery | frontend/src/components/ChatInterface.jsx:164 | a user's bubble shows the query exactly as sent |
| ChatView.AssistantBubbleText | frontend/src/components/ChatInterface.jsx:164 | an answer with no output text shows the results line; output text that differs from the SQL is shown as it is |
| ChatView.RenderTable | frontend/src/components/ChatInterface.jsx:92-135 | a falsy table renders nothing and a non-string one throws; otherwise the first loadedRows rows are shown, with the export button exactly for more than one row |
| ChatView.JoinedRowsArePrefix | frontend/src/components/ChatInterface.jsx:93-95 | the first n split rows joined back are a prefix of the text |
| ChatView.ShownRowsPrefix | frontend/src/components/ChatInterface.jsx:93-95 | the shown rows are a prefix of the table, and the whole table once the window covers every row |
| ChatView.LoadMoreNeverShown | frontend/src/components/ChatInterface.jsx:115-135 | the load-more button never appears, and loading more never empties the window |
| ChatView.LoadMore | frontend/src/components/ChatInterface.jsx:130 | "load more" shows fifty more rows, never more than the table has |
| ChatView.FindCsv | frontend/src/components/ChatInterface.jsx:81 | the search succeeds exactly when some record holds the message id, and returns the CSV of the first such record |
| ChatView.ExportAsWritten | frontend/src/components/ChatInterface.jsx:76-90 | a click queues its record but searches the records from before it |
| ChatView.FirstExportClickThrows | frontend/src/components/ChatInterface.jsx:76-90 | as written, a message's first export click downloads nothing and only the second click does |
| ChatView.ExportCorrected | frontend/src/components/ChatInterface.jsx:76-90 | every click downloads the CSV data it was given |
| Api.PlotOf | backend/app/main.py:50-56 | the plot is the graph itself when it has an image, else its HTML tag when it has one, else "" |
| Api.ExtractAnalysis | backend/app/main.py:43-56 | both fields stay "" unless the analysis is a non-empty dictionary; the text defaults to ""; a plot comes only from a dictionary `graph_plots` |
| Api.ShapeUserData | backend/app/main.py:31-80 | a conversation is passed through; any other non-SQL answer, or an exception, is a server error; a SQL answer carries its query, the result records, the styled table, the CSV, the analysis text and the analysis plot |
| Api.ShapeUserDataCorrected | backend/app/main.py:31-32 | every non-SQL answer is passed through; only an exception is a server error |
| Api.GetUserData | backend/app/main.py:25-80 | the response is the shaped answer of the chain started from the windowed history; a chain that gives up yields a server error |
| Api.PayloadOf | backend/app/main.py:72-80 | a passed-through body has an output and no SQL or table; a SQL body has SQL, table, CSV, analysis text and analysis plot and no output; a passed-through body has no analysis text or plot |
| Api.ReplyOf | frontend/src/App.tsx:97-101 | the page gets a payload exactly for a 200 response |
| Api.RefusalShownAsConnectionFailure | backend/app/main.py:31-37 | as written, a refusal becomes a server error, which the chat shows as the connection-failure message |
| Api.RefusalShownCorrected | backend/app/main.py:31-32 | with answers passed through, the chat shows a non-empty refusal as it is |
| Api.SqlAnswerShowsTable | backend/app/main.py:70-80 | a SQL answer reaches the chat as an assistant message showing the SQL and the styled HTML table |
| Api.RenderedGraphReachesPlot | backend/app/main.py:51-78 | a rendered graph with an image is the `/get_user_data` response's analysis plot |
| Api.NoGraphNoPlot | backend/app/main.py:50-56 | an analysis dictionary without `graph_plots` yields no plot, whatever else it holds |
| Api.FailedAnalysisText | backend/app/main.py:46-48 | a large result whose analysis chain or renderer failed reaches the response as the fixed analysis text with no plot |
| Api.ResolveCsv | backend/app/main.py:86-122 | an uploaded file takes precedence over `csv_data`; without a file the frame is read from the `csv_data` text; with neither the answer is 400 "No CSV data provided"; `chat_history` defaults to []; a non-multipart request yields empty inputs |
| Api.FilelessInstantRequestRejected | backend/app/main.py:113-122 | a fileless request from the instant page always gets the 400, which the page shows as the connection-failure message |
| Api.ShapeCsv | backend/app/main.py:128-180 | a conversation is passed through; otherwise a missing result, SQL text or a raising analysis lookup is a server error, and a complete SQL output always gets a table body; that body carries the SQL text, the result records, the CSV-styled table, the CSV, the analysis text and the analysis plot |
| Api.CsvSqlShowsTable | backend/app/main.py:170-180 | a complete SQL output of the CSV chain reaches the instant page as an assistant message showing the SQL, the CSV-styled table and the analysis text, with no plot |
| Api.GetCsvResults | backend/app/main.py:86-180 | a form error answers directly; otherwise the chain's output is shaped; a 400 arises only without a file |
| Widgets.PrevStep | frontend/src/components/TutorialSection.tsx:145 | Previous moves back one step and stays at 0 |
| Widgets.NextStep | frontend/src/components/TutorialSection.tsx:156 | Next moves on one step and stays at the last |
| Widgets.TutorialStep | frontend/src/components/TutorialSection.tsx:40-157 | only Previous and Next move the step, by one unless at the first or last step, and they leave the tab and the video alone |
| Widgets.TutorialStepInRange | frontend/src/components/TutorialSection.tsx:144-157 | whatever the clicks, the step stays within the four steps |
| Widgets.ForwardBackInverse | frontend/src/components/TutorialSection.tsx:144-157 | Next then Previous, and Previous then Next, return to the same step wherever the first button is enabled |
| Widgets.Without | frontend/src/components/QnASection.tsx:38 | filtering removes exactly the given index |
| Widgets.ToggleItem | frontend/src/components/QnASection.tsx:35-40 | toggling flips the index's membership and no other index's |
| Widgets.WithoutNoDuplicates | frontend/src/components/QnASection.tsx:38 | filtering keeps the list free of duplicates |
| Widgets.ToggleNoDuplicates | frontend/src/components/QnASection.tsx:35-40 | toggling never lists an answer twice |
| Widgets.ToggleTwice | frontend/src/components/QnASection.tsx:35-40 | toggling twice restores which answers are open |
| Widgets.ToggleSelection | frontend/src/components/TableSelectorSection.tsx:66-70 | only the table with the id flips its selection; order and every other field are kept |
| Widgets.SelectedCount | frontend/src/components/TableSelectorSection.tsx:64 | the count is zero exactly when no table is selected |
| Widgets.ToggleSelectionTwice | frontend/src/components/TableSelectorSection.tsx:66-70 | selecting a table twice restores the list |
| Widgets.ToggleSelectionCount | frontend/src/components/TableSelectorSection.tsx:64-70 | with unique ids, toggling a listed table moves the count by exactly one |
| Widgets.ToggleOtherIdCount | frontend/src/components/TableSelectorSection.tsx:66-70 | toggling an id that no table has changes nothing |
| Widgets.MockTablesStartDisabled | frontend/src/components/TableSelectorSection.tsx:6-58 | the sample tables have unique ids, none starts selected, and selecting one enables the run button |
| Widgets.ShowDetails | frontend/src/components/TableSelectorSection.tsx:72-74 | the details toggle between the table and nothing |
| Widgets.HandleFile | frontend/src/components/FileUploadSection.tsx:36-51 | a new file shows its name, restarts progress at 0 in the uploading state and starts one more interval |
| Widgets.UploadStep | frontend/src/components/FileUploadSection.tsx:10-51 | every event keeps the progress invariant; success is only reached by a running interval's tick at 100; only ticks and new files move the progress; a tick with no interval running changes nothing |
| Widgets.UploadRunKeepsInvariant | frontend/src/components/FileUploadSection.tsx:36-51 | under any events the progress stays within 0..100 in steps of ten, success shows 100, and the error status is never set |
| Widgets.UploadCompletes | frontend/src/components/FileUploadSection.tsx:42-50 | with its interval running, an upload succeeds after the ticks that bring it to 100, plus one |

## Left out

- Browser and HTTP effects: `fetch`, storage reads and writes, `FileReader`, `atob`, alerts and toasts, `Date.now()` ids and times. Storage is a record of already-parsed values. Stamps, the model, base64 conversion and `JSON.parse` are parameters.
- Unguarded `JSON.parse` of stored data: corrupt storage is not modelled, so storage always holds well-formed values.
- The language model, its output parser, SQL execution, graph rendering (`render_graph.py`), pandas and plotting are parameters. A frame is its column names and kinds plus a row count.
- Floating-point statistics in `generate_insights`: the statistics lines are an input.
- The summary of a large result (`df.describe()` passed through `json.dumps`) is a parameter: `None` stands for a summary that cannot be serialised, such as one holding date cells.
- Case mapping is ASCII only. Python's and JavaScript's full Unicode case tables are not modelled.
- Timers and speech recognition: one progress tick is one event, and voice input is not modelled.
- `text_csv_results` is not part of this model. The CSV chain is a parameter of `Api.GetCsvResults`.
- The formatter module's own `text_to_sql_and_result` (`output_formmater.py` lines 257-423) is not modelled. No endpoint calls it.
- Bedrock.Memory: states its length bound, when it is empty, that no text is empty, and how it splits over concatenation, but not the kind of each message. The memory is built but never given to the chain, so nothing depends on its contents.
- A `null` role in the chat history makes `.lower()` raise. The model reads an absent or null role as "".
- A request body missing `query` or `chat_history` makes `/get_user_data` raise. Those fields are taken as present.
- The parsed model output always has its three fields. A parser exception is the model parameter returning `None`.
- The HTML table's styling and `to_html` output are an opaque rendering parameter. Only the style prefix is modelled.
- OutputFormatter.CreateVisualization: a plotting failure is one optional error text plus whether it came after the Plotly figure was built. Which library call fails is not modelled.
- Widgets: tutorial video playback is a flag. The FAQ text and the sample tables' column lists are not modelled. The upload widget never sets its error status, so that path is only shown unreachable.
- React StrictMode calling state updaters twice is not modelled.
- The instant page's reload is not an event of `InstantPage.Step`. Its mount code is the main page's `Sessions.MountAsWritten` over tab-session storage.
- Responses arriving after the user switched sessions are not modelled: a submission is atomic. The chat box disables submission while a request is pending.
- The welcome screen rule (no messages and nothing loading) is `ChatView.ShowsWelcome`, a plain definition with no contract.

## Findings

| source | as written | input that shows it | evidently intended | confidence | as-written member | corrected member |
|---|---|---|---|---|---|---|
| backend/app/main.py:31-37 | every answer that is not a conversation is read as a SQL result, so a refusal or an error answer raises on the missing `sql_result` key | the model answers `unauthorized` with its refusal text | pass every non-SQL answer through, as a conversation is | not executed | Api.RefusalShownAsConnectionFailure | Api.RefusalShownCorrected |
| frontend/src/App.tsx:52-54 | New Chat moves to the current index plus one, which may already hold a session | sessions [A, B] with session 0 current; press New Chat | start the new session after the last stored one | not executed | Sessions.StartNewChatOverwritesNextSession | Sessions.StartNewChatAppending |
| frontend/src/App.tsx:16-38 | a load always starts at index 0 and never reads the stored index, so the sync effect copies the restored history over session 0 | sessions [A, B] with session 1 current; reload the page | resume at the stored index | not executed | Sessions.MountAsWrittenOverwritesFirstSession | Sessions.MountRestoringRoundTrip |
| frontend/src/App.tsx:122-129 | the failure path never clears `loading`, so New Chat and the session list stay disabled | any query whose request fails | clear `loading` on failure, as the instant page does | not executed | AppPage.FailedQueryLocksSidebar | AppPage.SubmitQuery |
| frontend/src/components/ChatInterface.jsx:76-90 | the export searches the record list before its own update applies, so a message's first click finds nothing and throws | press Export to CSV once on a fresh table | download the CSV data passed to the handler | not executed | ChatView.FirstExportClickThrows | ChatView.ExportCorrected |
