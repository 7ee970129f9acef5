/**
  The text-to-SQL chain: the last four chat messages become the prompt's history text, the
  language model answers with a typed response, and a SQL answer is executed and analysed.
  A failing SQL query is retried with a note describing the failure appended to the
  history, at most four attempts in all.

  The model call together with its output parser, query execution and analysis are passed
  in as functions; `None` or `Err` stands for the exception each may raise.
 */
module Bedrock {
  import opened Wrappers
  import opened JsonValues
  import opened Strings
  import opened Frames
  import opened Chat

  /** One chat-history item as the backend receives it; `None` is an absent key or a null. */
  datatype Entry = Entry(role: Option<string>, content: Option<string>)

  /** The history item the frontend sends for a turn. */
  function EntryOf(t: Turn): Entry {
    Entry(Some(RoleName(t.role)), t.content)
  }

  function EntriesOf(turns: seq<Turn>): (r: seq<Entry>)
    ensures |r| == |turns|
    ensures forall i :: 0 <= i < |turns| ==> r[i] == EntryOf(turns[i])
  {
    seq(|turns|, i requires 0 <= i < |turns| => EntryOf(turns[i]))
  }

  /** The number of history items the prompt sees. */
  const WindowSize: nat := 4

  /** `chat_history[-4:] if chat_history else []`, with `None` read as `[]`. */
  function Window(history: Option<seq<Entry>>): (r: seq<Entry>)
    ensures |r| <= WindowSize
    ensures history.None? ==> r == []
    ensures history.Some? ==> |r| <= |history.value| && r == history.value[|history.value| - |r|..]
    ensures history.Some? && |history.value| <= WindowSize ==> r == history.value
    ensures history.Some? && |history.value| > WindowSize ==> |r| == WindowSize
  {
    match history
    case None => []
    case Some(h) => if |h| <= WindowSize then h else h[|h| - WindowSize..]
  }

  /** `msg.get(key, '')`. */
  function TextOr(v: Option<string>): string {
    v.GetOr("")
  }

  /** The conversation memory: human and AI turns. */
  datatype MemoryItem = Human(text: string) | Ai(text: string)

  /** A history item the memory keeps: non-empty content from a user or assistant role. */
  predicate Remembered(e: Entry) {
    && TextOr(e.content) != ""
    && (Lower(TextOr(e.role)) == "user" || Lower(TextOr(e.role)) == "assistant")
  }

  /**
    The items added to the chain's memory: non-empty contents whose lower-cased role is
    "user" or "assistant". The memory is built but never given to the chain.
   */
  function Memory(recent: seq<Entry>): (r: seq<MemoryItem>)
    ensures |r| <= |recent|
    ensures r == [] <==> forall i :: 0 <= i < |recent| ==> !Remembered(recent[i])
    ensures forall k :: 0 <= k < |r| ==> r[k].text != ""
  {
    if |recent| == 0 then []
    else
      var role := Lower(TextOr(recent[0].role));
      var content := TextOr(recent[0].content);
      var head := if content == "" then []
                  else if role == "user" then [Human(content)]
                  else if role == "assistant" then [Ai(content)]
                  else [];
      head + Memory(recent[1..])
  }

  /** A history item the prompt shows: both its role and its content are non-empty. */
  predicate Shown(e: Entry) {
    TextOr(e.role) != "" && TextOr(e.content) != ""
  }

  /** One line of the history text: `ROLE: content` and a blank line, for a shown item only. */
  function HistoryLine(e: Entry): (r: string)
    ensures r != "" <==> Shown(e)
    ensures Shown(e) ==> r == Upper(TextOr(e.role)) + ": " + TextOr(e.content) + "\n\n"
  {
    var role := Upper(TextOr(e.role));
    var content := TextOr(e.content);
    if role != "" && content != "" then role + ": " + content + "\n\n" else ""
  }

  /**
    The `history_text` the prompt is given: one line per shown item, in order. It is empty
    exactly when no item is shown, and otherwise opens with the first shown item's line.
   */
  function HistoryText(recent: seq<Entry>): (r: string)
    ensures r == "" <==> forall i :: 0 <= i < |recent| ==> !Shown(recent[i])
    ensures |recent| > 0 && Shown(recent[0]) ==> IsPrefix(HistoryLine(recent[0]), r)
    ensures |recent| > 0 && !Shown(recent[0]) ==> r == HistoryText(recent[1..])
  {
    if |recent| == 0 then "" else HistoryLine(recent[0]) + HistoryText(recent[1..])
  }

  /** The history text of a single item is that item's line. */
  lemma HistoryTextOne(e: Entry)
    ensures HistoryText([e]) == HistoryLine(e)
  {
    assert [e][1..] == [];
  }

  lemma HistoryTextCons(s: seq<Entry>)
    requires |s| > 0
    ensures HistoryText(s) == HistoryLine(s[0]) + HistoryText(s[1..])
  {
  }

  lemma AppendAssoc(x: string, y: string, z: string)
    ensures x + (y + z) == (x + y) + z
  {
  }

  /** The history text of a concatenation is the concatenation of the history texts. */
  lemma {:induction false} HistoryTextAppend(a: seq<Entry>, b: seq<Entry>)
    ensures HistoryText(a + b) == HistoryText(a) + HistoryText(b)
    decreases |a|
  {
    if |a| == 0 {
      assert a + b == b;
    } else {
      var ab := a + b;
      assert ab[0] == a[0] && ab[1..] == a[1..] + b;
      HistoryTextCons(ab);
      HistoryTextAppend(a[1..], b);
      AppendAssoc(HistoryLine(a[0]), HistoryText(a[1..]), HistoryText(b));
    }
  }

  /** Memory of a concatenation is the concatenation of the memories. */
  lemma {:induction false} MemoryAppend(a: seq<Entry>, b: seq<Entry>)
    ensures Memory(a + b) == Memory(a) + Memory(b)
    decreases |a|
  {
    if |a| == 0 {
      assert a + b == b;
    } else {
      assert (a + b)[1..] == a[1..] + b;
      MemoryAppend(a[1..], b);
    }
  }

  /**
    A failed request's error turn reaches the prompt as an "ERROR:" line, but is not put
    into the memory: only user and assistant turns are.
   */
  lemma ErrorTurnInPromptNotMemory(stamp: Stamp)
    ensures var e := EntryOf(Turn(Error, ErrorMessage(stamp).content));
      && HistoryText([e]) == "ERROR: " + FailureText + "\n\n"
      && Memory([e]) == []
  {
    var e := EntryOf(Turn(Error, ErrorMessage(stamp).content));
    ErrorLine(e);
    ErrorNotRemembered(e);
  }

  lemma ErrorLine(e: Entry)
    requires e.role == Some("error") && e.content == Some(FailureText)
    ensures HistoryText([e]) == "ERROR: " + FailureText + "\n\n"
  {
    assert Upper("error") == "ERROR";
    assert [e][1..] == [];
  }

  lemma ErrorNotRemembered(e: Entry)
    requires e.role == Some("error")
    ensures Memory([e]) == []
  {
    assert Lower("error") == "error";
    assert [e][1..] == [];
  }

  /** The parsed model output: the three fields of the structured output parser. */
  datatype Parsed = Parsed(responseType: string, content: string, explanation: string)

  /** What `text_to_sql_and_result` returns, or `Raised` when the model or its parser raised. */
  datatype Answer =
    | Reply(responseType: string, output: string)
    | SqlAnswer(sqlQuery: string, explanation: string, result: Frame, analysis: map<string, Json>)
    | Raised

  const ExhaustedText: string := "I am unable to process your request at the moment. Please try again later."
  const UnexpectedText: string := "Received an unexpected response type."

  /** The answer once every attempt's SQL failed. */
  const Exhausted: Answer := Reply("error", ExhaustedText)

  /** The number of model calls before giving up: `range(5)` returns at `i == 4`. */
  const MaxAttempts: nat := 4

  /** Executing a SQL text: its result, or the exception's text. */
  type Execute = string -> Result<Frame, string>

  /** Analysing a result for its SQL text: the analysis dictionary, or the exception's text. */
  type Analyse = (Frame, string) -> Result<map<string, Json>, string>

  /** The model call on the query and the history text: the parsed output, or `None` when it raised. */
  type Model = (string, string) -> Option<Parsed>

  /** The exception text when executing or analysing `sql` raises. */
  function SqlFailure(sql: string, execute: Execute, analyse: Analyse): Option<string> {
    match execute(sql)
    case Err(e) => Some(e)
    case Ok(frame) =>
      match analyse(frame, sql)
      case Err(e) => Some(e)
      case Ok(_) => None
  }

  const AiLead: string := "ai: "
  const ErrorLead: string := "\n\nhuman: I am getting this error- "
  const FixRequest: string := "Please fix this and give correct snowflake sql query.\n\n"

  /**
    The note appended to the history after a failed SQL attempt: it quotes the failing SQL
    as the AI's turn and the exception text as the human's, then asks for a fix.
   */
  function RetryNote(sql: string, error: string): (r: string)
    ensures OccursAt(r, sql, |AiLead|)
    ensures OccursAt(r, error, |AiLead| + |sql| + |ErrorLead|)
    ensures |r| == |AiLead| + |sql| + |ErrorLead| + |error| + |FixRequest|
    ensures IsPrefix(AiLead, r)
    ensures OccursAt(r, ErrorLead, |AiLead| + |sql|)
    ensures r[|r| - |FixRequest|..] == FixRequest
  {
    var r := AiLead + sql + ErrorLead + error + FixRequest;
    assert r[..|AiLead|] == AiLead;
    assert r[|AiLead| + |sql|..|AiLead| + |sql| + |ErrorLead|] == ErrorLead;
    assert r[|r| - |FixRequest|..] == FixRequest;
    assert r[|AiLead|..|AiLead| + |sql|] == sql;
    assert r[|AiLead| + |sql| + |ErrorLead|..|AiLead| + |sql| + |ErrorLead| + |error|] == error;
    r
  }

  /** The model answers `prompt` with SQL whose execution or analysis raises. */
  predicate FailedSql(query: string, prompt: string, model: Model, execute: Execute, analyse: Analyse) {
    && model(query, prompt).Some?
    && model(query, prompt).value.responseType == "sql"
    && SqlFailure(model(query, prompt).value.content, execute, analyse).Some?
  }

  /** The history text after `prompt`'s failed attempt. */
  function NextPrompt(query: string, prompt: string, model: Model, execute: Execute, analyse: Analyse): (r: string)
    requires FailedSql(query, prompt, model, execute, analyse)
    ensures IsPrefix(prompt, r) && |r| > |prompt|
    ensures var sql := model(query, prompt).value.content;
      r[|prompt|..] == RetryNote(sql, SqlFailure(sql, execute, analyse).value)
  {
    prompt + RetryNote(model(query, prompt).value.content, SqlFailure(model(query, prompt).value.content, execute, analyse).value)
  }

  /** What one attempt leads to: an answer, or a retry with the extended history text. */
  datatype Outcome = Stop(answer: Answer) | Retry(next: string)

  /** One pass of the loop body, with `history` as the history text. */
  function Attempt(query: string, history: string, model: Model, execute: Execute, analyse: Analyse): (r: Outcome)
    ensures r.Retry? <==> FailedSql(query, history, model, execute, analyse)
    ensures r.Retry? ==> r.next == NextPrompt(query, history, model, execute, analyse)
    ensures r.Stop? ==> r.answer != Exhausted
    ensures r.Stop? && r.answer.SqlAnswer? ==>
      model(query, history) == Some(Parsed("sql", r.answer.sqlQuery, r.answer.explanation))
      && execute(r.answer.sqlQuery) == Ok(r.answer.result)
      && analyse(r.answer.result, r.answer.sqlQuery) == Ok(r.answer.analysis)
  {
    match model(query, history)
    case None => Stop(Raised)
    case Some(p) =>
      if p.responseType == "conversation" || p.responseType == "unauthorized" then
        Stop(Reply(p.responseType, p.content))
      else if p.responseType == "sql" then
        match execute(p.content)
        case Err(e) => Retry(history + RetryNote(p.content, e))
        case Ok(frame) =>
          match analyse(frame, p.content)
          case Err(e) => Retry(history + RetryNote(p.content, e))
          case Ok(a) => Stop(SqlAnswer(p.content, p.explanation, frame, a))
      else Stop(Reply("error", UnexpectedText))
  }

  /** The answer and the history texts the model was called with, in order. */
  datatype Attempts = Attempts(answer: Answer, prompts: seq<string>)

  /** What one attempt does with a history text. */
  type Step = string -> Outcome

  /** The attempts of one request: `Attempt` for a fixed query and fixed oracles. */
  function StepOf(query: string, model: Model, execute: Execute, analyse: Analyse): (step: Step)
    ensures forall h :: step(h) == Attempt(query, h, model, execute, analyse)
  {
    h => Attempt(query, h, model, execute, analyse)
  }

  /** The attempts from attempt number `attempt` on, with `history` as the current history text. */
  function Chain(attempt: nat, history: string, step: Step): (r: Attempts)
    requires attempt <= MaxAttempts
    ensures |r.prompts| <= MaxAttempts - attempt
    ensures attempt < MaxAttempts ==> |r.prompts| >= 1 && r.prompts[0] == history
    decreases MaxAttempts - attempt
  {
    if attempt == MaxAttempts then Attempts(Exhausted, [])
    else
      match step(history)
      case Stop(a) => Attempts(a, [history])
      case Retry(next) =>
        var rest := Chain(attempt + 1, next, step);
        Attempts(rest.answer, [history] + rest.prompts)
  }

  /** One unfolding of the chain. */
  lemma ChainStep(attempt: nat, history: string, step: Step)
    requires attempt < MaxAttempts
    ensures step(history).Stop? ==> Chain(attempt, history, step) == Attempts(step(history).answer, [history])
    ensures step(history).Retry? ==>
      var rest := Chain(attempt + 1, step(history).next, step);
      Chain(attempt, history, step) == Attempts(rest.answer, [history] + rest.prompts)
  {
  }

  /** Every history text in `prompts` led to a retry. */
  predicate AllRetried(prompts: seq<string>, step: Step) {
    forall k :: 0 <= k < |prompts| ==> step(prompts[k]).Retry?
  }

  /** Every history text but the last led to a retry, and the next one is the text it retried with. */
  predicate Linked(prompts: seq<string>, step: Step) {
    forall k :: 0 <= k < |prompts| - 1 ==> step(prompts[k]).Retry? && prompts[k + 1] == step(prompts[k]).next
  }

  /** No attempt stops with the give-up answer itself. */
  ghost predicate NeverGivesUp(step: Step) {
    forall h :: step(h).Stop? ==> step(h).answer != Exhausted
  }

  /** A retried text followed by its retry text and a linked continuation is linked. */
  lemma LinkedCons(h: string, rest: seq<string>, step: Step)
    requires step(h).Retry?
    requires |rest| >= 1 && rest[0] == step(h).next
    requires Linked(rest, step)
    ensures Linked([h] + rest, step)
  {
    var ps := [h] + rest;
    forall k | 0 <= k < |ps| - 1
      ensures step(ps[k]).Retry? && ps[k + 1] == step(ps[k]).next
    {
      if k > 0 {
        assert ps[k] == rest[k - 1];
        assert ps[k + 1] == rest[k];
      }
    }
  }

  /** Every attempt but the last retried, and each next history text is the one it retried with. */
  lemma {:induction false} ChainLinks(attempt: nat, history: string, step: Step)
    requires attempt <= MaxAttempts
    ensures Linked(Chain(attempt, history, step).prompts, step)
    decreases MaxAttempts - attempt
  {
    if attempt < MaxAttempts {
      ChainStep(attempt, history, step);
      if step(history).Retry? && attempt + 1 < MaxAttempts {
        var next := step(history).next;
        ChainLinks(attempt + 1, next, step);
        LinkedCons(history, Chain(attempt + 1, next, step).prompts, step);
      }
    }
  }

  /** All texts of `[h] + rest` retried exactly when `h` and all of `rest` did. */
  lemma AllRetriedCons(h: string, rest: seq<string>, step: Step)
    ensures AllRetried([h] + rest, step) <==> step(h).Retry? && AllRetried(rest, step)
  {
    var ps := [h] + rest;
    if step(h).Retry? && AllRetried(rest, step) {
      forall k | 0 <= k < |ps| ensures step(ps[k]).Retry? {
        if k > 0 {
          assert ps[k] == rest[k - 1];
        }
      }
    }
    if AllRetried(ps, step) {
      assert ps[0] == h;
      forall k | 0 <= k < |rest| ensures step(rest[k]).Retry? {
        assert rest[k] == ps[k + 1];
      }
    }
  }

  /** The give-up condition carries over from the rest of the chain to a chain that retried once. */
  lemma GivesUpCons(attempt: nat, h: string, r: Attempts, rest: Attempts, step: Step)
    requires attempt < MaxAttempts
    requires r.answer == rest.answer && r.prompts == [h] + rest.prompts
    requires step(h).Retry?
    requires rest.answer == Exhausted <==> |rest.prompts| == MaxAttempts - (attempt + 1) && AllRetried(rest.prompts, step)
    ensures r.answer == Exhausted <==> |r.prompts| == MaxAttempts - attempt && AllRetried(r.prompts, step)
  {
    AllRetriedCons(h, rest.prompts, step);
  }

  /** When no attempt itself gives up, the chain gives up exactly when all remaining attempts retried. */
  lemma {:induction false} ChainGivesUp(attempt: nat, history: string, step: Step)
    requires attempt <= MaxAttempts && NeverGivesUp(step)
    ensures var r := Chain(attempt, history, step);
      r.answer == Exhausted <==> |r.prompts| == MaxAttempts - attempt && AllRetried(r.prompts, step)
    decreases MaxAttempts - attempt
  {
    if attempt < MaxAttempts {
      ChainStep(attempt, history, step);
      if step(history).Retry? {
        var next := step(history).next;
        ChainGivesUp(attempt + 1, next, step);
        GivesUpCons(attempt, history, Chain(attempt, history, step), Chain(attempt + 1, next, step), step);
      } else {
        assert Chain(attempt, history, step).prompts[0] == history;
      }
    }
  }

  /** The attempts `c` preceded by the history texts already tried. */
  function Prefixed(tried: seq<string>, c: Attempts): Attempts {
    Attempts(c.answer, tried + c.prompts)
  }

  /** A stopping attempt ends the chain with its answer. */
  lemma StopEndsChain(attempt: nat, history: string, step: Step, tried: seq<string>)
    requires attempt < MaxAttempts && step(history).Stop?
    ensures Prefixed(tried, Chain(attempt, history, step)).answer == step(history).answer
    ensures Prefixed(tried, Chain(attempt, history, step)).prompts == tried + [history]
  {
    ChainStep(attempt, history, step);
  }

  /** A retrying attempt moves one history text into the tried ones. */
  lemma RetryContinuesChain(attempt: nat, history: string, step: Step, tried: seq<string>)
    requires attempt < MaxAttempts && step(history).Retry?
    ensures Prefixed(tried, Chain(attempt, history, step)).answer
         == Prefixed(tried + [history], Chain(attempt + 1, step(history).next, step)).answer
    ensures Prefixed(tried, Chain(attempt, history, step)).prompts
         == Prefixed(tried + [history], Chain(attempt + 1, step(history).next, step)).prompts
  {
    ChainStep(attempt, history, step);
    var rest := Chain(attempt + 1, step(history).next, step);
    assert tried + ([history] + rest.prompts) == (tried + [history]) + rest.prompts;
  }

  /** After the last attempt the chain has given up. */
  lemma ChainEnd(history: string, step: Step, tried: seq<string>)
    ensures Prefixed(tried, Chain(MaxAttempts, history, step)).answer == Exhausted
    ensures Prefixed(tried, Chain(MaxAttempts, history, step)).prompts == tried
  {
    assert tried + [] == tried;
  }

  /** The retry loop for any attempt function: it computes exactly the chain from `history`. */
  method RunChain(history: string, step: Step) returns (answer: Answer, prompts: seq<string>)
    ensures answer == Chain(0, history, step).answer
    ensures prompts == Chain(0, history, step).prompts
  {
    ghost var wholeAnswer := Chain(0, history, step).answer;
    ghost var wholePrompts := Chain(0, history, step).prompts;
    var current := history;
    prompts := [];
    assert wholePrompts == prompts + wholePrompts;
    var i := 0;
    while i < MaxAttempts
      invariant 0 <= i <= MaxAttempts
      invariant wholeAnswer == Prefixed(prompts, Chain(i, current, step)).answer
      invariant wholePrompts == Prefixed(prompts, Chain(i, current, step)).prompts
      decreases MaxAttempts - i
    {
      var o := step(current);
      if o.Stop? {
        StopEndsChain(i, current, step, prompts);
        answer, prompts := o.answer, prompts + [current];
        return;
      }
      RetryContinuesChain(i, current, step, prompts);
      prompts, current, i := prompts + [current], o.next, i + 1;
    }
    ChainEnd(current, step, prompts);
    answer := Exhausted;
  }

  /**
    `text_to_sql_and_result`. `model(query, history)` runs the chain and its parser. Returns
    the answer and the history texts the model was called with: the attempt chain started
    from the windowed history.
   */
  method TextToSqlAndResult(query: string, chatHistory: Option<seq<Entry>>,
                            model: Model, execute: Execute, analyse: Analyse)
    returns (answer: Answer, prompts: seq<string>)
    ensures answer == Chain(0, HistoryText(Window(chatHistory)), StepOf(query, model, execute, analyse)).answer
    ensures prompts == Chain(0, HistoryText(Window(chatHistory)), StepOf(query, model, execute, analyse)).prompts
  {
    answer, prompts := RunChain(HistoryText(Window(chatHistory)), StepOf(query, model, execute, analyse));
  }

  /** A single attempt never produces the give-up answer itself. */
  lemma AttemptsNeverGiveUp(query: string, model: Model, execute: Execute, analyse: Analyse)
    ensures NeverGivesUp(StepOf(query, model, execute, analyse))
  {
    var step := StepOf(query, model, execute, analyse);
    forall h | step(h).Stop?
      ensures step(h).answer != Exhausted
    {
      assert step(h) == Attempt(query, h, model, execute, analyse);
    }
  }

  /**
    The chain gives up with the fixed error exactly when the model was called four times and
    each time produced SQL whose execution or analysis raised.
   */
  lemma ExhaustedIffFourFailures(query: string, history: string, model: Model, execute: Execute, analyse: Analyse)
    ensures var r := Chain(0, history, StepOf(query, model, execute, analyse));
      r.answer == Exhausted <==>
        |r.prompts| == MaxAttempts && forall k :: 0 <= k < MaxAttempts ==> FailedSql(query, r.prompts[k], model, execute, analyse)
  {
    var step := StepOf(query, model, execute, analyse);
    AttemptsNeverGiveUp(query, model, execute, analyse);
    ChainGivesUp(0, history, step);
  }

  /** Every retry text starts with the history text it retried from. */
  ghost predicate Extends(step: Step) {
    forall h :: step(h).Retry? ==> IsPrefix(h, step(h).next)
  }

  lemma PrefixTrans(a: string, b: string, c: string)
    requires IsPrefix(a, b) && IsPrefix(b, c)
    ensures IsPrefix(a, c)
  {
    assert c[..|a|] == c[..|b|][..|a|];
  }

  /** Along linked texts of an extending step, every text starts with the first. */
  lemma LinkedPrefix(ps: seq<string>, step: Step, k: nat)
    requires Linked(ps, step) && Extends(step) && k < |ps|
    ensures IsPrefix(ps[0], ps[k])
  {
    var j := 0;
    while j < k
      invariant 0 <= j <= k
      invariant IsPrefix(ps[0], ps[j])
    {
      assert IsPrefix(ps[j], ps[j + 1]);
      PrefixTrans(ps[0], ps[j], ps[j + 1]);
      j := j + 1;
    }
  }

  /** A retry appends its note to the history text. */
  lemma AttemptsExtend(query: string, model: Model, execute: Execute, analyse: Analyse)
    ensures Extends(StepOf(query, model, execute, analyse))
  {
    var step := StepOf(query, model, execute, analyse);
    forall h | step(h).Retry?
      ensures IsPrefix(h, step(h).next)
    {
      assert step(h) == Attempt(query, h, model, execute, analyse);
      var note := RetryNote(model(query, h).value.content, SqlFailure(model(query, h).value.content, execute, analyse).value);
      assert step(h).next == h + note;
      assert (h + note)[..|h|] == h;
    }
  }

  /** Each retry's history text starts with the previous one, so no earlier context is lost. */
  lemma PromptsGrow(query: string, history: string, model: Model, execute: Execute, analyse: Analyse, k: nat)
    requires k < |Chain(0, history, StepOf(query, model, execute, analyse)).prompts|
    ensures IsPrefix(history, Chain(0, history, StepOf(query, model, execute, analyse)).prompts[k])
  {
    var step := StepOf(query, model, execute, analyse);
    ChainLinks(0, history, step);
    AttemptsExtend(query, model, execute, analyse);
    LinkedPrefix(Chain(0, history, step).prompts, step, k);
  }
}
