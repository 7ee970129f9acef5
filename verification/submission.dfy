/**
  The query-submission protocol shared by the two chat pages: once a submission has passed
  the page's own guards, one user message is appended, the request is sent with the
  history as it was before the query, and exactly one assistant or error message follows.
 */
module Submission {
  import opened Wrappers
  import opened JsonValues
  import opened Chat
  import opened Sessions

  newtype byte = x: int | 0 <= x < 256

  /** A browser `File` chosen by the user. */
  datatype LocalFile = LocalFile(name: string, mime: string, size: nat, lastModified: int, bytes: seq<byte>)

  /** The multipart `file` part: the chosen file, or one rebuilt from its stored copy. */
  datatype FilePart = Original(file: LocalFile) | Rebuilt(name: string, mime: string, bytes: seq<byte>)

  /** The outbound call: endpoint, the `query` and `chat_history` fields, and the optional file part. */
  datatype Request = Request(endpoint: string, query: string, chatHistory: seq<Turn>, file: Option<FilePart>)

  /**
    What the awaited call produced: the parsed payload, or a failure (the fetch rejected,
    the status was not 2xx, or the body was not JSON), all of which land in the `catch`.
   */
  datatype Reply = Delivered(data: Payload) | Failed

  /** A page's state: its session controller, the `loading` flag and the last CSV payload. */
  datatype Page = Page(session: Controller, loading: bool, csvData: Option<string>)

  /** The user-facing notice a refused submission shows. */
  datatype Notice = LimitAlert | StoreFileAlert | UploadFileToast

  /**
    A submission either is refused (the state is returned unchanged and no request is made)
    or sends one request; `inFlight` is the state while the call is awaited.
   */
  datatype Outcome<S> = Refused(notice: Notice, state: S) | Sent(request: Request, inFlight: S, final: S)

  function Endpoint(scope: Scope): string {
    match scope
    case Durable => "http://127.0.0.1:8000/get_user_data"
    case TabSession => "http://127.0.0.1:8000/get_csv_data"
  }

  datatype Exchange = Exchange(request: Request, inFlight: Page, final: Page)

  /** The message that answers a query: the mapped assistant message, or the fixed error message. */
  function ReplyMessage(scope: Scope, reply: Reply, parse: string -> Option<Json>, stamp: Stamp): (m: Message)
    ensures m.role == Assistant <==> reply.Delivered? && AssistantMessage(reply.data, stamp, parse, scope == Durable).Some?
    ensures m.role != Assistant ==> m == ErrorMessage(stamp)
  {
    match reply
    case Failed => ErrorMessage(stamp)
    case Delivered(data) =>
      match AssistantMessage(data, stamp, parse, scope == Durable)
      case Some(m) => m
      case None => ErrorMessage(stamp)
  }

  /**
    The part of a submission after the guards: append the user message, set `loading`, send
    the request, then append exactly one reply message. The main page leaves `loading` set
    when the call fails; the instant page clears it on both paths.
   */
  function Exchanged(scope: Scope, p: Page, query: string, file: Option<FilePart>, reply: Reply,
                     parse: string -> Option<Json>, userStamp: Stamp, replyStamp: Stamp): (r: Exchange)
    ensures r.request == Request(Endpoint(scope), query, Project(p.session.history), file)
    ensures r.inFlight.session.history == p.session.history + [UserMessage(query, userStamp)]
    ensures r.inFlight.loading
    ensures var h := r.final.session.history;
      && |h| == |p.session.history| + 2
      && h[..|p.session.history| + 1] == r.inFlight.session.history
      && h[|h| - 1] == ReplyMessage(scope, reply, parse, replyStamp)
    ensures r.final.loading <==> scope == Durable && r.final.session.history[|p.session.history| + 1].role == Error
    ensures r.final.session.current == p.session.current
    ensures p.session.current.Some? ==>
      var cur := p.session.current.value;
      cur < |Chats(r.final.session.store)| && Chats(r.final.session.store)[cur] == Some(r.final.session.history)
    ensures |Chats(p.session.store)| <= |Chats(r.final.session.store)|
    ensures forall j :: 0 <= j < |Chats(p.session.store)| && Some(j) != p.session.current
                        ==> Chats(r.final.session.store)[j] == Chats(p.session.store)[j]
    ensures r.final.csvData == if reply.Delivered? && Truthy(reply.data.csvData) then reply.data.csvData else p.csvData
  {
    var h := p.session.history;
    var withQuery := h + [UserMessage(query, userStamp)];
    var inFlight := Page(SetHistory(p.session, withQuery), true, p.csvData);
    var csv := if reply.Delivered? && Truthy(reply.data.csvData) then reply.data.csvData else p.csvData;
    var answer := ReplyMessage(scope, reply, parse, replyStamp);
    var stillLoading := scope == Durable && answer.role == Error;
    var final := Page(SetHistory(inFlight.session, withQuery + [answer]), stillLoading, csv);
    assert (withQuery + [answer])[..|h| + 1] == withQuery;
    Exchange(Request(Endpoint(scope), query, Project(h), file), inFlight, final)
  }

  /** An accepted submission keeps a well-formed session well formed: one query, one reply, at most ten. */
  lemma {:induction false} ExchangeKeepsWellFormed(scope: Scope, p: Page, query: string, file: Option<FilePart>,
                                                   reply: Reply, parse: string -> Option<Json>,
                                                   userStamp: Stamp, replyStamp: Stamp)
    requires WellFormedHistory(p.session.history)
    requires |p.session.history| < MaxMessages
    ensures WellFormedHistory(Exchanged(scope, p, query, file, reply, parse, userStamp, replyStamp).final.session.history)
  {
    var h' := Exchanged(scope, p, query, file, reply, parse, userStamp, replyStamp).final.session.history;
    AppendPairWellFormed(p.session.history, UserMessage(query, userStamp), h');
  }

  /** A well-formed history below the cap, extended by a user message and then a non-user one, stays well formed. */
  lemma AppendPairWellFormed(h: History, m: Message, h': History)
    requires WellFormedHistory(h) && |h| < MaxMessages
    requires m.role == User
    requires |h'| == |h| + 2 && h'[..|h| + 1] == h + [m] && h'[|h| + 1].role != User
    ensures WellFormedHistory(h')
  {
    forall i | 0 <= i < |h'|
      ensures h'[i].role == User <==> i % 2 == 0
    {
      if i <= |h| {
        assert h'[i] == h'[..|h| + 1][i] == (h + [m])[i];
      }
    }
  }

  /** The exchange leaves a consistent controller consistent when the history it extends is below the cap. */
  lemma {:induction false} ExchangeConsistent(scope: Scope, p: Page, query: string, file: Option<FilePart>,
                                              reply: Reply, parse: string -> Option<Json>,
                                              userStamp: Stamp, replyStamp: Stamp)
    requires Consistent(p.session)
    requires |p.session.history| < MaxMessages
    ensures Consistent(Exchanged(scope, p, query, file, reply, parse, userStamp, replyStamp).final.session)
  {
    var cur := p.session.current.value;
    var h := p.session.history;
    assert WellFormedHistory(h);
    ExchangeKeepsWellFormed(scope, p, query, file, reply, parse, userStamp, replyStamp);
    var r := Exchanged(scope, p, query, file, reply, parse, userStamp, replyStamp);
    var withQuery := h + [UserMessage(query, userStamp)];
    var answer := ReplyMessage(scope, reply, parse, replyStamp);
    assert r.final.session == SetHistory(SetHistory(p.session, withQuery), withQuery + [answer]);
    assert |Chats(r.final.session.store)| == |Chats(p.session.store)|;
  }
}
