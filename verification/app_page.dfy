/**
  The main chat page: queries go to the database endpoint as JSON, sessions live in
  browser-local storage. A page evolves by the events a user can cause: starting a new
  chat, clicking a listed session, submitting a query, and reloading the page.

  `Variant` selects the handlers: `AsWritten` follows the source; `Corrected` starts a new
  chat past the last stored session, restores the stored index on reload, and clears the
  loading flag when a request fails.
 */
module AppPage {
  import opened Wrappers
  import opened JsonValues
  import opened Chat
  import opened Sessions
  import opened Submission
  import opened Sidebar

  datatype Variant = AsWritten | Corrected

  /**
    `handleSubmitQuery`: refused with the limit alert once the session holds ten messages;
    otherwise one JSON request carrying the prior history, then one reply message.
   */
  function SubmitQuery(v: Variant, p: Page, query: string, reply: Reply, parse: string -> Option<Json>,
                       userStamp: Stamp, replyStamp: Stamp): (r: Outcome<Page>)
    ensures r.Refused? <==> |p.session.history| >= MaxMessages
    ensures r.Refused? ==> r.notice == LimitAlert && r.state == p
    ensures r.Sent? ==>
      && r.request == Request("http://127.0.0.1:8000/get_user_data", query, Project(p.session.history), None)
      && r.inFlight.loading
      && r.inFlight.session.history == p.session.history + [UserMessage(query, userStamp)]
      && r.final.session.history == p.session.history + [UserMessage(query, userStamp), ReplyMessage(Durable, reply, parse, replyStamp)]
      && r.final.session.current == p.session.current
    ensures r.Sent? && v == AsWritten ==>
      (r.final.loading <==> ReplyMessage(Durable, reply, parse, replyStamp).role == Error)
    ensures r.Sent? && v == Corrected ==> !r.final.loading
    ensures r.Sent? && reply.Failed? ==> r.final.session.history[|p.session.history| + 1] == ErrorMessage(replyStamp)
  {
    if |p.session.history| >= MaxMessages then Refused(LimitAlert, p)
    else
      var e := Exchanged(Durable, p, query, None, reply, parse, userStamp, replyStamp);
      var h := e.final.session.history;
      assert h == h[..|p.session.history| + 1] + [h[|h| - 1]];
      Sent(e.request, e.inFlight, if v == Corrected then e.final.(loading := false) else e.final)
  }

  datatype Event =
    | NewChat
    | Select(index: nat)
    | Query(query: string, reply: Reply, userStamp: Stamp, replyStamp: Stamp)
    | Reload

  /** A fresh page: nothing loading and no CSV payload yet. */
  function Mounted(v: Variant, st: Store): Page {
    Page(if v == AsWritten then MountAsWritten(st) else MountRestoring(st), false, None)
  }

  /**
    One user event. New Chat and session clicks are ignored while loading (the sidebar
    disables them); submission is not, since the chat box tracks its own busy flag.
   */
  function Step(v: Variant, p: Page, e: Event, parse: string -> Option<Json>): (r: Page)
    ensures p.loading && (e.NewChat? || e.Select?) ==> r == p
    ensures e.Select? && !p.loading && Listed(Chats(p.session.store), e.index) ==> r.session.current == Some(e.index)
    ensures e.Select? && !Listed(Chats(p.session.store), e.index) ==> r == p
    ensures e.Query? ==> r.session.current == p.session.current
    ensures e.Reload? ==> !r.loading && r.csvData.None?
  {
    match e
    case NewChat =>
      if p.loading then p
      else p.(session := if v == AsWritten then StartNewChat(p.session) else StartNewChatAppending(p.session))
    case Select(i) =>
      (match Click(Chats(p.session.store), p.loading, i)
       case None => p
       case Some(j) => p.(session := SelectChat(p.session, j)))
    case Query(q, reply, us, rs) =>
      (match SubmitQuery(v, p, q, reply, parse, us, rs)
       case Refused(_, s) => s
       case Sent(_, _, f) => f)
    case Reload => Mounted(v, p.session.store)
  }

  /** A run of events; while a request is pending, any number of sidebar clicks changes nothing. */
  function Run(v: Variant, p: Page, events: seq<Event>, parse: string -> Option<Json>): (r: Page)
    ensures |events| == 0 ==> r == p
    ensures p.loading && (forall i :: 0 <= i < |events| ==> events[i].NewChat? || events[i].Select?) ==> r == p
    decreases |events|
  {
    if |events| == 0 then p else Run(v, Step(v, p, events[0], parse), events[1..], parse)
  }

  lemma {:induction false} StepConsistent(v: Variant, p: Page, e: Event, parse: string -> Option<Json>)
    requires Consistent(p.session)
    ensures Consistent(Step(v, p, e, parse).session)
  {
    match e
    case NewChat =>
      if !p.loading {
        if v == AsWritten { StartNewChatConsistent(p.session); } else { StartNewChatAppendingConsistent(p.session); }
      }
    case Select(i) =>
      if Click(Chats(p.session.store), p.loading, i).Some? {
        SelectChatConsistent(p.session, i);
      }
    case Query(q, reply, us, rs) => SubmitConsistent(v, p, q, reply, parse, us, rs);
    case Reload =>
      if v == AsWritten { MountAsWrittenConsistent(p.session); } else { MountRestoringRoundTrip(p.session); }
  }

  /** A sent query leaves the session consistent. */
  lemma SubmitConsistent(v: Variant, p: Page, query: string, reply: Reply, parse: string -> Option<Json>,
                         userStamp: Stamp, replyStamp: Stamp)
    requires Consistent(p.session)
    ensures var r := SubmitQuery(v, p, query, reply, parse, userStamp, replyStamp);
      r.Sent? ==> Consistent(r.final.session)
  {
    if |p.session.history| < MaxMessages {
      ExchangeConsistent(Durable, p, query, None, reply, parse, userStamp, replyStamp);
    }
  }

  /** Every event sequence keeps the page consistent: no holes, every session well formed. */
  lemma {:induction false} RunConsistent(v: Variant, p: Page, events: seq<Event>, parse: string -> Option<Json>)
    requires Consistent(p.session)
    ensures Consistent(Run(v, p, events, parse).session)
    decreases |events|
  {
    if |events| > 0 {
      StepConsistent(v, p, events[0], parse);
      RunConsistent(v, Step(v, p, events[0], parse), events[1..], parse);
    }
  }

  /**
    From a first visit, whatever the user does, the active session alternates query and
    reply and never holds more than ten messages, and the sidebar always renders.
   */
  lemma ReachableFromFirstVisit(v: Variant, events: seq<Event>, parse: string -> Option<Json>)
    ensures var p := Run(v, Mounted(v, Store(None, None, None)), events, parse);
      && WellFormedHistory(p.session.history)
      && Render(Chats(p.session.store), p.session.current, p.loading).Rendered?
  {
    FreshMountConsistent();
    var start := Mounted(v, Store(None, None, None));
    if v == Corrected {
      assert start.session == MountAsWritten(Store(None, None, None));
    }
    RunConsistent(v, start, events, parse);
    var p := Run(v, start, events, parse);
    ConsistentRenders(p.session, p.loading);
  }

  /**
    With the corrected handlers no event ever changes a stored session other than the
    current one: sessions are neither wiped by New Chat nor overwritten by a reload.
   */
  lemma {:induction false} CorrectedStepKeepsOtherSessions(p: Page, e: Event, parse: string -> Option<Json>)
    requires Consistent(p.session)
    ensures var q := Step(Corrected, p, e, parse);
      forall j :: 0 <= j < |Chats(p.session.store)| && Some(j) != p.session.current ==>
        j < |Chats(q.session.store)| && Chats(q.session.store)[j] == Chats(p.session.store)[j]
  {
    match e
    case NewChat =>
      if !p.loading { StartNewChatAppendingConsistent(p.session); }
    case Select(i) =>
      if Click(Chats(p.session.store), p.loading, i).Some? {
        SelectChatConsistent(p.session, i);
      }
    case Query(q, reply, us, rs) =>
    case Reload =>
      MountRestoringRoundTrip(p.session);
  }

  /**
    As written, a failed request leaves `loading` set, and from then on New Chat and every
    session click are ignored until some later request succeeds.
   */
  lemma FailedQueryLocksSidebar(p: Page, query: string, parse: string -> Option<Json>,
                                userStamp: Stamp, replyStamp: Stamp, i: nat)
    requires |p.session.history| < MaxMessages
    ensures var f := Step(AsWritten, p, Query(query, Failed, userStamp, replyStamp), parse);
      && f.loading
      && Step(AsWritten, f, NewChat, parse) == f
      && Step(AsWritten, f, Select(i), parse) == f
  {
  }
}
