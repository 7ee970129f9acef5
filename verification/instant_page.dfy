/**
  The instant-analysis page: the same session controller over tab-session storage, but
  queries go as multipart form data together with a CSV file. A chosen file is stored per
  session as base64 so that later queries in that session can resend it.
 */
module InstantPage {
  import opened Wrappers
  import opened JsonValues
  import opened Chat
  import opened Sessions
  import opened Submission
  import opened Sidebar

  /** The `fileReferences` record for one session: the file's metadata and its base64 text. */
  datatype StoredFile = StoredFile(name: string, mime: string, size: nat, lastModified: int, data: string)

  /**
    The page state. `files` is the parsed `fileReferences` object, keyed by the session
    index that was current when the file was stored.
   */
  datatype Instant = Instant(page: Page, files: map<Option<nat>, StoredFile>)

  /** `new Uint8Array(codes)`: each UTF-16 code unit is reduced modulo 256. */
  function ByteOf(c: char): byte {
    (c as int % 256) as byte
  }

  /** The bytes `base64ToFile` builds from the decoded binary string. */
  function ByteArray(binary: string): (r: seq<byte>)
    ensures |r| == |binary|
    ensures forall i :: 0 <= i < |binary| ==> r[i] == ByteOf(binary[i])
  {
    seq(|binary|, i requires 0 <= i < |binary| => ByteOf(binary[i]))
  }

  /** The loop of `base64ToFile`: one byte per character of the decoded string. */
  method ByteArrayLoop(binary: string) returns (bytes: seq<byte>)
    ensures bytes == ByteArray(binary)
  {
    bytes := [];
    var i := 0;
    while i < |binary|
      invariant 0 <= i <= |binary|
      invariant |bytes| == i
      invariant forall k :: 0 <= k < i ==> bytes[k] == ByteOf(binary[k])
    {
      bytes := bytes + [ByteOf(binary[i])];
      i := i + 1;
    }
  }

  /** The binary string `atob` yields for a byte sequence: one code point per byte. */
  function Latin1(bytes: seq<byte>): (s: string)
    ensures |s| == |bytes|
    ensures forall i :: 0 <= i < |bytes| ==> s[i] as int == bytes[i] as int
  {
    seq(|bytes|, i requires 0 <= i < |bytes| => bytes[i] as int as char)
  }

  /** Rebuilding the bytes from their binary string gives back exactly the original bytes. */
  lemma ByteArrayLatin1(bytes: seq<byte>)
    ensures ByteArray(Latin1(bytes)) == bytes
  {
  }

  function Stored(f: LocalFile, base64: string): StoredFile {
    StoredFile(f.name, f.mime, f.size, f.lastModified, base64)
  }

  /**
    `handleSubmitQuery(query, fileData)`. `toBase64` stands for reading the file as a data
    URL and storing it (`None`: the read or the storage write failed); `atob` decodes the
    stored text (`None`: it threw, and the query is sent without a file).
   */
  function SubmitQuery(s: Instant, query: string, chosen: Option<LocalFile>,
                       toBase64: LocalFile -> Option<string>, atob: string -> Option<string>,
                       reply: Reply, parse: string -> Option<Json>,
                       userStamp: Stamp, replyStamp: Stamp): (r: Outcome<Instant>)
    ensures |s.page.session.history| >= MaxMessages ==> r == Refused(LimitAlert, s)
    ensures |s.page.session.history| < MaxMessages && chosen.Some? && toBase64(chosen.value).None?
            ==> r == Refused(StoreFileAlert, s)
    ensures |s.page.session.history| < MaxMessages && chosen.None? && s.page.session.current !in s.files
            ==> r == Refused(UploadFileToast, s)
    ensures r.Refused? <==>
      || |s.page.session.history| >= MaxMessages
      || (chosen.Some? && toBase64(chosen.value).None?)
      || (chosen.None? && s.page.session.current !in s.files)
    ensures r.Refused? ==> r.state == s
    ensures r.Sent? ==>
      && r.request.endpoint == "http://127.0.0.1:8000/get_csv_data"
      && r.request.query == query
      && r.request.chatHistory == Project(s.page.session.history)
      && r.inFlight.page.loading
      && !r.final.page.loading
      && r.final.page.session.history
         == s.page.session.history + [UserMessage(query, userStamp), ReplyMessage(TabSession, reply, parse, replyStamp)]
      && r.final.page.session.current == s.page.session.current
    ensures r.Sent? && chosen.Some? ==>
      && r.request.file == Some(Original(chosen.value))
      && r.final.files == s.files[s.page.session.current := Stored(chosen.value, toBase64(chosen.value).value)]
    ensures r.Sent? && chosen.None? ==>
      var stored := s.files[s.page.session.current];
      && r.final.files == s.files
      && r.request.file == (match atob(stored.data)
                            case None => None
                            case Some(binary) => Some(Rebuilt(stored.name, stored.mime, ByteArray(binary))))
  {
    var cur := s.page.session.current;
    if |s.page.session.history| >= MaxMessages then Refused(LimitAlert, s)
    else
      var resolved: Option<(map<Option<nat>, StoredFile>, Option<FilePart>)> :=
        if chosen.Some? then
          (match toBase64(chosen.value)
           case None => None
           case Some(b64) => Some((s.files[cur := Stored(chosen.value, b64)], Some(Original(chosen.value)))))
        else if cur in s.files then
          (match atob(s.files[cur].data)
           case None => Some((s.files, None))
           case Some(binary) => Some((s.files, Some(Rebuilt(s.files[cur].name, s.files[cur].mime, ByteArray(binary))))))
        else None;
      match resolved
      case None => Refused(if chosen.Some? then StoreFileAlert else UploadFileToast, s)
      case Some((files, part)) =>
        var e := Exchanged(TabSession, s.page, query, part, reply, parse, userStamp, replyStamp);
        var h := e.final.session.history;
        assert h == h[..|s.page.session.history| + 1] + [h[|h| - 1]];
        Sent(e.request, Instant(e.inFlight, files), Instant(e.final, files))
  }

  /**
    A file stored by one query is resent intact by the next query of the same session that
    chooses no file, provided `atob` inverts the stored base64 to the file's binary string.
   */
  lemma {:induction false} StoredFileResentIntact(s: Instant, q1: string, q2: string, f: LocalFile,
                                                  toBase64: LocalFile -> Option<string>, atob: string -> Option<string>,
                                                  reply1: Reply, reply2: Reply, parse: string -> Option<Json>,
                                                  s1: Stamp, s2: Stamp, s3: Stamp, s4: Stamp)
    requires |s.page.session.history| + 2 < MaxMessages
    requires toBase64(f).Some? && atob(toBase64(f).value) == Some(Latin1(f.bytes))
    ensures var first := SubmitQuery(s, q1, Some(f), toBase64, atob, reply1, parse, s1, s2);
      && first.Sent?
      && var second := SubmitQuery(first.final, q2, None, toBase64, atob, reply2, parse, s3, s4);
      && second.Sent?
      && second.request.file == Some(Rebuilt(f.name, f.mime, f.bytes))
  {
    var first := SubmitQuery(s, q1, Some(f), toBase64, atob, reply1, parse, s1, s2);
    assert first.Sent?;
    assert first.final.page.session.current == s.page.session.current;
    ByteArrayLatin1(f.bytes);
  }

  datatype Event =
    | NewChat
    | Select(index: nat)
    | Query(query: string, chosen: Option<LocalFile>, reply: Reply, userStamp: Stamp, replyStamp: Stamp)

  /** One user event; the storage oracles are fixed for the run. */
  function Step(s: Instant, e: Event, toBase64: LocalFile -> Option<string>, atob: string -> Option<string>,
                parse: string -> Option<Json>): (r: Instant)
    ensures s.page.loading && (e.NewChat? || e.Select?) ==> r == s
    ensures e.Select? && !s.page.loading && Listed(Chats(s.page.session.store), e.index)
            ==> r.page.session.current == Some(e.index)
    ensures e.Select? && !Listed(Chats(s.page.session.store), e.index) ==> r == s
    ensures e.Query? ==> r.page.session.current == s.page.session.current
  {
    match e
    case NewChat => if s.page.loading then s else s.(page := s.page.(session := StartNewChat(s.page.session)))
    case Select(i) =>
      (match Click(Chats(s.page.session.store), s.page.loading, i)
       case None => s
       case Some(j) => s.(page := s.page.(session := SelectChat(s.page.session, j))))
    case Query(q, chosen, reply, us, rs) =>
      (match SubmitQuery(s, q, chosen, toBase64, atob, reply, parse, us, rs)
       case Refused(_, t) => t
       case Sent(_, _, f) => f)
  }

  /** A run of events; while a request is pending, any number of sidebar clicks changes nothing. */
  function Run(s: Instant, events: seq<Event>, toBase64: LocalFile -> Option<string>,
               atob: string -> Option<string>, parse: string -> Option<Json>): (r: Instant)
    ensures |events| == 0 ==> r == s
    ensures s.page.loading && (forall i :: 0 <= i < |events| ==> events[i].NewChat? || events[i].Select?) ==> r == s
    decreases |events|
  {
    if |events| == 0 then s else Run(Step(s, events[0], toBase64, atob, parse), events[1..], toBase64, atob, parse)
  }

  /** One event keeps the page consistent and leaves `loading` clear. */
  lemma StepConsistent(s: Instant, e: Event, toBase64: LocalFile -> Option<string>,
                       atob: string -> Option<string>, parse: string -> Option<Json>)
    requires Consistent(s.page.session) && !s.page.loading
    ensures Consistent(Step(s, e, toBase64, atob, parse).page.session)
    ensures !Step(s, e, toBase64, atob, parse).page.loading
  {
    match e {
      case NewChat => StartNewChatConsistent(s.page.session);
      case Select(i) =>
        if Click(Chats(s.page.session.store), s.page.loading, i).Some? {
          SelectChatConsistent(s.page.session, i);
        }
      case Query(q, chosen, reply, us, rs) => SubmitConsistent(s, q, chosen, toBase64, atob, reply, parse, us, rs);
    }
  }

  /** A sent query leaves the page consistent with `loading` clear; a refused one changes nothing. */
  lemma SubmitConsistent(s: Instant, query: string, chosen: Option<LocalFile>,
                         toBase64: LocalFile -> Option<string>, atob: string -> Option<string>,
                         reply: Reply, parse: string -> Option<Json>, userStamp: Stamp, replyStamp: Stamp)
    requires Consistent(s.page.session) && !s.page.loading
    ensures var r := SubmitQuery(s, query, chosen, toBase64, atob, reply, parse, userStamp, replyStamp);
      r.Sent? ==> Consistent(r.final.page.session) && !r.final.page.loading
  {
    if |s.page.session.history| < MaxMessages {
      ExchangeConsistent(TabSession, s.page, query, None, reply, parse, userStamp, replyStamp);
    }
  }

  /**
    Every event sequence keeps the page consistent and never leaves `loading` set: this page
    clears it whether the request succeeds or fails.
   */
  lemma {:induction false} RunConsistent(s: Instant, events: seq<Event>, toBase64: LocalFile -> Option<string>,
                                         atob: string -> Option<string>, parse: string -> Option<Json>)
    requires Consistent(s.page.session) && !s.page.loading
    ensures Consistent(Run(s, events, toBase64, atob, parse).page.session)
    ensures !Run(s, events, toBase64, atob, parse).page.loading
    decreases |events|
  {
    if |events| > 0 {
      StepConsistent(s, events[0], toBase64, atob, parse);
      RunConsistent(Step(s, events[0], toBase64, atob, parse), events[1..], toBase64, atob, parse);
    }
  }
}
