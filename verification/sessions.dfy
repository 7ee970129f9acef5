/**
  The chat-session controller shared by the main chat page (browser-local storage) and the
  instant-analysis page (tab-session storage): the active history, the current session
  index, and the stored collection of sessions, with the React effects that keep them in
  step.

  Every change of the active history re-runs the synchronisation effect, so a history
  change is modelled as `SetHistory` (assign, then `Sync`). A change of the current index
  re-runs the load effect and, since that assigns a fresh history, the synchronisation
  effect after it. Effects run in declaration order: synchronisation first, then load.
 */
module Sessions {
  import opened Wrappers
  import opened Chat

  /** `localStorage` for the main page, `sessionStorage` for the instant-analysis page. */
  datatype Scope = Durable | TabSession

  function HistoryKey(scope: Scope): string {
    match scope
    case Durable => "chatHistory"
    case TabSession => "InstantChatHistory"
  }

  function ChatsKey(scope: Scope): string {
    match scope
    case Durable => "chats"
    case TabSession => "instant-chats"
  }

  function CurrentKey(scope: Scope): string {
    match scope
    case Durable => "currentChat"
    case TabSession => "currentInstantChat"
  }

  /**
    What a storage scope holds under its three keys, already parsed; `None` means the key is
    absent. The current index is itself nullable, hence `Option<Option<nat>>`.
   */
  datatype Store = Store(
    savedHistory: Option<History>,
    savedChats: Option<seq<Slot>>,
    savedCurrent: Option<Option<nat>>)

  /** `savedChatsString ? JSON.parse(savedChatsString) : []`. */
  function Chats(st: Store): seq<Slot> {
    st.savedChats.GetOr([])
  }

  /**
    JavaScript `chats[i] = h`: overwrites slot `i`, or grows the array to `i + 1` leaving
    holes (stored as `null`) between the old end and `i`.
   */
  function StoreAt(chats: seq<Slot>, i: nat, h: History): (r: seq<Slot>)
    ensures |r| == if i < |chats| then |chats| else i + 1
    ensures r[i] == Some(h)
    ensures forall j :: 0 <= j < |chats| && j != i ==> r[j] == chats[j]
    ensures forall j :: |chats| <= j < i ==> r[j].None?
  {
    if i < |chats| then chats[i := Some(h)]
    else chats + seq(i - |chats|, _ => None) + [Some(h)]
  }

  /** `savedChats[currentChat] || []`: a missing, `null` or `undefined` entry reads as empty. */
  function ReadSlot(chats: seq<Slot>, current: Option<nat>): (h: History)
    ensures current.Some? && current.value < |chats| && chats[current.value].Some?
            ==> h == chats[current.value].value
    ensures !(current.Some? && current.value < |chats| && chats[current.value].Some?) ==> h == []
  {
    if current.Some? && current.value < |chats| && chats[current.value].Some?
    then chats[current.value].value
    else []
  }

  /** The in-memory state of one chat page plus the storage scope it writes. */
  datatype Controller = Controller(history: History, current: Option<nat>, store: Store)

  /**
    The effect run after every history change: store the history under the history key,
    copy it into the current session's slot (when there is a current session), and store
    the current index.
   */
  function Sync(c: Controller): (r: Controller)
    ensures r.history == c.history && r.current == c.current
    ensures r.store.savedHistory == Some(c.history) && r.store.savedCurrent == Some(c.current)
    ensures c.current.Some? ==> c.current.value < |Chats(r.store)|
                                && Chats(r.store)[c.current.value] == Some(c.history)
    ensures |Chats(c.store)| <= |Chats(r.store)|
    ensures forall j :: 0 <= j < |Chats(c.store)| && Some(j) != c.current
                        ==> Chats(r.store)[j] == Chats(c.store)[j]
    ensures forall j :: |Chats(c.store)| <= j < |Chats(r.store)| && Some(j) != c.current
                        ==> Chats(r.store)[j].None?
    ensures c.current.None? ==> Chats(r.store) == Chats(c.store)
  {
    var chats := Chats(c.store);
    var chats' := if c.current.Some? then StoreAt(chats, c.current.value, c.history) else chats;
    c.(store := Store(Some(c.history), Some(chats'), Some(c.current)))
  }

  /** `setMessageHistory(h)` followed by the synchronisation effect it triggers. */
  function SetHistory(c: Controller, h: History): (r: Controller)
    ensures r.history == h && r.current == c.current
    ensures c.current.Some? ==> c.current.value < |Chats(r.store)|
    ensures c.current.Some? ==> Chats(r.store)[c.current.value] == Some(h)
    ensures |Chats(c.store)| <= |Chats(r.store)|
    ensures forall j :: 0 <= j < |Chats(c.store)| && Some(j) != c.current
                        ==> Chats(r.store)[j] == Chats(c.store)[j]
  {
    Sync(c.(history := h))
  }

  /** The effect run when the current index changes: load that session's history. */
  function LoadCurrent(c: Controller): (r: Controller)
    ensures r.current == c.current && r.store == c.store
    ensures r.history == ReadSlot(Chats(c.store), c.current)
  {
    c.(history := ReadSlot(Chats(c.store), c.current))
  }

  /** The next index `handleNewChat` moves to: one past the current one, or 0 from `null`. */
  function NextIndex(current: Option<nat>): nat {
    if current.Some? then current.value + 1 else 0
  }

  /** The body of `handleNewChat` itself, before the effects it triggers. */
  function NewChatHandler(c: Controller): (r: Controller)
    requires |c.history| > 0
    ensures r.history == [] && r.current == Some(NextIndex(c.current))
    ensures c.current.Some? ==> c.current.value < |Chats(r.store)| && Chats(r.store)[c.current.value] == Some(c.history)
    ensures |Chats(c.store)| <= |Chats(r.store)|
    ensures forall j :: 0 <= j < |Chats(c.store)| && Some(j) != c.current ==> Chats(r.store)[j] == Chats(c.store)[j]
    ensures c.current.None? ==> Chats(r.store) == Chats(c.store)
    ensures r.store.savedHistory == c.store.savedHistory && r.store.savedCurrent == c.store.savedCurrent
  {
    var chats := Chats(c.store);
    var chats' := if c.current.Some? then StoreAt(chats, c.current.value, c.history) else chats;
    Controller([], Some(NextIndex(c.current)), c.store.(savedChats := Some(chats')))
  }

  /**
    Starting a new chat, including the effects it triggers: with an empty history nothing
    happens; otherwise the history is stored at the current slot, the history is emptied,
    and the index advances by one.
   */
  function StartNewChat(c: Controller): (r: Controller)
    ensures |c.history| == 0 ==> r == c
    ensures |c.history| > 0 ==> r.history == [] && r.current == Some(NextIndex(c.current))
    ensures |Chats(c.store)| <= |Chats(r.store)|
    ensures |c.history| > 0 ==> NextIndex(c.current) < |Chats(r.store)|
    ensures |c.history| > 0 && c.current.Some? ==> c.current.value < |Chats(r.store)|
    ensures |c.history| > 0 && c.current.Some? ==> Chats(r.store)[c.current.value] == Some(c.history)
    ensures |c.history| > 0 ==> Chats(r.store)[NextIndex(c.current)] == Some([])
    ensures |c.history| > 0 ==>
      forall j :: 0 <= j < |Chats(c.store)| && Some(j) != c.current && j != NextIndex(c.current)
                  ==> Chats(r.store)[j] == Chats(c.store)[j]
  {
    if |c.history| == 0 then c
    else Sync(LoadCurrent(Sync(NewChatHandler(c))))
  }

  /**
    Selecting session `i` (`setCurrentChat(i)`) and the effects it triggers. Setting the
    index it already has re-renders nothing, so no effect runs.
   */
  function SelectChat(c: Controller, i: nat): (r: Controller)
    ensures c.current == Some(i) ==> r == c
    ensures r.current == Some(i)
    ensures |Chats(c.store)| <= |Chats(r.store)|
    ensures c.current != Some(i) ==> i < |Chats(r.store)|
    ensures c.current != Some(i) ==> r.history == ReadSlot(Chats(c.store), Some(i))
    ensures c.current != Some(i) ==> Chats(r.store)[i] == Some(r.history)
    ensures forall j :: 0 <= j < |Chats(c.store)| && j != i ==> Chats(r.store)[j] == Chats(c.store)[j]
  {
    if c.current == Some(i) then c
    else Sync(LoadCurrent(c.(current := Some(i))))
  }

  /**
    Page load as written: the history comes from the history key, but the current index
    always starts at 0 (the stored index is never read); then both effects run. The first
    effect copies the restored history into slot 0, whichever session it came from.
   */
  function MountAsWritten(st: Store): (r: Controller)
    ensures r.current == Some(0)
    ensures r.history == st.savedHistory.GetOr([])
    ensures 0 < |Chats(r.store)| && Chats(r.store)[0] == Some(st.savedHistory.GetOr([]))
    ensures |Chats(r.store)| == if |Chats(st)| == 0 then 1 else |Chats(st)|
    ensures forall j :: 0 < j < |Chats(st)| ==> Chats(r.store)[j] == Chats(st)[j]
  {
    var c := Controller(st.savedHistory.GetOr([]), Some(0), st);
    Sync(LoadCurrent(Sync(c)))
  }

  /** Page load restoring the stored current index, defaulting to 0 when the key is absent. */
  function MountRestoring(st: Store): (r: Controller)
    ensures st.savedCurrent.Some? ==> r.current == st.savedCurrent.value
    ensures st.savedCurrent.None? ==> r.current == Some(0)
  {
    var c := Controller(st.savedHistory.GetOr([]), st.savedCurrent.GetOr(Some(0)), st);
    Sync(LoadCurrent(Sync(c)))
  }

  /** The shape every session takes when built by accepted submissions only. */
  predicate WellFormedHistory(h: History) {
    && |h| <= MaxMessages
    && |h| % 2 == 0
    && forall i :: 0 <= i < |h| ==> (h[i].role == User <==> i % 2 == 0)
  }

  /**
    The state every reachable page is in between events: a current session inside the
    stored array, stored exactly as the active history, no `null` holes, the storage keys
    up to date, and every session well formed.
   */
  predicate Consistent(c: Controller) {
    && c.current.Some?
    && c.current.value < |Chats(c.store)|
    && Chats(c.store)[c.current.value] == Some(c.history)
    && c.store.savedHistory == Some(c.history)
    && c.store.savedCurrent == Some(c.current)
    && forall j :: 0 <= j < |Chats(c.store)| ==>
         Chats(c.store)[j].Some? && WellFormedHistory(Chats(c.store)[j].value)
  }

  /** A fresh page over empty storage. */
  lemma FreshMountConsistent()
    ensures var c := MountAsWritten(Store(None, None, None));
      && Consistent(c) && c.history == [] && Chats(c.store) == [Some([])]
  {
    var c := MountAsWritten(Store(None, None, None));
    assert Chats(c.store) == [Some([])];
  }

  lemma {:induction false} SetHistoryConsistent(c: Controller, h: History)
    requires Consistent(c)
    requires WellFormedHistory(h)
    ensures Consistent(SetHistory(c, h))
    ensures |Chats(SetHistory(c, h).store)| == |Chats(c.store)|
  {
    var r := SetHistory(c, h);
    assert |Chats(r.store)| == |Chats(c.store)|;
  }

  lemma {:induction false} StartNewChatConsistent(c: Controller)
    requires Consistent(c)
    ensures Consistent(StartNewChat(c))
  {
    if |c.history| > 0 {
      var cur := c.current.value;
      var r := StartNewChat(c);
      var committed := StoreAt(Chats(c.store), cur, c.history);
      assert committed == Chats(c.store);
      assert |Chats(r.store)| <= |Chats(c.store)| + 1;
      assert WellFormedHistory([]);
      forall j | 0 <= j < |Chats(r.store)|
        ensures Chats(r.store)[j].Some? && WellFormedHistory(Chats(r.store)[j].value)
      {
        if j != cur + 1 {
          assert Chats(r.store)[j] == Chats(c.store)[j];
        }
      }
    }
  }

  lemma {:induction false} SelectChatConsistent(c: Controller, i: nat)
    requires Consistent(c)
    requires i < |Chats(c.store)|
    ensures Consistent(SelectChat(c, i))
    ensures |Chats(SelectChat(c, i).store)| == |Chats(c.store)|
  {
    if c.current != Some(i) {
      var r := SelectChat(c, i);
      assert Chats(r.store) == Chats(c.store);
    }
  }

  /** Reloading a consistent page with the index restored gives back exactly the same page. */
  lemma {:induction false} MountRestoringRoundTrip(c: Controller)
    requires Consistent(c)
    ensures MountRestoring(c.store) == c
  {
    var cur := c.current.value;
    assert StoreAt(Chats(c.store), cur, c.history) == Chats(c.store);
    assert c.store == Store(Some(c.history), Some(Chats(c.store)), Some(c.current));
  }

  /**
    A reload as written stays consistent: the active history is copied into slot 0 and
    loaded back from it.
   */
  lemma {:induction false} MountAsWrittenConsistent(c: Controller)
    requires Consistent(c)
    ensures Consistent(MountAsWritten(c.store))
    ensures MountAsWritten(c.store).history == c.history
  {
    var first := Sync(Controller(c.history, Some(0), c.store));
    assert Chats(first.store) == Chats(c.store)[0 := Some(c.history)];
    assert WellFormedHistory(Chats(c.store)[c.current.value].value);
  }

  /** A one-exchange session (a query and a failure reply) used by the counterexamples below. */
  function SampleHistory(text: string): History {
    [UserMessage(text, Stamp(text, 0)), ErrorMessage(Stamp(text, 1))]
  }

  /**
    Page load as written loses session 0: with sessions [A, B] and session 1 current, a
    reload stores B's history over A.
   */
  lemma MountAsWrittenOverwritesFirstSession()
    ensures var a := SampleHistory("a");
      var b := SampleHistory("b");
      var st := Store(Some(b), Some([Some(a), Some(b)]), Some(Some(1)));
      && Chats(MountAsWritten(st).store)[0] == Some(b)
      && Chats(MountAsWritten(st).store)[0] != Some(a)
  {
    var a := SampleHistory("a");
    var b := SampleHistory("b");
    assert a[0].content != b[0].content;
  }

  /**
    Starting a new chat while an earlier session is open wipes the session after it: with
    sessions [A, B] and session 0 current, B is replaced by an empty session.
   */
  lemma StartNewChatOverwritesNextSession()
    ensures var a := SampleHistory("a");
      var b := SampleHistory("b");
      var c := Controller(a, Some(0), Store(Some(a), Some([Some(a), Some(b)]), Some(Some(0))));
      && Consistent(c)
      && Chats(StartNewChat(c).store)[1] == Some([])
      && Chats(StartNewChat(c).store)[1] != Some(b)
  {
    var a := SampleHistory("a");
    var b := SampleHistory("b");
    var c := Controller(a, Some(0), Store(Some(a), Some([Some(a), Some(b)]), Some(Some(0))));
    assert WellFormedHistory(a) && WellFormedHistory(b);
    assert Chats(StartNewChat(c).store)[1] == Some([]);
  }

  /**
    Starting a new chat at the end of the stored array rather than one past the current
    index: every stored session survives, and the new empty session is appended.
   */
  function StartNewChatAppending(c: Controller): (r: Controller)
    ensures |c.history| == 0 ==> r == c
    ensures |c.history| > 0 && c.current.Some? ==>
      var committed := StoreAt(Chats(c.store), c.current.value, c.history);
      && r.history == []
      && r.current == Some(|committed|)
      && Chats(r.store) == committed + [Some([])]
  {
    if |c.history| == 0 then c
    else
      var chats := Chats(c.store);
      var committed := if c.current.Some? then StoreAt(chats, c.current.value, c.history) else chats;
      var next := Controller([], Some(|committed|), c.store.(savedChats := Some(committed)));
      Sync(LoadCurrent(Sync(next)))
  }

  lemma {:induction false} StartNewChatAppendingConsistent(c: Controller)
    requires Consistent(c)
    ensures Consistent(StartNewChatAppending(c))
    ensures forall j :: 0 <= j < |Chats(c.store)| && Some(j) != c.current
                        ==> Chats(StartNewChatAppending(c).store)[j] == Chats(c.store)[j]
  {
    if |c.history| > 0 {
      var r := StartNewChatAppending(c);
      assert StoreAt(Chats(c.store), c.current.value, c.history) == Chats(c.store);
      assert WellFormedHistory([]);
      assert Chats(r.store) == Chats(c.store) + [Some([])];
    }
  }
}
