/**
  The session list beside the chat: a New Chat button, and one entry per non-empty stored
  session labelled with its first message, highlighted when it is the current session.
  While a request is loading, the button is disabled and entries ignore clicks.
 */
module Sidebar {
  import opened Wrappers
  import opened Chat
  import opened Sessions

  /** One rendered session entry, keeping the index into the stored array. */
  datatype Entry = Entry(index: nat, caption: Option<string>, highlighted: bool)

  /**
    The rendered sidebar. `list` is `None` when there are no stored sessions (the list block
    is not rendered at all). Rendering a `null` slot evaluates `null.length` and throws.
   */
  datatype View = Crashed | Rendered(newChatDisabled: bool, list: Option<seq<Entry>>)

  /** Session `i` gets an entry: it exists and is not empty. */
  predicate Listed(chats: seq<Slot>, i: nat) {
    i < |chats| && chats[i].Some? && |chats[i].value| != 0
  }

  predicate NoHoles(chats: seq<Slot>) {
    forall j :: 0 <= j < |chats| ==> chats[j].Some?
  }

  /** The entries for indices `from` onward, in index order. */
  function EntriesFrom(chats: seq<Slot>, current: Option<nat>, from: nat): (r: seq<Entry>)
    requires from <= |chats|
    requires NoHoles(chats)
    decreases |chats| - from
    ensures forall k :: 0 <= k < |r| ==>
      && from <= r[k].index
      && Listed(chats, r[k].index)
      && r[k].caption == chats[r[k].index].value[0].content
      && (r[k].highlighted <==> current == Some(r[k].index))
    ensures forall k, l :: 0 <= k < l < |r| ==> r[k].index < r[l].index
  {
    if from == |chats| then []
    else
      var rest := EntriesFrom(chats, current, from + 1);
      if |chats[from].value| != 0 then
        [Entry(from, chats[from].value[0].content, current == Some(from))] + rest
      else rest
  }

  /** Every listed session from `from` onward has an entry. */
  lemma {:induction false} EntriesComplete(chats: seq<Slot>, current: Option<nat>, from: nat, i: nat)
    requires from <= i
    requires NoHoles(chats)
    requires Listed(chats, i)
    ensures HasEntry(EntriesFrom(chats, current, from), i)
    decreases i - from
  {
    EntriesUnfold(chats, current, from);
    if from == i {
      assert EntriesFrom(chats, current, from)[0].index == i;
    } else {
      EntriesComplete(chats, current, from + 1, i);
      if |chats[from].value| != 0 {
        HasEntryCons(EntriesFrom(chats, current, from), EntriesFrom(chats, current, from + 1), i);
      }
    }
  }

  /** One step of the entry list: an entry for `from` when its session is not empty, then the rest. */
  lemma EntriesUnfold(chats: seq<Slot>, current: Option<nat>, from: nat)
    requires from < |chats| && NoHoles(chats)
    ensures var r := EntriesFrom(chats, current, from);
      var rest := EntriesFrom(chats, current, from + 1);
      && (|chats[from].value| != 0 ==> |r| == |rest| + 1 && r[0].index == from && r[1..] == rest)
      && (|chats[from].value| == 0 ==> r == rest)
  {
  }

  lemma HasEntryCons(r: seq<Entry>, rest: seq<Entry>, i: nat)
    requires |r| == |rest| + 1 && r[1..] == rest && HasEntry(rest, i)
    ensures HasEntry(r, i)
  {
    var k :| 0 <= k < |rest| && rest[k].index == i;
    assert r[k + 1] == rest[k];
  }

  /** Some entry of `r` stands for session `i`. */
  predicate HasEntry(r: seq<Entry>, i: nat) {
    exists k :: 0 <= k < |r| && r[k].index == i
  }

  function Render(chats: seq<Slot>, current: Option<nat>, loading: bool): (v: View)
    ensures v.Crashed? <==> !NoHoles(chats)
    ensures v.Rendered? ==> v.newChatDisabled == loading
    ensures v.Rendered? ==> (v.list.None? <==> |chats| == 0)
  {
    if !NoHoles(chats) then Crashed
    else Rendered(loading, if |chats| == 0 then None else Some(EntriesFrom(chats, current, 0)))
  }

  /** The index a click on entry `i` selects: none while loading, and none for an unlisted session. */
  function Click(chats: seq<Slot>, loading: bool, i: nat): (r: Option<nat>)
    ensures r.Some? <==> !loading && Listed(chats, i)
    ensures r.Some? ==> r.value == i
  {
    if loading || !Listed(chats, i) then None else Some(i)
  }

  /** A consistent page never stores a hole, so its sidebar always renders. */
  lemma ConsistentRenders(c: Controller, loading: bool)
    requires Consistent(c)
    ensures Render(Chats(c.store), c.current, loading).Rendered?
    ensures Render(Chats(c.store), c.current, loading).list.Some?
  {
  }

  /**
    The rendered list shows exactly the non-empty sessions: every entry is a listed session,
    and every listed session has exactly one entry.
   */
  lemma {:induction false} EntriesExactlyListed(chats: seq<Slot>, current: Option<nat>, i: nat)
    requires NoHoles(chats)
    ensures Listed(chats, i) <==> HasEntry(EntriesFrom(chats, current, 0), i)
    ensures forall k, l :: 0 <= k < l < |EntriesFrom(chats, current, 0)| ==>
      EntriesFrom(chats, current, 0)[k].index != EntriesFrom(chats, current, 0)[l].index
  {
    var r := EntriesFrom(chats, current, 0);
    if Listed(chats, i) {
      EntriesComplete(chats, current, 0, i);
    }
    if HasEntry(r, i) {
      var k :| 0 <= k < |r| && r[k].index == i;
      assert Listed(chats, r[k].index);
    }
  }
}
