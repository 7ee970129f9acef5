/**
  The landing-page widgets: the tutorial's step carousel, the FAQ accordion, the table
  selector over the fixed sample tables, and the simulated file upload with its progress
  timer.
 */
module Widgets {
  import opened Wrappers

  // ----- Tutorial -----

  /** The guide's four steps. */
  const StepCount: nat := 4

  datatype Tab = VideoTab | GuideTab

  datatype Tutorial = Tutorial(tab: Tab, playing: bool, step: nat)

  const FreshTutorial: Tutorial := Tutorial(VideoTab, false, 0)

  /** `Math.max(0, currentStep - 1)`. */
  function PrevStep(step: nat): (r: nat)
    ensures step > 0 ==> r == step - 1
    ensures step == 0 ==> r == 0
  {
    if step == 0 then 0 else step - 1
  }

  /** `Math.min(steps.length - 1, currentStep + 1)`. */
  function NextStep(step: nat): (r: nat)
    ensures step + 1 <= StepCount - 1 ==> r == step + 1
    ensures step + 1 > StepCount - 1 ==> r == StepCount - 1
  {
    if step + 1 < StepCount - 1 then step + 1 else StepCount - 1
  }

  predicate PrevDisabled(step: nat) {
    step == 0
  }

  predicate NextDisabled(step: nat) {
    step == StepCount - 1
  }

  datatype TutorialEvent = ShowVideo | ShowGuide | PlayVideo | PauseVideo | Back | Forward

  /** One click; a disabled button does not fire. */
  function TutorialStep(t: Tutorial, e: TutorialEvent): (r: Tutorial)
    ensures !e.Back? && !e.Forward? ==> r.step == t.step
    ensures e.Back? || e.Forward? ==> r.tab == t.tab && r.playing == t.playing
    ensures e.Back? ==> r.step == if t.step == 0 then 0 else t.step - 1
    ensures e.Forward? && t.step < StepCount ==> r.step == if t.step == StepCount - 1 then t.step else t.step + 1
  {
    match e
    case ShowVideo => t.(tab := VideoTab)
    case ShowGuide => t.(tab := GuideTab)
    case PlayVideo => t.(playing := true)
    case PauseVideo => t.(playing := false)
    case Back => if PrevDisabled(t.step) then t else t.(step := PrevStep(t.step))
    case Forward => if NextDisabled(t.step) then t else t.(step := NextStep(t.step))
  }

  function TutorialRun(t: Tutorial, events: seq<TutorialEvent>): Tutorial
    decreases |events|
  {
    if |events| == 0 then t else TutorialRun(TutorialStep(t, events[0]), events[1..])
  }

  /**
    Whatever the clicks, the carousel always shows one of the four steps, so its offset
    `currentStep * 100` percent stays within the strip.
   */
  lemma {:induction false} TutorialStepInRange(t: Tutorial, events: seq<TutorialEvent>)
    requires t.step < StepCount
    ensures TutorialRun(t, events).step < StepCount
    ensures 0 <= TutorialRun(t, events).step * 100 <= (StepCount - 1) * 100
    decreases |events|
  {
    if |events| > 0 {
      TutorialStepInRange(TutorialStep(t, events[0]), events[1..]);
    }
  }

  /** Forward then Back returns to the same step, and so does Back then Forward, wherever the button is enabled. */
  lemma ForwardBackInverse(t: Tutorial)
    requires t.step < StepCount
    ensures !NextDisabled(t.step) ==> TutorialStep(TutorialStep(t, Forward), Back) == t
    ensures !PrevDisabled(t.step) ==> TutorialStep(TutorialStep(t, Back), Forward) == t
  {
  }

  // ----- FAQ accordion -----

  /** The indices of the open answers, in the order they were opened. */
  type OpenItems = seq<int>

  /** The first answer starts open. */
  const InitialOpen: OpenItems := [0]

  /** `prev.filter(i => i !== index)`. */
  function Without(open: OpenItems, index: int): (r: OpenItems)
    ensures forall j :: j in r <==> j in open && j != index
    ensures |r| <= |open|
  {
    if |open| == 0 then []
    else (if open[0] == index then [] else [open[0]]) + Without(open[1..], index)
  }

  predicate NoDuplicates(s: OpenItems) {
    forall i, j :: 0 <= i < j < |s| ==> s[i] != s[j]
  }

  /** `toggleItem`: closes an open answer, opens a closed one at the end. */
  function ToggleItem(open: OpenItems, index: int): (r: OpenItems)
    ensures index in r <==> index !in open
    ensures forall j :: j != index ==> (j in r <==> j in open)
  {
    if index in open then Without(open, index) else open + [index]
  }

  /** Filtering keeps a list free of duplicates. */
  lemma {:induction false} WithoutNoDuplicates(open: OpenItems, index: int)
    requires NoDuplicates(open)
    ensures NoDuplicates(Without(open, index))
    decreases |open|
  {
    if |open| > 0 {
      var rest := Without(open[1..], index);
      WithoutNoDuplicates(open[1..], index);
      assert open[0] !in open[1..] by {
        forall k | 0 <= k < |open[1..]| ensures open[1..][k] != open[0] {
          assert open[1..][k] == open[k + 1];
        }
      }
      assert open[0] !in rest;
    }
  }

  /** Toggling never lists an answer twice. */
  lemma ToggleNoDuplicates(open: OpenItems, index: int)
    requires NoDuplicates(open)
    ensures NoDuplicates(ToggleItem(open, index))
  {
    if index in open {
      WithoutNoDuplicates(open, index);
    }
  }

  /** Toggling the same answer twice restores which answers are open. */
  lemma ToggleTwice(open: OpenItems, index: int)
    ensures forall j :: j in ToggleItem(ToggleItem(open, index), index) <==> j in open
  {
  }

  // ----- Table selector -----

  /** A sample table: its id, name, column count, row count and whether it is selected. */
  datatype TableInfo = TableInfo(id: string, name: string, columnCount: nat, rowCount: nat, selected: bool)

  const MockTables: seq<TableInfo> := [
    TableInfo("1", "sales_data", 5, 15423, false),
    TableInfo("2", "customers", 5, 3287, false),
    TableInfo("3", "products", 5, 512, false),
    TableInfo("4", "regions", 4, 24, false)
  ]

  predicate UniqueIds(tables: seq<TableInfo>) {
    forall i, j :: 0 <= i < j < |tables| ==> tables[i].id != tables[j].id
  }

  /** `toggleTableSelection`: flips the selection of the table with the id; nothing else changes. */
  function ToggleSelection(tables: seq<TableInfo>, id: string): (r: seq<TableInfo>)
    ensures |r| == |tables|
    ensures forall i :: 0 <= i < |tables| ==>
      && r[i].id == tables[i].id && r[i].name == tables[i].name
      && r[i].columnCount == tables[i].columnCount && r[i].rowCount == tables[i].rowCount
      && r[i].selected == (if tables[i].id == id then !tables[i].selected else tables[i].selected)
  {
    seq(|tables|, i requires 0 <= i < |tables| =>
      if tables[i].id == id then tables[i].(selected := !tables[i].selected) else tables[i])
  }

  /** `tables.filter(table => table.selected).length`. */
  function SelectedCount(tables: seq<TableInfo>): (n: nat)
    ensures n <= |tables|
    ensures n == 0 <==> forall i :: 0 <= i < |tables| ==> !tables[i].selected
  {
    if |tables| == 0 then 0
    else (if tables[0].selected then 1 else 0) + SelectedCount(tables[1..])
  }

  /** The run button is disabled while no table is selected. */
  predicate RunDisabled(tables: seq<TableInfo>) {
    SelectedCount(tables) == 0
  }

  /** Selecting a table twice restores the list. */
  lemma ToggleSelectionTwice(tables: seq<TableInfo>, id: string)
    ensures ToggleSelection(ToggleSelection(tables, id), id) == tables
  {
  }

  /** With unique ids, toggling one listed table moves the count by exactly one. */
  lemma {:induction false} ToggleSelectionCount(tables: seq<TableInfo>, k: nat)
    requires k < |tables| && UniqueIds(tables)
    ensures var r := ToggleSelection(tables, tables[k].id);
      SelectedCount(r) == if tables[k].selected then SelectedCount(tables) - 1 else SelectedCount(tables) + 1
    decreases |tables|
  {
    var id := tables[k].id;
    var r := ToggleSelection(tables, id);
    assert r[1..] == ToggleSelection(tables[1..], id);
    if k == 0 {
      assert forall i :: 0 <= i < |tables[1..]| ==> tables[1..][i].id != id by {
        forall i | 0 <= i < |tables[1..]| ensures tables[1..][i].id != id {
          assert tables[1..][i] == tables[i + 1];
        }
      }
      ToggleOtherIdCount(tables[1..], id);
    } else {
      assert tables[0].id != id;
      assert tables[1..][k - 1] == tables[k];
      ToggleSelectionCount(tables[1..], k - 1);
    }
  }

  /** Toggling an id no table has changes nothing. */
  lemma ToggleOtherIdCount(tables: seq<TableInfo>, id: string)
    requires forall i :: 0 <= i < |tables| ==> tables[i].id != id
    ensures ToggleSelection(tables, id) == tables
  {
  }

  /** From the initial list, the run button is disabled until some table is selected. */
  lemma MockTablesStartDisabled()
    ensures UniqueIds(MockTables)
    ensures RunDisabled(MockTables)
    ensures !RunDisabled(ToggleSelection(MockTables, "3"))
  {
    assert ToggleSelection(MockTables, "3")[2].selected;
  }

  /** `showTableDetails`: shows the table's schema, or hides it when it is already shown. */
  function ShowDetails(shown: Option<string>, id: string): (r: Option<string>)
    ensures r == Some(id) <==> shown != Some(id)
    ensures r.None? <==> shown == Some(id)
  {
    if shown == Some(id) then None else Some(id)
  }

  // ----- File upload -----

  /** The upload widget's status; `Failed` is the source's `'error'`. */
  datatype Status = Idle | Uploading | Succeeded | Failed

  /**
    The widget's state; `timers` counts the progress intervals still running (a new file
    starts another without stopping the old one).
   */
  datatype Upload = Upload(dragging: bool, status: Status, fileName: Option<string>, progress: int, timers: nat)

  const FreshUpload: Upload := Upload(false, Idle, None, 0, 0)

  datatype UploadEvent =
    | DragOver
    | DragLeave
    | Drop(files: seq<string>)
    | Choose(chosen: Option<seq<string>>)
    | Tick
    | ResetButton

  /** `handleFile`: shows the name, restarts the progress and starts an interval. */
  function HandleFile(u: Upload, name: string): (r: Upload)
    ensures r.fileName == Some(name) && r.status == Uploading && r.progress == 0
    ensures r.timers == u.timers + 1 && r.dragging == u.dragging
    ensures UploadInvariant(r)
  {
    u.(fileName := Some(name), status := Uploading, progress := 0, timers := u.timers + 1)
  }

  /**
    One event. A tick is one interval firing: at 100 it stops itself and reports success,
    otherwise it adds ten. The reset buttons show only after a success or a failure.
   */
  function UploadStep(u: Upload, e: UploadEvent): (r: Upload)
    ensures UploadInvariant(u) ==> UploadInvariant(r)
    ensures r.status == Succeeded && u.status != Succeeded ==> e.Tick? && u.timers >= 1 && u.progress >= 100
    ensures r.progress != u.progress ==> e.Tick? || e.Drop? || e.Choose?
    ensures e.Tick? && u.timers == 0 ==> r == u
  {
    match e
    case DragOver => u.(dragging := true)
    case DragLeave => u.(dragging := false)
    case Drop(files) =>
      var v := u.(dragging := false);
      if |files| > 0 then HandleFile(v, files[0]) else v
    case Choose(chosen) =>
      if chosen.Some? && |chosen.value| > 0 then HandleFile(u, chosen.value[0]) else u
    case Tick =>
      if u.timers == 0 then u
      else if u.progress >= 100 then u.(progress := 100, status := Succeeded, timers := u.timers - 1)
      else u.(progress := u.progress + 10)
    case ResetButton =>
      if u.status == Succeeded || u.status == Failed then u.(status := Idle) else u
  }

  function UploadRun(u: Upload, events: seq<UploadEvent>): Upload
    decreases |events|
  {
    if |events| == 0 then u else UploadRun(UploadStep(u, events[0]), events[1..])
  }

  /** Progress moves in steps of ten within 0..100, success shows 100, and nothing sets the failure status. */
  predicate UploadInvariant(u: Upload) {
    && 0 <= u.progress <= 100
    && u.progress % 10 == 0
    && (u.status == Succeeded ==> u.progress == 100)
    && u.status != Failed
  }

  /**
    Under any interleaving of drops, choices, timer ticks and resets the progress bar stays
    within 0..100 in steps of ten, and the failure status (with its "Try Again" button) is
    never shown.
   */
  lemma {:induction false} UploadRunKeepsInvariant(u: Upload, events: seq<UploadEvent>)
    requires UploadInvariant(u)
    ensures UploadInvariant(UploadRun(u, events))
    ensures UploadRun(u, events).status != Failed
    decreases |events|
  {
    if |events| > 0 {
      UploadRunKeepsInvariant(UploadStep(u, events[0]), events[1..]);
    }
  }

  function Ticks(n: nat): (r: seq<UploadEvent>)
    ensures |r| == n
    ensures forall i :: 0 <= i < n ==> r[i] == Tick
  {
    seq(n, _ => Tick)
  }

  /** An upload with a running interval succeeds after the ticks that take it to 100, plus one. */
  lemma {:induction false} UploadCompletes(u: Upload)
    requires UploadInvariant(u) && u.status == Uploading && u.timers >= 1
    ensures UploadRun(u, Ticks((100 - u.progress) / 10 + 1)).status == Succeeded
    decreases 100 - u.progress
  {
    var n := (100 - u.progress) / 10 + 1;
    var next := UploadStep(u, Tick);
    assert Ticks(n)[1..] == Ticks(n - 1);
    if u.progress < 100 {
      assert next.progress == u.progress + 10;
      assert (100 - next.progress) / 10 + 1 == n - 1;
      UploadCompletes(next);
    } else {
      assert next.status == Succeeded;
      assert Ticks(n - 1) == [];
    }
  }
}
