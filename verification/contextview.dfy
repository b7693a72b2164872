/** The task detail view: the selected task, its latest snapshot, the
    resume/pause/complete/back actions and the earlier snapshots. */
module ContextView {
  import opened Optional
  import opened Types
  import opened Seqs
  import opened Store
  import Utils
  import Stats
  import ContextCapture

  /** `tasks.find(t => t.id === selectedTaskId)`, as a position: the first
      task carrying the selected id, or `None` when nothing is selected or
      no task carries it. */
  function FindTask(ts: seq<Task>, selected: Option<Id>): (r: Option<nat>)
    ensures r.None? <==> selected.None? || selected.value !in Ids(ts)
    ensures r.Some? ==>
      && r.value < |ts| && ts[r.value].id == selected.value
      && forall j :: 0 <= j < r.value ==> ts[j].id != selected.value
  {
    match selected
    case None => None
    case Some(id) => FindFrom(ts, id, 0)
  }

  function FindFrom(ts: seq<Task>, id: Id, k: nat): (r: Option<nat>)
    requires k <= |ts| && forall j :: 0 <= j < k ==> ts[j].id != id
    ensures r.None? <==> id !in Ids(ts)
    ensures r.Some? ==>
      && k <= r.value < |ts| && ts[r.value].id == id
      && forall j :: 0 <= j < r.value ==> ts[j].id != id
    decreases |ts| - k
  {
    if k == |ts| then
      assert forall j :: 0 <= j < |ts| ==> Ids(ts)[j] != id;
      None
    else if ts[k].id == id then
      assert Ids(ts)[k] == id;
      Some(k)
    else FindFrom(ts, id, k + 1)
  }

  /** The view renders only when a task is selected (a selected id of `''`
      is falsy, and the list shows instead) and the selection names an
      existing task. */
  predicate Rendered(s: Store) {
    && s.selectedTaskId.Some? && s.selectedTaskId.value != []
    && FindTask(s.tasks, s.selectedTaskId).Some?
  }

  function Shown(s: Store): (r: nat)
    requires Rendered(s)
    ensures r < |s.tasks| && s.tasks[r].id == s.selectedTaskId.value
  {
    FindTask(s.tasks, s.selectedTaskId).value
  }

  /** `handleResume`: reactivates the task unless it already is active (an
      active task is left untouched and nothing is saved), then leaves the
      view. */
  function HandleResume(s: Store, env: Env): (r: Store)
    requires Rendered(s)
    ensures r.selectedTaskId == None && r.showContextCapture == s.showContextCapture
    ensures |r.tasks| == |s.tasks| && r.tasks[Shown(s)].status == Active
    ensures s.tasks[Shown(s)].status == Active ==> r.tasks == s.tasks && r.slot == s.slot
    ensures s.tasks[Shown(s)].status != Active ==>
      && r.tasks[Shown(s)] == s.tasks[Shown(s)].(status := Active, lastModified := env.now)
      && (forall i :: 0 <= i < |s.tasks| && s.tasks[i].id != s.tasks[Shown(s)].id ==> r.tasks[i] == s.tasks[i])
      && (env.storageAccepts ==> Persisted(r))
      && (!env.storageAccepts ==> r.slot == s.slot)
    ensures Extends(s.tasks, r.tasks)
  {
    var t := s.tasks[Shown(s)];
    var s1 := if t.status != Active then UpdateTaskStatus(s, t.id, Active, env) else s;
    SelectTask(s1, None)
  }

  /** `handlePause`: opens the capture modal over the view. */
  function HandlePause(s: Store): (r: Store)
    requires Rendered(s)
    ensures r.showContextCapture
    ensures r.tasks == s.tasks && r.slot == s.slot && r.selectedTaskId == s.selectedTaskId
  {
    SetShowContextCapture(s, true)
  }

  /** Pausing from the view puts the capture modal on screen for the same
      task. */
  lemma PauseShowsCapture(s: Store)
    requires Rendered(s)
    ensures ContextCapture.Rendered(HandlePause(s))
    ensures Shown(HandlePause(s)) == Shown(s)
  {
  }

  /** `handleComplete`: completes the task and leaves the view. */
  function HandleComplete(s: Store, env: Env): (r: Store)
    requires Rendered(s)
    ensures r.selectedTaskId == None && r.showContextCapture == s.showContextCapture
    ensures |r.tasks| == |s.tasks|
    ensures r.tasks[Shown(s)] == s.tasks[Shown(s)].(status := Completed, lastModified := env.now)
    ensures forall i :: 0 <= i < |s.tasks| && s.tasks[i].id != s.tasks[Shown(s)].id ==> r.tasks[i] == s.tasks[i]
    ensures Extends(s.tasks, r.tasks)
    ensures env.storageAccepts ==> Persisted(r)
    ensures !env.storageAccepts ==> r.slot == s.slot
  {
    var t := s.tasks[Shown(s)];
    SelectTask(UpdateTaskStatus(s, t.id, Completed, env), None)
  }

  /** A task completed from the view counts among the completions of every
      period that had begun by then. */
  lemma CompletionCounts(s: Store, env: Env, start: Time)
    requires Rendered(s) && start <= env.now
    ensures Stats.IsCompletedSince(HandleComplete(s, env).tasks[Shown(s)], start)
  {
  }

  /** `handleBack`: leaves the view; nothing else changes. */
  function HandleBack(s: Store): (r: Store)
    ensures r.selectedTaskId == None && !Rendered(r)
    ensures r.tasks == s.tasks && r.slot == s.slot && r.showContextCapture == s.showContextCapture
  {
    SelectTask(s, None)
  }

  /** The buttons the view offers for a task. */
  datatype Action = Resume | Pause | Complete

  /** Resume is always offered; Pause unless the task is paused
      (`status !== 'paused'`); Complete unless it is completed. */
  function Actions(t: Task): (r: set<Action>)
    ensures Resume in r && 2 <= |r| <= 3
    ensures Pause in r <==> t.status != Paused
    ensures Complete in r <==> t.status != Completed
  {
    match t.status
    case Active => {Resume, Pause, Complete}
    case Paused => {Resume, Complete}
    case Completed => {Resume, Pause}
  }

  /** "Previous Context Snapshots": `contexts.slice(0, -1).reverse()`, every
      snapshot but the latest, newest first. */
  function History(cs: seq<Context>): (r: seq<Context>)
    ensures |r| == if cs == [] then 0 else |cs| - 1
    ensures forall k :: 0 <= k < |r| ==> r[k] == cs[|cs| - 2 - k]
  {
    if cs == [] then [] else Reverse(cs[..|cs| - 1])
  }

  /** The section is rendered only when `contexts.length > 1`, that is when
      the history it would show is non-empty. */
  predicate ShowsHistory(cs: seq<Context>) {
    |cs| > 1
  }

  lemma ShowsHistoryIffNonEmpty(cs: seq<Context>)
    ensures ShowsHistory(cs) <==> History(cs) != []
  {
  }

  /** Recording one more snapshot moves the previous latest one to the head
      of the history and leaves the rest of it in order. */
  lemma {:induction false} HistoryAfterSnapshot(cs: seq<Context>, c: Context)
    requires cs != []
    ensures History(cs + [c]) == [cs[|cs| - 1]] + History(cs)
    ensures Utils.GetLatestContext(cs + [c]) == Some(c)
  {
    assert (cs + [c])[..|cs|] == cs;
    var h := History(cs + [c]);
    var h' := [cs[|cs| - 1]] + History(cs);
    assert |h| == |h'|;
    forall k | 0 <= k < |h|
      ensures h[k] == h'[k]
    {
      if k > 0 {
        assert h'[k] == History(cs)[k - 1];
      }
    }
  }
}
