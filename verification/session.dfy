/** The application as a whole: the store with the task-list input and the
    capture form, driven by the user's actions through the screens' handlers.
    A handler only fires while its screen is rendered. The capture modal's
    overlay stops pointer clicks only: the detail view stays mounted under
    it and its buttons remain reachable from the keyboard. */
module Session {
  import opened Optional
  import opened Types
  import opened Text
  import opened Seqs
  import opened Persistence
  import opened Store
  import TaskList
  import ContextCapture
  import ContextView
  import Stats

  datatype App = App(store: Store, input: string, form: ContextCapture.Form)

  /** What the user can do. `Open` is choosing a task in the list; `Reload`
      is a new session starting from whatever the slot holds. */
  datatype Event =
    | TypeTitle(text: string)
    | SubmitTitle
    | Open(id: Id)
    | FillForm(form: ContextCapture.Form)
    | SubmitCapture
    | CancelCapture
    | Resume
    | Pause
    | Complete
    | Back
    | Reload

  /** The list is on screen while no task is selected (`selectedTaskId` is
      falsy); the detail view replaces it otherwise. */
  predicate ListShown(s: Store) {
    s.selectedTaskId.None? || s.selectedTaskId.value == []
  }

  /** The detail view is mounted and has a button for `action`. */
  predicate Offers(s: Store, action: ContextView.Action) {
    ContextView.Rendered(s) && action in ContextView.Actions(s.tasks[ContextView.Shown(s)])
  }

  /** One user action. `env` is what the action reads; `later` is the second
      store call of a capture submit. Selecting a task replaces the list by
      the detail view, which unmounts the list and so drops its typed title. */
  function Step(a: App, ev: Event, env: Env, later: Env): App {
    match ev
    case TypeTitle(text) => if ListShown(a.store) then a.(input := text) else a
    case SubmitTitle =>
      if ListShown(a.store) then
        var v := TaskList.HandleSubmit(TaskList.View(a.store, a.input), env);
        a.(store := v.store, input := v.input)
      else a
    case Open(id) =>
      if ListShown(a.store) then
        var s' := SelectTask(a.store, Some(id));
        a.(store := s', input := if ListShown(s') then a.input else [])
      else a
    case FillForm(f) => if ContextCapture.Rendered(a.store) then a.(form := f) else a
    case SubmitCapture =>
      if ContextCapture.Rendered(a.store) then
        var (s', f') := ContextCapture.HandleSubmit(a.store, a.form, env, later);
        a.(store := s', form := f')
      else a
    case CancelCapture =>
      if ContextCapture.Rendered(a.store) then
        var (s', f') := ContextCapture.HandleCancel(a.store, a.form);
        a.(store := s', form := f')
      else a
    case Resume =>
      if ContextView.Rendered(a.store) then a.(store := ContextView.HandleResume(a.store, env)) else a
    case Pause =>
      if Offers(a.store, ContextView.Pause) then a.(store := ContextView.HandlePause(a.store)) else a
    case Complete =>
      if Offers(a.store, ContextView.Complete) then a.(store := ContextView.HandleComplete(a.store, env)) else a
    case Back =>
      if ContextView.Rendered(a.store) then a.(store := ContextView.HandleBack(a.store)) else a
    case Reload => App(LoadTasks(Initial(a.store.slot)), [], ContextCapture.EmptyForm)
  }

  /** A snapshot as the capture form records it: a tidy note, no blank
      link, and a next action that is absent or tidy. */
  predicate CleanContext(c: Context) {
    && Tidy(c.note)
    && (forall j :: 0 <= j < |c.links| ==> !Blank(c.links[j]))
    && (c.nextAction.None? || Tidy(c.nextAction.value))
  }

  /** A history as the capture form records it: clean snapshots only. */
  predicate CleanHistory(t: Task) {
    forall k :: 0 <= k < |t.contexts| ==> CleanContext(t.contexts[k])
  }

  /** Unique ids, clean titles and clean histories. */
  predicate Healthy(ts: seq<Task>) {
    UniqueIds(ts) && TaskList.TitlesClean(ts) && forall i :: 0 <= i < |ts| ==> CleanHistory(ts[i])
  }

  /** Whatever the slot would restore is healthy. */
  predicate SlotHealthy(slot: Slot) {
    Restore(slot).Some? ==> Healthy(Restore(slot).value)
  }

  /** The invariant: the tasks in memory and whatever the slot would restore
      are both healthy. */
  predicate Inv(a: App) {
    Healthy(a.store.tasks) && SlotHealthy(a.store.slot)
  }

  /** A session starting from a healthy slot starts healthy. */
  lemma InitialInv(slot: Slot)
    requires SlotHealthy(slot)
    ensures Inv(App(LoadTasks(Initial(slot)), [], ContextCapture.EmptyForm))
  {
  }

  /** Every action keeps the invariant, given that `crypto.randomUUID()`
      does not repeat an id already in use. */
  lemma StepKeepsInv(a: App, ev: Event, env: Env, later: Env)
    requires Inv(a) && env.freshId !in Ids(a.store.tasks)
    ensures Inv(Step(a, ev, env, later))
  {
    match ev
    case SubmitTitle =>
      if ListShown(a.store) {
        SubmitTitleKeepsInv(a, env);
      }
    case SubmitCapture =>
      if ContextCapture.Rendered(a.store) {
        SubmitCaptureKeepsInv(a, env, later);
      }
    case Resume =>
      if ContextView.Rendered(a.store) {
        var t := a.store.tasks[ContextView.Shown(a.store)];
        if t.status != Active {
          StatusKeepsInv(a.store, t.id, Active, env);
        }
      }
    case Complete =>
      if Offers(a.store, ContextView.Complete) {
        StatusKeepsInv(a.store, a.store.tasks[ContextView.Shown(a.store)].id, Completed, env);
      }
    case _ =>
  }

  /** Tasks whose ids line up position by position are unique together. */
  lemma SameIdsSameUniqueness(a: seq<Task>, b: seq<Task>)
    requires Ids(a) == Ids(b)
    ensures UniqueIds(a) <==> UniqueIds(b)
  {
    assert forall i :: 0 <= i < |a| ==> a[i].id == Ids(a)[i] == Ids(b)[i] == b[i].id;
  }

  /** A write either stores the current, healthy tasks or leaves the slot. */
  lemma SlotKept(before: Slot, r: Store)
    requires SlotHealthy(before) && Healthy(r.tasks)
    requires Persisted(r) || r.slot == before
    ensures SlotHealthy(r.slot)
  {
  }

  lemma SubmitTitleKeepsInv(a: App, env: Env)
    requires Inv(a) && ListShown(a.store) && env.freshId !in Ids(a.store.tasks)
    ensures Inv(Step(a, SubmitTitle, env, env))
  {
    var s := a.store;
    if !Blank(a.input) {
      var r := TaskList.HandleSubmit(TaskList.View(s, a.input), env).store;
      TaskList.HandleSubmitKeepsTitlesClean(TaskList.View(s, a.input), env);
      AppendClean(s.tasks, r.tasks);
      SlotKept(s.slot, r);
    }
  }

  /** Appending a task with no history keeps every history clean. */
  lemma AppendClean(before: seq<Task>, after: seq<Task>)
    requires forall i :: 0 <= i < |before| ==> CleanHistory(before[i])
    requires |after| == |before| + 1 && after[..|before|] == before
    requires after[|before|].contexts == []
    ensures forall i :: 0 <= i < |after| ==> CleanHistory(after[i])
  {
    forall i | 0 <= i < |before|
      ensures CleanHistory(after[i])
    {
      assert after[i] == after[..|before|][i];
    }
  }

  lemma StatusKeepsInv(s: Store, id: Id, status: TaskStatus, env: Env)
    requires Healthy(s.tasks) && SlotHealthy(s.slot)
    ensures var r := UpdateTaskStatus(s, id, status, env);
      Healthy(r.tasks) && SlotHealthy(r.slot)
  {
    var r := UpdateTaskStatus(s, id, status, env);
    SameIdsSameUniqueness(s.tasks, r.tasks);
    forall i | 0 <= i < |r.tasks|
      ensures Tidy(r.tasks[i].title) && CleanHistory(r.tasks[i])
    {
      assert r.tasks[i].title == s.tasks[i].title && r.tasks[i].contexts == s.tasks[i].contexts;
    }
    SlotKept(s.slot, r);
  }

  /** Adding a snapshot with a tidy note and next action keeps the store
      healthy; the stored links are non-blank by construction. */
  lemma AddContextKeepsInv(
    s: Store, id: Id, note: string, links: seq<string>, nextAction: Option<string>,
    audioUrl: Option<string>, audioTranscript: Option<string>, screenshot: Option<string>, env: Env)
    requires Healthy(s.tasks) && SlotHealthy(s.slot)
    requires Tidy(note) && (nextAction.None? || Tidy(nextAction.value))
    ensures var r := AddContext(s, id, note, links, nextAction, audioUrl, audioTranscript, screenshot, env);
      Healthy(r.tasks) && SlotHealthy(r.slot)
  {
    var r := AddContext(s, id, note, links, nextAction, audioUrl, audioTranscript, screenshot, env);
    SameIdsSameUniqueness(s.tasks, r.tasks);
    NewContextClean(env.freshId, env.now, note, links, nextAction, audioUrl, audioTranscript, screenshot);
    var c := NewContext(env.freshId, env.now, note, links, nextAction, audioUrl, audioTranscript, screenshot);
    forall i | 0 <= i < |r.tasks|
      ensures Tidy(r.tasks[i].title) && CleanHistory(r.tasks[i])
    {
      if s.tasks[i].id == id {
        assert r.tasks[i] == s.tasks[i].(contexts := s.tasks[i].contexts + [c], lastModified := env.now);
        AppendContextClean(s.tasks[i], c, env.now);
      }
    }
    SlotKept(s.slot, r);
  }

  /** The snapshot `addContext` builds from a tidy note and next action is clean. */
  lemma NewContextClean(
    id: Id, now: Time, note: string, links: seq<string>, nextAction: Option<string>,
    audioUrl: Option<string>, audioTranscript: Option<string>, screenshot: Option<string>)
    requires Tidy(note) && (nextAction.None? || Tidy(nextAction.value))
    ensures CleanContext(NewContext(id, now, note, links, nextAction, audioUrl, audioTranscript, screenshot))
  {
    var kept := NonBlankLinks(links);
    NonBlankLinksSplit(links);
    assert forall j :: 0 <= j < |kept| ==> kept[j] in kept;
  }

  lemma AppendContextClean(t: Task, c: Context, now: Time)
    requires CleanHistory(t) && CleanContext(c)
    ensures CleanHistory(t.(contexts := t.contexts + [c], lastModified := now))
  {
  }

  lemma SubmitCaptureKeepsInv(a: App, env: Env, later: Env)
    requires Inv(a) && ContextCapture.Rendered(a.store)
    ensures Inv(Step(a, SubmitCapture, env, later))
  {
    var s, f := a.store, a.form;
    if !Blank(f.note) {
      var id := s.selectedTaskId.value;
      TidyIffTrimFixed(f.note);
      var nextAction := ContextCapture.NextActionValue(f.nextAction);
      AddContextKeepsInv(s, id, Trim(f.note), f.links, nextAction, ContextCapture.OrUndefined(f.audioUrl),
                         ContextCapture.OrUndefined(f.transcript), ContextCapture.OrUndefined(f.screenshot), env);
      var s1 := AddContext(s, id, Trim(f.note), f.links, nextAction, ContextCapture.OrUndefined(f.audioUrl),
                           ContextCapture.OrUndefined(f.transcript), ContextCapture.OrUndefined(f.screenshot), env);
      StatusKeepsInv(s1, id, Paused, later);
    }
  }

  /** Recording a snapshot on a task adds exactly one to the dashboard's
      `totalContextSwitches` when ids are unique and the task exists. */
  lemma AddContextCountsOneSwitch(
    s: Store, i: nat, note: string, links: seq<string>, nextAction: Option<string>,
    audioUrl: Option<string>, audioTranscript: Option<string>, screenshot: Option<string>, env: Env)
    requires UniqueIds(s.tasks) && i < |s.tasks|
    ensures var r := AddContext(s, s.tasks[i].id, note, links, nextAction, audioUrl, audioTranscript, screenshot, env);
      Stats.TotalContextSwitches(r.tasks) == Stats.TotalContextSwitches(s.tasks) + 1
  {
    var id := s.tasks[i].id;
    var r := AddContext(s, id, note, links, nextAction, audioUrl, audioTranscript, screenshot, env);
    var before := Stats.ContextCounts(s.tasks);
    assert Stats.ContextCounts(r.tasks) == before[i := before[i] + 1];
    SumIncrement(before, i);
  }

  /** Opening a task unmounts the list, so a title typed before and not
      submitted is gone when the list comes back. */
  lemma OpenDropsTypedTitle(a: App, id: Id, env: Env, later: Env)
    requires ListShown(a.store) && id != []
    ensures var b := Step(a, Open(id), env, later);
      b.input == [] && b.store.selectedTaskId == Some(id) && b.store.tasks == a.store.tasks
    ensures var b := Step(Step(a, Open(id), env, later), SubmitTitle, env, later);
      b.store.tasks == a.store.tasks
  {
  }

  /** While the capture modal is shown the list is unmounted, so its form
      changes nothing. */
  lemma ModalHidesList(a: App, ev: Event, env: Env, later: Env)
    requires ContextCapture.Rendered(a.store)
    requires ev.SubmitTitle? || ev.TypeTitle?
    ensures Step(a, ev, env, later) == a
  {
  }

  /** The overlay does not stop the keyboard: pressing the view's Complete
      or Back button behind the open modal leaves the view, and with it the
      modal, while the modal flag stays set. The next task opened from the
      list then comes up with the capture modal over it. */
  lemma KeyboardBehindModal(a: App, ev: Event, id: Id, env: Env, later: Env)
    requires ContextCapture.Rendered(a.store) && ContextView.Rendered(a.store)
    requires ev.Back? || (ev.Complete? && Offers(a.store, ContextView.Complete))
    requires id != []
    ensures var b := Step(a, ev, env, later);
      && b.store.showContextCapture && ListShown(b.store)
      && !ContextCapture.Rendered(b.store) && !ContextView.Rendered(b.store)
      && |b.store.tasks| == |a.store.tasks|
      && (ev.Complete? ==> b.store.tasks[ContextView.Shown(a.store)].status == Completed)
    ensures ContextCapture.Rendered(Step(Step(a, ev, env, later), Open(id), env, later).store)
  {
    var b := Step(a, ev, env, later);
    if ev.Complete? {
      assert b.store == ContextView.HandleComplete(a.store, env);
    } else {
      assert b.store == ContextView.HandleBack(a.store);
    }
  }
}
