/** The context capture modal: the snapshot form shown when the user pauses
    the selected task, and its submit and cancel handlers. */
module ContextCapture {
  import opened Optional
  import opened Types
  import opened Text
  import opened Seqs
  import opened Store
  import Persistence
  import Utils

  /** The form's local state plus what the voice recorder holds. Media
      values are `None` for `null`; an empty string is falsy as well. */
  datatype Form = Form(
    note: string,
    links: seq<string>,
    nextAction: string,
    showLinks: bool,
    screenshot: Option<string>,
    audioUrl: Option<string>,
    transcript: Option<string>)

  /** The state the form starts in and is reset to: five empty link rows. */
  const EmptyForm: Form := Form("", ["", "", "", "", ""], "", false, None, None, None)

  /** The modal renders only while the flag is set and a task is selected
      (a selected id of `''` is falsy too). */
  predicate Rendered(s: Store) {
    s.showContextCapture && s.selectedTaskId.Some? && s.selectedTaskId.value != []
  }

  /** `x || undefined` on an optional string. */
  function OrUndefined(x: Option<string>): (r: Option<string>)
    ensures r.None? <==> x.None? || x.value == []
    ensures r.Some? ==> r == x
  {
    match x
    case Some(v) => if v == [] then None else x
    case None => None
  }

  /** `nextAction.trim() || undefined`. */
  function NextActionValue(nextAction: string): (r: Option<string>)
    ensures r.None? <==> Blank(nextAction)
    ensures r.Some? ==> r.value == Trim(nextAction) && Tidy(r.value)
  {
    TidyIffTrimFixed(nextAction);
    if Blank(nextAction) then None else Some(Trim(nextAction))
  }

  /** `a` is `b` paused at `now` with exactly one more context at the end of
      its history; every other field is as it was. */
  predicate PausedWithOneMore(b: Task, a: Task, now: Time) {
    && a.status == Paused
    && a.lastModified == now
    && |a.contexts| == |b.contexts| + 1
    && a.contexts[..|b.contexts|] == b.contexts
    && a == b.(status := Paused, contexts := a.contexts, lastModified := now)
  }

  /** The snapshot a submit of `f` records. */
  predicate RecordsForm(c: Context, f: Form, id: Id, now: Time) {
    && c.id == id && c.timestamp == now
    && c.note == Trim(f.note) && Tidy(c.note)
    && c.links == NonBlankLinks(f.links)
    && c.nextAction == NextActionValue(f.nextAction)
    && c.audioUrl == OrUndefined(f.audioUrl)
    && c.audioTranscript == OrUndefined(f.transcript)
    && c.screenshot == OrUndefined(f.screenshot)
  }

  /** `after` is `before` with one snapshot recording `f` appended to every
      task with the id, status unchanged; every other task is as it was. */
  predicate SnapshotAdded(before: seq<Task>, after: seq<Task>, f: Form, id: Id, env: Env) {
    && |after| == |before|
    && (forall i :: 0 <= i < |before| && before[i].id != id ==> after[i] == before[i])
    && (forall i :: 0 <= i < |before| && before[i].id == id ==>
          && AppendedOne(before[i], after[i], env.now)
          && RecordsForm(after[i].contexts[|before[i].contexts|], f, env.freshId, env.now))
  }

  /** `handleSubmit`: a note that trims to nothing is ignored. Otherwise the
      snapshot is added to the selected task (`addContext`, reading `env`),
      the task is paused (`updateTaskStatus`, reading `later`), the modal is
      closed and the form reset. */
  function HandleSubmit(s: Store, f: Form, env: Env, later: Env): (r: (Store, Form))
    requires Rendered(s)
    ensures Blank(f.note) ==> r == (s, f)
    ensures !Blank(f.note) ==>
      var (s', f') := r;
      var id := s.selectedTaskId.value;
      && f' == EmptyForm
      && !s'.showContextCapture && s'.selectedTaskId == s.selectedTaskId
      && |s'.tasks| == |s.tasks|
      && (forall i :: 0 <= i < |s.tasks| && s.tasks[i].id != id ==> s'.tasks[i] == s.tasks[i])
      && (forall i :: 0 <= i < |s.tasks| && s.tasks[i].id == id ==>
            && PausedWithOneMore(s.tasks[i], s'.tasks[i], later.now)
            && RecordsForm(s'.tasks[i].contexts[|s.tasks[i].contexts|], f, env.freshId, env.now))
      && Extends(s.tasks, s'.tasks)
      && Ids(s'.tasks) == Ids(s.tasks)
      && (later.storageAccepts ==> Persisted(s'))
      && (env.storageAccepts && !later.storageAccepts ==>
            var saved := Persistence.Restore(s'.slot);
            saved.Some? && SnapshotAdded(s.tasks, saved.value, f, id, env))
      && (!env.storageAccepts && !later.storageAccepts ==> s'.slot == s.slot)
  {
    if Blank(f.note) then (s, f)
    else
      var id := s.selectedTaskId.value;
      TidyIffTrimFixed(f.note);
      var s1 := AddContext(s, id, Trim(f.note), f.links, NextActionValue(f.nextAction),
                           OrUndefined(f.audioUrl), OrUndefined(f.transcript), OrUndefined(f.screenshot), env);
      var s2 := UpdateTaskStatus(s1, id, Paused, later);
      ExtendsTransitive(s.tasks, s1.tasks, s2.tasks);
      AddContextRecordsForm(s, f, env);
      (SetShowContextCapture(s2, false), EmptyForm)
  }

  /** The `addContext` call of a submit adds the snapshot the form records. */
  lemma AddContextRecordsForm(s: Store, f: Form, env: Env)
    requires Rendered(s) && !Blank(f.note)
    ensures var id := s.selectedTaskId.value;
      var s1 := AddContext(s, id, Trim(f.note), f.links, NextActionValue(f.nextAction),
                           OrUndefined(f.audioUrl), OrUndefined(f.transcript), OrUndefined(f.screenshot), env);
      SnapshotAdded(s.tasks, s1.tasks, f, id, env)
  {
    TidyIffTrimFixed(f.note);
  }

  /** `handleCancel`: resets the form and closes the modal; no task changes
      and nothing is saved. */
  function HandleCancel(s: Store, f: Form): (r: (Store, Form))
    ensures r.1 == EmptyForm
    ensures !r.0.showContextCapture
    ensures r.0.tasks == s.tasks && r.0.slot == s.slot && r.0.selectedTaskId == s.selectedTaskId
  {
    (SetShowContextCapture(s, false), EmptyForm)
  }

  /** After a submit that went through, the selected task's latest snapshot
      (what the detail view shows as "where you left off") is the one just
      recorded from the form. */
  lemma LatestIsSubmitted(s: Store, f: Form, env: Env, later: Env, i: nat)
    requires Rendered(s) && !Blank(f.note)
    requires i < |s.tasks| && s.tasks[i].id == s.selectedTaskId.value
    ensures var t := HandleSubmit(s, f, env, later).0.tasks[i];
      && t.status == Paused
      && Utils.GetLatestContext(t.contexts).Some?
      && RecordsForm(Utils.GetLatestContext(t.contexts).value, f, env.freshId, env.now)
  {
  }

  /** A submit closes the modal, so the store no longer renders it; a blank
      note keeps it open. */
  lemma SubmitClosesModal(s: Store, f: Form, env: Env, later: Env)
    requires Rendered(s)
    ensures Rendered(HandleSubmit(s, f, env, later).0) <==> Blank(f.note)
  {
  }
}
