/** The task list screen: the new-task form and the three status sections. */
module TaskList {
  import opened Types
  import opened Text
  import opened Seqs
  import opened Store

  /** The store together with the form's `newTaskTitle` input. */
  datatype View = View(store: Store, input: string)

  /** `handleSubmit`: a title that trims to nothing is ignored (no task, the
      input kept); otherwise one task titled with the trimmed input is added
      and the input is cleared. */
  function HandleSubmit(v: View, env: Env): (r: View)
    ensures Blank(v.input) ==> r == v
    ensures !Blank(v.input) ==>
      && r.input == []
      && |r.store.tasks| == |v.store.tasks| + 1
      && r.store.tasks[..|v.store.tasks|] == v.store.tasks
      && r.store.selectedTaskId == v.store.selectedTaskId
      && r.store.showContextCapture == v.store.showContextCapture
      && var t := r.store.tasks[|v.store.tasks|];
         && t.status == Active && t.contexts == [] && t.title == Trim(v.input) && Tidy(t.title)
         && t.id == env.freshId && t.createdAt == t.lastModified == env.now
         && t.calendarEventId.None? && t.autoResumeTime.None?
    ensures !Blank(v.input) && UniqueIds(v.store.tasks) && env.freshId !in Ids(v.store.tasks) ==>
      UniqueIds(r.store.tasks)
    ensures !Blank(v.input) ==>
      if env.storageAccepts then Persisted(r.store) else r.store.slot == v.store.slot
  {
    if Blank(v.input) then v
    else
      TidyIffTrimFixed(v.input);
      View(AddTask(v.store, Trim(v.input), env), [])
  }

  /** Every title is non-blank and carries no surrounding whitespace. */
  predicate TitlesClean(ts: seq<Task>) {
    forall i :: 0 <= i < |ts| ==> Tidy(ts[i].title)
  }

  /** Tasks created through the form only ever have clean titles. */
  lemma HandleSubmitKeepsTitlesClean(v: View, env: Env)
    requires TitlesClean(v.store.tasks)
    ensures TitlesClean(HandleSubmit(v, env).store.tasks)
  {
    if !Blank(v.input) {
      var after := HandleSubmit(v, env).store.tasks;
      CleanAppend(v.store.tasks, after);
    }
  }

  lemma CleanAppend(before: seq<Task>, after: seq<Task>)
    requires TitlesClean(before)
    requires |after| == |before| + 1 && after[..|before|] == before
    requires Tidy(after[|before|].title)
    ensures TitlesClean(after)
  {
    forall i | 0 <= i < |before|
      ensures Tidy(after[i].title)
    {
      assert after[i] == after[..|before|][i];
    }
  }

  function HasStatus(st: TaskStatus): Task -> bool {
    (t: Task) => t.status == st
  }

  /** The `activeTasks`, `pausedTasks` and `completedTasks` sections. */
  function Section(ts: seq<Task>, st: TaskStatus): (r: seq<Task>)
    ensures forall t :: t in r <==> t in ts && t.status == st
  {
    Filter(HasStatus(st), ts)
  }

  /** The three sections hold every task exactly once, each in the section
      of its status. */
  lemma {:induction false} SectionsPartition(ts: seq<Task>)
    ensures multiset(Section(ts, Active)) + multiset(Section(ts, Paused)) + multiset(Section(ts, Completed))
      == multiset(ts)
    ensures |Section(ts, Active)| + |Section(ts, Paused)| + |Section(ts, Completed)| == |ts|
  {
    if ts != [] {
      var ts', t := ts[..|ts| - 1], ts[|ts| - 1];
      assert ts == ts' + [t];
      SectionsPartition(ts');
      SectionSnoc(ts', t, Active);
      SectionSnoc(ts', t, Paused);
      SectionSnoc(ts', t, Completed);
      SnocIntoOneOfThree(Section(ts', Active), Section(ts', Paused), Section(ts', Completed), ts', t,
                         Section(ts, Active), Section(ts, Paused), Section(ts, Completed));
    }
  }

  lemma SectionSnoc(ts: seq<Task>, t: Task, st: TaskStatus)
    ensures Section(ts + [t], st) == Section(ts, st) + (if t.status == st then [t] else [])
  {
    FilterSnoc(HasStatus(st), ts, t);
  }

  /** Appending `t` to the whole and to exactly one of three parts keeps the
      parts summing to the whole. */
  lemma SnocIntoOneOfThree<T>(a: seq<T>, p: seq<T>, c: seq<T>, s: seq<T>, t: T, a': seq<T>, p': seq<T>, c': seq<T>)
    requires multiset(a) + multiset(p) + multiset(c) == multiset(s)
    requires || (a' == a + [t] && p' == p && c' == c)
             || (a' == a && p' == p + [t] && c' == c)
             || (a' == a && p' == p && c' == c + [t])
    ensures multiset(a') + multiset(p') + multiset(c') == multiset(s + [t])
  {
  }

  /** Each section lists its tasks in collection order: the sections of a
      collection grown at the end are the old sections grown at the end. */
  lemma SectionOrder(ts: seq<Task>, more: seq<Task>, st: TaskStatus)
    ensures Section(ts + more, st) == Section(ts, st) + Section(more, st)
  {
    FilterAppend(HasStatus(st), ts, more);
  }

  /** "No tasks yet" is shown when all three sections are empty. */
  predicate ShowsEmptyState(ts: seq<Task>) {
    |Section(ts, Active)| == 0 && |Section(ts, Paused)| == 0 && |Section(ts, Completed)| == 0
  }

  /** The placeholder appears exactly when there are no tasks at all. */
  lemma EmptyStateIffNoTasks(ts: seq<Task>)
    ensures ShowsEmptyState(ts) <==> ts == []
  {
    SectionsPartition(ts);
  }
}
