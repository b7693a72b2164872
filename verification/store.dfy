/** The task store (`useTaskStore`): the task collection, the UI selection
    state, and the persisted slot that every task mutation rewrites in full.
    Each action is a function from the old store to the new one. */
module Store {
  import opened Optional
  import opened Types
  import opened Persistence
  import opened Text
  import opened Seqs

  datatype Store = Store(
    tasks: seq<Task>,
    selectedTaskId: Option<Id>,
    showContextCapture: bool,
    slot: Slot)

  /** The store as created, before `loadTasks` runs at mount; the slot holds
      whatever an earlier session left there. */
  function Initial(slot: Slot): (r: Store)
    ensures r.tasks == [] && r.selectedTaskId == None && !r.showContextCapture
  {
    Store([], None, false, slot)
  }

  /** What each action reads from its surroundings: the clock (`new Date()`),
      the id `crypto.randomUUID()` yields, and whether `localStorage.setItem`
      accepts the write (a quota error drops it). */
  datatype Env = Env(now: Time, freshId: Id, storageAccepts: bool)

  /** The ids of `ts`, position by position. */
  function Ids(ts: seq<Task>): (r: seq<Id>)
    ensures |r| == |ts| && forall i :: 0 <= i < |ts| ==> r[i] == ts[i].id
  {
    seq(|ts|, i requires 0 <= i < |ts| => ts[i].id)
  }

  /** No two tasks share an id. */
  predicate UniqueIds(ts: seq<Task>) {
    forall i, j :: 0 <= i < j < |ts| ==> ts[i].id != ts[j].id
  }

  /** The slot holds exactly the current collection. */
  predicate Persisted(s: Store) {
    Restore(s.slot) == Some(s.tasks)
  }

  /** `after` keeps every task of `before` at its position with the same id,
      title and creation time, and with its old contexts as a prefix: nothing
      is deleted, reordered or rewritten in history. */
  predicate Extends(before: seq<Task>, after: seq<Task>) {
    && |before| <= |after|
    && forall i :: 0 <= i < |before| ==> KeepsHistory(before[i], after[i])
  }

  predicate KeepsHistory(b: Task, a: Task) {
    && a.id == b.id
    && a.title == b.title
    && a.createdAt == b.createdAt
    && b.contexts <= a.contexts
    && a.calendarEventId == b.calendarEventId
    && a.autoResumeTime == b.autoResumeTime
  }

  lemma ExtendsTransitive(a: seq<Task>, b: seq<Task>, c: seq<Task>)
    requires Extends(a, b) && Extends(b, c)
    ensures Extends(a, c)
  {
  }

  /** `saveTasks`: writes the whole collection; a rejected write leaves the
      slot as it was and is not reported. */
  function SaveTasks(s: Store, accepted: bool): (r: Store)
    ensures r.tasks == s.tasks && r.selectedTaskId == s.selectedTaskId
    ensures r.showContextCapture == s.showContextCapture
    ensures accepted ==> Persisted(r)
    ensures !accepted ==> r == s
  {
    SaveLoadRoundTrip(s.tasks);
    if accepted then s.(slot := Some(Serialize(s.tasks))) else s
  }

  /** The task `addTask` creates. */
  function NewTask(id: Id, title: string, now: Time): Task {
    Task(id, title, Active, now, now, [], None, None)
  }

  /** `addTask(title)`: appends one active task with no contexts. The store
      itself accepts any title, blank ones included. */
  function AddTask(s: Store, title: string, env: Env): (r: Store)
    ensures |r.tasks| == |s.tasks| + 1 && r.tasks[..|s.tasks|] == s.tasks
    ensures var t := r.tasks[|s.tasks|];
      && t.id == env.freshId && t.title == title && t.status == Active
      && t.contexts == [] && t.createdAt == t.lastModified == env.now
      && t.calendarEventId == None && t.autoResumeTime == None
    ensures Extends(s.tasks, r.tasks)
    ensures UniqueIds(s.tasks) && env.freshId !in Ids(s.tasks) ==> UniqueIds(r.tasks)
    ensures r.selectedTaskId == s.selectedTaskId && r.showContextCapture == s.showContextCapture
    ensures env.storageAccepts ==> Persisted(r)
    ensures !env.storageAccepts ==> r.slot == s.slot
  {
    var r := SaveTasks(s.(tasks := s.tasks + [NewTask(env.freshId, title, env.now)]), env.storageAccepts);
    assert forall i :: 0 <= i < |s.tasks| ==> s.tasks[i].id == Ids(s.tasks)[i];
    r
  }

  /** One task after `updateTaskStatus(id, status)`. */
  function WithStatus(t: Task, id: Id, status: TaskStatus, now: Time): Task {
    if t.id == id then t.(status := status, lastModified := now) else t
  }

  /** `updateTaskStatus(id, status)`: every task with that id gets the status
      and a fresh `lastModified`; every other task is left as it was; no
      transition is refused. The slot is rewritten even when no task matches. */
  function UpdateTaskStatus(s: Store, id: Id, status: TaskStatus, env: Env): (r: Store)
    ensures |r.tasks| == |s.tasks|
    ensures forall i :: 0 <= i < |s.tasks| && s.tasks[i].id != id ==> r.tasks[i] == s.tasks[i]
    ensures forall i :: 0 <= i < |s.tasks| && s.tasks[i].id == id ==>
      r.tasks[i].status == status && r.tasks[i].lastModified == env.now
      && r.tasks[i] == s.tasks[i].(status := r.tasks[i].status, lastModified := r.tasks[i].lastModified)
    ensures id !in Ids(s.tasks) ==> r.tasks == s.tasks
    ensures Extends(s.tasks, r.tasks)
    ensures Ids(r.tasks) == Ids(s.tasks)
    ensures r.selectedTaskId == s.selectedTaskId && r.showContextCapture == s.showContextCapture
    ensures env.storageAccepts ==> Persisted(r)
    ensures !env.storageAccepts ==> r.slot == s.slot
  {
    var ts := seq(|s.tasks|, i requires 0 <= i < |s.tasks| => WithStatus(s.tasks[i], id, status, env.now));
    assert id !in Ids(s.tasks) ==> ts == s.tasks by {
      if id !in Ids(s.tasks) {
        assert forall i :: 0 <= i < |s.tasks| ==> s.tasks[i].id == Ids(s.tasks)[i];
      }
    }
    SaveTasks(s.(tasks := ts), env.storageAccepts)
  }

  /** The links a new context keeps: `links.filter(l => l.trim() !== '')`. */
  function NonBlankLinks(links: seq<string>): seq<string> {
    Filter(l => !Blank(l), links)
  }

  /** Dropping blank links keeps the rest in order: it distributes over
      concatenation. */
  lemma NonBlankLinksOrder(links: seq<string>, more: seq<string>)
    ensures NonBlankLinks(links + more) == NonBlankLinks(links) + NonBlankLinks(more)
  {
    FilterAppend(l => !Blank(l), links, more);
  }

  /** Dropping blank links twice is dropping them once, so the caller's own
      filtering before `addContext` changes nothing. */
  lemma NonBlankLinksIdempotent(links: seq<string>)
    ensures NonBlankLinks(NonBlankLinks(links)) == NonBlankLinks(links)
  {
    FilterIdempotent(l => !Blank(l), links);
  }

  /** Exactly the blank links are dropped: the kept and the blank links
      together are the input, counted with multiplicity. */
  lemma NonBlankLinksSplit(links: seq<string>)
    ensures multiset(NonBlankLinks(links)) + multiset(Filter(l => Blank(l), links)) == multiset(links)
    ensures forall l :: l in NonBlankLinks(links) <==> l in links && !Blank(l)
  {
    FilterSplit(l => !Blank(l), l => Blank(l), links);
  }

  /** The context `addContext` creates. */
  function NewContext(
    id: Id, now: Time, note: string, links: seq<string>, nextAction: Option<string>,
    audioUrl: Option<string>, audioTranscript: Option<string>, screenshot: Option<string>): Context
  {
    Context(id, now, note, NonBlankLinks(links), nextAction, audioUrl, audioTranscript, screenshot)
  }

  /** `a` is `b` with one more context at the end of its history and a new
      `lastModified`; every other field is as it was. */
  predicate AppendedOne(b: Task, a: Task, now: Time) {
    && |a.contexts| == |b.contexts| + 1
    && a.contexts[..|b.contexts|] == b.contexts
    && a == b.(contexts := a.contexts, lastModified := now)
  }

  /** `c` was taken at `now` under id `id` from the given inputs, keeping
      exactly the non-blank links in their order. */
  predicate CarriesInputs(
    c: Context, id: Id, now: Time, note: string, links: seq<string>, nextAction: Option<string>,
    audioUrl: Option<string>, audioTranscript: Option<string>, screenshot: Option<string>)
  {
    && c.id == id && c.timestamp == now && c.note == note
    && c.nextAction == nextAction && c.audioUrl == audioUrl
    && c.audioTranscript == audioTranscript && c.screenshot == screenshot
    && c.links == NonBlankLinks(links)
  }

  /** One task after `addContext(id, ...)` with the new context `c`. */
  function WithContext(t: Task, id: Id, c: Context, now: Time): Task {
    if t.id == id then t.(contexts := t.contexts + [c], lastModified := now) else t
  }

  lemma WithContextAppends(t: Task, id: Id, c: Context, now: Time)
    ensures KeepsHistory(t, WithContext(t, id, c, now))
    ensures t.id == id ==>
      AppendedOne(t, WithContext(t, id, c, now), now) && WithContext(t, id, c, now).contexts[|t.contexts|] == c
  {
  }

  /** `addContext(id, note, links, nextAction?, audioUrl?, audioTranscript?, screenshot?)`:
      every task with that id gains one context at the end of its history,
      carrying the given fields, the non-blank links and the current time;
      every other task is left as it was. The store accepts a blank note. */
  function AddContext(
    s: Store, id: Id, note: string, links: seq<string>, nextAction: Option<string>,
    audioUrl: Option<string>, audioTranscript: Option<string>, screenshot: Option<string>,
    env: Env): (r: Store)
    ensures |r.tasks| == |s.tasks|
    ensures forall i :: 0 <= i < |s.tasks| && s.tasks[i].id != id ==> r.tasks[i] == s.tasks[i]
    ensures forall i :: 0 <= i < |s.tasks| && s.tasks[i].id == id ==>
      && AppendedOne(s.tasks[i], r.tasks[i], env.now)
      && CarriesInputs(r.tasks[i].contexts[|s.tasks[i].contexts|], env.freshId, env.now,
                       note, links, nextAction, audioUrl, audioTranscript, screenshot)
    ensures id !in Ids(s.tasks) ==> r.tasks == s.tasks
    ensures Extends(s.tasks, r.tasks)
    ensures Ids(r.tasks) == Ids(s.tasks)
    ensures r.selectedTaskId == s.selectedTaskId && r.showContextCapture == s.showContextCapture
    ensures env.storageAccepts ==> Persisted(r)
    ensures !env.storageAccepts ==> r.slot == s.slot
  {
    var c := NewContext(env.freshId, env.now, note, links, nextAction, audioUrl, audioTranscript, screenshot);
    SaveTasks(s.(tasks := AppendToMatching(s.tasks, id, c, env.now)), env.storageAccepts)
  }

  /** `tasks.map(...)` in `addContext`: every task with the id gains `c` at
      the end of its history and nothing else but `lastModified`; every
      other task is kept; an unknown id changes nothing. */
  function AppendToMatching(tasks: seq<Task>, id: Id, c: Context, now: Time): (r: seq<Task>)
    ensures |r| == |tasks|
    ensures id !in Ids(tasks) ==> r == tasks
    ensures forall i :: 0 <= i < |tasks| && tasks[i].id != id ==> r[i] == tasks[i]
    ensures forall i :: 0 <= i < |tasks| && tasks[i].id == id ==>
      AppendedOne(tasks[i], r[i], now) && r[i].contexts[|tasks[i].contexts|] == c
    ensures Extends(tasks, r)
    ensures Ids(r) == Ids(tasks)
  {
    var ts := seq(|tasks|, i requires 0 <= i < |tasks| => WithContext(tasks[i], id, c, now));
    MapWithContextFacts(tasks, id, c, now, ts);
    ts
  }

  lemma MapWithContextFacts(tasks: seq<Task>, id: Id, c: Context, now: Time, ts: seq<Task>)
    requires |ts| == |tasks| && forall i :: 0 <= i < |tasks| ==> ts[i] == WithContext(tasks[i], id, c, now)
    ensures id !in Ids(tasks) ==> ts == tasks
    ensures forall i :: 0 <= i < |tasks| && tasks[i].id == id ==>
      AppendedOne(tasks[i], ts[i], now) && ts[i].contexts[|tasks[i].contexts|] == c
    ensures Extends(tasks, ts)
    ensures Ids(ts) == Ids(tasks)
  {
    if id !in Ids(tasks) {
      assert forall i :: 0 <= i < |tasks| ==> tasks[i].id == Ids(tasks)[i];
    }
    forall i | 0 <= i < |tasks|
      ensures KeepsHistory(tasks[i], ts[i])
      ensures tasks[i].id == id ==>
        AppendedOne(tasks[i], ts[i], now) && ts[i].contexts[|tasks[i].contexts|] == c
    {
      WithContextAppends(tasks[i], id, c, now);
    }
  }

  /** `selectTask(id)`: only the selection changes; nothing is saved. */
  function SelectTask(s: Store, id: Option<Id>): (r: Store)
    ensures r.selectedTaskId == id
    ensures r.tasks == s.tasks && r.slot == s.slot && r.showContextCapture == s.showContextCapture
  {
    s.(selectedTaskId := id)
  }

  /** `setShowContextCapture(show)`: only the flag changes; nothing is saved. */
  function SetShowContextCapture(s: Store, show: bool): (r: Store)
    ensures r.showContextCapture == show
    ensures r.tasks == s.tasks && r.slot == s.slot && r.selectedTaskId == s.selectedTaskId
  {
    s.(showContextCapture := show)
  }

  /** `loadTasks`: installs the collection the slot holds; when the key is
      absent, the text empty or the parse throws, the store is unchanged. */
  function LoadTasks(s: Store): (r: Store)
    ensures Restore(s.slot).Some? ==> r.tasks == Restore(s.slot).value
    ensures Restore(s.slot).None? ==> r == s
    ensures r.slot == s.slot && r.selectedTaskId == s.selectedTaskId
    ensures r.showContextCapture == s.showContextCapture
  {
    match Restore(s.slot)
    case Some(ts) => s.(tasks := ts)
    case None => s
  }

  /** Loading right after a save that went through changes nothing. */
  lemma LoadAfterSave(s: Store)
    ensures LoadTasks(SaveTasks(s, true)) == SaveTasks(s, true)
  {
  }

  /** After any task mutation whose write went through, a reload (the next
      session's `loadTasks` at mount) restores exactly the current tasks. */
  lemma ReloadRestoresTasks(s: Store)
    requires Persisted(s)
    ensures LoadTasks(Initial(s.slot)).tasks == s.tasks
  {
  }
}
