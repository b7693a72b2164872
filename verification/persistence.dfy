/** The persisted slot: the single `localStorage` entry under the key
    'task-context-restorer-tasks' holding the whole task collection as JSON.
    The blob is modelled by its parsed shape; timestamps in it are text, as
    `JSON.stringify` turns every `Date` into a string. */
module Persistence {
  import opened Optional
  import opened Types
  import Decimal

  datatype StoredContext = StoredContext(
    id: Id,
    timestamp: string,
    note: string,
    links: seq<string>,
    nextAction: Option<string>,
    audioUrl: Option<string>,
    audioTranscript: Option<string>,
    screenshot: Option<string>)

  datatype StoredTask = StoredTask(
    id: Id,
    title: string,
    status: TaskStatus,
    createdAt: string,
    lastModified: string,
    contexts: seq<StoredContext>,
    calendarEventId: Option<Id>,
    autoResumeTime: Option<string>)

  /** What `localStorage.getItem` can hand back when the key is present:
      the empty string (falsy, so ignored), text on which `JSON.parse` or the
      subsequent `.map` throws, or an array of task records. */
  datatype Blob = EmptyText | Unparsable | Records(records: seq<StoredTask>)

  /** `None` when the key is absent (`getItem` returns `null`). */
  type Slot = Option<Blob>

  /** A `Date` as JSON text. */
  function EncodeTime(t: Time): string {
    Decimal.IntToText(t)
  }

  /** `new Date(text)`; text that names no instant is `None`. */
  function DecodeTime(s: string): Option<Time> {
    Decimal.TextToInt(s)
  }

  function EncodeContext(c: Context): StoredContext {
    StoredContext(c.id, EncodeTime(c.timestamp), c.note, c.links,
                  c.nextAction, c.audioUrl, c.audioTranscript, c.screenshot)
  }

  function EncodeContexts(cs: seq<Context>): (r: seq<StoredContext>)
    ensures |r| == |cs|
  {
    if cs == [] then [] else EncodeContexts(cs[..|cs| - 1]) + [EncodeContext(cs[|cs| - 1])]
  }

  function EncodeTask(t: Task): StoredTask {
    StoredTask(t.id, t.title, t.status, EncodeTime(t.createdAt), EncodeTime(t.lastModified),
               EncodeContexts(t.contexts), t.calendarEventId,
               match t.autoResumeTime case None => None case Some(a) => Some(EncodeTime(a)))
  }

  function EncodeTasks(ts: seq<Task>): (r: seq<StoredTask>)
    ensures |r| == |ts|
  {
    seq(|ts|, i requires 0 <= i < |ts| => EncodeTask(ts[i]))
  }

  /** `JSON.stringify(tasks)`. */
  function Serialize(ts: seq<Task>): Blob {
    Records(EncodeTasks(ts))
  }

  /** `{ ...ctx, timestamp: new Date(ctx.timestamp) }`. */
  function DecodeContext(c: StoredContext): Option<Context> {
    match DecodeTime(c.timestamp)
    case None => None
    case Some(ts) =>
      Some(Context(c.id, ts, c.note, c.links, c.nextAction, c.audioUrl, c.audioTranscript, c.screenshot))
  }

  /** `task.contexts.map(...)`: every element must decode. */
  function DecodeContexts(cs: seq<StoredContext>): (r: Option<seq<Context>>)
    ensures r.Some? ==> |r.value| == |cs|
  {
    if cs == [] then Some([])
    else
      match (DecodeContexts(cs[..|cs| - 1]), DecodeContext(cs[|cs| - 1]))
      case (Some(init), Some(last)) => Some(init + [last])
      case _ => None
  }

  /** `{ ...task, createdAt: new Date(..), lastModified: new Date(..), contexts: .. }`.
      The optional `autoResumeTime` is read back as an instant as well. */
  function DecodeTask(t: StoredTask): Option<Task> {
    match (DecodeTime(t.createdAt), DecodeTime(t.lastModified), DecodeContexts(t.contexts))
    case (Some(created), Some(modified), Some(cs)) =>
      (match t.autoResumeTime
       case None => Some(Task(t.id, t.title, t.status, created, modified, cs, t.calendarEventId, None))
       case Some(text) =>
         (match DecodeTime(text)
          case None => None
          case Some(a) => Some(Task(t.id, t.title, t.status, created, modified, cs, t.calendarEventId, Some(a)))))
    case _ => None
  }

  function DecodeTasks(ts: seq<StoredTask>): (r: Option<seq<Task>>)
    ensures r.Some? ==> |r.value| == |ts|
  {
    if ts == [] then Some([])
    else
      match (DecodeTasks(ts[..|ts| - 1]), DecodeTask(ts[|ts| - 1]))
      case (Some(init), Some(last)) => Some(init + [last])
      case _ => None
  }

  /** The collection `loadTasks` would install from the slot, or `None` when
      it installs nothing: key absent, empty text, or a parse that throws. */
  function Restore(slot: Slot): Option<seq<Task>> {
    match slot
    case Some(Records(rs)) => DecodeTasks(rs)
    case _ => None
  }

  lemma {:induction false} ContextsRoundTrip(cs: seq<Context>)
    ensures DecodeContexts(EncodeContexts(cs)) == Some(cs)
  {
    if cs != [] {
      var n := |cs| - 1;
      var e := EncodeContexts(cs);
      assert e[..n] == EncodeContexts(cs[..n]);
      assert e[n] == EncodeContext(cs[n]);
      ContextsRoundTrip(cs[..n]);
      Decimal.IntRoundTrip(cs[n].timestamp);
      assert DecodeContexts(e) == Some(cs[..n] + [cs[n]]);
      assert cs[..n] + [cs[n]] == cs;
    }
  }

  lemma TaskRoundTrip(t: Task)
    ensures DecodeTask(EncodeTask(t)) == Some(t)
  {
    Decimal.IntRoundTrip(t.createdAt);
    Decimal.IntRoundTrip(t.lastModified);
    ContextsRoundTrip(t.contexts);
    if t.autoResumeTime.Some? {
      Decimal.IntRoundTrip(t.autoResumeTime.value);
    }
  }

  /** Saving and then loading gives back the same tasks: same ids, same
      field values, same context order, timestamps at the same instants. */
  lemma {:induction false} SaveLoadRoundTrip(ts: seq<Task>)
    ensures Restore(Some(Serialize(ts))) == Some(ts)
  {
    TasksRoundTrip(ts);
  }

  lemma TasksRoundTrip(ts: seq<Task>)
    ensures DecodeTasks(EncodeTasks(ts)) == Some(ts)
  {
    var e := EncodeTasks(ts);
    forall i | 0 <= i < |ts|
      ensures DecodeTask(e[i]) == Some(ts[i])
    {
      TaskRoundTrip(ts[i]);
    }
    DecodeEach(e, ts);
  }

  /** Records that each decode to the task at the same position decode,
      as a whole, to those tasks. */
  lemma {:induction false} DecodeEach(e: seq<StoredTask>, ts: seq<Task>)
    requires |e| == |ts| && forall i :: 0 <= i < |e| ==> DecodeTask(e[i]) == Some(ts[i])
    ensures DecodeTasks(e) == Some(ts)
  {
    if e != [] {
      var n := |e| - 1;
      DecodeEach(e[..n], ts[..n]);
      assert ts[..n] + [ts[n]] == ts;
    }
  }
}
