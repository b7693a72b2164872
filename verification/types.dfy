/** The application's data model: a task with its ordered context snapshots.
    Timestamps (`Date` values) are milliseconds since the epoch. */
module Types {
  import opened Optional

  /** Ids come from `crypto.randomUUID()`. */
  type Id = string

  /** An instant, in milliseconds since the epoch. */
  type Time = int

  /** Three statuses, so every `match` on a status is exhaustive. */
  datatype TaskStatus = Active | Paused | Completed

  /** A snapshot of progress taken when the user switches away. */
  datatype Context = Context(
    id: Id,
    timestamp: Time,
    note: string,
    links: seq<string>,
    nextAction: Option<string>,
    audioUrl: Option<string>,
    audioTranscript: Option<string>,
    screenshot: Option<string>)

  datatype Task = Task(
    id: Id,
    title: string,
    status: TaskStatus,
    createdAt: Time,
    lastModified: Time,
    contexts: seq<Context>,
    calendarEventId: Option<Id>,
    autoResumeTime: Option<Time>)
}
