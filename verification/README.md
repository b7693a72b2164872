# Task context restorer — a Dafny model

The application keeps a list of tasks. Each task has an ordered history of
context snapshots: a note, links, a next action and optional media. Each
snapshot is taken when the user pauses the task. Later, the latest
snapshot shows "where you left off".

This project models the core of the application as pure functions over
immutable values:

- the data model (`Types`);
- the task store with its `localStorage` slot (`Store`, `Persistence`);
- the `getLatestContext` helper (`Utils`);
- the dashboard statistics engine (`Stats`);
- the event handlers and render guards of the four screens: `TaskList`,
  `ContextCapture`, `ContextView` and `Dashboard`;
- the application as a whole, driven by user events (`Session`).

Supporting modules:

- `Text` models ECMAScript `String.prototype.trim`.
- `Seqs` provides filtering, sums and bucketing over sequences.
- `Decimal` models the textual form of timestamps.
- `Optional` provides the option type.

Things the source reads from its surroundings are parameters:

- `new Date()`;
- `crypto.randomUUID()`;
- whether `localStorage.setItem` accepts a write;
- the local day, week and month starts;
- the local hour of an instant.

A store action takes an `Env` (`now`, `freshId`, `storageAccepts`). The
statistics take a `Clock` and an `hourOf` function.

Main properties:

- Saving and loading round-trip the whole collection.
- `addTask`, `updateTaskStatus` and `addContext` change exactly the tasks
  they name, and never rewrite history (`Extends`). `loadTasks` replaces the
  whole collection with what the slot restores.
- A write that goes through leaves the slot restoring exactly the tasks in
  memory (`Persisted`).
- The list sections partition the tasks.
- The dashboard counts agree with independent definitions: filters,
  buckets and sums.
- Over the whole application, every user action keeps ids unique and
  titles, notes and links clean, both in memory and in what a reload would
  restore.

## Model

| member | source | states |
|---|---|---|
| Text.Trim | src/components/TaskList.tsx:13-14 | `trim` returns an infix of its input; everything cut off before and after it is whitespace; the infix neither starts nor ends with whitespace; it is empty exactly when the input is all whitespace |
| Text.TidyIffTrimFixed | src/components/TaskList.tsx:13-14 | a string that `trim` leaves unchanged and that is not blank is exactly a non-empty string with non-whitespace ends; trimming any non-blank text gives such a string |
| Text.TrimIdempotent | src/components/ContextCapture.tsx:50-53 | trimming twice is trimming once |
| Text.TrimmedNotBlank | src/components/ContextCapture.tsx:50-53 | the trimmed note the form hands to the store is itself non-blank and already trimmed |
| Decimal.NatToText | src/components/Dashboard.tsx:13-14 | `${hour}`: the decimal text of a number is a non-empty digit string without a leading zero |
| Decimal.NatRoundTrip | src/store.ts:109-113 | reading the digits back yields the same number |
| Decimal.IntRoundTrip | src/store.ts:109-113 | a signed timestamp written as text reads back as the same instant |
| Persistence.ContextsRoundTrip | src/store.ts:111-114 | decoding the stored snapshots of a task gives back the same snapshots, in the same order |
| Persistence.TaskRoundTrip | src/store.ts:107-115 | decoding a stored task gives back the task with every field equal, dates included |
| Persistence.DecodeEach | src/store.ts:107-115 | a list of records each of which decodes decodes, as a whole, to those tasks in order |
| Persistence.TasksRoundTrip | src/store.ts:107-115 | decoding the encoded collection gives back the same collection |
| Persistence.SaveLoadRoundTrip | src/store.ts:101-130 | what `saveTasks` writes, `loadTasks` restores unchanged |
| Store.Initial | src/store.ts:29-32 | the store starts with no tasks, no selection and the modal closed |
| Store.SaveTasks | src/store.ts:123-130 | an accepted write makes the slot restore exactly the current tasks; a rejected write changes nothing |
| Store.AddTask | src/store.ts:34-46 | appends exactly one active task with no history, the given title, the fresh id and the current time; earlier tasks are untouched; ids stay unique when the fresh id is new; the write persists the collection |
| Store.UpdateTaskStatus | src/store.ts:48-57 | tasks with the id get the status and the current time, with every other field kept; other tasks are untouched; an unknown id changes no task; ids and histories are kept |
| Store.NonBlankLinksOrder | src/store.ts:72 | dropping blank links distributes over concatenation, so the kept links stay in order |
| Store.NonBlankLinksIdempotent | src/store.ts:72 | filtering links twice is filtering once |
| Store.NonBlankLinksSplit | src/store.ts:72 | the kept links and the blank links together are the input, counted with multiplicity; a link is kept if and only if it is in the input and is not blank |
| Store.WithContextAppends | src/store.ts:80-88 | the matching task gains the new snapshot at the end of its history and keeps every other field except `lastModified`; other tasks keep their history |
| Store.AppendToMatching | src/store.ts:79-89 | an unknown id leaves the collection unchanged; each matching task gains exactly the new snapshot at the end of its history and keeps every field but `lastModified`; other tasks are kept; ids and histories are kept |
| Store.AddContext | src/store.ts:59-91 | every task with the id gains one snapshot at the end, which carries the inputs, the non-blank links, the fresh id and the current time; nothing else changes; an unknown id changes no task; the write persists |
| Store.SelectTask | src/store.ts:93-95 | only the selection changes, and nothing is written |
| Store.SetShowContextCapture | src/store.ts:97-99 | only the modal flag changes, and nothing is written |
| Store.LoadTasks | src/store.ts:101-121 | a readable slot installs exactly the restored tasks; a missing key, empty text or a failing parse leaves the store unchanged |
| Store.LoadAfterSave | src/store.ts:101-130 | loading right after an accepted save changes nothing |
| Store.ReloadRestoresTasks | src/store.ts:101-130 | after a persisted mutation, the next session's load restores exactly the current tasks |
| Utils.GetLatestContext | src/utils.ts:7-10 | null if and only if the history is empty; otherwise its last element |
| Utils.LatestAfterAddContext | src/utils.ts:7-10 | after `addContext`, the task's latest snapshot is the one just built from the inputs |
| Stats.TruncDivBounds | src/utils/stats.ts:42-45 | whole minutes and hours between two instants round toward zero: the quotient brackets the difference from the side of zero |
| Stats.CompletedSinceMonotone | src/utils/stats.ts:22-32 | a later period start never counts more completions, so today's count is at most this week's and this month's |
| Stats.InterruptionCount | src/utils/stats.ts:56-58 | the count is at most the number of tasks, and it is positive if and only if some task was paused today |
| Stats.CompletedAndPausedDisjoint | src/utils/stats.ts:22-58 | today's completions and interruptions together count at most every task once |
| Stats.ContextGaps | src/utils/stats.ts:39-50 | every counted gap lies strictly between 0 and 480 minutes, and a history has fewer gaps than snapshots |
| Stats.SwitchGaps | src/utils/stats.ts:38-51 | every gap counted over all tasks lies strictly between 0 and 480 minutes |
| Stats.TaskSwitchTotals | src/utils/stats.ts:39-50 | the inner loop's total and count are the sum and number of the task's counted gaps |
| Stats.SwitchTotals | src/utils/stats.ts:35-51 | the nested loop's `totalSwitchTime` and `switchCount` are the sum and number of all counted gaps |
| Stats.AverageSwitchBounds | src/utils/stats.ts:53 | the average switch time is 0 when no gap counts, and otherwise between 1 and 479 minutes |
| Stats.TenMinuteSwitchExample | src/utils/stats.ts:42-53 | snapshots 10 and 590 minutes apart count only the 10-minute gap, which gives an average of 10 |
| Stats.SnapshotsExceedGaps | src/utils/stats.ts:79 | `totalContextSwitches` counts snapshots, not gaps: it is at least the counted gaps plus one per task with a history |
| Stats.ElapsedHoursBounds | src/utils/stats.ts:74-76 | summed whole hours over tasks created in a window lie between 0 and the window's hours per task |
| Stats.ActiveTaskDurationBounds | src/utils/stats.ts:72-76 | the active duration is non-negative and at most the hours since midnight for each active task |
| Stats.HourlyHistogramSpec | src/utils/stats.ts:61-67 | there are 24 buckets; bucket h counts the tasks completed this week in hour h; the buckets add up to the week's completions |
| Stats.HourlyCompletions | src/utils/stats.ts:61-67 | the counting loop produces exactly the hourly bucketing |
| Stats.GetTasksByHour | src/utils/stats.ts:93-105 | returns 24 counts, each counting that hour's completions this week, which together sum to the week's completions |
| Stats.FirstMaxIndex | src/utils/stats.ts:69 | `indexOf(Math.max(...))` returns a position holding the maximum, with every earlier position strictly smaller |
| Stats.FirstMaxOfZeros | src/utils/stats.ts:69 | with no completions, the most productive hour is 0 |
| Stats.GetWeeklyProgress | src/utils/stats.ts:107-126 | returns seven entries, named Sun to Sat in order |
| Stats.DayKeyExact | src/utils/stats.ts:117-122 | a completion falls in day i's half-open interval if and only if its offset from the week start, in whole days, is i |
| Stats.WeeklyIsBucketing | src/utils/stats.ts:107-126 | each day's count is the number of completions whose day offset is that day |
| Stats.DayKeyInWeek | src/utils/stats.ts:117-122 | a task has a day offset from 0 to 6 if and only if it was completed within the seven days from the week start |
| Stats.WeeklyTotal | src/utils/stats.ts:107-126 | no completion counts on two days; the seven days together count exactly the completions of the seven-day window, which is at most the week's completions |
| Stats.WeekWithinSince | src/utils/stats.ts:117-122 | completions within the seven-day window are at most the completions since the week start |
| Stats.WeeklyProgressAddsOne | src/utils/stats.ts:107-126 | one more completion on day d raises that day's count by one and leaves the other six days unchanged |
| Stats.CalculateDashboardStats | src/utils/stats.ts:15-91 | every field agrees with its independent definition; today's completions are at most the week's and the month's; the average is 0 or within [1, 479]; the most productive hour is the first busiest bucket, and 0 in an empty week; `totalContextSwitches` is at least the number of counted gaps |
| TaskList.HandleSubmit | src/components/TaskList.tsx:11-17 | a blank title changes nothing; otherwise exactly one active task is appended, titled with the trimmed (tidy) text, with the fresh id, the current time as both creation and modification time, no history and no calendar link; selection and modal are unchanged; the input is cleared; ids stay unique given a fresh id; the write persists or leaves the slot |
| TaskList.HandleSubmitKeepsTitlesClean | src/components/TaskList.tsx:11-17 | tasks created through the form keep every title non-blank and trimmed |
| TaskList.Section | src/components/TaskList.tsx:19-21 | a task is in a section if and only if it is in the collection and has that section's status |
| TaskList.SectionsPartition | src/components/TaskList.tsx:19-21 | the three sections together hold every task exactly once, as a multiset and by count |
| TaskList.SectionOrder | src/components/TaskList.tsx:19-21 | the sections keep collection order: the section of a concatenation is the concatenation of the sections |
| TaskList.EmptyStateIffNoTasks | src/components/TaskList.tsx:68 | "No tasks yet" shows if and only if there are no tasks |
| ContextCapture.OrUndefined | src/components/ContextCapture.tsx:56-58 | a missing or empty media value becomes absent; any other value is passed unchanged |
| ContextCapture.NextActionValue | src/components/ContextCapture.tsx:55 | the next action is absent if and only if it is blank; otherwise it is the trimmed text, which is tidy |
| ContextCapture.HandleSubmit | src/components/ContextCapture.tsx:47-72 | a blank note changes nothing. Otherwise the selected task gains one snapshot that records the form and is paused at the second store call; other tasks are untouched; the modal closes and the form resets. If the second write goes through the slot holds the final tasks; if only the first does, it holds the tasks with the snapshot added and the status not yet changed; if neither does, the slot is unchanged |
| ContextCapture.HandleCancel | src/components/ContextCapture.tsx:74-82 | the form resets and the modal closes; no task changes and nothing is written |
| ContextCapture.LatestIsSubmitted | src/components/ContextCapture.tsx:50-61 | after a submit, the task is paused and its latest snapshot is the one recorded from the form |
| ContextCapture.SubmitClosesModal | src/components/ContextCapture.tsx:45-72 | after a submit, the modal still renders if and only if the note was blank |
| ContextView.FindTask | src/components/ContextView.tsx:11-13 | finds nothing if and only if no id is selected or no task carries it; otherwise finds the first task carrying the id |
| ContextView.HandleResume | src/components/ContextView.tsx:17-22 | an already active task is left untouched and nothing is written; otherwise the task becomes active at the current time with every other field kept, other tasks are untouched, and the write persists; the view is left |
| ContextView.HandlePause | src/components/ContextView.tsx:24-26 | opens the capture modal and changes nothing else |
| ContextView.PauseShowsCapture | src/components/ContextView.tsx:24-26 | after a pause, the capture modal renders for the same task |
| ContextView.HandleComplete | src/components/ContextView.tsx:28-31 | the task is completed at the current time with every other field kept; other tasks are untouched; the write persists, and a rejected write leaves the slot; the view is left |
| ContextView.CompletionCounts | src/components/ContextView.tsx:28-31 | a task completed from the view counts among the completions of every period that had begun by then |
| ContextView.HandleBack | src/components/ContextView.tsx:33-35 | leaves the view and changes nothing else |
| ContextView.Actions | src/components/ContextView.tsx:197-241 | Resume is always offered; Pause is offered if and only if the task is not paused; Complete is offered if and only if it is not completed |
| ContextView.History | src/components/ContextView.tsx:254 | every snapshot except the latest, newest first |
| ContextView.ShowsHistoryIffNonEmpty | src/components/ContextView.tsx:245-254 | the history section renders if and only if it has something to show |
| ContextView.HistoryAfterSnapshot | src/components/ContextView.tsx:245-254 | a new snapshot becomes the latest, and the previous latest moves to the head of the history |
| Dashboard.FormatHour | src/components/Dashboard.tsx:10-15 | 0 and 12 read "12 AM" and "12 PM"; every label is a number followed by " AM" for morning hours and " PM" otherwise |
| Dashboard.FormatHourRoundTrip | src/components/Dashboard.tsx:10-15 | every label reads back as the hour it came from |
| Dashboard.FormatHourInjective | src/components/Dashboard.tsx:10-15 | no two hours share a label |
| Dashboard.MaxWithFloor | src/components/Dashboard.tsx:142 | the maximum is at least the floor and every element, and it is attained by the floor or by an element |
| Dashboard.Ratio | src/components/Dashboard.tsx:169 | a count over the maximum is in [0, 1]; it is 0 if and only if the count is 0, and 1 at the maximum |
| Dashboard.WeeklyBars | src/components/Dashboard.tsx:141-143 | each bar is between 0 and 100 percent, and it is empty if and only if the day has no completion |
| Dashboard.WeeklyBarsBusiestFull | src/components/Dashboard.tsx:142-143 | in a week with any completion, some bar is full |
| Dashboard.HeatMap | src/components/Dashboard.tsx:167-177 | a cell is uncoloured if and only if its hour has no completion |
| Dashboard.HeatMapBusiest | src/components/Dashboard.tsx:168-177 | the busiest hour of a non-empty week is drawn in full colour |
| Dashboard.HeatMapMonotone | src/components/Dashboard.tsx:168-177 | a busier hour is never drawn lighter than a quieter one |
| Session.InitialInv | src/App.tsx:11-13 | a session that mounts from a healthy slot starts healthy |
| Session.StepKeepsInv | src/App.tsx:15-20 | every user action keeps ids unique and titles, notes, next actions and links clean, in memory and in what the slot would restore, provided the random id is new |
| Session.OpenDropsTypedTitle | src/App.tsx:17 | opening a task replaces the list by the detail view, so the unsubmitted title is dropped and a later submit adds no task |
| Session.ModalHidesList | src/App.tsx:17 | while the capture modal is shown a task is selected, so the list is unmounted and typing or submitting a title changes nothing |
| Session.KeyboardBehindModal | src/components/ContextView.tsx:28-35 | the modal's overlay stops pointer clicks only, so the view's Complete or Back button can still be pressed from the keyboard behind it: the selection is cleared, the modal disappears with the view while `showContextCapture` stays set, a completed task is marked completed, and the next task opened from the list comes up under the capture modal |
| Session.SubmitTitleKeepsInv | src/components/TaskList.tsx:11-17 | submitting a title keeps the invariant |
| Session.StatusKeepsInv | src/store.ts:48-57 | a status change keeps the invariant |
| Session.AddContextKeepsInv | src/store.ts:59-91 | adding a snapshot with a tidy note and next action keeps the invariant |
| Session.NewContextClean | src/store.ts:68-77 | the snapshot `addContext` builds from a tidy note has no blank link |
| Session.SubmitCaptureKeepsInv | src/components/ContextCapture.tsx:47-72 | a capture submit keeps the invariant across both of its store calls |
| Session.AddContextCountsOneSwitch | src/utils/stats.ts:79 | recording a snapshot on a task raises `totalContextSwitches` by exactly one when ids are unique |

## Left out

- Persistence.DecodeTask: reads a stored `autoResumeTime` back as an instant. The source leaves it as the string `JSON.parse` yields. So a malformed `autoResumeTime` text fails the whole load in the model, while the source installs it unchanged. No code in the core reads the field.
- Persistence.DecodeTime: text that names no instant makes the whole load fail, so the store keeps what it had. The source builds an `Invalid Date` and installs it. `JSON.stringify` never writes such text for a valid `Date`.
- Persistence.EncodeTime: ISO-8601 date text is modelled as signed decimal milliseconds. Only the round trip matters to the core, and both forms name the same instant.
- Store.AddTask: `createdAt` and `lastModified` come from two `new Date()` calls in the source (`src/store.ts:39-40`); the model reads the clock once, so it promises that they are equal.
- Store.AddContext: each store call reads the clock once. `addContext` calls `new Date()` twice, once for the snapshot and once for `lastModified`, and the model takes both readings as equal. A capture submit makes two store calls, which read two environments.
- Store.SaveTasks: `console.error` on a failed write is left out. A rejected write is modelled as leaving the slot unchanged.
- Store.LoadTasks: `console.error` when reading or parsing the slot fails (`src/store.ts:118-119`) is left out. The failure is modelled as leaving the store unchanged.
- Session.StepKeepsInv: assumes `crypto.randomUUID()` does not repeat an id already in use. The source relies on this without checking it.
- Stats.CalculateDashboardStats: the local day, week and month starts and `getHours` are inputs. The model assumes only their ordering; date-fns and the time zone are not modelled.
- Stats.GetWeeklyProgress: days are a fixed 86,400,000 ms. `setDate` in the source follows local calendar days, which differ at daylight-saving changes.
- Stats.Average: the average is an exact rational. The source uses IEEE floating-point division.
- Dashboard.WeeklyBars: percentages are exact rationals, not floating point. The CSS width and the rest of the JSX are left out.
- The dashboard's statistic cards only display the computed fields, so they are left out.
- The capture form's voice recorder, the screenshot capture, the "show links" toggle and the transcript auto-fill effect (`src/components/ContextCapture.tsx:39-43`) are left out. They are browser I/O, and the recorder's values are inputs to the form.
- Relative time text (`formatTimeAgo` in `src/utils.ts`) is display only and depends on the clock.
- TaskListItem, CalendarIntegration, the calendar service, the Google configuration and the voice-recorder hook are not part of this model. The click that selects a task in the list is the `Open` event.
- Session.Step: the browser's validation of the `type="url"` link fields (`src/components/ContextCapture.tsx:300`) is not modelled. With links shown, a non-empty link that is not an absolute URL makes the browser refuse the submit, so no snapshot is added. The model runs the submit handler anyway, so it admits more traces than the program; the invariants hold for all of them.
- React rendering, effects and re-render timing are not modelled. Events are applied one at a time, after the previous state has settled.
