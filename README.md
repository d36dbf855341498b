# tauri-todo: the day board, the list page and the editor, in Dafny

This project models the sequential logic of the tauri-todo desktop app, a
React front end over a Tauri shell. The modelled parts are:

- **The day board** (`Dates` and its near copy `MonthDays`). The to-do list is grouped into one
  bucket per day of the month (`updateDroppables`). `findContainer` finds the bucket that holds
  a to-do. `handleDragEnd` moves a to-do from its bucket to the one it is dropped on and reports
  the to-do with its day of the month changed (`onUpdate`). `MonthDays` differs from `Dates` only
  in its reference date, which is "now" moved to a month picked by index.
- **The drag playground** (`DndTest`). It runs the same move over plain lists of item ids in
  three numbered columns, plus a backlog of the items no column holds.
- **The list page** (`Home`). It owns the to-do list: add, add from a day column, delete,
  replace, the lookup of the to-do being edited, the day filter, and the save indicator
  `idle / unsaved / saving / saved / error`.
- **The editor dialog** (`EditTodo`). It keeps local copies of the title and description,
  reseeds them when a new to-do arrives, and reports a save as the to-do with only those two
  fields replaced.

Modules, in dependency order:

| module | file | what it holds |
|---|---|---|
| `Seqs` | `Seqs.dfy` | `Option` (`undefined`), `filter`, order-keeping sub-lists |
| `Keys` | `Keys.dfy` | "first key of `Object.keys` whose entry satisfies a test" |
| `Calendar` | `Calendar.dfy` | month lengths, `getDate`, `setDate`, `setMonth` |
| `Todos` | `Todos.dfy` | the `ITodo` record and the list transforms |
| `DayBuckets` | `DayBuckets.dfy` | the day board shared by `Dates` and `MonthDays` (class `DayBoard`) |
| `MonthDays` | `MonthDays.dfy` | the month board's reference date and days |
| `DndColumns` | `DndColumns.dfy` | the playground (class `ColumnBoard`) |
| `Home` | `Home.dfy` | the page state (class `HomeState`) |
| `EditTodo` | `EditTodo.dfy` | the dialog state (class `TodoEditor`) |

Representation choices:

- **Keys.** Bucket and column keys are the strings `"1"`, `"2"`, ... The model keys them by
  the natural number they spell, which is what `Number(key)` returns. `Object.keys` lists
  canonical integer keys in ascending numeric order, so "the first key `find` meets" is the
  smallest such key (`Keys.FirstKeyWhere`).
- **Dates.** A date is a year, a month `0..11` as in JavaScript, a day, and an opaque time of
  day.
  - `setDate` and `Date.prototype.setMonth` roll over past the end of a month, and the model
    writes that rollover out (`Calendar.Roll`).
  - The ISO-8601 strings the to-dos store are represented by the local date they denote.
- **State.** Component state is a class. Each handler is a method that changes the fields the
  handler's setters change. Pure computations (`findContainer`, the bucketing, the list
  transforms, the backlog) are functions. Each state-changing method is specified by one of
  these functions, and the properties are lemmas about the functions.
- **Loops.** `updateDroppables` keeps its loop (`DayBuckets.UpdateDroppables`). Its result is
  proved equal to the map `DayBuckets.Bucketing` describes.
- **Save status and timestamps.**
  - A list change marks the list unsaved even while a save is in flight: src/pages/Home.tsx:47,
    62, 139 and 160 set "unsaved" unconditionally.
  - The editor's save does not refresh `updatedAt` (src/components/EditTodo.tsx:26-30).
- **Drags past a month's end.** The bucketer matches the day of the month only, so a board can
  show a to-do from a shorter month under a key its own month lacks. Dropping it on that key
  gives a date in the next month (src/components/Dates/index.tsx:271), and the rebuilt board
  shows it under a different key (`DayBuckets.RebucketAfterRolledUpdate`).

## Model

| member | source | states |
|---|---|---|
| Keys.MinKey | src/components/Dates/index.tsx:224 | the key `Object.keys` lists first is a key no other key is below |
| Keys.FirstKeyWhere | src/components/Dates/index.tsx:224 | `Object.keys(m).find(test)`: the key found exists and passes the test, no smaller key passes, and `None` exactly when no key passes |
| Seqs.Filter | src/components/Dates/index.tsx:197 | `filter` never lengthens the list |
| Seqs.FilterCount | src/components/Dates/index.tsx:197 | `filter` keeps every occurrence of a passing element and none of a failing one |
| Seqs.FilterSubsequence | src/components/Dates/index.tsx:197 | `filter` keeps the input's order |
| Seqs.FilterFuse | src/components/DndTest/DndTest.tsx:15 | filtering twice is filtering once by both tests |
| Calendar.DaysInMonth | src/components/Dates/index.tsx:216 | `getDaysInMonth`: 28 to 31 days; 29 exactly for a leap-year February, 28 for other Februaries, 30 exactly for April, June, September and November |
| Calendar.GetDate | src/components/Dates/index.tsx:197 | `getDate` of a valid date is a day of its month, and it is the day of the calendar day the date falls on |
| Calendar.Midnight | src/pages/Home.tsx:38 | local midnight of the picked calendar day falls on that day at time 0 |
| Calendar.Roll | src/components/Dates/index.tsx:196 | counting `k` days from the first of a month gives a valid date, keeps the time of day, leaves the month when `k` exceeds its length, and lands on a day no larger than `k` |
| Calendar.RollOneOver | src/components/Dates/index.tsx:196 | a `k` past the month's end but within the next month lands in the next month on day `k` minus the month's length |
| Calendar.SetDate | src/components/Dates/index.tsx:196 | `setDate(d, k)` always gives a valid date with `d`'s time of day; `setDate(d, 0)` is the last day of the month before |
| Calendar.SetDateValue | src/components/Dates/index.tsx:196 | for `k` up to the end of the next month, `setDate(d, k)` is day `k` of `d`'s month when the month has that day, and otherwise day `k` minus the month's length in the next month |
| Calendar.SetDateInRange | src/components/Dates/index.tsx:271 | whenever `k` is a day of `d`'s month, `setDate` replaces the day and nothing else |
| Calendar.SetDateInMonth | src/components/Dates/index.tsx:196 | for `k` within the month, `setDate` replaces the day and nothing else, and `getDate` gives back `k` |
| Calendar.SetDateRollsOver | src/components/Dates/index.tsx:257 | for `k` past the month's end, `setDate` lands in a later month |
| Calendar.SetDateOwnDay | src/components/Dates/index.tsx:271 | setting a valid date's own day changes nothing |
| Calendar.SetMonthRolling | src/components/MonthDays/index.tsx:53 | `Date.prototype.setMonth` keeps a valid date and its time of day; when the day exists in the new month only the month changes, otherwise the day rolls over into the following month |
| Calendar.SetMonthClamped | src/components/MonthDays/index.tsx:51-55 | date-fns `setMonth`: a valid date in the same year and the requested month, time kept, day clamped to the month's length |
| Todos.NewTodo | src/pages/Home.tsx:33-41 | a new to-do carries the given id, title and date, an empty description, is not completed, and has both timestamps equal to "now" |
| Todos.FindById | src/pages/Home.tsx:21 | `find` by id returns a listed to-do with that id and no earlier one has it; `None` exactly when no to-do has the id |
| Todos.RemoveById | src/pages/Home.tsx:61 | delete by id: no to-do with the id remains, every other to-do keeps its count, and order is kept |
| Todos.ReplaceById | src/pages/Home.tsx:138 | replace by id: same length and ids position by position; matching positions hold the update, the others are unchanged |
| Todos.TodosOnDay | src/components/Dates/index.tsx:197 | a bucket's to-dos are exactly the listed to-dos whose day of the month is the key, with their multiplicity and in list order; month and year are not compared |
| Todos.TodosOnCalendarDay | src/pages/Home.tsx:174 | the filtered list is exactly the listed to-dos on the selected calendar day, in list order; none when no day is selected |
| Todos.RemoveAbsent | src/pages/Home.tsx:61 | deleting an id the list does not hold leaves the list unchanged |
| Todos.AddThenRemove | src/pages/Home.tsx:43 | appending a to-do with a fresh id and deleting that id restores the list |
| Todos.ReplaceAbsent | src/pages/Home.tsx:138 | replacing by an id the list does not hold leaves the list unchanged |
| Todos.AppendFreshKeepsUnique | src/pages/Home.tsx:43 | appending a fresh id keeps the ids unique |
| Todos.RemoveKeepsUnique | src/pages/Home.tsx:61 | deleting keeps the ids unique |
| Todos.ReplaceKeepsUnique | src/pages/Home.tsx:138 | replacing keeps the ids unique |
| Todos.FindAfterReplace | src/pages/Home.tsx:137-140 | after an update in a list with unique ids, looking the id up finds the update |
| Todos.SubsequenceKeepsUnique | src/pages/Home.tsx:61 | a list obtained by deleting elements of a list with unique ids has unique ids and only its elements |
| DayBuckets.Bucketing | src/components/Dates/index.tsx:191-202 | the buckets have exactly the keys 1..days |
| DayBuckets.UpdateDroppables | src/components/Dates/index.tsx:191-202 | the loop builds exactly `Bucketing`: for each day 1..days, the reference date set to that day and the to-dos on that day |
| DayBuckets.FindContainer | src/components/Dates/index.tsx:223-225 | the key found holds the id and no smaller key does; `None` exactly when no bucket holds it |
| DayBuckets.Retarget | src/components/Dates/index.tsx:266-272 | the emitted to-do differs from the dragged one only in `date`, which is valid and keeps its time of day; when the target day exists in the to-do's month, only the day changes, to the target key; past the month's end (up to the end of the next month) the date rolls into the next month, on the target key minus the month's length |
| DayBuckets.Appended | src/components/Dates/index.tsx:260 | corrected append: the target gains at most one entry, and it is the dragged to-do when the list holds it |
| DayBuckets.MoveTodo | src/components/Dates/index.tsx:247-264 | corrected append: the move's buckets have the old keys plus the target |
| DayBuckets.MoveEffect | src/components/Dates/index.tsx:247-264 | a move, with the corrected append: keys become the old keys plus the target; the source keeps its date and loses every entry with the id, keeping the rest in order; a missing target is created for `setDate(date, target)`; the to-do is appended at the target's end; other buckets are unchanged |
| DayBuckets.DragOutcome | src/components/Dates/index.tsx:231-278 | with no target, or the target being the source, the buckets are unchanged and nothing is emitted; otherwise the buckets are the move (`MoveTodo`, with the corrected append) and a to-do is emitted exactly when the list holds the dragged id, and it is that to-do retargeted to the drop key |
| DayBuckets.DayBoard.constructor | src/components/Dates/index.tsx:216-221 | first render: `days` is the reference month's length, the buckets are `Bucketing`, no active drag |
| DayBuckets.DayBoard.Refresh | src/components/Dates/index.tsx:280-282 | new props rebuild all buckets from scratch |
| DayBuckets.DayBoard.DragStart | src/components/Dates/index.tsx:227-229 | the dragged id becomes the active one |
| DayBuckets.DayBoard.DragEnd | src/components/Dates/index.tsx:231-278 | with no target, or the target being the source, the buckets stay and nothing is emitted; otherwise the buckets become the move and the retargeted to-do is emitted when the list holds it; the active id is cleared on every path |
| DayBuckets.TodosOnDayMembers | src/components/Dates/index.tsx:197 | a to-do is in bucket `d` exactly when it is listed and falls on day `d` |
| DayBuckets.BucketDates | src/components/Dates/index.tsx:194-199 | with `days` the reference month's length, bucket `d` is dated the reference date with its day set to `d` |
| DayBuckets.ConcatenatedCount | src/components/Dates/index.tsx:194-199 | buckets 1..n hold each to-do whose day is in 1..n as often as the list does |
| DayBuckets.BucketsPartitionTodos | src/components/Dates/index.tsx:194-199 | no omission, no duplicate: all buckets together hold each to-do on days 1..days exactly as often as the list, and no other |
| DayBuckets.IdOnlyOnItsDay | src/components/Dates/index.tsx:223-225 | with unique ids, only the bucket of a to-do's own day holds its id |
| DayBuckets.FindContainerInBucketing | src/components/Dates/index.tsx:223-225 | on fresh buckets `findContainer` finds a listed to-do in the bucket of its day |
| DayBuckets.MoveWhereTheIdIs | src/components/Dates/index.tsx:247-264 | after a move of a to-do the target bucket holds its id, the source bucket does not, and every other bucket is as it was |
| DayBuckets.FindAfterMove | src/components/Dates/index.tsx:247-264 | when only the source held the id, after the move `findContainer` finds it in the target |
| DayBuckets.MoveThenFind | src/components/Dates/index.tsx:247-264 | moving a listed to-do out of fresh buckets makes `findContainer` find it at the target |
| DayBuckets.RebucketAfterUpdate | src/components/Dates/index.tsx:266-282 | when the target day exists in the to-do's own month, applying the emitted update and rebuilding the buckets puts the to-do where the move put it |
| DayBuckets.RebucketUnder | src/components/Dates/index.tsx:194-199 | replacing a listed to-do by one with the same id and a day within the board rebuckets it under that day |
| DayBuckets.RebucketAfterRolledUpdate | src/components/Dates/index.tsx:266-282 | when the target key lies past the end of the to-do's own month, the emitted to-do is in the next month and the rebuilt buckets put it under the key minus the month's length, not where the move put it |
| DayBuckets.RolledDay | src/components/Dates/index.tsx:271 | a drop past the end of the to-do's month gives a date in the next month, on the key minus the month's length |
| DayBuckets.RolledDragFebruary10 | src/components/Dates/index.tsx:266-282 | a to-do of 10 February 2025 dropped on key 30 of a 31-day board becomes 2 March 2025 and is rebucketed under key 2 |
| DayBuckets.MovedBucketHoldsTodos | src/components/Dates/index.tsx:258-261 | every entry of the target after a move is a to-do that was there or the listed to-do with the dragged id |
| DayBuckets.TargetEntriesAsWritten | src/components/Dates/index.tsx:260 | the code appends exactly one entry, the result of `find`, whether or not it found a to-do |
| DayBuckets.UndefinedAppendedAsWritten | src/components/Dates/index.tsx:260 | dragging an id the list does not hold appends `undefined` to the target |
| MonthDays.ReferenceDateAsWritten | src/components/MonthDays/index.tsx:51-55 | the reference date as computed is a valid date with the time of "now" |
| MonthDays.AsWrittenInMonthIff | src/components/MonthDays/index.tsx:53 | the computed reference date lies in the picked month exactly when today's day exists in that month |
| MonthDays.AsWrittenJanuary31 | src/components/MonthDays/index.tsx:51-56 | on 31 January 2025, picking February yields 3 March 2025 and a 31-day board |
| MonthDays.ReferenceDate | src/components/MonthDays/index.tsx:51-55 | the reference date lies in the picked month of the current year with the time of "now", and agrees with the code whenever today's day exists in that month |
| MonthDays.Days | src/components/MonthDays/index.tsx:56 | corrected board: `days` is the picked month's length |
| MonthDays.ColumnsInPickedMonth | src/components/MonthDays/index.tsx:27-32 | corrected board: every bucket is dated the picked month of the current year on the day its key names |
| MonthDays.OpenAsWritten | src/components/MonthDays/index.tsx:51-61 | mounting as written: the board is laid out for the month of the rolled-over reference date, which is not the picked month when today's day does not exist in it; its buckets are the bucketing of that month |
| MonthDays.Open | src/components/MonthDays/index.tsx:51-61 | corrected board: mounting gives a day board for the picked month: its reference date, its length, its buckets, no active drag |
| DndColumns.FindColumn | src/components/DndTest/DndTest.tsx:82-84 | the key found includes the id and no smaller key does; `None` exactly when no column includes it |
| DndColumns.RemoveItem | src/components/DndTest/DndTest.tsx:109 | every occurrence of the item is removed, every other item keeps its count, order is kept |
| DndColumns.MoveItem | src/components/DndTest/DndTest.tsx:105-116 | keys become the old keys plus the target; the source is filtered; a missing target starts empty; the item is appended once at the target's end; other columns are unchanged |
| DndColumns.ColumnDrop | src/components/DndTest/DndTest.tsx:90-119 | with no target, or the target being the source, the columns are unchanged; with a target, the target is a column afterwards, and on a move the columns are `MoveItem`'s |
| DndColumns.MemberAfterDrop | src/components/DndTest/DndTest.tsx:105-116 | when every item was in at most one column, after a drop the dragged item is only in the target, every other item where it was |
| DndColumns.DropKeepsExclusive | src/components/DndTest/DndTest.tsx:105-116 | if every item is in at most one column, at most once, a drop keeps that so |
| DndColumns.DropPlacesItem | src/components/DndTest/DndTest.tsx:112-113 | after a drop on a column the column holds the item, and `findContainer` finds it there when items were in at most one column |
| DndColumns.Allocated | src/components/DndTest/DndTest.tsx:14 | the flattened columns hold exactly the items some column holds |
| DndColumns.Backlog | src/components/DndTest/DndTest.tsx:15 | the backlog is `allItems` minus the allocated items, in `allItems` order and multiplicity |
| DndColumns.BacklogCovers | src/components/DndTest/DndTest.tsx:13-15 | each of `allItems` is in the backlog exactly when no column holds it |
| DndColumns.InitialBacklog | src/components/DndTest/DndTest.tsx:76-80 | with the three empty columns the backlog is all five items in order |
| DndColumns.StaysAfterDrop | src/components/DndTest/DndTest.tsx:105-116 | a drop keeps every other item in its column |
| DndColumns.CameFromBeforeDrop | src/components/DndTest/DndTest.tsx:105-116 | a drop brings no other item into any column |
| DndColumns.AllocatedAfterDrop | src/components/DndTest/DndTest.tsx:105-116 | after a drop on a column the allocated items are the old ones plus the dragged item |
| DndColumns.DropLeavesBacklog | src/components/DndTest/DndTest.tsx:13-15 | a drop on a column removes the dragged item from the backlog and leaves the rest of it as it was |
| DndColumns.ColumnBoard.constructor | src/components/DndTest/DndTest.tsx:74-80 | three empty columns, no active drag, every item in at most one column |
| DndColumns.ColumnBoard.DragStart | src/components/DndTest/DndTest.tsx:86-88 | the dragged id becomes the active one |
| DndColumns.ColumnBoard.DragEnd | src/components/DndTest/DndTest.tsx:90-119 | with no target, or the target being the source, the columns stay; otherwise they become the move; the active id is cleared on every path |
| Home.HomeState.constructor | src/pages/Home.tsx:14-19 | empty list and title, status idle, today selected, nothing filtered, no editor open |
| Home.HomeState.EditingTodo | src/pages/Home.tsx:21 | no open editor gives none; otherwise the first listed to-do with the edited id (`FindById`), found whenever one is listed |
| Home.HomeState.ChangeTitle | src/pages/Home.tsx:25-27 | the title input takes the typed value |
| Home.HomeState.SelectDate | src/pages/Home.tsx:125-127 | the selected day takes the input's value |
| Home.HomeState.Submit | src/pages/Home.tsx:29-53 | with a day selected: one to-do appended at the end with the typed title at midnight of that day, earlier to-dos unchanged, title cleared, status unsaved, ids still unique for a fresh id; with the input cleared nothing changes |
| Home.HomeState.CreateNewTodo | src/pages/Home.tsx:146-166 | one to-do titled "Nova tarefa" appended at the end on the column's date, status unsaved, ids still unique for a fresh id |
| Home.HomeState.DeleteTodo | src/pages/Home.tsx:60-63 | the list becomes `RemoveById`, status unsaved, ids stay unique |
| Home.HomeState.SaveEditTodo | src/pages/Home.tsx:137-140 | the list becomes `ReplaceById`, status unsaved, ids stay unique |
| Home.HomeState.SaveTodos | src/pages/Home.tsx:95-123 | status goes to saving, then saved on success or error on failure; the list written is the list shown and is not changed; "saved" only while the list is the one written |
| Home.HomeState.EditTodo | src/pages/Home.tsx:129-131 | the editor opens on the id |
| Home.HomeState.CloseEditTodo | src/pages/Home.tsx:133-135 | the editor closes and no to-do is being edited |
| Home.HomeState.RefreshFilter | src/pages/Home.tsx:172-176 | with a non-empty list the filtered list is recomputed; with an empty list the stale one stays |
| Home.SubmittedIsShown | src/pages/Home.tsx:38 | a submitted to-do falls on the selected day, so the day filter shows it after the ones it showed before |
| EditTodo.WithText | src/components/EditTodo.tsx:25-30 | the saved to-do carries the local title and description; id, completion, date and both timestamps are unchanged |
| EditTodo.WithTextDetermined | src/components/EditTodo.tsx:26-30 | any to-do that agrees with the original except on text is the save of its own text |
| EditTodo.WithOwnText | src/components/EditTodo.tsx:26-30 | saving the to-do's own text gives the to-do back |
| EditTodo.SaveThenFind | src/pages/Home.tsx:137-140 | after the page applies a save, the list keeps unique ids and finds the edited to-do by id |
| EditTodo.TodoEditor.constructor | src/components/EditTodo.tsx:11-12 | the local fields start from the to-do |
| EditTodo.TodoEditor.ReceiveTodo | src/components/EditTodo.tsx:14-17 | a new to-do reseeds both local fields |
| EditTodo.TodoEditor.ChangeDescription | src/components/EditTodo.tsx:37-39 | only the local description changes |
| EditTodo.TodoEditor.Save | src/components/EditTodo.tsx:25-35 | `onSave` is called once with the edited to-do, then `onClose` |
| EditTodo.TodoEditor.Close | src/components/EditTodo.tsx:19-23 | close and cancel call `onClose` only |
| EditTodo.SaveWithoutEdits | src/components/EditTodo.tsx:11-35 | saving right after opening reports the to-do unchanged |
| EditTodo.SaveAfterDescriptionEdit | src/components/EditTodo.tsx:25-39 | after a description edit the save reports that description with the title and everything else unchanged |

## Left out

- Reading and writing `todos.json` (`handleLoadTodos`, the path and file calls of `handleSaveTodos`, `JSON.parse`/`JSON.stringify`) is foreign I/O. The write is a success flag. The load is not modelled, so the list starts empty as the state does before the load completes.
- `uuidv4()` and `new Date()` are parameters (`id`, `now`, `today`). The code reads the clock twice for a new to-do (src/pages/Home.tsx:39-40 and 154-155), so its `createdAt` and `updatedAt` can differ by a millisecond; the model reads it once and gives both the same value. `Submit` and `CreateNewTodo` require the new id to be absent from the list, which is what a random uuid gives in practice; the page's invariant then keeps the ids unique.
- Time zones are not modelled. The code stores `toISOString()` strings, reads them back with `new Date(...)`, and the day filter compares the UTC date part of the ISO string with the local date input. The model compares local calendar days.
- The toast notifications and `console.error` are user-visible side effects only.
- Gesture handling belongs to dnd-kit and Embla: activation delay and tolerance, carousel dragging, and toggling of mouse events. The model receives a drag end as the dragged id and the key under the cursor.
- Rendering is not modelled: `DatesC`, `DayColumns`, `DndTestC`'s markup (including hiding the active item), `DayView`, `isCurrentMonth`, locale month names, and the wrappers and layout components.
- The completion toggle is commented out in the page, so there is nothing to model.
- The page passes `onDelete` to the editor (src/pages/Home.tsx:181), but the editor's props type (src/components/EditTodo.tsx:5-8) declares only `todo` and `onClose`, and the component (src/components/EditTodo.tsx:10) reads only `todo`, `onClose` and `onSave`; there is no delete in the editor to model.
- The editor's `onSave` prop is missing from its props type. The model takes the callback the page passes.
- The page mounts the day board without its `date` prop (src/pages/Home.tsx:249-254). Then `getDaysInMonth(undefined)` is `NaN`, the bucket loop never runs and the board has no columns, and the title's `format(undefined, ...)` (src/components/Dates/index.tsx:288) throws a `RangeError` (not executed). An undefined date and `NaN` have no counterpart among the model's dates and `nat` day counts, so the model always gives `DayBoard` a reference date.
- MonthDays.Open: models the corrected board, as do MonthDays.Days and MonthDays.ColumnsInPickedMonth; they are the corrected half of the first Findings row, and MonthDays.OpenAsWritten is the board as written.
- Home.HomeState.SaveTodos: the save is one atomic step, so edits made while the write is in flight are not modelled. Such an edit leaves "unsaved" and is then overwritten by "saved".
- Home.HomeState.RefreshFilter: runs only when called, where React runs it after every change of the list or the selected date. `Submit`, `DeleteTodo` and the other handlers do not call it themselves.
- DayBuckets.DayBoard.DragEnd: appends nothing when no to-do has the dragged id, where the code appends `undefined` (see Findings); so do DayBuckets.Appended, DayBuckets.MoveTodo, DayBuckets.MoveEffect and DayBuckets.DragOutcome, which state the corrected append. A missing target bucket is created and appended to in one step, where the code does it in two.
- DndColumns.ColumnBoard.DragEnd: a missing target column is created and appended to in one step, where the code does it in two.
- Calendar.SetDate: only non-negative days. The code only passes bucket keys, which are positive.

## Findings

| source | as written | input that shows it | evidently intended | confidence | as-written member | corrected member |
|---|---|---|---|---|---|---|
| src/components/MonthDays/index.tsx:51-56 | the reference date is today moved with `Date.prototype.setMonth(month)`, which keeps today's day of the month and rolls past a shorter month | today 31 January 2025, month 1 (February): the reference date is 3 March 2025, the board is titled March and has 31 columns | the picked month, with the day clamped (date-fns `setMonth`) | not executed | MonthDays.AsWrittenJanuary31 | MonthDays.ReferenceDate |
| src/components/Dates/index.tsx:260 | the target bucket gets `todos.find(...) as ITodo` appended even when `find` returns `undefined` (same in src/components/MonthDays/index.tsx:100) | a drag of an id that is in a bucket but not in `todos` (buckets not yet rebuilt after a delete): `undefined` is appended and the next render, reading `todo.id` of it (src/components/Dates/index.tsx:136), throws | append only a to-do that was found | not executed; reachable only with buckets older than the list | DayBuckets.UndefinedAppendedAsWritten | DayBuckets.MovedBucketHoldsTodos |
