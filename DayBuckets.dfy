/** The day-column board of the `Dates` and `MonthDays` components: the to-do
    list grouped into one bucket per day of the month, and the drag session
    that moves a to-do from one day's bucket to another's.

    The two components hold the same code (`updateDroppables`,
    `findContainer`, `handleDragStart`, `handleDragEnd`); they differ only in
    where the reference date comes from, which the `MonthDays` module adds.
    Bucket keys are the strings "1".."days"; the model keys them by the day
    number they spell, which is what `Number(key)` gives back. */
module DayBuckets {
  import opened Seqs
  import opened Keys
  import opened Calendar
  import opened Todos

  /** One day's column: its calendar date and the to-dos shown in it. */
  datatype Bucket = Bucket(date: Date, data: seq<Todo>)

  /** `Record<string, { date: Date; data: ITodo[] }>`, keyed by day number. */
  type Droppables = map<nat, Bucket>

  /** What `updateDroppables(days, todos, date)` computes: for each day
      1..days, the reference date moved to that day and the to-dos whose day
      of the month is that day. */
  function Bucketing(days: nat, todos: seq<Todo>, date: Date): (m: Droppables)
    ensures forall d :: d in m <==> 1 <= d <= days
  {
    map d: nat | 1 <= d <= days :: Bucket(SetDate(date, d), TodosOnDay(todos, d))
  }

  /** `updateDroppables`: fills the record one day at a time. */
  method UpdateDroppables(days: nat, todos: seq<Todo>, date: Date) returns (memo: Droppables)
    ensures memo == Bucketing(days, todos, date)
  {
    memo := map[];
    var day := 1;
    while day <= days
      invariant 1 <= day <= days + 1
      invariant forall d :: d in memo <==> 1 <= d < day
      invariant forall d :: d in memo ==> memo[d] == Bucket(SetDate(date, d), TodosOnDay(todos, d))
    {
      memo := memo[day := Bucket(SetDate(date, day), TodosOnDay(todos, day))];
      day := day + 1;
    }
    assert memo.Keys == Bucketing(days, todos, date).Keys;
  }

  /** `findContainer(id)`: the first key, in ascending order, whose bucket
      holds a to-do with that id; `None` (undefined) when no bucket does. */
  function FindContainer(m: Droppables, id: string): (r: Option<nat>)
    ensures r.Some? ==> r.value in m && HasId(m[r.value].data, id)
    ensures r.Some? ==> forall k :: k in m && k < r.value ==> !HasId(m[k].data, id)
    ensures r.None? <==> forall k :: k in m ==> !HasId(m[k].data, id)
  {
    FirstKeyWhere(m, (b: Bucket) => HasId(b.data, id))
  }

  /** The to-do `handleDragEnd` passes to `onUpdate`: the dragged to-do with
      the day of its date set to the target key. */
  function Retarget(t: Todo, target: nat): (u: Todo)
    ensures u.(date := t.date) == t
    ensures u.date.Valid() && u.date.time == t.date.time
    ensures 1 <= target <= DaysInMonth(t.date.year, t.date.month) ==> u.date == t.date.(day := target)
    ensures var n := DaysInMonth(t.date.year, t.date.month);
      var next := NextMonth(t.date.year, t.date.month);
      n < target <= n + DaysInMonth(next.0, next.1) ==> u.date == Date(next.0, next.1, target - n, t.date.time)
  {
    SetDateInRange(t.date, target);
    var next := NextMonth(t.date.year, t.date.month);
    if 1 <= target <= DaysInMonth(t.date.year, t.date.month) + DaysInMonth(next.0, next.1) then
      SetDateValue(t.date, target);
      t.(date := SetDate(t.date, target))
    else
      t.(date := SetDate(t.date, target))
  }

  /** The entries a move appends to the target bucket: the dragged to-do
      when the to-do list holds it, nothing otherwise. */
  function Appended(moved: Option<Todo>): (s: seq<Todo>)
    ensures |s| <= 1 && (forall t :: t in s <==> moved == Some(t))
  {
    if moved.Some? then [moved.value] else []
  }

  /** The bucket map after a move of `id` from `source` (None when no bucket
      held it) to the distinct key `target`; `MoveEffect` states what it is. */
  function MoveTodo(m: Droppables, source: Option<nat>, target: nat, id: string, moved: Option<Todo>, date: Date): (r: Droppables)
    requires source.Some? ==> source.value in m
    requires source != Some(target)
    ensures r.Keys == m.Keys + {target}
  {
    var cleared := if source.Some? then
        m[source.value := m[source.value].(data := RemoveById(m[source.value].data, id))]
      else m;
    var base := if target in cleared then cleared[target] else Bucket(SetDate(date, target), []);
    cleared[target := base.(data := base.data + Appended(moved))]
  }

  /** A move drops every entry with the id from the source bucket and keeps
      the rest of it in order, creates a missing target bucket for
      `setDate(date, target)`, appends the to-do at the end of the target
      bucket, and leaves every other bucket as it was. */
  lemma MoveEffect(m: Droppables, source: Option<nat>, target: nat, id: string, moved: Option<Todo>, date: Date)
    requires source.Some? ==> source.value in m
    requires source != Some(target)
    ensures MoveTodo(m, source, target, id, moved, date).Keys == m.Keys + {target}
    ensures source.Some? ==> MoveTodo(m, source, target, id, moved, date)[source.value].date == m[source.value].date
    ensures source.Some? ==> !HasId(MoveTodo(m, source, target, id, moved, date)[source.value].data, id)
    ensures source.Some? ==> Subsequence(MoveTodo(m, source, target, id, moved, date)[source.value].data, m[source.value].data)
    ensures source.Some? ==> forall t :: (multiset(MoveTodo(m, source, target, id, moved, date)[source.value].data)[t] ==
      if t.id == id then 0 else multiset(m[source.value].data)[t])
    ensures MoveTodo(m, source, target, id, moved, date)[target].date ==
      if target in m then m[target].date else SetDate(date, target)
    ensures MoveTodo(m, source, target, id, moved, date)[target].data ==
      (if target in m then m[target].data else []) + Appended(moved)
    ensures forall k :: k in m && Some(k) != source && k != target ==> MoveTodo(m, source, target, id, moved, date)[k] == m[k]
  {
  }

  /** What a drag end leaves behind: the bucket map and the to-do passed
      to `onUpdate` (`None` when `onUpdate` is not called). */
  datatype DragResult = DragResult(droppables: Droppables, updated: Option<Todo>)

  /** The three-way decision of `handleDragEnd` on bucket map `m`: no drop
      target, drop on the bucket the to-do came from, or a move. */
  function DragOutcome(m: Droppables, todos: seq<Todo>, date: Date, activeId: string, over: Option<nat>): (r: DragResult)
    ensures over.None? || FindContainer(m, activeId) == over ==> r == DragResult(m, None)
    ensures over.Some? && FindContainer(m, activeId) != over ==> r.droppables.Keys == m.Keys + {over.value}
    ensures over.Some? && FindContainer(m, activeId) != over ==>
      r.droppables == MoveTodo(m, FindContainer(m, activeId), over.value, activeId, FindById(todos, activeId), date)
    ensures r.updated.Some? <==> over.Some? && FindContainer(m, activeId) != over && HasId(todos, activeId)
    ensures r.updated.Some? ==>
      (over.Some? && FindById(todos, activeId).Some? && r.updated.value == Retarget(FindById(todos, activeId).value, over.value))
  {
    if over.None? || FindContainer(m, activeId) == over then DragResult(m, None)
    else
      var moved := FindById(todos, activeId);
      DragResult(MoveTodo(m, FindContainer(m, activeId), over.value, activeId, moved, date),
                 if moved.Some? then Some(Retarget(moved.value, over.value)) else None)
  }

  /** The board's state: the props it is rendered with and its own state. */
  class DayBoard {
    var todos: seq<Todo>
    var date: Date
    var days: nat
    var droppables: Droppables
    var activeDraggableId: Option<string>

    /** First render: `days = getDaysInMonth(date)` and the buckets built
        from the props; no drag in progress. */
    constructor (todos: seq<Todo>, date: Date)
      ensures this.todos == todos && this.date == date
      ensures days == DaysInMonth(date.year, date.month)
      ensures droppables == Bucketing(days, todos, date)
      ensures activeDraggableId == None
    {
      var n := DaysInMonth(date.year, date.month);
      var memo := UpdateDroppables(n, todos, date);
      this.todos := todos;
      this.date := date;
      days := n;
      droppables := memo;
      activeDraggableId := None;
    }

    /** The effect on `[todos, days, date]`: new props rebuild every bucket
        from scratch. */
    method Refresh(todos: seq<Todo>, date: Date)
      modifies this`todos, this`date, this`days, this`droppables
      ensures this.todos == todos && this.date == date
      ensures days == DaysInMonth(date.year, date.month)
      ensures droppables == Bucketing(days, todos, date)
    {
      var n := DaysInMonth(date.year, date.month);
      var memo := UpdateDroppables(n, todos, date);
      this.todos, this.date, days, droppables := todos, date, n, memo;
    }

    /** `handleDragStart`: the lifted to-do becomes the active one. */
    method DragStart(id: string)
      modifies this`activeDraggableId
      ensures activeDraggableId == Some(id)
    {
      activeDraggableId := Some(id);
    }

    /** `handleDragEnd`. `over` is the key of the bucket under the cursor,
        `None` when the drop landed on no bucket. The result is the to-do
        passed to `onUpdate`, `None` when `onUpdate` is not called. */
    method DragEnd(activeId: string, over: Option<nat>) returns (updated: Option<Todo>)
      modifies this`droppables, this`activeDraggableId
      ensures DragResult(droppables, updated) == DragOutcome(old(droppables), todos, date, activeId, over)
      ensures activeDraggableId == None
    {
      if over.None? {
        activeDraggableId := None;
        return None;
      }
      var sourceId := FindContainer(droppables, activeId);
      var targetId := over.value;
      if sourceId == Some(targetId) {
        activeDraggableId := None;
        return None;
      }
      var todo := FindById(todos, activeId);
      var next: Droppables := droppables;
      if sourceId.Some? {
        next := next[sourceId.value := next[sourceId.value].(data := RemoveById(next[sourceId.value].data, activeId))];
      }
      var target := if targetId in next then next[targetId] else Bucket(SetDate(date, targetId), []);
      next := next[targetId := target.(data := target.data + Appended(todo))];
      droppables := next;
      updated := if todo.Some? then Some(Retarget(todo.value, targetId)) else None;
      activeDraggableId := None;
    }
  }

  /** A to-do is in the bucket of day `d` exactly when it is in the list and
      falls on day `d` of some month. */
  lemma TodosOnDayMembers(s: seq<Todo>, d: nat, t: Todo)
    ensures t in TodosOnDay(s, d) <==> t in s && GetDate(t.date) == d
  {
    assert t in TodosOnDay(s, d) <==> multiset(TodosOnDay(s, d))[t] > 0;
    assert t in s <==> multiset(s)[t] > 0;
  }

  /** When the reference date's month has `days` days, bucket `d` is dated
      the reference date with its day replaced by `d`. */
  lemma BucketDates(days: nat, todos: seq<Todo>, date: Date, d: nat)
    requires days == DaysInMonth(date.year, date.month)
    requires d in Bucketing(days, todos, date)
    ensures Bucketing(days, todos, date)[d].date == date.(day := d)
  {
    SetDateInMonth(date, d);
  }

  /** The buckets for days 1..n, concatenated in key order. */
  function Concatenated(m: Droppables, n: nat): seq<Todo>
    requires forall d :: 1 <= d <= n ==> d in m
  {
    if n == 0 then [] else Concatenated(m, n - 1) + m[n].data
  }

  /** The buckets 1..n of `m` hold the to-dos of their day. */
  ghost predicate HoldDays(m: Droppables, todos: seq<Todo>, n: nat) {
    forall d :: 1 <= d <= n ==> d in m && m[d].data == TodosOnDay(todos, d)
  }

  /** Adding bucket n to the concatenation adds its entries. */
  lemma ConcatenatedStep(m: Droppables, n: nat, t: Todo)
    requires n > 0 && forall d :: 1 <= d <= n ==> d in m
    ensures multiset(Concatenated(m, n))[t] == multiset(Concatenated(m, n - 1))[t] + multiset(m[n].data)[t]
  {
    assert Concatenated(m, n) == Concatenated(m, n - 1) + m[n].data;
  }

  /** Counting one to-do across the buckets 1..n of such a map. */
  lemma {:induction false} ConcatenatedCount(m: Droppables, todos: seq<Todo>, n: nat, t: Todo)
    requires HoldDays(m, todos, n)
    ensures multiset(Concatenated(m, n))[t] == if 1 <= GetDate(t.date) <= n then multiset(todos)[t] else 0
  {
    if n > 0 {
      assert HoldDays(m, todos, n - 1);
      ConcatenatedCount(m, todos, n - 1, t);
      ConcatenatedStep(m, n, t);
      assert m[n].data == TodosOnDay(todos, n);
      assert multiset(m[n].data)[t] == if GetDate(t.date) == n then multiset(todos)[t] else 0;
    }
  }

  /** No omission, no duplicate: the buckets 1..days together hold each
      to-do whose day of the month is in 1..days exactly as often as the
      list does, and no other to-do. */
  lemma BucketsPartitionTodos(days: nat, todos: seq<Todo>, date: Date)
    ensures forall t :: (multiset(Concatenated(Bucketing(days, todos, date), days))[t] ==
      if 1 <= GetDate(t.date) <= days then multiset(todos)[t] else 0)
  {
    var m := Bucketing(days, todos, date);
    forall t
      ensures multiset(Concatenated(m, days))[t] == if 1 <= GetDate(t.date) <= days then multiset(todos)[t] else 0
    {
      ConcatenatedCount(m, todos, days, t);
    }
  }

  /** With unique ids, only the bucket of the to-do's own day holds its id. */
  lemma IdOnlyOnItsDay(days: nat, todos: seq<Todo>, date: Date, t: Todo, k: nat)
    requires UniqueIds(todos) && t in todos
    requires k in Bucketing(days, todos, date)
    requires HasId(Bucketing(days, todos, date)[k].data, t.id)
    ensures k == GetDate(t.date)
  {
    var data := Bucketing(days, todos, date)[k].data;
    var i :| 0 <= i < |data| && data[i].id == t.id;
    TodosOnDayMembers(todos, k, data[i]);
    var a :| 0 <= a < |todos| && todos[a] == data[i];
    var b :| 0 <= b < |todos| && todos[b] == t;
    assert a == b;
  }

  /** `findContainer` on freshly computed buckets finds a listed to-do in the
      bucket of its day of the month. */
  lemma FindContainerInBucketing(days: nat, todos: seq<Todo>, date: Date, t: Todo)
    requires UniqueIds(todos) && t in todos && 1 <= GetDate(t.date) <= days
    ensures FindContainer(Bucketing(days, todos, date), t.id) == Some(GetDate(t.date))
  {
    var m := Bucketing(days, todos, date);
    var d := GetDate(t.date);
    TodosOnDayMembers(todos, d, t);
    var i :| 0 <= i < |m[d].data| && m[d].data[i] == t;
    assert HasId(m[d].data, t.id);
    var r := FindContainer(m, t.id);
    if r.Some? {
      IdOnlyOnItsDay(days, todos, date, t, r.value);
    }
  }

  /** Where a move leaves the id: in the target bucket, not in the source
      bucket, and every other bucket as it was. */
  lemma MoveWhereTheIdIs(m: Droppables, source: Option<nat>, target: nat, t: Todo, date: Date)
    requires source.Some? ==> source.value in m
    requires source != Some(target)
    ensures HasId(MoveTodo(m, source, target, t.id, Some(t), date)[target].data, t.id)
    ensures source.Some? ==> !HasId(MoveTodo(m, source, target, t.id, Some(t), date)[source.value].data, t.id)
    ensures forall k :: k in m && Some(k) != source && k != target ==> MoveTodo(m, source, target, t.id, Some(t), date)[k] == m[k]
  {
    var r := MoveTodo(m, source, target, t.id, Some(t), date);
    assert r[target].data[|r[target].data| - 1] == t;
  }

  /** If no bucket other than the source holds the id, then after the move
      `findContainer` finds the id in the target bucket. */
  lemma FindAfterMove(m: Droppables, source: Option<nat>, target: nat, t: Todo, date: Date)
    requires source.Some? ==> source.value in m
    requires source != Some(target)
    requires forall k :: k in m && Some(k) != source ==> !HasId(m[k].data, t.id)
    ensures FindContainer(MoveTodo(m, source, target, t.id, Some(t), date), t.id) == Some(target)
  {
    var r := MoveTodo(m, source, target, t.id, Some(t), date);
    MoveWhereTheIdIs(m, source, target, t, date);
    forall k | k in r && k != target
      ensures !HasId(r[k].data, t.id)
    {
      if Some(k) != source {
        assert r[k] == m[k];
      }
    }
  }

  /** After the optimistic move of a listed to-do out of its day's bucket,
      `findContainer` finds it in the target bucket. */
  lemma MoveThenFind(days: nat, todos: seq<Todo>, date: Date, t: Todo, target: nat)
    requires UniqueIds(todos) && t in todos && 1 <= GetDate(t.date) <= days
    requires target != GetDate(t.date)
    ensures FindContainer(MoveTodo(Bucketing(days, todos, date), Some(GetDate(t.date)), target, t.id, Some(t), date), t.id)
      == Some(target)
  {
    var m := Bucketing(days, todos, date);
    forall k | k in m && k != GetDate(t.date)
      ensures !HasId(m[k].data, t.id)
    {
      if HasId(m[k].data, t.id) {
        IdOnlyOnItsDay(days, todos, date, t, k);
      }
    }
    FindAfterMove(m, Some(GetDate(t.date)), target, t, date);
  }

  /** The store update the move emits, followed by a recomputation of the
      buckets, puts the to-do where the optimistic move put it (when the
      target day exists in the to-do's own month). */
  lemma RebucketAfterUpdate(days: nat, todos: seq<Todo>, date: Date, t: Todo, target: nat)
    requires UniqueIds(todos) && t in todos
    requires 1 <= target <= days && target <= DaysInMonth(t.date.year, t.date.month)
    ensures FindContainer(Bucketing(days, ReplaceById(todos, Retarget(t, target)), date), t.id) == Some(target)
  {
    RebucketUnder(days, todos, date, t, Retarget(t, target), target);
  }

  /** The complement of `RebucketAfterUpdate`: a to-do dropped on a key
      past the end of its own month (possible because the bucketer ignores
      the month) is emitted in the next month, and the rebuilt buckets put
      it under the key minus its month's length, not where the move put it. */
  lemma RebucketAfterRolledUpdate(days: nat, todos: seq<Todo>, date: Date, t: Todo, target: nat)
    requires UniqueIds(todos) && t in todos
    requires DaysInMonth(t.date.year, t.date.month) < target
    requires target <= DaysInMonth(t.date.year, t.date.month) + DaysInMonth(NextMonth(t.date.year, t.date.month).0, NextMonth(t.date.year, t.date.month).1)
    requires target - DaysInMonth(t.date.year, t.date.month) <= days
    ensures (Retarget(t, target).date.year, Retarget(t, target).date.month) == NextMonth(t.date.year, t.date.month)
    ensures GetDate(Retarget(t, target).date) == target - DaysInMonth(t.date.year, t.date.month)
    ensures FindContainer(Bucketing(days, ReplaceById(todos, Retarget(t, target)), date), t.id) ==
      Some(GetDate(Retarget(t, target).date))
  {
    RolledDay(t, target);
    RebucketUnder(days, todos, date, t, Retarget(t, target), GetDate(Retarget(t, target).date));
  }

  /** The day of the month a rolled-over drop gives the to-do. */
  lemma RolledDay(t: Todo, target: nat)
    requires DaysInMonth(t.date.year, t.date.month) < target
    requires target <= DaysInMonth(t.date.year, t.date.month) + DaysInMonth(NextMonth(t.date.year, t.date.month).0, NextMonth(t.date.year, t.date.month).1)
    ensures (Retarget(t, target).date.year, Retarget(t, target).date.month) == NextMonth(t.date.year, t.date.month)
    ensures GetDate(Retarget(t, target).date) == target - DaysInMonth(t.date.year, t.date.month)
  {
    SetDateValue(t.date, target);
  }

  /** Replacing a listed to-do by one with the same id and a day of the
      month within the board rebuckets it under that day. */
  lemma RebucketUnder(days: nat, todos: seq<Todo>, date: Date, t: Todo, u: Todo, day: nat)
    requires UniqueIds(todos) && t in todos && u.id == t.id
    requires GetDate(u.date) == day && 1 <= day <= days
    ensures FindContainer(Bucketing(days, ReplaceById(todos, u), date), t.id) == Some(day)
  {
    var s := ReplaceById(todos, u);
    ReplaceKeepsUnique(todos, u);
    var i :| 0 <= i < |todos| && todos[i] == t;
    assert s[i] == u;
    FindContainerInBucketing(days, s, date, u);
  }

  /** A to-do of 10 February 2025 dragged to key 30 of a 31-day board is
      emitted as 2 March 2025 and rebucketed under key 2. */
  lemma RolledDragFebruary10(t: Todo, date: Date)
    requires t.date == Date(2025, 1, 10, t.date.time)
    ensures Retarget(t, 30).date == Date(2025, 2, 2, t.date.time)
    ensures FindContainer(Bucketing(31, [Retarget(t, 30)], date), t.id) == Some(2)
  {
    assert !IsLeapYear(2025);
    assert ReplaceById([t], Retarget(t, 30)) == [Retarget(t, 30)];
    RebucketAfterRolledUpdate(31, [t], date, t, 30);
  }

  /** Every entry a move leaves in the target bucket is a to-do: one that
      was there before or the listed to-do with the dragged id. */
  lemma MovedBucketHoldsTodos(m: Droppables, source: Option<nat>, target: nat, id: string, todos: seq<Todo>, date: Date)
    requires source.Some? ==> source.value in m
    requires source != Some(target)
    ensures forall t :: t in MoveTodo(m, source, target, id, FindById(todos, id), date)[target].data ==>
      (target in m && t in m[target].data) || (t in todos && t.id == id)
  {
    MoveEffect(m, source, target, id, FindById(todos, id), date);
  }

  /** The entries the source code leaves in the target bucket, with the
      result of `todos.find(...) as ITodo` kept as found: `None` stands for
      the `undefined` it yields when no to-do has the dragged id. */
  function TargetEntriesAsWritten(prior: seq<Todo>, todos: seq<Todo>, id: string): (r: seq<Option<Todo>>)
    ensures |r| == |prior| + 1 && r[|prior|] == FindById(todos, id)
  {
    seq(|prior|, i requires 0 <= i < |prior| => Some(prior[i])) + [FindById(todos, id)]
  }

  /** Dragging an id the to-do list does not hold appends `undefined` to the
      target bucket, which the column's render then dereferences. */
  lemma UndefinedAppendedAsWritten(prior: seq<Todo>, todos: seq<Todo>, id: string)
    requires !HasId(todos, id)
    ensures None in TargetEntriesAsWritten(prior, todos, id)
  {
    var r := TargetEntriesAsWritten(prior, todos, id);
    assert r[|prior|] == None;
  }
}
