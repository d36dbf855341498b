/** The to-do record (`ITodo`) and the list transforms the screens apply to
    the to-do list: append, delete by id (`filter`), replace by id (`map`),
    look up by id (`find`) and the per-day views (`filter` on the date). */
module Todos {
  import opened Seqs
  import opened Calendar

  /** `ITodo`. The three timestamps are ISO-8601 strings in the source; the
      model keeps the local date they denote. */
  datatype Todo = Todo(
    id: string,
    title: string,
    description: string,
    completed: bool,
    date: Date,
    createdAt: Date,
    updatedAt: Date)

  /** `s.some(todo => todo.id === id)`. */
  predicate HasId(s: seq<Todo>, id: string) {
    exists i :: 0 <= i < |s| && s[i].id == id
  }

  /** No two to-dos of the list share an id. */
  predicate UniqueIds(s: seq<Todo>) {
    forall i, j :: 0 <= i < j < |s| ==> s[i].id != s[j].id
  }

  /** A to-do as the add form and the "+" button of a day create it: empty
      description, not completed, both timestamps "now". */
  function NewTodo(id: string, title: string, date: Date, now: Date): (t: Todo)
    ensures t.id == id && t.title == title && t.date == date
    ensures t.description == "" && !t.completed
    ensures t.createdAt == now && t.updatedAt == now
  {
    Todo(id, title, "", false, date, now, now)
  }

  /** `s.find(todo => todo.id === id)`: the first to-do with that id. */
  function FindById(s: seq<Todo>, id: string): (r: Option<Todo>)
    ensures r.Some? ==> r.value in s && r.value.id == id
    ensures r.Some? ==> exists i :: 0 <= i < |s| && s[i] == r.value && forall j :: 0 <= j < i ==> s[j].id != id
    ensures r.None? <==> !HasId(s, id)
  {
    if s == [] then None
    else if s[0].id == id then Some(s[0])
    else
      var r := FindById(s[1..], id);
      assert forall i :: 0 < i < |s| ==> s[i] == s[1..][i - 1];
      r
  }

  /** The test that keeps the to-dos whose id is not `id`. */
  function NotId(id: string): Todo -> bool {
    (t: Todo) => t.id != id
  }

  /** The test that keeps the to-dos on day `day` of any month. */
  function OnDay(day: nat): Todo -> bool {
    (t: Todo) => GetDate(t.date) == day
  }

  /** The test that keeps the to-dos on the selected calendar day. */
  function OnCalendarDay(selected: Option<CalendarDay>): Todo -> bool {
    (t: Todo) => selected == Some(DayOf(t.date))
  }

  /** `s.filter(todo => todo.id !== id)`: drop every to-do with that id. */
  function RemoveById(s: seq<Todo>, id: string): (r: seq<Todo>)
    ensures !HasId(r, id)
    ensures forall t :: multiset(r)[t] == if t.id == id then 0 else multiset(s)[t]
    ensures Subsequence(r, s)
  {
    var keep := NotId(id);
    forall t ensures multiset(Filter(keep, s))[t] == if t.id == id then 0 else multiset(s)[t] {
      FilterCount(keep, s, t);
    }
    forall i | 0 <= i < |Filter(keep, s)| ensures Filter(keep, s)[i].id != id {
      FilterMembers(keep, s, Filter(keep, s)[i]);
    }
    FilterSubsequence(keep, s);
    Filter(keep, s)
  }

  /** `s.map(todo => todo.id === u.id ? u : todo)`: every to-do with `u`'s id
      becomes `u`; the others, the order and the length stay. */
  function ReplaceById(s: seq<Todo>, u: Todo): (r: seq<Todo>)
    ensures |r| == |s|
    ensures forall i :: 0 <= i < |s| ==> r[i].id == s[i].id
    ensures forall i :: 0 <= i < |s| && s[i].id == u.id ==> r[i] == u
    ensures forall i :: 0 <= i < |s| && s[i].id != u.id ==> r[i] == s[i]
  {
    if s == [] then []
    else
      var rest := ReplaceById(s[1..], u);
      [if s[0].id == u.id then u else s[0]] + rest
  }

  /** The to-dos whose day of the month is `day`, in list order (month and
      year are not compared). */
  function TodosOnDay(s: seq<Todo>, day: nat): (r: seq<Todo>)
    ensures forall t :: multiset(r)[t] == if GetDate(t.date) == day then multiset(s)[t] else 0
    ensures Subsequence(r, s)
  {
    var onDay := OnDay(day);
    forall t ensures multiset(Filter(onDay, s))[t] == if GetDate(t.date) == day then multiset(s)[t] else 0 {
      FilterCount(onDay, s, t);
    }
    FilterSubsequence(onDay, s);
    Filter(onDay, s)
  }

  /** The to-dos that fall on the selected calendar day; no to-do matches
      when no day is selected (an empty date input). */
  function TodosOnCalendarDay(s: seq<Todo>, selected: Option<CalendarDay>): (r: seq<Todo>)
    ensures forall t :: multiset(r)[t] == if selected == Some(DayOf(t.date)) then multiset(s)[t] else 0
    ensures Subsequence(r, s)
  {
    var onDay := OnCalendarDay(selected);
    forall t ensures multiset(Filter(onDay, s))[t] == if selected == Some(DayOf(t.date)) then multiset(s)[t] else 0 {
      FilterCount(onDay, s, t);
    }
    FilterSubsequence(onDay, s);
    Filter(onDay, s)
  }

  /** Deleting an id the list does not hold leaves the list as it is. */
  lemma RemoveAbsent(s: seq<Todo>, id: string)
    requires !HasId(s, id)
    ensures RemoveById(s, id) == s
  {
    FilterKeepsAll(NotId(id), s);
  }

  /** Adding a to-do with a fresh id and deleting that id restores the list. */
  lemma AddThenRemove(s: seq<Todo>, t: Todo)
    requires !HasId(s, t.id)
    ensures RemoveById(s + [t], t.id) == s
  {
    var keep := NotId(t.id);
    FilterConcat(keep, s, [t]);
    FilterKeepsAll(keep, s);
    assert Filter(keep, [t]) == [];
  }

  /** Replacing by an id the list does not hold leaves the list as it is. */
  lemma {:induction false} ReplaceAbsent(s: seq<Todo>, u: Todo)
    requires !HasId(s, u.id)
    ensures ReplaceById(s, u) == s
  {
    if s != [] {
      assert !HasId(s[1..], u.id) by {
        forall i | 0 <= i < |s[1..]| ensures s[1..][i].id != u.id { assert s[1..][i] == s[i + 1]; }
      }
      ReplaceAbsent(s[1..], u);
    }
  }

  /** Appending a to-do with a fresh id keeps the ids unique. */
  lemma AppendFreshKeepsUnique(s: seq<Todo>, t: Todo)
    requires UniqueIds(s) && !HasId(s, t.id)
    ensures UniqueIds(s + [t])
  {
  }

  /** Deleting keeps the ids unique. */
  lemma RemoveKeepsUnique(s: seq<Todo>, id: string)
    requires UniqueIds(s)
    ensures UniqueIds(RemoveById(s, id))
  {
    SubsequenceKeepsUnique(RemoveById(s, id), s);
  }

  /** Replacing keeps the ids unique (ids are kept position by position). */
  lemma ReplaceKeepsUnique(s: seq<Todo>, u: Todo)
    requires UniqueIds(s)
    ensures UniqueIds(ReplaceById(s, u))
  {
  }

  /** After replacing in a list with unique ids, looking the id up finds the
      replacement. */
  lemma FindAfterReplace(s: seq<Todo>, u: Todo)
    requires UniqueIds(s) && HasId(s, u.id)
    ensures FindById(ReplaceById(s, u), u.id) == Some(u)
  {
    var r := ReplaceById(s, u);
    var i :| 0 <= i < |s| && s[i].id == u.id;
    assert r[i] == u;
    assert HasId(r, u.id);
  }

  /** A sub-list of a list with unique ids has unique ids. */
  lemma {:induction false} SubsequenceKeepsUnique(a: seq<Todo>, b: seq<Todo>)
    requires Subsequence(a, b) && UniqueIds(b)
    ensures UniqueIds(a)
    ensures forall t :: t in a ==> t in b
    decreases |b|
  {
    if a != [] {
      assert b != [];
      if a[0] == b[0] && Subsequence(a[1..], b[1..]) {
        SubsequenceKeepsUnique(a[1..], b[1..]);
        forall j | 0 < j < |a| ensures a[0].id != a[j].id {
          assert a[1..][j - 1] == a[j];
          assert a[j] in b[1..];
          var k :| 0 <= k < |b[1..]| && b[1..][k] == a[j];
          assert b[k + 1] == a[j];
        }
        assert forall i, j :: 0 < i < j < |a| ==> a[i] == a[1..][i - 1] && a[j] == a[1..][j - 1];
        forall t | t in a ensures t in b {
          if t != a[0] {
            var j :| 0 < j < |a| && a[j] == t;
            assert a[1..][j - 1] == t;
            assert t in b[1..];
          }
        }
      } else {
        SubsequenceKeepsUnique(a, b[1..]);
      }
    }
  }
}
