/** The `DndTest` playground: three numbered columns of item ids, a backlog
    of the items no column holds, and the drag that moves an item into a
    column. The move is the one of `DayBuckets` over plain id lists.

    Column keys are the strings "1", "2", "3"; the model keys them by the
    number they spell. */
module DndColumns {
  import opened Seqs
  import opened Keys

  /** A draggable item's id. */
  type Item = string

  /** `Record<string, UniqueIdentifier[]>`, keyed by column number. */
  type Columns = map<nat, seq<Item>>

  /** `allItems`: every item of the playground, in backlog order. */
  const AllItems: seq<Item> := ["A", "B", "C", "D", "E"]

  /** The columns the playground starts with: "1", "2" and "3", all empty. */
  const InitialColumns: Columns := map[1 := [], 2 := [], 3 := []]

  /** `findContainer(id)`: the first key, in ascending order, whose column
      includes the id; `None` (undefined) when no column does. */
  function FindColumn(m: Columns, x: Item): (r: Option<nat>)
    ensures r.Some? ==> r.value in m && x in m[r.value]
    ensures r.Some? ==> forall k :: k in m && k < r.value ==> x !in m[k]
    ensures r.None? <==> forall k :: k in m ==> x !in m[k]
  {
    FirstKeyWhere(m, (col: seq<Item>) => x in col)
  }

  /** The test `filter` applies to drop `x`. */
  function Other(x: Item): Item -> bool {
    y => y != x
  }

  /** `col.filter(item => item !== x)`: every occurrence of `x` removed,
      the other items kept in order. */
  function RemoveItem(col: seq<Item>, x: Item): (r: seq<Item>)
    ensures x !in r
    ensures forall y :: y != x ==> multiset(r)[y] == multiset(col)[y]
    ensures Subsequence(r, col)
  {
    forall y ensures multiset(Filter(Other(x), col))[y] == if y != x then multiset(col)[y] else 0 {
      FilterCount(Other(x), col, y);
    }
    FilterMembers(Other(x), col, x);
    FilterSubsequence(Other(x), col);
    Filter(Other(x), col)
  }

  /** The columns after moving `x` from `source` (None when no column held
      it) to the distinct key `target`: the source loses every occurrence
      of `x`, a missing target starts empty, `x` goes at the target's end,
      and every other column stays as it was. */
  function MoveItem(m: Columns, source: Option<nat>, target: nat, x: Item): (r: Columns)
    requires source.Some? ==> source.value in m
    requires source != Some(target)
    ensures r.Keys == m.Keys + {target}
    ensures source.Some? ==> r[source.value] == RemoveItem(m[source.value], x)
    ensures r[target] == (if target in m then m[target] else []) + [x]
    ensures forall k :: k in m && Some(k) != source && k != target ==> r[k] == m[k]
  {
    var cleared := if source.Some? then m[source.value := RemoveItem(m[source.value], x)] else m;
    cleared[target := (if target in cleared then cleared[target] else []) + [x]]
  }

  /** The three-way decision of `handleDragEnd`: no drop target, drop on
      the column the item came from, or a move. */
  function ColumnDrop(m: Columns, x: Item, over: Option<nat>): (r: Columns)
    ensures over.None? || FindColumn(m, x) == over ==> r == m
    ensures over.Some? ==> over.value in r
    ensures over.Some? && FindColumn(m, x) != over ==> r == MoveItem(m, FindColumn(m, x), over.value, x)
  {
    if over.None? || FindColumn(m, x) == over then m
    else MoveItem(m, FindColumn(m, x), over.value, x)
  }

  /** No column lists an item twice. */
  ghost predicate NoRepeats(m: Columns) {
    forall k, y :: k in m ==> multiset(m[k])[y] <= 1
  }

  /** No item sits in two columns. */
  ghost predicate AtMostOneColumn(m: Columns) {
    forall k, j, y :: k in m && j in m && k != j && y in m[k] ==> y !in m[j]
  }

  /** Every item is in at most one column, at most once. */
  ghost predicate Exclusive(m: Columns) {
    NoRepeats(m) && AtMostOneColumn(m)
  }

  /** Where an item is after a drop on a column: the dropped item only in
      that column, every other item where it was. */
  lemma MemberAfterDrop(m: Columns, x: Item, target: nat, y: Item, k: nat)
    requires AtMostOneColumn(m) && FindColumn(m, x) != Some(target)
    requires k in MoveItem(m, FindColumn(m, x), target, x)
    ensures y in MoveItem(m, FindColumn(m, x), target, x)[k] <==>
      if y == x then k == target else k in m && y in m[k]
  {
    var source := FindColumn(m, x);
    var r := MoveItem(m, source, target, x);
    if source.Some? && k == source.value {
      assert y != x ==> multiset(r[k])[y] == multiset(m[k])[y];
    }
  }

  /** A drop keeps every item in at most one column, at most once. */
  lemma DropKeepsExclusive(m: Columns, x: Item, over: Option<nat>)
    requires Exclusive(m)
    ensures Exclusive(ColumnDrop(m, x, over))
  {
    if over.Some? && FindColumn(m, x) != over {
      var source := FindColumn(m, x);
      var target := over.value;
      var r := MoveItem(m, source, target, x);
      forall k, j, y | k in r && j in r && k != j && y in r[k]
        ensures y !in r[j]
      {
        MemberAfterDrop(m, x, target, y, k);
        MemberAfterDrop(m, x, target, y, j);
      }
      forall k, y | k in r
        ensures multiset(r[k])[y] <= 1
      {
        if k == target {
          var prior := if target in m then m[target] else [];
          assert x !in prior;
          assert r[k] == prior + [x];
          assert multiset(r[k])[y] == multiset(prior)[y] + (if y == x then 1 else 0);
        }
      }
    }
  }

  /** After a drop on a column, that column holds the item; when every
      item was in at most one column, `findContainer` now finds it there. */
  lemma DropPlacesItem(m: Columns, x: Item, over: Option<nat>)
    requires over.Some?
    ensures over.value in ColumnDrop(m, x, over) && x in ColumnDrop(m, x, over)[over.value]
    ensures AtMostOneColumn(m) ==> FindColumn(ColumnDrop(m, x, over), x) == over
  {
    var r := ColumnDrop(m, x, over);
    if FindColumn(m, x) != over {
      assert r[over.value][|r[over.value]| - 1] == x;
      if AtMostOneColumn(m) {
        forall k | k in r && k != over.value
          ensures x !in r[k]
        {
          MemberAfterDrop(m, x, over.value, x, k);
        }
      }
    }
  }

  /** `Object.values(droppables).flat()`: the columns' items, column after
      column in ascending key order. */
  function Allocated(m: Columns): (r: seq<Item>)
    ensures forall y :: y in r <==> exists k :: k in m && y in m[k]
    decreases |m|
  {
    if |m| == 0 then []
    else
      var k := MinKey(m.Keys);
      var rest := m - {k};
      assert forall j :: j in m ==> j == k || (j in rest && rest[j] == m[j]);
      m[k] + Allocated(rest)
  }

  /** The test the backlog `filter` applies. */
  function Unallocated(m: Columns): Item -> bool {
    y => y !in Allocated(m)
  }

  /** `availableItems`: the items of `all` that no column holds, in the
      order of `all`. */
  function Backlog(all: seq<Item>, m: Columns): (r: seq<Item>)
    ensures Subsequence(r, all)
    ensures forall y :: multiset(r)[y] == if y in Allocated(m) then 0 else multiset(all)[y]
  {
    forall y ensures multiset(Filter(Unallocated(m), all))[y] == if y in Allocated(m) then 0 else multiset(all)[y] {
      FilterCount(Unallocated(m), all, y);
    }
    FilterSubsequence(Unallocated(m), all);
    Filter(Unallocated(m), all)
  }

  /** Backlog and columns together cover every item, and no item is in
      both. */
  lemma BacklogCovers(all: seq<Item>, m: Columns, y: Item)
    requires y in all
    ensures y in Backlog(all, m) <==> !exists k :: k in m && y in m[k]
  {
    assert y in Backlog(all, m) <==> multiset(Backlog(all, m))[y] > 0;
  }

  /** Before any drop every item is in the backlog, in `allItems` order. */
  lemma InitialBacklog()
    ensures Backlog(AllItems, InitialColumns) == AllItems
  {
    forall i | 0 <= i < |AllItems|
      ensures Unallocated(InitialColumns)(AllItems[i])
    {
      forall k | k in InitialColumns ensures InitialColumns[k] == [] {}
    }
    FilterKeepsAll(Unallocated(InitialColumns), AllItems);
  }

  /** A drop keeps every other item in the column it was in. */
  lemma StaysAfterDrop(m: Columns, x: Item, over: Option<nat>, y: Item, k: nat)
    requires over.Some? && FindColumn(m, x) != over
    requires y != x && k in m && y in m[k]
    ensures k in ColumnDrop(m, x, over) && y in ColumnDrop(m, x, over)[k]
  {
    var r := ColumnDrop(m, x, over);
    if FindColumn(m, x) == Some(k) {
      assert multiset(r[k])[y] == multiset(m[k])[y];
    } else if k == over.value {
      assert r[k] == m[k] + [x];
      assert y in r[k][..|m[k]|];
    }
  }

  /** A drop brings no item other than the dragged one into a column. */
  lemma CameFromBeforeDrop(m: Columns, x: Item, over: Option<nat>, y: Item, k: nat)
    requires over.Some? && FindColumn(m, x) != over
    requires y != x && k in ColumnDrop(m, x, over) && y in ColumnDrop(m, x, over)[k]
    ensures k in m && y in m[k]
  {
    var r := ColumnDrop(m, x, over);
    if FindColumn(m, x) == Some(k) {
      assert multiset(r[k])[y] == multiset(m[k])[y];
    } else if k == over.value {
      var prior := if k in m then m[k] else [];
      assert r[k] == prior + [x];
    }
  }

  /** A drop on a column adds the dragged item to the allocated items and
      leaves every other item allocated or not as it was. */
  lemma AllocatedAfterDrop(m: Columns, x: Item, over: Option<nat>, y: Item)
    requires over.Some? && FindColumn(m, x) != over
    ensures y in Allocated(ColumnDrop(m, x, over)) <==> y == x || y in Allocated(m)
  {
    var r := ColumnDrop(m, x, over);
    if y == x {
      DropPlacesItem(m, x, over);
    } else {
      if y in Allocated(m) {
        var k :| k in m && y in m[k];
        StaysAfterDrop(m, x, over, y, k);
      }
      if y in Allocated(r) {
        var k :| k in r && y in r[k];
        CameFromBeforeDrop(m, x, over, y, k);
      }
    }
  }

  /** Filtering the dragged item out of a backlog that never held it
      changes nothing. */
  lemma RemoveAbsentItem(b: seq<Item>, x: Item)
    requires x !in b
    ensures RemoveItem(b, x) == b
  {
    forall i | 0 <= i < |b|
      ensures Other(x)(b[i])
    {
    }
    FilterKeepsAll(Other(x), b);
  }

  /** The backlog after a move onto another column: `all` filtered by the
      old test and by "is not the dragged item". */
  lemma MovedBacklog(all: seq<Item>, m: Columns, x: Item, over: Option<nat>)
    requires over.Some? && FindColumn(m, x) != over
    ensures Backlog(all, ColumnDrop(m, x, over)) == Filter(Both(Unallocated(m), Other(x)), all)
  {
    var r := ColumnDrop(m, x, over);
    forall i | 0 <= i < |all|
      ensures Unallocated(r)(all[i]) == Both(Unallocated(m), Other(x))(all[i])
    {
      AllocatedAfterDrop(m, x, over, all[i]);
    }
    FilterAgree(Unallocated(r), Both(Unallocated(m), Other(x)), all);
  }

  /** A drop on a column takes the dragged item out of the backlog and
      leaves the rest of the backlog as it was. */
  lemma DropLeavesBacklog(all: seq<Item>, m: Columns, x: Item, over: Option<nat>)
    requires over.Some?
    ensures Backlog(all, ColumnDrop(m, x, over)) == RemoveItem(Backlog(all, m), x)
  {
    var b := Backlog(all, m);
    if FindColumn(m, x) == over {
      assert x in Allocated(m);
      assert multiset(b)[x] == 0;
      RemoveAbsentItem(b, x);
    } else {
      MovedBacklog(all, m, x, over);
      FilterFuse(Unallocated(m), Other(x), all);
    }
  }

  /** The playground's state. */
  class ColumnBoard {
    var droppables: Columns
    var activeDraggableId: Option<Item>

    /** Three empty columns, no drag in progress. */
    constructor ()
      ensures droppables == InitialColumns && activeDraggableId == None
      ensures Exclusive(droppables)
    {
      droppables := InitialColumns;
      activeDraggableId := None;
    }

    /** `handleDragStart`: the lifted item becomes the active one. */
    method DragStart(id: Item)
      modifies this`activeDraggableId
      ensures activeDraggableId == Some(id)
    {
      activeDraggableId := Some(id);
    }

    /** `handleDragEnd`. `over` is the key of the column under the cursor,
        `None` when the drop landed on no column. */
    method DragEnd(activeId: Item, over: Option<nat>)
      modifies this`droppables, this`activeDraggableId
      ensures droppables == ColumnDrop(old(droppables), activeId, over)
      ensures activeDraggableId == None
    {
      if over.None? {
        activeDraggableId := None;
        return;
      }
      var sourceId := FindColumn(droppables, activeId);
      var targetId := over.value;
      if sourceId == Some(targetId) {
        activeDraggableId := None;
        return;
      }
      var next := droppables;
      if sourceId.Some? {
        next := next[sourceId.value := RemoveItem(next[sourceId.value], activeId)];
      }
      var target := if targetId in next then next[targetId] else [];
      next := next[targetId := target + [activeId]];
      droppables := next;
      activeDraggableId := None;
    }
  }
}
