/** The `Home` page: the to-do list it owns, the add form, the day filter,
    the editor it opens, and the save indicator.

    The uuid generator and the clock are parameters (`id`, `now`); the file
    write is reduced to whether it succeeded. */
module Home {
  import opened Seqs
  import opened Calendar
  import opened Todos

  /** `saveStatus`. */
  datatype SaveStatus = Idle | Unsaved | Saving | Saved | Error

  /** The title the "+" button of a day column gives a new to-do. */
  const NewTodoTitle: string := "Nova tarefa"

  /** The page's state. `selectedDate` is the value of the date input:
      `None` when the input is cleared (the empty string). */
  class HomeState {
    var todos: seq<Todo>
    var title: string
    var saveStatus: SaveStatus
    var selectedDate: Option<CalendarDay>
    var filteredTodos: seq<Todo>
    var editingTodoId: Option<string>
    /** The list the last successful write put in the file, if any. */
    ghost var written: Option<seq<Todo>>

    /** The ids are unique, the status shows "saved" only while the list is
        the one last written, and "saving" is never left behind by a
        handler. */
    ghost predicate Valid()
      reads this
    {
      UniqueIds(todos) && (saveStatus == Saved ==> written == Some(todos)) && saveStatus != Saving
    }

    /** First render: empty list and title, status idle, today's date
        selected, nothing filtered, no editor open. */
    constructor (today: CalendarDay)
      ensures todos == [] && title == "" && saveStatus == Idle
      ensures selectedDate == Some(today) && filteredTodos == [] && editingTodoId == None
      ensures written == None
      ensures Valid()
    {
      todos := [];
      title := "";
      saveStatus := Idle;
      selectedDate := Some(today);
      filteredTodos := [];
      editingTodoId := None;
      written := None;
    }

    /** `editingTodo`: the first to-do whose id is the one being edited;
        `None` when no editor is open or no to-do has that id. */
    function EditingTodo(): (r: Option<Todo>)
      reads this
      ensures editingTodoId.None? ==> r.None?
      ensures r.Some? ==> r.value in todos && Some(r.value.id) == editingTodoId
      ensures editingTodoId.Some? && HasId(todos, editingTodoId.value) ==> r.Some?
      ensures editingTodoId.Some? ==> r == FindById(todos, editingTodoId.value)
    {
      if editingTodoId.None? then None else FindById(todos, editingTodoId.value)
    }

    /** `handleTitleChange`. */
    method ChangeTitle(value: string)
      modifies this`title
      ensures title == value
    {
      title := value;
    }

    /** `handleSelectedDateChange`. */
    method SelectDate(value: Option<CalendarDay>)
      modifies this`selectedDate
      ensures selectedDate == value
    {
      selectedDate := value;
    }

    /** `handleSubmit`: appends a to-do with the typed title at local
        midnight of the selected day, clears the title and marks the list
        unsaved. With the date input cleared, building the date throws
        before any state changes; the result is false and nothing changes. */
    method Submit(id: string, now: Date) returns (ok: bool)
      requires Valid() && !HasId(todos, id)
      modifies this`todos, this`title, this`saveStatus
      ensures Valid()
      ensures ok <==> old(selectedDate).Some?
      ensures ok ==> todos == old(todos) + [NewTodo(id, old(title), Midnight(selectedDate.value), now)]
      ensures ok ==> title == "" && saveStatus == Unsaved
      ensures !ok ==> todos == old(todos) && title == old(title) && saveStatus == old(saveStatus)
    {
      if selectedDate.None? {
        return false;
      }
      var newTodo := NewTodo(id, title, Midnight(selectedDate.value), now);
      AppendFreshKeepsUnique(todos, newTodo);
      todos := todos + [newTodo];
      title := "";
      saveStatus := Unsaved;
      ok := true;
    }

    /** `onCreateNewTodo`: the "+" button of a day column appends a to-do
        titled "Nova tarefa" on that column's date and marks the list
        unsaved. */
    method CreateNewTodo(id: string, date: Date, now: Date)
      requires Valid() && !HasId(todos, id)
      modifies this`todos, this`saveStatus
      ensures Valid()
      ensures todos == old(todos) + [NewTodo(id, NewTodoTitle, date, now)]
      ensures saveStatus == Unsaved
    {
      AppendFreshKeepsUnique(todos, NewTodo(id, NewTodoTitle, date, now));
      todos := todos + [NewTodo(id, NewTodoTitle, date, now)];
      saveStatus := Unsaved;
    }

    /** `handleDeleteTodo`: drops every to-do with the id and marks the list
        unsaved. */
    method DeleteTodo(id: string)
      requires Valid()
      modifies this`todos, this`saveStatus
      ensures Valid()
      ensures todos == RemoveById(old(todos), id)
      ensures saveStatus == Unsaved
    {
      RemoveKeepsUnique(todos, id);
      todos := RemoveById(todos, id);
      saveStatus := Unsaved;
    }

    /** `onSaveEditTodo`, also the board's `onUpdate`: every to-do with the
        updated one's id becomes the updated one; the list is marked
        unsaved. */
    method SaveEditTodo(updated: Todo)
      requires Valid()
      modifies this`todos, this`saveStatus
      ensures Valid()
      ensures todos == ReplaceById(old(todos), updated)
      ensures saveStatus == Unsaved
    {
      ReplaceKeepsUnique(todos, updated);
      todos := ReplaceById(todos, updated);
      saveStatus := Unsaved;
    }

    /** `handleSaveTodos`. The status passes through "saving" and ends
        "saved" when the write succeeds, "error" when it fails; the list is
        not changed. Returns the list handed to the write and the statuses
        in the order they are set. */
    method SaveTodos(writeSucceeds: bool) returns (content: seq<Todo>, statuses: seq<SaveStatus>)
      requires Valid()
      modifies this`saveStatus, this`written
      ensures Valid()
      ensures content == todos
      ensures statuses == [Saving, if writeSucceeds then Saved else Error]
      ensures saveStatus == statuses[|statuses| - 1]
      ensures written == if writeSucceeds then Some(todos) else old(written)
    {
      saveStatus := Saving;
      statuses := [saveStatus];
      content := todos;
      if writeSucceeds {
        written := Some(content);
        saveStatus := Saved;
      } else {
        saveStatus := Error;
      }
      statuses := statuses + [saveStatus];
    }

    /** `handleEditTodo`: opens the editor on the id. */
    method EditTodo(id: string)
      modifies this`editingTodoId
      ensures editingTodoId == Some(id)
    {
      editingTodoId := Some(id);
    }

    /** `onCloseEditTodo`: closes the editor. */
    method CloseEditTodo()
      modifies this`editingTodoId
      ensures editingTodoId == None && EditingTodo() == None
    {
      editingTodoId := None;
    }

    /** The effect on `[selectedDate, todos]`: with a non-empty list, the
        filtered list becomes the to-dos on the selected day; with an empty
        list the previous filtered list stays. */
    method RefreshFilter()
      modifies this`filteredTodos
      ensures |todos| > 0 ==> filteredTodos == TodosOnCalendarDay(todos, selectedDate)
      ensures |todos| == 0 ==> filteredTodos == old(filteredTodos)
    {
      if |todos| > 0 {
        filteredTodos := TodosOnCalendarDay(todos, selectedDate);
      }
    }
  }

  /** A submitted to-do falls on the selected day, so the day filter then
      shows it, after the to-dos it showed before. */
  lemma SubmittedIsShown(todos: seq<Todo>, id: string, title: string, day: CalendarDay, now: Date)
    ensures TodosOnCalendarDay(todos + [NewTodo(id, title, Midnight(day), now)], Some(day)) ==
      TodosOnCalendarDay(todos, Some(day)) + [NewTodo(id, title, Midnight(day), now)]
  {
    var onDay := OnCalendarDay(Some(day));
    var t := NewTodo(id, title, Midnight(day), now);
    FilterConcat(onDay, todos, [t]);
    assert Filter(onDay, [t]) == [t];
  }
}
