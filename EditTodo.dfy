/** The `EditTodo` dialog: local copies of the to-do's title and
    description, reseeded whenever a new to-do arrives, and the save and
    close buttons that report to the page through callbacks. */
module EditTodo {
  import opened Seqs
  import opened Todos

  /** A callback the dialog invokes, in the order it invokes them. */
  datatype Call = OnSave(updatedTodo: Todo) | OnClose

  /** `b` is `a` with at most the title and the description changed. */
  predicate SameExceptText(a: Todo, b: Todo) {
    b.id == a.id && b.completed == a.completed && b.date == a.date
    && b.createdAt == a.createdAt && b.updatedAt == a.updatedAt
  }

  /** `{ ...todo, title, description }`. `updatedAt` is carried over, not
      refreshed. */
  function WithText(t: Todo, title: string, description: string): (u: Todo)
    ensures u.title == title && u.description == description
    ensures SameExceptText(t, u)
  {
    t.(title := title, description := description)
  }

  /** Two to-dos that agree except on text, carrying the same text, are
      the same to-do: `WithText` leaves nothing else to choose. */
  lemma WithTextDetermined(t: Todo, u: Todo)
    requires SameExceptText(t, u)
    ensures WithText(t, u.title, u.description) == u
  {
  }

  /** Saving with the text the to-do already has gives back the to-do. */
  lemma WithOwnText(t: Todo)
    ensures WithText(t, t.title, t.description) == t
  {
  }

  /** After the page applies a save to a list with unique ids holding the
      to-do, looking the id up finds the edited to-do, and the list keeps
      its unique ids. */
  lemma SaveThenFind(todos: seq<Todo>, t: Todo, title: string, description: string)
    requires UniqueIds(todos) && t in todos
    ensures FindById(ReplaceById(todos, WithText(t, title, description)), t.id) == Some(WithText(t, title, description))
    ensures UniqueIds(ReplaceById(todos, WithText(t, title, description)))
  {
    var i :| 0 <= i < |todos| && todos[i] == t;
    assert HasId(todos, WithText(t, title, description).id);
    FindAfterReplace(todos, WithText(t, title, description));
    ReplaceKeepsUnique(todos, WithText(t, title, description));
  }

  /** The dialog's state: the `todo` prop and the two local fields. */
  class TodoEditor {
    var todo: Todo
    var title: string
    var description: string

    /** First render: the fields start from the to-do. */
    constructor (todo: Todo)
      ensures this.todo == todo && title == todo.title && description == todo.description
    {
      this.todo := todo;
      title := todo.title;
      description := todo.description;
    }

    /** A new `todo` prop and the effect on it (`handleInitialFieldValues`):
        both fields are reseeded from the new to-do. */
    method ReceiveTodo(t: Todo)
      modifies this
      ensures todo == t && title == t.title && description == t.description
    {
      todo := t;
      title := t.title;
      description := t.description;
    }

    /** `handleDescriptionChange`: only the local description changes. */
    method ChangeDescription(value: string)
      modifies this`description
      ensures description == value
    {
      description := value;
    }

    /** `handleOnSave`: reports the to-do with the local title and
        description through `onSave`, then `onClose`. */
    method Save() returns (calls: seq<Call>)
      ensures calls == [OnSave(WithText(todo, title, description)), OnClose]
    {
      var updatedTodo := WithText(todo, title, description);
      calls := [OnSave(updatedTodo)];
      calls := calls + [OnClose];
    }

    /** `handleOnClose`, and `handleOnCancel`, which only calls it:
        `onClose` alone. */
    method Close() returns (calls: seq<Call>)
      ensures calls == [OnClose]
    {
      calls := [OnClose];
    }
  }

  /** A save made right after a new to-do arrives, with no edit in
      between, reports that to-do unchanged. */
  method SaveWithoutEdits(t: Todo) returns (calls: seq<Call>)
    ensures calls == [OnSave(t), OnClose]
  {
    var editor := new TodoEditor(t);
    calls := editor.Save();
    WithOwnText(t);
  }

  /** Editing the description and saving reports the to-do with that
      description, its title and everything else unchanged. */
  method SaveAfterDescriptionEdit(t: Todo, value: string) returns (calls: seq<Call>)
    ensures |calls| == 2 && calls[1] == OnClose && calls[0].OnSave?
    ensures calls[0].updatedTodo.description == value && calls[0].updatedTodo.title == t.title
    ensures SameExceptText(t, calls[0].updatedTodo)
  {
    var editor := new TodoEditor(t);
    editor.ChangeDescription(value);
    calls := editor.Save();
  }
}
