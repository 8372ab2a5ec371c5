/**
 * The App component's editing dialog and the handlers that change the task
 * list, each taken as one atomic transition of a session record.
 */
module Editor {
  import opened Wrappers
  import opened Strings
  import opened Todos

  /**
   * The component state these handlers touch: `todos`, the dialog's input
   * text (`newTodo`), `isModalOpen` and `editingTodo` (a snapshot of the
   * entry being edited, or nothing when creating).
   */
  datatype Session = Session(todos: seq<Todo>, draft: string, modalOpen: bool, editing: Option<Todo>)

  /** The list invariant: distinct ids and no blank text. */
  ghost predicate Valid(s: Session)
  {
    UniqueIds(s.todos) && NonBlankTexts(s.todos)
  }

  /** The state right after mounting, with the restored list. */
  function Start(todos: seq<Todo>): (s: Session)
    ensures s.todos == todos && s.draft == "" && !s.modalOpen && s.editing.None?
  {
    Session(todos, "", false, None)
  }

  /** The "+" button: clear the edit target and the draft, then open the dialog. */
  function OpenForCreate(s: Session): (r: Session)
    ensures r.todos == s.todos && r.modalOpen && r.draft == "" && r.editing.None?
  {
    s.(editing := None, draft := "", modalOpen := true)
  }

  /** `editTodo(t)`: remember `t`, seed the draft with its text, open the dialog. */
  function EditTodo(s: Session, t: Todo): (r: Session)
    ensures r.todos == s.todos && r.modalOpen && r.draft == t.text && r.editing == Some(t)
  {
    s.(editing := Some(t), draft := t.text, modalOpen := true)
  }

  /** A keystroke in the dialog's input replaces the draft and nothing else. */
  function SetDraft(s: Session, text: string): (r: Session)
    ensures r.todos == s.todos && r.modalOpen == s.modalOpen && r.editing == s.editing && r.draft == text
  {
    s.(draft := text)
  }

  /** The Cancel button only closes the dialog: the draft and the edit target stay. */
  function Cancel(s: Session): (r: Session)
    ensures r.todos == s.todos && !r.modalOpen && r.draft == s.draft && r.editing == s.editing
  {
    s.(modalOpen := false)
  }

  /**
   * `addTodo(text)`: append a pending entry unless `text` is blank; in every
   * case clear the draft and close the dialog. The edit target is not touched.
   */
  function AddTodo(s: Session, text: string, freshId: Id): (r: Session)
    ensures r.draft == "" && !r.modalOpen && r.editing == s.editing
    ensures IsBlank(text) ==> r.todos == s.todos
    ensures !IsBlank(text) ==> r.todos == s.todos + [Todo(freshId, text, false)]
  {
    s.(todos := Added(s.todos, freshId, text), draft := "", modalOpen := false)
  }

  /**
   * `updateTodo()`: with an edit target and a non-blank draft, give every
   * entry carrying the target's id the draft as text; in every case drop the
   * target, clear the draft and close the dialog.
   */
  function UpdateTodo(s: Session): (r: Session)
    ensures r.draft == "" && !r.modalOpen && r.editing.None?
    ensures s.editing.None? || IsBlank(s.draft) ==> r.todos == s.todos
    ensures s.editing.Some? && !IsBlank(s.draft) ==> r.todos == Renamed(s.todos, s.editing.value.id, s.draft)
  {
    var todos := if s.editing.Some? && Trim(s.draft) != "" then Renamed(s.todos, s.editing.value.id, s.draft) else s.todos;
    Session(todos, "", false, None)
  }

  /** `toggleTodo(id)` on the session: only the list changes. */
  function ToggleTodo(s: Session, id: Id): (r: Session)
    ensures r.draft == s.draft && r.modalOpen == s.modalOpen && r.editing == s.editing
    ensures |r.todos| == |s.todos|
    ensures forall i :: 0 <= i < |s.todos| ==>
      && r.todos[i].id == s.todos[i].id
      && r.todos[i].text == s.todos[i].text
      && (r.todos[i].completed <==> (s.todos[i].completed <==> s.todos[i].id != id))
    ensures r.todos == Toggled(s.todos, id)
  {
    s.(todos := Toggled(s.todos, id))
  }

  /** `deleteTodo(id)` on the session: only the list changes, and `id` is gone from it. */
  function DeleteTodo(s: Session, id: Id): (r: Session)
    ensures r.draft == s.draft && r.modalOpen == s.modalOpen && r.editing == s.editing
    ensures id !in Ids(r.todos)
    ensures forall t :: t in r.todos <==> t in s.todos && t.id != id
    ensures r.todos == Removed(s.todos, id)
  {
    s.(todos := Removed(s.todos, id))
  }

  /**
   * The Submit button: `updateTodo()` when an edit target is set, otherwise
   * `addTodo(draft)`. Either way the dialog closes with an empty draft and no
   * target, even when nothing was saved.
   */
  function Submit(s: Session, freshId: Id): (r: Session)
    ensures r.draft == "" && !r.modalOpen && r.editing.None?
    ensures s.editing.None? && IsBlank(s.draft) ==> r.todos == s.todos
    ensures s.editing.None? && !IsBlank(s.draft) ==> r.todos == s.todos + [Todo(freshId, s.draft, false)]
    ensures s.editing.Some? && (IsBlank(s.draft) || s.editing.value.id !in Ids(s.todos)) ==> r.todos == s.todos
    ensures s.editing.Some? && !IsBlank(s.draft) ==>
      && |r.todos| == |s.todos|
      && forall i :: 0 <= i < |s.todos| ==>
        && r.todos[i].id == s.todos[i].id
        && r.todos[i].completed == s.todos[i].completed
        && r.todos[i].text == (if s.todos[i].id == s.editing.value.id then s.draft else s.todos[i].text)
  {
    if s.editing.Some? then
      var id := s.editing.value.id;
      assert id !in Ids(s.todos) ==> Renamed(s.todos, id, s.draft) == s.todos by {
        if id !in Ids(s.todos) {
          RenamedUnknownId(s.todos, id, s.draft);
        }
      }
      UpdateTodo(s)
    else
      AddTodo(s, s.draft, freshId)
  }

  /** The stale draft and target a Cancel leaves behind are discarded by the next opening of the dialog. */
  lemma CancelForgottenOnReopen(s: Session, t: Todo)
    ensures OpenForCreate(Cancel(s)) == OpenForCreate(s)
    ensures EditTodo(Cancel(s), t) == EditTodo(s, t)
  {
  }

  /** Opening the editor on an entry and submitting its text unedited leaves the list as it was. */
  lemma EditUnchangedIsNoOp(s: Session, t: Todo, freshId: Id)
    requires UniqueIds(s.todos) && t in s.todos
    ensures Submit(EditTodo(s, t), freshId).todos == s.todos
  {
  }

  /** The dialog handlers never touch the list, so they keep the invariant. */
  lemma DialogKeepsValid(s: Session, t: Todo, text: string)
    requires Valid(s)
    ensures Valid(OpenForCreate(s)) && Valid(EditTodo(s, t)) && Valid(SetDraft(s, text)) && Valid(Cancel(s))
  {
  }

  /** `addTodo` keeps the invariant when handed an unused id. */
  lemma AddTodoKeepsValid(s: Session, text: string, freshId: Id)
    requires Valid(s) && freshId !in Ids(s.todos)
    ensures Valid(AddTodo(s, text, freshId))
  {
  }

  /** `updateTodo` keeps the invariant. */
  lemma UpdateTodoKeepsValid(s: Session)
    requires Valid(s)
    ensures Valid(UpdateTodo(s))
  {
  }

  /** Submitting keeps the invariant when handed an unused id. */
  lemma SubmitKeepsValid(s: Session, freshId: Id)
    requires Valid(s) && freshId !in Ids(s.todos)
    ensures Valid(Submit(s, freshId))
  {
  }

  /** Toggling and deleting keep the invariant. */
  lemma ToggleDeleteKeepValid(s: Session, id: Id)
    requires Valid(s)
    ensures Valid(ToggleTodo(s, id)) && Valid(DeleteTodo(s, id))
  {
    ToggledKeepsUniqueIds(s.todos, id);
    RemovedKeepsUniqueIds(s.todos, id);
    RemovedKeepsNonBlank(s.todos, id);
  }

  /** Creating: open, type "buy milk", submit, starting from an empty list. */
  lemma CreateScenario(freshId: Id)
    ensures Submit(SetDraft(OpenForCreate(Start([])), "buy milk"), freshId)
      == Session([Todo(freshId, "buy milk", false)], "", false, None)
  {
  }

  /** Submitting an empty draft adds nothing and still closes the dialog. */
  lemma BlankCreateScenario(s: Session, freshId: Id)
    ensures Submit(SetDraft(OpenForCreate(s), ""), freshId) == s.(draft := "", modalOpen := false, editing := None)
  {
  }

  /** Editing: the edited entry gets the new text and keeps its id, status and place. */
  lemma EditScenario(freshId: Id)
    ensures
      var t1 := Todo("1", "a", false);
      var t2 := Todo("2", "b", true);
      Submit(SetDraft(EditTodo(Start([t1, t2]), t1), "a2"), freshId)
        == Session([Todo("1", "a2", false), t2], "", false, None)
  {
  }
}
