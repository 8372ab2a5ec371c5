/**
 * The task list of the App component and the four list updates its handlers
 * perform: append (`addTodo`), flip one status (`toggleTodo`), drop one id
 * (`deleteTodo`) and replace one text (`updateTodo`).
 */
module Todos {
  import opened Strings
  import opened Seqs

  /** The opaque identifier `crypto.randomUUID()` hands out. */
  type Id = string

  datatype Todo = Todo(id: Id, text: string, completed: bool)

  ghost function Ids(todos: seq<Todo>): set<Id>
  {
    set t | t in todos :: t.id
  }

  /** No two entries of the list share an id. */
  ghost predicate UniqueIds(todos: seq<Todo>)
  {
    forall i, j :: 0 <= i < j < |todos| ==> todos[i].id != todos[j].id
  }

  /** Every entry has a text that `trim()` does not empty. */
  ghost predicate NonBlankTexts(todos: seq<Todo>)
  {
    forall i :: 0 <= i < |todos| ==> !IsBlank(todos[i].text)
  }

  /**
   * The list `addTodo(text)` stores: unchanged when `text.trim()` is empty,
   * otherwise one new pending entry with the fresh id and the text exactly as
   * typed (untrimmed) appended at the end.
   */
  function Added(todos: seq<Todo>, freshId: Id, text: string): (r: seq<Todo>)
    ensures IsBlank(text) ==> r == todos
    ensures !IsBlank(text) ==> |r| == |todos| + 1 && r[..|todos|] == todos
    ensures !IsBlank(text) ==> r[|todos|] == Todo(freshId, text, false)
  {
    if Trim(text) != "" then todos + [Todo(freshId, text, false)] else todos
  }

  function Flip(t: Todo, id: Id): Todo
  {
    if t.id == id then t.(completed := !t.completed) else t
  }

  /**
   * `todos.map(...)` of `toggleTodo(id)`: same length and order, every id and
   * text kept, and `completed` negated exactly on the entries with that id.
   */
  function Toggled(todos: seq<Todo>, id: Id): (r: seq<Todo>)
    ensures |r| == |todos|
    ensures forall i :: 0 <= i < |todos| ==>
      && r[i].id == todos[i].id
      && r[i].text == todos[i].text
      && (r[i].completed <==> (todos[i].completed <==> todos[i].id != id))
    decreases |todos|
  {
    if todos == [] then [] else [Flip(todos[0], id)] + Toggled(todos[1..], id)
  }

  /**
   * `todos.filter(...)` of `deleteTodo(id)`: an order-preserving subsequence
   * holding every entry whose id differs from `id` and none whose id equals it.
   */
  function Removed(todos: seq<Todo>, id: Id): (r: seq<Todo>)
    ensures IsSubseq(r, todos)
    ensures forall t :: t in r <==> t in todos && t.id != id
    ensures forall t :: multiset(r)[t] == if t.id != id then multiset(todos)[t] else 0
    ensures id !in Ids(r)
    ensures |r| <= |todos|
  {
    Filter(todos, (t: Todo) => t.id != id)
  }

  function Rename(t: Todo, id: Id, text: string): Todo
  {
    if t.id == id then t.(text := text) else t
  }

  /**
   * `todos.map(...)` of `updateTodo` for the edited id: same length and
   * order, every id and status kept, and the text replaced exactly on the
   * entries with that id.
   */
  function Renamed(todos: seq<Todo>, id: Id, text: string): (r: seq<Todo>)
    ensures |r| == |todos|
    ensures forall i :: 0 <= i < |todos| ==>
      && r[i].id == todos[i].id
      && r[i].completed == todos[i].completed
      && r[i].text == (if todos[i].id == id then text else todos[i].text)
    decreases |todos|
  {
    if todos == [] then [] else [Rename(todos[0], id, text)] + Renamed(todos[1..], id, text)
  }

  /** Toggling an id that is not in the list leaves the list unchanged. */
  lemma ToggledUnknownId(todos: seq<Todo>, id: Id)
    requires id !in Ids(todos)
    ensures Toggled(todos, id) == todos
  {
  }

  /** Toggling the same id twice restores the list. */
  lemma ToggledTwice(todos: seq<Todo>, id: Id)
    ensures Toggled(Toggled(todos, id), id) == todos
  {
  }

  /** Deleting an id that is not in the list leaves the list unchanged. */
  lemma RemovedUnknownId(todos: seq<Todo>, id: Id)
    requires id !in Ids(todos)
    ensures Removed(todos, id) == todos
  {
    forall i | 0 <= i < |todos| ensures todos[i].id != id {
      assert todos[i] in todos;
    }
    FilterAll(todos, (t: Todo) => t.id != id);
  }

  /** Renaming an id that is not in the list leaves the list unchanged. */
  lemma RenamedUnknownId(todos: seq<Todo>, id: Id, text: string)
    requires id !in Ids(todos)
    ensures Renamed(todos, id, text) == todos
  {
  }

  /** With distinct ids, giving an entry the text it already has changes nothing. */
  lemma RenamedToSameText(todos: seq<Todo>, k: int)
    requires UniqueIds(todos) && 0 <= k < |todos|
    ensures Renamed(todos, todos[k].id, todos[k].text) == todos
  {
  }

  /** Appending an entry whose id is fresh keeps the ids distinct. */
  lemma AddedKeepsUniqueIds(todos: seq<Todo>, freshId: Id, text: string)
    requires UniqueIds(todos) && freshId !in Ids(todos)
    ensures UniqueIds(Added(todos, freshId, text))
  {
  }

  /** Toggling keeps every id in place, hence keeps them distinct. */
  lemma ToggledKeepsUniqueIds(todos: seq<Todo>, id: Id)
    requires UniqueIds(todos)
    ensures UniqueIds(Toggled(todos, id))
  {
  }

  /** Renaming keeps every id in place, hence keeps them distinct. */
  lemma RenamedKeepsUniqueIds(todos: seq<Todo>, id: Id, text: string)
    requires UniqueIds(todos)
    ensures UniqueIds(Renamed(todos, id, text))
  {
  }

  /** Any filter of a list with distinct ids has distinct ids. */
  lemma {:induction false} FilterKeepsUniqueIds(todos: seq<Todo>, p: Todo -> bool)
    requires UniqueIds(todos)
    ensures UniqueIds(Filter(todos, p))
    decreases |todos|
  {
    if todos != [] {
      var rest := Filter(todos[1..], p);
      FilterKeepsUniqueIds(todos[1..], p);
      forall j | 0 <= j < |rest| ensures rest[j].id != todos[0].id {
        assert rest[j] in rest;
        var k :| 0 <= k < |todos[1..]| && todos[1..][k] == rest[j];
        assert todos[k + 1] == rest[j];
      }
    }
  }

  /** Deleting keeps the ids distinct. */
  lemma RemovedKeepsUniqueIds(todos: seq<Todo>, id: Id)
    requires UniqueIds(todos)
    ensures UniqueIds(Removed(todos, id))
  {
    FilterKeepsUniqueIds(todos, (t: Todo) => t.id != id);
  }

  /** Adding keeps every stored text non-blank: a blank text is never appended. */
  lemma AddedKeepsNonBlank(todos: seq<Todo>, freshId: Id, text: string)
    requires NonBlankTexts(todos)
    ensures NonBlankTexts(Added(todos, freshId, text))
  {
  }

  /** Renaming to a non-blank text keeps every stored text non-blank. */
  lemma RenamedKeepsNonBlank(todos: seq<Todo>, id: Id, text: string)
    requires NonBlankTexts(todos) && !IsBlank(text)
    ensures NonBlankTexts(Renamed(todos, id, text))
  {
  }

  /** Deleting keeps every stored text non-blank. */
  lemma RemovedKeepsNonBlank(todos: seq<Todo>, id: Id)
    requires NonBlankTexts(todos)
    ensures NonBlankTexts(Removed(todos, id))
  {
  }
}
