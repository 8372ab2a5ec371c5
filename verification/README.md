# TodoApp task-list core in Dafny

This project models the state logic of the `App` component of a single-page
to-do list editor (`src/App.tsx`). The component holds an ordered list of
tasks (`Todo`: id, text, completed flag), a create/edit dialog (its input
text `newTodo`, `isModalOpen`, and `editingTodo`, the entry being edited),
a status filter with a search box, and a light/dark display mode mirrored to
the browser's `localStorage`.

Every event handler is modelled as a pure, total transition on immutable
values:

- `Strings` gives the JavaScript string primitives the handlers use:
  `trim()` over ECMAScript's WhiteSpace and LineTerminator code points
  (sections 12.2 and 12.3 of ECMA-262, 2023 edition), an ASCII `toLowerCase()`, and
  `includes()`.
- `Seqs` gives `Array.prototype.filter` and the order-preserving
  subsequence relation used to specify it.
- `Todos` holds the task type and the four list updates: append
  (`addTodo`), flip by id (`toggleTodo`), drop by id (`deleteTodo`) and
  rename by id (`updateTodo`), with the id-uniqueness and non-blank-text
  invariants they preserve.
- `View` is `filteredTodos`: status test and case-insensitive search.
- `Editor` is the session record `{todos, draft, modalOpen, editing}`
  (`draft` is `newTodo`, `editing` is `editingTodo`) and the handlers:
  open-for-create, `editTodo`, keystroke, Cancel, `addTodo`, `updateTodo`,
  Submit, toggle and delete.
- `Storage` is the key-value store with the "todos" and "theme" entries.

`crypto.randomUUID()` is a `freshId` parameter. The operations accept any
id; the invariant lemmas require it to be absent from the list, which is
what a random UUID provides.

Behaviour of the code worth noting:

- Accepted text is stored exactly as typed; only the blank test trims it
  (src/App.tsx:37-38, src/App.tsx:61-63).
- Cancel only closes the dialog; the draft and the edit target remain
  (src/App.tsx:194). `Editor.CancelForgottenOnReopen` shows the leftovers
  are harmless: both ways of reopening the dialog overwrite them.
- Restoring the list does not fall back to an empty list on corrupt data:
  `JSON.parse` throws (src/App.tsx:15). Only the absent/empty case yields
  the empty list.
- `Editor.SetDraft` is allowed in any state; the UI only uses it while the
  dialog is open, since the input is rendered only inside the dialog
  (src/App.tsx:178-191).

## Model

| member | source | states |
|---|---|---|
| `Strings.Trim` | src/App.tsx:37 | `trim()` yields the empty string exactly when the text is blank; otherwise it is the text minus blank margins, with non-white-space ends |
| `Strings.Lower` | src/App.tsx:77 | `toLowerCase()` keeps the length and lowers ASCII letters character by character |
| `Strings.ContainsIffOccurs` | src/App.tsx:77 | `includes` succeeds exactly when the query occurs at some index of the text (so the empty query always matches) |
| `Seqs.Filter` | src/App.tsx:51 | `filter` returns an order-preserving subsequence holding exactly the elements satisfying the predicate, each as often as in the input |
| `Todos.Added` | src/App.tsx:36-39 | a blank text leaves the list unchanged; otherwise exactly one pending entry with the fresh id and the untrimmed text is appended at the end and earlier entries are untouched |
| `Todos.Toggled` | src/App.tsx:44-48 | same length and order, every id and text kept, `completed` flipped exactly on entries with the given id |
| `Todos.ToggledUnknownId` | src/App.tsx:44-48 | toggling an id absent from the list leaves the list unchanged |
| `Todos.ToggledTwice` | src/App.tsx:44-48 | toggling the same id twice restores the original list |
| `Todos.Removed` | src/App.tsx:50-52 | deleting yields an order-preserving subsequence containing every entry with a different id, as often as it occurs, and none with the deleted id |
| `Todos.RemovedUnknownId` | src/App.tsx:50-52 | deleting an id absent from the list leaves the list unchanged |
| `Todos.Renamed` | src/App.tsx:62-64 | same length and order, every id and status kept, text replaced exactly on entries with the edited id |
| `Todos.RenamedUnknownId` | src/App.tsx:62-64 | updating an id no longer in the list leaves the list unchanged |
| `Todos.RenamedToSameText` | src/App.tsx:62-64 | with distinct ids, giving an entry the text it already has changes nothing |
| `Todos.AddedKeepsUniqueIds` | src/App.tsx:38 | appending with an unused id keeps ids pairwise distinct |
| `Todos.ToggledKeepsUniqueIds` | src/App.tsx:45-47 | toggling keeps ids pairwise distinct |
| `Todos.RenamedKeepsUniqueIds` | src/App.tsx:62-64 | renaming keeps ids pairwise distinct |
| `Todos.FilterKeepsUniqueIds` | src/App.tsx:51 | every filter of a list with distinct ids has distinct ids |
| `Todos.RemovedKeepsUniqueIds` | src/App.tsx:50-52 | deleting keeps ids pairwise distinct |
| `Todos.AddedKeepsNonBlank` | src/App.tsx:37-38 | a blank text is never stored by `addTodo` |
| `Todos.RenamedKeepsNonBlank` | src/App.tsx:61-64 | renaming to a non-blank text keeps every stored text non-blank |
| `Todos.RemovedKeepsNonBlank` | src/App.tsx:51 | deleting keeps every stored text non-blank |
| `View.Visible` | src/App.tsx:71-80 | the shown list is an order-preserving subsequence of the tasks holding every task that passes both the status and the search test, as often as it occurs, and nothing else |
| `View.SearchMatchesIffOccurs` | src/App.tsx:77 | a task matches the search exactly when the lowered query occurs in the lowered text |
| `View.VisibleAllEmptyIsIdentity` | src/App.tsx:71-80 | filter `all` with an empty query shows the whole list in order |
| `View.VisibleIgnoresQueryCase` | src/App.tsx:77 | lowering the query does not change what is shown |
| `View.StatusViewsPartition` | src/App.tsx:72-75 | for one query, the `completed` and `pending` views together hold exactly the entries of the `all` view |
| `Editor.Start` | src/App.tsx:13-19 | the component mounts with the restored list, an empty draft, the dialog closed and no edit target |
| `Editor.OpenForCreate` | src/App.tsx:166-170 | the "+" button opens the dialog in create mode with an empty draft, leaving the list alone |
| `Editor.EditTodo` | src/App.tsx:54-58 | editing an entry opens the dialog with that entry as target and its text as draft, leaving the list alone |
| `Editor.SetDraft` | src/App.tsx:187 | a keystroke changes the draft and nothing else |
| `Editor.Cancel` | src/App.tsx:194 | Cancel closes the dialog and changes neither the list, the draft nor the target |
| `Editor.AddTodo` | src/App.tsx:36-42 | the dialog always closes with an empty draft; a blank text adds nothing, any other text is appended as a new pending entry |
| `Editor.UpdateTodo` | src/App.tsx:60-69 | the dialog always closes with an empty draft and no target; the list is renamed only with a target and a non-blank draft |
| `Editor.ToggleTodo` | src/App.tsx:44-48 | toggling leaves the dialog state alone, keeps every id and text in place, and negates `completed` exactly on the entries with that id |
| `Editor.DeleteTodo` | src/App.tsx:50-52 | deleting leaves the dialog state alone and removes exactly the entries with that id, keeping the others in order and with their multiplicities |
| `Editor.Submit` | src/App.tsx:200 | Submit always closes the dialog with an empty draft and no target; it appends the draft in create mode, renames the target in edit mode, and changes nothing for a blank draft or a deleted target |
| `Editor.CancelForgottenOnReopen` | src/App.tsx:166-170 | the draft and target a Cancel leaves behind are overwritten by either way of reopening the dialog |
| `Editor.EditUnchangedIsNoOp` | src/App.tsx:54-69 | opening an entry for editing and submitting without typing leaves the list unchanged |
| `Editor.DialogKeepsValid` | src/App.tsx:166-194 | the dialog handlers keep ids distinct and texts non-blank |
| `Editor.AddTodoKeepsValid` | src/App.tsx:36-42 | `addTodo` with an unused id keeps ids distinct and texts non-blank |
| `Editor.UpdateTodoKeepsValid` | src/App.tsx:60-69 | `updateTodo` keeps ids distinct and texts non-blank |
| `Editor.SubmitKeepsValid` | src/App.tsx:200 | Submit with an unused id keeps ids distinct and texts non-blank |
| `Editor.ToggleDeleteKeepValid` | src/App.tsx:44-52 | toggling and deleting keep ids distinct and texts non-blank |
| `Editor.CreateScenario` | src/App.tsx:36-42 | from an empty list, creating "buy milk" yields one pending entry with that text and closes the dialog |
| `Editor.BlankCreateScenario` | src/App.tsx:200 | submitting an empty draft in create mode adds nothing and still closes the dialog |
| `Editor.EditScenario` | src/App.tsx:60-69 | editing the first of two entries to "a2" changes only its text, keeping its id, status and position |
| `Storage.LoadTodos` | src/App.tsx:13-16 | an absent or empty "todos" entry starts from the empty list; any other stored text is handed to the parser |
| `Storage.SaveTodos` | src/App.tsx:28 | saving the list writes the "todos" entry and nothing else |
| `Storage.TodosRoundTrip` | src/App.tsx:28 | a saved non-empty serialisation is exactly what the next start parses |
| `Storage.LoadTheme` | src/App.tsx:22-25 | the mode is dark exactly when the "theme" entry is the string "dark"; absent means light |
| `Storage.SaveTheme` | src/App.tsx:32 | saving writes "dark" for dark mode and "light" otherwise under "theme", and nothing else |
| `Storage.ToggleTheme` | src/App.tsx:89 | the button always changes the mode |
| `Storage.ThemeRoundTrip` | src/App.tsx:31-32 | saving a mode and loading it back yields that mode |
| `Storage.NoThemeIsLight` | src/App.tsx:22-25 | with no stored mode the app starts light |
| `Storage.ToggleThemeInvolution` | src/App.tsx:89 | toggling twice restores the mode; a saved toggle loads as the opposite mode |
| `Storage.EntriesIndependent` | src/App.tsx:27-32 | saving the list does not change the loaded mode, and saving the mode does not change how the list is restored |

## Left out

- JSON serialisation (src/App.tsx:15, src/App.tsx:28): `JSON.parse` and `JSON.stringify` are a foreign serialiser, so the stored list is an opaque string and parsing (which throws on corrupt text) is not modelled.
- `localStorage` and `document.documentElement.classList.toggle` (src/App.tsx:14, 23, 28, 32-33): browser I/O and a DOM side effect; the store is a `map<string, string>` value.
- `crypto.randomUUID()` (src/App.tsx:38): randomness; replaced by the `freshId` parameter.
- Strings.Lower: only ASCII letters are lowered; JavaScript's full Unicode case mapping (including length-changing mappings) is not modelled.
- React scheduling: `useState` updates are taken as one atomic transition per handler.
- Persistence effects (src/App.tsx:27-34) are modelled only as the `Storage.SaveTodos` and `Storage.SaveTheme` writes; they are not tied to the handlers, and no lemma links a handler's new list to the stored text, because the list is serialised by `JSON.stringify`, which is not modelled.
- UTF-16 strings: JavaScript strings are sequences of UTF-16 code units, while a Dafny `string` is a sequence of Unicode scalar values, so text holding a lone surrogate cannot be represented; on well-formed text `trim`, `includes` and the ASCII lowering give the same results.
- The filter drop-down and search box setters (src/App.tsx:102, 111): plain state assignments; their values are the `filter` and `query` parameters of `View.Visible`. The `as FilterType` cast admits only the three option values.
- Rendering (src/App.tsx:82-210): JSX, CSS classes, icons and the empty-state image are presentational.
