/**
 * The two browser `localStorage` entries the App component uses: the
 * serialised task list under "todos" and the display mode under "theme".
 * The serialised list is kept as an opaque string.
 */
module Storage {
  import opened Wrappers

  /** A key-value store of strings. */
  type Store = map<string, string>

  const TodosKey: string := "todos"
  const ThemeKey: string := "theme"

  function Get(store: Store, key: string): Option<string>
  {
    if key in store then Some(store[key]) else None
  }

  /** Where the initial task list comes from. */
  datatype Restore = StartEmpty | ParseStored(json: string)

  /**
   * The initial-list rule: an absent or empty "todos" entry (a falsy value)
   * starts from the empty list, any other text is handed to the parser.
   */
  function LoadTodos(store: Store): (r: Restore)
    ensures r == StartEmpty <==> TodosKey !in store || store[TodosKey] == ""
    ensures r.ParseStored? ==> TodosKey in store && r.json == store[TodosKey]
  {
    match Get(store, TodosKey)
    case Some(saved) => if saved != "" then ParseStored(saved) else StartEmpty
    case None => StartEmpty
  }

  /** Writing the serialised list: only the "todos" entry changes. */
  function SaveTodos(store: Store, json: string): (r: Store)
    ensures r.Keys == store.Keys + {TodosKey} && r[TodosKey] == json
    ensures forall k :: k in store && k != TodosKey ==> r[k] == store[k]
  {
    store[TodosKey := json]
  }

  /** Dark mode exactly when the "theme" entry is the string "dark"; an absent entry means light. */
  function LoadTheme(store: Store): (isDark: bool)
    ensures isDark ==> ThemeKey in store
    ensures ThemeKey in store ==> (isDark <==> store[ThemeKey] == "dark")
  {
    Get(store, ThemeKey) == Some("dark")
  }

  /** Writing the display mode: "dark" or "light" under "theme", nothing else changes. */
  function SaveTheme(store: Store, isDark: bool): (r: Store)
    ensures r.Keys == store.Keys + {ThemeKey}
    ensures r[ThemeKey] == "dark" || r[ThemeKey] == "light"
    ensures r[ThemeKey] == "dark" <==> isDark
    ensures forall k :: k in store && k != ThemeKey ==> r[k] == store[k]
  {
    store[ThemeKey := if isDark then "dark" else "light"]
  }

  /** The theme button. */
  function ToggleTheme(isDark: bool): (r: bool)
    ensures r != isDark
  {
    !isDark
  }

  /** Saving a mode and loading it back yields that mode. */
  lemma ThemeRoundTrip(store: Store, isDark: bool)
    ensures LoadTheme(SaveTheme(store, isDark)) == isDark
  {
  }

  /** A first start, with no stored mode, is light. */
  lemma NoThemeIsLight(store: Store)
    requires ThemeKey !in store
    ensures !LoadTheme(store)
  {
  }

  /** Toggling twice restores the mode, and a saved toggle loads as the opposite mode. */
  lemma ToggleThemeInvolution(store: Store)
    ensures ToggleTheme(ToggleTheme(LoadTheme(store))) == LoadTheme(store)
    ensures LoadTheme(SaveTheme(store, ToggleTheme(LoadTheme(store)))) != LoadTheme(store)
  {
  }

  /** The two entries are independent: saving either one leaves what the other loads unchanged. */
  lemma EntriesIndependent(store: Store, json: string, isDark: bool)
    ensures LoadTheme(SaveTodos(store, json)) == LoadTheme(store)
    ensures LoadTodos(SaveTheme(store, isDark)) == LoadTodos(store)
  {
  }

  /** A saved non-empty serialisation is what the next start hands to the parser. */
  lemma TodosRoundTrip(store: Store, json: string)
    requires json != ""
    ensures LoadTodos(SaveTodos(store, json)) == ParseStored(json)
  {
  }
}
