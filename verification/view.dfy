/**
 * `filteredTodos`: the entries shown under the status filter and the search
 * box, in list order.
 */
module View {
  import opened Strings
  import opened Seqs
  import opened Todos

  /** The status filter of the drop-down. */
  datatype FilterType = All | Pending | Completed

  /** The status test: `all` keeps everything, `completed` the done entries, `pending` the rest. */
  predicate StatusMatches(filter: FilterType, completed: bool)
  {
    match filter
    case All => true
    case Completed => completed
    case Pending => !completed
  }

  /** The search test: `text.toLowerCase().includes(query.toLowerCase())`. */
  predicate SearchMatches(text: string, query: string)
  {
    Contains(Lower(text), Lower(query))
  }

  predicate Shown(t: Todo, filter: FilterType, query: string)
  {
    StatusMatches(filter, t.completed) && SearchMatches(t.text, query)
  }

  /**
   * The displayed list: an order-preserving subsequence of `todos` holding
   * each entry that passes both tests, as often as it occurs in `todos`, and
   * nothing else.
   */
  function Visible(todos: seq<Todo>, filter: FilterType, query: string): (r: seq<Todo>)
    ensures IsSubseq(r, todos)
    ensures forall t :: t in r <==> t in todos && StatusMatches(filter, t.completed) && SearchMatches(t.text, query)
    ensures forall t :: multiset(r)[t] == if Shown(t, filter, query) then multiset(todos)[t] else 0
  {
    Filter(todos, (t: Todo) => Shown(t, filter, query))
  }

  /** The search test, stated as an occurrence of the lowered query at some index of the lowered text. */
  lemma SearchMatchesIffOccurs(text: string, query: string)
    ensures SearchMatches(text, query) <==> exists k :: OccursAt(Lower(text), Lower(query), k)
  {
    ContainsIffOccurs(Lower(text), Lower(query));
  }

  /** With filter `all` and an empty query every entry is shown, in order. */
  lemma VisibleAllEmptyIsIdentity(todos: seq<Todo>)
    ensures Visible(todos, All, "") == todos
  {
    forall i | 0 <= i < |todos| ensures Shown(todos[i], All, "") {
      assert StartsWith(Lower(todos[i].text), Lower(""));
    }
    FilterAll(todos, (t: Todo) => Shown(t, All, ""));
  }

  /** The search is case-insensitive: lowering the query does not change the displayed list. */
  lemma VisibleIgnoresQueryCase(todos: seq<Todo>, filter: FilterType, query: string)
    ensures Visible(todos, filter, Lower(query)) == Visible(todos, filter, query)
  {
    LowerIdempotent(query);
    FilterCongruent(todos, (t: Todo) => Shown(t, filter, Lower(query)), (t: Todo) => Shown(t, filter, query));
  }

  /**
   * For one query, the `completed` view and the `pending` view split the
   * `all` view: together they hold each of its entries exactly as often.
   */
  lemma StatusViewsPartition(todos: seq<Todo>, query: string)
    ensures multiset(Visible(todos, Completed, query)) + multiset(Visible(todos, Pending, query))
      == multiset(Visible(todos, All, query))
  {
  }
}
