/**
 * What the `Home` component shows: the tasks of the active tab that match the
 * search query (`filteredTasks`), the two tab counters, and which rows are in
 * edit mode.
 */
module TaskView {
  import opened Text
  import opened Lists
  import opened TaskStore

  datatype Option<T> = None | Some(value: T)

  /** The tab test: `"todo"` shows incomplete tasks, any other tab completed ones. */
  predicate MatchesTab(tab: string, t: Task)
    ensures MatchesTab(tab, t) <==> t.completed == (tab != "todo")
  {
    if tab == "todo" then !t.completed else t.completed
  }

  /** The search test: the lower-cased title includes the lower-cased query. */
  predicate MatchesSearch(query: string, t: Task)
    ensures MatchesSearch(query, t) <==> exists k :: OccursAt(Lower(t.title), Lower(query), k)
    ensures query == [] ==> MatchesSearch(query, t)
  {
    assert query == [] ==> OccursAt(Lower(t.title), Lower(query), 0);
    var found := Includes(Lower(t.title), Lower(query));
    assert found <==> exists k :: OccursAt(Lower(t.title), Lower(query), k);
    found
  }

  function OnTab(tab: string): Task -> bool {
    (t: Task) => MatchesTab(tab, t)
  }

  function Shows(tab: string, query: string): Task -> bool {
    (t: Task) => MatchesTab(tab, t) && MatchesSearch(query, t)
  }

  /**
   * `filteredTasks`: in their original relative order, exactly the tasks whose
   * completion is `tab != "todo"` and whose lower-cased title contains the
   * lower-cased query, each as many times as it occurs in the list.
   */
  function Visible(ts: seq<Task>, tab: string, query: string): (r: seq<Task>)
    ensures IsSubseq(r, ts)
    ensures forall i :: 0 <= i < |r| ==>
      r[i] in ts && r[i].completed == (tab != "todo") && Includes(Lower(r[i].title), Lower(query))
    ensures forall i :: 0 <= i < |ts| ==>
      (ts[i].completed == (tab != "todo") && Includes(Lower(ts[i].title), Lower(query)) ==> ts[i] in r)
    ensures forall t: Task ::
      multiset(r)[t] == if t.completed == (tab != "todo") && MatchesSearch(query, t) then multiset(ts)[t] else 0
  {
    FilterIsSubseq(ts, Shows(tab, query));
    forall t: Task ensures multiset(Filter(ts, Shows(tab, query)))[t] ==
      if t.completed == (tab != "todo") && MatchesSearch(query, t) then multiset(ts)[t] else 0
    {
      FilterMultiplicity(ts, Shows(tab, query), t);
    }
    Filter(ts, Shows(tab, query))
  }

  /** The tasks of a tab, whatever the query. */
  function TabTasks(ts: seq<Task>, tab: string): seq<Task> {
    Filter(ts, OnTab(tab))
  }

  predicate IsTodo(t: Task) {
    !t.completed
  }

  predicate IsCompleted(t: Task) {
    t.completed
  }

  /** The "To Do" counter: incomplete tasks of the whole list. */
  function TodoCount(ts: seq<Task>): (n: nat)
    ensures n <= |ts|
    ensures n == 0 <==> forall i :: 0 <= i < |ts| ==> ts[i].completed
    ensures n == |ts| <==> forall i :: 0 <= i < |ts| ==> !ts[i].completed
  {
    FilterFullLength(ts, IsTodo);
    FilterEmpty(ts, IsTodo);
    |Filter(ts, IsTodo)|
  }

  /** The "Completed" counter: completed tasks of the whole list. */
  function CompletedCount(ts: seq<Task>): (n: nat)
    ensures n <= |ts|
    ensures n == 0 <==> forall i :: 0 <= i < |ts| ==> !ts[i].completed
    ensures n == |ts| <==> forall i :: 0 <= i < |ts| ==> ts[i].completed
  {
    FilterFullLength(ts, IsCompleted);
    FilterEmpty(ts, IsCompleted);
    |Filter(ts, IsCompleted)|
  }

  /** The two counters split the whole list. */
  lemma CountsPartition(ts: seq<Task>)
    ensures TodoCount(ts) + CompletedCount(ts) == |ts|
  {
    FilterPartition(ts, IsTodo, IsCompleted);
  }

  /** A tab holds as many tasks as its counter says ("todo" the first, any other the second). */
  lemma TabTasksCount(ts: seq<Task>, tab: string)
    ensures |TabTasks(ts, tab)| == if tab == "todo" then TodoCount(ts) else CompletedCount(ts)
  {
    if tab == "todo" {
      FilterExt(ts, OnTab(tab), IsTodo);
    } else {
      FilterExt(ts, OnTab(tab), IsCompleted);
    }
  }

  /** With an empty query the view is exactly the tab's tasks, in order. */
  lemma EmptyQueryShowsTab(ts: seq<Task>, tab: string)
    ensures Visible(ts, tab, "") == TabTasks(ts, tab)
  {
    forall t: Task ensures Includes(Lower(t.title), Lower("")) {
      assert OccursAt(Lower(t.title), [], 0);
    }
    FilterExt(ts, Shows(tab, ""), OnTab(tab));
  }

  /** The view is a subsequence of the tab's tasks, so never longer than the tab's counter. */
  lemma VisibleWithinTab(ts: seq<Task>, tab: string, query: string)
    ensures IsSubseq(Visible(ts, tab, query), TabTasks(ts, tab))
    ensures |Visible(ts, tab, query)| <= if tab == "todo" then TodoCount(ts) else CompletedCount(ts)
  {
    FilterMonotone(ts, OnTab(tab), Shows(tab, query));
    SubseqMembers(Visible(ts, tab, query), TabTasks(ts, tab));
    TabTasksCount(ts, tab);
  }

  /** Queries that lower-case alike show the same tasks. */
  lemma SameLowerSameView(ts: seq<Task>, tab: string, q1: string, q2: string)
    requires Lower(q1) == Lower(q2)
    ensures Visible(ts, tab, q1) == Visible(ts, tab, q2)
  {
    FilterExt(ts, Shows(tab, q1), Shows(tab, q2));
  }

  /** The search ignores the case of the query. */
  lemma SearchIgnoresQueryCase(ts: seq<Task>, tab: string, query: string)
    ensures Visible(ts, tab, Lower(query)) == Visible(ts, tab, query)
  {
    LowerIdempotent(query);
    SameLowerSameView(ts, tab, Lower(query), query);
  }

  /** Every tab value other than "todo" behaves as "completed". */
  lemma OtherTabsShowCompleted(ts: seq<Task>, tab: string, query: string)
    requires tab != "todo"
    ensures Visible(ts, tab, query) == Visible(ts, "completed", query)
  {
    FilterExt(ts, Shows(tab, query), Shows("completed", query));
  }

  /** Adding an accepted input raises the "To Do" counter by one and leaves "Completed" alone. */
  lemma AddCounts(ts: seq<Task>, input: string, now: int)
    requires Accepts(input)
    ensures TodoCount(Add(ts, input, now)) == TodoCount(ts) + 1
    ensures CompletedCount(Add(ts, input, now)) == CompletedCount(ts)
  {
    var added := Task(now, input, false);
    FilterAppend(ts, [added], IsTodo);
    FilterAppend(ts, [added], IsCompleted);
  }

  /** Updating a title moves no task between tabs. */
  lemma RenameKeepsCounts(ts: seq<Task>, id: int, newTitle: string)
    ensures TodoCount(Rename(ts, id, newTitle)) == TodoCount(ts)
    ensures CompletedCount(Rename(ts, id, newTitle)) == CompletedCount(ts)
  {
    var r := Rename(ts, id, newTitle);
    FilterLengthPointwise(r, IsTodo, ts, IsTodo);
    FilterLengthPointwise(r, IsCompleted, ts, IsCompleted);
  }

  /** Toggling an id carried by exactly one task moves that task to the other counter. */
  lemma ToggleMovesOne(ts: seq<Task>, k: nat)
    requires k < |ts| && DistinctIds(ts)
    ensures TodoCount(Toggle(ts, ts[k].id)) == if ts[k].completed then TodoCount(ts) + 1 else TodoCount(ts) - 1
    ensures CompletedCount(Toggle(ts, ts[k].id)) == if ts[k].completed then CompletedCount(ts) - 1 else CompletedCount(ts) + 1
  {
    var r := Toggle(ts, ts[k].id);
    assert forall i :: 0 <= i < |ts| && i != k ==> r[i] == ts[i];
    FilterAround(r, k, IsTodo);
    FilterAround(ts, k, IsTodo);
    FilterLengthPointwise(r[..k], IsTodo, ts[..k], IsTodo);
    FilterLengthPointwise(r[k + 1..], IsTodo, ts[k + 1..], IsTodo);
    CountsPartition(r);
    CountsPartition(ts);
  }

  /** A row is rendered as an edit field when its id is the editing id. */
  predicate IsEditingRow(editingId: Option<int>, t: Task) {
    editingId == Some(t.id)
  }

  /**
   * With distinct ids, at most one visible row is in edit mode, whatever the
   * editing id, tab and query.
   */
  lemma AtMostOneEditingRow(ts: seq<Task>, tab: string, query: string, editingId: Option<int>)
    requires DistinctIds(ts)
    ensures var rows := Visible(ts, tab, query);
      forall i, j :: 0 <= i < |rows| && 0 <= j < |rows| && IsEditingRow(editingId, rows[i]) && IsEditingRow(editingId, rows[j]) ==> i == j
  {
    SubseqDistinct(Visible(ts, tab, query), ts);
  }
}
