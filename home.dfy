/**
 * The `Home` component as an object: its five pieces of state are fields, and
 * each event handler is a method that updates them as the component's state
 * setters do. The list transformations and the projection are the pure
 * functions of TaskStore and TaskView.
 */
module HomePage {
  import opened Text
  import opened Lists
  import opened TaskStore
  import opened TaskView

  class Home {
    var tasks: seq<Task>
    var inputValue: string
    var editingId: Option<int>
    var activeTab: string
    var searchQuery: string

    /** The initial state: no tasks, empty fields, nothing in edit mode, the "todo" tab. */
    constructor ()
      ensures tasks == [] && inputValue == "" && editingId == None
      ensures activeTab == "todo" && searchQuery == ""
    {
      tasks := [];
      inputValue := "";
      editingId := None;
      activeTab := "todo";
      searchQuery := "";
    }

    /** The tasks listed under the tabs (`filteredTasks`). */
    function FilteredTasks(): (r: seq<Task>)
      reads this
      ensures IsSubseq(r, tasks)
      ensures forall i :: 0 <= i < |r| ==> MatchesTab(activeTab, r[i]) && MatchesSearch(searchQuery, r[i])
      ensures forall i :: 0 <= i < |tasks| && MatchesTab(activeTab, tasks[i]) && MatchesSearch(searchQuery, tasks[i]) ==> tasks[i] in r
      ensures |r| <= if activeTab == "todo" then TodoLabel() else CompletedLabel()
      ensures forall t: Task ::
        multiset(r)[t] == if MatchesTab(activeTab, t) && MatchesSearch(searchQuery, t) then multiset(tasks)[t] else 0
    {
      VisibleWithinTab(tasks, activeTab, searchQuery);
      Visible(tasks, activeTab, searchQuery)
    }

    /** The number on the "To Do" tab. */
    function TodoLabel(): (n: nat)
      reads this
      ensures n + CompletedCount(tasks) == |tasks|
    {
      CountsPartition(tasks);
      TodoCount(tasks)
    }

    /** The number on the "Completed" tab. */
    function CompletedLabel(): (n: nat)
      reads this
      ensures TodoCount(tasks) + n == |tasks|
    {
      CountsPartition(tasks);
      CompletedCount(tasks)
    }

    /** Typing in the new-task field. */
    method ChangeInput(text: string)
      modifies this
      ensures inputValue == text
      ensures tasks == old(tasks) && editingId == old(editingId)
      ensures activeTab == old(activeTab) && searchQuery == old(searchQuery)
    {
      inputValue := text;
    }

    /** Typing in the search field. */
    method ChangeSearch(text: string)
      modifies this
      ensures searchQuery == text
      ensures tasks == old(tasks) && inputValue == old(inputValue)
      ensures editingId == old(editingId) && activeTab == old(activeTab)
    {
      searchQuery := text;
    }

    /** Clicking a tab button. */
    method SelectTab(tab: string)
      modifies this
      ensures activeTab == tab
      ensures tasks == old(tasks) && inputValue == old(inputValue)
      ensures editingId == old(editingId) && searchQuery == old(searchQuery)
    {
      activeTab := tab;
    }

    /**
     * `addTask`, with `now` the clock reading. Blank input changes nothing.
     * Otherwise the untrimmed input becomes the title of a new incomplete task
     * appended after the old ones, and the field is cleared.
     */
    method AddTask(now: int)
      modifies this
      ensures tasks == Add(old(tasks), old(inputValue), now)
      ensures inputValue == if Accepts(old(inputValue)) then "" else old(inputValue)
      ensures editingId == old(editingId)
      ensures activeTab == old(activeTab) && searchQuery == old(searchQuery)
    {
      if Trim(inputValue) != "" {
        var task := Task(now, inputValue, false);
        tasks := tasks + [task];
        inputValue := "";
      }
    }

    /** `updateTask`: retitles every task with the id, and always leaves edit mode. */
    method UpdateTask(id: int, newTitle: string)
      modifies this
      ensures tasks == Rename(old(tasks), id, newTitle)
      ensures editingId == None
      ensures inputValue == old(inputValue)
      ensures activeTab == old(activeTab) && searchQuery == old(searchQuery)
    {
      tasks := Rename(tasks, id, newTitle);
      editingId := None;
    }

    /** `deleteTask`: drops every task with the id. */
    method DeleteTask(id: int)
      modifies this
      ensures tasks == Remove(old(tasks), id)
      ensures inputValue == old(inputValue) && editingId == old(editingId)
      ensures activeTab == old(activeTab) && searchQuery == old(searchQuery)
    {
      tasks := Remove(tasks, id);
    }

    /** `toggleComplete`: flips completion on every task with the id. */
    method ToggleComplete(id: int)
      modifies this
      ensures tasks == Toggle(old(tasks), id)
      ensures inputValue == old(inputValue) && editingId == old(editingId)
      ensures activeTab == old(activeTab) && searchQuery == old(searchQuery)
    {
      tasks := Toggle(tasks, id);
    }

    /** Clicking a row's Edit button: that row's id becomes the editing id. */
    method StartEdit(id: int)
      modifies this
      ensures editingId == Some(id)
      ensures tasks == old(tasks) && inputValue == old(inputValue)
      ensures activeTab == old(activeTab) && searchQuery == old(searchQuery)
    {
      editingId := Some(id);
    }

    /**
     * Blur of, or Enter in, the edit field: the field is rendered only for the
     * row whose id is the editing id, and both events call `updateTask` with
     * that id and the field's text.
     */
    method FinishEdit(text: string)
      requires editingId.Some?
      modifies this
      ensures tasks == Rename(old(tasks), old(editingId).value, text)
      ensures editingId == None
      ensures inputValue == old(inputValue)
      ensures activeTab == old(activeTab) && searchQuery == old(searchQuery)
    {
      UpdateTask(editingId.value, text);
    }
  }

  /** Opening the page and adding "Buy milk" then "Walk dog" with two clock readings. */
  method AddTwoTasks(t1: int, t2: int) returns (home: Home)
    ensures fresh(home)
    ensures home.tasks == [Task(t1, "Buy milk", false), Task(t2, "Walk dog", false)]
    ensures home.inputValue == "" && home.editingId == None
    ensures home.activeTab == "todo" && home.searchQuery == ""
  {
    home := new Home();
    var milk, dog := Task(t1, "Buy milk", false), Task(t2, "Walk dog", false);
    home.ChangeInput(milk.title);
    assert !IsWhitespace(milk.title[0]);
    AddCounts(home.tasks, home.inputValue, t1);
    home.AddTask(t1);
    home.ChangeInput(dog.title);
    assert !IsWhitespace(dog.title[0]);
    AddCounts(home.tasks, home.inputValue, t2);
    home.AddTask(t2);
    assert home.tasks == [milk, dog];
    assert home.TodoLabel() == 2 && home.CompletedLabel() == 0;
  }

  /** Completing the first of the two added tasks moves it from "To Do" to "Completed". */
  method CompleteFirst(home: Home, t1: int, t2: int)
    requires t1 != t2
    requires home.tasks == [Task(t1, "Buy milk", false), Task(t2, "Walk dog", false)]
    modifies home
    ensures home.tasks == [Task(t1, "Buy milk", true), Task(t2, "Walk dog", false)]
    ensures home.TodoLabel() == 1 && home.CompletedLabel() == 1
    ensures home.inputValue == old(home.inputValue) && home.editingId == old(home.editingId)
    ensures home.activeTab == old(home.activeTab) && home.searchQuery == old(home.searchQuery)
  {
    assert DistinctIds(home.tasks);
    ToggleMovesOne(home.tasks, 0);
    home.ToggleComplete(t1);
    assert home.tasks[0] == Task(t1, "Buy milk", true) && home.tasks[1] == Task(t2, "Walk dog", false);
  }

  /**
   * A session: after the two additions, complete the first task, look at the
   * "completed" tab and retitle the second. Only the handlers' contracts and
   * the lemmas are used to follow the state.
   */
  method Walkthrough(t1: int, t2: int)
    requires t1 != t2
  {
    var home := AddTwoTasks(t1, t2);
    CompleteFirst(home, t1, t2);
    var done, dog := Task(t1, "Buy milk", true), Task(t2, "Walk dog", false);

    home.SelectTab("completed");
    assert home.tasks == [done, dog];
    CompletedTabOfTwo(done, dog);
    assert home.FilteredTasks() == [done];

    home.StartEdit(t2);
    home.FinishEdit("Walk the dog");
    assert home.tasks[0] == done && home.tasks[1] == dog.(title := "Walk the dog");
    assert home.editingId == None;
  }

  /** Of a completed and an incomplete task, the "completed" tab with no query lists the first alone. */
  lemma CompletedTabOfTwo(done: Task, todo: Task)
    requires done.completed && !todo.completed
    ensures Visible([done, todo], "completed", "") == [done]
  {
    var ts := [done, todo];
    var shown := Visible(ts, "completed", "");
    assert MatchesSearch("", done);
    assert multiset(shown)[done] == 1;
    assert forall i :: 0 <= i < |shown| ==> shown[i] == done;
    assert |shown| == multiset(shown)[done] by {
      assert multiset(shown) == multiset(shown)[done := |shown|];
    }
  }
}
