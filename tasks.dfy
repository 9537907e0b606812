/**
 * The task list and the four list transformations of the `Home` component:
 * `addTask` (spread append), `updateTask` and `toggleComplete` (`tasks.map`
 * rewriting every task with the given id) and `deleteTask` (`tasks.filter`
 * dropping every task with the given id). Ids come from the wall clock and are
 * not assumed unique: every task carrying the id is affected.
 */
module TaskStore {
  import opened Text
  import opened Lists

  datatype Task = Task(id: int, title: string, completed: bool)

  /**
   * No id occurs twice in the list. The component's row keys and its edit-field
   * test (`editingId === task.id`) rely on it; nothing enforces it.
   */
  predicate DistinctIds(ts: seq<Task>) {
    forall i, j :: 0 <= i < j < |ts| ==> ts[i].id != ts[j].id
  }

  /** Some task in the list carries `id`. */
  predicate HasId(ts: seq<Task>, id: int) {
    exists i :: 0 <= i < |ts| && ts[i].id == id
  }

  /** The input field is accepted when its trimmed text is non-empty (truthy). */
  predicate Accepts(input: string)
    ensures Accepts(input) <==> exists i :: 0 <= i < |input| && !IsWhitespace(input[i])
  {
    Trim(input) != []
  }

  /**
   * The list after `addTask` with `input` in the field and `now` read from the
   * clock: blank input changes nothing; otherwise one new incomplete task,
   * titled with the untrimmed input, is appended after the unchanged old list.
   */
  function Add(ts: seq<Task>, input: string, now: int): (r: seq<Task>)
    ensures !Accepts(input) ==> r == ts
    ensures Accepts(input) ==> |r| == |ts| + 1 && r[..|ts|] == ts
    ensures Accepts(input) ==> r[|ts|].id == now && r[|ts|].title == input && !r[|ts|].completed
  {
    if Accepts(input) then ts + [Task(now, input, false)] else ts
  }

  /** `task.id === id ? { ...task, title: newTitle } : task` */
  function RenameIfId(id: int, newTitle: string): Task -> Task {
    (t: Task) => if t.id == id then t.(title := newTitle) else t
  }

  /**
   * The list after `updateTask(id, newTitle)`: same length and order; every task
   * with the id gets exactly `newTitle` (no trim, no emptiness check) and keeps
   * its id and completion; every other task is untouched.
   */
  function Rename(ts: seq<Task>, id: int, newTitle: string): (r: seq<Task>)
    ensures |r| == |ts|
    ensures forall i :: 0 <= i < |ts| ==>
      r[i].id == ts[i].id && r[i].completed == ts[i].completed
      && r[i].title == (if ts[i].id == id then newTitle else ts[i].title)
  {
    Map(ts, RenameIfId(id, newTitle))
  }

  /** `task.id === id ? { ...task, completed: !task.completed } : task` */
  function FlipIfId(id: int): Task -> Task {
    (t: Task) => if t.id == id then t.(completed := !t.completed) else t
  }

  /**
   * The list after `toggleComplete(id)`: same length, order, ids and titles;
   * completion is negated on exactly the tasks with the id.
   */
  function Toggle(ts: seq<Task>, id: int): (r: seq<Task>)
    ensures |r| == |ts|
    ensures forall i :: 0 <= i < |ts| ==>
      r[i].id == ts[i].id && r[i].title == ts[i].title
      && r[i].completed == (if ts[i].id == id then !ts[i].completed else ts[i].completed)
  {
    Map(ts, FlipIfId(id))
  }

  /** `task.id !== id` */
  function IdIsNot(id: int): Task -> bool {
    (t: Task) => t.id != id
  }

  /**
   * The list after `deleteTask(id)`: the tasks whose id differs, each as often
   * as before, in their original relative order; no task with the id remains.
   */
  function Remove(ts: seq<Task>, id: int): (r: seq<Task>)
    ensures IsSubseq(r, ts)
    ensures forall i :: 0 <= i < |r| ==> r[i].id != id
    ensures forall t: Task :: t.id != id ==> multiset(r)[t] == multiset(ts)[t]
    ensures |r| <= |ts|
  {
    FilterIsSubseq(ts, IdIsNot(id));
    forall t: Task | t.id != id ensures multiset(Filter(ts, IdIsNot(id)))[t] == multiset(ts)[t] {
      FilterMultiplicity(ts, IdIsNot(id), t);
    }
    Filter(ts, IdIsNot(id))
  }

  /** Renaming twice to the same title is renaming once. */
  lemma RenameIdempotent(ts: seq<Task>, id: int, newTitle: string)
    ensures Rename(Rename(ts, id, newTitle), id, newTitle) == Rename(ts, id, newTitle)
  {
    var once := Rename(ts, id, newTitle);
    var twice := Rename(once, id, newTitle);
    assert forall i :: 0 <= i < |ts| ==> twice[i] == once[i];
  }

  /** Renaming an id that no task carries changes nothing. */
  lemma RenameAbsent(ts: seq<Task>, id: int, newTitle: string)
    requires !HasId(ts, id)
    ensures Rename(ts, id, newTitle) == ts
  {
    var r := Rename(ts, id, newTitle);
    assert forall i :: 0 <= i < |ts| ==> r[i] == ts[i];
  }

  /** Toggling the same id twice restores the list. */
  lemma ToggleInvolutive(ts: seq<Task>, id: int)
    ensures Toggle(Toggle(ts, id), id) == ts
  {
    var twice := Toggle(Toggle(ts, id), id);
    assert forall i :: 0 <= i < |ts| ==> twice[i] == ts[i];
  }

  /** Toggling an id that no task carries changes nothing. */
  lemma ToggleAbsent(ts: seq<Task>, id: int)
    requires !HasId(ts, id)
    ensures Toggle(ts, id) == ts
  {
    var r := Toggle(ts, id);
    assert forall i :: 0 <= i < |ts| ==> r[i] == ts[i];
  }

  /** Toggles of two ids commute. */
  lemma ToggleCommutes(ts: seq<Task>, a: int, b: int)
    ensures Toggle(Toggle(ts, a), b) == Toggle(Toggle(ts, b), a)
  {
    var ab, ba := Toggle(Toggle(ts, a), b), Toggle(Toggle(ts, b), a);
    assert forall i :: 0 <= i < |ts| ==> ab[i] == ba[i];
  }

  /** Deleting an id that no task carries changes nothing. */
  lemma RemoveAbsent(ts: seq<Task>, id: int)
    requires !HasId(ts, id)
    ensures Remove(ts, id) == ts
  {
    FilterKeepsAll(ts, IdIsNot(id));
  }

  /** Deleting twice is deleting once. */
  lemma RemoveIdempotent(ts: seq<Task>, id: int)
    ensures Remove(Remove(ts, id), id) == Remove(ts, id)
  {
    RemoveAbsent(Remove(ts, id), id);
  }

  /**
   * Once an id is deleted, updating, toggling or deleting it again is a
   * no-op: nothing is resurrected and nothing else moves.
   */
  lemma OpsAfterRemove(ts: seq<Task>, id: int, newTitle: string)
    ensures Rename(Remove(ts, id), id, newTitle) == Remove(ts, id)
    ensures Toggle(Remove(ts, id), id) == Remove(ts, id)
    ensures Remove(Remove(ts, id), id) == Remove(ts, id)
  {
    var gone := Remove(ts, id);
    assert !HasId(gone, id);
    RenameAbsent(gone, id, newTitle);
    ToggleAbsent(gone, id);
    RemoveAbsent(gone, id);
  }

  /** A fresh clock reading keeps the ids distinct; a repeated one does not. */
  lemma AddDistinct(ts: seq<Task>, input: string, now: int)
    requires DistinctIds(ts) && Accepts(input)
    ensures DistinctIds(Add(ts, input, now)) <==> !HasId(ts, now)
  {
    var r := Add(ts, input, now);
    if HasId(ts, now) {
      var i :| 0 <= i < |ts| && ts[i].id == now;
      assert r[i].id == r[|ts|].id;
    }
  }

  /** Update, toggle and delete keep the ids distinct. */
  lemma OpsKeepDistinct(ts: seq<Task>, id: int, newTitle: string)
    requires DistinctIds(ts)
    ensures DistinctIds(Rename(ts, id, newTitle))
    ensures DistinctIds(Toggle(ts, id))
    ensures DistinctIds(Remove(ts, id))
  {
    SubseqDistinct(Remove(ts, id), ts);
  }

  /** A subsequence of a list with distinct ids has distinct ids. */
  lemma {:induction false} SubseqDistinct(r: seq<Task>, s: seq<Task>)
    requires IsSubseq(r, s) && DistinctIds(s)
    ensures DistinctIds(r)
  {
    if r != [] {
      if r[0] == s[0] && IsSubseq(r[1..], s[1..]) {
        SubseqDistinct(r[1..], s[1..]);
        SubseqMembers(r[1..], s[1..]);
        forall j | 0 < j < |r| ensures r[0].id != r[j].id {
          assert r[j] == r[1..][j - 1] && r[j] in r[1..];
          assert r[j] in s[1..];
          var k :| 0 <= k < |s[1..]| && s[1..][k] == r[j];
          assert s[k + 1] == r[j];
        }
      } else {
        SubseqDistinct(r, s[1..]);
      }
    }
  }
}
