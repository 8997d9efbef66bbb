/** The task record and the list operations the store performs on the
    `tasks` array: the `filter` passes, the `find` by id, and the in-place
    flip of one task's completion flag. */
module Tasks {

  datatype Option<T> = None | Some(value: T)

  /** A task's due date as the overdue check sees it: the empty string
      (Unset), a string that parses to an instant (At, in milliseconds since
      the epoch), or a non-empty string that does not parse (Invalid; the
      JavaScript Date it gives is NaN and compares false with everything). */
  datatype Due = Unset | At(time: int) | Invalid

  /** One stored task. Priority and category stay strings: the form offers
      fixed choices, but an imported file may hold any value. */
  datatype Task = Task(
    id: int,
    text: string,
    completed: bool,
    priority: string,
    category: string,
    due: Due,
    createdAt: string)

  /** The predicates the source hands to `tasks.filter`. */
  datatype Criterion = Pending | Completed | HighPriority | IdIsNot(id: int)

  predicate Keeps(c: Criterion, t: Task) {
    match c
    case Pending => !t.completed
    case Completed => t.completed
    case HighPriority => t.priority == "high"
    case IdIsNot(id) => t.id != id
  }

  /** `r` is `s` with some elements left out, the rest in their order. */
  predicate IsSubsequence<T(==)>(r: seq<T>, s: seq<T>)
    decreases |s|
  {
    || r == []
    || (s != [] && ((r[0] == s[0] && IsSubsequence(r[1..], s[1..])) || IsSubsequence(r, s[1..])))
  }

  /** `tasks.filter(...)`: the tasks of `s` that `c` keeps, in their order,
      each as often as `s` holds it. */
  function Where(s: seq<Task>, c: Criterion): (r: seq<Task>)
    ensures |r| <= |s|
    ensures IsSubsequence(r, s)
    ensures forall t :: t in r <==> t in s && Keeps(c, t)
    ensures forall t :: multiset(r)[t] == if Keeps(c, t) then multiset(s)[t] else 0
  {
    if s == [] then []
    else
      assert s == [s[0]] + s[1..];
      if Keeps(c, s[0]) then [s[0]] + Where(s[1..], c)
      else Where(s[1..], c)
  }

  /** Filtering distributes over concatenation. With the one-element cases
      of the definition this pins the result down completely. */
  lemma {:induction false} WhereConcat(a: seq<Task>, b: seq<Task>, c: Criterion)
    ensures Where(a + b, c) == Where(a, c) + Where(b, c)
  {
    if a == [] {
      assert a + b == b;
    } else {
      assert (a + b)[0] == a[0];
      assert (a + b)[1..] == a[1..] + b;
      WhereConcat(a[1..], b, c);
    }
  }

  /** A filter that keeps every task returns the list itself. */
  lemma {:induction false} WhereKeepsAll(s: seq<Task>, c: Criterion)
    requires forall k :: 0 <= k < |s| ==> Keeps(c, s[k])
    ensures Where(s, c) == s
  {
    if s != [] {
      WhereKeepsAll(s[1..], c);
    }
  }

  /** Every task the filter returns is kept by it, so filtering twice is
      filtering once. */
  lemma WhereIdempotent(s: seq<Task>, c: Criterion)
    ensures Where(Where(s, c), c) == Where(s, c)
  {
    var r := Where(s, c);
    forall k | 0 <= k < |r| ensures Keeps(c, r[k]) {
      assert r[k] in r;
    }
    WhereKeepsAll(r, c);
  }

  /** The pending and the completed tasks together are all of them. */
  lemma {:induction false} WherePartition(s: seq<Task>)
    ensures |Where(s, Pending)| + |Where(s, Completed)| == |s|
  {
    if s != [] {
      WherePartition(s[1..]);
    }
  }

  /** How the size of a filter changes when one task is replaced. */
  lemma WhereUpdate(s: seq<Task>, i: nat, x: Task, c: Criterion)
    requires i < |s|
    ensures |Where(s[i := x], c)| ==
            |Where(s, c)| - (if Keeps(c, s[i]) then 1 else 0) + (if Keeps(c, x) then 1 else 0)
  {
    assert s == s[..i] + [s[i]] + s[i + 1..];
    assert s[i := x] == s[..i] + [x] + s[i + 1..];
    WhereConcat(s[..i] + [s[i]], s[i + 1..], c);
    WhereConcat(s[..i], [s[i]], c);
    WhereConcat(s[..i] + [x], s[i + 1..], c);
    WhereConcat(s[..i], [x], c);
  }

  /** Index `j` holds the first task of `s` with identifier `id`. */
  predicate IsFirstWith(s: seq<Task>, id: int, j: int) {
    0 <= j < |s| && s[j].id == id && forall k :: 0 <= k < j ==> s[k].id != id
  }

  /** `tasks.find(t => t.id === taskId)`, as an index. */
  function FindIndex(s: seq<Task>, id: int): (r: Option<nat>)
    ensures r.Some? ==> IsFirstWith(s, id, r.value)
    ensures r.None? <==> forall k :: 0 <= k < |s| ==> s[k].id != id
  {
    if s == [] then None
    else if s[0].id == id then Some(0)
    else match FindIndex(s[1..], id)
      case None => None
      case Some(k) => Some(k + 1)
  }

  /** `s` after `task.completed = !task.completed` on the task found by id:
      the first task with that identifier has its flag flipped, every other
      task and every other field stay as they were. */
  function Toggled(s: seq<Task>, id: int): (r: seq<Task>)
    ensures |r| == |s|
    ensures forall j :: 0 <= j < |s| ==> r[j] == s[j].(completed := r[j].completed)
    ensures forall j :: 0 <= j < |s| ==> (r[j].completed != s[j].completed <==> IsFirstWith(s, id, j))
  {
    match FindIndex(s, id)
    case None => s
    case Some(i) => s[i := s[i].(completed := !s[i].completed)]
  }

  /** Looking up an identifier that no task has leaves the list as it is. */
  lemma ToggleUnknownId(s: seq<Task>, id: int)
    requires forall k :: 0 <= k < |s| ==> s[k].id != id
    ensures Toggled(s, id) == s
  {
  }

  /** Toggling the same identifier twice restores the list. */
  lemma ToggleTwice(s: seq<Task>, id: int)
    ensures Toggled(Toggled(s, id), id) == s
  {
  }

  /** Toggling changes the completed count by one: up for a pending task,
      down for a completed one; an unknown identifier changes nothing. */
  lemma {:induction false} ToggleCompletedCount(s: seq<Task>, id: int)
    ensures FindIndex(s, id).None? ==> |Where(Toggled(s, id), Completed)| == |Where(s, Completed)|
    ensures FindIndex(s, id).Some? ==>
              |Where(Toggled(s, id), Completed)| ==
              |Where(s, Completed)| + (if s[FindIndex(s, id).value].completed then -1 else 1)
  {
    match FindIndex(s, id)
    case None =>
    case Some(i) =>
      var x := s[i].(completed := !s[i].completed);
      assert Toggled(s, id) == s[i := x];
      WhereUpdate(s, i, x, Completed);
  }

  /** `tasks.filter(t => t.id !== taskId)`: removes every task with the
      identifier and keeps every other one, each as often as the list holds
      it, in their order. */
  function RemoveId(s: seq<Task>, id: int): (r: seq<Task>)
    ensures |r| <= |s| && IsSubsequence(r, s)
    ensures forall k :: 0 <= k < |r| ==> r[k].id != id
    ensures forall t :: t in r <==> t in s && t.id != id
    ensures forall t :: multiset(r)[t] == if t.id != id then multiset(s)[t] else 0
  {
    var r := Where(s, IdIsNot(id));
    assert forall k :: 0 <= k < |r| ==> r[k] in r;
    r
  }

  /** Deleting an identifier no task has is a no-op; in particular deleting
      twice is deleting once. */
  lemma RemoveAbsentId(s: seq<Task>, id: int)
    requires forall k :: 0 <= k < |s| ==> s[k].id != id
    ensures RemoveId(s, id) == s
  {
    WhereKeepsAll(s, IdIsNot(id));
  }

  lemma RemoveIdIdempotent(s: seq<Task>, id: int)
    ensures RemoveId(RemoveId(s, id), id) == RemoveId(s, id)
  {
    RemoveAbsentId(RemoveId(s, id), id);
  }

  /** No two tasks share an identifier. */
  predicate UniqueIds(s: seq<Task>) {
    forall j, k :: 0 <= j < k < |s| ==> s[j].id != s[k].id
  }

  /** With unique identifiers, deleting one that is present removes exactly
      one task. */
  lemma {:induction false} RemoveUniqueId(s: seq<Task>, id: int)
    requires UniqueIds(s)
    requires exists k :: 0 <= k < |s| && s[k].id == id
    ensures |RemoveId(s, id)| == |s| - 1
  {
    if s[0].id == id {
      assert forall k :: 0 <= k < |s[1..]| ==> s[1..][k].id != id by {
        forall k | 0 <= k < |s[1..]| ensures s[1..][k].id != id {
          assert s[1..][k] == s[k + 1];
        }
      }
      RemoveAbsentId(s[1..], id);
    } else {
      var k :| 0 <= k < |s| && s[k].id == id;
      assert s[1..][k - 1].id == id;
      RemoveUniqueId(s[1..], id);
    }
  }
}
