/**
 * The home screen: it owns the ordered list of tasks and the three handlers
 * that replace it (add, toggle done, remove), and shows the number of tasks
 * in its header.
 *
 * `Added`, `Toggled` and `Removed` are the new list each handler produces,
 * as functions of the old list; the class `Home` holds the list and its
 * methods replace it.  Ids are whatever the caller supplies: nothing here
 * assumes they are unique unless a lemma says so.
 */
module Home {
  import opened TaskItem

  datatype Option<T> = None | Some(value: T)

  /** The task with its completion flag flipped. */
  function Flipped(t: Task): Task {
    t.(done := !t.done)
  }

  predicate HasId(tasks: seq<Task>, id: int) {
    exists i :: 0 <= i < |tasks| && tasks[i].id == id
  }

  /** `i` is the position of the first task with this id. */
  predicate IsFirstMatch(tasks: seq<Task>, id: int, i: int) {
    0 <= i < |tasks| && tasks[i].id == id && forall j :: 0 <= j < i ==> tasks[j].id != id
  }

  predicate UniqueIds(tasks: seq<Task>) {
    forall i, j :: 0 <= i < j < |tasks| ==> tasks[i].id != tasks[j].id
  }

  /** Number of tasks carrying this id. */
  function CountId(tasks: seq<Task>, id: int): nat {
    if tasks == [] then 0 else (if tasks[0].id == id then 1 else 0) + CountId(tasks[1..], id)
  }

  /** Number of tasks carrying this title. */
  function CountTitle(tasks: seq<Task>, title: string): nat {
    if tasks == [] then 0 else (if tasks[0].title == title then 1 else 0) + CountTitle(tasks[1..], title)
  }

  /** `r` is `s` with some elements deleted, the rest in their order. */
  predicate IsSubsequence(r: seq<Task>, s: seq<Task>)
    decreases |s|
  {
    r == [] ||
    (s != [] && ((r[0] == s[0] && IsSubsequence(r[1..], s[1..])) || IsSubsequence(r, s[1..])))
  }

  /** The list after adding a task: a new, not-done task at the end. */
  function Added(tasks: seq<Task>, id: int, title: string): (r: seq<Task>)
    ensures |r| == |tasks| + 1
    ensures r[..|tasks|] == tasks
    ensures r[|tasks|].id == id && r[|tasks|].title == title && !r[|tasks|].done
  {
    tasks + [Task(id, title, false)]
  }

  /** The list after toggling: the first task with the id has its flag flipped. */
  function Toggled(tasks: seq<Task>, id: int): (r: seq<Task>)
    ensures |r| == |tasks|
    ensures forall i :: 0 <= i < |tasks| ==> r[i].id == tasks[i].id && r[i].title == tasks[i].title
  {
    if tasks == [] then []
    else if tasks[0].id == id then [Flipped(tasks[0])] + tasks[1..]
    else [tasks[0]] + Toggled(tasks[1..], id)
  }

  /** The list after removing: every task with the id is gone. */
  function Removed(tasks: seq<Task>, id: int): (r: seq<Task>)
    ensures |r| <= |tasks|
    ensures forall t :: t in r <==> t in tasks && t.id != id
  {
    if tasks == [] then []
    else if tasks[0].id == id then Removed(tasks[1..], id)
    else [tasks[0]] + Removed(tasks[1..], id)
  }

  /** Several adds in a row, one per (id, title) pair. */
  function AddAll(tasks: seq<Task>, items: seq<(int, string)>): seq<Task>
    decreases |items|
  {
    if items == [] then tasks else AddAll(Added(tasks, items[0].0, items[0].1), items[1..])
  }

  /**
   * The first index whose task has the id, as `Array.prototype.find` scans
   * for it, or None.
   */
  method FindTask(a: array<Task>, id: int) returns (r: Option<nat>)
    ensures r.Some? ==> IsFirstMatch(a[..], id, r.value)
    ensures r.None? ==> !HasId(a[..], id)
  {
    var i := 0;
    while i < a.Length
      invariant 0 <= i <= a.Length
      invariant forall j :: 0 <= j < i ==> a[j].id != id
    {
      if a[i].id == id {
        return Some(i);
      }
      i := i + 1;
    }
    return None;
  }

  /** The screen: its list of tasks and the handlers it passes down. */
  class Home {
    var tasks: seq<Task>

    constructor ()
      ensures tasks == []
    {
      tasks := [];
    }

    /** The number shown in the header. */
    function TasksCounter(): (n: nat)
      reads this
      ensures n == |tasks|
      ensures n == 0 <==> tasks == []
    {
      |tasks|
    }

    method HandleAddTask(id: int, newTaskTitle: string)
      modifies this
      ensures tasks == Added(old(tasks), id, newTaskTitle)
      ensures TasksCounter() == old(TasksCounter()) + 1
    {
      var newTask := Task(id, newTaskTitle, false);
      tasks := tasks + [newTask];
    }

    /** Copies the list, flips the first match in the copy, and installs the copy. */
    method HandleToggleTaskDone(id: int)
      modifies this
      ensures tasks == Toggled(old(tasks), id)
      ensures TasksCounter() == old(TasksCounter())
    {
      var current := tasks;
      var updated := new Task[|current|](i requires 0 <= i < |current| => current[i]);
      assert updated[..] == current;
      var found := FindTask(updated, id);
      if found.None? {
        ToggledAbsent(current, id);
        return;
      }
      var k := found.value;
      updated[k] := Flipped(updated[k]);
      ToggledFirst(current, id, k);
      tasks := updated[..];
    }

    method HandleRemoveTask(id: int)
      modifies this
      ensures tasks == Removed(old(tasks), id)
      ensures TasksCounter() == old(TasksCounter()) - CountId(old(tasks), id)
    {
      RemovedLength(tasks, id);
      tasks := Removed(tasks, id);
    }
  }

  // ---------------------------------------------------------------- add

  /** Adding does not look at titles: an existing title is added once more. */
  lemma {:induction false} AddIgnoresTitles(tasks: seq<Task>, id: int, title: string)
    ensures CountTitle(Added(tasks, id, title), title) == CountTitle(tasks, title) + 1
    decreases |tasks|
  {
    if tasks != [] {
      assert Added(tasks, id, title)[1..] == Added(tasks[1..], id, title);
      AddIgnoresTitles(tasks[1..], id, title);
    }
  }

  /** A run of adds appends one not-done task per call, in call order. */
  lemma {:induction false} AddAllAppends(tasks: seq<Task>, items: seq<(int, string)>)
    ensures var r := AddAll(tasks, items);
            |r| == |tasks| + |items| && r[..|tasks|] == tasks &&
            forall k :: 0 <= k < |items| ==> r[|tasks| + k] == Task(items[k].0, items[k].1, false)
    decreases |items|
  {
    if items != [] {
      var next := Added(tasks, items[0].0, items[0].1);
      AddAllAppends(next, items[1..]);
      var r := AddAll(tasks, items);
      assert r == AddAll(next, items[1..]);
      assert r[..|tasks|] == next[..|next|][..|tasks|];
      forall k | 0 <= k < |items|
        ensures r[|tasks| + k] == Task(items[k].0, items[k].1, false)
      {
        if k > 0 {
          assert r[|next| + (k - 1)] == Task(items[1..][k - 1].0, items[1..][k - 1].1, false);
        } else {
          assert r[|tasks|] == r[..|next|][|tasks|];
        }
      }
    }
  }

  /** A fresh id keeps the ids unique. */
  lemma AddFreshKeepsUnique(tasks: seq<Task>, id: int, title: string)
    requires UniqueIds(tasks) && !HasId(tasks, id)
    ensures UniqueIds(Added(tasks, id, title))
  {
  }

  // ---------------------------------------------------------------- toggle

  /** Toggling an id that no task has leaves the list unchanged. */
  lemma {:induction false} ToggledAbsent(tasks: seq<Task>, id: int)
    requires !HasId(tasks, id)
    ensures Toggled(tasks, id) == tasks
    decreases |tasks|
  {
    if tasks != [] {
      assert tasks[0].id != id;
      assert !HasId(tasks[1..], id) by {
        forall i | 0 <= i < |tasks[1..]| ensures tasks[1..][i].id != id {
          assert tasks[1..][i] == tasks[i + 1];
        }
      }
      ToggledAbsent(tasks[1..], id);
    }
  }

  /** Toggling flips the first task with the id and leaves every other task as it was. */
  lemma {:induction false} ToggledFirst(tasks: seq<Task>, id: int, k: int)
    requires IsFirstMatch(tasks, id, k)
    ensures Toggled(tasks, id) == tasks[k := Flipped(tasks[k])]
    decreases |tasks|
  {
    if k > 0 {
      assert tasks[0].id != id;
      assert IsFirstMatch(tasks[1..], id, k - 1) by {
        forall j | 0 <= j < k - 1 ensures tasks[1..][j].id != id {
          assert tasks[1..][j] == tasks[j + 1];
        }
      }
      ToggledFirst(tasks[1..], id, k - 1);
      assert [tasks[0]] + tasks[1..][k - 1 := Flipped(tasks[k])] == tasks[k := Flipped(tasks[k])];
    } else {
      assert [Flipped(tasks[0])] + tasks[1..] == tasks[0 := Flipped(tasks[0])];
    }
  }

  /** A task changes under toggling exactly when it is the first with the id. */
  lemma {:induction false} ToggleChangesOnlyFirstMatch(tasks: seq<Task>, id: int, i: int)
    requires 0 <= i < |tasks|
    ensures Toggled(tasks, id)[i] != tasks[i] <==> IsFirstMatch(tasks, id, i)
    ensures IsFirstMatch(tasks, id, i) ==> Toggled(tasks, id)[i].done == !tasks[i].done
    decreases |tasks|
  {
    if tasks[0].id != id && i > 0 {
      ToggleChangesOnlyFirstMatch(tasks[1..], id, i - 1);
      assert tasks[1..][i - 1] == tasks[i];
      assert IsFirstMatch(tasks[1..], id, i - 1) <==> IsFirstMatch(tasks, id, i) by {
        if IsFirstMatch(tasks[1..], id, i - 1) {
          forall j | 0 <= j < i ensures tasks[j].id != id {
            if j > 0 { assert tasks[j] == tasks[1..][j - 1]; }
          }
        }
        if IsFirstMatch(tasks, id, i) {
          forall j | 0 <= j < i - 1 ensures tasks[1..][j].id != id {
            assert tasks[1..][j] == tasks[j + 1];
          }
        }
      }
    }
  }

  /** Toggling the same id twice gives back the original list, whether or not ids are unique. */
  lemma {:induction false} ToggleTwice(tasks: seq<Task>, id: int)
    ensures Toggled(Toggled(tasks, id), id) == tasks
    decreases |tasks|
  {
    if tasks != [] {
      if tasks[0].id == id {
        assert Toggled(tasks, id)[1..] == tasks[1..];
      } else {
        ToggleTwice(tasks[1..], id);
        assert Toggled(tasks, id)[1..] == Toggled(tasks[1..], id);
      }
    }
  }

  /** Toggling keeps the ids unique. */
  lemma ToggleKeepsUnique(tasks: seq<Task>, id: int)
    requires UniqueIds(tasks)
    ensures UniqueIds(Toggled(tasks, id))
  {
  }

  // ---------------------------------------------------------------- remove

  /** Removing an id that no task has leaves the list unchanged. */
  lemma {:induction false} RemovedAbsent(tasks: seq<Task>, id: int)
    requires !HasId(tasks, id)
    ensures Removed(tasks, id) == tasks
    decreases |tasks|
  {
    if tasks != [] {
      assert tasks[0].id != id;
      assert !HasId(tasks[1..], id) by {
        forall i | 0 <= i < |tasks[1..]| ensures tasks[1..][i].id != id {
          assert tasks[1..][i] == tasks[i + 1];
        }
      }
      RemovedAbsent(tasks[1..], id);
    }
  }

  /** Removing works piecewise, so the remaining tasks keep their relative order. */
  lemma {:induction false} RemovedAppend(a: seq<Task>, b: seq<Task>, id: int)
    ensures Removed(a + b, id) == Removed(a, id) + Removed(b, id)
    decreases |a|
  {
    if a == [] {
      assert a + b == b;
    } else {
      assert (a + b)[0] == a[0];
      assert (a + b)[1..] == a[1..] + b;
      RemovedAppend(a[1..], b, id);
    }
  }

  /** What removing leaves is a subsequence of the original list. */
  lemma {:induction false} RemovedIsSubsequence(tasks: seq<Task>, id: int)
    ensures IsSubsequence(Removed(tasks, id), tasks)
    decreases |tasks|
  {
    if tasks != [] {
      RemovedIsSubsequence(tasks[1..], id);
    }
  }

  /** Removing shortens the list by the number of tasks that had the id. */
  lemma {:induction false} RemovedLength(tasks: seq<Task>, id: int)
    ensures |Removed(tasks, id)| == |tasks| - CountId(tasks, id)
    decreases |tasks|
  {
    if tasks != [] {
      RemovedLength(tasks[1..], id);
    }
  }

  /** With unique ids, an id that is present is carried by exactly one task. */
  lemma {:induction false} UniqueCountOne(tasks: seq<Task>, id: int)
    requires UniqueIds(tasks) && HasId(tasks, id)
    ensures CountId(tasks, id) == 1
    decreases |tasks|
  {
    assert UniqueIds(tasks[1..]) by {
      forall i, j | 0 <= i < j < |tasks[1..]| ensures tasks[1..][i].id != tasks[1..][j].id {
        assert tasks[1..][i] == tasks[i + 1] && tasks[1..][j] == tasks[j + 1];
      }
    }
    if tasks[0].id == id {
      assert !HasId(tasks[1..], id) by {
        forall i | 0 <= i < |tasks[1..]| ensures tasks[1..][i].id != id {
          assert tasks[1..][i] == tasks[i + 1];
        }
      }
      CountIdAbsent(tasks[1..], id);
    } else {
      var i :| 0 <= i < |tasks| && tasks[i].id == id;
      assert tasks[1..][i - 1] == tasks[i];
      UniqueCountOne(tasks[1..], id);
    }
  }

  lemma {:induction false} CountIdAbsent(tasks: seq<Task>, id: int)
    requires !HasId(tasks, id)
    ensures CountId(tasks, id) == 0
    decreases |tasks|
  {
    if tasks != [] {
      assert tasks[0].id != id;
      assert !HasId(tasks[1..], id) by {
        forall i | 0 <= i < |tasks[1..]| ensures tasks[1..][i].id != id {
          assert tasks[1..][i] == tasks[i + 1];
        }
      }
      CountIdAbsent(tasks[1..], id);
    }
  }

  /** With unique ids, removing an id that is present drops exactly one task. */
  lemma RemoveUniquePresent(tasks: seq<Task>, id: int)
    requires UniqueIds(tasks) && HasId(tasks, id)
    ensures |Removed(tasks, id)| == |tasks| - 1
  {
    UniqueCountOne(tasks, id);
    RemovedLength(tasks, id);
  }

  /** Removing keeps the ids unique. */
  lemma {:induction false} RemoveKeepsUnique(tasks: seq<Task>, id: int)
    requires UniqueIds(tasks)
    ensures UniqueIds(Removed(tasks, id))
    decreases |tasks|
  {
    if tasks != [] {
      assert UniqueIds(tasks[1..]) by {
        forall i, j | 0 <= i < j < |tasks[1..]| ensures tasks[1..][i].id != tasks[1..][j].id {
          assert tasks[1..][i] == tasks[i + 1] && tasks[1..][j] == tasks[j + 1];
        }
      }
      RemoveKeepsUnique(tasks[1..], id);
      var rest := Removed(tasks[1..], id);
      if tasks[0].id != id {
        var r := [tasks[0]] + rest;
        forall i, j | 0 <= i < j < |r| ensures r[i].id != r[j].id {
          if i == 0 {
            assert r[j] == rest[j - 1] && rest[j - 1] in tasks[1..];
            var m :| 0 <= m < |tasks[1..]| && tasks[1..][m] == r[j];
            assert tasks[m + 1] == r[j];
          } else {
            assert r[i] == rest[i - 1] && r[j] == rest[j - 1];
          }
        }
      }
    }
  }

  /** Toggling before removing the same id makes no difference. */
  lemma {:induction false} ToggleThenRemove(tasks: seq<Task>, id: int)
    ensures Removed(Toggled(tasks, id), id) == Removed(tasks, id)
    decreases |tasks|
  {
    if tasks != [] {
      if tasks[0].id == id {
        assert Toggled(tasks, id)[1..] == tasks[1..];
      } else {
        assert Toggled(tasks, id)[1..] == Toggled(tasks[1..], id);
        ToggleThenRemove(tasks[1..], id);
      }
    }
  }
}
