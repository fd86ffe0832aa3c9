/**
 Queueing a task: a row under the unique index on what is pending, and a wake-up for the relay that takes it.
 */
module GraphQueue {
  import opened Wrappers
  import opened GraphTask

  const WAKE_ACCOUNT := "graph-account"
  const WAKE_SCAN := "graph-scan"

  function GraphWakeKind(kind: string): string {
    if kind == ACCOUNT_RECONCILE then WAKE_ACCOUNT else WAKE_SCAN
  }

  datatype TaskRow = TaskRow(task: Task, pending: bool)

  /** How many pending rows carry a dedupe key. */
  function PendingCount(rows: seq<TaskRow>, key: string): nat {
    if rows == [] then 0
    else PendingCount(rows[..|rows| - 1], key)
         + if rows[|rows| - 1].pending && DedupeKeyFor(rows[|rows| - 1].task) == Some(key) then 1 else 0
  }

  /** The unique index on the dedupe key of pending rows. */
  ghost predicate IndexHolds(rows: seq<TaskRow>) {
    forall key :: PendingCount(rows, key) <= 1
  }

  /** An equal scan or sync is already waiting. */
  predicate Covered(rows: seq<TaskRow>, task: Task) {
    DedupeKeyFor(task).Some? && exists i :: 0 <= i < |rows| && rows[i].pending && rows[i].task == task
  }

  lemma {:induction false} CountIsPositive(rows: seq<TaskRow>, key: string)
    ensures PendingCount(rows, key) > 0 <==>
            exists i :: 0 <= i < |rows| && rows[i].pending && DedupeKeyFor(rows[i].task) == Some(key)
  {
    if rows != [] {
      var n := |rows| - 1;
      CountIsPositive(rows[..n], key);
      if PendingCount(rows[..n], key) > 0 {
        var i :| 0 <= i < n && rows[..n][i].pending && DedupeKeyFor(rows[..n][i].task) == Some(key);
        assert rows[i].pending;
      }
    }
  }

  /** The index refuses a task exactly when an equal one is waiting: only equal tasks share a dedupe key. */
  lemma ConflictMeansCovered(rows: seq<TaskRow>, task: Task)
    requires DedupeKeyFor(task).Some?
    ensures PendingCount(rows, DedupeKeyFor(task).value) > 0 <==> Covered(rows, task)
  {
    var key := DedupeKeyFor(task).value;
    CountIsPositive(rows, key);
    forall i | 0 <= i < |rows| ensures DedupeKeyFor(rows[i].task) == Some(key) <==> rows[i].task == task {
      KeysSeparateTasks(task, rows[i].task);
    }
  }

  /** `rows[i]` finishes: it is no longer pending, and nothing else changes. */
  function Finished(rows: seq<TaskRow>, i: nat): seq<TaskRow>
    requires i < |rows|
  {
    rows[i := rows[i].(pending := false)]
  }

  lemma {:induction false} FinishingFrees(rows: seq<TaskRow>, i: nat, key: string)
    requires i < |rows| && rows[i].pending
    ensures PendingCount(Finished(rows, i), key)
         == PendingCount(rows, key) - if DedupeKeyFor(rows[i].task) == Some(key) then 1 else 0
  {
    var n := |rows| - 1;
    if i == n {
      assert Finished(rows, i)[..n] == rows[..n];
    } else {
      assert Finished(rows, i)[..n] == Finished(rows[..n], i);
      FinishingFrees(rows[..n], i, key);
    }
  }

  class GraphTaskQueue {
    var rows: seq<TaskRow>
    var wakes: seq<string>

    ghost predicate Valid()
      reads this
    {
      IndexHolds(rows)
    }

    constructor ()
      ensures Valid() && rows == [] && wakes == []
    {
      rows := [];
      wakes := [];
    }

    /**
     Insert, or do nothing on a conflict with a pending row; a new row wakes the relay that owns its kind.
     The answer is whether a row was written, and it is no only for a scan or sync already waiting: an account
     task is always added.
     */
    method Enqueue(task: Task) returns (written: bool)
      requires Valid()
      modifies this
      ensures Valid()
      ensures written == !Covered(old(rows), task)
      ensures task.AccountReconcile? ==> written
      ensures rows == if written then old(rows) + [TaskRow(task, true)] else old(rows)
      ensures wakes == if written then old(wakes) + [if task.AccountReconcile? then WAKE_ACCOUNT else WAKE_SCAN] else old(wakes)
    {
      KeysSeparateTasks(task, task);
      if DedupeKeyFor(task).Some? {
        ConflictMeansCovered(rows, task);
        if PendingCount(rows, DedupeKeyFor(task).value) > 0 {
          return false;
        }
      }
      ghost var before := rows;
      rows := rows + [TaskRow(task, true)];
      assert rows[..|before|] == before;
      wakes := wakes + [GraphWakeKind(task.Kind())];
      written := true;
      assert SHADOW_IT_SCAN[0] == 'c' && POSTURE_SYNC[0] == 's' && ACCOUNT_RECONCILE[0] == 'e';
    }

    /** A relay finishes a row; an equal scan may then be queued again. */
    method Finish(i: nat)
      requires Valid() && i < |rows| && rows[i].pending
      modifies this`rows
      ensures Valid()
      ensures rows == Finished(old(rows), i)
      ensures DedupeKeyFor(rows[i].task).Some? ==> !Covered(rows, rows[i].task)
    {
      forall key ensures PendingCount(Finished(rows, i), key) <= 1 {
        FinishingFrees(rows, i, key);
      }
      ghost var task := rows[i].task;
      if DedupeKeyFor(task).Some? {
        var key := DedupeKeyFor(task).value;
        FinishingFrees(rows, i, key);
        ConflictMeansCovered(Finished(rows, i), task);
      }
      rows := rows[i := rows[i].(pending := false)];
    }
  }
}
