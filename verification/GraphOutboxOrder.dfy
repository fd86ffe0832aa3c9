/**
 Ordering, fencing and queueing: who may change a row, when two changes for one person may overlap, and when
 a change of status is sure to have a task behind it.
 */
module GraphOutboxOrder {
  import opened Wrappers
  import opened GraphTask
  import opened GraphOutbox
  import opened GraphOutboxSafety
  import opened GraphOutboxTiming
  import opened GraphOutboxCalm

  // ── The fence ───────────────────────────────────────────────────────────────

  /**
   Only a pending row ever changes, and only in three ways: by the run that holds its lease, by a claim, or by
   the reaper; the last two only once no lease on it is live.
   */
  lemma OnlyTheHolderChangesARow(b: Bounds, s: State, step: Step, q: Seq)
    requires Inv(s) && Enabled(b, s, step)
    requires q in s.rows
    ensures q in Apply(s, step).rows
    ensures Apply(s, step).rows[q] != s.rows[q] ==>
              && s.rows[q].status == Pending
              && (|| (Actor(step).Some? && Actor(step).value.row == q && Holds(s, Actor(step).value))
                  || (step.Claim? && q in step.batch && NotLeased(s.rows[q], s.now))
                  || (step.Reap? && q == step.q && NotLeased(s.rows[q], s.now)))
  {
    assert RowOk(s, q);
    if step.Claim? && q in step.batch {
      assert Claimable(s, q, step.asOf);
    }
  }

  /** A run that has lost its row never gets it back. */
  lemma LostStaysLost(b: Bounds, s: State, step: Step, id: RunId)
    requires Inv(s) && Enabled(b, s, step)
    requires id.row in s.rows && id.token < s.tokens && !Holds(s, id)
    ensures id.row in Apply(s, step).rows && id.token < Apply(s, step).tokens && !Holds(Apply(s, step), id)
  {
    OnlyTheHolderChangesARow(b, s, step, id.row);
  }

  /**
   So a superseded replica, however late it resumes, writes nothing to the outbox: nothing it does in any
   continuation of the run changes a row.
   */
  lemma {:induction false} SupersededWritesNothing(b: Bounds, s: State, steps: seq<Step>, id: RunId, step: Step)
    requires Inv(s) && id.row in s.rows && id.token < s.tokens && !Holds(s, id)
    requires Legal(b, s, steps)
    requires Enabled(b, After(s, steps), step) && Actor(step) == Some(id)
    ensures Apply(After(s, steps), step).rows == After(s, steps).rows
  {
    StillLost(b, s, steps, id);
    var t := After(s, steps);
    forall q | q in t.rows ensures Apply(t, step).rows[q] == t.rows[q] {
      OnlyTheHolderChangesARow(b, t, step, q);
    }
  }

  lemma {:induction false} StillLost(b: Bounds, s: State, steps: seq<Step>, id: RunId)
    requires Inv(s) && Legal(b, s, steps)
    requires id.row in s.rows && id.token < s.tokens && !Holds(s, id)
    ensures var t := After(s, steps); Inv(t) && id.row in t.rows && id.token < t.tokens && !Holds(t, id)
  {
    if steps != [] {
      var n := |steps| - 1;
      StillLost(b, s, steps[..n], id);
      StepKeeps(b, After(s, steps[..n]), steps[n]);
      LostStaysLost(b, After(s, steps[..n]), steps[n], id);
    }
  }

  /** A row leaves pending at most once: sent or dead-lettered, it is never touched again. */
  lemma {:induction false} FinishedIsFinal(b: Bounds, s: State, steps: seq<Step>, q: Seq)
    requires Inv(s) && Legal(b, s, steps)
    requires q in s.rows && s.rows[q].status != Pending
    ensures Inv(After(s, steps)) && q in After(s, steps).rows && After(s, steps).rows[q] == s.rows[q]
  {
    if steps != [] {
      var n := |steps| - 1;
      FinishedIsFinal(b, s, steps[..n], q);
      StepKeeps(b, After(s, steps[..n]), steps[n]);
      OnlyTheHolderChangesARow(b, After(s, steps[..n]), steps[n], q);
    }
  }

  // ── One at a time, in order ─────────────────────────────────────────────────

  /** At most one row of a key can be claimed at any moment, so no batch holds two rows of one person. */
  lemma OneClaimablePerKey(s: State, q: Seq, r: Seq, asOf: int)
    requires Claimable(s, q, asOf) && Claimable(s, r, asOf) && s.rows[q].key == s.rows[r].key
    ensures q == r
  {
    assert !Blocks(s, q, r, asOf) && !Blocks(s, r, q, asOf);
  }

  /** A pending row earlier than a finished one committed after that one's last claim, whatever the bounds. */
  lemma FinishedRowsFormAPrefix(b: Bounds, t: State, q: Seq, r: Seq)
    requires Reachable(b, t)
    requires q in t.rows && r in t.rows && q < r && t.rows[q].key == t.rows[r].key
    requires t.rows[r].status != Pending && t.rows[q].status == Pending
    ensures t.rows[r].claimed.Some? && t.rows[q].ord >= t.rows[r].claimed.value.commits
    ensures !CommittedInOrder(t)
  {
    var s, steps :| Init(s) && Legal(b, s, steps) && t == After(s, steps);
    Holding(b, s, steps);
    assert RowOk(t, r) && ClaimedInOrder(t, q, r);
  }

  /** A row whose call is in flight is pending, and still tells of the claim that made the call. */
  lemma InFlightIsPending(s: State, id: RunId)
    requires Inv(s) && Timed(s) && InFlight(s, id)
    ensures id.row in s.rows && s.rows[id.row].status == Pending
    ensures s.rows[id.row].claimed.Some? && s.rows[id.row].claimed.value.token == id.token
  {
    assert RunOk(s, id) && RunTimed(s, id) && RowOk(s, id.row);
  }

  /**
   Within the bounds, two calls for one person can be in flight together in one situation only: they belong to
   different rows, and the earlier row committed after the later one had been claimed.
   */
  lemma OverlapNeedsALateCommit(b: Bounds, t: State, x: RunId, y: RunId)
    requires Timely(b) && Reachable(b, t)
    requires InFlight(t, x) && InFlight(t, y) && SamePerson(t, x, y) && x != y && x.row <= y.row
    ensures x.row < y.row
    ensures t.rows[y.row].claimed.Some? && t.rows[x.row].ord >= t.rows[y.row].claimed.value.commits
  {
    var s, steps :| Init(s) && Legal(b, s, steps) && t == After(s, steps);
    OnTime(b, s, steps);
    InFlightIsPending(t, x);
    InFlightIsPending(t, y);
    assert ClaimedInOrder(t, x.row, y.row);
  }

  /** And when tasks commit in order, never: whichever leases the calls were made under, answered or given up on. */
  lemma CallsNeverOverlap(b: Bounds, t: State)
    requires Timely(b) && b.ordered && Reachable(b, t)
    ensures NoOverlap(t)
  {
    var s, steps :| Init(s) && Legal(b, s, steps) && t == After(s, steps);
    RunKeeps(b, s, steps);
    forall x, y | InFlight(t, x) && InFlight(t, y) && SamePerson(t, x, y) ensures x == y {
      var lo, hi := if x.row <= y.row then x else y, if x.row <= y.row then y else x;
      assert RowOk(t, hi.row);
      assert lo.row < hi.row ==> t.rows[lo.row].ord < t.rows[hi.row].ord;
      if x != y {
        OverlapNeedsALateCommit(b, t, lo, hi);
      }
    }
  }

  // ── Every change of status has a task behind it, or nearly ──────────────────

  /** A task committed at or after the employee's last crossing of `Offboarded`. */
  ghost predicate HasTask(s: State, e: EmployeeId) {
    exists q :: q in s.rows && s.rows[q].key == e && Current(s, q)
  }

  /**
   A crossing goes without a task in exactly one case: the status is taken away from `Offboarded` by an update
   that had read another status before its transaction began.
   */
  lemma CrossingQueuesATask(b: Bounds, s: State, step: Step, e: EmployeeId)
    requires Inv(s) && Enabled(b, s, step) && e in s.staff
    requires e in Apply(s, step).staff && Apply(s, step).staff[e].ver != s.staff[e].ver
    ensures HasTask(Apply(s, step), e) <==> !(step.SetStatus? && IsOff(s, e) && step.seen != Offboarded)
  {
    var t := Apply(s, step);
    forall q | q in s.rows && s.rows[q].key == e ensures s.rows[q].ver <= s.staff[e].ver {
      assert RowOk(s, q);
    }
    if !(step.SetStatus? && IsOff(s, e) && step.seen != Offboarded) {
      assert step.q in t.rows && t.rows[step.q].key == e && Current(t, step.q);
    }
  }

  lemma TaskRemains(b: Bounds, s: State, step: Step, e: EmployeeId)
    requires Inv(s) && Enabled(b, s, step) && e in s.staff
    ensures e in Apply(s, step).staff
    ensures Apply(s, step).staff[e].ver == s.staff[e].ver && HasTask(s, e) ==> HasTask(Apply(s, step), e)
  {
    var t := Apply(s, step);
    if t.staff[e].ver == s.staff[e].ver && HasTask(s, e) {
      var q :| q in s.rows && s.rows[q].key == e && Current(s, q);
      RowsStay(b, s, step, q);
      assert q in t.rows && t.rows[q].key == e && Current(t, q);
    }
  }

  /** Once the status has crossed `Offboarded`, a task is there: always if offboarded, else if `current`. */
  ghost predicate Queued(s: State, e: EmployeeId, current: bool) {
    e in s.staff && (s.staff[e].ver > 0 && (IsOff(s, e) || current) ==> HasTask(s, e))
  }

  lemma StepQueues(b: Bounds, s: State, step: Step, e: EmployeeId)
    requires Inv(s) && Enabled(b, s, step) && Queued(s, e, b.current)
    ensures Queued(Apply(s, step), e, b.current)
  {
    TaskRemains(b, s, step, e);
    if Apply(s, step).staff[e].ver != s.staff[e].ver {
      CrossingQueuesATask(b, s, step, e);
    }
  }

  lemma {:induction false} RunQueues(b: Bounds, s: State, steps: seq<Step>, e: EmployeeId)
    requires Init(s) && Legal(b, s, steps) && e in s.staff
    ensures Inv(After(s, steps)) && Queued(After(s, steps), e, b.current)
  {
    Holding(b, s, steps);
    if steps != [] {
      var n := |steps| - 1;
      RunQueues(b, s, steps[..n], e);
      Holding(b, s, steps[..n]);
      StepQueues(b, After(s, steps[..n]), steps[n], e);
    }
  }

  lemma {:induction false} StaffStay(b: Bounds, s: State, steps: seq<Step>)
    requires Init(s) && Legal(b, s, steps)
    ensures After(s, steps).staff.Keys == s.staff.Keys
  {
    if steps != [] {
      StaffStay(b, s, steps[..|steps| - 1]);
      StaffStays(b, After(s, steps[..|steps| - 1]), steps[|steps| - 1]);
    }
  }

  lemma StaffStays(b: Bounds, s: State, step: Step)
    requires Enabled(b, s, step)
    ensures Apply(s, step).staff.Keys == s.staff.Keys
  {
  }

  /** Committed in order, the last task of a person is current if any task is: it knows of the last crossing. */
  lemma LastIsCurrent(s: State, q: Seq)
    requires Inv(s) && CommittedInOrder(s) && IsLast(s, q)
    requires var e := s.rows[q].key; e in s.staff && (s.staff[e].ver > 0 ==> HasTask(s, e))
    ensures Current(s, q)
  {
    assert RowOk(s, q);
    var e := s.rows[q].key;
    if s.staff[e].ver > 0 {
      var r :| r in s.rows && s.rows[r].key == e && Current(s, r);
      assert VersionsInOrder(s, r, q);
    }
  }

  /**
   What a caller can see: when tasks commit in order, whoever is offboarded and whose last task is sent is locked
   out, however earlier tasks ended and however the statuses were written.
   */
  lemma OffboardedIsLockedOut(b: Bounds, t: State)
    requires Timely(b) && b.ordered && Reachable(b, t)
    ensures LastSentLocksOut(t)
  {
    var s, steps :| Init(s) && Legal(b, s, steps) && t == After(s, steps);
    RunKeeps(b, s, steps);
    forall q | IsLast(t, q) && t.rows[q].status == Sent && t.rows[q].key in t.staff && t.rows[q].key in t.directory
               && IsOff(t, t.rows[q].key)
      ensures t.directory[t.rows[q].key] == Account(false, false)
    {
      StaffStay(b, s, steps);
      RunQueues(b, s, steps, t.rows[q].key);
      LastIsCurrent(t, q);
      assert PairCalm(t, q, RunId(q, 0));
    }
  }

  /** And if every update had read the current status, the account matches the employee either way. */
  lemma LastSentMeansSettled(b: Bounds, t: State)
    requires Timely(b) && b.ordered && b.current && Reachable(b, t)
    ensures LastSentSettles(t)
  {
    var s, steps :| Init(s) && Legal(b, s, steps) && t == After(s, steps);
    RunKeeps(b, s, steps);
    forall q | IsLast(t, q) && t.rows[q].status == Sent && t.rows[q].key in t.staff && t.rows[q].key in t.directory
      ensures Settled(t, t.rows[q].key)
    {
      StaffStay(b, s, steps);
      RunQueues(b, s, steps, t.rows[q].key);
      LastIsCurrent(t, q);
      assert PairCalm(t, q, RunId(q, 0));
    }
  }

  /** Whatever the order of commits, an employee all of whose tasks are sent has the account the status calls for. */
  lemma AllSentMeansSettled(b: Bounds, s: State, steps: seq<Step>, e: EmployeeId)
    requires Safe(b) && Init(s) && Legal(b, s, steps) && e in s.staff
    requires var t := After(s, steps);
             && e in t.staff && t.staff[e].ver > 0 && e in t.directory && (IsOff(t, e) || b.current)
             && (forall q :: q in t.rows && t.rows[q].key == e ==> t.rows[q].status == Sent)
    ensures Settled(After(s, steps), e)
  {
    RunKeeps(b, s, steps);
    RunQueues(b, s, steps, e);
    var t := After(s, steps);
    var q :| q in t.rows && t.rows[q].key == e && Current(t, q);
    assert PairCalm(t, q, RunId(q, 0));
  }
}
