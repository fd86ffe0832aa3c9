/**
 What every run of the account-task protocol keeps, whatever the replicas do and whenever they do it.
 */
module GraphOutboxSafety {
  import opened Wrappers
  import opened GraphTask
  import opened GraphOutbox

  // ── The invariant, one row, one run, or one pair of rows at a time ──────────

  predicate RowOk(s: State, q: Seq) {
    q in s.rows ==>
      var row := s.rows[q];
      && row.key in s.staff
      && row.ver <= s.staff[row.key].ver
      && row.attempts <= MAX_ATTEMPTS
      && row.ord < s.commits
      && (row.claimed.Some? ==> row.ord < row.claimed.value.commits <= s.commits && row.claimed.value.token < s.tokens)
      && (row.attempts > 0 <==> row.claimed.Some?)
      && (row.status != Pending ==> row.claimed.Some?)
      && (row.lease.Some? ==>
            row.status == Pending && row.claimed.Some? && row.lease.value.token == row.claimed.value.token)
  }

  /** The version a phase's decision was read at. */
  function DecidedAt(phase: Phase): Option<nat> {
    match phase
    case Looked(_, v) => Some(v)
    case Confirmed(v) => Some(v)
    case Cleared(_, v, _) => Some(v)
    case Calling(_, v, _, _) => Some(v)
    case Disabled(v) => Some(v)
    case Broken(_, Some(open)) => Some(open.ver)
    case Stray(left) => Some(left.ver)
    case _ => None
  }

  /** Whether a phase's decision took the employee to be offboarded. */
  function TakenForOff(phase: Phase): bool {
    match phase
    case Looked(off, _) => off
    case Cleared(call, _, _) => call != Enable
    case Calling(call, _, _, _) => call != Enable
    case Disabled(_) => true
    case Broken(_, Some(open)) => open.call != Enable
    case Stray(left) => left.call != Enable
    case _ => false
  }

  /** A decision was read after its row committed, and is right if it is not outdated. */
  predicate DecisionOk(s: State, row: Row, phase: Phase)
    requires row.key in s.staff
  {
    var d := DecidedAt(phase);
    d.Some? ==>
      && row.key in s.directory
      && row.ver <= d.value <= s.staff[row.key].ver
      && (d.value == s.staff[row.key].ver ==> TakenForOff(phase) == IsOff(s, row.key))
  }

  predicate RunOk(s: State, id: RunId) {
    id in s.runs ==>
      && id.row in s.rows && s.rows[id.row].claimed.Some? && id.token < s.tokens
      && s.rows[id.row].key in s.staff
      && DecisionOk(s, s.rows[id.row], s.runs[id].phase)
      && (s.runs[id].phase.Stray? ==> !Holds(s, id))
      && (Unanswered(s.runs[id].phase).Some? ==> Unanswered(s.runs[id].phase).value.start <= s.now)
  }

  /** When `r` was last claimed, an earlier row of its key that had committed by then was no longer pending. */
  predicate ClaimedInOrder(s: State, q: Seq, r: Seq) {
    && q in s.rows && r in s.rows && q < r && s.rows[q].key == s.rows[r].key
    && s.rows[r].claimed.Some? && s.rows[q].ord < s.rows[r].claimed.value.commits
    ==> s.rows[q].status != Pending
  }

  /** Of two rows of a person, the one that committed later committed at a version no earlier. */
  predicate VersionsInOrder(s: State, q: Seq, r: Seq) {
    && q in s.rows && r in s.rows && s.rows[q].key == s.rows[r].key && s.rows[q].ord <= s.rows[r].ord
    ==> s.rows[q].ver <= s.rows[r].ver
  }

  ghost predicate Inv(s: State) {
    && (forall e :: e in s.directory ==> e in s.staff)
    && (forall q {:trigger RowOk(s, q)} :: RowOk(s, q))
    && (forall id {:trigger RunOk(s, id)} :: RunOk(s, id))
    && (forall q, r {:trigger ClaimedInOrder(s, q, r)} :: ClaimedInOrder(s, q, r))
    && (forall q, r {:trigger VersionsInOrder(s, q, r)} :: VersionsInOrder(s, q, r))
  }

  // Each lemma looks at one row, one run and one pair of rows of the new state, and at their counterparts in the
  // old one.

  /** What the invariant says of a row, of a run, and of two rows. */
  predicate Good(s: State, q: Seq, r: Seq, id: RunId) {
    RowOk(s, q) && RunOk(s, id) && ClaimedInOrder(s, q, r) && VersionsInOrder(s, q, r)
  }

  lemma Known(s: State, q: Seq, r: Seq, id: RunId)
    requires Inv(s)
    ensures Good(s, q, r, id) && RowOk(s, r) && RowOk(s, id.row)
  {
    assert RowOk(s, q) && RunOk(s, id) && ClaimedInOrder(s, q, r) && VersionsInOrder(s, q, r);
    assert RowOk(s, r) && RowOk(s, id.row);
  }

  lemma Collect(t: State)
    requires forall e :: e in t.directory ==> e in t.staff
    requires forall q, r, id :: Good(t, q, r, id)
    ensures Inv(t)
  {
    forall q ensures RowOk(t, q) { assert Good(t, q, q, RunId(q, 0)); }
    forall id ensures RunOk(t, id) { assert Good(t, 0, 0, id); }
    forall q, r ensures ClaimedInOrder(t, q, r) && VersionsInOrder(t, q, r) { assert Good(t, q, r, RunId(q, 0)); }
  }

  lemma TickKeeps(s: State, ms: nat)
    requires Inv(s)
    ensures Inv(s.(now := s.now + ms))
  {
    var t := s.(now := s.now + ms);
    forall q, r, id ensures Good(t, q, r, id) { Known(s, q, r, id); }
    Collect(t);
  }

  lemma WriteStatusKeeps(s: State, e: EmployeeId, to: EmployeeStatus)
    requires Inv(s) && e in s.staff
    ensures Inv(WriteStatus(s, e, to))
  {
    forall q, r, id ensures Good(WriteStatus(s, e, to), q, r, id) { Known(s, q, r, id); }
    Collect(WriteStatus(s, e, to));
  }

  lemma EnqueueKeeps(s: State, e: EmployeeId, q0: Seq)
    requires Inv(s) && e in s.staff && q0 !in s.rows
    ensures Inv(Enqueue(s, e, q0))
  {
    forall q, r, id ensures Good(Enqueue(s, e, q0), q, r, id) { Known(s, q, r, id); }
    Collect(Enqueue(s, e, q0));
  }

  /** No clause here speaks of what an account is like. */
  lemma DirectoryKeeps(s: State, e: EmployeeId, account: Account)
    requires Inv(s) && e in s.directory
    ensures Inv(s.(directory := s.directory[e := account]))
  {
    var t := s.(directory := s.directory[e := account]);
    forall q, r, id ensures Good(t, q, r, id) { Known(s, q, r, id); }
    Collect(t);
  }

  lemma ClaimKeeps(s: State, batch: set<Seq>, asOf: int)
    requires Inv(s) && forall b :: b in batch ==> Claimable(s, b, asOf)
    ensures Inv(AfterClaim(s, batch))
  {
    forall q, r, id ensures Good(AfterClaim(s, batch), q, r, id) {
      Known(s, q, r, id);
      assert q in batch ==> Claimable(s, q, asOf);
      assert r in batch ==> Claimable(s, r, asOf);
      assert id.row in batch ==> Claimable(s, id.row, asOf);
      assert r in batch && q in s.rows ==> !Blocks(s, q, r, asOf);
    }
    Collect(AfterClaim(s, batch));
  }

  /** A row may change in its lease, its due time and, once, its status; `row` is what becomes of it. */
  predicate Follows(was: Row, row: Row) {
    && row == was.(status := row.status, lease := row.lease, due := row.due)
    && (row.status == was.status || was.status == Pending)
    && (row.lease.None? || (was.lease.Some? && row.status == Pending && row.lease.value.token == was.lease.value.token))
  }

  lemma RowKeeps(s: State, q0: Seq, row: Row)
    requires Inv(s) && q0 in s.rows && Follows(s.rows[q0], row)
    requires row.status != Pending ==> s.rows[q0].claimed.Some?
    ensures Inv(s.(rows := s.rows[q0 := row]))
  {
    var t := s.(rows := s.rows[q0 := row]);
    forall q, r, id ensures Good(t, q, r, id) { Known(s, q, r, id); Known(s, q0, q0, id); }
    Collect(t);
  }

  lemma DropKeeps(s: State, id0: RunId)
    requires Inv(s)
    ensures Inv(s.(runs := s.runs - {id0}))
  {
    var t := s.(runs := s.runs - {id0});
    forall q, r, id ensures Good(t, q, r, id) { Known(s, q, r, id); }
    Collect(t);
  }

  /** A run may move to any phase that is itself good. */
  lemma MoveKeeps(s: State, id0: RunId, run: Run)
    requires Inv(s) && id0 in s.runs && RunOk(s.(runs := s.runs[id0 := run]), id0)
    ensures Inv(s.(runs := s.runs[id0 := run]))
  {
    var t := s.(runs := s.runs[id0 := run]);
    forall q, r, id ensures Good(t, q, r, id) { Known(s, q, r, id); }
    Collect(t);
  }

  lemma PhaseKeeps(s: State, id: RunId, phase: Phase)
    requires Inv(s) && id in s.runs && RunOk(At(s, id, phase), id)
    ensures Inv(At(s, id, phase))
  {
    MoveKeeps(s, id, s.runs[id].(phase := phase));
  }

  lemma RenewKeeps(s: State, id: RunId)
    requires Inv(s) && id in s.runs && s.runs[id].phase.Waiting?
    ensures Inv(AfterRenew(s, id))
  {
    if Holds(s, id) {
      Known(s, id.row, id.row, id);
      var until := s.now + LEASE_MS;
      var row := s.rows[id.row].(lease := Some(Lease(id.token, until)));
      RowKeeps(s, id.row, row);
      MoveKeeps(s.(rows := s.rows[id.row := row]), id, Run(Renewed, until));
    } else {
      DropKeeps(s, id);
    }
  }

  /** What a replica learns from the database is good when it learns it. */
  lemma ReadKeeps(b: Bounds, s: State, step: Step)
    requires Inv(s) && Enabled(b, s, step) && (step.Look? || step.Confirm?)
    ensures Inv(Apply(s, step))
  {
    var id := step.id;
    Known(s, id.row, id.row, id);
    PhaseKeeps(s, id, Apply(s, step).runs[id].phase);
  }

  /** And the decision stays with the run from then on. */
  lemma DecidedKeeps(b: Bounds, s: State, step: Step)
    requires Inv(s) && Enabled(b, s, step) && (step.Check? || step.Start? || step.Answer?)
    ensures Inv(Apply(s, step))
  {
    var id := step.id;
    Known(s, id.row, id.row, id);
    PhaseKeeps(s, id, Apply(s, step).runs[id].phase);
  }

  lemma BrokenKeeps(b: Bounds, s: State, step: Step)
    requires Inv(s) && Enabled(b, s, step) && (step.Refuse? || step.Throw?)
    ensures Inv(Apply(s, step))
  {
    var id := step.id;
    Known(s, id.row, id.row, id);
    PhaseKeeps(s, id, Apply(s, step).runs[id].phase);
  }

  lemma LandKeeps(b: Bounds, s: State, id: RunId)
    requires Inv(s) && Enabled(b, s, Land(id))
    ensures Inv(AfterLand(s, id))
  {
    var e, call := s.rows[id.row].key, Unlanded(s.runs[id].phase).value.call;
    DirectoryKeeps(s, e, Effect(s.directory[e], call));
    var t := Affect(s, e, call);
    Known(t, id.row, id.row, id);
    if t.runs[id].phase.Stray? {
      DropKeeps(t, id);
    } else {
      PhaseKeeps(t, id, Settle(t, id).runs[id].phase);
    }
  }

  lemma FinishKeeps(s: State, id: RunId, write: Row -> Row)
    requires Inv(s) && id in s.runs
    requires Holds(s, id) ==> Follows(s.rows[id.row], write(s.rows[id.row])) && write(s.rows[id.row]).lease.None?
    ensures Inv(Finish(s, id, write))
  {
    Known(s, id.row, id.row, id);
    var t := s;
    if Holds(s, id) {
      t := s.(rows := s.rows[id.row := write(s.rows[id.row])]);
      RowKeeps(s, id.row, write(s.rows[id.row]));
      Known(t, id.row, id.row, id);
    }
    if Leave(t, id).runs == t.runs - {id} {
      DropKeeps(t, id);
    } else {
      MoveKeeps(t, id, Leave(t, id).runs[id]);
    }
  }

  lemma StepKeeps(b: Bounds, s: State, step: Step)
    requires Inv(s) && Enabled(b, s, step)
    ensures Inv(Apply(s, step))
  {
    match step
    case Tick(ms) => TickKeeps(s, ms);
    case SetStatus(e, seen, to, q) =>
      WriteStatusKeeps(s, e, to);
      EnqueueKeeps(s, e, q);
      EnqueueKeeps(WriteStatus(s, e, to), e, q);
    case ApproveOffboarding(e, q) =>
      WriteStatusKeeps(s, e, Offboarded);
      EnqueueKeeps(WriteStatus(s, e, Offboarded), e, q);
    case ApproveOnboarding(e, q) => EnqueueKeeps(s, e, q);
    case SignIn(e) => DirectoryKeeps(s, e, s.directory[e].(sessions := true));
    case Claim(batch, asOf) => ClaimKeeps(s, batch, asOf);
    case Reap(q, asOf) => Known(s, q, q, RunId(q, 0)); RowKeeps(s, q, s.rows[q].(status := Failed, lease := None));
    case Renew(id) => RenewKeeps(s, id);
    case Look(id) => ReadKeeps(b, s, step);
    case Confirm(id) => ReadKeeps(b, s, step);
    case Land(id) => LandKeeps(b, s, id);
    case FinishSent(id) =>
      Known(s, id.row, id.row, id);
      FinishKeeps(s, id, (row: Row) => row.(status := Sent, lease := None));
    case FinishFailed(id, hint) =>
      Known(s, id.row, id.row, id);
      FinishKeeps(s, id, (row: Row) => Retried(row, s.runs[id].phase.retryable, s.now, hint));
    case Refuse(_, _) => BrokenKeeps(b, s, step);
    case Throw(_, _) => BrokenKeeps(b, s, step);
    case _ => DecidedKeeps(b, s, step);
  }

  /** A row stays, with its key, its place and its version. */
  lemma RowsStay(b: Bounds, s: State, step: Step, q: Seq)
    requires Enabled(b, s, step) && q in s.rows
    ensures q in Apply(s, step).rows
    ensures var was, row := s.rows[q], Apply(s, step).rows[q];
            row.key == was.key && row.ord == was.ord && row.ver == was.ver
  {
  }

  /** Every reachable state satisfies it, whatever the bounds. */
  lemma {:induction false} Holding(b: Bounds, s: State, steps: seq<Step>)
    requires Init(s) && Legal(b, s, steps)
    ensures Inv(After(s, steps))
  {
    if steps != [] {
      Holding(b, s, steps[..|steps| - 1]);
      StepKeeps(b, After(s, steps[..|steps| - 1]), steps[|steps| - 1]);
    }
  }
}
