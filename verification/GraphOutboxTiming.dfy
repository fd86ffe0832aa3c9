/**
 Calls keep to their leases: within the bounds, whatever a run has on the wire is over when its lease is, or, if
 the run has handed its row back early, before that row can be claimed again.
 */
module GraphOutboxTiming {
  import opened Wrappers
  import opened GraphTask
  import opened GraphOutbox
  import opened GraphOutboxSafety

  /** The bounds under which calls keep to their leases. */
  predicate Timely(b: Bounds) {
    b.pause <= MUTATION_SAFETY_MARGIN_MS && b.dead >= GRAPH_CALL_TIMEOUT_MS
  }

  /** A retry waits at least as long as a call that was given up on can still take effect. */
  lemma BackoffOutlastsACall(attempts: nat, hint: nat)
    ensures RetryDelayMs(attempts, hint) >= GRAPH_CALL_TIMEOUT_MS
  {
    BackoffIsLong(attempts);
  }

  lemma {:induction false} BackoffIsLong(attempts: nat)
    ensures 30_000 <= BackoffMs(attempts) <= 1_800_000
  {
    if 1 < attempts <= 7 {
      BackoffIsLong(attempts - 1);
    }
  }

  /** The row a run has handed back waits, unclaimed, for longer than the call the run left behind. */
  predicate WaitsForTheCall(s: State, id: RunId)
    requires id in s.runs && id.row in s.rows
  {
    var row := s.rows[id.row];
    && s.runs[id].phase.Stray?
    && row.status == Pending && row.lease.None? && row.attempts < MAX_ATTEMPTS
    && row.due >= s.runs[id].until
    && row.claimed.Some? && row.claimed.value.token == id.token
  }

  /**
   A run that holds its row knows when its lease lapses; one that does not has seen it lapse, or its row waits. A
   change is started, and is over, inside the lease it was cleared under.
   */
  predicate RunTimed(s: State, id: RunId) {
    id in s.runs && id.row in s.rows ==>
      var row, run := s.rows[id.row], s.runs[id];
      && (if Holds(s, id) then row.lease.value.until == run.until else run.until <= s.now || WaitsForTheCall(s, id))
      && (run.phase.Cleared? ==> run.phase.at + MIN_LEASE_TO_MUTATE_MS <= run.until)
      && (Unanswered(run.phase).Some? ==> Unanswered(run.phase).value.start + GRAPH_CALL_TIMEOUT_MS <= run.until)
  }

  ghost predicate Timed(s: State) {
    forall id {:trigger RunTimed(s, id)} :: RunTimed(s, id)
  }

  lemma ApiKeeps(b: Bounds, s: State, step: Step)
    requires Inv(s) && Timed(s) && Enabled(b, s, step)
    requires step.Tick? || step.SetStatus? || step.ApproveOffboarding? || step.ApproveOnboarding? || step.SignIn?
    ensures Timed(Apply(s, step))
  {
    forall id ensures RunTimed(Apply(s, step), id) {
      assert RunTimed(s, id) && RunOk(s, id);
    }
  }

  lemma ClaimKeepsTime(b: Bounds, s: State, batch: set<Seq>, asOf: int)
    requires Inv(s) && Timed(s) && Enabled(b, s, Claim(batch, asOf))
    ensures Timed(AfterClaim(s, batch))
  {
    forall id ensures RunTimed(AfterClaim(s, batch), id) {
      assert RunTimed(s, id) && RunOk(s, id);
      assert id.row in batch ==> Claimable(s, id.row, asOf);
    }
  }

  lemma ReapKeepsTime(b: Bounds, s: State, q: Seq, asOf: int)
    requires Inv(s) && Timed(s) && Enabled(b, s, Reap(q, asOf))
    ensures Timed(Apply(s, Reap(q, asOf)))
  {
    forall id ensures RunTimed(Apply(s, Reap(q, asOf)), id) {
      assert RunTimed(s, id) && RunOk(s, id);
    }
  }

  lemma RenewKeepsTime(b: Bounds, s: State, id0: RunId)
    requires Inv(s) && Timed(s) && Enabled(b, s, Renew(id0))
    ensures Timed(AfterRenew(s, id0))
  {
    forall id ensures RunTimed(AfterRenew(s, id0), id) {
      assert RunTimed(s, id) && RunTimed(s, id0) && RunOk(s, id) && RowOk(s, id0.row);
    }
  }

  lemma PhaseKeepsTime(s: State, id0: RunId, phase: Phase)
    requires Timed(s) && RunTimed(At(s, id0, phase), id0)
    ensures Timed(At(s, id0, phase))
  {
    forall id ensures RunTimed(At(s, id0, phase), id) { assert RunTimed(s, id); }
  }

  /** A step of a replica that is not about its lease. */
  lemma WorkKeepsTime(b: Bounds, s: State, step: Step)
    requires Timely(b) && Inv(s) && Timed(s) && Enabled(b, s, step)
    requires step.Look? || step.Confirm? || step.Check? || step.Start? || step.Answer? || step.Refuse? || step.Throw?
    ensures Timed(Apply(s, step))
  {
    assert RunTimed(s, step.id) && RunOk(s, step.id);
    PhaseKeepsTime(s, step.id, Apply(s, step).runs[step.id].phase);
  }

  lemma LandKeepsTime(b: Bounds, s: State, id0: RunId)
    requires Inv(s) && Timed(s) && Enabled(b, s, Land(id0))
    ensures Timed(AfterLand(s, id0))
  {
    forall id ensures RunTimed(AfterLand(s, id0), id) {
      assert RunTimed(s, id);
    }
  }

  lemma SentKeepsTime(b: Bounds, s: State, id0: RunId)
    requires Inv(s) && Timed(s) && Enabled(b, s, FinishSent(id0))
    ensures Timed(Apply(s, FinishSent(id0)))
  {
    forall id ensures RunTimed(Apply(s, FinishSent(id0)), id) {
      assert RunTimed(s, id) && RowOk(s, id0.row);
    }
  }

  lemma FailedKeepsTime(b: Bounds, s: State, id0: RunId, hint: nat)
    requires Timely(b) && Inv(s) && Timed(s) && Enabled(b, s, FinishFailed(id0, hint))
    ensures Timed(Apply(s, FinishFailed(id0, hint)))
  {
    forall id ensures RunTimed(Apply(s, FinishFailed(id0, hint)), id) {
      assert RunTimed(s, id) && RunTimed(s, id0) && RunOk(s, id0) && RowOk(s, id0.row);
      if id0.row in s.rows {
        BackoffOutlastsACall(s.rows[id0.row].attempts, hint);
      }
    }
  }

  lemma TimedKeeps(b: Bounds, s: State, step: Step)
    requires Timely(b) && Inv(s) && Timed(s) && Enabled(b, s, step)
    ensures Timed(Apply(s, step))
  {
    match step
    case Claim(batch, asOf) => ClaimKeepsTime(b, s, batch, asOf);
    case Reap(q, asOf) => ReapKeepsTime(b, s, q, asOf);
    case Renew(id) => RenewKeepsTime(b, s, id);
    case Land(id) => LandKeepsTime(b, s, id);
    case FinishSent(id) => SentKeepsTime(b, s, id);
    case FinishFailed(id, hint) => FailedKeepsTime(b, s, id, hint);
    case Tick(_) => ApiKeeps(b, s, step);
    case SetStatus(_, _, _, _) => ApiKeeps(b, s, step);
    case ApproveOffboarding(_, _) => ApiKeeps(b, s, step);
    case ApproveOnboarding(_, _) => ApiKeeps(b, s, step);
    case SignIn(_) => ApiKeeps(b, s, step);
    case _ => WorkKeepsTime(b, s, step);
  }

  /** Every run within the bounds keeps it. */
  lemma {:induction false} OnTime(b: Bounds, s: State, steps: seq<Step>)
    requires Timely(b) && Init(s) && Legal(b, s, steps)
    ensures Inv(After(s, steps)) && Timed(After(s, steps))
  {
    Holding(b, s, steps);
    if steps != [] {
      OnTime(b, s, steps[..|steps| - 1]);
      TimedKeeps(b, After(s, steps[..|steps| - 1]), steps[|steps| - 1]);
    }
  }
}
