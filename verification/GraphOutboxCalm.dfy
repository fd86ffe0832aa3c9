/**
 The account follows the employee: while calls keep to their leases, nothing decided on an outdated status can
 happen once a task that knows better has been claimed.
 */
module GraphOutboxCalm {
  import opened Wrappers
  import opened GraphTask
  import opened GraphOutbox
  import opened GraphOutboxSafety
  import opened GraphOutboxTiming

  /** How far a run on a current row has brought the account. */
  predicate ProgressOk(s: State, e: EmployeeId, phase: Phase)
    requires e in s.staff && e in s.directory
  {
    match phase
    case Disabled(_) => s.directory[e].enabled == !IsOff(s, e)
    case Cleared(Revoke, _, _) => s.directory[e].enabled == !IsOff(s, e)
    case Calling(call, _, _, landed) =>
      && (landed || call == Revoke ==> s.directory[e].enabled == !IsOff(s, e))
      && (landed && call == Revoke ==> !s.directory[e].sessions)
    case Done(applied) => applied && Settled(s, e)
    case _ => true
  }

  predicate Progress(s: State, id: RunId) {
    id in s.runs && id.row in s.rows && s.rows[id.row].key in s.directory && Current(s, id.row)
    ==> ProgressOk(s, s.rows[id.row].key, s.runs[id].phase)
  }

  /** A current task marked sent has done its work, and nothing has undone it. */
  predicate RowSettled(s: State, q: Seq) {
    q in s.rows && s.rows[q].status == Sent && Current(s, q) && s.rows[q].key in s.directory
    ==> Settled(s, s.rows[q].key)
  }

  /**
   The heart of it: once a current task has been claimed, every run whose decision is outdated has outlived
   its lease, so it can neither start a change nor still have one on the wire.
   */
  predicate OutdatedIsOver(s: State, q: Seq, id: RunId) {
    && q in s.rows && id in s.runs && id.row in s.rows
    && s.rows[q].claimed.Some? && Current(s, q)
    && s.rows[id.row].key == s.rows[q].key
    && DecidedAt(s.runs[id].phase).Some? && DecidedAt(s.runs[id].phase).value < s.rows[q].ver
    ==> s.runs[id].until <= s.now
  }

  predicate PairCalm(s: State, q: Seq, id: RunId) {
    RowSettled(s, q) && Progress(s, id) && OutdatedIsOver(s, q, id)
  }

  ghost predicate Calm(s: State) {
    forall q, id {:trigger PairCalm(s, q, id)} :: PairCalm(s, q, id)
  }

  /** Rows of one key committed in `seq` order. */
  ghost predicate CommittedInOrder(s: State) {
    forall q, r :: q in s.rows && r in s.rows && q < r && s.rows[q].key == s.rows[r].key ==> s.rows[q].ord < s.rows[r].ord
  }

  /** No call outlives the claim it was made under. */
  ghost predicate StraysOver(s: State) {
    forall id :: id in s.runs && s.runs[id].phase.Stray? ==> s.runs[id].until <= s.now
  }

  /** All that is known of a row and a run, and of the run's own row. */
  predicate Facts(s: State, q: Seq, id: RunId) {
    && RowOk(s, q) && RunOk(s, id) && RowOk(s, id.row) && RunTimed(s, id)
    && PairCalm(s, q, id) && PairCalm(s, id.row, id)
  }

  lemma Known(s: State, q: Seq, id: RunId)
    requires Inv(s) && Timed(s) && Calm(s)
    ensures Facts(s, q, id)
  {
    assert RowOk(s, q) && RunOk(s, id) && RowOk(s, id.row) && RunTimed(s, id);
    assert PairCalm(s, q, id) && PairCalm(s, id.row, id);
  }

  lemma ClockCalms(s: State, ms: nat)
    requires Inv(s) && Timed(s) && Calm(s)
    ensures Calm(s.(now := s.now + ms))
  {
    var t := s.(now := s.now + ms);
    forall q, id ensures PairCalm(t, q, id) { Known(s, q, id); }
  }

  lemma SignInCalms(s: State, e: EmployeeId)
    requires Inv(s) && Timed(s) && Calm(s) && e in s.directory && s.directory[e].enabled
    ensures Calm(s.(directory := s.directory[e := s.directory[e].(sessions := true)]))
  {
    var t := s.(directory := s.directory[e := s.directory[e].(sessions := true)]);
    forall q, id ensures PairCalm(t, q, id) { Known(s, q, id); }
  }

  /** A change that crosses `Offboarded` makes every row outdated. */
  lemma WriteStatusCalms(s: State, e: EmployeeId, to: EmployeeStatus)
    requires Inv(s) && Timed(s) && Calm(s) && e in s.staff
    ensures Calm(WriteStatus(s, e, to)) && Timed(WriteStatus(s, e, to))
  {
    var t := WriteStatus(s, e, to);
    forall q, id ensures PairCalm(t, q, id) && RunTimed(t, id) { Known(s, q, id); }
    forall id ensures RunTimed(t, id) { assert PairCalm(t, 0, id); }
  }

  lemma EnqueueCalms(s: State, e: EmployeeId, q0: Seq)
    requires Inv(s) && Timed(s) && Calm(s) && e in s.staff && q0 !in s.rows
    ensures Calm(Enqueue(s, e, q0))
  {
    var t := Enqueue(s, e, q0);
    forall q, id ensures PairCalm(t, q, id) { Known(s, q, id); }
  }

  lemma WriteAndEnqueueCalm(s: State, e: EmployeeId, to: EmployeeStatus, q: Seq)
    requires Inv(s) && Timed(s) && Calm(s) && e in s.staff && q !in s.rows
    ensures Calm(WriteStatus(s, e, to)) && Calm(Enqueue(s, e, q)) && Calm(Enqueue(WriteStatus(s, e, to), e, q))
  {
    WriteStatusKeeps(s, e, to);
    WriteStatusCalms(s, e, to);
    EnqueueCalms(s, e, q);
    EnqueueCalms(WriteStatus(s, e, to), e, q);
  }

  /** When `q` is claimed, no run for its person still has a call that counts. */
  lemma NothingOutlivesAClaim(s: State, asOf: int, q: Seq, id: RunId)
    requires Inv(s) && Timed(s) && (StraysOver(s) || CommittedInOrder(s))
    requires asOf <= s.now && Claimable(s, q, asOf)
    requires id in s.runs && id.row in s.rows && s.rows[id.row].key == s.rows[q].key
    ensures s.runs[id].until <= s.now
  {
    assert RunTimed(s, id) && RowOk(s, id.row) && RunOk(s, id);
    assert !Blocks(s, id.row, q, asOf);
    assert ClaimedInOrder(s, q, id.row);
  }

  lemma ClaimCalms(b: Bounds, s: State, batch: set<Seq>, asOf: int)
    requires Inv(s) && Timed(s) && Calm(s) && Enabled(b, s, Claim(batch, asOf))
    requires StraysOver(s) || CommittedInOrder(s)
    ensures Calm(AfterClaim(s, batch))
  {
    forall q, id ensures PairCalm(AfterClaim(s, batch), q, id) {
      Known(s, q, id);
      if q in batch && id in s.runs && id.row in s.rows && s.rows[id.row].key == s.rows[q].key {
        NothingOutlivesAClaim(s, asOf, q, id);
      }
    }
  }

  lemma RowStepCalms(b: Bounds, s: State, step: Step)
    requires Inv(s) && Timed(s) && Calm(s) && Enabled(b, s, step) && (step.Reap? || step.Renew?)
    ensures Calm(Apply(s, step))
  {
    forall q, id ensures PairCalm(Apply(s, step), q, id) { Known(s, q, id); }
  }

  /** A run moves on with the decision it had, a fresh one or none, having brought the account as far as that says. */
  lemma PhaseCalms(s: State, id0: RunId, phase: Phase)
    requires Inv(s) && Timed(s) && Calm(s) && id0 in s.runs && Progress(At(s, id0, phase), id0)
    requires DecidedAt(phase).Some? ==>
               || DecidedAt(phase) == DecidedAt(s.runs[id0].phase)
               || (id0.row in s.rows && s.rows[id0.row].key in s.staff
                   && DecidedAt(phase).value == s.staff[s.rows[id0.row].key].ver)
    ensures Calm(At(s, id0, phase))
  {
    var t := At(s, id0, phase);
    forall q, id ensures PairCalm(t, q, id) { Known(s, q, id); }
  }

  lemma WorkCalms(b: Bounds, s: State, step: Step)
    requires Inv(s) && Timed(s) && Calm(s) && Enabled(b, s, step)
    requires step.Look? || step.Confirm? || step.Check? || step.Start? || step.Answer? || step.Refuse? || step.Throw?
    ensures Calm(Apply(s, step))
  {
    Known(s, step.id.row, step.id);
    PhaseCalms(s, step.id, Apply(s, step).runs[step.id].phase);
  }

  /** A call that takes effect while a current task has been claimed carries the right decision. */
  lemma LandsRight(b: Bounds, s: State, id: RunId, q: Seq)
    requires Inv(s) && Timed(s) && Calm(s) && Enabled(b, s, Land(id))
    requires q in s.rows && Current(s, q) && s.rows[q].claimed.Some? && s.rows[q].key == s.rows[id.row].key
    ensures (Unlanded(s.runs[id].phase).value.call != Enable) == IsOff(s, s.rows[q].key)
  {
    Known(s, q, id);
  }

  lemma EffectCalms(b: Bounds, s: State, id0: RunId)
    requires Inv(s) && Timed(s) && Calm(s) && Enabled(b, s, Land(id0))
    ensures Calm(Affect(s, s.rows[id0.row].key, Unlanded(s.runs[id0].phase).value.call))
  {
    var e, call := s.rows[id0.row].key, Unlanded(s.runs[id0].phase).value.call;
    forall q, id ensures PairCalm(Affect(s, e, call), q, id) {
      Known(s, q, id);
      if q in s.rows && Current(s, q) && s.rows[q].claimed.Some? && s.rows[q].key == e {
        LandsRight(b, s, id0, q);
      }
      if id.row in s.rows && Current(s, id.row) && s.rows[id.row].claimed.Some? && s.rows[id.row].key == e {
        LandsRight(b, s, id0, id.row);
      }
    }
  }

  lemma LandCalms(b: Bounds, s: State, id0: RunId)
    requires Inv(s) && Timed(s) && Calm(s) && Enabled(b, s, Land(id0))
    ensures Calm(AfterLand(s, id0))
  {
    EffectCalms(b, s, id0);
    var t := Affect(s, s.rows[id0.row].key, Unlanded(s.runs[id0].phase).value.call);
    Known(s, id0.row, id0);
    if Current(s, id0.row) {
      LandsRight(b, s, id0, id0.row);
    }
    forall q, id ensures PairCalm(AfterLand(s, id0), q, id) {
      assert PairCalm(t, q, id) && PairCalm(t, q, id0) && PairCalm(s, q, id0);
    }
  }

  /** What a finished run leaves on the wire is over no later than its lease was. */
  lemma LeaveCalms(s: State, id0: RunId)
    requires Calm(s) && RunTimed(s, id0) && (id0 in s.runs ==> id0.row in s.rows)
    ensures Calm(Leave(s, id0))
  {
    var t := Leave(s, id0);
    forall q, id ensures PairCalm(t, q, id) { assert PairCalm(s, q, id) && PairCalm(s, q, id0); }
  }

  /** A row may be given up or handed back at any time, and marked sent if its work is done. */
  lemma ReleaseCalms(s: State, q0: Seq, row: Row)
    requires Calm(s) && q0 in s.rows && Follows(s.rows[q0], row)
    requires row.status == Sent && Current(s, q0) && row.key in s.directory ==> Settled(s, row.key)
    ensures Calm(s.(rows := s.rows[q0 := row]))
  {
    var t := s.(rows := s.rows[q0 := row]);
    forall q, id ensures PairCalm(t, q, id) { assert PairCalm(s, q, id); }
  }

  lemma FinishCalms(s: State, id: RunId, write: Row -> Row)
    requires Inv(s) && Timed(s) && Calm(s) && id in s.runs
    requires Holds(s, id) ==> Follows(s.rows[id.row], write(s.rows[id.row]))
    requires Holds(s, id) ==> write(s.rows[id.row]).status == Sent ==> s.runs[id].phase.Done?
    ensures Calm(Finish(s, id, write))
  {
    Known(s, id.row, id);
    LeaveCalms(s, id);
    if Holds(s, id) {
      ReleaseCalms(Leave(s, id), id.row, write(s.rows[id.row]));
    }
  }

  lemma CalmKeeps(b: Bounds, s: State, step: Step)
    requires Timely(b) && Inv(s) && Timed(s) && Calm(s) && Enabled(b, s, step)
    requires StraysOver(s) || CommittedInOrder(s)
    ensures Calm(Apply(s, step))
  {
    match step
    case Claim(batch, asOf) => ClaimCalms(b, s, batch, asOf);
    case Reap(_, _) => RowStepCalms(b, s, step);
    case Renew(_) => RowStepCalms(b, s, step);
    case Land(id) => LandCalms(b, s, id);
    case FinishSent(id) =>
      Known(s, id.row, id);
      FinishCalms(s, id, (row: Row) => row.(status := Sent, lease := None));
    case FinishFailed(id, hint) =>
      Known(s, id.row, id);
      FinishCalms(s, id, (row: Row) => Retried(row, s.runs[id].phase.retryable, s.now, hint));
    case Tick(ms) => ClockCalms(s, ms);
    case SetStatus(e, seen, to, q) => WriteAndEnqueueCalm(s, e, to, q);
    case ApproveOffboarding(e, q) => WriteAndEnqueueCalm(s, e, Offboarded, q);
    case ApproveOnboarding(e, q) => EnqueueCalms(s, e, q);
    case SignIn(e) => SignInCalms(s, e);
    case _ => WorkCalms(b, s, step);
  }

  /** Handing a row back late enough leaves no stray call that counts. */
  lemma StraysStayOver(b: Bounds, s: State, step: Step)
    requires Timely(b) && b.retry >= GRAPH_CALL_TIMEOUT_MS && StraysOver(s) && Enabled(b, s, step)
    ensures StraysOver(Apply(s, step))
  {
    forall id | id in Apply(s, step).runs && Apply(s, step).runs[id].phase.Stray?
      ensures Apply(s, step).runs[id].until <= Apply(s, step).now
    {
      StrayIsOver(b, s, step, id);
    }
  }

  /** Only recording a failure leaves a call behind. */
  lemma OnlyAFailureStrays(b: Bounds, s: State, step: Step, id: RunId)
    requires Enabled(b, s, step) && !step.FinishFailed?
    requires id in Apply(s, step).runs && Apply(s, step).runs[id].phase.Stray?
    ensures id in s.runs && Apply(s, step).runs[id] == s.runs[id]
  {
  }

  lemma StrayIsOver(b: Bounds, s: State, step: Step, id: RunId)
    requires Timely(b) && b.retry >= GRAPH_CALL_TIMEOUT_MS && Enabled(b, s, step)
    requires id in s.runs && s.runs[id].phase.Stray? ==> s.runs[id].until <= s.now
    requires id in Apply(s, step).runs && Apply(s, step).runs[id].phase.Stray?
    ensures Apply(s, step).runs[id].until <= Apply(s, step).now
  {
    if !step.FinishFailed? {
      OnlyAFailureStrays(b, s, step, id);
      ClockGoesOn(s, step);
    }
  }

  lemma ClockGoesOn(s: State, step: Step)
    ensures s.now <= Apply(s, step).now
  {
  }

  lemma OrderStays(b: Bounds, s: State, step: Step)
    requires b.ordered && Inv(s) && CommittedInOrder(s) && Enabled(b, s, step)
    ensures CommittedInOrder(Apply(s, step))
  {
    forall q | q in s.rows ensures RowOk(s, q) && SameRow(s, Apply(s, step), q) { RowsStay(b, s, step, q); }
    forall r | r in Apply(s, step).rows && r !in s.rows ensures LastRow(s, Apply(s, step), r) { NewRow(b, s, step, r); }
    LaterRowsCommitLater(s, Apply(s, step));
  }

  predicate SameRow(s: State, t: State, q: Seq)
    requires q in s.rows
  {
    q in t.rows && t.rows[q].key == s.rows[q].key && t.rows[q].ord == s.rows[q].ord
  }

  /** `r` is the one row that `t` has more than `s`, after all those of its key. */
  ghost predicate LastRow(s: State, t: State, r: Seq)
    requires r in t.rows
  {
    && t.rows[r].ord == s.commits
    && (forall q :: q in s.rows && s.rows[q].key == t.rows[r].key ==> q < r)
    && (forall q :: q in t.rows && q !in s.rows ==> q == r)
  }

  lemma NewRow(b: Bounds, s: State, step: Step, r: Seq)
    requires b.ordered && Enabled(b, s, step) && r in Apply(s, step).rows && r !in s.rows
    ensures LastRow(s, Apply(s, step), r)
  {
  }

  lemma LaterRowsCommitLater(s: State, t: State)
    requires CommittedInOrder(s)
    requires forall q :: q in s.rows ==> RowOk(s, q) && SameRow(s, t, q)
    requires forall r :: r in t.rows && r !in s.rows ==> LastRow(s, t, r)
    ensures CommittedInOrder(t)
  {
    forall q, r | q in t.rows && r in t.rows && q < r && t.rows[q].key == t.rows[r].key
      ensures t.rows[q].ord < t.rows[r].ord
    {
      if q in s.rows { assert RowOk(s, q) && SameRow(s, t, q); }
      if r in s.rows { assert SameRow(s, t, r); }
    }
  }

  /** The bounds under which the account follows the employee. */
  predicate Safe(b: Bounds) {
    Timely(b) && (b.ordered || b.retry >= GRAPH_CALL_TIMEOUT_MS)
  }

  /** Every run within the bounds keeps all of it. */
  lemma {:induction false} RunKeeps(b: Bounds, s: State, steps: seq<Step>)
    requires Safe(b) && Init(s) && Legal(b, s, steps)
    ensures var t := After(s, steps);
            && Inv(t) && Timed(t) && Calm(t)
            && (b.ordered ==> CommittedInOrder(t)) && (b.retry >= GRAPH_CALL_TIMEOUT_MS ==> StraysOver(t))
  {
    OnTime(b, s, steps);
    if steps != [] {
      var before, step := After(s, steps[..|steps| - 1]), steps[|steps| - 1];
      RunKeeps(b, s, steps[..|steps| - 1]);
      CalmKeeps(b, before, step);
      if b.ordered {
        OrderStays(b, before, step);
      }
      if b.retry >= GRAPH_CALL_TIMEOUT_MS {
        StraysStayOver(b, before, step);
      }
    }
  }
}
