/**
 What the account-task protocol guarantees over whole runs, and the exact bounds under which it does.
 */
module GraphOutboxTheorems {
  import opened Wrappers
  import opened GraphTask
  import opened GraphOutbox
  import opened GraphOutboxSafety
  import opened GraphOutboxTiming
  import opened GraphOutboxCalm
  import opened GraphOutboxRuns
  import opened GraphOutboxOrder

  // ── A stale enable never sticks ─────────────────────────────────────────────

  /**
   Whatever the replicas, the retries, the lapsed leases and, if rows are handed back late enough, the order of
   commits: once a task committed at or after an employee's last crossing of `Offboarded` is marked sent, the
   account is enabled exactly when the employee is not offboarded, and an offboarded employee has no session left.
   */
  lemma StaleEnableNeverSticks(b: Bounds, t: State)
    requires Safe(b) && Reachable(b, t)
    ensures Converged(t)
  {
    var s, steps :| Init(s) && Legal(b, s, steps) && t == After(s, steps);
    RunKeeps(b, s, steps);
    forall q | q in t.rows && t.rows[q].status == Sent && Current(t, q) && t.rows[q].key in t.directory
      ensures Settled(t, t.rows[q].key)
    {
      assert PairCalm(t, q, RunId(q, 0));
    }
  }

  // ── What happens outside the bounds ─────────────────────────────────────────

  /** `r` is sent and knows that the employee is off; the account is enabled all the same. */
  predicate Stuck(t: State, r: Seq) {
    && r in t.rows && t.rows[r].key == E && t.rows[r].status == Sent
    && E in t.staff && IsOff(t, E) && t.rows[r].ver == t.staff[E].ver
    && E in t.directory && t.directory[E].enabled
  }

  lemma StuckIsNotConverged(t: State, r: Seq)
    requires Stuck(t, r)
    ensures !Converged(t) && (IsLast(t, r) ==> !LastSentSettles(t) && !LastSentLocksOut(t))
  {
    assert Current(t, r) && !Settled(t, E);
  }

  /** Two calls for `E` are in flight. */
  predicate Clash(t: State, x: RunId, y: RunId) {
    InFlight(t, x) && InFlight(t, y) && x != y && SamePerson(t, x, y)
  }

  /** A call in flight for `E`, made by a run of another claim, while `q` can be claimed. */
  predicate Exposed(u: State, q: Seq, x: RunId) {
    && Claimable(u, q, u.now) && u.rows[q].key == E && x.token < u.tokens
    && E in u.staff && E in u.directory && IsOff(u, E) && u.rows[q].ver == u.staff[E].ver
    && InFlight(u, x) && x.row in u.rows && u.rows[x.row].key == E
    && (forall id :: id in u.runs ==> id.token < u.tokens)
  }

  /** Claimed then, the offboarding task sends its disable while the old call is in flight. */
  lemma ExposedClashes(b: Bounds, u: State, q: Seq, x: RunId) returns (t: State, y: RunId)
    requires Leads(b, START, u) && Exposed(u, q, x)
    ensures Reachable(b, t) && Clash(t, x, y)
  {
    y := RunId(q, u.tokens);
    DisableCanBeSent(b, u, q);
    t := DisableSent(ClaimedAlone(u, q), y);
    Chain(b, START, u, t);
    LeadsIsReachable(b, t);
    BothInFlight(u, q, x);
  }

  lemma BothInFlight(u: State, q: Seq, x: RunId)
    requires Exposed(u, q, x)
    ensures Clash(DisableSent(ClaimedAlone(u, q), RunId(q, u.tokens)), x, RunId(q, u.tokens))
  {
    assert DisableSent(ClaimedAlone(u, q), RunId(q, u.tokens)).runs[x] == u.runs[x];
  }

  /** Or it is carried out, and the old call, an enable, takes effect after it. */
  lemma ExposedSticks(b: Bounds, u: State, q: Seq, x: RunId) returns (t: State)
    requires Leads(b, START, u) && Exposed(u, q, x)
    requires Unlanded(u.runs[x].phase).Some? && Unlanded(u.runs[x].phase).value.call == Enable
    ensures Reachable(b, t) && t.rows.Keys == u.rows.Keys && Stuck(t, q)
  {
    OffboardingCanBeDelivered(b, u, q);
    Chain(b, START, u, Delivered(u, q));
    Take(b, START, Delivered(u, q), Land(x));
    t := AfterLand(Delivered(u, q), x);
    LeadsIsReachable(b, t);
  }

  /** A run that gives its row up too early leaves its call exposed: for good on the last attempt, or out of order. */
  lemma GivenUpIsExposed(b: Bounds, q: Seq, r: Seq, n: nat) returns (u: State)
    requires n < MAX_ATTEMPTS && q != r && (b.ordered ==> q < r)
    requires n + 1 == MAX_ATTEMPTS || r < q
    requires WaitFor(b, n) < GRAPH_CALL_TIMEOUT_MS
    ensures Leads(b, START, u) && Exposed(u, r, RunId(q, n)) && u.rows.Keys == {q, r}
    ensures Unlanded(u.runs[RunId(q, n)].phase).Some? && Unlanded(u.runs[RunId(q, n)].phase).value.call == Enable
  {
    var start, due := CallCanBeGivenUp(b, q, r, n);
    u := GivenUp(q, r, start, due, n, WaitFor(b, n));
    assert Claimable(u, r, u.now);
  }

  /** Cleared with exactly 40 s of lease left and sent 10 001 ms later, an enable is in flight as the lease lapses. */
  lemma EnableCanOutliveItsLease(b: Bounds)
    requires b.pause > MUTATION_SAFETY_MARGIN_MS
    ensures Leads(b, START, Running(1, 150_000, 0, 0, Calling(Enable, 0, 120_001, false), LEASE_MS))
  {
    TaskCanBeQueued(b, 1);
    EnableCanBeDecided(b, 1, 0, 0, 0);
    Chain(b, START, Tried(1, 0, 0, 0), Running(1, 0, 0, 0, Confirmed(0), LEASE_MS));
    Go(b, START, Running(1, 0, 0, 0, Confirmed(0), LEASE_MS), Tick(110_000), Running(1, 110_000, 0, 0, Confirmed(0), LEASE_MS));
    var cleared, calling := Cleared(Enable, 0, 110_000), Calling(Enable, 0, 120_001, false);
    PhaseMoves(1, 110_000, 0, 0, Confirmed(0), cleared, LEASE_MS);
    Go(b, START, Running(1, 110_000, 0, 0, Confirmed(0), LEASE_MS), Check(RunId(1, 0)),
       Running(1, 110_000, 0, 0, cleared, LEASE_MS));
    Go(b, START, Running(1, 110_000, 0, 0, cleared, LEASE_MS), Tick(10_001), Running(1, 120_001, 0, 0, cleared, LEASE_MS));
    PhaseMoves(1, 120_001, 0, 0, cleared, calling, LEASE_MS);
    Go(b, START, Running(1, 120_001, 0, 0, cleared, LEASE_MS), Start(RunId(1, 0)),
       Running(1, 120_001, 0, 0, calling, LEASE_MS));
    Go(b, START, Running(1, 120_001, 0, 0, calling, LEASE_MS), Tick(29_999), Running(1, 150_000, 0, 0, calling, LEASE_MS));
  }

  /** The moment the employee is offboarded while that enable is still in flight. */
  const LAPSED := WithOffboarding(Running(1, 150_000, 0, 0, Calling(Enable, 0, 120_001, false), LEASE_MS), 2)

  lemma OffboardingCanFollowALapse(b: Bounds)
    requires b.pause > MUTATION_SAFETY_MARGIN_MS
    ensures Leads(b, START, LAPSED)
  {
    EnableCanOutliveItsLease(b);
    OffboardingFollows(b, 1, 150_000, 0, 0, Calling(Enable, 0, 120_001, false), LEASE_MS, 2);
    Go(b, START, Running(1, 150_000, 0, 0, Calling(Enable, 0, 120_001, false), LEASE_MS), ApproveOffboarding(E, 2), LAPSED);
  }

  /** The lapsed task can be claimed again, and carried out, with the old call still in flight. */
  lemma LapsedIsExposed(b: Bounds) returns (u: State)
    requires b.pause > MUTATION_SAFETY_MARGIN_MS
    ensures Leads(b, START, u) && Exposed(u, 2, RunId(1, 0)) && u.rows.Keys == {1, 2}
    ensures Unlanded(u.runs[RunId(1, 0)].phase).Some? && Unlanded(u.runs[RunId(1, 0)].phase).value.call == Enable
  {
    OffboardingCanFollowALapse(b);
    assert Claimable(LAPSED, 1, LAPSED.now);
    OffboardingCanBeDelivered(b, LAPSED, 1);
    u := Delivered(LAPSED, 1);
    Chain(b, START, LAPSED, u);
    assert Claimable(u, 2, u.now);
  }

  /** With a longer pause the stale enable sticks: both tasks are sent, and then the old call lands. */
  lemma LongPauseLetsItStick(b: Bounds) returns (t: State)
    requires b.pause > MUTATION_SAFETY_MARGIN_MS
    ensures Reachable(b, t) && t.rows.Keys == {1, 2} && Stuck(t, 2)
  {
    var u := LapsedIsExposed(b);
    t := ExposedSticks(b, u, 2, RunId(1, 0));
  }

  /** Dead-lettered too early it sticks too: the next task is sent, and then the call that broke takes effect. */
  lemma EarlyDeadLetterLetsItStick(b: Bounds) returns (t: State)
    requires b.dead < GRAPH_CALL_TIMEOUT_MS
    ensures Reachable(b, t) && t.rows.Keys == {1, 2} && Stuck(t, 2)
  {
    var u := GivenUpIsExposed(b, 1, 2, MAX_ATTEMPTS - 1);
    t := ExposedSticks(b, u, 2, RunId(1, MAX_ATTEMPTS - 1));
  }

  /** And handed back too early, if a task with a smaller `seq` commits late. */
  lemma EarlyRetryLetsItStick(b: Bounds) returns (t: State)
    requires b.retry < GRAPH_CALL_TIMEOUT_MS && !b.ordered
    ensures Reachable(b, t) && Stuck(t, 1)
  {
    var u := GivenUpIsExposed(b, 2, 1, 0);
    t := ExposedSticks(b, u, 1, RunId(2, 0));
  }

  /** An onboarding's enable has landed. */
  lemma EnableCanLand(b: Bounds, q: Seq)
    ensures Leads(b, START, Running(q, 0, 0, 0, Calling(Enable, 0, 0, true), LEASE_MS))
  {
    TaskCanBeQueued(b, q);
    EnableCanBeSent(b, q, 0, 0, 0);
    var calling := Running(q, 0, 0, 0, Calling(Enable, 0, 0, false), LEASE_MS);
    Chain(b, START, Tried(q, 0, 0, 0), calling);
    LandsOnTheEnabled(q);
    Go(b, START, calling, Land(RunId(q, 0)), Running(q, 0, 0, 0, Calling(Enable, 0, 0, true), LEASE_MS));
  }

  /** The state after that onboarding is marked sent. */
  function Onboarded(q: Seq): State {
    Tried(q, 0, 0, 1).(rows := map[q := Row(E, Sent, 1, 0, None, 0, 0, Some(Claimed(1, 0)))])
  }

  lemma EnableCanBeAnswered(b: Bounds, q: Seq)
    ensures Leads(b, START, Running(q, 0, 0, 0, Done(true), LEASE_MS))
  {
    EnableCanLand(b, q);
    PhaseMoves(q, 0, 0, 0, Calling(Enable, 0, 0, true), Done(true), LEASE_MS);
    Go(b, START, Running(q, 0, 0, 0, Calling(Enable, 0, 0, true), LEASE_MS), Answer(RunId(q, 0)),
       Running(q, 0, 0, 0, Done(true), LEASE_MS));
  }

  lemma EnableCanBeDelivered(b: Bounds, q: Seq)
    ensures Leads(b, START, Onboarded(q))
  {
    EnableCanBeAnswered(b, q);
    var id, done := RunId(q, 0), Running(q, 0, 0, 0, Done(true), LEASE_MS);
    assert Apply(done, FinishSent(id)).runs == map[];
    assert Apply(done, FinishSent(id)).rows == Onboarded(q).rows;
    Go(b, START, done, FinishSent(id), Onboarded(q));
  }

  lemma LandsOnTheEnabled(q: Seq)
    ensures AfterLand(Running(q, 0, 0, 0, Calling(Enable, 0, 0, false), LEASE_MS), RunId(q, 0))
         == Running(q, 0, 0, 0, Calling(Enable, 0, 0, true), LEASE_MS)
  {
    var s, t := Running(q, 0, 0, 0, Calling(Enable, 0, 0, false), LEASE_MS), Running(q, 0, 0, 0, Calling(Enable, 0, 0, true), LEASE_MS);
    assert AfterLand(s, RunId(q, 0)).directory == t.directory;
    assert AfterLand(s, RunId(q, 0)).runs == t.runs;
  }

  /** Out of order, the last task can be sent and not know of an offboarding whose `seq` is smaller. */
  lemma LateCommitIsMissed(b: Bounds) returns (t: State)
    requires !b.ordered
    ensures Reachable(b, t) && !LastSentSettles(t) && !LastSentLocksOut(t)
  {
    EnableCanBeDelivered(b, 2);
    t := WithOffboarding(Onboarded(2), 1);
    Go(b, START, Onboarded(2), ApproveOffboarding(E, 1), t);
    assert IsLast(t, 2) && t.rows[2].status == Sent && !Settled(t, E);
    LeadsIsReachable(b, t);
  }

  /** A replica stalls until its lease lapses, and then an offboarding whose `seq` is smaller commits. */
  const OVERDUE := WithOffboarding(Running(1, 150_000, 0, 0, Waiting, LEASE_MS), 0)

  lemma ClaimCanLapse(b: Bounds)
    ensures Leads(b, START, Running(1, 150_000, 0, 0, Waiting, LEASE_MS))
  {
    TaskCanBeQueued(b, 1);
    TaskCanBeClaimed(b, 1, 0, 0, 0);
    Chain(b, START, Tried(1, 0, 0, 0), Running(1, 0, 0, 0, Waiting, LEASE_MS));
    Go(b, START, Running(1, 0, 0, 0, Waiting, LEASE_MS), Tick(150_000), Running(1, 150_000, 0, 0, Waiting, LEASE_MS));
  }

  lemma ClaimCanGoStale(b: Bounds)
    requires !b.ordered
    ensures Leads(b, START, OVERDUE)
  {
    ClaimCanLapse(b);
    OffboardingFollows(b, 1, 150_000, 0, 0, Waiting, LEASE_MS, 0);
    Go(b, START, Running(1, 150_000, 0, 0, Waiting, LEASE_MS), ApproveOffboarding(E, 0), OVERDUE);
  }

  /** The late task's disable is sent while the stalled replica still has its token on the other row. */
  lemma LateTaskCanCall(b: Bounds)
    requires !b.ordered
    ensures Leads(b, START, DisableSent(ClaimedAlone(OVERDUE, 0), RunId(0, 1)))
  {
    ClaimCanGoStale(b);
    assert Claimable(OVERDUE, 0, OVERDUE.now);
    DisableCanBeSent(b, OVERDUE, 0);
    Chain(b, START, OVERDUE, DisableSent(ClaimedAlone(OVERDUE, 0), RunId(0, 1)));
  }

  /**
   Out of order, calls overlap as well. Renewing a lease does not ask whether it had lapsed: an onboarding task is
   claimed and its replica stalls; an offboarding whose `seq` is smaller commits, and its task is claimed
   because the lapsed lease no longer blocks it; the stalled replica renews, and both call.
   */
  lemma LateCommitsOverlap(b: Bounds) returns (t: State, x: RunId, y: RunId)
    requires !b.ordered
    ensures Reachable(b, t) && Clash(t, x, y)
  {
    x, y := RunId(0, 1), RunId(1, 0);
    LateTaskCanCall(b);
    var u := DisableSent(ClaimedAlone(OVERDUE, 0), x);
    LateTaskIsInFlight();
    DisableCanStart(b, u, y);
    t := DisableSent(u, y);
    Chain(b, START, u, t);
    LeadsIsReachable(b, t);
    assert t.runs[x] == u.runs[x];
  }

  lemma LateTaskIsInFlight()
    ensures var u := DisableSent(ClaimedAlone(OVERDUE, 0), RunId(0, 1));
            && InFlight(u, RunId(0, 1)) && RunId(1, 0) in u.runs && u.runs[RunId(1, 0)].phase.Waiting? && Holds(u, RunId(1, 0))
            && SamePerson(u, RunId(0, 1), RunId(1, 0)) && u.rows[1].key == E && u.staff == OVERDUE.staff
            && u.directory == OVERDUE.directory
  {
  }

  /**
   An update that read `Active` before the offboarding committed then writes `OnLeave` over it, queues nothing,
   and the account stays disabled with every task sent.
   */
  lemma OutdatedSnapshotLosesAnEnable(b: Bounds) returns (t: State)
    requires !b.current
    ensures Reachable(b, t) && !LastSentSettles(t)
    ensures E in t.staff && E in t.directory && t.staff[E].ver > 0 && !IsOff(t, E) && !t.directory[E].enabled
    ensures forall q :: q in t.rows ==> t.rows[q].status == Sent
  {
    OffboardingCanBeCarriedOut(b);
    Take(b, START, CARRIED_OUT, SetStatus(E, Active, OnLeave, 2));
    t := Apply(CARRIED_OUT, SetStatus(E, Active, OnLeave, 2));
    assert IsLast(t, 1) && t.rows[1].status == Sent && !Settled(t, E);
    LeadsIsReachable(b, t);
  }

  /** The state after an offboarding has been approved and carried out at once. */
  const CARRIED_OUT := State(0, map[E := Person(Offboarded, 1)], map[E := Account(false, false)],
                             map[1 := Row(E, Sent, 1, 0, None, 1, 0, Some(Claimed(1, 0)))], map[], 1, 1)

  /** And before it is carried out. */
  const APPROVED := State(0, map[E := Person(Offboarded, 1)], map[E := Account(true, true)],
                          map[1 := Row(E, Pending, 0, 0, None, 1, 0, None)], map[], 0, 1)

  lemma OffboardingCanBeApproved(b: Bounds)
    ensures Leads(b, START, APPROVED)
  {
    Stay(b, START);
    assert Apply(START, ApproveOffboarding(E, 1)).rows == APPROVED.rows;
    Go(b, START, START, ApproveOffboarding(E, 1), APPROVED);
  }

  lemma OffboardingCanBeCarriedOut(b: Bounds)
    ensures Leads(b, START, CARRIED_OUT)
  {
    OffboardingCanBeApproved(b);
    assert Claimable(APPROVED, 1, 0);
    OffboardingCanBeDelivered(b, APPROVED, 1);
    Chain(b, START, APPROVED, Delivered(APPROVED, 1));
    assert Delivered(APPROVED, 1).rows == CARRIED_OUT.rows;
    assert Delivered(APPROVED, 1).directory == CARRIED_OUT.directory;
  }

  // ── The exact bounds ────────────────────────────────────────────────────────

  /** Outside the margins the protocol fails even when tasks commit in order and every read is current. */
  lemma MarginsAreNeeded(b: Bounds) returns (t: State)
    requires !Timely(b)
    ensures Reachable(b, t) && !Converged(t) && !LastSentSettles(t) && !LastSentLocksOut(t)
  {
    if b.pause > MUTATION_SAFETY_MARGIN_MS {
      t := LongPauseLetsItStick(b);
    } else {
      t := EarlyDeadLetterLetsItStick(b);
    }
    StuckIsNotConverged(t, 2);
  }

  /**
   Every run converges if and only if a replica waits no longer than the safety margin before it starts a call,
   and gives a row up no sooner than 30 s after a call it has no answer to: always when it dead-letters the row,
   and when it hands the row back unless tasks commit in order.
   */
  lemma ConvergenceIsExact(b: Bounds)
    ensures (forall t :: Reachable(b, t) ==> Converged(t)) <==>
            && b.pause <= MUTATION_SAFETY_MARGIN_MS && b.dead >= GRAPH_CALL_TIMEOUT_MS
            && (b.ordered || b.retry >= GRAPH_CALL_TIMEOUT_MS)
  {
    if Safe(b) {
      forall t | Reachable(b, t) ensures Converged(t) { StaleEnableNeverSticks(b, t); }
    } else if !Timely(b) {
      var t := MarginsAreNeeded(b);
    } else {
      var t := EarlyRetryLetsItStick(b);
      StuckIsNotConverged(t, 1);
    }
  }

  /** Every run locks out whoever is offboarded and has the last task sent, exactly within the margins and in order. */
  lemma LockoutIsExact(b: Bounds)
    ensures (forall t :: Reachable(b, t) ==> LastSentLocksOut(t)) <==>
            b.pause <= MUTATION_SAFETY_MARGIN_MS && b.dead >= GRAPH_CALL_TIMEOUT_MS && b.ordered
  {
    if Timely(b) && b.ordered {
      forall t | Reachable(b, t) ensures LastSentLocksOut(t) { OffboardedIsLockedOut(b, t); }
    } else if !Timely(b) {
      var t := MarginsAreNeeded(b);
    } else {
      var t := LateCommitIsMissed(b);
    }
  }

  /**
   Every run gives whoever has the last task sent the account that the status calls for, exactly within the
   margins, in order, and with every update of a status having read the current one.
   */
  lemma LastTaskSentIsExact(b: Bounds)
    ensures (forall t :: Reachable(b, t) ==> LastSentSettles(t)) <==>
            b.pause <= MUTATION_SAFETY_MARGIN_MS && b.dead >= GRAPH_CALL_TIMEOUT_MS && b.ordered && b.current
  {
    if Timely(b) && b.ordered && b.current {
      forall t | Reachable(b, t) ensures LastSentSettles(t) { LastSentMeansSettled(b, t); }
    } else if !Timely(b) {
      var t := MarginsAreNeeded(b);
    } else if !b.ordered {
      var t := LateCommitIsMissed(b);
    } else {
      var t := OutdatedSnapshotLosesAnEnable(b);
    }
  }

  /** No run has two calls for one person in flight together, exactly within the margins and in order. */
  lemma OverlapIsExact(b: Bounds)
    ensures (forall t :: Reachable(b, t) ==> NoOverlap(t)) <==>
            b.pause <= MUTATION_SAFETY_MARGIN_MS && b.dead >= GRAPH_CALL_TIMEOUT_MS && b.ordered
  {
    if Timely(b) && b.ordered {
      forall t | Reachable(b, t) ensures NoOverlap(t) { CallsNeverOverlap(b, t); }
    } else if b.pause > MUTATION_SAFETY_MARGIN_MS {
      var u := LapsedIsExposed(b);
      var t, y := ExposedClashes(b, u, 2, RunId(1, 0));
      assert !NoOverlap(t);
    } else if b.dead < GRAPH_CALL_TIMEOUT_MS {
      var u := GivenUpIsExposed(b, 1, 2, MAX_ATTEMPTS - 1);
      var t, y := ExposedClashes(b, u, 2, RunId(1, MAX_ATTEMPTS - 1));
      assert !NoOverlap(t);
    } else {
      var t, x, y := LateCommitsOverlap(b);
      assert !NoOverlap(t);
    }
  }
}
