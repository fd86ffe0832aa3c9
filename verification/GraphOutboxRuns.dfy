/**
 Runs that can happen: sequences of legal steps, put together from parts, and the ones that show which bounds
 the protocol cannot do without.
 */
module GraphOutboxRuns {
  import opened Wrappers
  import opened GraphTask
  import opened GraphOutbox

  // ── Building runs ───────────────────────────────────────────────────────────

  predicate Path(b: Bounds, s: State, steps: seq<Step>, t: State) {
    Legal(b, s, steps) && After(s, steps) == t
  }

  /** Some sequence of legal steps takes `s` to `t`. */
  ghost predicate Leads(b: Bounds, s: State, t: State) {
    exists steps :: Path(b, s, steps, t)
  }

  lemma Extend(b: Bounds, s: State, steps: seq<Step>, t: State, step: Step)
    requires Path(b, s, steps, t) && Enabled(b, t, step)
    ensures Path(b, s, steps + [step], Apply(t, step))
  {
    assert (steps + [step])[..|steps|] == steps;
  }

  lemma {:induction false} Join(b: Bounds, s: State, xs: seq<Step>, t: State, ys: seq<Step>, u: State)
    requires Path(b, s, xs, t) && Path(b, t, ys, u)
    ensures Path(b, s, xs + ys, u)
  {
    if ys == [] {
      assert xs + ys == xs;
    } else {
      var n := |ys| - 1;
      Join(b, s, xs, t, ys[..n], After(t, ys[..n]));
      Extend(b, s, xs + ys[..n], After(t, ys[..n]), ys[n]);
      assert xs + ys[..n] + [ys[n]] == xs + ys;
    }
  }

  lemma Stay(b: Bounds, s: State)
    ensures Leads(b, s, s)
  {
    assert Path(b, s, [], s);
  }

  lemma Chain(b: Bounds, s: State, t: State, u: State)
    requires Leads(b, s, t) && Leads(b, t, u)
    ensures Leads(b, s, u)
  {
    var xs :| Path(b, s, xs, t);
    var ys :| Path(b, t, ys, u);
    Join(b, s, xs, t, ys, u);
  }

  lemma Take(b: Bounds, s: State, t: State, step: Step)
    requires Leads(b, s, t) && Enabled(b, t, step)
    ensures Leads(b, s, Apply(t, step))
  {
    var xs :| Path(b, s, xs, t);
    Extend(b, s, xs, t, step);
  }

  lemma Go(b: Bounds, s: State, t: State, step: Step, u: State)
    requires Leads(b, s, t) && Enabled(b, t, step) && Apply(t, step) == u
    ensures Leads(b, s, u)
  {
    Take(b, s, t, step);
  }

  // ── An offboarding can always be carried out ────────────────────────────────

  /** A call just sent. */
  predicate Sending(s: State, id: RunId, call: Call) {
    && id in s.runs && s.runs[id].phase.Calling?
    && s.runs[id].phase.call == call && s.runs[id].phase.start == s.now && !s.runs[id].phase.landed
  }

  /** The state after claiming `q` alone. */
  function ClaimedAlone(s: State, q: Seq): State
    requires q in s.rows
  {
    var until := s.now + LEASE_MS;
    s.(rows := s.rows[q := s.rows[q].(attempts := s.rows[q].attempts + 1,
                                      lease := Some(Lease(s.tokens, until)), claimed := Some(Claimed(s.commits, s.tokens)))],
       runs := s.runs[RunId(q, s.tokens) := Run(Waiting, until)],
       tokens := s.tokens + 1)
  }

  lemma ClaimAloneIs(s: State, q: Seq)
    requires q in s.rows
    ensures AfterClaim(s, {q}) == ClaimedAlone(s, q)
  {
    assert AfterClaim(s, {q}).rows == ClaimedAlone(s, q).rows;
    assert AfterClaim(s, {q}).runs == ClaimedAlone(s, q).runs;
  }

  lemma ClaimAlone(b: Bounds, s: State, q: Seq)
    requires Claimable(s, q, s.now)
    ensures Leads(b, s, ClaimedAlone(s, q))
  {
    Stay(b, s);
    Take(b, s, s, Claim({q}, s.now));
    ClaimAloneIs(s, q);
  }

  /** A fresh lease on the run's row and a disable on its way. */
  function DisableSent(s: State, id: RunId): State
    requires id.row in s.rows && s.rows[id.row].key in s.staff
  {
    var until := s.now + LEASE_MS;
    s.(rows := s.rows[id.row := s.rows[id.row].(lease := Some(Lease(id.token, until)))],
       runs := s.runs[id := Run(Calling(Disable, s.staff[s.rows[id.row].key].ver, s.now, false), until)])
  }

  /** A replica with a claimed row of an offboarded employee renews and looks. */
  lemma OffboardedCanBeSeen(b: Bounds, s: State, id: RunId)
    requires id in s.runs && s.runs[id].phase.Waiting? && Holds(s, id)
    requires var e := s.rows[id.row].key; e in s.staff && e in s.directory && IsOff(s, e)
    ensures var until := s.now + LEASE_MS;
            Leads(b, s,
              s.(rows := s.rows[id.row := s.rows[id.row].(lease := Some(Lease(id.token, until)))],
                 runs := s.runs[id := Run(Looked(true, s.staff[s.rows[id.row].key].ver), until)]))
  {
    Stay(b, s);
    Take(b, s, s, Renew(id));
    var t := AfterRenew(s, id);
    Take(b, s, t, Look(id));
    assert AfterLook(t, id).runs == s.runs[id := AfterLook(t, id).runs[id]];
  }

  /** The state of a replica that has found its person offboarded and got as far as `phase`, under a fresh lease. */
  function Disabling(s: State, id: RunId, phase: Phase): State
    requires id.row in s.rows
  {
    var until := s.now + LEASE_MS;
    s.(rows := s.rows[id.row := s.rows[id.row].(lease := Some(Lease(id.token, until)))],
       runs := s.runs[id := Run(phase, until)])
  }

  lemma DisablingMoves(s: State, id: RunId, phase: Phase, next: Phase)
    requires id.row in s.rows
    ensures At(Disabling(s, id, phase), id, next) == Disabling(s, id, next)
  {
    assert At(Disabling(s, id, phase), id, next).runs == Disabling(s, id, next).runs;
  }

  /** It can then get as far as sending the disable. */
  lemma DisableCanStart(b: Bounds, s: State, id: RunId)
    requires id in s.runs && s.runs[id].phase.Waiting? && Holds(s, id)
    requires var e := s.rows[id.row].key; e in s.staff && e in s.directory && IsOff(s, e)
    ensures Leads(b, s, DisableSent(s, id))
  {
    OffboardedCanBeSeen(b, s, id);
    var ver := s.staff[s.rows[id.row].key].ver;
    var looked, cleared := Looked(true, ver), Cleared(Disable, ver, s.now);
    DisablingMoves(s, id, looked, cleared);
    Go(b, s, Disabling(s, id, looked), Check(id), Disabling(s, id, cleared));
    DisablingMoves(s, id, cleared, Calling(Disable, ver, s.now, false));
    Go(b, s, Disabling(s, id, cleared), Start(id), DisableSent(s, id));
  }

  /** From there the account can be disabled, and the disable answered. */
  lemma DisableCanBeAnswered(b: Bounds, s: State, id: RunId)
    requires Sending(s, id, Disable) && id.row in s.rows && s.rows[id.row].key in s.directory
    ensures var e := s.rows[id.row].key;
            Leads(b, s,
              s.(directory := s.directory[e := s.directory[e].(enabled := false)],
                 runs := s.runs[id := s.runs[id].(phase := Disabled(s.runs[id].phase.ver))]))
  {
    Stay(b, s);
    var t := s;
    Take(b, s, t, Land(id)); t := Apply(t, Land(id));
    Take(b, s, t, Answer(id)); t := Apply(t, Answer(id));
    assert t.runs == s.runs[id := t.runs[id]];
  }

  /** And the revoke sent. */
  lemma RevokeCanStart(b: Bounds, s: State, id: RunId)
    requires Sending(s, id, Disable) && s.runs[id].until == s.now + LEASE_MS
    requires id.row in s.rows && s.rows[id.row].key in s.directory
    ensures var e := s.rows[id.row].key;
            Leads(b, s,
              s.(directory := s.directory[e := s.directory[e].(enabled := false)],
                 runs := s.runs[id := s.runs[id].(phase := Calling(Revoke, s.runs[id].phase.ver, s.now, false))]))
  {
    DisableCanBeAnswered(b, s, id);
    var e := s.rows[id.row].key;
    var t := s.(directory := s.directory[e := s.directory[e].(enabled := false)],
                runs := s.runs[id := s.runs[id].(phase := Disabled(s.runs[id].phase.ver))]);
    Take(b, s, t, Check(id)); t := Apply(t, Check(id));
    Take(b, s, t, Start(id)); t := Apply(t, Start(id));
    assert t.runs == s.runs[id := t.runs[id]];
  }

  /** And then revoke the sessions and finish. */
  lemma RevokeCanFinish(b: Bounds, s: State, id: RunId)
    requires Sending(s, id, Revoke) && Holds(s, id) && s.rows[id.row].key in s.directory
    ensures var e := s.rows[id.row].key;
            Leads(b, s,
              s.(directory := s.directory[e := s.directory[e].(sessions := false)],
                 rows := s.rows[id.row := s.rows[id.row].(status := Sent, lease := None)],
                 runs := s.runs - {id}))
  {
    Stay(b, s);
    var t := s;
    Take(b, s, t, Land(id)); t := Apply(t, Land(id));
    Take(b, s, t, Answer(id)); t := Apply(t, Answer(id));
    Take(b, s, t, FinishSent(id)); t := Apply(t, FinishSent(id));
    assert t.runs == s.runs - {id};
  }

  /** The state after a replica has claimed a task of an offboarded employee and carried it out at once. */
  function Delivered(s: State, q: Seq): State
    requires q in s.rows
  {
    var row := s.rows[q];
    s.(directory := s.directory[row.key := Account(false, false)],
       rows := s.rows[q := row.(status := Sent, attempts := row.attempts + 1, lease := None, claimed := Some(Claimed(s.commits, s.tokens)))],
       tokens := s.tokens + 1)
  }

  /** The state after a disable just sent has landed, the sessions are revoked and the run has finished. */
  function DisableFinished(s: State, id: RunId): State
    requires id.row in s.rows
  {
    s.(directory := s.directory[s.rows[id.row].key := Account(false, false)],
       rows := s.rows[id.row := s.rows[id.row].(status := Sent, lease := None)],
       runs := s.runs - {id})
  }

  lemma DisableCanFinish(b: Bounds, s: State, id: RunId)
    requires Sending(s, id, Disable) && s.runs[id].until == s.now + LEASE_MS
    requires Holds(s, id) && s.rows[id.row].key in s.directory
    ensures Leads(b, s, DisableFinished(s, id))
  {
    var e := s.rows[id.row].key;
    RevokeCanStart(b, s, id);
    var t := s.(directory := s.directory[e := s.directory[e].(enabled := false)],
                runs := s.runs[id := s.runs[id].(phase := Calling(Revoke, s.runs[id].phase.ver, s.now, false))]);
    RevokeCanFinish(b, t, id);
    var u := t.(directory := t.directory[e := t.directory[e].(sessions := false)],
                rows := t.rows[id.row := t.rows[id.row].(status := Sent, lease := None)],
                runs := t.runs - {id});
    Chain(b, s, t, u);
    assert u.directory == DisableFinished(s, id).directory;
    assert u.runs == DisableFinished(s, id).runs;
  }

  lemma DeliveredInParts(s: State, q: Seq)
    requires q in s.rows && s.rows[q].key in s.staff && RunId(q, s.tokens) !in s.runs
    ensures DisableFinished(DisableSent(ClaimedAlone(s, q), RunId(q, s.tokens)), RunId(q, s.tokens)) == Delivered(s, q)
  {
    var t := DisableFinished(DisableSent(ClaimedAlone(s, q), RunId(q, s.tokens)), RunId(q, s.tokens));
    assert t.rows == Delivered(s, q).rows;
    assert t.runs == Delivered(s, q).runs;
  }

  /** No claimable offboarding task is stuck: some run carries it out at once. */
  lemma OffboardingCanBeDelivered(b: Bounds, s: State, q: Seq)
    requires Claimable(s, q, s.now) && RunId(q, s.tokens) !in s.runs
    requires var e := s.rows[q].key; e in s.staff && e in s.directory && IsOff(s, e)
    ensures Leads(b, s, Delivered(s, q))
  {
    var id := RunId(q, s.tokens);
    ClaimAlone(b, s, q);
    var t := ClaimedAlone(s, q);
    DisableCanStart(b, t, id);
    Chain(b, s, t, DisableSent(t, id));
    DisableCanFinish(b, DisableSent(t, id), id);
    DeliveredInParts(s, q);
    Chain(b, s, DisableSent(t, id), Delivered(s, q));
  }

  /** Nor is it kept from sending its disable by anything else that is on the wire. */
  lemma DisableCanBeSent(b: Bounds, s: State, q: Seq)
    requires Claimable(s, q, s.now)
    requires var e := s.rows[q].key; e in s.staff && e in s.directory && IsOff(s, e)
    ensures Leads(b, s, DisableSent(ClaimedAlone(s, q), RunId(q, s.tokens)))
  {
    var id := RunId(q, s.tokens);
    ClaimAlone(b, s, q);
    DisableCanStart(b, ClaimedAlone(s, q), id);
    Chain(b, s, ClaimedAlone(s, q), DisableSent(ClaimedAlone(s, q), id));
  }

  // ── One employee, one task, then another ────────────────────────────────────

  const E: EmployeeId := "e"

  /** One employee, active, with an account. */
  const START := State(0, map[E := Person(Active, 0)], map[E := Account(true, true)], map[], map[], 0, 0)

  lemma LeadsIsReachable(b: Bounds, t: State)
    requires Leads(b, START, t)
    ensures Reachable(b, t)
  {
    var steps :| Path(b, START, steps, t);
    assert Init(START) && Legal(b, START, steps) && t == After(START, steps);
  }

  /** One task, pending under `q`, that `n` claims have tried. */
  function Tried(q: Seq, now: int, due: int, n: nat): State {
    State(now, START.staff, START.directory,
      map[q := Row(E, Pending, n, due, None, 0, 0, if n == 0 then None else Some(Claimed(1, n - 1)))], map[], n, 1)
  }

  /** The same task, claimed once more by a run that has got as far as `phase`. */
  function Running(q: Seq, now: int, due: int, n: nat, phase: Phase, until: int): State {
    State(now, START.staff, START.directory,
      map[q := Row(E, Pending, n + 1, due, Some(Lease(n, until)), 0, 0, Some(Claimed(1, n)))],
      map[RunId(q, n) := Run(phase, until)], n + 1, 1)
  }

  /** The same, after an offboarding has queued a second task. */
  function WithOffboarding(s: State, r: Seq): State {
    s.(staff := map[E := Person(Offboarded, 1)],
       rows := s.rows[r := Row(E, Pending, 0, s.now, None, 1, 1, None)],
       commits := 2)
  }

  /** While the task is at work, the employee may be offboarded. */
  lemma OffboardingFollows(b: Bounds, q: Seq, now: int, due: int, n: nat, phase: Phase, until: int, r: Seq)
    requires q != r && (b.ordered ==> q < r)
    ensures var s := Running(q, now, due, n, phase, until);
            Enabled(b, s, ApproveOffboarding(E, r)) && Apply(s, ApproveOffboarding(E, r)) == WithOffboarding(s, r)
  {
  }

  lemma TaskCanBeQueued(b: Bounds, q: Seq)
    ensures Leads(b, START, Tried(q, 0, 0, 0))
  {
    Stay(b, START);
    Go(b, START, START, ApproveOnboarding(E, q), Tried(q, 0, 0, 0));
  }

  lemma TaskCanBeClaimed(b: Bounds, q: Seq, now: int, due: int, n: nat)
    requires due <= now && n < MAX_ATTEMPTS
    ensures Leads(b, Tried(q, now, due, n), Running(q, now, due, n, Waiting, now + LEASE_MS))
  {
    var s, t := Tried(q, now, due, n), Running(q, now, due, n, Waiting, now + LEASE_MS);
    assert Claimable(s, q, now);
    ClaimAlone(b, s, q);
    assert ClaimedAlone(s, q).rows == t.rows;
    assert ClaimedAlone(s, q).runs == t.runs;
  }

  /** Just claimed, the run renews a lease that is still whole. */
  lemma TaskCanBeRenewed(b: Bounds, q: Seq, now: int, due: int, n: nat)
    requires due <= now && n < MAX_ATTEMPTS
    ensures Leads(b, Tried(q, now, due, n), Running(q, now, due, n, Renewed, now + LEASE_MS))
  {
    TaskCanBeClaimed(b, q, now, due, n);
    var s, t := Running(q, now, due, n, Waiting, now + LEASE_MS), Running(q, now, due, n, Renewed, now + LEASE_MS);
    assert Apply(s, Renew(RunId(q, n))).rows == t.rows;
    assert Apply(s, Renew(RunId(q, n))).runs == t.runs;
    Go(b, Tried(q, now, due, n), s, Renew(RunId(q, n)), t);
  }

  /** Moving the run of a claimed task on changes its phase and nothing else. */
  lemma PhaseMoves(q: Seq, now: int, due: int, n: nat, phase: Phase, next: Phase, until: int)
    ensures At(Running(q, now, due, n, phase, until), RunId(q, n), next) == Running(q, now, due, n, next, until)
  {
    assert At(Running(q, now, due, n, phase, until), RunId(q, n), next).runs == Running(q, now, due, n, next, until).runs;
  }

  /** A run that breaks before it has called costs an attempt. */
  lemma TaskCanBreak(b: Bounds, q: Seq, now: int, due: int, n: nat)
    requires due <= now && n + 1 < MAX_ATTEMPTS
    ensures Leads(b, Tried(q, now, due, n), Tried(q, now, now + RetryDelayMs(n + 1, 0), n + 1))
  {
    TaskCanBeRenewed(b, q, now, due, n);
    var until := now + LEASE_MS;
    PhaseMoves(q, now, due, n, Renewed, Broken(true, None), until);
    Go(b, Tried(q, now, due, n), Running(q, now, due, n, Renewed, until), Throw(RunId(q, n), true),
       Running(q, now, due, n, Broken(true, None), until));
    FailureIsRecorded(b, q, now, due, n, until);
    Go(b, Tried(q, now, due, n), Running(q, now, due, n, Broken(true, None), until), FinishFailed(RunId(q, n), 0),
       Tried(q, now, now + RetryDelayMs(n + 1, 0), n + 1));
  }

  lemma FailureIsRecorded(b: Bounds, q: Seq, now: int, due: int, n: nat, until: int)
    requires n + 1 < MAX_ATTEMPTS
    ensures var s := Running(q, now, due, n, Broken(true, None), until);
            && Enabled(b, s, FinishFailed(RunId(q, n), 0))
            && Apply(s, FinishFailed(RunId(q, n), 0)) == Tried(q, now, now + RetryDelayMs(n + 1, 0), n + 1)
  {
    var t := Apply(Running(q, now, due, n, Broken(true, None), until), FinishFailed(RunId(q, n), 0));
    assert t.rows == Tried(q, now, now + RetryDelayMs(n + 1, 0), n + 1).rows;
    assert t.runs == map[];
  }

  /** So any number of attempts short of the last can be spent. */
  lemma {:induction false} TaskCanBeTried(b: Bounds, q: Seq, n: nat) returns (now: int, due: int)
    requires n < MAX_ATTEMPTS
    ensures due <= now && Leads(b, START, Tried(q, now, due, n))
  {
    if n == 0 {
      now, due := 0, 0;
      TaskCanBeQueued(b, q);
    } else {
      now, due := TaskCanBeTried(b, q, n - 1);
      TaskCanBreak(b, q, now, due, n - 1);
      var later := now + RetryDelayMs(n, 0);
      var s := Tried(q, now, later, n);
      Chain(b, START, Tried(q, now, due, n - 1), s);
      Go(b, START, s, Tick(RetryDelayMs(n, 0)), Tried(q, later, later, n));
      now, due := later, later;
    }
  }

  /** A claimed task is looked at twice, and an enable decided. */
  lemma EnableCanBeDecided(b: Bounds, q: Seq, now: int, due: int, n: nat)
    requires due <= now && n < MAX_ATTEMPTS
    ensures Leads(b, Tried(q, now, due, n), Running(q, now, due, n, Confirmed(0), now + LEASE_MS))
  {
    TaskCanBeRenewed(b, q, now, due, n);
    var s, id, until := Tried(q, now, due, n), RunId(q, n), now + LEASE_MS;
    PhaseMoves(q, now, due, n, Renewed, Looked(false, 0), until);
    Go(b, s, Running(q, now, due, n, Renewed, until), Look(id), Running(q, now, due, n, Looked(false, 0), until));
    PhaseMoves(q, now, due, n, Looked(false, 0), Confirmed(0), until);
    Go(b, s, Running(q, now, due, n, Looked(false, 0), until), Confirm(id), Running(q, now, due, n, Confirmed(0), until));
  }

  lemma EnableCanBeSent(b: Bounds, q: Seq, now: int, due: int, n: nat)
    requires due <= now && n < MAX_ATTEMPTS
    ensures Leads(b, Tried(q, now, due, n), Running(q, now, due, n, Calling(Enable, 0, now, false), now + LEASE_MS))
  {
    EnableCanBeDecided(b, q, now, due, n);
    var s, id, until := Tried(q, now, due, n), RunId(q, n), now + LEASE_MS;
    var cleared, calling := Cleared(Enable, 0, now), Calling(Enable, 0, now, false);
    PhaseMoves(q, now, due, n, Confirmed(0), cleared, until);
    Go(b, s, Running(q, now, due, n, Confirmed(0), until), Check(id), Running(q, now, due, n, cleared, until));
    PhaseMoves(q, now, due, n, cleared, calling, until);
    Go(b, s, Running(q, now, due, n, cleared, until), Start(id), Running(q, now, due, n, calling, until));
  }

  // ── A call given up on ──────────────────────────────────────────────────────

  /** An unanswered enable broke, an offboarding having queued task `r`, and `wait` has passed since it was sent. */
  function BrokenOff(q: Seq, r: Seq, start: int, due: int, n: nat, wait: nat): State {
    State(start + wait, map[E := Person(Offboarded, 1)], START.directory,
      map[q := Row(E, Pending, n + 1, due, Some(Lease(n, start + LEASE_MS)), 0, 0, Some(Claimed(1, n))),
          r := Row(E, Pending, 0, start, None, 1, 1, None)],
      map[RunId(q, n) := Run(Broken(true, Some(Open(Enable, 0, start))), start + LEASE_MS)], n + 1, 2)
  }

  /** The same, once the failure has been recorded: the call is left to itself. */
  function GivenUp(q: Seq, r: Seq, start: int, due: int, n: nat, wait: nat): State
    requires q != r
  {
    var s := BrokenOff(q, r, start, due, n, wait);
    s.(rows := s.rows[q := Retried(s.rows[q], true, s.now, 0)],
       runs := map[RunId(q, n) := Run(Stray(Open(Enable, 0, start)), start + GRAPH_CALL_TIMEOUT_MS)])
  }

  /** How long the bounds make a run wait before it gives its row up for good, or back. */
  function WaitFor(b: Bounds, n: nat): nat {
    if n + 1 >= MAX_ATTEMPTS then b.dead else b.retry
  }

  /** The task's enable is sent, and the employee offboarded. */
  lemma OffboardingCanFollow(b: Bounds, q: Seq, r: Seq, now: int, due: int, n: nat)
    requires due <= now && n < MAX_ATTEMPTS && q != r && (b.ordered ==> q < r)
    ensures Leads(b, Tried(q, now, due, n),
              WithOffboarding(Running(q, now, due, n, Calling(Enable, 0, now, false), now + LEASE_MS), r))
  {
    EnableCanBeSent(b, q, now, due, n);
    var sent := Running(q, now, due, n, Calling(Enable, 0, now, false), now + LEASE_MS);
    OffboardingFollows(b, q, now, due, n, Calling(Enable, 0, now, false), now + LEASE_MS, r);
    Go(b, Tried(q, now, due, n), sent, ApproveOffboarding(E, r), WithOffboarding(sent, r));
  }

  lemma CallCanBreak(b: Bounds, q: Seq, r: Seq, now: int, due: int, n: nat)
    requires due <= now && n < MAX_ATTEMPTS && q != r && (b.ordered ==> q < r)
    ensures Leads(b, Tried(q, now, due, n), BrokenOff(q, r, now, due, n, 0))
  {
    OffboardingCanFollow(b, q, r, now, due, n);
    var s := WithOffboarding(Running(q, now, due, n, Calling(Enable, 0, now, false), now + LEASE_MS), r);
    assert Apply(s, Throw(RunId(q, n), true)).runs == BrokenOff(q, r, now, due, n, 0).runs;
    assert s.rows == BrokenOff(q, r, now, due, n, 0).rows;
    Go(b, Tried(q, now, due, n), s, Throw(RunId(q, n), true), BrokenOff(q, r, now, due, n, 0));
  }

  lemma GivingUpIsRecorded(b: Bounds, q: Seq, r: Seq, start: int, due: int, n: nat)
    requires n < MAX_ATTEMPTS && q != r
    ensures var s := BrokenOff(q, r, start, due, n, WaitFor(b, n));
            && Enabled(b, s, FinishFailed(RunId(q, n), 0))
            && Apply(s, FinishFailed(RunId(q, n), 0)) == GivenUp(q, r, start, due, n, WaitFor(b, n))
  {
    var s := BrokenOff(q, r, start, due, n, WaitFor(b, n));
    assert Leave(s, RunId(q, n)).runs == GivenUp(q, r, start, due, n, WaitFor(b, n)).runs;
  }

  lemma CallCanBeGivenUp(b: Bounds, q: Seq, r: Seq, n: nat) returns (start: int, due: int)
    requires n < MAX_ATTEMPTS && q != r && (b.ordered ==> q < r)
    ensures Leads(b, START, GivenUp(q, r, start, due, n, WaitFor(b, n)))
  {
    start, due := TaskCanBeTried(b, q, n);
    CallCanBreak(b, q, r, start, due, n);
    var wait := WaitFor(b, n);
    Chain(b, START, Tried(q, start, due, n), BrokenOff(q, r, start, due, n, 0));
    Go(b, START, BrokenOff(q, r, start, due, n, 0), Tick(wait), BrokenOff(q, r, start, due, n, wait));
    GivingUpIsRecorded(b, q, r, start, due, n);
    Go(b, START, BrokenOff(q, r, start, due, n, wait), FinishFailed(RunId(q, n), 0), GivenUp(q, r, start, due, n, wait));
  }
}
