/**
 What the steps of the protocol come to, seen from outside: which rows, runs and tasks there are after them, and
 what becomes of a row over its whole life.
 */
module GraphOutboxSteps {
  import opened Wrappers
  import opened GraphTask
  import opened GraphOutbox
  import opened GraphOutboxSafety
  import opened GraphOutboxTiming
  import opened GraphOutboxCalm
  import opened GraphOutboxOrder

  // ── Retries ─────────────────────────────────────────────────────────────────

  function Pow2(n: nat): nat {
    if n == 0 then 1 else 2 * Pow2(n - 1)
  }

  function Least(x: nat, y: nat): nat {
    if x < y then x else y
  }

  lemma {:induction false} Pow2Grows(m: nat, n: nat)
    requires m <= n
    ensures Pow2(m) <= Pow2(n)
  {
    if m < n {
      Pow2Grows(m, n - 1);
    }
  }

  /** The wait after the n-th attempt is 30 s doubled n - 1 times, and never over half an hour. */
  lemma {:induction false} BackoffDoubles(n: nat)
    requires n >= 1
    ensures BackoffMs(n) == Least(30_000 * Pow2(n - 1), 1_800_000)
  {
    if n > 7 {
      Pow2Grows(6, n - 1);
      assert Pow2(2) == 4 && Pow2(4) == 16 && Pow2(6) == 64;
    } else if n > 1 {
      BackoffDoubles(n - 1);
      assert Pow2(0) == 1 && Pow2(2) == 4 && Pow2(4) == 16;
    }
  }

  /** All of a row but what a finish may write. */
  predicate SameButFinished(was: Row, row: Row) {
    && row.key == was.key && row.attempts == was.attempts && row.ver == was.ver && row.ord == was.ord
    && row.claimed == was.claimed && row.lease.None?
  }

  /**
   A failure that its run may record: the row is dead-lettered if retrying cannot help or this was the fifth attempt,
   and if not it waits, for the doubled time or as long as the directory asked, up to an hour. No other row changes.
   */
  lemma FailureIsRecorded(b: Bounds, s: State, id: RunId, hint: nat)
    requires Inv(s) && Enabled(b, s, FinishFailed(id, hint)) && Holds(s, id)
    ensures var t := Apply(s, FinishFailed(id, hint));
            && t.rows.Keys == s.rows.Keys
            && (forall q :: q in s.rows && q != id.row ==> t.rows[q] == s.rows[q])
            && SameButFinished(s.rows[id.row], t.rows[id.row])
            && s.rows[id.row].attempts >= 1
            && var was, row := s.rows[id.row], t.rows[id.row];
               if !s.runs[id].phase.retryable || was.attempts == 5
               then row.status == Failed && row.due == was.due
               else
                 && row.status == Pending
                 && row.due - s.now >= Least(hint, 3_600_000)
                 && row.due - s.now >= Least(30_000 * Pow2(was.attempts - 1), 1_800_000)
                 && (|| row.due - s.now == Least(hint, 3_600_000)
                     || row.due - s.now == Least(30_000 * Pow2(was.attempts - 1), 1_800_000))
  {
    assert RowOk(s, id.row);
    assert RunOk(s, id);
    BackoffDoubles(s.rows[id.row].attempts);
  }

  // ── Rows ────────────────────────────────────────────────────────────────────

  /** A task done is marked sent by the run that holds its row; one that has lost it leaves every row as it was. */
  lemma DoneIsSent(b: Bounds, s: State, id: RunId)
    requires Inv(s) && Enabled(b, s, FinishSent(id))
    ensures var t := Apply(s, FinishSent(id));
            && id !in t.runs
            && (!Holds(s, id) ==> t.rows == s.rows)
            && (Holds(s, id) ==>
                  && t.rows.Keys == s.rows.Keys
                  && (forall q :: q in s.rows && q != id.row ==> t.rows[q] == s.rows[q])
                  && SameButFinished(s.rows[id.row], t.rows[id.row]) && t.rows[id.row].status == Sent)
  {
    assert RunOk(s, id);
  }

  /** A row abandoned with its last attempt spent is dead-lettered, so the tasks behind it can go on. */
  lemma AbandonedIsFailed(b: Bounds, s: State, q: Seq, asOf: int)
    requires Inv(s) && Enabled(b, s, Reap(q, asOf))
    ensures var t := Apply(s, Reap(q, asOf));
            && t.rows.Keys == s.rows.Keys && t.runs == s.runs
            && (forall r :: r in s.rows && r != q ==> t.rows[r] == s.rows[r])
            && SameButFinished(s.rows[q], t.rows[q]) && t.rows[q].status == Failed
    ensures forall r, at :: !Blocks(Apply(s, Reap(q, asOf)), q, r, at)
  {
  }

  /**
   A claim takes its rows for the sum of their leases: one token that no run has had, one attempt on each, and one
   run for each that waits its turn. Nothing else changes.
   */
  lemma AClaimTakesItsRows(b: Bounds, s: State, batch: set<Seq>, asOf: int, q: Seq)
    requires Inv(s) && Enabled(b, s, Claim(batch, asOf)) && q in s.rows
    ensures var t := Apply(s, Claim(batch, asOf));
            && q in t.rows
            && (q !in batch ==> t.rows[q] == s.rows[q])
            && (q in batch ==>
                  var id, until := RunId(q, s.tokens), s.now + |batch| * 150_000;
                  && id !in s.runs && id in t.runs && t.runs[id] == Run(Waiting, until) && Holds(t, id)
                  && t.rows[q].lease.value.until == until && t.rows[q].attempts == s.rows[q].attempts + 1
                  && t.rows[q].status == s.rows[q].status && t.rows[q].key == s.rows[q].key)
            && (forall id :: id in s.runs ==> id in t.runs && t.runs[id] == s.runs[id])
            && (forall id :: id in t.runs && id !in s.runs ==> id.row in batch && id.token == s.tokens)
            && |batch| <= 3
  {
    LeasesByKind();
    forall id | id in s.runs ensures id.token < s.tokens { assert RunOk(s, id); }
  }

  /** The replica that starts on a row takes it for a full lease from then, or leaves it if another has it. */
  lemma ARenewalIsAFullLease(b: Bounds, s: State, id: RunId)
    requires Inv(s) && Enabled(b, s, Renew(id))
    ensures var t := Apply(s, Renew(id));
            && (!Holds(s, id) ==> id !in t.runs && t.rows == s.rows)
            && (Holds(s, id) ==> id in t.runs && t.runs[id] == Run(Renewed, s.now + 150_000)
                                 && Holds(t, id) && t.rows[id.row].lease.value.until == s.now + 150_000)
  {
    LeasesByKind();
  }

  /**
   Among the pending tasks of a person, none of them leased, the first can be claimed as soon as it is due and has an
   attempt left; and no other can.
   */
  lemma TheFirstPendingIsClaimable(s: State, q: Seq, asOf: int)
    requires q in s.rows && s.rows[q].status == Pending
    requires forall r :: r in s.rows && s.rows[r].key == s.rows[q].key && s.rows[r].status == Pending ==>
               r >= q && NotLeased(s.rows[r], asOf)
    ensures Claimable(s, q, asOf) <==> s.rows[q].due <= asOf && s.rows[q].attempts < 5
    ensures forall r :: r != q && r in s.rows && s.rows[r].key == s.rows[q].key ==> !Claimable(s, r, asOf)
  {
    forall r | r != q && r in s.rows && s.rows[r].key == s.rows[q].key && s.rows[r].status == Pending
      ensures !Claimable(s, r, asOf)
    {
      assert Blocks(s, q, r, asOf);
    }
  }

  // ── Statuses and tasks ──────────────────────────────────────────────────────

  /** A new task: pending and due at once, for this person and nobody else, with nothing tried yet. */
  predicate IsNewTask(t: State, q: Seq, e: EmployeeId) {
    && q in t.rows && t.rows[q].key == e && t.rows[q].status == Pending && t.rows[q].attempts == 0
    && t.rows[q].due <= t.now && t.rows[q].lease.None?
  }

  /** What was there before a transaction is there after it. */
  predicate RowsKept(s: State, t: State) {
    forall q :: q in s.rows ==> q in t.rows && t.rows[q] == s.rows[q]
  }

  /**
   An update of a status, by the status it had read: it queues a task if and only if it offboards, again or for the
   first time, or takes the person out of `Offboarded`; it writes the status unless the one it had read was that one.
   */
  lemma AnUpdateQueues(b: Bounds, s: State, e: EmployeeId, seen: EmployeeStatus, to: EmployeeStatus, q: Seq)
    requires Enabled(b, s, SetStatus(e, seen, to, q))
    ensures var t := Apply(s, SetStatus(e, seen, to, q));
            && RowsKept(s, t) && t.runs == s.runs && t.directory == s.directory
            && (q in t.rows <==> to == Offboarded || (seen == Offboarded && to != Offboarded))
            && (q in t.rows ==> IsNewTask(t, q, e)) && (forall r :: r in t.rows && r !in s.rows ==> r == q)
            && e in t.staff && t.staff[e].status == (if seen == to then s.staff[e].status else to)
            && (forall f :: f in s.staff && f != e ==> f in t.staff && t.staff[f] == s.staff[f])
  {
  }

  /** An approved offboarding offboards and queues; an approved onboarding queues and leaves the status alone. */
  lemma AnApprovalQueues(b: Bounds, s: State, e: EmployeeId, q: Seq)
    requires CanCommit(b, s, e, q)
    ensures var t := Apply(s, ApproveOffboarding(e, q));
            && RowsKept(s, t) && IsNewTask(t, q, e) && e in t.staff && t.staff[e].status == Offboarded
            && t.runs == s.runs && t.directory == s.directory
            && (forall f :: f in s.staff && f != e ==> f in t.staff && t.staff[f] == s.staff[f])
    ensures var t := Apply(s, ApproveOnboarding(e, q));
            && RowsKept(s, t) && IsNewTask(t, q, e) && t.staff == s.staff
            && t.runs == s.runs && t.directory == s.directory
  {
  }

  // ── A replica at work ───────────────────────────────────────────────────────

  /**
   What a run finds out. Without a directory object there is nothing to do; an offboarded person is to be disabled; and
   of anyone else the status is read again, and if they have been offboarded since, nothing is enabled.
   */
  lemma WhatARunFindsOut(b: Bounds, s: State, id: RunId)
    requires Inv(s)
    ensures Enabled(b, s, Look(id)) ==>
              var e, next := s.rows[id.row].key, Apply(s, Look(id)).runs[id].phase;
              && (e !in s.directory <==> next == Done(false)) && (e !in s.directory <==> next.Done?)
              && (e in s.directory ==> next.Looked? && (next.off <==> s.staff[e].status == Offboarded))
    ensures Enabled(b, s, Confirm(id)) ==>
              var e, next := s.rows[id.row].key, Apply(s, Confirm(id)).runs[id].phase;
              && (next == Done(false) <==> s.staff[e].status == Offboarded)
              && (next.Confirmed? <==> s.staff[e].status != Offboarded)
  {
  }

  /**
   When a run may start a change: only with 40 s of its lease left, and then disable who was found offboarded, revoke
   after the disable was answered, enable who was found not offboarded twice.
   */
  lemma WhatARunMayStart(b: Bounds, s: State, id: RunId)
    requires id in s.runs
    ensures Enabled(b, s, Check(id)) <==>
              && s.runs[id].until - s.now >= 40_000
              && ((s.runs[id].phase.Looked? && s.runs[id].phase.off) || s.runs[id].phase.Confirmed? || s.runs[id].phase.Disabled?)
    ensures Enabled(b, s, Check(id)) ==>
              var phase, next := s.runs[id].phase, Apply(s, Check(id)).runs[id].phase;
              && next.Cleared? && next.at == s.now
              && (next.call == Disable <==> phase.Looked?) && (next.call == Enable <==> phase.Confirmed?)
              && (next.call == Revoke <==> phase.Disabled?)
  {
  }

  /** A call answered: after a disable the sessions are next, and any other call was the last. */
  lemma WhatAnAnswerLeads(b: Bounds, s: State, id: RunId)
    requires Enabled(b, s, Answer(id))
    ensures var phase, next := s.runs[id].phase, Apply(s, Answer(id)).runs[id].phase;
            && phase.landed && (next.Disabled? <==> phase.call == Disable) && (next.Done? <==> phase.call != Disable)
  {
  }

  /** A call can take effect once, before its deadline, and not after an error answer; a broken connection does not stop it. */
  lemma WhatFailureLeaves(b: Bounds, s: State, id: RunId, retryable: bool)
    requires Enabled(b, s, Throw(id, retryable)) || Enabled(b, s, Refuse(id, retryable))
    ensures Enabled(b, s, Refuse(id, retryable)) ==>
              var t := Apply(s, Refuse(id, retryable));
              t.runs[id].phase == Broken(retryable, None) && !Enabled(b, t, Land(id))
    ensures Enabled(b, s, Throw(id, retryable)) ==>
              var t := Apply(s, Throw(id, retryable));
              && t.runs[id].phase.Broken? && t.runs[id].phase.retryable == retryable
              && (Enabled(b, t, Land(id)) <==> Enabled(b, s, Land(id)))
              && (s.runs[id].phase.Calling? ==> retryable)
  {
  }

  /** What each call does, and does once: no other account changes, and no row. */
  lemma WhatACallDoes(b: Bounds, s: State, id: RunId)
    requires Enabled(b, s, Land(id))
    ensures var t, e := Apply(s, Land(id)), s.rows[id.row].key;
            var call := Unlanded(s.runs[id].phase).value.call;
            && t.rows == s.rows && t.directory.Keys == s.directory.Keys && !Enabled(b, t, Land(id))
            && (forall f :: f in s.directory && f != e ==> t.directory[f] == s.directory[f])
            && (call == Enable ==> t.directory[e].enabled && t.directory[e].sessions == s.directory[e].sessions)
            && (call == Disable ==> !t.directory[e].enabled && t.directory[e].sessions == s.directory[e].sessions)
            && (call == Revoke ==> !t.directory[e].sessions && t.directory[e].enabled == s.directory[e].enabled)
  {
  }

  /** No run is stuck: in every phase its next statement can run. */
  lemma NoRunIsStuck(b: Bounds, s: State, id: RunId)
    requires Inv(s) && id in s.runs
    ensures var phase := s.runs[id].phase;
            && (phase.Waiting? ==> Enabled(b, s, Renew(id)))
            && (phase.Renewed? ==> Enabled(b, s, Look(id)))
            && (phase.Looked? && !phase.off ==> Enabled(b, s, Confirm(id)))
            && (phase.Cleared? && s.now == phase.at ==> Enabled(b, s, Start(id)))
            && (phase.Calling? && phase.landed ==> Enabled(b, s, Answer(id)))
            && (phase.Done? ==> Enabled(b, s, FinishSent(id)))
            && (phase.Broken? && phase.open.None? ==> forall hint :: Enabled(b, s, FinishFailed(id, hint)))
  {
    assert RunOk(s, id);
  }

  /** And anything may break: a call may be refused or lost, what is lost may take effect, and other work may throw. */
  lemma AnythingMayBreak(b: Bounds, s: State, id: RunId, retryable: bool)
    requires Inv(s) && id in s.runs
    ensures var phase := s.runs[id].phase;
            && (phase.Calling? ==> Enabled(b, s, Throw(id, true)) && Enabled(b, s, Refuse(id, retryable)))
            && (phase.Looked? || phase.Confirmed? || phase.Done? ==> Enabled(b, s, Throw(id, retryable)))
  {
  }

  lemma WhatIsSentMayLand(b: Bounds, s: State, id: RunId, open: Open)
    requires Inv(s) && id in s.runs && Unlanded(s.runs[id].phase) == Some(open) && s.now < open.start + 30_000
    ensures Enabled(b, s, Land(id))
  {
    assert RunOk(s, id);
  }

  /** Nor is anything else: time passes, statuses change, whoever is enabled signs in, and what is abandoned is reaped. */
  lemma TheWorldGoesOn(b: Bounds, s: State, e: EmployeeId, q: Seq, ms: nat)
    requires e in s.staff && forall r :: r in s.rows ==> r < q
    ensures Enabled(b, s, Tick(ms)) && Apply(s, Tick(ms)) == s.(now := s.now + ms)
    ensures forall to :: Enabled(b, s, SetStatus(e, s.staff[e].status, to, q))
    ensures !b.current ==> forall seen, to :: Enabled(b, s, SetStatus(e, seen, to, q))
    ensures Enabled(b, s, ApproveOffboarding(e, q)) && Enabled(b, s, ApproveOnboarding(e, q))
    ensures e in s.directory && s.directory[e].enabled ==>
              Enabled(b, s, SignIn(e)) && Apply(s, SignIn(e)) == s.(directory := s.directory[e := Account(true, true)])
    ensures forall r :: r in s.rows && s.rows[r].status == Pending && s.rows[r].attempts >= 5 && NotLeased(s.rows[r], s.now) ==>
              Enabled(b, s, Reap(r, s.now))
    ensures forall batch: set<Seq> :: batch != {} && |batch| <= 3 && (forall r :: r in batch ==> Claimable(s, r, s.now)) ==>
              Enabled(b, s, Claim(batch, s.now))
  {
  }

  // ── A row's life ────────────────────────────────────────────────────────────

  /** How many claims of the run took `q`. */
  function ClaimsOf(steps: seq<Step>, q: Seq): nat {
    if steps == [] then 0
    else
      var last := steps[|steps| - 1];
      ClaimsOf(steps[..|steps| - 1], q) + if last.Claim? && q in last.batch then 1 else 0
  }

  /** An attempt is a claim, no more and no less; so no row is claimed more than five times. */
  lemma {:induction false} AttemptsAreClaims(b: Bounds, s: State, steps: seq<Step>, q: Seq)
    requires Init(s) && Legal(b, s, steps)
    ensures var t := After(s, steps);
            && (q in t.rows ==> t.rows[q].attempts == ClaimsOf(steps, q) <= 5)
            && (q !in t.rows ==> ClaimsOf(steps, q) == 0)
  {
    Holding(b, s, steps);
    if steps != [] {
      var n := |steps| - 1;
      Holding(b, s, steps[..n]);
      AttemptsAreClaims(b, s, steps[..n], q);
      OnlyClaimsCount(b, After(s, steps[..n]), steps[n], q);
    }
    assert RowOk(After(s, steps), q);
  }

  lemma OnlyClaimsCount(b: Bounds, s: State, step: Step, q: Seq)
    requires Inv(s) && Enabled(b, s, step)
    ensures q in s.rows ==> q in Apply(s, step).rows
    ensures q in s.rows ==>
              Apply(s, step).rows[q].attempts == s.rows[q].attempts + if step.Claim? && q in step.batch then 1 else 0
    ensures q !in s.rows ==> !(step.Claim? && q in step.batch)
    ensures q !in s.rows && q in Apply(s, step).rows ==> Apply(s, step).rows[q].attempts == 0
  {
    if step.Claim? && q in step.batch {
      assert Claimable(s, q, step.asOf);
    }
  }

  // ── Waiting in a batch ──────────────────────────────────────────────────────

  /** `id` waits its turn under a lease that has not lapsed. */
  predicate Waits(s: State, id: RunId, until: int) {
    && id in s.runs && s.runs[id] == Run(Waiting, until)
    && Holds(s, id) && s.rows[id.row].lease.value.until == until
  }

  lemma StillWaits(b: Bounds, s: State, step: Step, id: RunId, until: int)
    requires Inv(s) && Enabled(b, s, step) && Waits(s, id, until) && Actor(step) != Some(id)
    requires Apply(s, step).now < until
    ensures Waits(Apply(s, step), id, until)
  {
    OnlyTheHolderChangesARow(b, s, step, id.row);
    assert RunOk(s, id);
  }

  /**
   A row that waits behind others in its batch is not taken by anyone, whatever happens, until the sum of the batch's
   leases has passed since the claim.
   */
  lemma {:induction false} HeldWhileItWaits(b: Bounds, s: State, steps: seq<Step>, id: RunId, until: int)
    requires Inv(s) && Waits(s, id, until) && Legal(b, s, steps)
    requires forall i :: 0 <= i < |steps| ==> Actor(steps[i]) != Some(id)
    requires After(s, steps).now < until
    ensures Inv(After(s, steps)) && Waits(After(s, steps), id, until)
  {
    if steps != [] {
      var n := |steps| - 1;
      ClockGoesOn(After(s, steps[..n]), steps[n]);
      HeldWhileItWaits(b, s, steps[..n], id, until);
      StepKeeps(b, After(s, steps[..n]), steps[n]);
      StillWaits(b, After(s, steps[..n]), steps[n], id, until);
    }
  }

  /** So the k-th row of a batch, each before it worked within 150 s, is still held when its turn comes. */
  lemma TheTurnComes(b: Bounds, s: State, batch: set<Seq>, asOf: int, q: Seq, steps: seq<Step>, k: nat)
    requires Inv(s) && Enabled(b, s, Claim(batch, asOf)) && q in batch && k < |batch|
    requires var t := Apply(s, Claim(batch, asOf));
             && Legal(b, t, steps) && After(t, steps).now <= s.now + k * 150_000
             && forall i :: 0 <= i < |steps| ==> Actor(steps[i]) != Some(RunId(q, s.tokens))
    ensures var u := After(Apply(s, Claim(batch, asOf)), steps);
            Holds(u, RunId(q, s.tokens)) && Enabled(b, u, Renew(RunId(q, s.tokens)))
  {
    assert Claimable(s, q, asOf);
    AClaimTakesItsRows(b, s, batch, asOf, q);
    StepKeeps(b, s, Claim(batch, asOf));
    HeldWhileItWaits(b, Apply(s, Claim(batch, asOf)), steps, RunId(q, s.tokens), s.now + |batch| * 150_000);
  }
}
