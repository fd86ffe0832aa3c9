/**
 The account-task protocol, as a state machine: the API's transactions, the worker replicas' claim, renewal
 and fenced finish, the calls to the directory, and time.

 One step is one SQL statement or transaction, one call started, one call taking effect, or time passing.
 Any number of replicas run at once, and a replica that pauses or dies simply takes no further step. A call on
 the wire is on its own: it may take effect until its deadline, whatever has become of the run that made it,
 unless the directory has answered.

 The fields `ver`, `ord` and `claimed` are history: no step reads them to decide anything.
 */
module GraphOutbox {
  import opened Wrappers
  import opened GraphTask

  type EmployeeId = string

  /** A row is identified by its `seq`, which the database never hands out twice. */
  type Seq = nat

  datatype EmployeeStatus = Active | OnLeave | Offboarded

  /** `ver` counts the changes that crossed `Offboarded`. */
  datatype Person = Person(status: EmployeeStatus, ver: nat)

  /** What the directory holds: may the account sign in, and is a refresh token still good. */
  datatype Account = Account(enabled: bool, sessions: bool)

  datatype OutboxStatus = Pending | Sent | Failed

  datatype Lease = Lease(token: nat, until: int)

  /**
   `ver` is the employee's version when the row committed, `ord` how many rows had committed before it, and
   `claimed` tells of its last claim.
   */
  datatype Row = Row(
    key: EmployeeId,
    status: OutboxStatus,
    attempts: nat,
    due: int,
    lease: Option<Lease>,
    ver: nat,
    ord: nat,
    claimed: Option<Claimed>)

  /** How many rows had committed at a claim, and the token it gave. */
  datatype Claimed = Claimed(commits: nat, token: nat)

  datatype Call = Enable | Disable | Revoke

  /** A call without an answer: what it does, the version it was decided at, and when it was sent. */
  datatype Open = Open(call: Call, ver: nat, start: int)

  /** Where a replica is with one row it claimed; every decision remembers the version it was read at. */
  datatype Phase =
    | Waiting                                              // claimed, behind earlier rows of the batch
    | Renewed                                              // own lease pushed out; about to deliver
    | Looked(off: bool, ver: nat)                          // first read of the status
    | Confirmed(ver: nat)                                  // second read: still not offboarded
    | Cleared(call: Call, ver: nat, at: int)               // enough lease was left at `at`
    | Calling(call: Call, ver: nat, start: int, landed: bool)
    | Disabled(ver: nat)                                   // the disable was answered; sessions are next
    | Done(applied: bool)                                  // delivered; about to finish
    | Broken(retryable: bool, open: Option<Open>)          // it threw; about to record that
    | Stray(left: Open)                                    // the run is over, but not the call it left behind

  /** A replica's run of one claim. `until` is the expiry it was last told. */
  datatype Run = Run(phase: Phase, until: int)

  datatype RunId = RunId(row: Seq, token: nat)

  datatype State = State(
    now: int,
    staff: map<EmployeeId, Person>,
    directory: map<EmployeeId, Account>,
    rows: map<Seq, Row>,
    runs: map<RunId, Run>,
    tokens: nat,
    commits: nat)

  const MAX_ATTEMPTS := 5
  const BATCH_SIZE := 3
  const MAX_RETRY_AFTER_MS := 3_600_000
  const LEASE_MS: nat := GraphLeaseMs(ACCOUNT_RECONCILE)

  // ── Reading the state ───────────────────────────────────────────────────────

  predicate IsOff(s: State, e: EmployeeId)
    requires e in s.staff
  {
    s.staff[e].status == Offboarded
  }

  /** The run still holds the fence on its row. */
  predicate Holds(s: State, id: RunId) {
    id.row in s.rows && s.rows[id.row].lease.Some? && s.rows[id.row].lease.value.token == id.token
  }

  predicate NotLeased(row: Row, asOf: int) {
    row.lease.None? || row.lease.value.until <= asOf
  }

  /** Another row keeps `q` from being claimed: it is earlier and pending, or it holds a live lease. */
  predicate Blocks(s: State, other: Seq, q: Seq, asOf: int) {
    && other in s.rows && q in s.rows && other != q
    && s.rows[other].key == s.rows[q].key
    && s.rows[other].status == Pending
    && (other < q || !NotLeased(s.rows[other], asOf))
  }

  predicate Claimable(s: State, q: Seq, asOf: int) {
    && q in s.rows
    && s.rows[q].status == Pending
    && s.rows[q].attempts < MAX_ATTEMPTS
    && s.rows[q].due <= asOf
    && NotLeased(s.rows[q], asOf)
    && (forall other {:trigger Blocks(s, other, q, asOf)} :: other in s.rows ==> !Blocks(s, other, q, asOf))
  }

  /** A retry waits 30 s, doubling, at most 30 min; a longer Retry-After is honoured up to an hour. */
  function BackoffMs(attempts: nat): nat {
    if attempts <= 1 then 30_000
    else if attempts > 7 then 1_800_000
    else var d := 2 * BackoffMs(attempts - 1); if d > 1_800_000 then 1_800_000 else d
  }

  function RetryDelayMs(attempts: nat, hint: nat): nat {
    var clamped := if hint > MAX_RETRY_AFTER_MS then MAX_RETRY_AFTER_MS else hint;
    if clamped > BackoffMs(attempts) then clamped else BackoffMs(attempts)
  }

  // ── Steps ───────────────────────────────────────────────────────────────────

  datatype Step =
    | Tick(ms: nat)
    | SetStatus(e: EmployeeId, seen: EmployeeStatus, to: EmployeeStatus, q: Seq)
    | ApproveOffboarding(e: EmployeeId, q: Seq)
    | ApproveOnboarding(e: EmployeeId, q: Seq)
    | SignIn(e: EmployeeId)
    | Claim(batch: set<Seq>, asOf: int)
    | Reap(q: Seq, asOf: int)
    | Renew(id: RunId)
    | Look(id: RunId)
    | Confirm(id: RunId)
    | Check(id: RunId)
    | Start(id: RunId)
    | Land(id: RunId)
    | Answer(id: RunId)
    | Refuse(id: RunId, retryable: bool)
    | Throw(id: RunId, retryable: bool)
    | FinishSent(id: RunId)
    | FinishFailed(id: RunId, hint: nat)

  /** The run a step belongs to; the API, the clock and a claim belong to none. */
  function Actor(step: Step): Option<RunId> {
    match step
    case Renew(id) => Some(id)
    case Look(id) => Some(id)
    case Confirm(id) => Some(id)
    case Check(id) => Some(id)
    case Start(id) => Some(id)
    case Land(id) => Some(id)
    case Answer(id) => Some(id)
    case Refuse(id, _) => Some(id)
    case Throw(id, _) => Some(id)
    case FinishSent(id) => Some(id)
    case FinishFailed(id, _) => Some(id)
    case _ => None
  }

  /** The call a run has made and has no answer to. */
  function Unanswered(phase: Phase): Option<Open> {
    match phase
    case Calling(call, ver, start, _) => Some(Open(call, ver, start))
    case Broken(_, open) => open
    case Stray(left) => Some(left)
    case _ => None
  }

  /** That call, if it has yet to take effect. */
  function Unlanded(phase: Phase): Option<Open> {
    if phase.Calling? && phase.landed then None else Unanswered(phase)
  }

  /** The run has a change to make next. */
  predicate IsAboutToChange(phase: Phase) {
    (phase.Looked? && phase.off) || phase.Confirmed? || phase.Disabled?
  }

  /**
   What a run is held to. `pause` is the longest a replica takes between reading the lease left and starting the
   call that reading allows; `dead` and `retry` are the shortest time from sending a call that stays unanswered
   to dead-lettering its row, or to handing it back; `ordered` is whether the tasks of one person commit in `seq`
   order; `current` whether every update of a status had read the status it then found.

   The source sees to none of these: any pause may happen, `dead` and `retry` are 0, and a transaction may commit
   late or have read early.
   */
  datatype Bounds = Bounds(pause: nat, dead: nat, retry: nat, ordered: bool, current: bool)

  /** `q` is a new `seq`, and `e` has no later one if tasks are to commit in order. */
  predicate CanCommit(b: Bounds, s: State, e: EmployeeId, q: Seq) {
    && e in s.staff && q !in s.rows
    && (b.ordered ==> forall r :: r in s.rows && s.rows[r].key == e ==> r < q)
  }

  /** Recording the failure of `id` would dead-letter its row. */
  predicate Exhausts(s: State, id: RunId)
    requires id in s.runs && s.runs[id].phase.Broken?
  {
    !s.runs[id].phase.retryable || (id.row in s.rows && s.rows[id.row].attempts >= MAX_ATTEMPTS)
  }

  /**
   When a step can be taken. A call takes effect before its deadline or not at all, and not once it is answered.
   A call that breaks without an answer is always retryable: only an answer says that retrying cannot help.
   */
  predicate Enabled(b: Bounds, s: State, step: Step) {
    match step
    case Tick(_) => true
    case SetStatus(e, seen, _, q) => CanCommit(b, s, e, q) && (b.current ==> seen == s.staff[e].status)
    case ApproveOffboarding(e, q) => CanCommit(b, s, e, q)
    case ApproveOnboarding(e, q) => CanCommit(b, s, e, q)
    case SignIn(e) => e in s.directory && s.directory[e].enabled
    case Claim(batch, asOf) =>
      && asOf <= s.now
      && batch != {} && |batch| <= BATCH_SIZE
      && (forall q :: q in batch ==> Claimable(s, q, asOf))
    case Reap(q, asOf) =>
      && asOf <= s.now
      && q in s.rows && s.rows[q].status == Pending && s.rows[q].attempts >= MAX_ATTEMPTS
      && NotLeased(s.rows[q], asOf)
    case Renew(id) => id in s.runs && s.runs[id].phase.Waiting?
    case Look(id) => id in s.runs && s.runs[id].phase.Renewed? && id.row in s.rows && s.rows[id.row].key in s.staff
    case Confirm(id) =>
      id in s.runs && s.runs[id].phase.Looked? && !s.runs[id].phase.off && id.row in s.rows && s.rows[id.row].key in s.staff
    case Check(id) =>
      id in s.runs && IsAboutToChange(s.runs[id].phase) && s.runs[id].until - s.now >= MIN_LEASE_TO_MUTATE_MS
    case Start(id) =>
      id in s.runs && s.runs[id].phase.Cleared? && s.now <= s.runs[id].phase.at + b.pause
    case Land(id) =>
      && id in s.runs && Unlanded(s.runs[id].phase).Some?
      && s.now < Unlanded(s.runs[id].phase).value.start + GRAPH_CALL_TIMEOUT_MS
      && id.row in s.rows && s.rows[id.row].key in s.directory
    case Answer(id) => id in s.runs && s.runs[id].phase.Calling? && s.runs[id].phase.landed
    case Refuse(id, _) => id in s.runs && s.runs[id].phase.Calling?
    case Throw(id, retryable) =>
      && id in s.runs && !s.runs[id].phase.Waiting? && !s.runs[id].phase.Broken? && !s.runs[id].phase.Stray?
      && (s.runs[id].phase.Calling? ==> retryable)
    case FinishSent(id) => id in s.runs && s.runs[id].phase.Done?
    case FinishFailed(id, _) =>
      && id in s.runs && s.runs[id].phase.Broken?
      && (s.runs[id].phase.open.Some? ==>
            s.now >= s.runs[id].phase.open.value.start + if Exhausts(s, id) then b.dead else b.retry)
  }

  function Apply(s: State, step: Step): State {
    match step
    case Tick(ms) => s.(now := s.now + ms)
    case SetStatus(e, seen, to, q) => AfterSetStatus(s, e, seen, to, q)
    case ApproveOffboarding(e, q) => Enqueue(WriteStatus(s, e, Offboarded), e, q)
    case ApproveOnboarding(e, q) => Enqueue(s, e, q)
    case SignIn(e) => if e in s.directory then s.(directory := s.directory[e := s.directory[e].(sessions := true)]) else s
    case Claim(batch, _) => AfterClaim(s, batch)
    case Reap(q, _) => if q in s.rows then s.(rows := s.rows[q := s.rows[q].(status := Failed, lease := None)]) else s
    case Renew(id) => AfterRenew(s, id)
    case Look(id) => AfterLook(s, id)
    case Confirm(id) => AfterConfirm(s, id)
    case Check(id) => AfterCheck(s, id)
    case Start(id) => if id in s.runs && s.runs[id].phase.Cleared?
                      then var p := s.runs[id].phase; At(s, id, Calling(p.call, p.ver, s.now, false)) else s
    case Land(id) => AfterLand(s, id)
    case Answer(id) => AfterAnswer(s, id)
    case Refuse(id, retryable) => At(s, id, Broken(retryable, None))
    case Throw(id, retryable) => if id in s.runs then At(s, id, Broken(retryable, Unlanded(s.runs[id].phase))) else s
    case FinishSent(id) => Finish(s, id, (row: Row) => row.(status := Sent, lease := None))
    case FinishFailed(id, hint) =>
      if id in s.runs && s.runs[id].phase.Broken?
      then Finish(s, id, (row: Row) => Retried(row, s.runs[id].phase.retryable, s.now, hint))
      else s
  }

  /** Move a run to its next phase. */
  function At(s: State, id: RunId, phase: Phase): State {
    if id in s.runs then s.(runs := s.runs[id := s.runs[id].(phase := phase)]) else s
  }

  /** Write an employee's status; the version counts changes that cross `Offboarded`. */
  function WriteStatus(s: State, e: EmployeeId, to: EmployeeStatus): State {
    if e !in s.staff then s
    else
      var was := s.staff[e];
      var crossed := (was.status == Offboarded) != (to == Offboarded);
      s.(staff := s.staff[e := Person(to, if crossed then was.ver + 1 else was.ver)])
  }

  /** Insert an account task for `e`. It names the employee and carries no status. */
  function Enqueue(s: State, e: EmployeeId, q: Seq): State {
    if e !in s.staff then s
    else s.(rows := s.rows[q := Row(e, Pending, 0, s.now, None, s.staff[e].ver, s.commits, None)], commits := s.commits + 1)
  }

  /**
   `EmployeeService.updateStatus`. The status it compares with, `seen`, was read before its transaction, so
   it may no longer be the status the row holds.
   */
  function AfterSetStatus(s: State, e: EmployeeId, seen: EmployeeStatus, to: EmployeeStatus, q: Seq): State {
    if seen == to && to != Offboarded then s
    else
      var written := if seen != to then WriteStatus(s, e, to) else s;
      if to == Offboarded || seen == Offboarded then Enqueue(written, e, q) else written
  }

  /** One token for the batch, an attempt spent on each row, all held for the sum of their leases. */
  function AfterClaim(s: State, batch: set<Seq>): State {
    var until := s.now + |batch| * LEASE_MS;
    s.(rows := map q | q in s.rows ::
         if q in batch
         then s.rows[q].(attempts := s.rows[q].attempts + 1, lease := Some(Lease(s.tokens, until)), claimed := Some(Claimed(s.commits, s.tokens)))
         else s.rows[q],
       runs := s.runs + map q: Seq | q in batch :: RunId(q, s.tokens) := Run(Waiting, until),
       tokens := s.tokens + 1)
  }

  /** Push the lease out to a full one; without the fence the row is skipped. */
  function AfterRenew(s: State, id: RunId): State {
    if !Holds(s, id) then s.(runs := s.runs - {id})
    else
      var until := s.now + LEASE_MS;
      s.(rows := s.rows[id.row := s.rows[id.row].(lease := Some(Lease(id.token, until)))],
         runs := s.runs[id := Run(Renewed, until)])
  }

  /** First read of the employee. Without a directory object there is nothing to do. */
  function AfterLook(s: State, id: RunId): State {
    if id.row !in s.rows || s.rows[id.row].key !in s.staff then s
    else
      var e := s.rows[id.row].key;
      if e !in s.directory then At(s, id, Done(false)) else At(s, id, Looked(IsOff(s, e), s.staff[e].ver))
  }

  /** Second read, right before the one change that restores access. */
  function AfterConfirm(s: State, id: RunId): State {
    if id.row !in s.rows || s.rows[id.row].key !in s.staff then s
    else
      var e := s.rows[id.row].key;
      if IsOff(s, e) then At(s, id, Done(false)) else At(s, id, Confirmed(s.staff[e].ver))
  }

  function AfterCheck(s: State, id: RunId): State {
    if id !in s.runs then s
    else
      match s.runs[id].phase
      case Looked(true, v) => At(s, id, Cleared(Disable, v, s.now))
      case Confirmed(v) => At(s, id, Cleared(Enable, v, s.now))
      case Disabled(v) => At(s, id, Cleared(Revoke, v, s.now))
      case _ => s
  }

  /** What a call does to the account it is about. */
  function Effect(account: Account, call: Call): Account {
    match call
    case Enable => account.(enabled := true)
    case Disable => account.(enabled := false)
    case Revoke => account.(sessions := false)
  }

  /** The call takes effect in the directory, whatever the replica that made it is doing. */
  function AfterLand(s: State, id: RunId): State {
    if id !in s.runs || Unlanded(s.runs[id].phase).None? || id.row !in s.rows || s.rows[id.row].key !in s.directory then s
    else
      Settle(Affect(s, s.rows[id.row].key, Unlanded(s.runs[id].phase).value.call), id)
  }

  function Affect(s: State, e: EmployeeId, call: Call): State
    requires e in s.directory
  {
    s.(directory := s.directory[e := Effect(s.directory[e], call)])
  }

  /** The run's call has had its effect. */
  function Settle(s: State, id: RunId): State
    requires id in s.runs
  {
    match s.runs[id].phase
    case Calling(call, ver, start, _) => At(s, id, Calling(call, ver, start, true))
    case Broken(retryable, _) => At(s, id, Broken(retryable, None))
    case Stray(_) => s.(runs := s.runs - {id})
    case _ => s
  }

  function AfterAnswer(s: State, id: RunId): State {
    if id !in s.runs || !s.runs[id].phase.Calling? then s
    else
      var p := s.runs[id].phase;
      At(s, id, if p.call == Disable then Disabled(p.ver) else Done(true))
  }

  /** The replica is done with a run; a call still on the wire stays there until its deadline. */
  function Leave(s: State, id: RunId): State {
    if id in s.runs && s.runs[id].phase.Broken? && s.runs[id].phase.open.Some?
    then
      var open := s.runs[id].phase.open.value;
      s.(runs := s.runs[id := Run(Stray(open), open.start + GRAPH_CALL_TIMEOUT_MS)])
    else s.(runs := s.runs - {id})
  }

  /** The fenced finish: it writes only while the lease token is still this run's. */
  function Finish(s: State, id: RunId, write: Row -> Row): State {
    var left := Leave(s, id);
    if Holds(s, id) then left.(rows := left.rows[id.row := write(left.rows[id.row])]) else left
  }

  /** A failed attempt: dead-letter at once if retrying cannot help or the attempts are spent, else back off. */
  function Retried(row: Row, retryable: bool, now: int, hint: nat): Row {
    if !retryable || row.attempts >= MAX_ATTEMPTS
    then row.(status := Failed, lease := None)
    else row.(lease := None, due := now + RetryDelayMs(row.attempts, hint))
  }

  // ── Runs ────────────────────────────────────────────────────────────────────

  /** No task yet, no replica at work; every linked account belongs to an employee. */
  predicate Init(s: State) {
    && s.rows == map[] && s.runs == map[] && s.tokens == 0 && s.commits == 0
    && (forall e :: e in s.directory ==> e in s.staff)
    && (forall e :: e in s.staff ==> s.staff[e].ver == 0)
  }

  function After(s: State, steps: seq<Step>): State {
    if steps == [] then s else Apply(After(s, steps[..|steps| - 1]), steps[|steps| - 1])
  }

  /** Every step of the sequence can be taken when its turn comes. */
  predicate Legal(b: Bounds, s: State, steps: seq<Step>) {
    steps == [] || (Legal(b, s, steps[..|steps| - 1])
                    && Enabled(b, After(s, steps[..|steps| - 1]), steps[|steps| - 1]))
  }

  /** `t` is a state some run within these bounds can be in. */
  ghost predicate Reachable(b: Bounds, t: State) {
    exists s, steps :: Init(s) && Legal(b, s, steps) && t == After(s, steps)
  }

  // ── What the protocol is for ────────────────────────────────────────────────

  /** Committed at or after the last change that crossed `Offboarded`. */
  predicate Current(s: State, q: Seq)
    requires q in s.rows
  {
    s.rows[q].key in s.staff && s.rows[q].ver == s.staff[s.rows[q].key].ver
  }

  /** The account is enabled exactly when the employee is not offboarded; offboarded, no session is left. */
  predicate Settled(s: State, e: EmployeeId)
    requires e in s.staff && e in s.directory
  {
    && s.directory[e].enabled == !IsOff(s, e)
    && (IsOff(s, e) ==> !s.directory[e].sessions)
  }

  /** A task that is current and marked sent has done its work, and nothing has undone it. */
  ghost predicate Converged(s: State) {
    forall q :: q in s.rows && s.rows[q].status == Sent && Current(s, q) && s.rows[q].key in s.directory
      ==> Settled(s, s.rows[q].key)
  }

  /** `q` is the last task of its person. */
  predicate IsLast(s: State, q: Seq) {
    q in s.rows && forall r :: r in s.rows && s.rows[r].key == s.rows[q].key ==> r <= q
  }

  /** Whoever's last task is marked sent has the account that the status calls for. */
  ghost predicate LastSentSettles(s: State) {
    forall q :: IsLast(s, q) && s.rows[q].status == Sent && s.rows[q].key in s.staff && s.rows[q].key in s.directory
      ==> Settled(s, s.rows[q].key)
  }

  /** Whoever is offboarded and whose last task is marked sent is locked out. */
  ghost predicate LastSentLocksOut(s: State) {
    forall q :: IsLast(s, q) && s.rows[q].status == Sent && s.rows[q].key in s.staff && s.rows[q].key in s.directory
                && IsOff(s, s.rows[q].key)
      ==> s.directory[s.rows[q].key] == Account(false, false)
  }

  /** A call that has been sent, has no answer, and whose deadline has not passed. */
  predicate InFlight(s: State, id: RunId) {
    && id in s.runs && Unanswered(s.runs[id].phase).Some?
    && s.now < Unanswered(s.runs[id].phase).value.start + GRAPH_CALL_TIMEOUT_MS
  }

  predicate SamePerson(s: State, a: RunId, b: RunId) {
    a.row in s.rows && b.row in s.rows && s.rows[a.row].key == s.rows[b.row].key
  }

  /** No two calls for one person are in flight together. */
  ghost predicate NoOverlap(s: State) {
    forall a, b :: InFlight(s, a) && InFlight(s, b) && SamePerson(s, a, b) ==> a == b
  }
}
