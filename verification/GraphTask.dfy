/**
 Kinds of task, the keys by which the outbox puts them in order or takes two for one, and the arithmetic of
 leases and of the calls made under them.

 Times are integers of milliseconds.
 */
module GraphTask {
  import opened Wrappers

  const ACCOUNT_RECONCILE := "entra.account.reconcile"
  const SHADOW_IT_SCAN := "compliance.shadow_it.scan"
  const POSTURE_SYNC := "security.posture.sync"

  /** An account task names an employee and nothing else; a scan or a sync carries no payload. */
  datatype Task = AccountReconcile(employeeId: string) | ShadowItScan | PostureSync {
    function Kind(): string {
      match this
      case AccountReconcile(_) => ACCOUNT_RECONCILE
      case ShadowItScan => SHADOW_IT_SCAN
      case PostureSync => POSTURE_SYNC
    }
  }

  /** The key under which a pending task stands in for an equal one. */
  function DedupeKeyFor(task: Task): Option<string> {
    if task.Kind() == SHADOW_IT_SCAN || task.Kind() == POSTURE_SYNC then Some(task.Kind()) else None
  }

  /** The key by which the relay puts tasks in sequence: the person they are about. */
  function OrderingKeyFor(task: Task): Option<string> {
    if task.Kind() == ACCOUNT_RECONCILE then Some(task.employeeId) else None
  }

  /**
   Two tasks are merged only when they are the same request, and two tasks are ordered against each other
   only when they are about the same person; no task is both merged and ordered.
   */
  lemma KeysSeparateTasks(a: Task, b: Task)
    ensures DedupeKeyFor(a).Some? && DedupeKeyFor(a) == DedupeKeyFor(b) ==> a == b
    ensures OrderingKeyFor(a).Some? && OrderingKeyFor(a) == OrderingKeyFor(b) ==> a == b
    ensures DedupeKeyFor(a).None? <==> OrderingKeyFor(a).Some?
    ensures DedupeKeyFor(a).None? <==> a.AccountReconcile?
    ensures a.AccountReconcile? ==> OrderingKeyFor(a) == Some(a.employeeId)
  {
    // The first characters tell the three kinds apart.
    assert ACCOUNT_RECONCILE[0] == 'e' && SHADOW_IT_SCAN[0] == 'c' && POSTURE_SYNC[0] == 's';
  }

  const GRAPH_CALL_TIMEOUT_MS := 30_000
  const LEASE_MARGIN_MS := 60_000
  const MAX_SCAN_PAGES := 100
  const MUTATION_SAFETY_MARGIN_MS := 10_000
  const MIN_LEASE_TO_MUTATE_MS := GRAPH_CALL_TIMEOUT_MS + MUTATION_SAFETY_MARGIN_MS

  /** A bound on calls, by kind. */
  const GRAPH_TASK_MAX_CALLS: map<string, nat> :=
    map[ACCOUNT_RECONCILE := 3, SHADOW_IT_SCAN := MAX_SCAN_PAGES, POSTURE_SYNC := 2]

  /** The lease of a run that makes at most `calls` calls. */
  function LeaseFor(calls: nat): nat {
    calls * GRAPH_CALL_TIMEOUT_MS + LEASE_MARGIN_MS
  }

  /** The lease for a kind; one that is not in the table is taken to make three calls. */
  function GraphLeaseMs(kind: string): nat {
    LeaseFor(if kind in GRAPH_TASK_MAX_CALLS then GRAPH_TASK_MAX_CALLS[kind] else 3)
  }

  /** An account task is held for two and a half minutes, a posture sync for two, a scan for fifty-one. */
  lemma LeasesByKind()
    ensures GraphLeaseMs("entra.account.reconcile") == 150_000
    ensures GraphLeaseMs("compliance.shadow_it.scan") == 3_060_000
    ensures GraphLeaseMs("security.posture.sync") == 120_000
    ensures forall kind :: kind !in ["entra.account.reconcile", "compliance.shadow_it.scan", "security.posture.sync"] ==>
              GraphLeaseMs(kind) == 150_000
  {
    assert ACCOUNT_RECONCILE[0] == 'e' && SHADOW_IT_SCAN[0] == 'c' && POSTURE_SYNC[0] == 's';
  }

  /** One call of a run: time spent before it on anything else, then the call itself. */
  datatype Paced = Paced(gap: nat, length: nat)

  /** A run in which no call outlives its own deadline. */
  ghost predicate WithinDeadlines(run: seq<Paced>) {
    forall i :: 0 <= i < |run| ==> run[i].length <= GRAPH_CALL_TIMEOUT_MS
  }

  /** Everything in the run that is not a call. */
  function Overhead(run: seq<Paced>): nat {
    if run == [] then 0 else Overhead(run[..|run| - 1]) + run[|run| - 1].gap
  }

  /** When the run's last call has returned, counted from the start of its lease. */
  function End(run: seq<Paced>): nat {
    if run == [] then 0 else End(run[..|run| - 1]) + run[|run| - 1].gap + run[|run| - 1].length
  }

  /** When call `i` starts. */
  function StartOf(run: seq<Paced>, i: nat): nat
    requires i < |run|
  {
    End(run[..i]) + run[i].gap
  }

  /** Every call starts with enough lease left to change something, and has returned before the lease lapses. */
  ghost predicate FitsIn(run: seq<Paced>, lease: nat) {
    forall i :: 0 <= i < |run| ==>
      && StartOf(run, i) + MIN_LEASE_TO_MUTATE_MS <= lease
      && End(run[..i + 1]) < lease
  }

  lemma {:induction false} EndIsOverheadPlusCalls(run: seq<Paced>)
    requires WithinDeadlines(run)
    ensures Overhead(run) <= End(run) <= Overhead(run) + |run| * GRAPH_CALL_TIMEOUT_MS
  {
    if run != [] {
      EndIsOverheadPlusCalls(run[..|run| - 1]);
    }
  }

  lemma {:induction false} OverheadGrows(run: seq<Paced>, i: nat)
    requires i <= |run|
    ensures Overhead(run[..i]) <= Overhead(run)
  {
    if i == |run| {
      assert run[..i] == run;
    } else {
      var shorter := run[..|run| - 1];
      assert run[..i] == shorter[..i];
      OverheadGrows(shorter, i);
    }
  }

  lemma FitsWhenOverheadIsSmall(run: seq<Paced>, calls: nat)
    requires WithinDeadlines(run) && |run| <= calls
    requires Overhead(run) <= LEASE_MARGIN_MS - MUTATION_SAFETY_MARGIN_MS
    ensures FitsIn(run, LeaseFor(calls))
  {
    forall i | 0 <= i < |run|
      ensures StartOf(run, i) + MIN_LEASE_TO_MUTATE_MS <= LeaseFor(calls)
      ensures End(run[..i + 1]) < LeaseFor(calls)
    {
      EndIsOverheadPlusCalls(run[..i]);
      OverheadGrows(run, i + 1);
      assert run[..i + 1][..i] == run[..i];
    }
  }

  /** The slowest run of `calls` calls whose overhead, all of it before the last call, is `overhead`. */
  function SlowestRun(calls: nat, overhead: nat): (run: seq<Paced>)
    requires calls > 0
    ensures |run| == calls
  {
    seq(calls - 1, i => Paced(0, GRAPH_CALL_TIMEOUT_MS)) + [Paced(overhead, GRAPH_CALL_TIMEOUT_MS)]
  }

  lemma {:induction false} EndOfFullCalls(n: nat)
    ensures var run := seq(n, i => Paced(0, GRAPH_CALL_TIMEOUT_MS));
            Overhead(run) == 0 && End(run) == n * GRAPH_CALL_TIMEOUT_MS
  {
    if n > 0 {
      EndOfFullCalls(n - 1);
      assert seq(n, i => Paced(0, GRAPH_CALL_TIMEOUT_MS))[..n - 1] == seq(n - 1, i => Paced(0, GRAPH_CALL_TIMEOUT_MS));
    }
  }

  /**
   The lease arithmetic is exact, for any declared number of calls: every run of that many calls fits its
   lease and is never refused a change if and only if its overhead may not exceed the lease margin less the
   mutation safety margin.
   */
  lemma LeaseArithmeticIsExact(calls: nat, budget: nat)
    requires calls > 0
    ensures (forall run :: WithinDeadlines(run) && |run| <= calls && Overhead(run) <= budget
                           ==> FitsIn(run, LeaseFor(calls)))
        <==> budget <= LEASE_MARGIN_MS - MUTATION_SAFETY_MARGIN_MS
  {
    if budget <= LEASE_MARGIN_MS - MUTATION_SAFETY_MARGIN_MS {
      forall run | WithinDeadlines(run) && |run| <= calls && Overhead(run) <= budget
        ensures FitsIn(run, LeaseFor(calls))
      {
        FitsWhenOverheadIsSmall(run, calls);
      }
    } else {
      var run := SlowestRun(calls, budget);
      EndOfFullCalls(calls - 1);
      assert run[..calls - 1] == seq(calls - 1, i => Paced(0, GRAPH_CALL_TIMEOUT_MS));
      assert WithinDeadlines(run) && Overhead(run) == budget;
      assert StartOf(run, calls - 1) + MIN_LEASE_TO_MUTATE_MS > LeaseFor(calls);
    }
  }

  /**
   One claim holds its rows for the sum of their leases. Rows are worked one after another, each for no
   longer than its own lease, so every row of the batch is still held when its turn comes.
   */
  lemma {:induction false} BatchHoldCoversTheWait(leases: seq<nat>, spent: seq<nat>, k: nat)
    requires |spent| == |leases| && k < |leases|
    requires forall i :: 0 <= i < |leases| ==> spent[i] <= leases[i] && 0 < leases[i]
    ensures Sum(spent[..k]) < Sum(leases)
  {
    if |leases| == k + 1 {
      SumIsMonotone(spent[..k], leases[..k]);
    } else {
      var n := |leases| - 1;
      BatchHoldCoversTheWait(leases[..n], spent[..n], k);
      assert spent[..n][..k] == spent[..k];
    }
  }

  function Sum(xs: seq<nat>): nat {
    if xs == [] then 0 else Sum(xs[..|xs| - 1]) + xs[|xs| - 1]
  }

  lemma {:induction false} SumIsMonotone(xs: seq<nat>, ys: seq<nat>)
    requires |xs| == |ys| && forall i :: 0 <= i < |xs| ==> xs[i] <= ys[i]
    ensures Sum(xs) <= Sum(ys)
  {
    if xs != [] {
      SumIsMonotone(xs[..|xs| - 1], ys[..|ys| - 1]);
    }
  }
}
