/**
 The nightly retention job over one table: stamp historical rows, then count or purge what is too old, in
 bounded batches, oldest first.
 */
module Retention {
  import opened Wrappers

  const BATCH_SIZE := 5_000
  const MAX_BATCHES := 20
  const CAP := MAX_BATCHES * BATCH_SIZE
  const DAY_MS := 86_400_000

  datatype Status = Pending | Sent | Failed | Delivered | Bounced | Complained

  /** `at` is the column retention counts from; `stamps` are the times it may be backfilled from, best first. */
  datatype Row = Row(status: Status, at: Option<int>, stamps: seq<Option<int>>)

  type Id = nat
  type Table = map<Id, Row>

  /** How long rows are kept; an outbox also keeps what is pending and what is delivery evidence. */
  datatype Rule = Rule(days: nat, outbox: bool)

  /** Every outbox: terminal for 30 days. */
  const OUTBOX_RULE := Rule(30, true)

  predicate Matches(rule: Rule, row: Row, now: int) {
    && (rule.outbox ==> !row.status.Pending? && !row.status.Bounced? && !row.status.Complained?)
    && row.at.Some? && row.at.value < now - rule.days * DAY_MS
  }

  /** Of an outbox goes what was sent, delivered or failed and has been terminal for over 30 days, and nothing else. */
  lemma WhatAnOutboxGivesUp(row: Row, now: int)
    ensures Matches(OUTBOX_RULE, row, now) <==>
              && (row.status.Sent? || row.status.Delivered? || row.status.Failed?)
              && exists at :: row.at == Some(at) && now - at > 2_592_000_000
  {
    if row.at.Some? {
      assert row.at == Some(row.at.value);
    }
  }

  /** Of any other table, what is older than its rule keeps it. */
  lemma WhatATableGivesUp(days: nat, row: Row, now: int)
    ensures Matches(Rule(days, false), row, now) <==> exists at :: row.at == Some(at) && now - at > days * 86_400_000
  {
    if row.at.Some? {
      assert row.at == Some(row.at.value);
    }
  }

  function Matching(rule: Rule, t: Table, now: int): set<Id> {
    set id | id in t && Matches(rule, t[id], now)
  }

  function Min(a: nat, b: nat): nat {
    if a < b then a else b
  }

  /** `victims` is a possible choice of the `limit` oldest matching rows; ties may fall either way. */
  predicate OldestBatch(rule: Rule, t: Table, now: int, limit: nat, victims: set<Id>) {
    && victims <= Matching(rule, t, now)
    && |victims| == Min(|Matching(rule, t, now)|, limit)
    && (forall v, w :: v in victims && w in Matching(rule, t, now) - victims ==> t[v].at.value <= t[w].at.value)
  }

  // ── Batches add up ──────────────────────────────────────────────────────────

  lemma MatchingAfter(rule: Rule, t: Table, now: int, victims: set<Id>)
    ensures Matching(rule, t - victims, now) == Matching(rule, t, now) - victims
  {
  }

  /** The oldest batch, and then the oldest batch of the rest, is one larger oldest batch. */
  lemma BatchesAddUp(rule: Rule, t: Table, now: int, m: nat, vs: set<Id>, n: nat, ws: set<Id>)
    requires OldestBatch(rule, t, now, m, vs) && OldestBatch(rule, t - vs, now, n, ws)
    ensures vs !! ws && OldestBatch(rule, t, now, m + n, vs + ws)
  {
    MatchingAfter(rule, t, now, vs);
    var all := Matching(rule, t, now);
    assert |all - vs| == |all| - |vs|;
    assert |vs + ws| == |vs| + |ws|;
    forall v, w | v in vs + ws && w in all - (vs + ws) ensures t[v].at.value <= t[w].at.value {
      assert w in all - vs;
      if v in ws { assert (t - vs)[v] == t[v] && (t - vs)[w] == t[w]; }
    }
  }

  /** A batch that came out short took everything, so any larger limit would have taken the same. */
  lemma AShortBatchIsAll(rule: Rule, t: Table, now: int, m: nat, vs: set<Id>, n: nat)
    requires OldestBatch(rule, t, now, m, vs) && |vs| < m && m <= n
    ensures vs == Matching(rule, t, now) && OldestBatch(rule, t, now, n, vs)
  {
    var rest := Matching(rule, t, now) - vs;
    assert |rest| == |Matching(rule, t, now)| - |vs|;
    assert rest == {};
    assert vs == Matching(rule, t, now);
  }

  /** One more batch of the purge: either it was full and the sum grows by it, or it was short and all is done. */
  lemma OneMoreBatch(rule: Rule, t: Table, now: int, batch: nat, gone: set<Id>, victims: set<Id>)
    requires batch < MAX_BATCHES
    requires OldestBatch(rule, t, now, batch * BATCH_SIZE, gone)
    requires OldestBatch(rule, t - gone, now, BATCH_SIZE, victims)
    ensures t - gone - victims == t - (gone + victims) && |gone + victims| == |gone| + |victims|
    ensures OldestBatch(rule, t, now, if |victims| < BATCH_SIZE then CAP else (batch + 1) * BATCH_SIZE, gone + victims)
  {
    BatchesAddUp(rule, t, now, batch * BATCH_SIZE, gone, BATCH_SIZE, victims);
    assert |gone + victims| == |gone| + |victims|;
    if |victims| < BATCH_SIZE {
      AShortBatchIsAll(rule, t, now, (batch + 1) * BATCH_SIZE, gone + victims, CAP);
    }
  }

  // ── The job ─────────────────────────────────────────────────────────────────

  /** The statements, on one table. */
  class OutboxTable {
    var rows: Table

    /** `SELECT … WHERE … ORDER BY <time> LIMIT <limit>`. */
    method SelectOldest(rule: Rule, now: int, limit: nat) returns (victims: set<Id>)
      ensures OldestBatch(rule, rows, now, limit, victims)
    {
      var all := Matching(rule, rows, now);
      var rest := all;
      victims := {};
      while |victims| < limit && rest != {}
        invariant victims + rest == all && victims !! rest
        invariant |victims| <= limit
        invariant forall v, w :: v in victims && w in rest ==> rows[v].at.value <= rows[w].at.value
        decreases rest
      {
        var oldest := OldestOf(rest, rule, now);
        victims, rest := victims + {oldest}, rest - {oldest};
      }
      assert all - victims == rest;
      assert |all| == |victims| + |rest|;
    }

    method OldestOf(ids: set<Id>, rule: Rule, now: int) returns (oldest: Id)
      requires ids != {} && ids <= Matching(rule, rows, now)
      ensures oldest in ids && forall w :: w in ids ==> rows[oldest].at.value <= rows[w].at.value
    {
      oldest :| oldest in ids;
      var rest := ids - {oldest};
      while rest != {}
        invariant rest <= ids && oldest in ids
        invariant forall w :: w in ids - rest ==> rows[oldest].at.value <= rows[w].at.value
        decreases rest
      {
        var w :| w in rest;
        if rows[w].at.value < rows[oldest].at.value {
          oldest := w;
        }
        rest := rest - {w};
      }
    }

    /** `DELETE … WHERE id IN (…)`; the answer is the number of rows removed. */
    method DeleteOldest(rule: Rule, now: int, limit: nat) returns (rowCount: nat, ghost victims: set<Id>)
      modifies this
      ensures OldestBatch(rule, old(rows), now, limit, victims)
      ensures rows == old(rows) - victims && rowCount == |victims|
    {
      var ids := SelectOldest(rule, now, limit);
      rows := rows - ids;
      rowCount := |ids|;
      victims := ids;
    }

    /**
     The purge is exact: it removes the 100 000 oldest matching rows, or all of them if there are fewer; whatever
     it leaves behind that matches is no older than anything it took; nothing else changes; and it returns how
     many it took.
     */
    method PurgeRule(rule: Rule, now: int) returns (total: nat, ghost gone: set<Id>)
      modifies this
      ensures OldestBatch(rule, old(rows), now, CAP, gone) && rows == old(rows) - gone
      ensures total == |gone| == Min(|Matching(rule, old(rows), now)|, 100_000)
    {
      total, gone := 0, {};
      var batch := 0;
      while batch < MAX_BATCHES
        invariant 0 <= batch <= MAX_BATCHES
        invariant OldestBatch(rule, old(rows), now, batch * BATCH_SIZE, gone) && rows == old(rows) - gone
        invariant total == |gone|
      {
        ghost var victims;
        var deleted;
        deleted, victims := DeleteOldest(rule, now, BATCH_SIZE);
        OneMoreBatch(rule, old(rows), now, batch, gone, victims);
        total, gone := total + deleted, gone + victims;
        if deleted < BATCH_SIZE {
          break;
        }
        batch := batch + 1;
      }
    }

    /** The dry run counts with the predicate of the purge. */
    method CountRule(rule: Rule, now: int) returns (count: nat)
      ensures count == |Matching(rule, rows, now)|
    {
      count := |Matching(rule, rows, now)|;
    }

    /** One `UPDATE … SET terminal_at = COALESCE(…) WHERE id IN (SELECT … LIMIT)`, in whatever order the rows come. */
    method StampBatch(now: int, limit: nat) returns (rowCount: nat)
      modifies this
      ensures Backfills(old(rows), rows, now)
      ensures rowCount == Min(|Historical(old(rows))|, limit)
      ensures |Historical(rows)| == |Historical(old(rows))| - rowCount
    {
      ghost var before := rows;
      var all := Historical(rows);
      var rest := all;
      rowCount := 0;
      while rowCount < limit && rest != {}
        invariant rest <= all && Historical(rows) == rest && |rest| + rowCount == |all|
        invariant rowCount <= limit
        invariant Backfills(before, rows, now)
        decreases rest
      {
        var id :| id in rest;
        rows := rows[id := rows[id].(at := Some(Coalesce(rows[id].stamps, now)))];
        assert Historical(rows) == rest - {id};
        rest := rest - {id};
        rowCount := rowCount + 1;
      }
    }

    /** Stamps up to 100 000 historical rows; with no more than that many, none is left without a stamp. */
    method BackfillTerminalAt(now: int) returns (total: nat)
      modifies this
      ensures Backfills(old(rows), rows, now)
      ensures total == Min(|Historical(old(rows))|, 100_000)
      ensures |Historical(rows)| == |Historical(old(rows))| - total
      ensures |Historical(old(rows))| <= 100_000 ==>
                forall id :: id in rows && !rows[id].status.Pending? ==> rows[id].at.Some?
    {
      total := 0;
      var batch := 0;
      while batch < MAX_BATCHES
        invariant 0 <= batch <= MAX_BATCHES
        invariant total == batch * BATCH_SIZE
        invariant Backfills(old(rows), rows, now)
        invariant |Historical(rows)| == |Historical(old(rows))| - total
      {
        var updated := StampBatch(now, BATCH_SIZE);
        total := total + updated;
        if updated < BATCH_SIZE {
          break;
        }
        batch := batch + 1;
      }
      if Historical(rows) == {} {
        AllAreStamped(rows);
      }
    }

    /** One night over one outbox: stamp first, then count or purge. It is one of the nights reasoned about below. */
    method Purge(now: int, dryRun: bool) returns (rowCount: nat)
      modifies this
      ensures Becomes(old(rows), rows, Night(now, dryRun))
      ensures rowCount == if dryRun then |Matching(OUTBOX_RULE, rows, now)| else |old(rows)| - |rows|
    {
      ghost var before := rows;
      var stamped := BackfillTerminalAt(now);
      ghost var mid := rows;
      assert |before| == |before.Keys| == |mid|;
      if dryRun {
        rowCount := CountRule(OUTBOX_RULE, now);
      } else {
        ghost var gone;
        rowCount, gone := PurgeRule(OUTBOX_RULE, now);
        assert Purges(OUTBOX_RULE, mid, rows, now);
        assert rows.Keys == mid.Keys - gone;
        assert |mid.Keys - gone| == |mid.Keys| - |gone|;
      }
    }
  }

  // ── Backfill ────────────────────────────────────────────────────────────────

  /** Terminal before the column existed. */
  function Historical(t: Table): set<Id> {
    set id | id in t && !t[id].status.Pending? && t[id].at.None?
  }

  lemma AllAreStamped(t: Table)
    requires Historical(t) == {}
    ensures forall id :: id in t && !t[id].status.Pending? ==> t[id].at.Some?
  {
    forall id | id in t && !t[id].status.Pending? ensures t[id].at.Some? {
      assert id !in Historical(t);
    }
  }

  function Coalesce(stamps: seq<Option<int>>, now: int): int {
    if stamps == [] then now else if stamps[0].Some? then stamps[0].value else Coalesce(stamps[1..], now)
  }

  /** The best known time is the first that is known, in the order given; with none, now. */
  lemma {:induction false} TheFirstKnownTime(stamps: seq<Option<int>>, now: int, i: nat)
    requires i <= |stamps| && (forall j :: 0 <= j < i ==> stamps[j].None?) && (i < |stamps| ==> stamps[i].Some?)
    ensures Coalesce(stamps, now) == if i < |stamps| then stamps[i].value else now
  {
    if i > 0 {
      TheFirstKnownTime(stamps[1..], now, i - 1);
    }
  }

  /** Only historical rows change, and only in the column that was null. */
  predicate Backfills(t: Table, u: Table, now: int) {
    && t.Keys == u.Keys
    && (forall id :: id in t ==>
          u[id] == t[id] || (id in Historical(t) && u[id] == t[id].(at := Some(Coalesce(t[id].stamps, now)))))
  }

  // ── Nights ──────────────────────────────────────────────────────────────────

  /** What one real night's purge leaves. */
  ghost predicate Purges(rule: Rule, t: Table, u: Table, now: int) {
    exists victims :: OldestBatch(rule, t, now, CAP, victims) && u == t - victims
  }

  lemma OneNight(rule: Rule, t: Table, u: Table, now: int)
    requires Purges(rule, t, u, now)
    ensures |Matching(rule, u, now)| == |Matching(rule, t, now)| - Min(|Matching(rule, t, now)|, CAP)
  {
    var victims :| OldestBatch(rule, t, now, CAP, victims) && u == t - victims;
    MatchingAfter(rule, t, now, victims);
  }

  /** With nothing arriving, a backlog of N is gone after exactly ceil(N / 100 000) nights, and not before. */
  lemma {:induction false} NightsDrainTheBacklog(rule: Rule, nights: seq<Table>, now: int)
    requires nights != [] && forall i :: 0 <= i < |nights| - 1 ==> Purges(rule, nights[i], nights[i + 1], now)
    ensures var n, k := |Matching(rule, nights[0], now)|, |nights| - 1;
            && |Matching(rule, nights[k], now)| == n - Min(n, k * 100_000)
            && (Matching(rule, nights[k], now) == {} <==> k >= (n + 99_999) / 100_000)
  {
    var k := |nights| - 1;
    if k > 0 {
      NightsDrainTheBacklog(rule, nights[..k], now);
      OneNight(rule, nights[k - 1], nights[k], now);
    }
    assert Matching(rule, nights[k], now) == {} <==> |Matching(rule, nights[k], now)| == 0;
  }

  /** A dry run counts exactly what a purge without batch limits would remove. */
  lemma DryRunCountsTheUncappedPurge(rule: Rule, t: Table, now: int, limit: nat, victims: set<Id>)
    requires OldestBatch(rule, t, now, limit, victims) && limit >= |Matching(rule, t, now)|
    ensures victims == Matching(rule, t, now)
  {
    var rest := Matching(rule, t, now) - victims;
    assert |rest| == |Matching(rule, t, now)| - |victims|;
    assert rest == {};
    assert victims == Matching(rule, t, now);
  }

  // ── Safety over any run ─────────────────────────────────────────────────────

  /** A night of the job, or anything the rest of the system does to an outbox. */
  datatype Event = Night(now: int, dryRun: bool) | World

  /**
   What an event may make of the table. The rest of the system adds rows and moves them along, but leaves
   `terminal_at` of a row that has it, and deletes nothing.
   */
  ghost predicate Becomes(t: Table, u: Table, e: Event) {
    match e
    case World => forall id :: id in t ==> id in u && (t[id].at.Some? ==> u[id].at == t[id].at)
    case Night(now, dryRun) =>
      exists mid :: Backfills(t, mid, now) && if dryRun then u == mid else Purges(OUTBOX_RULE, mid, u, now)
  }

  ghost predicate History(tables: seq<Table>, events: seq<Event>) {
    |tables| == |events| + 1 && forall i :: 0 <= i < |events| ==> Becomes(tables[i], tables[i + 1], events[i])
  }

  /** A night deletes only rows that were terminal, were no evidence, and had been terminal for over 30 days. */
  lemma OnlyOldTerminalRowsGo(t: Table, u: Table, now: int, dryRun: bool, id: Id)
    requires Becomes(t, u, Night(now, dryRun)) && id in t && id !in u
    ensures !dryRun && !t[id].status.Pending? && !t[id].status.Bounced? && !t[id].status.Complained?
    ensures (if t[id].at.Some? then t[id].at.value else Coalesce(t[id].stamps, now)) < now - 30 * DAY_MS
  {
    var mid :| Backfills(t, mid, now) && if dryRun then u == mid else Purges(OUTBOX_RULE, mid, u, now);
    assert id in mid;
    var victims :| OldestBatch(OUTBOX_RULE, mid, now, CAP, victims) && u == mid - victims;
    assert id in Matching(OUTBOX_RULE, mid, now);
  }

  /**
   And what is due goes: with no more than 100 000 rows due, a real night deletes every row that was sent, delivered or
   failed over 30 days before it.
   */
  lemma OldTerminalRowsGo(t: Table, u: Table, now: int, id: Id)
    requires Becomes(t, u, Night(now, false)) && id in t && |t| <= 100_000
    requires t[id].status.Sent? || t[id].status.Delivered? || t[id].status.Failed?
    requires t[id].at.Some? && now - t[id].at.value > 2_592_000_000
    ensures id !in u
  {
    var mid :| Backfills(t, mid, now) && Purges(OUTBOX_RULE, mid, u, now);
    var victims :| OldestBatch(OUTBOX_RULE, mid, now, CAP, victims) && u == mid - victims;
    assert mid[id] == t[id];
    WhatAnOutboxGivesUp(mid[id], now);
    var due := Matching(OUTBOX_RULE, mid, now);
    FewerThanRows(due, mid);
    assert |t.Keys| == |mid.Keys|;
    DryRunCountsTheUncappedPurge(OUTBOX_RULE, mid, now, CAP, victims);
  }

  lemma FewerThanRows(ids: set<Id>, t: Table)
    requires ids <= t.Keys
    ensures |ids| <= |t|
  {
    assert |t.Keys - ids| == |t.Keys| - |ids|;
  }

  /** A row without a stamp gets, if a night stamps it, the first known of its times; any other row is left as it is. */
  lemma WhatANightStamps(t: Table, u: Table, now: int, id: Id)
    requires Backfills(t, u, now) && id in t && u[id] != t[id]
    ensures !t[id].status.Pending? && t[id].at.None? && u[id].at.Some? && u[id].status == t[id].status
    ensures forall i :: 0 <= i < |t[id].stamps| && t[id].stamps[i].Some? && (forall j :: 0 <= j < i ==> t[id].stamps[j].None?) ==>
              u[id].at == t[id].stamps[i]
    ensures (forall i :: 0 <= i < |t[id].stamps| ==> t[id].stamps[i].None?) ==> u[id].at == Some(now)
  {
    forall i | 0 <= i < |t[id].stamps| && t[id].stamps[i].Some? && (forall j :: 0 <= j < i ==> t[id].stamps[j].None?)
      ensures u[id].at == t[id].stamps[i]
    {
      TheFirstKnownTime(t[id].stamps, now, i);
    }
    if forall i :: 0 <= i < |t[id].stamps| ==> t[id].stamps[i].None? {
      TheFirstKnownTime(t[id].stamps, now, |t[id].stamps|);
    }
  }

  /** Through any event, `terminal_at` of a row that has one stays, and the row with it unless it is over 30 days old. */
  lemma StampStays(t: Table, u: Table, e: Event, id: Id)
    requires Becomes(t, u, e) && id in t && t[id].at.Some?
    ensures id in u ==> u[id].at == t[id].at
    ensures id !in u ==> e.Night? && t[id].at.value < e.now - 30 * DAY_MS
  {
    if e.Night? {
      var mid :| Backfills(t, mid, e.now) && if e.dryRun then u == mid else Purges(OUTBOX_RULE, mid, u, e.now);
      if id !in u {
        OnlyOldTerminalRowsGo(t, u, e.now, e.dryRun, id);
      }
      assert id in mid && mid[id] == t[id];
    }
  }

  /**
   Over any run of nights, dry or real, with anything happening in between: a row is there, with its stamp, for
   as long as no night comes more than 30 days after it. A historical row with no time of its own is stamped
   with the night that finds it, so it gets its full window from then.
   */
  lemma {:induction false} EveryRowGetsItsWindow(tables: seq<Table>, events: seq<Event>, id: Id)
    requires History(tables, events) && id in tables[0] && tables[0][id].at.Some?
    requires forall i :: 0 <= i < |events| && events[i].Night? ==> events[i].now <= tables[0][id].at.value + 30 * DAY_MS
    ensures id in tables[|events|] && tables[|events|][id].at == tables[0][id].at
  {
    if events != [] {
      var n := |events| - 1;
      EveryRowGetsItsWindow(tables[..n + 1], events[..n], id);
      StampStays(tables[n], tables[n + 1], events[n], id);
    }
  }

  /** A row found historical, with nothing to date it by, and stamped that night: the window opens that night. */
  lemma UndatedRowsStartTonight(t: Table, u: Table, now: int, dryRun: bool, id: Id)
    requires Becomes(t, u, Night(now, dryRun)) && id in Historical(t)
    requires forall i :: 0 <= i < |t[id].stamps| ==> t[id].stamps[i].None?
    ensures id in u && (u[id].at.None? || u[id].at == Some(now))
  {
    NothingToDateBy(t[id].stamps, now);
    var mid :| Backfills(t, mid, now) && if dryRun then u == mid else Purges(OUTBOX_RULE, mid, u, now);
    if id !in u {
      OnlyOldTerminalRowsGo(t, u, now, dryRun, id);
    }
    assert id in mid;
  }

  lemma {:induction false} NothingToDateBy(stamps: seq<Option<int>>, now: int)
    requires forall i :: 0 <= i < |stamps| ==> stamps[i].None?
    ensures Coalesce(stamps, now) == now
  {
    if stamps != [] {
      NothingToDateBy(stamps[1..], now);
    }
  }

  /** Evidence is never purged: a row that stays bounced, complained or pending survives every night. */
  lemma {:induction false} EvidenceIsKept(tables: seq<Table>, events: seq<Event>, id: Id)
    requires History(tables, events) && id in tables[0]
    requires forall i :: 0 <= i < |tables| && id in tables[i] ==>
               tables[i][id].status.Pending? || tables[i][id].status.Bounced? || tables[i][id].status.Complained?
    ensures id in tables[|events|]
  {
    if events != [] {
      var n := |events| - 1;
      EvidenceIsKept(tables[..n + 1], events[..n], id);
      if events[n].Night? && id !in tables[n + 1] {
        OnlyOldTerminalRowsGo(tables[n], tables[n + 1], events[n].now, events[n].dryRun, id);
      }
    }
  }
}
