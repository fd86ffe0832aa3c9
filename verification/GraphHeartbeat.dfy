/**
 Is any worker able to do Graph work? Each replica says so of itself in a table it shares with other positions;
 whoever asks believes a row that is new enough.
 */
module GraphHeartbeat {
  import opened Wrappers

  const GRAPH_HEARTBEAT_PREFIX := "graph-worker-heartbeat:"
  const HEARTBEAT_FRESH_MS := 3 * 60_000
  const DAY_MS := 86_400_000

  /** The table is keyed by name. Rows whose name does not begin with the prefix are positions of other jobs. */
  datatype SyncState = SyncState(cursor: Option<string>, updatedAt: int)

  type Table = map<string, SyncState>

  predicate Beats(name: string, row: SyncState, now: int) {
    GRAPH_HEARTBEAT_PREFIX <= name && row.cursor == Some("enabled") && now - row.updatedAt < HEARTBEAT_FRESH_MS
  }

  predicate IsGraphAvailable(t: Table, now: int) {
    exists name :: name in t && Beats(name, t[name], now)
  }

  /** Rows of replicas that have said nothing for a day are dropped. */
  function Forget(t: Table, at: int): Table {
    map name | name in t && !(GRAPH_HEARTBEAT_PREFIX <= name && t[name].updatedAt < at - DAY_MS) :: t[name]
  }

  function Row(enabled: bool, at: int): SyncState {
    SyncState(Some(if enabled then "enabled" else "disabled"), at)
  }

  /** A replica's row that is over a day old. */
  predicate IsSilent(name: string, row: SyncState, now: int) {
    GRAPH_HEARTBEAT_PREFIX <= name && now - row.updatedAt > 86_400_000
  }

  class SyncTable {
    var rows: Table

    /** One beat of a replica: an upsert of its own row, then the clearing out. */
    method Heartbeat(pod: string, enabled: bool, now: int)
      modifies this
      ensures rows == Apply(old(rows), Beat(pod, enabled, now))
      ensures GRAPH_HEARTBEAT_PREFIX + pod in rows
      ensures rows[GRAPH_HEARTBEAT_PREFIX + pod] == SyncState(Some(if enabled then "enabled" else "disabled"), now)
      ensures forall name :: name != GRAPH_HEARTBEAT_PREFIX + pod ==>
                (name in rows <==> name in old(rows) && !IsSilent(name, old(rows)[name], now))
      ensures forall name :: name in rows && name != GRAPH_HEARTBEAT_PREFIX + pod ==> rows[name] == old(rows)[name]
    {
      var cursor := if enabled then "enabled" else "disabled";
      rows := rows[GRAPH_HEARTBEAT_PREFIX + pod := SyncState(Some(cursor), now)];
      rows := Forget(rows, now);
    }
  }

  // ── What the replicas have said ─────────────────────────────────────────────

  /** A beat of a replica, or another job saving its position. */
  datatype Event =
    | Beat(pod: string, enabled: bool, at: int)
    | Save(name: string, cursor: Option<string>, at: int)

  function Apply(t: Table, e: Event): Table {
    match e
    case Beat(pod, enabled, at) => Forget(t[GRAPH_HEARTBEAT_PREFIX + pod := Row(enabled, at)], at)
    case Save(name, cursor, at) => t[name := SyncState(cursor, at)]
  }

  function Replay(h: seq<Event>): Table {
    if h == [] then map[] else Apply(Replay(h[..|h| - 1]), h[|h| - 1])
  }

  /** Nothing is dated in the future, and no other job takes a name with the prefix. */
  predicate WellFormed(h: seq<Event>, now: int) {
    forall i :: 0 <= i < |h| ==> h[i].at <= now && (h[i].Save? ==> !(GRAPH_HEARTBEAT_PREFIX <= h[i].name))
  }

  /** The last that `h[i].pod` has said. */
  predicate IsLatest(h: seq<Event>, i: nat) {
    i < |h| && h[i].Beat? && forall j :: i < j < |h| && h[j].Beat? ==> h[j].pod != h[i].pod
  }

  predicate Holds(t: Table, e: Event)
    requires e.Beat?
  {
    GRAPH_HEARTBEAT_PREFIX + e.pod in t && t[GRAPH_HEARTBEAT_PREFIX + e.pod] == Row(e.enabled, e.at)
  }

  lemma PodsHaveTheirOwnRows(a: string, b: string)
    ensures GRAPH_HEARTBEAT_PREFIX + a == GRAPH_HEARTBEAT_PREFIX + b ==> a == b
    ensures GRAPH_HEARTBEAT_PREFIX <= GRAPH_HEARTBEAT_PREFIX + a
  {
    var n := |GRAPH_HEARTBEAT_PREFIX|;
    assert (GRAPH_HEARTBEAT_PREFIX + a)[n..] == a && (GRAPH_HEARTBEAT_PREFIX + b)[n..] == b;
  }

  /** A row with the prefix is the latest that some replica has said. */
  lemma {:induction false} RowsAreLatestBeats(h: seq<Event>, now: int, name: string) returns (i: nat)
    requires WellFormed(h, now) && name in Replay(h) && GRAPH_HEARTBEAT_PREFIX <= name
    ensures IsLatest(h, i) && name == GRAPH_HEARTBEAT_PREFIX + h[i].pod && Holds(Replay(h), h[i])
  {
    var n := |h| - 1;
    if h[n].Beat? && name == GRAPH_HEARTBEAT_PREFIX + h[n].pod {
      i := n;
    } else {
      i := RowsAreLatestBeats(h[..n], now, name);
      assert h[..n][i] == h[i];
      forall j | i < j < |h| && h[j].Beat? ensures h[j].pod != h[i].pod {
        if j < n { assert h[..n][j] == h[j]; }
      }
    }
  }

  /** The latest that a replica has said is there for a day. */
  lemma {:induction false} LatestBeatsAreThere(h: seq<Event>, now: int, i: nat)
    requires WellFormed(h, now) && IsLatest(h, i) && h[i].at >= now - DAY_MS
    ensures Holds(Replay(h), h[i])
  {
    var n := |h| - 1;
    PodsHaveTheirOwnRows(h[i].pod, h[i].pod);
    if i < n {
      assert IsLatest(h[..n], i) by {
        forall j | i < j < n && h[..n][j].Beat? ensures h[..n][j].pod != h[i].pod { assert h[..n][j] == h[j]; }
      }
      LatestBeatsAreThere(h[..n], now, i);
      if h[n].Beat? { PodsHaveTheirOwnRows(h[n].pod, h[i].pod); }
    }
  }

  /**
   The answer is exact, for every history of beats, of replicas that fall silent, of rows dropped and of other
   jobs' positions: Graph is available if and only if the latest that some replica has said is that it can do the
   work, less than three minutes ago. So no replica can hide another or speak for it.
   */
  lemma AvailableExactly(h: seq<Event>, now: int)
    requires WellFormed(h, now)
    ensures IsGraphAvailable(Replay(h), now) <==>
            exists i: nat :: IsLatest(h, i) && h[i].enabled && now - h[i].at < 180_000
  {
    if name :| name in Replay(h) && Beats(name, Replay(h)[name], now) {
      var i := RowsAreLatestBeats(h, now, name);
      assert "enabled"[0] == 'e' && "disabled"[0] == 'd';
    }
    if i: nat :| IsLatest(h, i) && h[i].enabled && now - h[i].at < HEARTBEAT_FRESH_MS {
      LatestBeatsAreThere(h, now, i);
      PodsHaveTheirOwnRows(h[i].pod, h[i].pod);
      assert Beats(GRAPH_HEARTBEAT_PREFIX + h[i].pod, Replay(h)[GRAPH_HEARTBEAT_PREFIX + h[i].pod], now);
    }
  }
}
