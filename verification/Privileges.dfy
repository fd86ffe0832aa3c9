/**
 Comparing what a database role can do, table by table, with a declaration of what it must not do.
 */
module Privileges {
  datatype Privilege = Select | Insert | Update | Delete

  /** One answer of the database: does the role hold this privilege on this table? */
  datatype Row = Row(tbl: string, priv: Privilege, held: bool)

  datatype Restriction = Restriction(table: string, denied: seq<Privilege>)

  /** The declaration as a map; of two entries for one table the later one counts. */
  function Declared(restricted: seq<Restriction>): map<string, Restriction> {
    if restricted == [] then map[]
    else Declared(restricted[..|restricted| - 1])[restricted[|restricted| - 1].table := restricted[|restricted| - 1]]
  }

  predicate ShouldBeDenied(restricted: seq<Restriction>, tbl: string, priv: Privilege) {
    tbl in Declared(restricted) && priv in Declared(restricted)[tbl].denied
  }

  /** Entry `i` is the last that the declaration has for its table. */
  predicate IsLastFor(restricted: seq<Restriction>, i: nat) {
    i < |restricted| && forall j :: i < j < |restricted| ==> restricted[j].table != restricted[i].table
  }

  /** Read off the entries: the last one for the table lists the privilege. */
  predicate Denies(restricted: seq<Restriction>, tbl: string, priv: Privilege) {
    exists i: nat :: i < |restricted| && IsLastFor(restricted, i) && restricted[i].table == tbl && priv in restricted[i].denied
  }

  lemma {:induction false} TheLastEntryCounts(restricted: seq<Restriction>, tbl: string)
    ensures tbl in Declared(restricted) ==>
              exists i: nat :: IsLastFor(restricted, i) && restricted[i].table == tbl && Declared(restricted)[tbl] == restricted[i]
    ensures forall i: nat :: IsLastFor(restricted, i) && restricted[i].table == tbl ==>
              tbl in Declared(restricted) && Declared(restricted)[tbl] == restricted[i]
  {
    if restricted != [] {
      var n := |restricted| - 1;
      TheLastEntryCounts(restricted[..n], tbl);
      if restricted[n].table == tbl {
        assert IsLastFor(restricted, n);
      } else {
        if i: nat :| IsLastFor(restricted[..n], i) && restricted[..n][i].table == tbl {
          forall j | i < j < |restricted| ensures restricted[j].table != restricted[i].table {
            if j < n { assert restricted[..n][j] == restricted[j]; }
          }
          assert IsLastFor(restricted, i);
        }
        forall i: nat | IsLastFor(restricted, i) && restricted[i].table == tbl ensures IsLastFor(restricted[..n], i) {
        }
      }
    }
  }

  /** The declaration is read as it is written. */
  lemma DeniedIsDeclared(restricted: seq<Restriction>, tbl: string, priv: Privilege)
    ensures ShouldBeDenied(restricted, tbl, priv) <==> Denies(restricted, tbl, priv)
  {
    TheLastEntryCounts(restricted, tbl);
  }

  predicate Offends(restricted: seq<Restriction>, row: Row) {
    ShouldBeDenied(restricted, row.tbl, row.priv) == row.held
  }

  /** The offending privileges of one table, in the order the database answered: held ones, or missing ones. */
  function Offences(rows: seq<Row>, restricted: seq<Restriction>, tbl: string, held: bool): seq<Privilege> {
    if rows == [] then []
    else
      var row := rows[|rows| - 1];
      Offences(rows[..|rows| - 1], restricted, tbl, held)
      + if row.tbl == tbl && row.held == held && Offends(restricted, row) then [row.priv] else []
  }

  lemma {:induction false} OffencesAreTheOffenders(rows: seq<Row>, restricted: seq<Restriction>,
                                                   tbl: string, held: bool, priv: Privilege)
    ensures priv in Offences(rows, restricted, tbl, held) <==>
              Row(tbl, priv, held) in rows && Denies(restricted, tbl, priv) == held
  {
    DeniedIsDeclared(restricted, tbl, priv);
    if rows != [] {
      OffencesAreTheOffenders(rows[..|rows| - 1], restricted, tbl, held, priv);
      assert rows == rows[..|rows| - 1] + [rows[|rows| - 1]];
    }
  }

  /** The database answered for every table of the schema and every privilege, and truthfully. */
  ghost predicate Exhaustive(rows: seq<Row>, tables: set<string>, holds: (string, Privilege) -> bool) {
    forall row :: row in rows <==> row.tbl in tables && row.held == holds(row.tbl, row.priv)
  }

  /** What the migration set is meant to achieve. */
  ghost predicate ExactlyAsDeclared(tables: set<string>, holds: (string, Privilege) -> bool, restricted: seq<Restriction>) {
    && (forall t, p :: t in tables ==> (holds(t, p) <==> !Denies(restricted, t, p)))
    && (forall i :: 0 <= i < |restricted| ==> restricted[i].table in tables)
  }

  /** A report maps exactly the tables that have offences, each to its offences. */
  ghost predicate Reports(report: map<string, seq<Privilege>>, rows: seq<Row>, restricted: seq<Restriction>, held: bool) {
    forall t :: (t in report <==> Offences(rows, restricted, t, held) != [])
             && (t in report ==> report[t] == Offences(rows, restricted, t, held))
  }

  /** `map.set(tbl, [...(map.get(tbl) ?? []), privilege])`. */
  function Append(report: map<string, seq<Privilege>>, row: Row): map<string, seq<Privilege>> {
    report[row.tbl := (if row.tbl in report then report[row.tbl] else []) + [row.priv]]
  }

  function ReportOf(rows: seq<Row>, restricted: seq<Restriction>, held: bool): map<string, seq<Privilege>> {
    if rows == [] then map[]
    else
      var report, row := ReportOf(rows[..|rows| - 1], restricted, held), rows[|rows| - 1];
      if row.held == held && Offends(restricted, row) then Append(report, row) else report
  }

  lemma {:induction false} ReportsAreComplete(rows: seq<Row>, restricted: seq<Restriction>, held: bool)
    ensures Reports(ReportOf(rows, restricted, held), rows, restricted, held)
  {
    if rows != [] {
      ReportsAreComplete(rows[..|rows| - 1], restricted, held);
    }
  }

  /** The declared tables that the database did not answer for. */
  method Vanished(restricted: seq<Restriction>, seen: set<string>) returns (vanished: seq<string>)
    ensures forall t :: t in vanished <==> t !in seen && exists i :: 0 <= i < |restricted| && restricted[i].table == t
  {
    vanished := [];
    for k := 0 to |restricted|
      invariant forall t :: t in vanished <==> t !in seen && exists i :: 0 <= i < k && restricted[i].table == t
    {
      if restricted[k].table !in seen {
        vanished := vanished + [restricted[k].table];
      }
    }
  }

  /**
   The check passes if and only if, on every table and for every privilege, the role holds what is not declared
   denied and nothing else, and every table the declaration names exists. Its three reports hold precisely the
   privileges missing, the privileges held in excess, and the declared tables that are gone.
   */
  method AssertPrivilegesAreExactlyAsDeclared(rows: seq<Row>, restricted: seq<Restriction>,
                                              ghost tables: set<string>, ghost holds: (string, Privilege) -> bool)
    returns (passes: bool, missing: map<string, seq<Privilege>>, unexpected: map<string, seq<Privilege>>, vanished: seq<string>)
    requires Exhaustive(rows, tables, holds)
    ensures passes <==> ExactlyAsDeclared(tables, holds, restricted)
    ensures Reports(missing, rows, restricted, false) && Reports(unexpected, rows, restricted, true)
    ensures forall t, p :: t in unexpected && p in unexpected[t] <==> t in tables && holds(t, p) && Denies(restricted, t, p)
    ensures forall t, p :: t in missing && p in missing[t] <==> t in tables && !holds(t, p) && !Denies(restricted, t, p)
    ensures forall t :: t in vanished <==> t !in tables && exists i :: 0 <= i < |restricted| && restricted[i].table == t
  {
    var seen: set<string> := {};
    missing, unexpected := map[], map[];
    for k := 0 to |rows|
      invariant seen == set i | 0 <= i < k :: rows[i].tbl
      invariant missing == ReportOf(rows[..k], restricted, false)
      invariant unexpected == ReportOf(rows[..k], restricted, true)
    {
      var row := rows[k];
      assert rows[..k + 1][..k] == rows[..k];
      seen := seen + {row.tbl};
      if ShouldBeDenied(restricted, row.tbl, row.priv) == row.held {
        if row.held {
          unexpected := Append(unexpected, row);
        } else {
          missing := Append(missing, row);
        }
      }
    }
    assert rows[..|rows|] == rows;
    ReportsAreComplete(rows, restricted, false);
    ReportsAreComplete(rows, restricted, true);
    SeenIsEverything(rows, tables, holds);
    vanished := Vanished(restricted, seen);
    passes := missing == map[] && unexpected == map[] && vanished == [];
    PassesExactly(rows, restricted, tables, holds, missing, unexpected, vanished);
    ReportsAreThePairs(rows, restricted, tables, holds, missing, unexpected);
  }

  lemma SeenIsEverything(rows: seq<Row>, tables: set<string>, holds: (string, Privilege) -> bool)
    requires Exhaustive(rows, tables, holds)
    ensures (set i | 0 <= i < |rows| :: rows[i].tbl) == tables
  {
    var seen := set i | 0 <= i < |rows| :: rows[i].tbl;
    forall t | t in tables ensures t in seen {
      var row := Row(t, Select, holds(t, Select));
      assert row in rows;
      var i :| 0 <= i < |rows| && rows[i] == row;
      assert rows[i].tbl == t;
    }
    forall t | t in seen ensures t in tables {
      var i :| 0 <= i < |rows| && rows[i].tbl == t;
      assert rows[i] in rows;
    }
  }

  lemma NothingInIt<T>(xs: seq<T>)
    ensures xs == [] || xs[0] in xs
  {
  }

  lemma PassesExactly(rows: seq<Row>, restricted: seq<Restriction>, tables: set<string>, holds: (string, Privilege) -> bool,
                      missing: map<string, seq<Privilege>>, unexpected: map<string, seq<Privilege>>, vanished: seq<string>)
    requires Exhaustive(rows, tables, holds)
    requires Reports(missing, rows, restricted, false) && Reports(unexpected, rows, restricted, true)
    requires forall t :: t in vanished <==> t !in tables && exists i :: 0 <= i < |restricted| && restricted[i].table == t
    ensures missing == map[] && unexpected == map[] && vanished == [] <==> ExactlyAsDeclared(tables, holds, restricted)
  {
    forall t, held, p ensures p in Offences(rows, restricted, t, held) <==>
        t in tables && held == holds(t, p) && Denies(restricted, t, p) == held
    {
      OffencesAreTheOffenders(rows, restricted, t, held, p);
      assert Row(t, p, held).tbl == t;
    }
    if missing == map[] && unexpected == map[] && vanished == [] {
      forall t, p | t in tables ensures holds(t, p) <==> !Denies(restricted, t, p) {
        assert p !in Offences(rows, restricted, t, holds(t, p));
      }
      forall i | 0 <= i < |restricted| ensures restricted[i].table in tables {
        assert restricted[i].table !in vanished;
      }
    }
    if ExactlyAsDeclared(tables, holds, restricted) {
      forall t, held ensures Offences(rows, restricted, t, held) == [] {
        NothingInIt(Offences(rows, restricted, t, held));
      }
      assert forall t :: t !in missing && t !in unexpected;
      NothingInIt(vanished);
    }
  }

  /** The reports hold precisely the pairs on which the database and the declaration disagree. */
  lemma ReportsAreThePairs(rows: seq<Row>, restricted: seq<Restriction>, tables: set<string>, holds: (string, Privilege) -> bool,
                           missing: map<string, seq<Privilege>>, unexpected: map<string, seq<Privilege>>)
    requires Exhaustive(rows, tables, holds)
    requires Reports(missing, rows, restricted, false) && Reports(unexpected, rows, restricted, true)
    ensures forall t, p :: t in unexpected && p in unexpected[t] <==> t in tables && holds(t, p) && Denies(restricted, t, p)
    ensures forall t, p :: t in missing && p in missing[t] <==> t in tables && !holds(t, p) && !Denies(restricted, t, p)
  {
    forall t, p
      ensures t in unexpected && p in unexpected[t] <==> t in tables && holds(t, p) && Denies(restricted, t, p)
      ensures t in missing && p in missing[t] <==> t in tables && !holds(t, p) && !Denies(restricted, t, p)
    {
      OffencesAreTheOffenders(rows, restricted, t, true, p);
      OffencesAreTheOffenders(rows, restricted, t, false, p);
      assert Row(t, p, true).tbl == t && Row(t, p, false).tbl == t;
    }
  }
}
