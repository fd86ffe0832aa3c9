/**
 First writer wins: the first verified Access `sub` of an employee is bound to that employee for good. The
 binding is a conditional update under a unique index, by any number of callers at once, each working from a
 snapshot that may be out of date.
 */
module AccessBinding {
  import opened Wrappers

  type EmployeeId = string
  type Sub = string

  /** `email` is held lower-cased, as the unique index compares it. */
  datatype Employee = Employee(email: string, offboarded: bool, sub: Option<Sub>)

  type Table = map<EmployeeId, Employee>

  /** The unique indexes: one employee per address, one employee per bound `sub`. */
  ghost predicate Unique(t: Table) {
    && (forall a, b :: a in t && b in t && t[a].email == t[b].email ==> a == b)
    && (forall a, b :: a in t && b in t && t[a].sub.Some? && t[a].sub == t[b].sub ==> a == b)
  }

  predicate BoundTo(t: Table, id: EmployeeId, sub: Sub) {
    id in t && t[id].sub == Some(sub)
  }

  predicate BoundElsewhere(t: Table, id: EmployeeId, sub: Sub) {
    exists other :: other in t && other != id && t[other].sub == Some(sub)
  }

  /** The employee has another `sub`, or the `sub` another employee. */
  predicate Taken(t: Table, id: EmployeeId, sub: Sub) {
    (id in t && t[id].sub.Some? && t[id].sub != Some(sub)) || BoundElsewhere(t, id, sub)
  }

  /** What anything may do to the table: addresses and statuses change, people join; a bound `sub` stays. */
  ghost predicate Evolves(t: Table, u: Table) {
    && (Unique(t) ==> Unique(u))
    && (forall id :: id in t ==> id in u && (t[id].sub.Some? ==> u[id].sub == t[id].sub))
  }

  lemma EvolvesIsTransitive(t: Table, u: Table, w: Table)
    requires Evolves(t, u) && Evolves(u, w)
    ensures Evolves(t, w)
  {
  }

  /** A binding lasts; and what is taken stays taken, so a refusal is never premature. */
  lemma FactsLast(t: Table, u: Table, id: EmployeeId, sub: Sub)
    requires Unique(t) && Evolves(t, u)
    ensures BoundTo(t, id, sub) ==> BoundTo(u, id, sub)
    ensures Taken(t, id, sub) ==> Taken(u, id, sub)
    ensures Taken(u, id, sub) ==> !BoundTo(u, id, sub)
  {
    if BoundElsewhere(t, id, sub) {
      var other :| other in t && other != id && t[other].sub == Some(sub);
      assert other in u && u[other].sub == Some(sub);
    }
  }

  // ── The statements ──────────────────────────────────────────────────────────

  datatype Update = Wrote | NoRow | UniqueViolation

  /** `UPDATE … SET access_sub = sub WHERE id = id AND access_sub IS NULL`, under the unique index. */
  function TryBind(t: Table, id: EmployeeId, sub: Sub): (Update, Table) {
    if id !in t || t[id].sub.Some? then (NoRow, t)
    else if BoundElsewhere(t, id, sub) then (UniqueViolation, t)
    else (Wrote, t[id := t[id].(sub := Some(sub))])
  }

  /** `u` is `t` with `sub` written on one employee, and nothing else. */
  predicate BindsOnly(t: Table, u: Table, id: EmployeeId, sub: Sub) {
    && u.Keys == t.Keys && id in t && (forall other :: other in t && other != id ==> u[other] == t[other])
    && u[id].email == t[id].email && u[id].offboarded == t[id].offboarded && u[id].sub == Some(sub)
  }

  /** An employee without a `sub`, and a `sub` without an employee. */
  predicate Free(t: Table, id: EmployeeId, sub: Sub) {
    id in t && t[id].sub.None? && forall other :: other in t ==> t[other].sub != Some(sub)
  }

  /** The update binds if both are free, and writes nothing else; or it says why it could not, and writes nothing. */
  lemma TryBindTells(t: Table, id: EmployeeId, sub: Sub)
    requires Unique(t)
    ensures var (r, u) := TryBind(t, id, sub);
            && Evolves(t, u)
            && (r.Wrote? <==> Free(t, id, sub)) && (if r.Wrote? then BindsOnly(t, u, id, sub) else u == t)
            && (r.UniqueViolation? ==> id in t && t[id].sub.None? && BoundElsewhere(t, id, sub))
            && (r.Wrote? <==> t != u)
            && (r.Wrote? ==> BoundTo(u, id, sub))
            && (!r.Wrote? && id in t ==> BoundTo(u, id, sub) || Taken(u, id, sub))
  {
  }

  // ── Errors, as the driver wraps them ────────────────────────────────────────

  /** Anything that can be thrown: a value that is no object, or an object that may carry a code and a cause. */
  datatype Thrown = NonObject | Object(code: Option<string>, cause: Option<Thrown>)

  const UNIQUE_VIOLATION := "23505"

  /** The error `depth` causes down, if the chain goes that far. */
  function CauseAt(err: Thrown, depth: nat): Option<Thrown> {
    if depth == 0 then Some(err)
    else if err.Object? && err.cause.Some? then CauseAt(err.cause.value, depth - 1)
    else None
  }

  ghost predicate Mentions(err: Thrown, code: string) {
    exists depth :: CauseAt(err, depth).Some? && CauseAt(err, depth).value.Object? && CauseAt(err, depth).value.code == Some(code)
  }

  lemma {:induction false} CauseOfCause(err: Thrown, depth: nat)
    requires CauseAt(err, depth).Some?
    ensures CauseAt(err, depth + 1) ==
            if CauseAt(err, depth).value.Object? then CauseAt(err, depth).value.cause else None
  {
    if depth > 0 {
      CauseOfCause(err.cause.value, depth - 1);
    }
  }

  lemma {:induction false} NothingBeyondTheEnd(err: Thrown, end: nat, depth: nat)
    requires CauseAt(err, end).None? && depth >= end
    ensures CauseAt(err, depth).None?
  {
    if end > 0 && err.Object? && err.cause.Some? {
      NothingBeyondTheEnd(err.cause.value, end - 1, depth - 1);
    }
  }

  /** The code is found however deep the driver has wrapped it, and only if it is there. */
  method IsUniqueViolation(err: Thrown) returns (found: bool)
    ensures found <==> Mentions(err, "23505")
  {
    var current := Some(err);
    ghost var depth := 0;
    while current.Some?
      invariant current == CauseAt(err, depth)
      invariant forall d :: 0 <= d < depth ==>
                  CauseAt(err, d).Some? && !(CauseAt(err, d).value.Object? && CauseAt(err, d).value.code == Some(UNIQUE_VIOLATION))
      decreases current.Some?, current
    {
      if current.value.Object? && current.value.code == Some(UNIQUE_VIOLATION) {
        return true;
      }
      CauseOfCause(err, depth);
      current := if current.value.Object? then current.value.cause else None;
      depth := depth + 1;
    }
    forall d: nat
      ensures !(CauseAt(err, d).Some? && CauseAt(err, d).value.Object? && CauseAt(err, d).value.code == Some(UNIQUE_VIOLATION))
    {
      if d >= depth { NothingBeyondTheEnd(err, depth, d); }
    }
    found := false;
  }

  // ── One caller ──────────────────────────────────────────────────────────────

  datatype Answer = Bound | Denied | Unavailable

  class EmployeeTable {
    var rows: Table

    /**
     The update statement, through the driver: an outage, or a unique violation wrapped `wrapping` deep, is
     thrown; otherwise the number of rows it wrote comes back.
     */
    method UpdateSub(id: EmployeeId, sub: Sub, outage: Option<Thrown>, wrapped: Thrown) returns (wrote: nat, err: Option<Thrown>)
      requires Unique(rows) && Mentions(wrapped, UNIQUE_VIOLATION)
      modifies this
      ensures if outage.Some? then rows == old(rows) && err == outage
              else
                var (r, u) := TryBind(old(rows), id, sub);
                && rows == u
                && wrote == (if r.Wrote? then 1 else 0)
                && err == if r.UniqueViolation? then Some(wrapped) else None
      ensures outage.None? ==>
                && (wrote == 1 <==> Free(old(rows), id, sub))
                && (if wrote == 1 then BindsOnly(old(rows), rows, id, sub) else rows == old(rows))
                && (err.Some? <==> id in old(rows) && old(rows)[id].sub.None? && BoundElsewhere(old(rows), id, sub))
    {
      if outage.Some? {
        return 0, outage;
      }
      var (r, u) := TryBind(rows, id, sub);
      rows := u;
      wrote := if r.Wrote? then 1 else 0;
      err := if r.UniqueViolation? then Some(wrapped) else None;
    }

    /**
     Bind the first `sub`. `seen` is what the caller's earlier lookup read; `others(k, t)` is what everyone
     else has made of table `t` by the caller's next statement. The answer is exact and final: bound means the
     pair is bound now and, by `FactsLast`, for good; denied means it never can be.
     */
    method BindAccessSub(id: EmployeeId, seen: Option<Sub>, sub: Sub, others: (nat, Table) -> Table,
                         outage: Option<Thrown>, wrapped: Thrown) returns (answer: Answer)
      requires Unique(rows) && id in rows && (seen.Some? ==> rows[id].sub == seen)
      requires forall k, t :: Evolves(t, others(k, t))
      requires Mentions(wrapped, UNIQUE_VIOLATION)
      requires outage.Some? ==> !Mentions(outage.value, UNIQUE_VIOLATION)
      modifies this
      ensures Unique(rows) && Evolves(old(rows), rows)
      ensures answer.Bound? ==> BoundTo(rows, id, sub)
      ensures answer.Denied? ==> Taken(rows, id, sub)
      ensures answer.Unavailable? <==> outage.Some? && seen.None?
      ensures seen.Some? ==> rows == old(rows) && (answer.Bound? <==> seen == Some(sub))
    {
      ghost var before := rows;
      if seen == Some(sub) {
        return Bound;
      }
      if seen.Some? {
        return Denied;
      }
      rows := others(0, rows);
      EvolvesIsTransitive(before, before, rows);
      TryBindTells(rows, id, sub);
      ghost var atUpdate := rows;
      var wrote, err := UpdateSub(id, sub, outage, wrapped);
      EvolvesIsTransitive(before, atUpdate, rows);
      if err.Some? {
        var violation := IsUniqueViolation(err.value);
        if !violation {
          return Unavailable;
        }
      } else if wrote > 0 {
        return Bound;
      }
      ghost var afterUpdate := rows;
      rows := others(1, rows);
      FactsLast(afterUpdate, rows, id, sub);
      EvolvesIsTransitive(before, afterUpdate, rows);
      // Re-read: whoever won decides.
      answer := if id in rows && rows[id].sub == Some(sub) then Bound else Denied;
    }
  }

  // ── Any number of callers ───────────────────────────────────────────────────

  datatype Reason = NoEmailClaim | NoActiveEmployee | AccessSubMismatch

  datatype Phase =
    | Verified                                        // the token checked out; nothing read yet
    | Found(id: EmployeeId, seen: Option<Sub>)        // the lookup's snapshot
    | Tried(id: EmployeeId)                           // the update wrote nothing; the re-read is next
    | Succeeded(id: EmployeeId)
    | Refused(reason: Reason, id: EmployeeId)

  datatype Call = Call(sub: Sub, email: Option<string>, phase: Phase)

  datatype State = State(table: Table, calls: map<nat, Call>)

  /** A statement of one call, a new call, or any change to the table by anyone else. */
  datatype Step =
    | Arrive(c: nat, sub: Sub, email: Option<string>)
    | Lookup(c: nat, hit: Option<EmployeeId>)
    | Decide(c: nat)
    | Bind(c: nat)
    | Reread(c: nat)
    | Elsewhere(table: Table)

  /** The employee the lookup may return: the address matches and the status is not offboarded. */
  predicate Answers(t: Table, email: string, hit: Option<EmployeeId>) {
    match hit
    case Some(id) => id in t && t[id].email == email && !t[id].offboarded
    case None => forall id :: id in t ==> t[id].email != email || t[id].offboarded
  }

  ghost predicate Enabled(s: State, step: Step) {
    match step
    case Arrive(c, _, _) => c !in s.calls
    case Lookup(c, hit) =>
      && c in s.calls && s.calls[c].phase.Verified?
      && (s.calls[c].email.Some? ==> Answers(s.table, s.calls[c].email.value, hit))
    case Decide(c) => c in s.calls && s.calls[c].phase.Found? && s.calls[c].phase.seen.Some?
    case Bind(c) => c in s.calls && s.calls[c].phase.Found? && s.calls[c].phase.seen.None?
    case Reread(c) => c in s.calls && s.calls[c].phase.Tried?
    case Elsewhere(t) => Evolves(s.table, t)
  }

  function At(s: State, c: nat, phase: Phase): State {
    if c in s.calls then s.(calls := s.calls[c := s.calls[c].(phase := phase)]) else s
  }

  function Apply(s: State, step: Step): State {
    match step
    case Arrive(c, sub, email) => s.(calls := s.calls[c := Call(sub, email, Verified)])
    case Lookup(c, hit) =>
      if c !in s.calls then s
      else if s.calls[c].email.None? || s.calls[c].email.value == "" then At(s, c, Refused(NoEmailClaim, ""))
      else if hit.None? || hit.value !in s.table then At(s, c, Refused(NoActiveEmployee, ""))
      else At(s, c, Found(hit.value, s.table[hit.value].sub))
    case Decide(c) =>
      if c !in s.calls || !s.calls[c].phase.Found? then s
      else
        var p := s.calls[c].phase;
        At(s, c, if p.seen == Some(s.calls[c].sub) then Succeeded(p.id) else Refused(AccessSubMismatch, p.id))
    case Bind(c) =>
      if c !in s.calls || !s.calls[c].phase.Found? then s
      else
        var id := s.calls[c].phase.id;
        var (r, t) := TryBind(s.table, id, s.calls[c].sub);
        At(s.(table := t), c, if r.Wrote? then Succeeded(id) else Tried(id))
    case Reread(c) =>
      if c !in s.calls || !s.calls[c].phase.Tried? then s
      else
        var id := s.calls[c].phase.id;
        At(s, c, if BoundTo(s.table, id, s.calls[c].sub) then Succeeded(id) else Refused(AccessSubMismatch, id))
    case Elsewhere(t) => s.(table := t)
  }

  /** What a call knows, or has answered, is true of the table as it is now. */
  predicate CallOk(s: State, c: nat) {
    c in s.calls ==>
      match s.calls[c].phase
      case Verified => true
      case Found(id, seen) => id in s.table && (seen.Some? ==> s.table[id].sub == seen)
      case Tried(id) => id in s.table && (BoundTo(s.table, id, s.calls[c].sub) || Taken(s.table, id, s.calls[c].sub))
      case Succeeded(id) => BoundTo(s.table, id, s.calls[c].sub)
      case Refused(reason, id) => reason == AccessSubMismatch ==> Taken(s.table, id, s.calls[c].sub)
  }

  ghost predicate Inv(s: State) {
    Unique(s.table) && forall c :: c in s.calls ==> CallOk(s, c)
  }

  lemma StepEvolves(s: State, step: Step)
    requires Inv(s) && Enabled(s, step)
    ensures Evolves(s.table, Apply(s, step).table)
  {
    if step.Bind? {
      TryBindTells(s.table, s.calls[step.c].phase.id, s.calls[step.c].sub);
    }
  }

  lemma CallStaysOk(s: State, step: Step, c: nat)
    requires Inv(s) && Enabled(s, step) && c in Apply(s, step).calls
    ensures CallOk(Apply(s, step), c)
  {
    StepEvolves(s, step);
    var t := Apply(s, step);
    if step.Bind? {
      TryBindTells(s.table, s.calls[step.c].phase.id, s.calls[step.c].sub);
    }
    if c in s.calls {
      assert CallOk(s, c);
      match s.calls[c].phase
      case Tried(id) => FactsLast(s.table, t.table, id, s.calls[c].sub);
      case Succeeded(id) => FactsLast(s.table, t.table, id, s.calls[c].sub);
      case Refused(_, id) => FactsLast(s.table, t.table, id, s.calls[c].sub);
      case _ =>
    }
  }

  /** Each step keeps every call's answer true, and leaves every call that has answered alone. */
  lemma StepKeeps(s: State, step: Step)
    requires Inv(s) && Enabled(s, step)
    ensures Inv(Apply(s, step)) && Evolves(s.table, Apply(s, step).table)
    ensures forall c :: c in s.calls ==> c in Apply(s, step).calls && Apply(s, step).calls[c].sub == s.calls[c].sub
    ensures forall c :: c in s.calls && (s.calls[c].phase.Succeeded? || s.calls[c].phase.Refused?)
              ==> Apply(s, step).calls[c] == s.calls[c]
  {
    StepEvolves(s, step);
    forall c | c in Apply(s, step).calls ensures CallOk(Apply(s, step), c) {
      CallStaysOk(s, step, c);
    }
  }

  function After(s: State, steps: seq<Step>): State {
    if steps == [] then s else Apply(After(s, steps[..|steps| - 1]), steps[|steps| - 1])
  }

  ghost predicate Legal(s: State, steps: seq<Step>) {
    steps == [] || (Legal(s, steps[..|steps| - 1]) && Enabled(After(s, steps[..|steps| - 1]), steps[|steps| - 1]))
  }

  /**
   Over any run, from any good state: a bound `sub` never changes and stays with one employee, and every answer
   given before still stands.
   */
  lemma {:induction false} BindingsLast(s: State, steps: seq<Step>)
    requires Inv(s) && Legal(s, steps)
    ensures Inv(After(s, steps)) && Evolves(s.table, After(s, steps).table)
    ensures forall c :: c in s.calls && (s.calls[c].phase.Succeeded? || s.calls[c].phase.Refused?)
              ==> c in After(s, steps).calls && After(s, steps).calls[c] == s.calls[c]
  {
    if steps != [] {
      var n := |steps| - 1;
      BindingsLast(s, steps[..n]);
      StepKeeps(After(s, steps[..n]), steps[n]);
      EvolvesIsTransitive(s.table, After(s, steps[..n]).table, After(s, steps).table);
    }
  }

  // ── Nobody is refused who should not be ─────────────────────────────────────

  /** The address the token gave. */
  predicate HasAddress(call: Call, email: string) {
    call.email == Some(email) && email != ""
  }

  /**
   The lookup is exact. It refuses a call without an address, and a call whose address no employee has who is not
   offboarded; and of any other call it finds the one who has it, with the `sub` that was bound at that moment.
   */
  lemma LookupIsExact(s: State, c: nat, hit: Option<EmployeeId>)
    requires Inv(s) && Enabled(s, Lookup(c, hit))
    ensures var t := Apply(s, Lookup(c, hit));
            && t.table == s.table && c in t.calls
            && var phase := t.calls[c].phase;
               && ((phase.Refused? && phase.reason.NoEmailClaim?) <==> forall email :: !HasAddress(s.calls[c], email))
               && ((phase.Refused? && phase.reason.NoActiveEmployee?) <==>
                     exists email :: HasAddress(s.calls[c], email) && !SomeoneHas(s.table, email))
               && (phase.Found? <==> exists email :: HasAddress(s.calls[c], email) && SomeoneHas(s.table, email))
               && (phase.Found? ==>
                     && HasAddress(s.calls[c], s.table[phase.id].email) && !s.table[phase.id].offboarded
                     && phase.seen == s.table[phase.id].sub
                     && (forall id :: id in s.table && HasAddress(s.calls[c], s.table[id].email) ==> id == phase.id))
  {
    var call := s.calls[c];
    if call.email.Some? && call.email.value != "" {
      assert HasAddress(call, call.email.value);
    }
  }

  predicate SomeoneHas(t: Table, email: string) {
    exists id :: id in t && t[id].email == email && !t[id].offboarded
  }

  /** A new call is the one that was made, and has been told nothing. */
  lemma ArrivalsAreAsked(s: State, c: nat, sub: Sub, email: Option<string>)
    requires Enabled(s, Arrive(c, sub, email))
    ensures var t := Apply(s, Arrive(c, sub, email));
            && t.table == s.table && c in t.calls && t.calls[c].sub == sub && t.calls[c].email == email
            && t.calls[c].phase.Verified?
            && (forall d :: d in s.calls ==> d in t.calls && t.calls[d] == s.calls[d])
  {
  }

  /** No call is stuck: whatever it has been told, its next statement can run. */
  lemma NoCallIsStuck(s: State, c: nat)
    requires c in s.calls
    ensures s.calls[c].phase.Verified? ==> exists hit :: Enabled(s, Lookup(c, hit))
    ensures s.calls[c].phase.Found? ==> Enabled(s, Decide(c)) || Enabled(s, Bind(c))
    ensures s.calls[c].phase.Found? && s.calls[c].phase.seen.None? ==> Enabled(s, Bind(c))
    ensures s.calls[c].phase.Tried? ==> Enabled(s, Reread(c))
  {
    if s.calls[c].phase.Verified? {
      var email := if s.calls[c].email.Some? then s.calls[c].email.value else "";
      if SomeoneHas(s.table, email) {
        var id :| id in s.table && s.table[id].email == email && !s.table[id].offboarded;
        assert Enabled(s, Lookup(c, Some(id)));
      } else {
        assert Enabled(s, Lookup(c, None));
      }
    }
  }

  /** Each later statement answers yes if it finds the pair bound or binds it, and only then. */
  lemma AnswersAreExact(s: State, step: Step)
    requires Inv(s) && Enabled(s, step) && (step.Decide? || step.Bind? || step.Reread?)
    ensures var t, call := Apply(s, step), s.calls[step.c];
            && step.c in t.calls
            && var id, phase := call.phase.id, t.calls[step.c].phase;
               && (phase.Succeeded? ==> phase.id == id)
               && (step.Decide? ==> t.table == s.table && (phase.Succeeded? <==> call.phase.seen == Some(call.sub)))
               && (step.Bind? ==> (phase.Succeeded? <==> Free(s.table, id, call.sub)) && (phase.Tried? <==> !phase.Succeeded?))
               && (step.Bind? ==> if phase.Succeeded? then BindsOnly(s.table, t.table, id, call.sub) else t.table == s.table)
               && (step.Reread? ==> t.table == s.table && (phase.Succeeded? <==> BoundTo(s.table, id, call.sub)))
               && (phase.Tried? || (phase.Succeeded? <==> BoundTo(t.table, id, call.sub)))
  {
    var call := s.calls[step.c];
    assert CallOk(s, step.c);
    TryBindTells(s.table, call.phase.id, call.sub);
  }

  /**
   Over any run: a call that found an employee and is through was answered yes if and only if its pair is bound. So
   whoever is bound was not refused, and whoever was refused is not bound.
   */
  lemma AnsweredYesMeansBound(s: State, steps: seq<Step>, c: nat)
    requires Unique(s.table) && s.calls == map[] && Legal(s, steps)
    requires var t := After(s, steps);
             c in t.calls && (t.calls[c].phase.Succeeded? || (t.calls[c].phase.Refused? && t.calls[c].phase.reason.AccessSubMismatch?))
    ensures var t := After(s, steps);
            t.calls[c].phase.Succeeded? <==> BoundTo(t.table, t.calls[c].phase.id, t.calls[c].sub)
  {
    BindingsLast(s, steps);
    var t := After(s, steps);
    assert CallOk(t, c);
    FactsLast(t.table, t.table, t.calls[c].phase.id, t.calls[c].sub);
  }

  /**
   The first writer does win: of callers that found an employee without a `sub`, the first whose own `sub` is free when
   it writes is bound, for good; and any other for that employee, or for that `sub`, is refused whenever it is through.
   */
  lemma TheFirstFreeWriterWins(s: State, c: nat, later: seq<Step>, d: nat)
    requires Inv(s) && Enabled(s, Bind(c)) && Free(s.table, s.calls[c].phase.id, s.calls[c].sub)
    requires Legal(Apply(s, Bind(c)), later)
    ensures var id, sub, t := s.calls[c].phase.id, s.calls[c].sub, After(Apply(s, Bind(c)), later);
            && BoundTo(t.table, id, sub) && c in t.calls && t.calls[c].phase == Succeeded(id)
            && (d in t.calls && t.calls[d].phase.Succeeded? ==> (t.calls[d].phase.id == id <==> t.calls[d].sub == sub))
  {
    var id, sub := s.calls[c].phase.id, s.calls[c].sub;
    AnswersAreExact(s, Bind(c));
    StepKeeps(s, Bind(c));
    BindingsLast(Apply(s, Bind(c)), later);
    var t := After(Apply(s, Bind(c)), later);
    FactsLast(Apply(s, Bind(c)).table, t.table, id, sub);
    assert CallOk(t, c) && CallOk(t, d);
  }

  /**
   However the callers race: two calls that succeed agree, employee for `sub` and `sub` for employee; and a
   call refused for a mismatch asked for a pair that is not bound and that no later run can bind.
   */
  lemma FirstWriterWins(s: State, steps: seq<Step>, later: seq<Step>, c: nat, d: nat)
    requires Unique(s.table) && s.calls == map[] && Legal(s, steps) && Legal(After(s, steps), later)
    requires var t := After(s, steps); c in t.calls && d in t.calls
    ensures var t := After(s, steps);
            t.calls[c].phase.Succeeded? && t.calls[d].phase.Succeeded? ==>
              (t.calls[c].sub == t.calls[d].sub <==> t.calls[c].phase.id == t.calls[d].phase.id)
    ensures var t := After(s, steps);
            t.calls[c].phase.Succeeded? ==> BoundTo(After(t, later).table, t.calls[c].phase.id, t.calls[c].sub)
    ensures var t := After(s, steps);
            t.calls[c].phase.Refused? && t.calls[c].phase.reason == AccessSubMismatch ==>
              !BoundTo(After(t, later).table, t.calls[c].phase.id, t.calls[c].sub)
  {
    BindingsLast(s, steps);
    var t := After(s, steps);
    BindingsLast(t, later);
    assert CallOk(t, c) && CallOk(t, d);
    if t.calls[c].phase.Succeeded? || t.calls[c].phase.Refused? {
      FactsLast(t.table, After(t, later).table, t.calls[c].phase.id, t.calls[c].sub);
    }
  }
}
