/**
 One deadline over a whole Graph request: the token, the redirects and the call itself. The request is a race
 between the middleware below the timeout handler and the deadline, in every order the events can come in.
 */
module GraphHttp {
  import opened Wrappers
  import opened GraphTask

  // ── The race, on values ─────────────────────────────────────────────────────

  datatype Result = Ok | Error

  /** Where the middleware below the timeout handler is. */
  datatype Inner = AwaitingToken | Fetching | Finished(result: Result)

  datatype Outcome = FromInner(result: Result) | DeadlineExceeded

  datatype Settled = Settled(outcome: Outcome, at: int)

  /**
   A request in progress. `armedAt` is when the deadline's clock started, `sends` the times at which a request
   went out, `late` whether the inner chain finished only after the deadline, and `listening` whether the
   abort listener is still registered.
   */
  datatype Exchange = Exchange(
    now: int,
    timeoutMs: nat,
    armedAt: Option<int>,
    expired: bool,
    cancelled: bool,
    inner: Inner,
    late: bool,
    settled: Option<Settled>,
    listening: bool,
    sends: seq<int>)

  datatype Event =
    | Tick(ms: nat)
    | DeadlineFires
    | CallerAborts
    | TokenArrives
    | TokenFails
    | Redirected
    | Responds
    | Breaks

  /** The signal the request carries: the deadline's, joined with the caller's own. */
  predicate Aborted(x: Exchange) {
    x.expired || x.cancelled
  }

  /** A timer fires on time: the clock does not pass an armed deadline that has not fired. */
  predicate CanHappen(x: Exchange, e: Event) {
    match e
    case Tick(ms) => x.armedAt.None? || x.expired || x.now + ms <= x.armedAt.value + x.timeoutMs
    case DeadlineFires => x.armedAt.Some? && !x.expired && x.now >= x.armedAt.value + x.timeoutMs
    case CallerAborts => !x.cancelled
    case TokenArrives => x.inner.AwaitingToken?
    case TokenFails => x.inner.AwaitingToken?
    case Redirected => x.inner.Fetching?
    case Responds => x.inner.Fetching?
    case Breaks => x.inner.Fetching?
  }

  /** `Promise.race`: the first outcome stands, and settling removes the listener. */
  function Settle(x: Exchange, outcome: Outcome): Exchange {
    if x.settled.Some? then x else x.(settled := Some(Settled(outcome, x.now)), listening := false)
  }

  function InnerFinishes(x: Exchange, result: Result): Exchange {
    Settle(x.(inner := Finished(result), late := x.expired), FromInner(result))
  }

  /** `fetch` refuses a signal that is already aborted. */
  function Fetch(x: Exchange): Exchange {
    if Aborted(x) then InnerFinishes(x, Error) else x.(inner := Fetching, sends := x.sends + [x.now])
  }

  function Arm(x: Exchange): Exchange {
    if x.armedAt.None? then x.(armedAt := Some(x.now)) else x
  }

  function Next(x: Exchange, e: Event): Exchange {
    match e
    case Tick(ms) => x.(now := x.now + ms)
    case DeadlineFires =>
      var y := x.(expired := true);
      if x.listening then Settle(y, DeadlineExceeded) else y
    case CallerAborts => x.(cancelled := true)
    case TokenArrives => Fetch(Arm(x))
    case TokenFails => InnerFinishes(x, Error)
    case Redirected => Fetch(x)
    case Responds => InnerFinishes(x, Ok)
    case Breaks => InnerFinishes(x, Error)
  }

  /** The state as `execute` returns its promise; `first` says whether the handler is above the token. */
  function Begin(now: int, timeoutMs: nat, first: bool): Exchange {
    Exchange(now, timeoutMs, if first then Some(now) else None, false, false, AwaitingToken, false, None, true, [])
  }

  function After(x: Exchange, events: seq<Event>): Exchange {
    if events == [] then x else Next(After(x, events[..|events| - 1]), events[|events| - 1])
  }

  predicate Legal(x: Exchange, events: seq<Event>) {
    events == [] || (Legal(x, events[..|events| - 1]) && CanHappen(After(x, events[..|events| - 1]), events[|events| - 1]))
  }

  // ── What holds in every interleaving ────────────────────────────────────────

  predicate Inv(x: Exchange, start: int) {
    && x.armedAt == Some(start)
    && start <= x.now
    && (!x.expired ==> x.now <= start + x.timeoutMs)
    && (x.settled.Some? ==> start <= x.settled.value.at <= x.now && x.settled.value.at <= start + x.timeoutMs)
    && x.listening == x.settled.None?
    && (forall i :: 0 <= i < |x.sends| ==> start <= x.sends[i] <= start + x.timeoutMs)
    && (x.late ==> x.inner.Finished? && x.expired)
    && (x.settled.Some? ==>
          x.settled.value.outcome == if x.inner.Finished? && !x.late then FromInner(x.inner.result) else DeadlineExceeded)
    && (x.settled.Some? <==> x.inner.Finished? || x.expired)
  }

  lemma StepKeeps(x: Exchange, start: int, e: Event)
    requires Inv(x, start) && CanHappen(x, e)
    ensures Inv(Next(x, e), start)
  {
  }

  lemma {:induction false} EveryInterleaving(start: int, timeoutMs: nat, events: seq<Event>)
    requires Legal(Begin(start, timeoutMs, true), events)
    ensures var x := After(Begin(start, timeoutMs, true), events); Inv(x, start) && x.timeoutMs == timeoutMs
  {
    if events != [] {
      EveryInterleaving(start, timeoutMs, events[..|events| - 1]);
      StepKeeps(After(Begin(start, timeoutMs, true), events[..|events| - 1]), start, events[|events| - 1]);
    }
  }

  /**
   Whatever order the token, the redirects, the response, a failure, the caller's own abort and the deadline
   come in: by the deadline `execute` has settled, with the inner outcome if that came first and with the
   deadline error otherwise, its listener is gone, and every request that went out went out by the deadline.
   */
  lemma SettlesByTheDeadline(start: int, timeoutMs: nat, events: seq<Event>)
    requires Legal(Begin(start, timeoutMs, true), events)
    ensures var x := After(Begin(start, timeoutMs, true), events);
            && (x.now > start + timeoutMs || x.expired ==> x.settled.Some? && !x.listening)
            && (x.settled.Some? ==> x.settled.value.at <= start + timeoutMs)
            && (x.settled.Some? ==>
                  (x.settled.value.outcome == DeadlineExceeded <==> !x.inner.Finished? || x.late))
            && (forall i :: 0 <= i < |x.sends| ==> x.sends[i] <= start + timeoutMs)
  {
    EveryInterleaving(start, timeoutMs, events);
  }

  /** Once settled, nothing that happens later changes the outcome. */
  lemma {:induction false} SettlesOnce(x: Exchange, events: seq<Event>)
    requires x.settled.Some?
    ensures After(x, events).settled == x.settled
  {
    if events != [] {
      SettlesOnce(x, events[..|events| - 1]);
    }
  }

  lemma AbortedSendsNothing(x: Exchange, e: Event)
    requires Aborted(x)
    ensures Aborted(Next(x, e)) && Next(x, e).sends == x.sends
  {
  }

  /** Once the deadline has fired, or the caller has aborted, no request goes out: not for a late token, not for a redirect. */
  lemma {:induction false} NothingIsSentAfterAbort(x: Exchange, events: seq<Event>)
    requires Aborted(x)
    ensures Aborted(After(x, events)) && After(x, events).sends == x.sends
  {
    if events != [] {
      NothingIsSentAfterAbort(x, events[..|events| - 1]);
      AbortedSendsNothing(After(x, events[..|events| - 1]), events[|events| - 1]);
    }
  }

  /** The request settled in time and sent nothing late, in whatever order its events came. */
  ghost predicate Bounded(first: bool) {
    forall start: int, timeoutMs: nat, events: seq<Event> :: Legal(Begin(start, timeoutMs, first), events) ==>
      var x := After(Begin(start, timeoutMs, first), events);
      && (x.now > start + timeoutMs ==> x.settled.Some?)
      && (forall i :: 0 <= i < |x.sends| ==> x.sends[i] <= start + timeoutMs)
  }

  /**
   Being first in the chain is what makes it so. Below the token the clock starts only when the token arrives,
   and a token that stalls leaves the request open for as long as it likes and then sends it.
   */
  lemma FirstInTheChainIsNeeded(first: bool)
    ensures Bounded(first) <==> first
  {
    if first {
      forall start: int, timeoutMs: nat, events: seq<Event> | Legal(Begin(start, timeoutMs, true), events)
        ensures var x := After(Begin(start, timeoutMs, true), events);
                && (x.now > start + timeoutMs ==> x.settled.Some?)
                && (forall i :: 0 <= i < |x.sends| ==> x.sends[i] <= start + timeoutMs)
      {
        SettlesByTheDeadline(start, timeoutMs, events);
      }
    } else {
      var x0 := Begin(0, GRAPH_CALL_TIMEOUT_MS, false);
      var events := [Tick(GRAPH_CALL_TIMEOUT_MS + 1)];
      assert events[..0] == [];
      assert Legal(x0, events) && After(x0, events).now > 0 + GRAPH_CALL_TIMEOUT_MS;
      assert After(x0, events).settled.None?;
    }
  }

  // ── What the events alone say ───────────────────────────────────────────────

  function Elapsed(events: seq<Event>): nat {
    if events == [] then 0
    else Elapsed(events[..|events| - 1]) + if events[|events| - 1].Tick? then events[|events| - 1].ms else 0
  }

  predicate Fired(events: seq<Event>) {
    exists i :: 0 <= i < |events| && events[i].DeadlineFires?
  }

  predicate Called(events: seq<Event>) {
    exists i :: 0 <= i < |events| && events[i].CallerAborts?
  }

  /** The request is about to go out, for the first time or to where it was redirected. */
  predicate Sends(e: Event) {
    e.TokenArrives? || e.Redirected?
  }

  /** The times at which a request goes out: at each token and each redirect, until the deadline or the caller stops it. */
  function SendTimes(start: int, events: seq<Event>): seq<int> {
    if events == [] then []
    else
      var before := events[..|events| - 1];
      SendTimes(start, before) +
        if Sends(events[|events| - 1]) && !Fired(before) && !Called(before) then [start + Elapsed(before)] else []
  }

  /** An event that ends the call: the deadline, a failed token, a response, a break, or a request that may not go out. */
  predicate Ends(events: seq<Event>, i: nat)
    requires i < |events|
  {
    || events[i].DeadlineFires? || events[i].TokenFails? || events[i].Responds? || events[i].Breaks?
    || (Sends(events[i]) && (Fired(events[..i]) || Called(events[..i])))
  }

  predicate EndsFirst(events: seq<Event>, i: nat) {
    i < |events| && Ends(events, i) && forall j: nat :: j < i ==> !Ends(events, j)
  }

  /** The state is what the events say. */
  ghost predicate Tells(start: int, events: seq<Event>, x: Exchange) {
    && x.now == start + Elapsed(events) && (x.expired <==> Fired(events)) && (x.cancelled <==> Called(events))
    && x.sends == SendTimes(start, events) && (x.inner.Fetching? ==> x.sends != [])
    && (x.settled.None? <==> forall i: nat :: i < |events| ==> !Ends(events, i))
  }

  lemma OneEventMore(events: seq<Event>)
    requires events != []
    ensures var n := |events| - 1;
            && (Fired(events) <==> Fired(events[..n]) || events[n].DeadlineFires?)
            && (Called(events) <==> Called(events[..n]) || events[n].CallerAborts?)
            && (forall i: nat :: i < n ==> (Ends(events, i) <==> Ends(events[..n], i)))
  {
    var n := |events| - 1;
    assert forall i :: 0 <= i < n ==> events[..n][i] == events[i];
    forall i: nat | i < n ensures Ends(events, i) <==> Ends(events[..n], i) {
      assert events[..n][..i] == events[..i];
    }
  }

  lemma NoEndYet(events: seq<Event>)
    requires events != []
    ensures var n := |events| - 1;
            (forall i: nat :: i < |events| ==> !Ends(events, i)) <==>
            (forall i: nat :: i < n ==> !Ends(events[..n], i)) && !Ends(events, n)
  {
    OneEventMore(events);
  }

  /** One more event, and the clock and the two aborts are still what the events say. */
  lemma OneEventPasses(start: int, before: seq<Event>, x: Exchange, e: Event)
    requires Tells(start, before, x)
    ensures var y, events := Next(x, e), before + [e];
            y.now == start + Elapsed(events) && (y.expired <==> Fired(events)) && (y.cancelled <==> Called(events))
  {
    var events := before + [e];
    assert events[..|before|] == before;
    OneEventMore(events);
  }

  /** So are the requests that went out. */
  lemma OneEventSends(start: int, before: seq<Event>, x: Exchange, e: Event)
    requires Inv(x, start) && CanHappen(x, e) && Tells(start, before, x)
    ensures var y := Next(x, e);
            y.sends == SendTimes(start, before + [e]) && (y.inner.Fetching? ==> y.sends != [])
  {
    assert (before + [e])[..|before|] == before;
  }

  /** And of whether the call is open. */
  lemma OneEventEnds(start: int, before: seq<Event>, x: Exchange, e: Event)
    requires Inv(x, start) && CanHappen(x, e) && Tells(start, before, x)
    ensures Next(x, e).settled.None? <==> x.settled.None? && !Ends(before + [e], |before|)
  {
    assert (before + [e])[..|before|] == before;
  }

  lemma {:induction false} TheEventsTell(start: int, timeoutMs: nat, events: seq<Event>)
    requires Legal(Begin(start, timeoutMs, true), events)
    ensures Tells(start, events, After(Begin(start, timeoutMs, true), events))
  {
    if events != [] {
      var before, e := events[..|events| - 1], events[|events| - 1];
      TheEventsTell(start, timeoutMs, before);
      EveryInterleaving(start, timeoutMs, before);
      var x := After(Begin(start, timeoutMs, true), before);
      assert events == before + [e];
      OneEventPasses(start, before, x, e);
      OneEventSends(start, before, x, e);
      OneEventEnds(start, before, x, e);
      NoEndYet(events);
    }
  }

  /**
   The outcome is that of the first event to end the call, and of that moment: the response of a request that had gone
   out, if it is a response; the deadline error, if it is the deadline; and an inner error if it is anything else.
   */
  lemma TheFirstEndDecides(start: int, timeoutMs: nat, events: seq<Event>, i: nat)
    requires Legal(Begin(start, timeoutMs, true), events) && EndsFirst(events, i)
    ensures var x := After(Begin(start, timeoutMs, true), events);
            && x.settled.Some? && x.settled.value.at == start + Elapsed(events[..i])
            && (x.settled.value.outcome == FromInner(Ok) <==> events[i].Responds?)
            && (x.settled.value.outcome == DeadlineExceeded <==> events[i].DeadlineFires?)
            && (x.settled.value.outcome == FromInner(Error) <==>
                  events[i].TokenFails? || events[i].Breaks? || events[i].TokenArrives? || events[i].Redirected?)
    ensures events[i].Responds? ==> SendTimes(start, events[..i]) != []
  {
    var x0 := Begin(start, timeoutMs, true);
    LegalUpTo(x0, events, i);
    LegalUpTo(x0, events, i + 1);
    TheEventsTell(start, timeoutMs, events[..i]);
    EveryInterleaving(start, timeoutMs, events[..i]);
    forall j: nat | j < i ensures !Ends(events[..i], j) {
      assert events[..i][..j] == events[..j];
      assert !Ends(events, j);
    }
    assert events[..i + 1][..i] == events[..i];
    SettledSince(x0, events, i + 1);
  }

  /** And a call none of whose events ends it is still open. */
  lemma NothingEndsNothingSettles(start: int, timeoutMs: nat, events: seq<Event>)
    requires Legal(Begin(start, timeoutMs, true), events)
    ensures After(Begin(start, timeoutMs, true), events).settled.None? <==> forall i: nat :: i < |events| ==> !Ends(events, i)
    ensures After(Begin(start, timeoutMs, true), events).sends == SendTimes(start, events)
  {
    TheEventsTell(start, timeoutMs, events);
  }

  lemma {:induction false} LegalUpTo(x: Exchange, events: seq<Event>, i: nat)
    requires Legal(x, events) && i <= |events|
    ensures Legal(x, events[..i])
  {
    if i < |events| {
      assert events[..|events| - 1][..i] == events[..i];
      LegalUpTo(x, events[..|events| - 1], i);
    } else {
      assert events[..i] == events;
    }
  }

  lemma {:induction false} SettledSince(x: Exchange, events: seq<Event>, i: nat)
    requires i <= |events| && After(x, events[..i]).settled.Some?
    ensures After(x, events).settled == After(x, events[..i]).settled
  {
    if i < |events| {
      assert events[..|events| - 1][..i] == events[..i];
      SettledSince(x, events[..|events| - 1], i);
    } else {
      assert events[..i] == events;
    }
  }

  /** Nothing is kept from happening: the token, a redirect, the response and the caller's abort may come at any time. */
  lemma AnythingMayCome(x: Exchange)
    ensures x.inner.AwaitingToken? ==> CanHappen(x, TokenArrives) && CanHappen(x, TokenFails)
    ensures x.inner.Fetching? ==> CanHappen(x, Redirected) && CanHappen(x, Responds) && CanHappen(x, Breaks)
    ensures !x.cancelled ==> CanHappen(x, CallerAborts)
  {
  }

  /** And the deadline fires when it is due: time can pass up to it, then not without it, and it can come. */
  lemma TheDeadlineFires(start: int, timeoutMs: nat, events: seq<Event>)
    requires Legal(Begin(start, timeoutMs, true), events) && !Fired(events)
    ensures var x := After(Begin(start, timeoutMs, true), events);
            var left := start + timeoutMs - x.now;
            && left >= 0 && CanHappen(x, Tick(left)) && CanHappen(Next(x, Tick(left)), DeadlineFires)
            && (forall ms: nat :: ms > left ==> !CanHappen(x, Tick(ms)))
  {
    TheEventsTell(start, timeoutMs, events);
    EveryInterleaving(start, timeoutMs, events);
    DueWhenTimeIsUp(After(Begin(start, timeoutMs, true), events), start);
  }

  lemma DueWhenTimeIsUp(x: Exchange, start: int)
    requires Inv(x, start) && !x.expired
    ensures var left := start + x.timeoutMs - x.now;
            && left >= 0 && CanHappen(x, Tick(left)) && CanHappen(Next(x, Tick(left)), DeadlineFires)
            && (forall ms: nat :: ms > left ==> !CanHappen(x, Tick(ms)))
  {
  }

  // ── The handler itself ──────────────────────────────────────────────────────

  /** One `execute` in progress: its signals, its listener, and the two promises it races. */
  class TimeoutCall {
    const timeoutMs: nat
    const startedAt: int
    var now: int
    var expired: bool
    var cancelled: bool
    var inner: Inner
    var late: bool
    var settled: Option<Settled>
    var onAbort: bool
    var sends: seq<int>

    function View(): Exchange
      reads this
    {
      Exchange(now, timeoutMs, Some(startedAt), expired, cancelled, inner, late, settled, onAbort, sends)
    }

    /** Start the clock, join the signals, register the listener, and hand the request on. */
    constructor Execute(now: int, timeoutMs: nat)
      ensures View() == Begin(now, timeoutMs, true)
    {
      this.timeoutMs, this.startedAt, this.now := timeoutMs, now, now;
      expired, cancelled, late, onAbort := false, false, false, true;
      inner, settled, sends := AwaitingToken, None, [];
    }

    method Race(outcome: Outcome)
      modifies this`settled, this`onAbort
      ensures View() == Settle(old(View()), outcome)
    {
      if settled.None? {
        settled := Some(Settled(outcome, now));
        onAbort := false;
      }
    }

    method Deliver(e: Event)
      requires CanHappen(View(), e)
      modifies this
      ensures View() == Next(old(View()), e)
    {
      match e
      case Tick(ms) =>
        now := now + ms;
      case DeadlineFires =>
        expired := true;
        if onAbort {
          Race(DeadlineExceeded);
        }
      case CallerAborts =>
        cancelled := true;
      case TokenArrives =>
        SendOrRefuse();
      case Redirected =>
        SendOrRefuse();
      case TokenFails =>
        Complete(Error);
      case Responds =>
        Complete(Ok);
      case Breaks =>
        Complete(Error);
    }

    method SendOrRefuse()
      modifies this`sends, this`inner, this`late, this`settled, this`onAbort
      ensures View() == Fetch(old(View()))
    {
      if expired || cancelled {
        Complete(Error);
      } else {
        inner := Fetching;
        sends := sends + [now];
      }
    }

    method Complete(result: Result)
      modifies this`inner, this`late, this`settled, this`onAbort
      ensures View() == InnerFinishes(old(View()), result)
    {
      inner := Finished(result);
      late := expired;
      Race(FromInner(result));
    }
  }

  // ── The chain ───────────────────────────────────────────────────────────────

  datatype Kind = Timeout | Authentication | Redirect | Telemetry | Http

  class Middleware {
    const kind: Kind
    var next: Middleware?

    constructor (kind: Kind)
      ensures this.kind == kind && next == null
    {
      this.kind := kind;
      next := null;
    }

    method SetNext(next: Middleware)
      modifies this`next
      ensures this.next == next
    {
      this.next := next;
    }
  }

  /** The request walks the whole chain once, the deadline before the token, and there is no retry handler in it. */
  method BuildGraphMiddleware() returns (chain: seq<Middleware>)
    ensures |chain| == 5
    ensures forall i :: 0 <= i < 5 ==> chain[i].kind == [Timeout, Authentication, Redirect, Telemetry, Http][i]
    ensures forall i :: 0 <= i < 4 ==> chain[i].next == chain[i + 1]
    ensures chain[4].next == null
    ensures forall i, j :: 0 <= i < j < 5 ==> chain[i] != chain[j]
    ensures forall m :: m in chain ==> fresh(m)
  {
    var timeout := new Middleware(Timeout);
    var auth := new Middleware(Authentication);
    var redirect := new Middleware(Redirect);
    var telemetry := new Middleware(Telemetry);
    var http := new Middleware(Http);
    chain := [timeout, auth, redirect, telemetry, http];
    for i := 0 to |chain| - 1
      invariant forall j :: 0 <= j < i ==> chain[j].next == chain[j + 1]
      invariant forall j :: i <= j < |chain| ==> chain[j].next == null
    {
      chain[i].SetNext(chain[i + 1]);
    }
  }
}
