/**
 The single-use call token: a map from token to entry with a time to live, a sweep, a reading that does not
 consume and an exchange that does; and what a history of those operations says about each of them.
 */
module McpCallToken {
  import opened Wrappers

  type Token = string

  datatype Principal = Principal(userId: string, email: string, name: string, sessionId: string)

  /** What a token stands for: the principal, and the query its request must see. */
  datatype Entry = Entry(principal: Principal, query: Option<map<string, string>>)

  datatype Stored = Stored(entry: Entry, expiresAt: int)

  const TOKEN_TTL_MS := 5_000

  /** A header as the HTTP layer hands it over. */
  datatype Header = Absent | One(value: string) | Many(values: seq<string>)

  /** The header presents `t`: as its one value, or as the first of several. */
  predicate Presents(raw: Header, t: Token) {
    t != "" && (raw == One(t) || (raw.Many? && |raw.values| > 0 && raw.values[0] == t))
  }

  /** The token a header presents, if it presents one. */
  function TokenIn(raw: Header): (token: Option<Token>)
    ensures forall t :: token == Some(t) <==> Presents(raw, t)
  {
    match raw
    case Absent => None
    case One(v) => if v == "" then None else Some(v)
    case Many(vs) => if vs == [] || vs[0] == "" then None else Some(vs[0])
  }

  // ── The operations, on values ───────────────────────────────────────────────

  type Pending = map<Token, Stored>

  function Swept(m: Pending, now: int): Pending {
    map t | t in m && m[t].expiresAt > now :: m[t]
  }

  /** Mint sweeps at `swept`, then stores at `now`. */
  function Minted(m: Pending, swept: int, now: int, t: Token, entry: Entry): Pending {
    Swept(m, swept)[t := Stored(entry, now + TOKEN_TTL_MS)]
  }

  function Consumed(m: Pending, raw: Header): Pending {
    if TokenIn(raw).None? then m else m - {TokenIn(raw).value}
  }

  /** The entry a live token stands for. */
  function Live(m: Pending, raw: Header, now: int): Option<Entry> {
    var t := TokenIn(raw);
    if t.None? || t.value !in m || m[t.value].expiresAt <= now then None else Some(m[t.value].entry)
  }

  /** Peek sweeps at `swept` and reads at `now`, dropping the token if it lapsed in between. */
  function Peeked(m: Pending, swept: int, raw: Header, now: int): Pending {
    var t := TokenIn(raw);
    if t.Some? && t.value in Swept(m, swept) && m[t.value].expiresAt <= now then Swept(m, swept) - {t.value}
    else Swept(m, swept)
  }

  // ── The store ───────────────────────────────────────────────────────────────

  class TokenStore {
    var pending: Pending

    constructor ()
      ensures pending == map[]
    {
      pending := map[];
    }

    method SweepExpired(now: int)
      modifies this
      ensures pending == Swept(old(pending), now)
      ensures forall t :: t in pending <==> t in old(pending) && now < old(pending)[t].expiresAt
      ensures forall t :: t in pending ==> pending[t] == old(pending)[t]
    {
      var keys := pending.Keys;
      while keys != {}
        invariant keys <= pending.Keys
        invariant forall t :: t in pending ==> t in old(pending) && pending[t] == old(pending)[t]
        invariant forall t :: t in old(pending) && t !in pending ==> old(pending)[t].expiresAt <= now
        invariant forall t :: t in pending && t !in keys ==> pending[t].expiresAt > now
        decreases keys
      {
        var t :| t in keys;
        keys := keys - {t};
        if pending[t].expiresAt <= now {
          pending := pending - {t};
        }
      }
    }

    /** `token` is the fresh random value; `swept` and `now` are the two readings of the clock. */
    method Mint(swept: int, now: int, token: Token, principal: Principal, query: Option<map<string, string>>)
      returns (minted: Token)
      modifies this
      ensures minted == token
      ensures pending == Minted(old(pending), swept, now, token, Entry(principal, query))
      ensures token in pending && pending[token] == Stored(Entry(principal, query), now + 5_000)
      ensures forall t :: t != token ==> (t in pending <==> t in old(pending) && old(pending)[t].expiresAt > swept)
      ensures forall t :: t != token && t in pending ==> pending[t] == old(pending)[t]
    {
      SweepExpired(swept);
      pending := pending[token := Stored(Entry(principal, query), now + TOKEN_TTL_MS)];
      minted := token;
    }

    /** The token is gone after this call, whether or not it was live. */
    method Consume(raw: Header, now: int) returns (principal: Option<Principal>)
      modifies this
      ensures pending == Consumed(old(pending), raw)
      ensures forall t :: Presents(raw, t) ==> t !in pending
      ensures forall t :: t in old(pending) && !Presents(raw, t) ==> t in pending && pending[t] == old(pending)[t]
      ensures forall p :: principal == Some(p) <==>
                exists t :: Presents(raw, t) && t in old(pending) && now < old(pending)[t].expiresAt && p == old(pending)[t].entry.principal
      ensures principal == match Live(old(pending), raw, now) case None => None case Some(entry) => Some(entry.principal)
    {
      var token := TokenIn(raw);
      if token.None? {
        return None;
      }
      var entry := if token.value in pending then Some(pending[token.value]) else None;
      pending := pending - {token.value};
      if entry.None? || entry.value.expiresAt <= now {
        return None;
      }
      principal := Some(entry.value.entry.principal);
    }

    method Peek(swept: int, raw: Header, now: int) returns (entry: Option<Entry>)
      requires swept <= now
      modifies this
      ensures pending == Peeked(old(pending), swept, raw, now)
      ensures entry == Live(old(pending), raw, now)
      ensures forall e :: entry == Some(e) <==>
                exists t :: Presents(raw, t) && t in old(pending) && now < old(pending)[t].expiresAt && e == old(pending)[t].entry
      ensures forall t :: t in pending <==>
                && t in old(pending) && old(pending)[t].expiresAt > swept
                && (Presents(raw, t) ==> old(pending)[t].expiresAt > now)
      ensures forall t :: t in pending ==> pending[t] == old(pending)[t]
    {
      SweepExpired(swept);
      var token := TokenIn(raw);
      if token.None? || token.value !in pending {
        return None;
      }
      if pending[token.value].expiresAt <= now {
        pending := pending - {token.value};
        return None;
      }
      entry := Some(pending[token.value].entry);
    }
  }

  // ── The history ─────────────────────────────────────────────────────────────

  datatype Event =
    | Mint(swept: int, at: int, token: Token, entry: Entry)
    | Peek(swept: int, raw: Header, at: int)
    | Consume(raw: Header, at: int)

  function Start(e: Event): int {
    match e
    case Mint(swept, _, _, _) => swept
    case Peek(swept, _, _) => swept
    case Consume(_, at) => at
  }

  function End(e: Event): int {
    e.at
  }

  function Apply(m: Pending, e: Event): Pending {
    match e
    case Mint(swept, at, t, entry) => Minted(m, swept, at, t, entry)
    case Peek(swept, raw, at) => Peeked(m, swept, raw, at)
    case Consume(raw, _) => Consumed(m, raw)
  }

  /** The map after a history that began with the empty map. */
  function Replay(h: seq<Event>): Pending {
    if h == [] then map[] else Apply(Replay(h[..|h| - 1]), h[|h| - 1])
  }

  /** Some event of the history minted `t`. */
  predicate WasMinted(h: seq<Event>, t: Token) {
    exists i :: 0 <= i < |h| && h[i].Mint? && h[i].token == t
  }

  /** Some event of the history presented `t` to be consumed. */
  predicate WasSpent(h: seq<Event>, t: Token) {
    exists i :: 0 <= i < |h| && h[i].Consume? && Presents(h[i].raw, t)
  }

  /** The clock never goes back, and every minted token is new: never minted and never presented before. */
  ghost predicate WellFormed(h: seq<Event>) {
    && (forall i :: 0 <= i < |h| ==> Start(h[i]) <= End(h[i]))
    && (forall i, j :: 0 <= i < j < |h| ==> End(h[i]) <= Start(h[j]))
    && (forall i :: 0 <= i < |h| && h[i].Mint? ==> !WasMinted(h[..i], h[i].token) && !WasSpent(h[..i], h[i].token))
  }

  /** What the history alone promises of `t` at `now`: minted with `entry`, not spent since, and within its time to live. */
  ghost predicate Promised(h: seq<Event>, t: Token, now: int, entry: Entry) {
    && (exists i :: 0 <= i < |h| && h[i].Mint? && h[i].token == t && h[i].entry == entry && now < h[i].at + 5_000)
    && !WasSpent(h, t)
  }

  /** The clock reading of the history's end. */
  predicate NotBefore(h: seq<Event>, now: int) {
    h == [] || End(h[|h| - 1]) <= now
  }

  lemma {:induction false} NothingHeldWithoutAMint(h: seq<Event>, t: Token)
    requires t in Replay(h)
    ensures exists i :: 0 <= i < |h| && h[i].Mint? && h[i].token == t
              && Replay(h)[t] == Stored(h[i].entry, h[i].at + TOKEN_TTL_MS)
  {
    var n := |h| - 1;
    if !(h[n].Mint? && h[n].token == t) {
      NothingHeldWithoutAMint(h[..n], t);
      var i :| 0 <= i < n && h[..n][i].Mint? && h[..n][i].token == t
        && Replay(h[..n])[t] == Stored(h[..n][i].entry, h[..n][i].at + TOKEN_TTL_MS);
      assert h[i] == h[..n][i];
    }
  }

  lemma PrefixWellFormed(h: seq<Event>, n: nat)
    requires WellFormed(h) && n <= |h|
    ensures WellFormed(h[..n])
  {
    forall i | 0 <= i < n ensures h[..n][..i] == h[..i] {}
  }

  lemma {:induction false} NothingHeldOnceSpent(h: seq<Event>, t: Token)
    requires WellFormed(h) && t in Replay(h)
    ensures !WasSpent(h, t)
  {
    var n := |h| - 1;
    PrefixWellFormed(h, n);
    if h[n].Mint? && h[n].token == t {
      forall i | 0 <= i < |h| && h[i].Consume? ensures !Presents(h[i].raw, t) {
        assert i < n && h[i] == h[..n][i];
      }
    } else {
      NothingHeldOnceSpent(h[..n], t);
      forall i | 0 <= i < |h| && h[i].Consume? ensures !Presents(h[i].raw, t) {
        if i < n { assert h[i] == h[..n][i]; }
      }
    }
  }

  /** A token minted, never spent and still within its time is held, with the entry it was minted with. */
  lemma {:induction false} PromisedIsHeld(h: seq<Event>, t: Token, i: nat, now: int)
    requires WellFormed(h) && NotBefore(h, now)
    requires i < |h| && h[i].Mint? && h[i].token == t && now < h[i].at + TOKEN_TTL_MS && !WasSpent(h, t)
    ensures t in Replay(h) && Replay(h)[t] == Stored(h[i].entry, h[i].at + TOKEN_TTL_MS)
  {
    var n := |h| - 1;
    if i < n {
      PrefixWellFormed(h, n);
      assert h[..n][i] == h[i];
      forall j | 0 <= j < n && h[..n][j].Consume? ensures !Presents(h[..n][j].raw, t) { assert h[j] == h[..n][j]; }
      if h[n].Mint? { assert WasMinted(h[..n], t); }
      assert End(h[n - 1]) <= Start(h[n]) <= End(h[n]) <= now;
      PromisedIsHeld(h[..n], t, i, now);
    }
  }

  /**
   The store refines its history: presented at `now`, a header yields an entry exactly when its token was
   minted with that entry, has not been consumed, and has not outlived its time. So a token works once, and
   the sweeps that happened to run in between are never noticed.
   */
  lemma StoreRefinesHistory(h: seq<Event>, raw: Header, now: int, entry: Entry)
    requires WellFormed(h) && NotBefore(h, now)
    ensures Live(Replay(h), raw, now) == Some(entry) <==> exists t :: Presents(raw, t) && Promised(h, t, now, entry)
  {
    if TokenIn(raw).Some? {
      var t := TokenIn(raw).value;
      if t in Replay(h) && Replay(h)[t].expiresAt > now {
        NothingHeldWithoutAMint(h, t);
        NothingHeldOnceSpent(h, t);
      }
      if Promised(h, t, now, entry) {
        var i :| 0 <= i < |h| && h[i].Mint? && h[i].token == t && h[i].entry == entry && now < h[i].at + TOKEN_TTL_MS;
        PromisedIsHeld(h, t, i, now);
      }
    }
  }

  /** Whatever was presented to be consumed never yields anything again, unless a mint brings it back. */
  lemma SpentIsSpent(h: seq<Event>, raw: Header, now: int, later: seq<Event>, again: Header, at: int)
    requires WellFormed(h + [Consume(raw, now)] + later) && NotBefore(h + [Consume(raw, now)] + later, at)
    requires exists t :: Presents(raw, t) && Presents(again, t)
    ensures Live(Replay(h + [Consume(raw, now)] + later), again, at) == None
  {
    var all := h + [Consume(raw, now)] + later;
    assert all[|h|] == Consume(raw, now);
    assert WasSpent(all, TokenIn(raw).value);
    if Live(Replay(all), again, at).Some? {
      StoreRefinesHistory(all, again, at, Live(Replay(all), again, at).value);
    }
  }

  /** The history without its peeks. */
  function WithoutPeeks(h: seq<Event>): seq<Event> {
    if h == [] then []
    else if h[|h| - 1].Peek? then WithoutPeeks(h[..|h| - 1])
    else WithoutPeeks(h[..|h| - 1]) + [h[|h| - 1]]
  }

  lemma APeekIsUnseen(m: Pending, e: Event, raw: Header, now: int)
    requires e.Peek? && Start(e) <= End(e) <= now
    ensures Live(Apply(m, e), raw, now) == Live(m, raw, now)
  {
  }

  lemma SameAfterwards(a: Pending, b: Pending, e: Event, raw: Header, now: int)
    requires !e.Peek? && Start(e) <= End(e) <= now && Live(a, raw, now) == Live(b, raw, now)
    ensures Live(Apply(a, e), raw, now) == Live(Apply(b, e), raw, now)
  {
  }

  /** Peeks, and the sweeps inside them, are unobservable: what any later call sees is what it would see without them. */
  lemma {:induction false} PeeksAreUnobservable(h: seq<Event>, raw: Header, now: int)
    requires WellFormed(h) && NotBefore(h, now)
    ensures Live(Replay(h), raw, now) == Live(Replay(WithoutPeeks(h)), raw, now)
  {
    if h != [] {
      var n := |h| - 1;
      var before, e := h[..n], h[n];
      PrefixWellFormed(h, n);
      if n > 0 { assert End(h[n - 1]) <= Start(e); }
      PeeksAreUnobservable(before, raw, now);
      if e.Peek? {
        APeekIsUnseen(Replay(before), e, raw, now);
      } else {
        var kept := WithoutPeeks(before);
        SameAfterwards(Replay(before), Replay(kept), e, raw, now);
        assert (kept + [e])[..|kept|] == kept;
        assert Replay(kept + [e]) == Apply(Replay(kept), e);
      }
    }
  }

  /** After a mint or a peek, nothing the map held before is kept past its time. */
  lemma MintsAndPeeksClean(h: seq<Event>, t: Token)
    requires h != [] && !h[|h| - 1].Consume? && t in Replay(h) && WellFormed(h)
    ensures Replay(h)[t].expiresAt > Start(h[|h| - 1])
  {
  }
}
