/**
 From a call token to a request's principal: the hook that restores the query, then the guard that spends the
 token, over any number of requests in any order.
 */
module McpBridge {
  import opened Wrappers
  import opened McpCallToken

  /** The user the rest of the pipeline reads. No role ever comes with a token. */
  datatype User = User(sub: string, email: string, name: string, roles: seq<string>, sessionId: string)

  function UserFor(p: Principal): User {
    User(p.userId, p.email, p.name, [], p.sessionId)
  }

  /** The request runs as the principal: the same id, address, name and session, and no role. */
  predicate RunsAs(user: Option<User>, p: Principal) {
    && user.Some? && user.value.sub == p.userId && user.value.email == p.email && user.value.name == p.name
    && user.value.sessionId == p.sessionId && user.value.roles == []
  }

  class Request {
    var authorization: Header
    var query: map<string, string>
    var user: Option<User>

    constructor (authorization: Header, query: map<string, string>)
      ensures this.authorization == authorization && this.query == query && user == None
    {
      this.authorization, this.query, this.user := authorization, query, None;
    }
  }

  /** A token spent by a request. */
  datatype Exchange = Exchange(request: Request, token: Token)

  ghost function Requests(exchanges: seq<Exchange>): set<Request> {
    set i | 0 <= i < |exchanges| :: exchanges[i].request
  }

  lemma RequestsOfOneMore(exchanges: seq<Exchange>, x: Exchange)
    ensures Requests(exchanges + [x]) == Requests(exchanges) + {x.request}
  {
    var more := exchanges + [x];
    assert more[|exchanges|] == x;
    forall r | r in Requests(exchanges) + {x.request} ensures r in Requests(more) {
      if r in Requests(exchanges) {
        var i :| 0 <= i < |exchanges| && exchanges[i].request == r;
        assert more[i].request == r;
      }
    }
  }

  class Bridge {
    const store: TokenStore
    var bridged: set<Request>

    // What has happened: every token ever minted, every exchange, and the token each hooked request carried.
    ghost var minted: map<Token, Entry>
    ghost var exchanges: seq<Exchange>
    ghost var hooked: map<Request, Token>

    /** The store holds only what was minted and not yet exchanged. */
    ghost predicate StoreOk()
      reads this, store
    {
      && (forall t :: t in store.pending ==> t in minted && store.pending[t].entry == minted[t])
      && (forall i :: 0 <= i < |exchanges| ==> exchanges[i].token in minted && exchanges[i].token !in store.pending)
    }

    /**
     No two exchanges share a token or a request, the marker is on exactly the exchanged requests, and each of
     them runs as the principal its token was minted with, and no longer carries the token.
     */
    ghost predicate ExchangesOk()
      reads this, bridged
    {
      && (forall i, j :: 0 <= i < j < |exchanges| ==>
            exchanges[i].token != exchanges[j].token && exchanges[i].request != exchanges[j].request)
      && bridged == Requests(exchanges)
      && (forall i :: 0 <= i < |exchanges| && exchanges[i].token in minted ==>
            exchanges[i].request.user == Some(UserFor(minted[exchanges[i].token].principal)))
      && (forall r :: r in bridged ==> r.authorization == Absent)
    }

    /** A hooked request still carries the token the hook saw, or has spent that very token. */
    ghost predicate HooksOk()
      reads this, hooked.Keys
    {
      && (forall r :: r in hooked ==>
            hooked[r] in minted && (r.authorization == Absent || TokenIn(r.authorization) == Some(hooked[r])))
      && (forall i :: 0 <= i < |exchanges| && exchanges[i].request in hooked ==>
            exchanges[i].token == hooked[exchanges[i].request])
    }

    ghost predicate Valid()
      reads this, store, bridged, hooked.Keys
    {
      StoreOk() && ExchangesOk() && HooksOk()
    }

    constructor ()
      ensures Valid() && bridged == {} && exchanges == [] && minted == map[] && hooked == map[] && fresh(store)
    {
      store := new TokenStore();
      bridged, minted, exchanges, hooked := {}, map[], [], map[];
    }

    /** The transport mints a fresh token for one tool call. */
    method Mint(swept: int, now: int, token: Token, principal: Principal, query: Option<map<string, string>>)
      requires Valid() && token !in minted
      modifies this, store
      ensures Valid()
      ensures minted == old(minted)[token := Entry(principal, query)]
      ensures exchanges == old(exchanges) && bridged == old(bridged) && hooked == old(hooked)
    {
      var _ := store.Mint(swept, now, token, principal, query);
      minted := minted[token := Entry(principal, query)];
    }

    /**
     The `onRequest` hook: a live token puts its own query back on the request, over what the URL said. It
     spends nothing and authenticates nobody.
     */
    method RestoreQuery(request: Request, swept: int, now: int)
      requires Valid() && swept <= now
      modifies this, store, request`query
      ensures Valid()
      ensures minted == old(minted) && exchanges == old(exchanges) && bridged == old(bridged)
      ensures store.pending == Peeked(old(store.pending), swept, request.authorization, now)
      ensures var live := Live(old(store.pending), request.authorization, now);
              && (live.None? ==> request.query == old(request.query) && hooked == old(hooked))
              && (live.Some? ==>
                    var t := TokenIn(request.authorization).value;
                    && t in minted && live.value == minted[t]
                    && hooked == old(hooked)[request := t]
                    && request.query == match minted[t].query case None => old(request.query) case Some(q) => old(request.query) + q)
    {
      ghost var before := store.pending;
      var entry := store.Peek(swept, request.authorization, now);
      if entry.Some? {
        hooked := hooked[request := TokenIn(request.authorization).value];
        if entry.value.query.Some? {
          request.query := request.query + entry.value.query.value;
        }
      }
    }

    /**
     The guard: it never refuses. On a non-public HTTP route a live token becomes the request's principal, the
     marker and the end of the header; anything else leaves the request as it was.
     */
    method CanActivate(request: Request, isHttp: bool, isPublic: bool, now: int) returns (allowed: bool)
      requires Valid()
      modifies this, store, request`user, request`authorization
      ensures Valid() && allowed
      ensures minted == old(minted) && hooked == old(hooked)
      ensures store.pending == if isHttp && !isPublic then Consumed(old(store.pending), old(request.authorization)) else old(store.pending)
      ensures var live := Live(old(store.pending), old(request.authorization), now);
              if isHttp && !isPublic && live.Some? then
                var t := TokenIn(old(request.authorization)).value;
                && t in minted && live.value == minted[t]
                && exchanges == old(exchanges) + [Exchange(request, t)]
                && bridged == old(bridged) + {request}
                && RunsAs(request.user, minted[t].principal) && request.authorization == Absent
              else
                && exchanges == old(exchanges) && bridged == old(bridged)
                && request.user == old(request.user) && request.authorization == old(request.authorization)
    {
      allowed := true;
      if !isHttp || isPublic {
        return;
      }
      ghost var raw := request.authorization;
      var principal := store.Consume(request.authorization, now);
      if principal.None? {
        return;
      }
      Install(request, principal.value, TokenIn(raw).value);
    }

    /** The request stops carrying the token it has just spent, is marked, and runs as its principal. */
    method Install(request: Request, principal: Principal, ghost t: Token)
      requires Valid() && TokenIn(request.authorization) == Some(t)
      requires t in minted && minted[t].principal == principal && t !in store.pending
      requires forall i :: 0 <= i < |exchanges| ==> exchanges[i].token != t
      modifies this`bridged, this`exchanges, request`user, request`authorization
      ensures Valid()
      ensures exchanges == old(exchanges) + [Exchange(request, t)] && bridged == old(bridged) + {request}
      ensures RunsAs(request.user, principal) && request.user == Some(UserFor(principal)) && request.authorization == Absent
    {
      request.authorization := Absent;
      bridged := bridged + {request};
      request.user := Some(UserFor(principal));
      RequestsOfOneMore(exchanges, Exchange(request, t));
      exchanges := exchanges + [Exchange(request, t)];
    }

    /**
     One token, one request. Every bridged request was bridged by exactly one token, which bridged no other,
     and it runs as the principal that token was minted with; if the hook ran on it, it saw that same token.
     */
    lemma OneTokenOneRequest(r: Request)
      requires Valid() && r in bridged
      ensures exists i :: 0 <= i < |exchanges| && exchanges[i].request == r
                && RunsAs(r.user, minted[exchanges[i].token].principal)
                && (r in hooked ==> hooked[r] == exchanges[i].token)
                && (forall j :: 0 <= j < |exchanges| && (exchanges[j].request == r || exchanges[j].token == exchanges[i].token) ==>
                      j == i)
    {
      var i :| 0 <= i < |exchanges| && exchanges[i].request == r;
    }
  }
}
