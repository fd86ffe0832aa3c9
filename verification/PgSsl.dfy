/**
 TLS for a Postgres connection: whether the URL asks for it, at which level, and what is left of the URL.
 */
module PgSsl {
  import opened Wrappers
  import opened Text
  import opened DatabaseUrl

  /** `caFile` is what was configured, `readable` what reading it gives. */
  datatype TlsInput = TlsInput(caFile: Option<string>, readable: Option<string>, isProduction: bool)

  datatype Tls = Tls(ca: Option<string>, rejectUnauthorized: bool)

  datatype TlsDecision = Use(tls: Tls) | CaRequired | CaUnreadable

  datatype PgOptions = Options(connectionString: string, ssl: Option<Tls>) | Refused(why: TlsDecision)

  /** Verify against the CA if there is one; without one, refuse in production and skip verification elsewhere. */
  function PgTls(input: TlsInput): TlsDecision {
    if Given(input.caFile) then
      if input.readable.Some? then Use(Tls(input.readable, true)) else CaUnreadable
    else if input.isProduction then CaRequired
    else Use(Tls(None, false))
  }

  /** The unanchored pattern `sslmode=(require|verify)`. */
  ghost predicate NeedsSsl(url: string) {
    Occurs(url, "sslmode=require") || Occurs(url, "sslmode=verify")
  }

  // ── Deleting the query parameter ────────────────────────────────────────────

  /** The parameters of a query string. */
  function Params(query: string): (ps: seq<string>)
    decreases |query|
  {
    match CutAt(query, '&')
    case Whole => [query]
    case Parts(first, rest) => [first] + Params(rest)
  }

  predicate IsSslmode(param: string) {
    param == "sslmode" || "sslmode=" <= param
  }

  function WithoutSslmode(params: seq<string>): seq<string> {
    if params == [] then []
    else (if IsSslmode(params[0]) then [] else [params[0]]) + WithoutSslmode(params[1..])
  }

  function JoinParams(params: seq<string>): string {
    if params == [] then "" else if |params| == 1 then params[0] else params[0] + "&" + JoinParams(params[1..])
  }

  /** The parameter sets the mode, whatever to. */
  predicate SetsTheMode(param: string) {
    param == "sslmode" || (|param| >= 8 && param[..8] == "sslmode=")
  }

  /** Of the parameters the ones that set the mode go, and the others stay, in their order. */
  lemma {:induction false} OthersStay(params: seq<string>)
    ensures forall p :: p in WithoutSslmode(params) <==> p in params && !SetsTheMode(p)
    ensures |WithoutSslmode(params)| <= |params|
    ensures (forall p :: p in params ==> !SetsTheMode(p)) ==> WithoutSslmode(params) == params
  {
    if params != [] {
      OthersStay(params[1..]);
      assert params == [params[0]] + params[1..];
      assert SetsTheMode(params[0]) <==> IsSslmode(params[0]);
    }
  }

  lemma {:induction false} OthersKeepTheirOrder(left: seq<string>, right: seq<string>)
    ensures WithoutSslmode(left + right) == WithoutSslmode(left) + WithoutSslmode(right)
  {
    if left == [] {
      assert left + right == right;
    } else {
      OthersKeepTheirOrder(left[1..], right);
      assert (left + right)[1..] == left[1..] + right;
    }
  }

  lemma {:induction false} ParamsAreWhole(query: string)
    ensures Params(query) != [] && forall p :: p in Params(query) ==> '&' !in p
    ensures JoinParams(Params(query)) == query
    decreases |query|
  {
    if CutAt(query, '&').Parts? {
      var rest := CutAt(query, '&').after;
      ParamsAreWhole(rest);
      assert Params(query)[1..] == Params(rest);
    }
  }

  lemma {:induction false} JoinedParamsPart(params: seq<string>)
    requires params != [] && forall p :: p in params ==> '&' !in p
    ensures Params(JoinParams(params)) == params
  {
    if |params| == 1 {
      NothingToCut(params[0], '&');
    } else {
      JoinedParamsPart(params[1..]);
      CutUndoesJoin(params[0], '&', JoinParams(params[1..]));
    }
  }

  function StripSslmode(url: string): string {
    match CutAt(url, '?')
    case Whole => url
    case Parts(base, query) =>
      var kept := WithoutSslmode(Params(query));
      if kept == [] then base else base + "?" + JoinParams(kept)
  }

  /**
   For any base and any query: what is left of the URL is its base, and the parameters that do not set the mode, all of
   them and in their order; without any, no query at all.
   */
  lemma OnlyTheModeIsStripped(base: string, query: string)
    requires '?' !in base
    ensures var kept := WithoutSslmode(Params(query));
            && (kept == [] ==> StripSslmode(base + ['?'] + query) == base)
            && (kept != [] ==> exists rest :: StripSslmode(base + ['?'] + query) == base + "?" + rest && Params(rest) == kept)
            && (forall p :: p in kept <==> p in Params(query) && !SetsTheMode(p))
    ensures (forall p :: p in Params(query) ==> !SetsTheMode(p)) ==> StripSslmode(base + ['?'] + query) == base + ['?'] + query
    ensures StripSslmode(base) == base
  {
    CutUndoesJoin(base, '?', query);
    NothingToCut(base, '?');
    ParamsAreWhole(query);
    OthersStay(Params(query));
    var kept := WithoutSslmode(Params(query));
    if kept != [] {
      JoinedParamsPart(kept);
      assert StripSslmode(base + ['?'] + query) == base + "?" + JoinParams(kept);
    }
  }

  ghost function MakeOptions(url: string, input: TlsInput): PgOptions {
    if !NeedsSsl(url) then Options(url, None)
    else match PgTls(input)
      case Use(tls) => Options(StripSslmode(url), Some(tls))
      case refusal => Refused(refusal)
  }

  // ── What is decided ─────────────────────────────────────────────────────────

  /** For any URL at all: in production a connection asked to be encrypted is verified against a CA or not made. */
  lemma ProductionNeverSkipsVerification(url: string, input: TlsInput)
    requires input.isProduction && NeedsSsl(url)
    ensures match MakeOptions(url, input)
            case Options(_, ssl) =>
              ssl.Some? && ssl.value.rejectUnauthorized && ssl.value.ca == input.readable && input.readable.Some?
            case Refused(why) => (why == CaRequired <==> !Given(input.caFile)) && (why == CaUnreadable <==> Given(input.caFile))
  {
  }

  /** The part of a composed URL before its query. */
  function Base(user: seq<Byte>, password: seq<Byte>, host: string, port: string, name: string): string {
    SCHEME + (Encode(user) + ":" + Encode(password) + "@" + (host + ":" + (port + "/" + name)))
  }

  /** And its query. */
  function Query(sslmode: string): string {
    "?" + ("sslmode=" + sslmode)
  }

  lemma Regroup(a: string, b: string, c: string)
    ensures (a + b) + c == a + (b + c)
  {
  }

  lemma ComposeIsBaseAndQuery(user: seq<Byte>, password: seq<Byte>, host: string, port: string, name: string, sslmode: string)
    ensures Compose(user, password, host, port, name, sslmode) == Base(user, password, host, port, name) + Query(sslmode)
  {
    var query := Query(sslmode);
    Regroup(name, "?", "sslmode=" + sslmode);
    Regroup(port + "/", name, query);
    Regroup(host + ":", port + "/" + name, query);
    var credentials := Encode(user) + ":" + Encode(password) + "@";
    Regroup(credentials, host + ":" + (port + "/" + name), query);
    Regroup(SCHEME, credentials + (host + ":" + (port + "/" + name)), query);
  }

  /** The URL is put together from the parts. */
  predicate Composes(env: Env) {
    Given(env.host) && Given(env.port) && Given(env.name) && Given(env.user) && Given(env.password) && !Given(env.url)
  }

  predicate AsksForTls(sslmode: string) {
    "require" <= sslmode || "verify" <= sslmode
  }

  /** In the query, the option stands where the mode begins, or within the mode. */
  lemma TheModeBegins(sslmode: string, word: string)
    requires word != ""
    ensures Occurs("sslmode=" + sslmode, "sslmode=" + word) <==>
            word <= sslmode || Occurs(sslmode, "sslmode=" + word)
  {
    var query, needle := "sslmode=" + sslmode, "sslmode=" + word;
    assert query[8..|query|] == sslmode;
    if Occurs(sslmode, needle) { StretchOccurs(query, 8, |query|, needle); }
    if word <= sslmode {
      assert query[0..0 + |needle|] == needle;
      assert StandsAt(query, needle, 0);
    }
    if i: nat :| i <= |query| && StandsAt(query, needle, i) {
      NotWithinTheKey(query, needle, i);
      if i == 0 {
        assert query[0..|needle|] == needle;
        assert query[8..|needle|] == needle[8..] == word;
      } else {
        assert query[i..i + |needle|] == sslmode[i - 8..i - 8 + |needle|];
        assert StandsAt(sslmode, needle, i - 8);
      }
    }
  }

  /** The key of the option does not overlap itself. */
  lemma NotWithinTheKey(query: string, needle: string, i: nat)
    requires "sslmode=" <= query && "sslmode=" <= needle && StandsAt(query, needle, i)
    ensures i == 0 || i >= 8
  {
    assert query[i] == query[i..i + |needle|][0] == needle[0] == 's';
    assert query[i + 1] == query[i..i + |needle|][1] == needle[1] == 's';
    assert "sslmode="[1] == 's' && query[2] == 'l' && query[3] == 'm' && query[4] == 'o';
    assert query[5] == 'd' && query[6] == 'e' && query[7] == '=';
  }

  /** Nothing before the host can hold the option: an encoded credential has no `=`. */
  lemma CredentialsSpellNothing(user: seq<Byte>, password: seq<Byte>, rest: string, needle: string)
    requires '=' in needle && ':' !in needle && '/' !in needle && '@' !in needle && |needle| > 10
    ensures Occurs(SCHEME + (Encode(user) + ":" + Encode(password) + "@" + rest), needle) <==> Occurs(rest, needle)
  {
    EncodedHasNoDelimiter(user, '=');
    EncodedHasNoDelimiter(password, '=');
    var u, p := Encode(user), Encode(password);
    var afterUser, afterScheme := p + "@" + rest, u + ":" + p + "@" + rest;
    OccursAround(p, '@', rest, needle);
    LacksACharacter(p, needle, '=');
    assert afterScheme == u + [':'] + afterUser;
    OccursAround(u, ':', afterUser, needle);
    LacksACharacter(u, needle, '=');
    assert SCHEME + afterScheme == "postgresql" + [':'] + ("/" + ['/'] + afterScheme);
    OccursAround("/", '/', afterScheme, needle);
    OccursAround("postgresql", ':', "/" + ['/'] + afterScheme, needle);
  }

  /** The word is one that the option is matched with. */
  predicate IsWord(word: string) {
    word == "require" || word == "verify"
  }

  lemma OptionHasOneDelimiter(word: string)
    requires IsWord(word)
    ensures var p := "sslmode=" + word;
            '=' in p && ':' !in p && '/' !in p && '@' !in p && '?' !in p && |p| > 10
  {
    assert ("sslmode=" + word)[7] == '=';
  }

  /** Where the option can stand in a composed URL: where the mode begins, or whole in one of the plain parts. */
  lemma WhereTheOptionStands(user: seq<Byte>, password: seq<Byte>, host: string, port: string, name: string,
                             sslmode: string, word: string)
    requires IsWord(word)
    ensures var p := "sslmode=" + word;
            Occurs(Compose(user, password, host, port, name, sslmode), p) <==>
              word <= sslmode || Occurs(host, p) || Occurs(port, p) || Occurs(name, p) || Occurs(sslmode, p)
  {
    var needle := "sslmode=" + word;
    OptionHasOneDelimiter(word);
    var query := "sslmode=" + sslmode;
    var path := port + "/" + (name + "?" + query);
    CredentialsSpellNothing(user, password, host + ":" + path, needle);
    OccursAround(host, ':', path, needle);
    OccursAround(port, '/', name + "?" + query, needle);
    OccursAround(name, '?', query, needle);
    TheModeBegins(sslmode, word);
  }

  /** Some part of the configuration asks for TLS, by its mode or by spelling the option. */
  ghost predicate Asks(env: Env)
    requires Composes(env)
  {
    || AsksForTls(Sslmode(env))
    || NeedsSsl(env.host.value) || NeedsSsl(env.port.value) || NeedsSsl(env.name.value) || NeedsSsl(Sslmode(env))
  }

  /**
   The decision is exact, for every configuration: a composed URL asks for TLS if and only if its mode starts with
   `require` or `verify`, or its host, port, name or mode spells the option out. User and password never matter.
   */
  lemma TlsIsAskedForExactly(env: Env)
    requires Composes(env)
    ensures NeedsSsl(ResolveDatabaseUrl(env).url) <==> Asks(env)
  {
    ComposedTls(env.user.value, env.password.value, env.host.value, env.port.value, env.name.value, Sslmode(env));
  }

  lemma ComposedTls(user: seq<Byte>, password: seq<Byte>, host: string, port: string, name: string, sslmode: string)
    ensures NeedsSsl(Compose(user, password, host, port, name, sslmode)) <==>
            AsksForTls(sslmode) || NeedsSsl(host) || NeedsSsl(port) || NeedsSsl(name) || NeedsSsl(sslmode)
  {
    WhereTheOptionStands(user, password, host, port, name, sslmode, "require");
    WhereTheOptionStands(user, password, host, port, name, sslmode, "verify");
    assert "sslmode=" + "require" == "sslmode=require" && "sslmode=" + "verify" == "sslmode=verify";
  }

  /** So where none of them holds a `=`, the mode alone decides. */
  lemma ModeAloneDecides(env: Env)
    requires Composes(env)
    requires '=' !in env.host.value && '=' !in env.port.value && '=' !in env.name.value && '=' !in Sslmode(env)
    ensures NeedsSsl(ResolveDatabaseUrl(env).url) <==> AsksForTls(Sslmode(env))
  {
    TlsIsAskedForExactly(env);
    NothingSpelled(env.host.value);
    NothingSpelled(env.port.value);
    NothingSpelled(env.name.value);
    NothingSpelled(Sslmode(env));
  }

  lemma NothingSpelled(part: string)
    requires '=' !in part
    ensures !NeedsSsl(part)
  {
    assert "sslmode=require"[7] == '=' && "sslmode=verify"[7] == '=';
    LacksACharacter(part, "sslmode=require", '=');
    LacksACharacter(part, "sslmode=verify", '=');
  }

  /** The query of the composed URL is its mode and nothing else. */
  predicate OneParameter(env: Env)
    requires Composes(env)
  {
    '?' !in env.host.value && '?' !in env.port.value && '?' !in env.name.value && '&' !in Sslmode(env)
  }

  lemma BaseHasNoQuery(user: seq<Byte>, password: seq<Byte>, host: string, port: string, name: string)
    requires '?' !in host && '?' !in port && '?' !in name
    ensures '?' !in Base(user, password, host, port, name)
  {
    EncodedHasNoDelimiter(user, '?');
    EncodedHasNoDelimiter(password, '?');
  }

  lemma OnlyTheModeGoes(base: string, sslmode: string)
    requires '?' !in base && '&' !in sslmode
    ensures StripSslmode(base + Query(sslmode)) == base
  {
    var query := "sslmode=" + sslmode;
    CutUndoesJoin(base, '?', query);
    Regroup(base, ['?'], query);
    NothingIsKept(query);
  }

  /** Stripping the mode leaves a composed URL without its query. */
  lemma StrippedComposedUrl(env: Env)
    requires Composes(env) && OneParameter(env)
    ensures StripSslmode(ResolveDatabaseUrl(env).url)
         == Base(env.user.value, env.password.value, env.host.value, env.port.value, env.name.value)
  {
    ComposeIsBaseAndQuery(env.user.value, env.password.value, env.host.value, env.port.value, env.name.value, Sslmode(env));
    BaseHasNoQuery(env.user.value, env.password.value, env.host.value, env.port.value, env.name.value);
    OnlyTheModeGoes(Base(env.user.value, env.password.value, env.host.value, env.port.value, env.name.value), Sslmode(env));
  }

  lemma NothingIsKept(query: string)
    requires '&' !in query && IsSslmode(query)
    ensures WithoutSslmode(Params(query)) == []
  {
    NothingToCut(query, '&');
    assert WithoutSslmode([query]) == [];
  }

  /**
   The whole decision for a composed URL with one parameter: no TLS and the URL untouched, unless the configuration
   asks for it; then TLS at the level the input allows and the mode gone from the URL, or, in production without a
   CA, no connection at all.
   */
  lemma TlsOfAComposedUrl(env: Env, input: TlsInput)
    requires Composes(env) && OneParameter(env)
    ensures var base := Base(env.user.value, env.password.value, env.host.value, env.port.value, env.name.value);
            MakeOptions(ResolveDatabaseUrl(env).url, input) ==
              if !Asks(env) then Options(base + Query(Sslmode(env)), None)
              else if Given(input.caFile) then
                if input.readable.Some? then Options(base, Some(Tls(input.readable, true))) else Refused(CaUnreadable)
              else if input.isProduction then Refused(CaRequired)
              else Options(base, Some(Tls(None, false)))
  {
    TlsIsAskedForExactly(env);
    StrippedComposedUrl(env);
    ComposeIsBaseAndQuery(env.user.value, env.password.value, env.host.value, env.port.value, env.name.value, Sslmode(env));
  }
}
