/**
 The Postgres connection URL: given whole, or composed from parts with the credentials percent-encoded
 (sections 2.1 and 3.2.1 of RFC 3986). Credentials are their UTF-8 bytes.
 */
module DatabaseUrl {
  import opened Wrappers
  import opened Text

  type Byte = b: int | 0 <= b < 256

  // ── Percent-encoding ────────────────────────────────────────────────────────

  /** The characters `encodeURIComponent` leaves alone. */
  predicate Kept(b: Byte) {
    var c := b as char;
    || 'A' <= c <= 'Z' || 'a' <= c <= 'z' || '0' <= c <= '9'
    || c == '-' || c == '_' || c == '.' || c == '!' || c == '~' || c == '*' || c == '\'' || c == '(' || c == ')'
  }

  /** The characters that separate the parts of a URL or of its query. */
  predicate Delimiter(c: char) {
    || c == ':' || c == '/' || c == '?' || c == '#' || c == '[' || c == ']' || c == '@'
    || c == '$' || c == '&' || c == '+' || c == ',' || c == ';' || c == '='
  }

  function HexDigit(n: nat): char
    requires n < 16
  {
    if n < 10 then ('0' as int + n) as char else ('A' as int + n - 10) as char
  }

  function HexValue(c: char): Option<nat> {
    if '0' <= c <= '9' then Some(c as int - '0' as int)
    else if 'A' <= c <= 'F' then Some(c as int - 'A' as int + 10)
    else if 'a' <= c <= 'f' then Some(c as int - 'a' as int + 10)
    else None
  }

  function EncodeByte(b: Byte): string {
    if Kept(b) then [b as char] else ['%', HexDigit(b / 16), HexDigit(b % 16)]
  }

  function Encode(bytes: seq<Byte>): string {
    if bytes == [] then "" else EncodeByte(bytes[0]) + Encode(bytes[1..])
  }

  /** Percent-decoding: `%` takes two hexadecimal digits of either case, anything else stands for itself. */
  function Decode(s: string): Option<seq<Byte>> {
    if s == "" then Some([])
    else if s[0] == '%' then
      if |s| < 3 || HexValue(s[1]).None? || HexValue(s[2]).None? then None
      else match Decode(s[3..])
        case None => None
        case Some(rest) => Some([(HexValue(s[1]).value * 16 + HexValue(s[2]).value) as Byte] + rest)
    else if s[0] as int >= 256 then None
    else match Decode(s[1..])
      case None => None
      case Some(rest) => Some([s[0] as int as Byte] + rest)
  }

  /**
   By their codes: letters, digits and nine marks stand for themselves; any other byte is a `%` and its two digits in
   base sixteen.
   */
  lemma EncodingIsExact(b: Byte)
    ensures 65 <= b <= 90 || 97 <= b <= 122 || 48 <= b <= 57 || b in [33, 39, 40, 41, 42, 45, 46, 95, 126] ==>
              EncodeByte(b) == [b as char]
    ensures !(65 <= b <= 90 || 97 <= b <= 122 || 48 <= b <= 57 || b in [33, 39, 40, 41, 42, 45, 46, 95, 126]) ==>
              EncodeByte(b) == ['%', "0123456789ABCDEF"[b / 16], "0123456789ABCDEF"[b % 16]]
  {
  }

  /** A digit in base sixteen is read in either case. */
  lemma DigitsAreRead(n: nat)
    requires n < 16
    ensures HexValue("0123456789ABCDEF"[n]) == Some(n) && HexValue("0123456789abcdef"[n]) == Some(n)
  {
  }

  lemma HexRoundTrip(n: nat)
    requires n < 16
    ensures HexValue(HexDigit(n)) == Some(n)
  {
  }

  lemma DecodesAByte(b: Byte, tail: string, rest: seq<Byte>)
    requires Decode(tail) == Some(rest)
    ensures Decode(EncodeByte(b) + tail) == Some([b] + rest)
  {
    var s := EncodeByte(b) + tail;
    if Kept(b) {
      assert s[1..] == tail && s[0] == b as char;
    } else {
      assert s[3..] == tail && s[0] == '%' && s[1] == HexDigit(b / 16) && s[2] == HexDigit(b % 16);
      HexRoundTrip(b / 16);
      HexRoundTrip(b % 16);
      assert b / 16 * 16 + b % 16 == b;
    }
  }

  lemma {:induction false} DecodeUndoesEncode(bytes: seq<Byte>)
    ensures Decode(Encode(bytes)) == Some(bytes)
  {
    if bytes != [] {
      DecodeUndoesEncode(bytes[1..]);
      DecodesAByte(bytes[0], Encode(bytes[1..]), bytes[1..]);
      assert [bytes[0]] + bytes[1..] == bytes;
    }
  }

  /** No character that means something in a URL is left in an encoded credential. */
  lemma {:induction false} EncodedHasNoDelimiter(bytes: seq<Byte>, c: char)
    requires Delimiter(c)
    ensures c !in Encode(bytes)
  {
    if bytes != [] {
      EncodedHasNoDelimiter(bytes[1..], c);
      assert c !in EncodeByte(bytes[0]);
    }
  }

  // ── Composition ─────────────────────────────────────────────────────────────

  datatype Env = Env(
    url: Option<string>,
    host: Option<string>,
    port: Option<string>,
    name: Option<string>,
    user: Option<seq<Byte>>,
    password: Option<seq<Byte>>,
    sslmode: Option<string>)

  datatype Resolved = Url(url: string) | Missing(variable: string)

  predicate Given<T>(value: Option<seq<T>>) {
    value.Some? && value.value != []
  }

  const SCHEME := "postgresql://"

  function Compose(user: seq<Byte>, password: seq<Byte>, host: string, port: string, name: string, sslmode: string): string {
    var path := port + "/" + (name + "?" + ("sslmode=" + sslmode));
    SCHEME + (Encode(user) + ":" + Encode(password) + "@" + (host + ":" + path))
  }

  /** A whole URL is returned untouched; an empty variable counts as missing, except `DATABASE_SSLMODE`. */
  function ResolveDatabaseUrl(env: Env): Resolved {
    if Given(env.url) then Url(env.url.value)
    else if !Given(env.host) then Missing("DATABASE_HOST")
    else if !Given(env.port) then Missing("DATABASE_PORT")
    else if !Given(env.name) then Missing("DATABASE_NAME")
    else if !Given(env.user) then Missing("DATABASE_USER")
    else if !Given(env.password) then Missing("DATABASE_PASSWORD")
    else Url(Compose(env.user.value, env.password.value, env.host.value, env.port.value, env.name.value, Sslmode(env)))
  }

  function Sslmode(env: Env): string {
    if env.sslmode.Some? then env.sslmode.value else "require"
  }

  /** The variables the URL is put together from, in the order in which they are asked for. */
  function Asked(env: Env): seq<(string, bool)> {
    [("DATABASE_HOST", Given(env.host)), ("DATABASE_PORT", Given(env.port)), ("DATABASE_NAME", Given(env.name)),
     ("DATABASE_USER", Given(env.user)), ("DATABASE_PASSWORD", Given(env.password))]
  }

  /**
   A whole URL is taken as it is, whatever else is set. Otherwise the first variable that is unset or empty is named, and
   only if there is none is a URL composed; without a mode it asks for `require`.
   */
  lemma ResolutionIsExact(env: Env)
    ensures env.url.Some? && env.url.value != "" ==> ResolveDatabaseUrl(env) == Url(env.url.value)
    ensures env.url.None? || env.url.value == "" ==>
              && (ResolveDatabaseUrl(env).Url? <==> forall i :: 0 <= i < 5 ==> Asked(env)[i].1)
              && (forall v :: ResolveDatabaseUrl(env) == Missing(v) <==>
                    exists i :: 0 <= i < 5 && Asked(env)[i] == (v, false) && forall j :: 0 <= j < i ==> Asked(env)[j].1)
    ensures env.sslmode.None? ==> Sslmode(env) == "require"
    ensures env.sslmode.Some? ==> Sslmode(env) == env.sslmode.value
  {
    var asked := Asked(env);
    assert asked[0] == ("DATABASE_HOST", Given(env.host)) && asked[1] == ("DATABASE_PORT", Given(env.port));
    assert asked[2] == ("DATABASE_NAME", Given(env.name)) && asked[3] == ("DATABASE_USER", Given(env.user));
    assert asked[4] == ("DATABASE_PASSWORD", Given(env.password));
  }

  // ── Taking the URL apart ────────────────────────────────────────────────────

  datatype UrlParts = UrlParts(user: seq<Byte>, password: seq<Byte>, host: string, port: string, name: string, query: string)

  /** Userinfo up to the first `@`, split at its first `:` and decoded; then host, port, name and query. */
  function TakeApart(url: string): Option<UrlParts> {
    if !(SCHEME <= url) then None
    else
      var authority := CutAt(url[|SCHEME|..], '@');
      if authority.Whole? then None
      else
        var credentials := CutAt(authority.before, ':');
        var host := CutAt(authority.after, ':');
        if credentials.Whole? || host.Whole? then None
        else
          var port := CutAt(host.after, '/');
          if port.Whole? then None
          else
            var name := CutAt(port.after, '?');
            var user, password := Decode(credentials.before), Decode(credentials.after);
            if name.Whole? || user.None? || password.None? then None
            else Some(UrlParts(user.value, password.value, host.before, port.before, name.before, name.after))
  }

  /**
   Whatever bytes the credentials hold, taking the composed URL apart gives back exactly them, and the host,
   port, name and mode they were composed with.
   */
  lemma ComposedUrlRoundTrips(user: seq<Byte>, password: seq<Byte>, host: string, port: string, name: string, sslmode: string)
    requires ':' !in host && '/' !in port && '?' !in name
    ensures TakeApart(Compose(user, password, host, port, name, sslmode))
         == Some(UrlParts(user, password, host, port, name, "sslmode=" + sslmode))
  {
    var u, p := Encode(user), Encode(password);
    var afterPort := name + "?" + ("sslmode=" + sslmode);
    var afterHost := port + "/" + afterPort;
    var afterAt := host + ":" + afterHost;
    EncodedHasNoDelimiter(user, ':');
    EncodedHasNoDelimiter(user, '@');
    EncodedHasNoDelimiter(password, '@');
    CutUndoesJoin(u + ":" + p, '@', afterAt);
    CutUndoesJoin(u, ':', p);
    CutUndoesJoin(host, ':', afterHost);
    CutUndoesJoin(port, '/', afterPort);
    CutUndoesJoin(name, '?', "sslmode=" + sslmode);
    DecodeUndoesEncode(user);
    DecodeUndoesEncode(password);
    assert Compose(user, password, host, port, name, sslmode)[|SCHEME|..] == u + ":" + p + "@" + afterAt;
  }

  /** So no two environments that differ in a credential compose the same URL. */
  lemma DistinctCredentialsDistinctUrls(a: Env, b: Env)
    requires !Given(a.url) && !Given(b.url) && ResolveDatabaseUrl(a).Url? && ResolveDatabaseUrl(a) == ResolveDatabaseUrl(b)
    requires ':' !in a.host.value && '/' !in a.port.value && '?' !in a.name.value
    requires Given(b.host) && Given(b.port) && Given(b.name) ==>
               ':' !in b.host.value && '/' !in b.port.value && '?' !in b.name.value
    ensures a.user == b.user && a.password == b.password && a.host == b.host && a.port == b.port && a.name == b.name
    ensures Sslmode(a) == Sslmode(b)
  {
    ComposedUrlRoundTrips(a.user.value, a.password.value, a.host.value, a.port.value, a.name.value, Sslmode(a));
    ComposedUrlRoundTrips(b.user.value, b.password.value, b.host.value, b.port.value, b.name.value, Sslmode(b));
    var key := "sslmode=";
    assert (key + Sslmode(a))[|key|..] == Sslmode(a) && (key + Sslmode(b))[|key|..] == Sslmode(b);
  }
}
