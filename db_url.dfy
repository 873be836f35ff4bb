/**
 * `buildDbUrl` (src/server/src/db.js): the connection string the server
 * hands to Sequelize, from the process environment. A full `DATABASE_URL`
 * wins; otherwise the URL is composed from its parts, with the user name and
 * the password written by ECMAScript `encodeURIComponent`. The environment is
 * a parameter; an unset variable is `None`.
 */
module DbUrl {
  import opened Wrappers
  import opened Text
  import opened Js

  /** The variables `buildDbUrl` reads. */
  datatype Env = Env(
    databaseUrl: Option<string>,
    host: Option<string>,
    name: Option<string>,
    user: Option<string>,
    password: Option<string>,
    port: Option<string>)

  /** The URL, or the error `buildDbUrl` throws. */
  datatype Built = Url(text: string) | Missing(message: string)

  const MissingInfo: string :=
    "Missing DB connection info. Set DATABASE_URL or DB_HOST + DB_NAME (+ optional DB_USER/DB_PASSWORD/DB_PORT)."

  const Scheme: string := "mariadb://"

  // ---------------------------------------------------- encodeURIComponent

  /** The characters `encodeURIComponent` leaves alone: `A-Z a-z 0-9 - _ . ! ~ * ' ( )`. */
  predicate Unreserved(c: char) {
    IsLetter(c) || IsDigit(c) || c == '-' || c == '_' || c == '.' || c == '!' || c == '~' || c == '*' || c == '\'' || c == '(' || c == ')'
  }

  /** The UTF-8 bytes of one character (a Unicode scalar value). */
  function Utf8(c: char): (bs: seq<nat>)
    ensures 1 <= |bs| <= 4
    ensures forall i :: 0 <= i < |bs| ==> bs[i] < 256
  {
    var cp := c as int;
    if cp < 0x80 then [cp]
    else if cp < 0x800 then [0xC0 + cp / 64, 0x80 + cp % 64]
    else if cp < 0x1_0000 then [0xE0 + cp / 4096, 0x80 + (cp / 64) % 64, 0x80 + cp % 64]
    else [0xF0 + cp / 262144, 0x80 + (cp / 4096) % 64, 0x80 + (cp / 64) % 64, 0x80 + cp % 64]
  }

  function Utf8All(s: string): seq<nat> {
    if s == [] then [] else Utf8(s[0]) + Utf8All(s[1..])
  }

  /** The upper-case hexadecimal digit of `d`. */
  function HexDigit(d: nat): (c: char)
    requires d < 16
    ensures IsDigit(c) || 'A' <= c <= 'F'
  {
    if d < 10 then ('0' as int + d) as char else ('A' as int + d - 10) as char
  }

  /** `%XX` for one byte. */
  function PercentByte(b: nat): string
    requires b < 256
  {
    ['%', HexDigit(b / 16), HexDigit(b % 16)]
  }

  /** `%XX` for each byte. */
  function PercentBytes(bs: seq<nat>): (r: string)
    requires forall i :: 0 <= i < |bs| ==> bs[i] < 256
    ensures |r| == 3 * |bs|
  {
    if bs == [] then [] else PercentByte(bs[0]) + PercentBytes(bs[1..])
  }

  function EncodeChar(c: char): string {
    if Unreserved(c) then [c] else PercentBytes(Utf8(c))
  }

  /** `encodeURIComponent(s)`. */
  function EncodeURIComponent(s: string): string {
    if s == [] then [] else EncodeChar(s[0]) + EncodeURIComponent(s[1..])
  }

  // ------------------------------------------------------------ buildDbUrl

  /** `buildDbUrl()`. */
  function BuildDbUrl(env: Env): Built {
    if Truthy(env.databaseUrl) then Url(env.databaseUrl.value)
    else if !Truthy(env.host) || !Truthy(env.name) then Missing(MissingInfo)
    else
      var user := env.user.GetOr("root");
      var pass := env.password.GetOr("");
      var port := env.port.GetOr("3306");
      Url(Scheme + UserInfo(user, pass) + Location(env.host.value, port, env.name.value))
  }

  /** `${encodeURIComponent(user)}:${encodeURIComponent(pass)}@`. */
  function UserInfo(user: string, pass: string): string {
    EncodeURIComponent(user) + ":" + EncodeURIComponent(pass) + "@"
  }

  /** `${host}:${port}/${name}`. */
  function Location(host: string, port: string, name: string): string {
    host + ":" + port + "/" + name
  }

  // ----------------------------------------------------- a reader for checks

  function HexValue(c: char): (v: Option<nat>)
    ensures v.Some? ==> v.value < 16
  {
    if '0' <= c <= '9' then Some(c as int - '0' as int)
    else if 'A' <= c <= 'F' then Some(c as int - 'A' as int + 10)
    else None
  }

  /** Undoes the percent layer: `%XX` is the byte XX, any other character its own code. */
  function PercentDecode(s: string): Option<seq<nat>> {
    if s == [] then Some([])
    else if s[0] == '%' then
      if |s| >= 3 && HexValue(s[1]).Some? && HexValue(s[2]).Some? then
        match PercentDecode(s[3..])
        case None => None
        case Some(rest) => Some([HexValue(s[1]).value * 16 + HexValue(s[2]).value] + rest)
      else None
    else
      match PercentDecode(s[1..])
      case None => None
      case Some(rest) => Some([s[0] as int] + rest)
  }

  /** Splits `user:pass@rest` at the first `@` and, before it, at the first `:`. */
  function SplitUserInfo(s: string): Option<(string, string, string)> {
    if s == [] then None
    else if s[0] == '@' then None
    else if s[0] == ':' then
      var at := IndexOfChar(s[1..], '@');
      if at.None? then None else Some(([], s[1..][..at.value], s[1..][at.value + 1..]))
    else
      match SplitUserInfo(s[1..])
      case None => None
      case Some(t) => Some(([s[0]] + t.0, t.1, t.2))
  }

  function IndexOfChar(s: string, c: char): (i: Option<nat>)
    ensures i.Some? ==> i.value < |s| && s[i.value] == c && c !in s[..i.value]
    ensures i.None? ==> c !in s
  {
    if s == [] then None
    else if s[0] == c then Some(0)
    else
      match IndexOfChar(s[1..], c)
      case None => None
      case Some(k) => assert s[..k + 1] == [s[0]] + s[1..][..k]; Some(k + 1)
  }

  // ------------------------------------------------------------------ lemmas

  lemma HexDigitRoundTrip(d: nat)
    requires d < 16
    ensures HexValue(HexDigit(d)) == Some(d)
  {
  }

  /** One `%XX` triple decodes to its byte, whatever follows. */
  lemma PercentByteRoundTrip(b: nat, rest: string)
    requires b < 256
    requires PercentDecode(rest).Some?
    ensures PercentDecode(PercentByte(b) + rest) == Some([b] + PercentDecode(rest).value)
  {
    HexDigitRoundTrip(b / 16);
    HexDigitRoundTrip(b % 16);
    var s := PercentByte(b) + rest;
    assert s[0] == '%' && s[1] == HexDigit(b / 16) && s[2] == HexDigit(b % 16);
    assert s[3..] == rest;
  }

  /** Percent bytes decode to the bytes, whatever follows. */
  lemma {:induction false} PercentBytesRoundTrip(bs: seq<nat>, rest: string)
    requires forall i :: 0 <= i < |bs| ==> bs[i] < 256
    requires PercentDecode(rest).Some?
    ensures PercentDecode(PercentBytes(bs) + rest) == Some(bs + PercentDecode(rest).value)
    decreases |bs|
  {
    if bs == [] {
      assert PercentBytes(bs) + rest == rest;
      assert bs + PercentDecode(rest).value == PercentDecode(rest).value;
    } else {
      var tail := PercentBytes(bs[1..]) + rest;
      PercentBytesStep(bs, rest);
      PercentBytesRoundTrip(bs[1..], rest);
      PercentByteRoundTrip(bs[0], tail);
      ConsAppend(bs, PercentDecode(rest).value);
    }
  }

  /** Peeling the first byte off an encoding followed by more text. */
  lemma PercentBytesStep(bs: seq<nat>, rest: string)
    requires bs != [] && forall i :: 0 <= i < |bs| ==> bs[i] < 256
    ensures PercentBytes(bs) + rest == PercentByte(bs[0]) + (PercentBytes(bs[1..]) + rest)
  {
    var h, t := PercentByte(bs[0]), PercentBytes(bs[1..]);
    assert PercentBytes(bs) == h + t;
    AppendAssoc(h, t, rest);
  }

  /** Concatenation is associative. */
  lemma AppendAssoc(a: string, b: string, c: string)
    ensures (a + b) + c == a + (b + c)
  {
  }

  /** A non-empty sequence is its head followed by its tail. */
  lemma ConsAppend(bs: seq<nat>, d: seq<nat>)
    requires bs != []
    ensures [bs[0]] + (bs[1..] + d) == bs + d
  {
    assert bs == [bs[0]] + bs[1..];
  }

  /** The encoding decodes to the UTF-8 bytes of the input: nothing is lost. */
  lemma {:induction false} EncodeRoundTrip(s: string)
    ensures PercentDecode(EncodeURIComponent(s)) == Some(Utf8All(s))
    decreases |s|
  {
    if s != [] {
      var c := s[0];
      var tail := EncodeURIComponent(s[1..]);
      EncodeRoundTrip(s[1..]);
      if Unreserved(c) {
        assert ([c] + tail)[1..] == tail;
      } else {
        PercentBytesRoundTrip(Utf8(c), tail);
      }
    }
  }

  lemma {:induction false} PercentBytesDelimiterFree(bs: seq<nat>)
    requires forall i :: 0 <= i < |bs| ==> bs[i] < 256
    ensures ':' !in PercentBytes(bs) && '@' !in PercentBytes(bs) && '/' !in PercentBytes(bs)
    decreases |bs|
  {
    if bs != [] {
      PercentBytesDelimiterFree(bs[1..]);
      var h := PercentByte(bs[0]);
      assert forall c :: c in h ==> c == '%' || IsDigit(c) || 'A' <= c <= 'F';
    }
  }

  /** An encoded part holds no `:`, `@` or `/`, so it cannot change where the URL's parts begin and end. */
  lemma {:induction false} EncodedHasNoDelimiters(s: string)
    ensures ':' !in EncodeURIComponent(s) && '@' !in EncodeURIComponent(s) && '/' !in EncodeURIComponent(s)
    decreases |s|
  {
    if s != [] {
      EncodedHasNoDelimiters(s[1..]);
      if !Unreserved(s[0]) {
        PercentBytesDelimiterFree(Utf8(s[0]));
      }
    }
  }

  /** `user:pass@rest` with no `:` or `@` in the user and no `@` in the password splits back into its parts. */
  lemma {:induction false} SplitUserInfoOf(user: string, pass: string, rest: string)
    requires ':' !in user && '@' !in user && '@' !in pass
    ensures SplitUserInfo(user + ":" + pass + "@" + rest) == Some((user, pass, rest))
    decreases |user|
  {
    var s := user + ":" + pass + "@" + rest;
    if user == [] {
      assert s[0] == ':';
      assert s[1..] == pass + "@" + rest;
      assert s[1..][|pass|] == '@';
      assert s[1..][..|pass|] == pass;
      assert s[1..][|pass| + 1..] == rest;
    } else {
      SplitUserInfoOf(user[1..], pass, rest);
      assert s[1..] == user[1..] + ":" + pass + "@" + rest;
      assert [user[0]] + user[1..] == user;
    }
  }

  /** A truthy `DATABASE_URL` is the answer, whatever else is set. */
  lemma FullUrlWins(env: Env, other: Env)
    requires Truthy(env.databaseUrl) && other.databaseUrl == env.databaseUrl
    ensures BuildDbUrl(env) == Url(env.databaseUrl.value) == BuildDbUrl(other)
  {
  }

  /** Without a full URL, a missing or empty host or database name is the error. */
  lemma MissingPartsFail(env: Env)
    ensures BuildDbUrl(env).Missing? <==> !Truthy(env.databaseUrl) && (!Truthy(env.host) || !Truthy(env.name))
    ensures BuildDbUrl(env).Missing? ==> BuildDbUrl(env).message == MissingInfo
  {
  }

  /** Unset user, password and port are `root`, the empty password and 3306. */
  lemma Defaults(host: string, name: string)
    requires host != [] && name != []
    ensures BuildDbUrl(Env(None, Some(host), Some(name), None, None, None))
        == Url(Scheme + UserInfo("root", "") + Location(host, "3306", name))
    ensures UserInfo("root", "") == "root:@"
  {
    UnreservedUnchanged("root");
  }

  /** Text made of unreserved characters only is left as it is. */
  lemma {:induction false} UnreservedUnchanged(s: string)
    requires forall i :: 0 <= i < |s| ==> Unreserved(s[i])
    ensures EncodeURIComponent(s) == s
  {
    if s != [] {
      UnreservedUnchanged(s[1..]);
      assert s == [s[0]] + s[1..];
    }
  }

  /**
   * A composed URL reads back: after the scheme, splitting at the first `:`
   * and the first `@` gives the encoded user, the encoded password and
   * `host:port/name` (and `EncodeRoundTrip` takes the encoded parts back to
   * the UTF-8 bytes of the user name and the password).
   */
  lemma ComposedUrlReadsBack(env: Env)
    requires !Truthy(env.databaseUrl) && Truthy(env.host) && Truthy(env.name)
    ensures
      var u := BuildDbUrl(env).text;
      var user := env.user.GetOr("root");
      var pass := env.password.GetOr("");
      && u[..|Scheme|] == Scheme
      && SplitUserInfo(u[|Scheme|..]) == Some((EncodeURIComponent(user), EncodeURIComponent(pass),
           Location(env.host.value, env.port.GetOr("3306"), env.name.value)))
  {
    var user := env.user.GetOr("root");
    var pass := env.password.GetOr("");
    var rest := Location(env.host.value, env.port.GetOr("3306"), env.name.value);
    var eu := EncodeURIComponent(user);
    var ep := EncodeURIComponent(pass);
    EncodedHasNoDelimiters(user);
    EncodedHasNoDelimiters(pass);
    SplitUserInfoOf(eu, ep, rest);
    assert BuildDbUrl(env).text == Scheme + UserInfo(user, pass) + rest;
    SplitAfterPrefix(Scheme, UserInfo(user, pass), rest);
  }

  /** Text that starts with `p` splits back into `p` and the rest. */
  lemma SplitAfterPrefix(p: string, a: string, b: string)
    ensures (p + a + b)[..|p|] == p && (p + a + b)[|p|..] == a + b
  {
  }
}
