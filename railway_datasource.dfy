/**
 * RailwayDataSourceEnvPostProcessor: at start-up, turns a Railway-style `DATABASE_URL` into the
 * JDBC url, user name and password properties, unless `DB_URL` is already set. The environment
 * is a map from property names to values. `java.net.URI` parsing is not part of this model: it is
 * the parameter `parse`, which yields None where the constructor throws.
 */
module RailwayDataSource {
  import opened Wrappers
  import Strings

  const DbUrlProperty := "DB_URL"
  const DatabaseUrlProperty := "DATABASE_URL"
  /** The three datasource properties the processor can set. */
  datatype Property = UrlKey | UsernameKey | PasswordKey

  /** The property's name in the environment. */
  function Name(p: Property): string {
    match p
    case UrlKey => "spring.datasource.url"
    case UsernameKey => "spring.datasource.username"
    case PasswordKey => "spring.datasource.password"
  }
  const DefaultPort := 5432
  const DefaultDatabase := "railway"

  /** What the code reads from a parsed URI. A port of -1 means the URI has none. */
  datatype Uri = Uri(host: Option<string>, port: int, path: Option<string>, userInfo: Option<string>)

  function Lookup(env: map<string, string>, name: string): Option<string> {
    if name in env then Some(env[name]) else None
  }

  predicate Present(v: Option<string>) {
    v.Some? && !Strings.IsBlank(v.value)
  }

  /** The trimmed url with a `postgres://` scheme renamed to `postgresql://`. */
  function Normalize(databaseUrl: string): (n: string)
    ensures Strings.StartsWith(Strings.Trim(databaseUrl), "postgres://") ==>
      n == "postgresql://" + Strings.Trim(databaseUrl)[|"postgres://"|..]
    ensures !Strings.StartsWith(Strings.Trim(databaseUrl), "postgres://") ==> n == Strings.Trim(databaseUrl)
  {
    var t := Strings.Trim(databaseUrl);
    if Strings.StartsWith(t, "postgres://") then "postgresql://" + t[11..] else t
  }

  predicate HasPostgresScheme(n: string) {
    Strings.StartsWith(n, "postgresql://") || Strings.StartsWith(n, "jdbc:postgresql://")
  }

  /** The environment the processor leaves alone. */
  predicate Declines(env: map<string, string>) {
    || Present(Lookup(env, DbUrlProperty))
    || !Present(Lookup(env, DatabaseUrlProperty))
    || !HasPostgresScheme(Normalize(env[DatabaseUrlProperty]))
  }

  /** The string handed to the URI parser: the normalized url without a leading `jdbc:`. */
  function ToParse(n: string): string {
    if Strings.StartsWith(n, "jdbc:") then n[5..] else n
  }

  /** Java renders a null host as "null" in a string concatenation. */
  function HostText(host: Option<string>): string {
    if host.Some? then host.value else "null"
  }

  function PortOf(u: Uri): nat {
    if u.port > 0 then u.port else DefaultPort
  }

  function DatabaseOf(u: Uri): string {
    if u.path.Some? && |u.path.value| > 1 then u.path.value[1..] else DefaultDatabase
  }

  /** The JDBC url built from a parsed URI. */
  function JdbcUrl(u: Uri): string {
    "jdbc:postgresql://" + HostText(u.host) + ":" + Strings.NatToString(PortOf(u)) + "/" + DatabaseOf(u)
  }

  /** The user name and password properties taken from the user info. */
  function Credentials(userInfo: Option<string>): map<Property, string> {
    if userInfo.Some? && !Strings.IsBlank(userInfo.value) then
      var colon := Strings.IndexOf(userInfo.value, ':');
      if colon > 0 then map[UsernameKey := userInfo.value[..colon], PasswordKey := userInfo.value[colon + 1..]]
      else map[UsernameKey := userInfo.value]
    else map[]
  }

  /**
   * `postProcessEnvironment`: the property source it adds in front of the others, or None when it
   * adds nothing. When the URI parser fails, only the url is set, to the parsed string prefixed
   * with `jdbc:`.
   */
  method PostProcessEnvironment(env: map<string, string>, parse: string -> Option<Uri>) returns (added: Option<map<Property, string>>)
    ensures added.None? <==> Declines(env)
    ensures added.Some? ==> DatabaseUrlProperty in env
    ensures added.Some? ==> var toParse := ToParse(Normalize(env[DatabaseUrlProperty]));
      added.value == match parse(toParse)
        case None => map[UrlKey := "jdbc:" + toParse]
        case Some(u) => map[UrlKey := JdbcUrl(u)] + Credentials(u.userInfo)
  {
    var dbUrl := Lookup(env, DbUrlProperty);
    if dbUrl.Some? && !Strings.IsBlank(dbUrl.value) {
      return None;
    }
    var databaseUrl := Lookup(env, DatabaseUrlProperty);
    if databaseUrl.None? || Strings.IsBlank(databaseUrl.value) {
      return None;
    }
    var normalized := NormalizeUrl(databaseUrl.value);
    if !Strings.StartsWith(normalized, "postgresql://") && !Strings.StartsWith(normalized, "jdbc:postgresql://") {
      return None;
    }
    var toParse := if Strings.StartsWith(normalized, "jdbc:") then normalized[5..] else normalized;
    assert toParse == ToParse(normalized);
    ParsedFormIsPostgresql(normalized);
    var props := PropertiesFor(toParse, parse);
    return Some(props);
  }

  /** The trim and the scheme rename of the `DATABASE_URL` value. */
  method NormalizeUrl(databaseUrl: string) returns (normalized: string)
    ensures normalized == Normalize(databaseUrl)
  {
    normalized := Strings.Trim(databaseUrl);
    if Strings.StartsWith(normalized, "postgres://") {
      normalized := "postgresql://" + normalized[11..];
    }
  }

  /** The properties for the string handed to the parser: from the parsed URI, or only the url
      when the parser fails. */
  method PropertiesFor(toParse: string, parse: string -> Option<Uri>) returns (props: map<Property, string>)
    requires Strings.StartsWith(toParse, "postgresql://")
    ensures props == match parse(toParse)
      case None => map[UrlKey := "jdbc:" + toParse]
      case Some(u) => map[UrlKey := JdbcUrl(u)] + Credentials(u.userInfo)
  {
    props := map[];
    match parse(toParse) {
      case None =>
        assert !Strings.StartsWith(toParse, "jdbc:") by {
          assert toParse[..13][0] == toParse[0] == 'p';
        }
        var jdbcUrl := if Strings.StartsWith(toParse, "jdbc:") then toParse else "jdbc:" + toParse;
        props := props[UrlKey := jdbcUrl];
      case Some(uri) =>
        props := FromUri(uri);
    }
  }

  /** The properties taken from a parsed URI: the url, then the user name and password. */
  method FromUri(uri: Uri) returns (props: map<Property, string>)
    ensures props == map[UrlKey := JdbcUrl(uri)] + Credentials(uri.userInfo)
  {
    var port := if uri.port > 0 then uri.port else DefaultPort;
    var database := if uri.path.Some? && |uri.path.value| > 1 then uri.path.value[1..] else DefaultDatabase;
    props := map[UrlKey := "jdbc:postgresql://" + HostText(uri.host) + ":" + Strings.NatToString(port) + "/" + database];
    if uri.userInfo.Some? && !Strings.IsBlank(uri.userInfo.value) {
      var userInfo := uri.userInfo.value;
      var colon := Strings.IndexOf(userInfo, ':');
      if colon > 0 {
        props := props[UsernameKey := userInfo[..colon]];
        props := props[PasswordKey := userInfo[colon + 1..]];
      } else {
        props := props[UsernameKey := userInfo];
      }
    }
  }

  /** A `postgres://` url is renamed to the `postgresql://` scheme, and then accepted. */
  lemma PostgresSchemeRenamed(rest: string)
    requires Strings.Trim("postgres://" + rest) == "postgres://" + rest
    ensures Normalize("postgres://" + rest) == "postgresql://" + rest
    ensures HasPostgresScheme(Normalize("postgres://" + rest))
  {
    var s := "postgres://" + rest;
    assert s[..11] == "postgres://";
    assert s[11..] == rest;
  }

  /**
   * The string given to the parser, and so the fallback url, is always in the `postgresql://`
   * form: a `jdbc:` prefix is stripped before parsing and put back in the fallback exactly once.
   */
  lemma ParsedFormIsPostgresql(n: string)
    requires HasPostgresScheme(n)
    ensures Strings.StartsWith(ToParse(n), "postgresql://")
    ensures Strings.StartsWith("jdbc:" + ToParse(n), "jdbc:postgresql://")
    ensures Strings.StartsWith(n, "jdbc:") ==> "jdbc:" + ToParse(n) == n
  {
    var t := ToParse(n);
    if Strings.StartsWith(n, "jdbc:") {
      assert n[..13][0] == n[0] == 'j';
      assert Strings.StartsWith(n, "jdbc:postgresql://");
      assert t == n[5..];
      assert t[..13] == n[..18][5..];
      assert n == n[..5] + t;
    } else {
      assert t == n;
      assert !Strings.StartsWith(n, "jdbc:postgresql://") by {
        if |n| >= 18 {
          assert n[..5] == n[..18][..5];
        }
      }
    }
    assert ("jdbc:" + t)[..18] == "jdbc:" + t[..13];
  }

  /** Without a port the url uses 5432; with no database path, the database `railway`. */
  lemma DefaultsApply(host: Option<string>, path: Option<string>, userInfo: Option<string>)
    requires path.None? || |path.value| <= 1
    ensures JdbcUrl(Uri(host, -1, path, userInfo)) == "jdbc:postgresql://" + HostText(host) + ":5432/railway"
  {
    assert Strings.NatToString(5432) == "5432";
  }

  /** A given port and database appear in the url as they are: the port's digits read back as the port. */
  lemma PortAndDatabaseKept(u: Uri)
    requires u.port > 0 && u.path.Some? && |u.path.value| > 1
    ensures JdbcUrl(u) == "jdbc:postgresql://" + HostText(u.host) + ":" + Strings.NatToString(u.port) + "/" + u.path.value[1..]
    ensures Strings.DigitsValue(Strings.NatToString(PortOf(u))) == u.port
  {
    Strings.NatToStringValue(u.port);
  }

  /** User info `user:password` with a non-empty, colon-free user splits at that colon. */
  lemma CredentialsSplit(user: string, password: string)
    requires user != "" && ':' !in user && !Strings.IsBlank(user)
    ensures Credentials(Some(user + ":" + password)) == map[UsernameKey := user, PasswordKey := password]
  {
    var ui := user + ":" + password;
    assert ui[..|user|] == user;
    assert ui[|user|] == ':';
    assert !Strings.IsBlank(ui) by {
      var i :| 0 <= i < |user| && !Strings.IsJavaWhitespace(user[i]);
      assert ui[i] == user[i];
    }
    assert Strings.IndexOf(ui, ':') == |user|;
    assert ui[|user| + 1..] == password;
  }

  /**
   * A user name is set exactly when the user info is present and not blank; a password only
   * when, in addition, its first colon is past the first character. Without a password the user
   * name is the whole user info. The url is never touched.
   */
  lemma CredentialsSpec(userInfo: Option<string>)
    ensures var r := Credentials(userInfo);
      && UrlKey !in r
      && (UsernameKey in r <==> userInfo.Some? && !Strings.IsBlank(userInfo.value))
      && (PasswordKey in r <==> UsernameKey in r && Strings.IndexOf(userInfo.value, ':') > 0)
      && (UsernameKey in r && PasswordKey !in r ==> r[UsernameKey] == userInfo.value)
  {
  }
}
