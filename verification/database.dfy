/**
 * The `members` table and the module-level database configuration:
 * the `DATABASE_URL` default, the `postgres://` scheme rewrite and the
 * choice between the SQLite and the PostgreSQL engine.
 */
module Database {
  import opened Wrappers

  /** One row of the `members` table. Timestamps are integer seconds. */
  datatype Member = Member(
    userId: string,                  // Discord user id, unique across the table
    username: string,
    discriminator: Option<string>,   // a column nothing in the service ever writes
    avatar: Option<string>,          // null when the user has no custom avatar
    accessToken: string,
    refreshToken: string,
    expiresAt: int,
    ipAddress: string,
    lastUpdated: int)

  /**
   * The unique constraint on `user_id`: the table is a map keyed by user id,
   * and every row is stored under its own id.
   */
  ghost predicate UniqueUserIds(ms: map<string, Member>) {
    forall k :: k in ms ==> ms[k].userId == k
  }

  /** Used when the `DATABASE_URL` environment variable is unset. */
  const DefaultDatabaseUrl: string := "sqlite:///./vault.db"

  /** The scheme some hosting providers hand out, and the one SQLAlchemy expects. */
  const LegacyScheme: string := "postgres://"
  const PostgresScheme: string := "postgresql://"

  /** The substring whose presence anywhere in the URL selects the SQLite engine. */
  const SqliteMarker: string := "sqlite"

  /** Python's `s.startswith(prefix)`. */
  predicate StartsWith(s: string, prefix: string)
    ensures StartsWith(s, prefix) <==> OccursAt(s, prefix, 0)
  {
    |prefix| <= |s| && s[..|prefix|] == prefix
  }

  /** `pat` occurs in `s` beginning at index `i`. */
  predicate OccursAt(s: string, pat: string, i: nat) {
    i + |pat| <= |s| && s[i..i + |pat|] == pat
  }

  /** The leftmost occurrence of `pat` in `s` at or after `from`, as Python's `str.find` searches. */
  function FindFrom(s: string, pat: string, from: nat): (r: Option<nat>)
    ensures r.Some? ==> from <= r.value && OccursAt(s, pat, r.value)
    ensures r.Some? ==> forall j: nat :: from <= j < r.value ==> !OccursAt(s, pat, j)
    ensures r.None? ==> forall j: nat :: from <= j ==> !OccursAt(s, pat, j)
    decreases |s| - from
  {
    if OccursAt(s, pat, from) then Some(from)
    else if |s| <= from + |pat| then None
    else FindFrom(s, pat, from + 1)
  }

  /** Python's `sub in s`. */
  predicate Contains(s: string, sub: string)
    ensures Contains(s, sub) <==> exists i: nat :: OccursAt(s, sub, i)
  {
    FindFrom(s, sub, 0).Some?
  }

  /** Python's `s.replace(target, replacement, 1)`: only the leftmost occurrence is rewritten. */
  function ReplaceFirst(s: string, target: string, replacement: string): (r: string)
    ensures StartsWith(s, target) ==> r == replacement + s[|target|..]
    ensures (forall j: nat :: !OccursAt(s, target, j)) ==> r == s
    ensures FindFrom(s, target, 0).Some? ==>
      var i := FindFrom(s, target, 0).value;
      r == s[..i] + replacement + s[i + |target|..]
  {
    match FindFrom(s, target, 0)
    case None => s
    case Some(i) =>
      assert StartsWith(s, target) ==> OccursAt(s, target, 0);
      s[..i] + replacement + s[i + |target|..]
  }

  /** The `postgres://` fix applied to the configured URL. */
  function NormalizeUrl(url: string): (r: string)
    ensures StartsWith(url, LegacyScheme) ==> r == PostgresScheme + url[|LegacyScheme|..]
    ensures !StartsWith(url, LegacyScheme) ==> r == url
  {
    if StartsWith(url, LegacyScheme) then ReplaceFirst(url, LegacyScheme, PostgresScheme) else url
  }

  /** A normalised URL never starts with the legacy scheme, so normalising twice changes nothing. */
  lemma NormalizeIdempotent(url: string)
    ensures !StartsWith(NormalizeUrl(url), LegacyScheme)
    ensures NormalizeUrl(NormalizeUrl(url)) == NormalizeUrl(url)
  {
    var r := NormalizeUrl(url);
    if StartsWith(url, LegacyScheme) {
      assert r[8] == PostgresScheme[8] == 'q';
      assert LegacyScheme[8] == ':';
    }
  }

  /** The two `create_engine` configurations. */
  datatype EngineKind =
    | SqliteEngine    // connect_args check_same_thread=False
    | PostgresEngine  // pool_pre_ping=True

  datatype Engine = Engine(url: string, kind: EngineKind)

  /**
   * Module initialisation: read `DATABASE_URL` (`env`, None when unset),
   * rewrite the legacy scheme, then pick the engine by a substring test.
   */
  function ConfigureEngine(env: Option<string>): (e: Engine)
    ensures e.url == NormalizeUrl(env.GetOr(DefaultDatabaseUrl))
    ensures e.kind == SqliteEngine <==> exists i: nat :: OccursAt(e.url, SqliteMarker, i)
    ensures env.None? ==> e == Engine(DefaultDatabaseUrl, SqliteEngine)
  {
    var url := NormalizeUrl(env.GetOr(DefaultDatabaseUrl));
    assert DefaultDatabaseUrl[0] != LegacyScheme[0];
    assert DefaultDatabaseUrl[..6] == SqliteMarker;
    if Contains(url, SqliteMarker) then Engine(url, SqliteEngine) else Engine(url, PostgresEngine)
  }

  /**
   * The engine test is a substring test, not a scheme test: a PostgreSQL URL
   * naming a database "sqlite_archive" gets the SQLite engine.
   */
  lemma SqliteMarkerAnywhere()
    ensures ConfigureEngine(Some("postgres://db.example/sqlite_archive")).kind == SqliteEngine
  {
    var input := "postgres://db.example/sqlite_archive";
    assert input[..11] == LegacyScheme;
    var url := NormalizeUrl(input);
    assert url == PostgresScheme + input[11..];
    assert url[24..30] == input[22..28] == SqliteMarker;
    assert OccursAt(url, SqliteMarker, 24);
  }
}
