/** The connection settings chosen by backend/database.py: the URL taken from the
    environment (or the local SQLite default), the `postgres://` scheme rewrite, and the
    SQLite-only `connect_args`. */
module Database {
  import opened Text
  import opened Wrappers

  const DefaultUrl: string := "sqlite:///./sql_app.db"
  const LegacyScheme: string := "postgres://"
  const PostgresScheme: string := "postgresql://"

  /** The options handed to `create_engine`; the only one the source ever sets is
      `check_same_thread`. */
  type ConnectArgs = map<string, bool>

  /** `os.getenv("DATABASE_URL", default)`: `None` when the variable is unset. A variable
      set to the empty string is `Some("")` and is used as it is. */
  function RawUrl(env: Option<string>): (r: string)
    ensures env.None? ==> r == DefaultUrl
    ensures env.Some? ==> r == env.value
  {
    match env
    case None => DefaultUrl
    case Some(u) => u
  }

  /** The scheme rewrite: `url.replace("postgres://", "postgresql://", 1)` applied only when
      the URL starts with `postgres://`. */
  function NormalizeUrl(url: string): (r: string)
    ensures StartsWith(url, LegacyScheme) ==> r == PostgresScheme + url[|LegacyScheme|..]
    ensures !StartsWith(url, LegacyScheme) ==> r == url
    ensures !StartsWith(r, LegacyScheme)
  {
    if StartsWith(url, LegacyScheme) then
      PrefixIsFoundFirst(url, LegacyScheme);
      var r := ReplaceFirst(url, LegacyScheme, PostgresScheme);
      assert r[8] == 'q' != LegacyScheme[8];
      r
    else url
  }

  /** The URL the engine is created with. */
  function DatabaseUrl(env: Option<string>): (r: string)
    ensures env.None? ==> r == DefaultUrl
    ensures env.Some? && !StartsWith(env.value, LegacyScheme) ==> r == env.value
    ensures env.Some? && StartsWith(env.value, LegacyScheme) ==>
      r == PostgresScheme + env.value[|LegacyScheme|..]
  {
    assert DefaultUrl[0] != LegacyScheme[0];
    NormalizeUrl(RawUrl(env))
  }

  /** `{"check_same_thread": False} if "sqlite" in url else {}`. */
  function ConnectArgsFor(url: string): (r: ConnectArgs)
    ensures Contains(url, "sqlite") ==> r == map["check_same_thread" := false]
    ensures !Contains(url, "sqlite") ==> r == map[]
  {
    if Contains(url, "sqlite") then map["check_same_thread" := false] else map[]
  }

  /** Rewriting an already rewritten URL changes nothing, because `postgresql://` does
      not start with `postgres://`. */
  lemma NormalizeIdempotent(url: string)
    ensures NormalizeUrl(NormalizeUrl(url)) == NormalizeUrl(url)
  {
  }

  /** Only a `postgres://` URL is changed, and it becomes a `postgresql://` URL. */
  lemma NormalizeChangesOnlyLegacy(url: string)
    ensures StartsWith(url, LegacyScheme) <==>
      (NormalizeUrl(url) != url && StartsWith(NormalizeUrl(url), PostgresScheme))
  {
    if StartsWith(url, LegacyScheme) {
      var r := NormalizeUrl(url);
      assert r[8] == 'q' && url[8] == ':';
    }
  }

  /** With `DATABASE_URL` unset the engine uses the SQLite default and gets the SQLite
      `connect_args`. */
  lemma DefaultIsSqlite()
    ensures DatabaseUrl(None) == "sqlite:///./sql_app.db"
    ensures ConnectArgsFor(DatabaseUrl(None)) == map["check_same_thread" := false]
  {
    assert OccursAt(DefaultUrl, "sqlite", 0);
  }
}
