/** The pure parts of `DbUtilities`: database vendors and their names, JDBC
    URLs, SQL quoting, column type names per vendor, vendor detection from
    a product name, and the rewrite of table name patterns into `LIKE`
    conditions. The JDBC work around them is not part of this model. */
module DbUtilities {
  import opened Wrappers
  import opened Text
  import opened DbColumnType

  datatype DbVendor = Oracle | MySQL | PostgreSQL | Firebird | SQLite | Derby | HSQL

  function DriverClassName(v: DbVendor): string
  {
    match v
    case Oracle => "oracle.jdbc.OracleDriver"
    case MySQL => "com.mysql.jdbc.Driver"
    case PostgreSQL => "org.postgresql.Driver"
    case Firebird => "org.firebirdsql.jdbc.FBDriver"
    case SQLite => "org.sqlite.JDBC"
    case Derby => "org.apache.derby.jdbc.EmbeddedDriver"
    case HSQL => "org.hsqldb.jdbc.JDBCDriver"
  }

  /** The server vendors have their usual port; the embedded ones have 0. */
  function DefaultPort(v: DbVendor): (r: nat)
    ensures r > 0 <==> v in {Oracle, MySQL, PostgreSQL, Firebird}
  {
    match v
    case Oracle => 1521
    case MySQL => 3306
    case PostgreSQL => 5432
    case Firebird => 3050
    case SQLite => 0
    case Derby => 0
    case HSQL => 0
  }

  // ---------------------------------------------------------------------
  // getDbVendorByName
  // ---------------------------------------------------------------------

  /** The names `getDbVendorByName` accepts for each vendor, in lower case. */
  function VendorNames(v: DbVendor): seq<string>
  {
    match v
    case Oracle => ["oracle"]
    case MySQL => ["mysql"]
    case PostgreSQL => ["postgres", "postgresql"]
    case SQLite => ["sqlite"]
    case Derby => ["derby"]
    case HSQL => ["hsql", "hypersql"]
    case Firebird => ["firebird"]
  }

  /** `DbVendor.getDbVendorByName`; `None` is a `null` name. */
  function GetDbVendorByName(dbVendorName: Option<string>): Result<DbVendor, string>
  {
    match dbVendorName
    case None => Failure("Unknown db vendor: null")
    case Some(n) =>
      if EqualsIgnoreCase("oracle", n) then Success(Oracle)
      else if EqualsIgnoreCase("mysql", n) then Success(MySQL)
      else if EqualsIgnoreCase("postgres", n) || EqualsIgnoreCase("postgresql", n) then Success(PostgreSQL)
      else if EqualsIgnoreCase("sqlite", n) then Success(SQLite)
      else if EqualsIgnoreCase("derby", n) then Success(Derby)
      else if EqualsIgnoreCase("hsql", n) || EqualsIgnoreCase("hypersql", n) then Success(HSQL)
      else if EqualsIgnoreCase("firebird", n) then Success(Firebird)
      else Failure("Unknown db vendor: " + n)
  }

  lemma {:induction false} EqualsIgnoreCaseAsLower(a: string, b: string)
    requires forall i :: 0 <= i < |a| ==> 'a' <= a[i] <= 'z' || a[i] == '_'
    ensures EqualsIgnoreCase(a, b) <==> ToLower(b) == a
    decreases |a|
  {
    if |a| == |b| && a != [] {
      EqualsIgnoreCaseAsLower(a[1..], b[1..]);
      assert EqualsIgnoreCase(a, b) <==> ToUpperChar(a[0]) == ToUpperChar(b[0]) && EqualsIgnoreCase(a[1..], b[1..]);
      assert ToLower(b) == a <==> ToLowerChar(b[0]) == a[0] && ToLower(b[1..]) == a[1..];
    }
  }

  /** The names compared, each in lower case. */
  lemma ServerNameComparisons(n: string)
    ensures EqualsIgnoreCase("oracle", n) <==> ToLower(n) == "oracle"
    ensures EqualsIgnoreCase("mysql", n) <==> ToLower(n) == "mysql"
    ensures EqualsIgnoreCase("postgres", n) <==> ToLower(n) == "postgres"
    ensures EqualsIgnoreCase("postgresql", n) <==> ToLower(n) == "postgresql"
  {
    EqualsIgnoreCaseAsLower("oracle", n);
    EqualsIgnoreCaseAsLower("mysql", n);
    EqualsIgnoreCaseAsLower("postgres", n);
    EqualsIgnoreCaseAsLower("postgresql", n);
  }

  lemma EmbeddedNameComparisons(n: string)
    ensures EqualsIgnoreCase("sqlite", n) <==> ToLower(n) == "sqlite"
    ensures EqualsIgnoreCase("derby", n) <==> ToLower(n) == "derby"
    ensures EqualsIgnoreCase("hsql", n) <==> ToLower(n) == "hsql"
  {
    EqualsIgnoreCaseAsLower("sqlite", n);
    EqualsIgnoreCaseAsLower("derby", n);
    EqualsIgnoreCaseAsLower("hsql", n);
  }

  lemma OtherNameComparisons(n: string)
    ensures EqualsIgnoreCase("hypersql", n) <==> ToLower(n) == "hypersql"
    ensures EqualsIgnoreCase("firebird", n) <==> ToLower(n) == "firebird"
  {
    EqualsIgnoreCaseAsLower("hypersql", n);
    EqualsIgnoreCaseAsLower("firebird", n);
  }

  /** The vendor of a lower-case name, by plain comparison. */
  function VendorOfLowerName(l: string): Option<DbVendor>
  {
    if l == "oracle" then Some(Oracle)
    else if l == "mysql" then Some(MySQL)
    else if l == "postgres" || l == "postgresql" then Some(PostgreSQL)
    else if l == "sqlite" then Some(SQLite)
    else if l == "derby" then Some(Derby)
    else if l == "hsql" || l == "hypersql" then Some(HSQL)
    else if l == "firebird" then Some(Firebird)
    else None
  }

  lemma VendorOfLowerNameMeans(l: string, v: DbVendor)
    ensures VendorOfLowerName(l) == Some(v) <==> l in VendorNames(v)
  {
  }

  /** A name is accepted exactly when its lower-case form is one of the
      vendor's names, in any case. */
  lemma VendorByNameMeans(n: string, v: DbVendor)
    ensures GetDbVendorByName(Some(n)) == Success(v) <==> ToLower(n) in VendorNames(v)
  {
    ServerNameComparisons(n);
    EmbeddedNameComparisons(n);
    OtherNameComparisons(n);
    assert GetDbVendorByName(Some(n)).Success? <==> VendorOfLowerName(ToLower(n)).Some?;
    assert GetDbVendorByName(Some(n)).Success? ==> GetDbVendorByName(Some(n)).value == VendorOfLowerName(ToLower(n)).value;
    VendorOfLowerNameMeans(ToLower(n), v);
  }

  /** Every other name, and `null`, fails. */
  lemma UnknownVendorFails(n: Option<string>)
    requires n.Some? ==> forall v: DbVendor :: ToLower(n.value) !in VendorNames(v)
    ensures GetDbVendorByName(n).Failure?
  {
    if n.Some? && GetDbVendorByName(n).Success? {
      VendorByNameMeans(n.value, GetDbVendorByName(n).value);
    }
  }

  // ---------------------------------------------------------------------
  // generateUrlConnectionString
  // ---------------------------------------------------------------------

  /** A port of 0 or less stands for the vendor's default port. */
  function EffectivePort(v: DbVendor, port: int): int
  {
    if port <= 0 then DefaultPort(v) else port
  }

  /** The HSQL host with `http://` added unless it names a scheme starting
      with `http`. */
  function HsqlHost(host: string): string
  {
    if StartsWith(ToLower(host), "http") then host else "http://" + host
  }

  /** The HSQL port, dropped for the default port of `http` or `https`. */
  function HsqlPort(host: string, port: int): int
  {
    if StartsWith(ToLower(host), "https://") && port == 443 then -1
    else if StartsWith(ToLower(host), "http://") && port == 80 then -1
    else port
  }

  /** `generateUrlConnectionString`; `userHome` is the value of the
      `user.home` system property, which replaces each `~` in a file name. */
  function GenerateUrlConnectionString(dbVendor: Option<DbVendor>, host: string, port: int, dbName: string,
    userHome: string): Result<string, string>
  {
    match dbVendor
    case None => Failure("Unknown db vendor")
    case Some(Oracle) =>
      var p := IntToString(EffectivePort(Oracle, port));
      if StartsWith(dbName, "/") then Success("jdbc:oracle:thin:@" + host + ":" + p + dbName)
      else Success("jdbc:oracle:thin:@" + host + ":" + p + ":" + dbName)
    case Some(MySQL) =>
      Success("jdbc:mysql://" + host + ":" + IntToString(EffectivePort(MySQL, port)) + "/" + dbName
        + "?useEncoding=true&characterEncoding=UTF-8&zeroDateTimeBehavior=convertToNull")
    case Some(PostgreSQL) =>
      Success("jdbc:postgresql://" + host + ":" + IntToString(EffectivePort(PostgreSQL, port)) + "/" + dbName)
    case Some(SQLite) => Success("jdbc:sqlite:" + Replace(dbName, "~", userHome))
    case Some(Derby) => Success("jdbc:derby:" + Replace(dbName, "~", userHome))
    case Some(Firebird) =>
      Success("jdbc:firebirdsql:" + host + "/" + IntToString(EffectivePort(Firebird, port)) + ":"
        + Replace(dbName, "~", userHome))
    case Some(HSQL) => Success(HsqlUrl(host, port, Replace(dbName, "~", userHome)))
  }

  /** The HSQL branch, on the file name with `~` already replaced. */
  function HsqlUrl(host: string, port: int, name: string): string
  {
    if StartsWith(name, "/") then "jdbc:hsqldb:file:" + name + ";shutdown=true"
    else if !IsBlank(host) then
      var h := HsqlHost(host);
      HsqlServerUrl(h, HsqlPort(h, port), name)
    else "jdbc:hsqldb:mem:" + name
  }

  /** A server URL, with the port only when it is positive. */
  function HsqlServerUrl(h: string, p: int, name: string): (r: string)
    ensures p <= 0 ==> r == "jdbc:hsqldb:" + h + "/" + name
  {
    var r := "jdbc:hsqldb:" + h + (if p <= 0 then "" else ":" + IntToString(p)) + "/" + name;
    assert p <= 0 ==> "jdbc:hsqldb:" + h + "" == "jdbc:hsqldb:" + h;
    r
  }

  lemma PrefixOfPrefix(s: string, longer: string, shorter: string)
    requires StartsWith(s, longer) && StartsWith(longer, shorter)
    ensures StartsWith(s, shorter)
  {
    assert s[..|shorter|] == s[..|longer|][..|shorter|];
  }

  /** Only a missing vendor fails. */
  lemma UrlFailsOnlyWithoutVendor(v: Option<DbVendor>, host: string, port: int, dbName: string, userHome: string)
    ensures GenerateUrlConnectionString(v, host, port, dbName, userHome).Failure? <==> v.None?
  {
  }

  /** For the server vendors a port of 0 or less gives the URL of the
      default port. */
  lemma DefaultPortSubstituted(v: DbVendor, host: string, port: int, dbName: string, userHome: string)
    requires v in {Oracle, MySQL, PostgreSQL, Firebird} && port <= 0
    ensures GenerateUrlConnectionString(Some(v), host, port, dbName, userHome)
         == GenerateUrlConnectionString(Some(v), host, DefaultPort(v), dbName, userHome)
  {
  }

  /** An Oracle database name starting with `/` is a service name and
      follows the port directly; any other is a SID after a colon. */
  lemma OracleServiceName(host: string, port: int, dbName: string, userHome: string)
    ensures var p := IntToString(EffectivePort(Oracle, port));
      GenerateUrlConnectionString(Some(Oracle), host, port, dbName, userHome).value
      == "jdbc:oracle:thin:@" + host + ":" + p + (if StartsWith(dbName, "/") then "" else ":") + dbName
  {
  }

  /** HSQL: a file name starting with `/`, after `~` is replaced, gives a
      file URL that shuts the database down with the last connection. */
  lemma HsqlFileUrl(host: string, port: int, dbName: string, userHome: string)
    requires StartsWith(Replace(dbName, "~", userHome), "/")
    ensures var r := GenerateUrlConnectionString(Some(HSQL), host, port, dbName, userHome).value;
      StartsWith(r, "jdbc:hsqldb:file:/") && EndsWith(r, ";shutdown=true")
  {
    var name := Replace(dbName, "~", userHome);
    var r := "jdbc:hsqldb:file:" + name + ";shutdown=true";
    assert r[..18] == "jdbc:hsqldb:file:" + name[..1];
    assert r[|r| - 14..] == ";shutdown=true";
  }

  /** HSQL: with a blank host the database lives in memory. */
  lemma HsqlMemoryUrl(host: string, port: int, dbName: string, userHome: string)
    requires !StartsWith(Replace(dbName, "~", userHome), "/") && IsBlank(host)
    ensures GenerateUrlConnectionString(Some(HSQL), host, port, dbName, userHome)
         == Success("jdbc:hsqldb:mem:" + Replace(dbName, "~", userHome))
  {
  }

  /** HSQL over the network: the default port of the scheme is left out
      like a port of 0 or less. */
  lemma HsqlDefaultPortOmitted(host: string, port: int, dbName: string, userHome: string)
    requires !StartsWith(Replace(dbName, "~", userHome), "/") && !IsBlank(host)
    requires (StartsWith(ToLower(host), "https://") && port == 443) || (StartsWith(ToLower(host), "http://") && port == 80)
    ensures GenerateUrlConnectionString(Some(HSQL), host, port, dbName, userHome)
         == GenerateUrlConnectionString(Some(HSQL), host, 0, dbName, userHome)
  {
    var l := ToLower(host);
    if StartsWith(l, "https://") {
      PrefixOfPrefix(l, "https://", "http");
    } else {
      PrefixOfPrefix(l, "http://", "http");
    }
    assert HsqlHost(host) == host;
    assert HsqlPort(host, port) == -1 && HsqlPort(host, 0) == 0;
  }

  /** HSQL over the network: a host without a scheme gets `http://`. */
  lemma HsqlHostGetsScheme(host: string, port: int, dbName: string, userHome: string)
    requires !StartsWith(Replace(dbName, "~", userHome), "/") && !IsBlank(host)
    requires !StartsWith(ToLower(host), "http") && port <= 0
    ensures GenerateUrlConnectionString(Some(HSQL), host, port, dbName, userHome)
         == Success("jdbc:hsqldb:" + "http://" + host + "/" + Replace(dbName, "~", userHome))
  {
    HsqlUrlWithScheme(host, port, Replace(dbName, "~", userHome));
  }

  lemma HsqlPortKeptOrDropped(h: string, port: int)
    ensures HsqlPort(h, port) == port || HsqlPort(h, port) == -1
  {
  }

  lemma HsqlUrlWithScheme(host: string, port: int, name: string)
    requires !StartsWith(name, "/") && !IsBlank(host)
    requires !StartsWith(ToLower(host), "http") && port <= 0
    ensures HsqlUrl(host, port, name) == "jdbc:hsqldb:" + "http://" + host + "/" + name
  {
    var h := "http://" + host;
    assert HsqlHost(host) == h;
    HsqlPortKeptOrDropped(h, port);
    assert HsqlUrl(host, port, name) == HsqlServerUrl(h, HsqlPort(h, port), name);
    AppendAssociative("jdbc:hsqldb:", "http://", host);
  }

  lemma AppendAssociative(a: string, b: string, c: string)
    ensures a + (b + c) == a + b + c
  {
  }

  // ---------------------------------------------------------------------
  // getSQLSafeString
  // ---------------------------------------------------------------------

  /** `getSQLSafeString`: every apostrophe doubled; `null` stays `null`. */
  function GetSqlSafeString(value: Option<string>): Option<string>
  {
    match value
    case None => None
    case Some(v) => Some(Replace(v, "'", "''"))
  }

  /** Read an SQL string literal's body back: a doubled apostrophe is one
      apostrophe, and a single one would end the literal. */
  function Unquote(s: string): Option<string>
  {
    if s == [] then Some("")
    else if s[0] == '\'' then
      if |s| >= 2 && s[1] == '\'' then
        match Unquote(s[2..])
        case None => None
        case Some(rest) => Some("'" + rest)
      else None
    else
      match Unquote(s[1..])
      case None => None
      case Some(rest) => Some([s[0]] + rest)
  }

  lemma {:induction false} UnquoteDoubled(s: string)
    ensures Unquote(MapChar(s, '\'', "''")) == Some(s)
    decreases |s|
  {
    if s != [] {
      UnquoteDoubled(s[1..]);
      var d := MapChar(s[1..], '\'', "''");
      if s[0] == '\'' {
        var m := "''" + d;
        assert MapChar(s, '\'', "''") == m;
        assert m[0] == '\'' && m[1] == '\'' && m[2..] == d;
        assert "'" + s[1..] == s;
      } else {
        var m := [s[0]] + d;
        assert MapChar(s, '\'', "''") == m;
        assert m[0] == s[0] && m[1..] == d;
        assert [s[0]] + s[1..] == s;
      }
    }
  }

  /** The quoted text is a well-formed literal body that reads back as the
      original: no apostrophe in it can end the literal early. */
  lemma SqlSafeStringRoundTrip(value: string)
    ensures Unquote(GetSqlSafeString(Some(value)).value) == Some(value)
  {
    ReplaceSingleChar(value, '\'', "''");
    UnquoteDoubled(value);
  }

  // ---------------------------------------------------------------------
  // getDataType
  // ---------------------------------------------------------------------

  /** `getDataType`: the column type each vendor uses for a type class;
      Firebird and a missing vendor fail. */
  function GetDataType(dbVendor: Option<DbVendor>, t: SimpleDataType): (r: Result<string, string>)
    ensures r.Success? <==> dbVendor.Some? && dbVendor.value != Firebird
    ensures r.Success? && dbVendor.value in {Oracle, HSQL, SQLite, Derby} && t == Blob ==> r.value == "BLOB"
    ensures r.Success? && t == Date ==> StartsWith(r.value, "TIMESTAMP")
  {
    match dbVendor
    case Some(Oracle) =>
      Success(match t
        case Blob => "BLOB" case Clob => "CLOB" case Date => "TIMESTAMP"
        case Integer => "NUMBER" case Double => "NUMBER" case String => "VARCHAR2")
    case Some(MySQL) =>
      Success(match t
        case Blob => "LONGBLOB" case Clob => "LONGTEXT" case Date => "TIMESTAMP NULL"
        case Integer => "INT" case Double => "DOUBLE" case String => "VARCHAR")
    case Some(HSQL) =>
      Success(match t
        case Blob => "BLOB" case Clob => "CLOB" case Date => "TIMESTAMP"
        case Integer => "INTEGER" case Double => "DOUBLE" case String => "VARCHAR")
    case Some(PostgreSQL) =>
      Success(match t
        case Blob => "BYTEA" case Clob => "TEXT" case Date => "TIMESTAMP"
        case Integer => "INTEGER" case Double => "REAL" case String => "VARCHAR")
    case Some(SQLite) =>
      Success(match t
        case Blob => "BLOB" case Clob => "CLOB" case Date => "TIMESTAMP"
        case Integer => "INTEGER" case Double => "DOUBLE" case String => "VARCHAR")
    case Some(Derby) =>
      Success(match t
        case Blob => "BLOB" case Clob => "CLOB" case Date => "TIMESTAMP"
        case Integer => "INTEGER" case Double => "DOUBLE" case String => "VARCHAR")
    case Some(Firebird) => Failure("Cannot get datatype: Firebird")
    case None => Failure("Cannot get datatype: null")
  }

  // ---------------------------------------------------------------------
  // getDbVendor
  // ---------------------------------------------------------------------

  /** The product-name parts `getDbVendor` looks for, in its order. */
  const ProductKeys: seq<(string, DbVendor)> :=
    [("oracle", Oracle), ("mysql", MySQL), ("postgres", PostgreSQL), ("sqlite", SQLite),
     ("derby", Derby), ("hsql", HSQL), ("firebird", Firebird)]

  /** Vendor detection in `getDbVendor`: `None` is missing metadata, and
      `Some(None)` a missing product name. */
  function GetDbVendor(metaData: Option<Option<string>>): Result<DbVendor, string>
  {
    match metaData
    case None => Failure("Undetectable db vendor")
    case Some(None) => Failure("Unknown db vendor: null")
    case Some(Some(p)) =>
      var n := ToLower(p);
      if Contains(n, "oracle") then Success(Oracle)
      else if Contains(n, "mysql") then Success(MySQL)
      else if Contains(n, "postgres") then Success(PostgreSQL)
      else if Contains(n, "sqlite") then Success(SQLite)
      else if Contains(n, "derby") then Success(Derby)
      else if Contains(n, "hsql") then Success(HSQL)
      else if Contains(n, "firebird") then Success(Firebird)
      else Failure("Unknown db vendor: " + p)
  }

  /** The vendor of the first key in the lower-case product name. */
  function FirstKeyIn(n: string, keys: seq<(string, DbVendor)>): Option<DbVendor>
  {
    if keys == [] then None else if Contains(n, keys[0].0) then Some(keys[0].1) else FirstKeyIn(n, keys[1..])
  }

  /** Key `k` occurs in `n` and no earlier key does. */
  predicate FirstKeyAt(n: string, keys: seq<(string, DbVendor)>, k: int)
  {
    0 <= k < |keys| && Contains(n, keys[k].0) && forall j :: 0 <= j < k ==> !Contains(n, keys[j].0)
  }

  lemma {:induction false} FirstKeyInMeans(n: string, keys: seq<(string, DbVendor)>)
    ensures FirstKeyIn(n, keys).None? <==> forall k :: 0 <= k < |keys| ==> !Contains(n, keys[k].0)
    ensures FirstKeyIn(n, keys).Some? ==> exists k :: FirstKeyAt(n, keys, k) && keys[k].1 == FirstKeyIn(n, keys).value
    decreases |keys|
  {
    if keys != [] {
      FirstKeyInMeans(n, keys[1..]);
      if !Contains(n, keys[0].0) {
        assert forall k :: 1 <= k < |keys| ==> keys[k] == keys[1..][k - 1];
        if FirstKeyIn(n, keys[1..]).Some? {
          var k :| FirstKeyAt(n, keys[1..], k) && keys[1..][k].1 == FirstKeyIn(n, keys).value;
          assert FirstKeyAt(n, keys, k + 1);
        }
      } else {
        assert FirstKeyAt(n, keys, 0);
      }
    }
  }

  /** The product name is classified by the first part of the list it
      contains, in lower case, and fails when it contains none. */
  lemma ProductNameClassified(p: string)
    ensures GetDbVendor(Some(Some(p))).Success? <==> FirstKeyIn(ToLower(p), ProductKeys).Some?
    ensures GetDbVendor(Some(Some(p))).Success? ==> GetDbVendor(Some(Some(p))).value == FirstKeyIn(ToLower(p), ProductKeys).value
  {
    var n := ToLower(p);
    var keys := ProductKeys;
    assert FirstKeyIn(n, keys) == (if Contains(n, "oracle") then Some(Oracle) else FirstKeyIn(n, keys[1..]));
    assert FirstKeyIn(n, keys[1..]) == (if Contains(n, "mysql") then Some(MySQL) else FirstKeyIn(n, keys[2..]));
    assert FirstKeyIn(n, keys[2..]) == (if Contains(n, "postgres") then Some(PostgreSQL) else FirstKeyIn(n, keys[3..]));
    assert FirstKeyIn(n, keys[3..]) == (if Contains(n, "sqlite") then Some(SQLite) else FirstKeyIn(n, keys[4..]));
    assert FirstKeyIn(n, keys[4..]) == (if Contains(n, "derby") then Some(Derby) else FirstKeyIn(n, keys[5..]));
    assert FirstKeyIn(n, keys[5..]) == (if Contains(n, "hsql") then Some(HSQL) else FirstKeyIn(n, keys[6..]));
    assert FirstKeyIn(n, keys[6..]) == (if Contains(n, "firebird") then Some(Firebird) else FirstKeyIn(n, keys[7..]));
  }

  /** A detected vendor's key occurs in the product name, and no key
      earlier in the list does. */
  lemma DetectedKeyOccurs(p: string)
    requires GetDbVendor(Some(Some(p))).Success?
    ensures exists k :: FirstKeyAt(ToLower(p), ProductKeys, k) && ProductKeys[k].1 == GetDbVendor(Some(Some(p))).value
  {
    ProductNameClassified(p);
    FirstKeyInMeans(ToLower(p), ProductKeys);
  }

  // ---------------------------------------------------------------------
  // The table patterns of getAvailableTables
  // ---------------------------------------------------------------------

  /** The rewrite of one pattern, in order: `%` and `_` escaped with a
      backslash, then `*` to `%` and `?` to `_`. */
  const LikeReplacements: seq<(char, string)> := [('%', "\\%"), ('_', "\\_"), ('*', "%"), ('?', "_")]

  /** A table name pattern as a `LIKE` pattern with escape character `\`,
      after trimming and upper-casing. */
  function LikePattern(pattern: string): string
  {
    ReplaceAll(ToUpper(Trim(pattern)), LikeReplacements)
  }

  /** One pattern's condition: a leading `!` negates it. */
  function PatternCondition(pattern: string): string
  {
    var q := LikePattern(pattern);
    if StartsWith(q, "!") then " AND table_name NOT LIKE '" + q[1..] + "' ESCAPE '\\'"
    else " AND table_name LIKE '" + q + "' ESCAPE '\\'"
  }

  predicate IsPatternSeparator(c: char)
  {
    c == ',' || c == ' ' || c == ';' || c == '|' || c == '\n'
  }

  /** The separator characters of `s`, in order. */
  function SeparatorsOf(s: string): seq<char>
  {
    if s == [] then [] else (if IsPatternSeparator(s[0]) then [s[0]] else []) + SeparatorsOf(s[1..])
  }

  /** The parts with the separators between them. */
  function JoinParts(parts: seq<string>, seps: seq<char>): string
    requires |parts| == |seps| + 1
  {
    if seps == [] then parts[0] else parts[0] + [seps[0]] + JoinParts(parts[1..], seps[1..])
  }

  /** A character put before the first part goes before the whole text. */
  lemma JoinPartsPrepend(c: char, parts: seq<string>, seps: seq<char>)
    requires |parts| == |seps| + 1
    ensures JoinParts([[c] + parts[0]] + parts[1..], seps) == [c] + JoinParts(parts, seps)
  {
    var q := [[c] + parts[0]] + parts[1..];
    assert q[1..] == parts[1..];
    if seps != [] {
      assert [c] + parts[0] + [seps[0]] + JoinParts(parts[1..], seps[1..])
          == [c] + (parts[0] + [seps[0]] + JoinParts(parts[1..], seps[1..]));
    }
  }

  /** The parts between separators; empty parts are kept, and dropped later
      as blank. There is one part more than there are separators, and the
      parts joined with the separators give the text back. */
  function SplitPatterns(s: string): (r: seq<string>)
    ensures |r| == |SeparatorsOf(s)| + 1
    ensures JoinParts(r, SeparatorsOf(s)) == s
    ensures forall k :: 0 <= k < |r| ==> forall i :: 0 <= i < |r[k]| ==> !IsPatternSeparator(r[k][i])
  {
    if s == [] then [""]
    else
      var rest := SplitPatterns(s[1..]);
      if IsPatternSeparator(s[0]) then
        assert ([""] + rest)[1..] == rest;
        [""] + rest
      else
        assert SeparatorsOf(s) == SeparatorsOf(s[1..]);
        JoinPartsPrepend(s[0], rest, SeparatorsOf(s[1..]));
        assert [s[0]] + s[1..] == s;
        [[s[0]] + rest[0]] + rest[1..]
  }

  /** A blank part adds no condition. */
  function PartCondition(part: string): string
  {
    if IsBlank(part) then "" else PatternCondition(part)
  }

  /** The texts of all parts, in order. */
  function ConcatMap(parts: seq<string>, f: string -> string): string
  {
    if parts == [] then "" else f(parts[0]) + ConcatMap(parts[1..], f)
  }

  /** The conditions of all non-blank patterns, in order. */
  function Conditions(patterns: seq<string>): string
  {
    ConcatMap(patterns, PartCondition)
  }

  const OracleTableBaseQuery: string :=
    "SELECT DISTINCT table_name FROM all_tables WHERE owner NOT IN ('CTXSYS', 'DBSNMP', 'MDDATA', 'MDSYS', 'DMSYS', 'OLAPSYS', 'ORDPLUGINS', 'OUTLN', 'SI_INFORMATN_SCHEMA', 'SYS', 'SYSMAN', 'SYSTEM')"

  lemma {:induction false} ConcatMapAppend(parts: seq<string>, p: string, f: string -> string)
    ensures ConcatMap(parts + [p], f) == ConcatMap(parts, f) + f(p)
    decreases |parts|
  {
    if parts != [] {
      assert (parts + [p])[0] == parts[0];
      assert (parts + [p])[1..] == parts[1..] + [p];
      ConcatMapAppend(parts[1..], p, f);
    } else {
      assert [] + [p] == [p];
    }
  }

  lemma ConcatMapStep(parts: seq<string>, k: nat, f: string -> string)
    requires k < |parts|
    ensures ConcatMap(parts[..k + 1], f) == ConcatMap(parts[..k], f) + f(parts[k])
  {
    assert parts[..k + 1] == parts[..k] + [parts[k]];
    ConcatMapAppend(parts[..k], parts[k], f);
  }

  /** The Oracle table query of `getAvailableTables`: the base query,
      then the conditions collected one pattern at a time, then the order. */
  method OracleTableQuery(tablePatternExpression: string) returns (tableQuery: string)
    ensures tableQuery == OracleTableBaseQuery + Conditions(SplitPatterns(tablePatternExpression)) + " ORDER BY table_name"
  {
    var patterns := SplitPatterns(tablePatternExpression);
    var conditions := "";
    for k := 0 to |patterns|
      invariant conditions == Conditions(patterns[..k])
    {
      ConcatMapStep(patterns, k, PartCondition);
      if !IsBlank(patterns[k]) {
        conditions := conditions + PatternCondition(patterns[k]);
      } else {
        assert PartCondition(patterns[k]) == "";
      }
    }
    assert patterns[..|patterns|] == patterns;
    tableQuery := OracleTableBaseQuery + conditions + " ORDER BY table_name";
  }

  /** Shell-style matching: `*` any run, `?` any one character. */
  predicate Glob(p: string, u: string)
    decreases |p| + |u|
  {
    if p == [] then u == []
    else if p[0] == '*' then Glob(p[1..], u) || (u != [] && Glob(p, u[1..]))
    else u != [] && (p[0] == '?' || u[0] == p[0]) && Glob(p[1..], u[1..])
  }

  /** SQL `LIKE` with escape character `\`: `%` any run, `_` any one
      character, and an escaped character stands for itself. */
  predicate Like(q: string, u: string)
    decreases |q| + |u|
  {
    if q == [] then u == []
    else if q[0] == '\\' && |q| >= 2 then u != [] && u[0] == q[1] && Like(q[2..], u[1..])
    else if q[0] == '%' then Like(q[1..], u) || (u != [] && Like(q, u[1..]))
    else u != [] && (q[0] == '_' || u[0] == q[0]) && Like(q[1..], u[1..])
  }

  lemma LikeReplacementsNoRescan()
    ensures NoRescan(LikeReplacements)
  {
    var r := LikeReplacements;
    assert r[0] == ('%', "\\%") && r[1] == ('_', "\\_") && r[2] == ('*', "%") && r[3] == ('?', "_");
  }

  /** What the rewrite makes of each character. */
  lemma LikeLookup(c: char)
    ensures Lookup(c, LikeReplacements) == match c
      case '%' => "\\%" case '_' => "\\_" case '*' => "%" case '?' => "_" case _ => [c]
  {
    var r := LikeReplacements;
    assert r[0] == ('%', "\\%") && r[1] == ('_', "\\_") && r[2] == ('*', "%") && r[3] == ('?', "_");
    if c == '%' {
      LookupFirst(c, r, 0);
    } else if c == '_' {
      LookupFirst(c, r, 1);
    } else if c == '*' {
      LookupFirst(c, r, 2);
    } else if c == '?' {
      LookupFirst(c, r, 3);
    } else {
      LookupAbsent(c, r);
    }
  }

  /** Escaping before translating keeps the literal `%` and `_` of a
      pattern literal: a `LIKE` on the rewritten pattern matches exactly
      the names the pattern matches as a shell pattern. Backslashes are not
      escaped by the rewrite, so the pattern must not contain one. */
  lemma {:induction false} GlobAsLike(p: string, u: string)
    requires '\\' !in p
    ensures Glob(p, u) <==> Like(EachChar(p, LikeReplacements), u)
    decreases |p| + |u|
  {
    if p != [] {
      var q := EachChar(p, LikeReplacements);
      var rest := EachChar(p[1..], LikeReplacements);
      assert q == Lookup(p[0], LikeReplacements) + rest;
      LikeLookup(p[0]);
      assert '\\' !in p[1..] by {
        forall i | 0 <= i < |p[1..]| ensures p[1..][i] != '\\' { assert p[1..][i] == p[i + 1]; }
      }
      GlobAsLike(p[1..], u);
      if u != [] {
        GlobAsLike(p[1..], u[1..]);
      }
      if p[0] == '*' {
        assert q == "%" + rest;
        assert q[0] == '%' && q[1..] == rest;
        if u != [] {
          GlobAsLike(p, u[1..]);
        }
      } else if p[0] == '?' {
        assert q == "_" + rest;
        assert q[0] == '_' && q[1..] == rest;
      } else if p[0] == '%' || p[0] == '_' {
        assert q == ['\\', p[0]] + rest;
        assert q[0] == '\\' && q[1] == p[0] && q[2..] == rest;
      } else {
        assert q == [p[0]] + rest;
        assert q[0] == p[0] && q[1..] == rest;
      }
    }
  }

  /** The rewrite of the trimmed, upper-case pattern as a `LIKE` pattern
      matches what that text matches as a shell pattern. */
  lemma LikePatternMatchesGlob(pattern: string, u: string)
    requires '\\' !in ToUpper(Trim(pattern))
    ensures Like(LikePattern(pattern), u) <==> Glob(ToUpper(Trim(pattern)), u)
  {
    LikeReplacementsNoRescan();
    ReplaceAllCharwise(ToUpper(Trim(pattern)), LikeReplacements);
    GlobAsLike(ToUpper(Trim(pattern)), u);
  }

  /** A leading `!` negates the condition of the rest of the pattern. */
  lemma NegatedPattern(pattern: string)
    requires StartsWith(ToUpper(Trim(pattern)), "!")
    ensures PatternCondition(pattern)
         == " AND table_name NOT LIKE '" + EachChar(ToUpper(Trim(pattern))[1..], LikeReplacements) + "' ESCAPE '\\'"
  {
    var t := ToUpper(Trim(pattern));
    LikeReplacementsNoRescan();
    ReplaceAllCharwise(t, LikeReplacements);
    assert t == [t[0]] + t[1..];
    assert EachChar(t, LikeReplacements) == Lookup('!', LikeReplacements) + EachChar(t[1..], LikeReplacements);
    LikeLookup('!');
  }
}
