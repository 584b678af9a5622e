/** The server's database connection string, built from the five `DB_*` environment variables.
    The environment is the five parameters (`None` for an unset variable); the console lines
    are returned rather than printed. */
module ConnectionStringBuilder {
  import opened Wrappers
  import opened Text

  /** What the builder throws: an `InvalidOperationException` with this message. */
  const MissingMessage: string := "One or more database connection parameters are missing!"

  /** The connection string: an error when any of the five values is unset or empty, otherwise
      `Host=…;Port=…;Database=…;Username=…;Password=…;SSL Mode=Require;Trust Server
      Certificate=true;` with the values inserted verbatim (see `BuildRoundTrip`). */
  function Build(host: Option<string>, port: Option<string>, database: Option<string>,
                 username: Option<string>, password: Option<string>): (r: Result<string, string>)
    ensures r.Err? <==>
      NullOrEmpty(host) || NullOrEmpty(port) || NullOrEmpty(database) || NullOrEmpty(username) || NullOrEmpty(password)
    ensures r.Err? ==> r.error == MissingMessage
  {
    if NullOrEmpty(host) || NullOrEmpty(port) || NullOrEmpty(database) || NullOrEmpty(username) || NullOrEmpty(password)
    then Err(MissingMessage)
    else
      Ok(Join(Fields(host.value, port.value, database.value, username.value, password.value), ';'))
  }

  /** The `;`-separated fields of a connection string, the last one empty after the final `;`. */
  function Fields(host: string, port: string, database: string, username: string, password: string): seq<string> {
    ["Host=" + host, "Port=" + port, "Database=" + database, "Username=" + username, "Password=" + password,
     "SSL Mode=Require", "Trust Server Certificate=true", ""]
  }

  /** The values come back out: when none of them contains `;`, splitting the connection string
      at `;` gives exactly its fields, in order, so each value can be read back verbatim. */
  lemma BuildRoundTrip(host: string, port: string, database: string, username: string, password: string)
    requires host != "" && port != "" && database != "" && username != "" && password != ""
    requires ';' !in host && ';' !in port && ';' !in database && ';' !in username && ';' !in password
    ensures var r := Build(Some(host), Some(port), Some(database), Some(username), Some(password));
      r.Ok? && Split(r.value, ';') == Fields(host, port, database, username, password)
  {
    var f := Fields(host, port, database, username, password);
    forall i | 0 <= i < |f|
      ensures ';' !in f[i]
    {
      if i == 0 { NoSepInPrefixed("Host=", host); }
      else if i == 1 { NoSepInPrefixed("Port=", port); }
      else if i == 2 { NoSepInPrefixed("Database=", database); }
      else if i == 3 { NoSepInPrefixed("Username=", username); }
      else if i == 4 { NoSepInPrefixed("Password=", password); }
    }
    SplitJoin(f, ';');
  }

  lemma NoSepInPrefixed(key: string, v: string)
    requires ';' !in key && ';' !in v
    ensures ';' !in key + v
  {
  }

  /** The result depends on the five values alone: equal inputs build equal strings, and two
      successful builds agree only when all five values agree. */
  lemma BuildInjective(h1: string, p1: string, d1: string, u1: string, w1: string,
                       h2: string, p2: string, d2: string, u2: string, w2: string)
    requires ';' !in h1 && ';' !in p1 && ';' !in d1 && ';' !in u1 && ';' !in w1
    requires ';' !in h2 && ';' !in p2 && ';' !in d2 && ';' !in u2 && ';' !in w2
    requires h1 != "" && p1 != "" && d1 != "" && u1 != "" && w1 != ""
    requires h2 != "" && p2 != "" && d2 != "" && u2 != "" && w2 != ""
    requires Build(Some(h1), Some(p1), Some(d1), Some(u1), Some(w1)) == Build(Some(h2), Some(p2), Some(d2), Some(u2), Some(w2))
    ensures h1 == h2 && p1 == p2 && d1 == d2 && u1 == u2 && w1 == w2
  {
    BuildRoundTrip(h1, p1, d1, u1, w1);
    BuildRoundTrip(h2, p2, d2, u2, w2);
    var f1 := Fields(h1, p1, d1, u1, w1);
    var f2 := Fields(h2, p2, d2, u2, w2);
    assert f1 == f2;
    assert f1[0][5..] == h1 && f2[0][5..] == h2;
    assert f1[1][5..] == p1 && f2[1][5..] == p2;
    assert f1[2][9..] == d1 && f2[2][9..] == d2;
    assert f1[3][9..] == u1 && f2[3][9..] == u2;
    assert f1[4][9..] == w1 && f2[4][9..] == w2;
  }

  /** The console line for one variable: its value, or `NOT SET` when it is unset. */
  function ValueLine(name: string, v: Option<string>): string {
    name + ": " + (if v.Some? then v.value else "NOT SET")
  }

  /** The validation banner, one line per variable; the password's line says only whether it
      is set. */
  function LogLines(host: Option<string>, port: Option<string>, database: Option<string>,
                    username: Option<string>, password: Option<string>): (lines: seq<string>)
    ensures |lines| == 6 && lines[0] == "Validating Connection Parameters:"
    ensures lines[5] == "DB_PASSWORD: " + (if password.Some? then "SET" else "NOT SET")
  {
    ["Validating Connection Parameters:", ValueLine("DB_HOST", host), ValueLine("DB_PORT", port),
     ValueLine("DB_NAME", database), ValueLine("DB_USER", username),
     "DB_PASSWORD: " + (if password.Some? then "SET" else "NOT SET")]
  }

  /** The password never reaches the log: the banner is the same whatever the password is, as
      long as it is set. */
  lemma PasswordNeverLogged(host: Option<string>, port: Option<string>, database: Option<string>,
                            username: Option<string>, p1: string, p2: string)
    ensures LogLines(host, port, database, username, Some(p1)) == LogLines(host, port, database, username, Some(p2))
  {
  }
}
