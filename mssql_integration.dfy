/** Importing a connection from the MSSQL extension
    (src/mssqlIntegration.ts): how the connection the extension returns
    becomes a saved profile. Prompting, activating the extension and the
    clock are outside; the time is a parameter. */
module MssqlIntegration {
  import opened Wrappers
  import opened Text
  import opened Types
  import CM = ConnectionManager

  /** `encrypt` comes either as a flag or as a mode name. */
  datatype EncryptSetting = Flag(on: bool) | Mode(name: string)

  /** The connection the extension hands back; the fields it may leave out
      or empty are options. */
  datatype ConnectionInfo = ConnectionInfo(
    server: string,
    database: string,
    user: Option<string>,
    password: Option<string>,
    port: Option<int>,
    authenticationType: string,
    encrypt: EncryptSetting,
    trustServerCertificate: Option<bool>)

  const DefaultPort := 1433

  /** `connInfo.port || 1433`. */
  function PortOf(port: Option<int>): (r: int)
    ensures port.Some? && port.value != 0 ==> r == port.value
    ensures port.None? || port.value == 0 ==> r == DefaultPort
  {
    match port
    case Some(p) => if p != 0 then p else DefaultPort
    case None => DefaultPort
  }

  /** Only "SqlLogin" is SQL authentication. */
  function AuthOf(authenticationType: string): (r: AuthType)
    ensures r == SqlLogin <==> authenticationType == "SqlLogin"
  {
    if authenticationType == "SqlLogin" then SqlLogin else Windows
  }

  /** A flag is kept; a mode encrypts unless it is "Optional". */
  function EncryptOf(e: EncryptSetting): (r: bool)
    ensures !r <==> e == Flag(false) || e == Mode("Optional")
  {
    match e
    case Flag(on) => on
    case Mode(name) => name != "Optional"
  }

  /** `value || undefined`. */
  function NonEmpty(s: Option<string>): (r: Option<string>)
    ensures r == (if Truthy(s) then s else None)
  {
    if s.Some? && s.value != "" then s else None
  }

  /** "server/database". */
  function ImportedName(info: ConnectionInfo): string
  {
    info.server + "/" + info.database
  }

  /** The profile built by `importConnection`: id `mssql_<now>`, source
      mssql, no group. */
  function Import(info: ConnectionInfo, now: int): ConnectionProfile
  {
    ConnectionProfile("mssql_" + IntToString(now), ImportedName(info), info.server, PortOf(info.port), info.database,
      AuthOf(info.authenticationType), NonEmpty(info.user), NonEmpty(info.password), EncryptOf(info.encrypt),
      if info.trustServerCertificate.Some? then info.trustServerCertificate.value else true,
      Some(MssqlImport), None)
  }

  /** The imported profile holds what the form of a connection holds, with
      the defaults filled in: the name "server/database", port 1433 for a
      missing or zero port, SQL authentication only for "SqlLogin",
      encryption unless switched off, a trusted certificate unless said
      otherwise, and no empty user or password. Apart from its id, its
      password and its source it is the profile that form would create. */
  lemma ImportSpec(info: ConnectionInfo, now: int)
    ensures var p := Import(info, now);
      && CM.FormOf(p) == CM.ConnectionForm(ImportedName(info), info.server, PortOf(info.port), info.database,
           AuthOf(info.authenticationType), NonEmpty(info.user), EncryptOf(info.encrypt),
           info.trustServerCertificate != Some(false))
      && p.password == NonEmpty(info.password)
      && p.source == Some(MssqlImport) && p.groupId == None
      && CM.NewProfile(CM.FormOf(p), now).(id := p.id, password := p.password, source := p.source) == p
  {
  }

  /** The name tells the server and database apart again when the server
      name holds no slash. */
  lemma ImportedNameSplits(a: ConnectionInfo, b: ConnectionInfo)
    requires '/' !in a.server && '/' !in b.server
    requires ImportedName(a) == ImportedName(b)
    ensures a.server == b.server && a.database == b.database
  {
    assert a.server + ("/" + a.database) == ImportedName(a);
    assert b.server + ("/" + b.database) == ImportedName(b);
    SplitAtFirst(a.server, "/" + a.database, b.server, "/" + b.database, '/');
    assert a.database == ("/" + a.database)[1..];
    assert b.database == ("/" + b.database)[1..];
  }

  /** Ids of imports made at different times differ. */
  lemma ImportIdsDiffer(a: ConnectionInfo, b: ConnectionInfo, t1: int, t2: int)
    requires t1 != t2
    ensures Import(a, t1).id != Import(b, t2).id
  {
    var p1, p2 := "mssql_" + IntToString(t1), "mssql_" + IntToString(t2);
    if p1 == p2 {
      assert IntToString(t1) == p1[6..] == p2[6..] == IntToString(t2);
      IntToStringInjective(t1, t2);
    }
  }
}
