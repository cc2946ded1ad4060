/**
 * The declared fields of a grant resource and the two conversions between
 * them and a grant: parseResourceFromData, which picks the account and the
 * variant, and setDataFromGrant, which writes a grant back into the fields.
 */
module ResourceData {
  import opened Wrappers
  import opened Strings
  import opened Privileges
  import opened Grants

  /**
   * The values of the resource's fields as read. An unset string reads as its
   * default or as "", an unset set as empty; the two sets are given as the
   * listing the framework produces for them.
   */
  datatype Fields = Fields(
    user: string, host: string, role: string,
    database: string, table: string,
    privileges: seq<string>, roles: seq<string>,
    grant: bool, tlsOption: string)

  /** A freshly created record: every field at its declared default. */
  const Defaults := Fields("", "localhost", "", "", "*", [], [], false, "NONE")

  // ---------------------------------------------------------------------------
  // The callable patterns (?i)^(function|procedure) ([^.]*)$ and
  // (?i)^(function|procedure) ([^.]*)\.([^.]*)$
  // ---------------------------------------------------------------------------

  /** FUNCTION or PROCEDURE in any letter case. */
  predicate IsCallableKind(kind: string)
  {
    ToLower(kind) == "function" || ToLower(kind) == "procedure"
  }

  lemma CallableKindIsWord(kind: string)
    requires IsCallableKind(kind)
    ensures ' ' !in kind
  {
    forall i | 0 <= i < |kind| ensures kind[i] != ' ' {
      assert LowerChar(kind[i]) == ToLower(kind)[i];
    }
  }

  /** The pattern with a database: KIND db.name, with no other dot. */
  function MatchCallableWithDatabase(s: string): (m: Option<(string, string, string)>)
    ensures m.Some? ==> IsCallableKind(m.value.0) && '.' !in m.value.1 && '.' !in m.value.2
    ensures m.Some? ==> s == m.value.0 + " " + m.value.1 + "." + m.value.2
  {
    var k := IndexOf(s, ' ');
    if k < |s| && IsCallableKind(s[..k]) then
      var rest := s[k + 1..];
      var j := IndexOf(rest, '.');
      if j < |rest| && '.' !in rest[j + 1..] then
        assert '.' !in rest[..j] by {
          forall ch | ch in rest[..j] ensures ch != '.' {
            var i :| 0 <= i < j && rest[..j][i] == ch;
          }
        }
        assert s == s[..k] + " " + rest[..j] + "." + rest[j + 1..];
        Some((s[..k], rest[..j], rest[j + 1..]))
      else None
    else None
  }

  /** The pattern without a database: KIND name, with no dot. */
  function MatchCallableWithoutDatabase(s: string): (m: Option<(string, string)>)
    ensures m.Some? ==> IsCallableKind(m.value.0) && '.' !in m.value.1
    ensures m.Some? ==> s == m.value.0 + " " + m.value.1
  {
    var k := IndexOf(s, ' ');
    if k < |s| && IsCallableKind(s[..k]) && '.' !in s[k + 1..] then
      assert s == s[..k] + " " + s[k + 1..];
      Some((s[..k], s[k + 1..]))
    else None
  }

  /** The pattern with a database matches every string of its shape, capturing the three parts. */
  lemma MatchCallableWithDatabaseOf(kind: string, database: string, name: string)
    requires IsCallableKind(kind) && '.' !in database && '.' !in name
    ensures MatchCallableWithDatabase(kind + " " + database + "." + name) == Some((kind, database, name))
  {
    var s := kind + " " + database + "." + name;
    CallableKindIsWord(kind);
    IndexOfFirst(kind, database + "." + name, ' ');
    assert s == kind + [' '] + (database + "." + name);
    var rest := s[|kind| + 1..];
    assert rest == database + [ '.' ] + name;
    IndexOfFirst(database, name, '.');
    assert rest[|database| + 1..] == name;
    assert s[..|kind|] == kind;
    assert rest[..|database|] == database;
  }

  /** The pattern without a database matches every string of its shape. */
  lemma MatchCallableWithoutDatabaseOf(kind: string, name: string)
    requires IsCallableKind(kind) && '.' !in name
    ensures MatchCallableWithoutDatabase(kind + " " + name) == Some((kind, name))
  {
    var s := kind + " " + name;
    CallableKindIsWord(kind);
    IndexOfFirst(kind, name, ' ');
    assert s == kind + [' '] + name;
    assert s[..|kind|] == kind && s[|kind| + 1..] == name;
  }

  /** A database field that names a function or procedure rather than a schema. */
  predicate NamesCallable(database: string)
  {
    MatchCallableWithDatabase(database).Some? || MatchCallableWithoutDatabase(database).Some?
  }

  // ---------------------------------------------------------------------------
  // parseResourceFromData
  // ---------------------------------------------------------------------------

  /** The account a record is for: user and host when both are set, else the role. */
  function AccountOf(d: Fields): (r: Result<UserOrRole, string>)
    ensures r.Failure? <==> (d.user == "" || d.host == "") && d.role == ""
    ensures r.Success? && r.value.User? ==> d.user != "" && d.host != ""
    ensures r.Success? && r.value.Role? ==> d.role != "" && (d.user == "" || d.host == "")
    ensures r.Success? ==> r.value == User(d.user, d.host) || r.value == Role(d.role)
  {
    if d.user != "" && d.host != "" then Success(User(d.user, d.host))
    else if d.role != "" then Success(Role(d.role))
    else Failure("One of user/host or role is required")
  }

  /**
   * The grant a record declares: a role grant when roles are listed, a
   * procedure grant when the database field names a callable, and a table
   * grant otherwise. Privileges are normalized; roles are taken as listed.
   */
  function ParseResourceFromData(d: Fields): (r: Result<Grant, string>)
    ensures r.Failure? <==> AccountOf(d).Failure?
    ensures r.Success? ==> r.value.userOrRole == AccountOf(d).value
    ensures r.Success? ==> r.value.grant == d.grant && r.value.tlsOption == d.tlsOption
    ensures r.Success? ==> (r.value.RoleGrant? <==> |d.roles| > 0)
    ensures r.Success? && r.value.RoleGrant? ==> r.value.roles == d.roles
    ensures r.Success? ==> (r.value.ProcedurePrivilegeGrant? <==> |d.roles| == 0 && NamesCallable(d.database))
    ensures r.Success? && !r.value.RoleGrant? ==>
      r.value.privileges == NormalizedPerms(d.privileges) && Normalized(r.value.privileges)
    ensures r.Success? && r.value.ProcedurePrivilegeGrant? && MatchCallableWithDatabase(d.database).Some? ==>
      (r.value.objectT, r.value.database, r.value.callableName) == MatchCallableWithDatabase(d.database).value
    ensures r.Success? && r.value.ProcedurePrivilegeGrant? && MatchCallableWithDatabase(d.database).None? ==>
      (r.value.objectT, r.value.database) == MatchCallableWithoutDatabase(d.database).value
      && r.value.callableName == d.table
    ensures r.Success? && r.value.TablePrivilegeGrant? ==> r.value.database == d.database && r.value.table == d.table
  {
    match AccountOf(d)
    case Failure(e) => Failure(e)
    case Success(who) =>
      if |d.roles| > 0 then
        Success(RoleGrant(d.roles, d.grant, who, d.tlsOption))
      else
        var privileges := NormalizedPerms(d.privileges);
        NormalizedPermsNormalized(d.privileges);
        match MatchCallableWithDatabase(d.database)
        case Some((kind, database, name)) =>
          Success(ProcedurePrivilegeGrant(database, kind, name, privileges, d.grant, who, d.tlsOption))
        case None =>
          match MatchCallableWithoutDatabase(d.database)
          case Some((kind, database)) =>
            Success(ProcedurePrivilegeGrant(database, kind, d.table, privileges, d.grant, who, d.tlsOption))
          case None =>
            Success(TablePrivilegeGrant(d.database, d.table, privileges, d.grant, who, d.tlsOption))
  }

  // ---------------------------------------------------------------------------
  // setDataFromGrant
  // ---------------------------------------------------------------------------

  /**
   * Write a grant into a record: its object, flags and privileges or roles,
   * then its account. A procedure grant's object is written back as
   * KIND db.name with the table cleared; fields the grant does not have keep
   * their values.
   */
  function SetDataFromGrant(g: Grant, d: Fields): (r: Fields)
    ensures r.grant == g.grant && r.tlsOption == g.tlsOption
    ensures g.RoleGrant? ==> r.roles == g.roles && r.privileges == d.privileges
                             && r.database == d.database && r.table == d.table
    ensures !g.RoleGrant? ==> r.privileges == g.privileges && r.roles == d.roles
    ensures g.TablePrivilegeGrant? ==> r.database == g.database && r.table == g.table
    ensures g.ProcedurePrivilegeGrant? ==>
      r.database == g.objectT + " " + g.database + "." + g.callableName && r.table == ""
    ensures g.userOrRole.User? ==> r.user == g.userOrRole.user && r.host == g.userOrRole.host && r.role == d.role
    ensures g.userOrRole.Role? ==> r.role == g.userOrRole.role && r.user == d.user && r.host == d.host
  {
    var objectSet := match g
      case TablePrivilegeGrant(database, table, privileges, grant, _, tls) =>
        d.(database := database, table := table, grant := grant, privileges := privileges, tlsOption := tls)
      case ProcedurePrivilegeGrant(database, kind, name, privileges, grant, _, tls) =>
        d.(database := kind + " " + database + "." + name, table := "", grant := grant,
           privileges := privileges, tlsOption := tls)
      case RoleGrant(roles, grant, _, tls) =>
        d.(grant := grant, roles := roles, tlsOption := tls);
    match g.userOrRole
    case User(u, h) => objectSet.(user := u, host := h)
    case Role(role) => objectSet.(role := role)
  }

  // ---------------------------------------------------------------------------
  // Round trips
  // ---------------------------------------------------------------------------

  /**
   * A grant the fields can express: an account with its names set, a role
   * grant with roles listed, a procedure grant whose kind, database and name
   * fit the callable pattern, a table grant whose database does not look like
   * a callable, and normalized privileges.
   */
  predicate Expressible(g: Grant)
  {
    (match g.userOrRole
     case User(u, h) => u != "" && h != ""
     case Role(r) => r != "")
    && (match g
        case RoleGrant(roles, _, _, _) => |roles| > 0
        case ProcedurePrivilegeGrant(database, kind, name, privileges, _, _, _) =>
          IsCallableKind(kind) && '.' !in database && '.' !in name && Normalized(privileges)
        case TablePrivilegeGrant(database, _, privileges, _, _, _) =>
          !NamesCallable(database) && Normalized(privileges))
  }

  /** Writing an expressible grant into a fresh record and reading it back gives the same grant. */
  lemma ParseSetDataRoundTrip(g: Grant)
    requires Expressible(g)
    ensures ParseResourceFromData(SetDataFromGrant(g, Defaults)) == Success(g)
  {
    var d := SetDataFromGrant(g, Defaults);
    assert AccountOf(d) == Success(g.userOrRole);
    match g
    case RoleGrant(_, _, _, _) =>
    case ProcedurePrivilegeGrant(database, kind, name, privileges, _, _, _) =>
      MatchCallableWithDatabaseOf(kind, database, name);
      NormalizedPermsFixed(privileges);
    case TablePrivilegeGrant(_, _, privileges, _, _, _) =>
      NormalizedPermsFixed(privileges);
  }

  /**
   * Reading a record, writing the grant back into it and reading again gives
   * the same grant, so refreshing the state is stable. A procedure whose
   * database field names no callable takes its name from the table field,
   * which must then hold no dot.
   */
  lemma ParseAfterSetDataStable(d: Fields)
    requires ParseResourceFromData(d).Success?
    requires (|d.roles| == 0 && MatchCallableWithDatabase(d.database).None?
              && MatchCallableWithoutDatabase(d.database).Some?) ==> '.' !in d.table
    ensures ParseResourceFromData(SetDataFromGrant(ParseResourceFromData(d).value, d))
         == ParseResourceFromData(d)
  {
    var g := ParseResourceFromData(d).value;
    var d2 := SetDataFromGrant(g, d);
    assert AccountOf(d2) == AccountOf(d);
    if !g.RoleGrant? {
      NormalizedPermsIdempotent(d.privileges);
      if g.ProcedurePrivilegeGrant? {
        MatchCallableWithDatabaseOf(g.objectT, g.database, g.callableName);
      }
    }
  }
}
