/**
 * parseGrantFromRow: turning one line of SHOW GRANTS output into a grant.
 * The regular expressions it runs are not modelled as an engine; what each
 * one found in the line is an input (RowMatches), and the model decides,
 * as the source does, which of them wins and how their captures are cleaned.
 */
module RowParser {
  import opened Wrappers
  import opened Strings
  import opened Privileges
  import opened Grants

  /**
   * What each expression found in a line:
   *  - requireTail: the text after REQUIRE and its spaces (.*REQUIRE\s+(.*));
   *  - userHost: the quoted user and, when present, the quoted host after @
   *    ('([^']*)'(@'([^']*)')?; an absent host is captured as "");
   *  - role: the first non-empty quoted text ('[^']+');
   *  - roleGrant: the role list of GRANT roles TO ...;
   *  - procedureGrant: privileges, FUNCTION or PROCEDURE, and the name of
   *    GRANT privs ON kind name TO ...;
   *  - tableGrant: the three captures of GRANT privs ON object TO account;
   *  - grantOptionMentioned: whether GRANT OPTION or ADMIN OPTION occurs as words.
   */
  datatype RowMatches = RowMatches(
    requireTail: Option<string>,
    userHost: Option<(string, string)>,
    role: Option<string>,
    roleGrant: Option<string>,
    procedureGrant: Option<(string, string, string)>,
    tableGrant: Option<(string, string, string)>,
    grantOptionMentioned: bool)

  /**
   * The user-and-host expression matches wherever the role expression does,
   * since its host part is optional and a non-empty quoted text is also a
   * quoted text.
   */
  predicate Consistent(m: RowMatches)
  {
    m.role.Some? ==> m.userHost.Some?
  }

  /** The account named in a line: user and host when quoted so, else a quoted role. */
  function RowAccount(m: RowMatches): (r: Option<UserOrRole>)
    ensures r.None? <==> m.userHost.None? && m.role.None?
    ensures m.userHost.Some? ==> r == Some(User(Trim(m.userHost.value.0, "`' "), Trim(m.userHost.value.1, "`' ")))
  {
    match m.userHost
    case Some((user, host)) => Some(User(Trim(user, "`' "), Trim(host, "`' ")))
    case None =>
      match m.role
      case Some(role) => Some(Role(Trim(role, "`' ")))
      case None => None
  }

  /** Whatever the line, a role account is never chosen when the expressions agree. */
  lemma RowAccountNeverRole(m: RowMatches)
    requires Consistent(m)
    ensures RowAccount(m).Some? ==> RowAccount(m).value.User?
  {
  }

  /** What the role list's parts are trimmed of: back-ticks, @, %, double quotes and spaces. */
  const RoleCutset := "`@%\" "

  /** The granted roles: the list split at commas, each part trimmed of the role cut set. */
  function RoleNames(list: string): (roles: seq<string>)
    ensures |roles| == Count(list, ',') + 1
    ensures forall i :: 0 <= i < |roles| ==> roles[i] == Trim(Split(list, ',')[i], RoleCutset)
  {
    var parts := Split(list, ',');
    seq(|parts|, i requires 0 <= i < |parts| => Trim(parts[i], RoleCutset))
  }

  /** No role read from a list holds a comma, and none starts or ends with a character of the cut set. */
  lemma RoleNamesAreTrimmed(list: string)
    ensures forall r :: r in RoleNames(list) ==> ',' !in r && TrimmedBy(r, RoleCutset)
  {
    var parts := Split(list, ',');
    forall r | r in RoleNames(list) ensures ',' !in r && TrimmedBy(r, RoleCutset) {
      var i :| 0 <= i < |parts| && RoleNames(list)[i] == r;
      TrimChars(parts[i], RoleCutset);
      TrimIsTrimmed(parts[i], RoleCutset);
    }
  }

  /**
   * Roles that hold no comma and are already trimmed read back from their
   * comma-separated list as the same roles, in the same order.
   */
  lemma RoleNamesRoundTrip(names: seq<string>)
    requires |names| > 0
    requires forall i :: 0 <= i < |names| ==> ',' !in names[i] && TrimmedBy(names[i], RoleCutset)
    ensures RoleNames(Join(names, ",")) == names
  {
    SplitJoin(names, ',');
    forall i | 0 <= i < |names| ensures RoleNames(Join(names, ","))[i] == names[i] {
      TrimOfTrimmed(names[i], RoleCutset);
    }
  }

  /** The privileges of a line: tokenized and normalized. */
  function RowPrivileges(privs: string): (r: seq<string>)
    ensures Normalized(r)
  {
    NormalizedPermsNormalized(PermTypes(privs));
    NormalizedPerms(PermTypes(privs))
  }

  // ---------------------------------------------------------------------------
  // The table pattern's captures
  // ---------------------------------------------------------------------------

  /**
   * The table grant built from the table pattern as the source builds it:
   * the whole object text becomes the database and the account text after
   * TO becomes the table.
   */
  function TableGrantFromCapturesAsWritten(privs: string, objectText: string, target: string,
                                           grant: bool, who: UserOrRole, tls: string): (g: Grant)
    ensures g.TablePrivilegeGrant?
    ensures g.database == Trim(objectText, "`\"") && g.table == Trim(target, "`\"")
  {
    TablePrivilegeGrant(Trim(objectText, "`\""), Trim(target, "`\""), RowPrivileges(privs), grant, who, tls)
  }

  /**
   * As written, a grant to a user account reads the account text as its
   * table: the quoted table name the grant then reports holds the @ of
   * 'user'@'host'.
   */
  lemma AsWrittenTableIsAccount(privs: string, objectText: string, target: string,
                                grant: bool, who: UserOrRole, tls: string)
    requires '@' in target
    ensures '@' in GetTable(TableGrantFromCapturesAsWritten(privs, objectText, target, grant, who, tls))
  {
    TrimKeeps(target, "`\"", '@');
  }

  /** Trimming the object text of the example line removes only its outer back-ticks. */
  lemma TrimExampleObject(objectText: string)
    requires objectText == "`app`.`users`"
    ensures Trim(objectText, "`\"") == "app`.`users"
  {
    assert objectText[1..] == "app`.`users`";
    assert TrimLeft(objectText, "`\"") == "app`.`users`";
    assert "app`.`users`"[..11] == "app`.`users";
  }

  /** Trimming the account text of the example line leaves it as it is. */
  lemma TrimExampleAccount(target: string)
    requires target == "'bob'@'%'"
    ensures Trim(target, "`\"") == target
  {
    assert TrimLeft(target, "`\"") == target;
  }

  /** The line GRANT SELECT, INSERT ON `app`.`users` TO 'bob'@'%' read as written. */
  lemma AsWrittenExample(privs: string, objectText: string, target: string,
                          grant: bool, who: UserOrRole, tls: string)
    requires privs == "SELECT, INSERT" && objectText == "`app`.`users`" && target == "'bob'@'%'"
    ensures var g := TableGrantFromCapturesAsWritten(privs, objectText, target, grant, who, tls);
      g.database == "app`.`users" && g.table == "'bob'@'%'"
  {
    TrimExampleObject(objectText);
    TrimExampleAccount(target);
  }

  /** The object text db.table cut at its first dot, each side trimmed of back-ticks and double quotes. */
  function SplitObject(objectText: string): (parts: (string, string))
    ensures '.' !in objectText ==> parts == (Trim(objectText, "`\""), "")
  {
    var k := IndexOf(objectText, '.');
    if k < |objectText| then (Trim(objectText[..k], "`\""), Trim(objectText[k + 1..], "`\""))
    else (Trim(objectText, "`\""), "")
  }

  /** A name that quoting cannot confuse: no dot, back-tick or double quote in it. */
  predicate PlainName(name: string)
  {
    '.' !in name && '`' !in name && '"' !in name
  }

  /**
   * Reading back the object of a rendered table grant gives its database and
   * table: a quoted name trims to itself, and `*` stays `*`.
   */
  lemma SplitObjectOfRendered(database: string, table: string)
    requires PlainName(database) && PlainName(table) && table != ""
    ensures SplitObject(QuoteDatabase(database) + "." + QuoteTable(table)) == (database, table)
  {
    var qd, qt := QuoteDatabase(database), QuoteTable(table);
    if database == "*" {
      assert qd == "*";
    } else {
      assert !HasSuffix(database, "`") by {
        if |database| > 0 { assert database[|database| - 1] in database; }
      }
      assert qd == ['`'] + database + ['`'];
      TrimWrapped(database, '`', "`\"");
    }
    assert '.' !in qd;
    IndexOfFirst(qd, qt, '.');
    assert (qd + "." + qt)[..|qd|] == qd;
    assert (qd + "." + qt)[|qd| + 1..] == qt;
    if table == "*" {
      assert Trim(qt, "`\"") == "*";
    } else {
      assert qt == ['`'] + table + ['`'];
      TrimWrapped(table, '`', "`\"");
    }
  }

  /** The table grant built from the table pattern, with the object split into database and table. */
  function TableGrantFromCaptures(privs: string, objectText: string, grant: bool,
                                  who: UserOrRole, tls: string): (g: Grant)
    ensures g.TablePrivilegeGrant? && Normalized(g.privileges)
    ensures (g.database, g.table) == SplitObject(objectText)
  {
    var (database, table) := SplitObject(objectText);
    TablePrivilegeGrant(database, table, RowPrivileges(privs), grant, who, tls)
  }

  // ---------------------------------------------------------------------------
  // parseGrantFromRow
  // ---------------------------------------------------------------------------

  /**
   * One line of SHOW GRANTS: a partial revoke gives no grant and no error;
   * otherwise the account is required, and the role pattern is tried before
   * the procedure pattern, which is tried before the table pattern.
   */
  function ParseGrantFromRow(row: string, m: RowMatches): (r: Result<Option<Grant>, string>)
    ensures HasPrefix(row, "REVOKE") ==> r == Success(None)
    ensures !HasPrefix(row, "REVOKE") ==> r != Success(None)
    ensures r.Failure? <==>
      (!HasPrefix(row, "REVOKE") && (RowAccount(m).None? || NoPattern(m)))
    ensures r.Success? && r.value.Some? ==> ParsedFrom(r.value.value, m)
  {
    if HasPrefix(row, "REVOKE") then Success(None)
    else
      var tls := if m.requireTail.Some? then m.requireTail.value else "";
      match RowAccount(m)
      case None => Failure("failed to parse grant statement: " + row)
      case Some(who) =>
        if m.roleGrant.Some? then
          Success(Some(RoleGrant(RoleNames(m.roleGrant.value), m.grantOptionMentioned, who, tls)))
        else if m.procedureGrant.Some? then
          var (privs, kind, name) := m.procedureGrant.value;
          var callable := Trim(name, "`\"");
          Success(Some(ProcedurePrivilegeGrant(callable, kind, callable, RowPrivileges(privs),
                                               m.grantOptionMentioned, who, tls)))
        else if m.tableGrant.Some? then
          var (privs, objectText, _) := m.tableGrant.value;
          Success(Some(TableGrantFromCaptures(privs, objectText, m.grantOptionMentioned, who, tls)))
        else
          Failure("failed to parse grant statement: " + row)
  }

  /** None of the three grant patterns matched. */
  predicate NoPattern(m: RowMatches)
  {
    m.roleGrant.None? && m.procedureGrant.None? && m.tableGrant.None?
  }

  /**
   * What a grant read from a line owes to the matches: its account, its TLS
   * option and its grant flag whatever the variant, the variant chosen by
   * precedence, the privileges read from the privilege capture, and for a
   * procedure the one name used as both database and callable.
   */
  predicate ParsedFrom(g: Grant, m: RowMatches)
  {
    && RowAccount(m) == Some(g.userOrRole)
    && g.tlsOption == (if m.requireTail.Some? then m.requireTail.value else "")
    && g.grant == m.grantOptionMentioned
    && (g.RoleGrant? <==> m.roleGrant.Some?)
    && (g.ProcedurePrivilegeGrant? <==> m.roleGrant.None? && m.procedureGrant.Some?)
    && (g.TablePrivilegeGrant? <==> m.roleGrant.None? && m.procedureGrant.None? && m.tableGrant.Some?)
    && (g.RoleGrant? ==> g.roles == RoleNames(m.roleGrant.value))
    && (g.ProcedurePrivilegeGrant? ==>
          g.database == g.callableName && g.objectT == m.procedureGrant.value.1
          && g.callableName == Trim(m.procedureGrant.value.2, "`\""))
    && (g.TablePrivilegeGrant? ==> (g.database, g.table) == SplitObject(m.tableGrant.value.1))
    && (g.ProcedurePrivilegeGrant? ==> g.privileges == RowPrivileges(m.procedureGrant.value.0))
    && (g.TablePrivilegeGrant? ==> g.privileges == RowPrivileges(m.tableGrant.value.0))
    && (!g.RoleGrant? ==> Normalized(g.privileges))
  }
}
