/**
 * The grant model of mysql/resource_grant.go: the account a grant is for,
 * the three grant variants, their identifiers, the quoting of database and
 * table names, and the GRANT / REVOKE statements rendered for each variant.
 */
module Grants {
  import opened Strings

  // ---------------------------------------------------------------------------
  // Accounts
  // ---------------------------------------------------------------------------

  /** The account a grant is given to: a user at a host, or a role. */
  datatype UserOrRole = User(user: string, host: string) | Role(role: string)

  /** The account as a statement names it: 'user'@'host' or 'role'. */
  function SQLString(who: UserOrRole): (r: string)
    ensures |r| >= 2 && r[0] == '\'' && r[|r| - 1] == '\''
    ensures |r| == if who.User? then |who.user| + |who.host| + 5 else |who.role| + 2
  {
    match who
    case User(u, h) => "'" + u + "'@'" + h + "'"
    case Role(r) => "'" + r + "'"
  }

  /** An account name that holds no single quote, so that quoting it is unambiguous. */
  predicate QuoteFree(who: UserOrRole)
  {
    match who
    case User(u, h) => '\'' !in u && '\'' !in h
    case Role(r) => '\'' !in r
  }

  /**
   * Rendering an account names it uniquely: two accounts whose names hold no
   * quote render alike exactly when they are the same account. This is what
   * lets the grant listing be filtered by comparing rendered accounts.
   */
  lemma SQLStringInjective(a: UserOrRole, b: UserOrRole)
    requires QuoteFree(a) && QuoteFree(b)
    ensures SQLString(a) == SQLString(b) <==> a == b
  {
    if SQLString(a) == SQLString(b) {
      var x, rx := QuotedHead(a);
      var y, ry := QuotedHead(b);
      CutAtFirst(x, rx, y, ry, '\'');
      if a.User? && b.User? {
        assert a.host + "'" == rx[2..] && b.host + "'" == ry[2..];
        assert a.host == (a.host + "'")[..|a.host|] && b.host == (b.host + "'")[..|b.host|];
      }
    }
  }

  /** SQLString(who) split after the account's first name: "'" + name + "'" + rest. */
  lemma QuotedHead(who: UserOrRole) returns (name: string, rest: string)
    requires QuoteFree(who)
    ensures '\'' !in name
    ensures "'" + SQLString(who)[1..] == SQLString(who)
    ensures SQLString(who)[1..] == name + "'" + rest
    ensures who.User? ==> name == who.user && rest == "@'" + who.host + "'"
    ensures who.Role? ==> name == who.role && rest == ""
  {
    match who
    case User(u, h) =>
      name, rest := u, "@'" + h + "'";
      assert SQLString(who)[1..] == u + "'" + rest;
    case Role(r) =>
      name, rest := r, "";
      assert SQLString(who)[1..] == r + "'";
  }

  /** The account part of an identifier: user@host, or the role name. */
  function AccountKey(who: UserOrRole): string
  {
    match who
    case User(u, h) => u + "@" + h
    case Role(r) => r
  }

  // ---------------------------------------------------------------------------
  // Grants
  // ---------------------------------------------------------------------------

  /**
   * The three kinds of grant. `objectT` is the callable's kind as written
   * (FUNCTION or PROCEDURE, in any letter case).
   */
  datatype Grant =
    | TablePrivilegeGrant(database: string, table: string, privileges: seq<string>,
                          grant: bool, userOrRole: UserOrRole, tlsOption: string)
    | ProcedurePrivilegeGrant(database: string, objectT: string, callableName: string,
                              privileges: seq<string>, grant: bool, userOrRole: UserOrRole,
                              tlsOption: string)
    | RoleGrant(roles: seq<string>, grant: bool, userOrRole: UserOrRole, tlsOption: string)

  /** The variants that name a database (MySQLGrantWithDatabase). */
  predicate HasDatabase(g: Grant)
  {
    !g.RoleGrant?
  }

  /** The variant that names a table (MySQLGrantWithTable). */
  predicate HasTable(g: Grant)
  {
    g.TablePrivilegeGrant?
  }

  /** The variants whose privileges can be revoked one by one (PrivilegesPartiallyRevocable). */
  predicate PartiallyRevocable(g: Grant)
  {
    !g.RoleGrant?
  }

  /** A database name in back-ticks, unless it is `*` or already ends in a back-tick. */
  function QuoteDatabase(database: string): (q: string)
    ensures q == "*" || HasSuffix(q, "`")
    ensures database == "*" || HasSuffix(database, "`") ==> q == database
    ensures q != database ==> |q| == |database| + 2 && q[0] == '`' && q[1..|q| - 1] == database
  {
    if database != "*" && !HasSuffix(database, "`") then "`" + database + "`" else database
  }

  /** Quoting a quoted name leaves it as it is. */
  lemma QuoteDatabaseIdempotent(database: string)
    ensures QuoteDatabase(QuoteDatabase(database)) == QuoteDatabase(database)
  {
  }

  /** A table name in back-ticks; the empty name and `*` both stand for every table. */
  function QuoteTable(table: string): (q: string)
    ensures q == "*" <==> table == "*" || table == ""
    ensures q != "*" ==> |q| == |table| + 2 && q[0] == '`' && q[|q| - 1] == '`'
                         && q[1..|q| - 1] == table
  {
    if table == "*" || table == "" then "*" else "`" + table + "`"
  }

  function GetDatabase(g: Grant): string
    requires HasDatabase(g)
  {
    QuoteDatabase(g.database)
  }

  function GetTable(g: Grant): string
    requires HasTable(g)
  {
    QuoteTable(g.table)
  }

  /** The resource identifier: account, then `:` and the quoted database for the variants that have one. */
  function GetId(g: Grant): (id: string)
    ensures HasPrefix(id, AccountKey(g.userOrRole))
    ensures HasDatabase(g) ==> HasSuffix(id, ":" + GetDatabase(g))
    ensures PlainAccount(g.userOrRole) ==> (':' in id <==> HasDatabase(g))
    ensures |id| == |AccountKey(g.userOrRole)| + (if HasDatabase(g) then 1 + |GetDatabase(g)| else 0)
  {
    AccountKeyChars(g.userOrRole);
    if HasDatabase(g) then
      ConcatEnds(AccountKey(g.userOrRole), ":" + GetDatabase(g));
      AccountKey(g.userOrRole) + ":" + GetDatabase(g)
    else AccountKey(g.userOrRole)
  }

  /** Names that keep an identifier readable: no `@` and no `:` in them. */
  predicate PlainAccount(who: UserOrRole)
  {
    match who
    case User(u, h) => '@' !in u && '@' !in h && ':' !in u && ':' !in h
    case Role(r) => '@' !in r && ':' !in r
  }

  /**
   * For the variants that name a database, the identifier determines the
   * account and the quoted database, and nothing else: table, privileges,
   * grant option and TLS option do not enter it.
   */
  lemma GetIdIdentifies(g1: Grant, g2: Grant)
    requires HasDatabase(g1) && HasDatabase(g2)
    requires PlainAccount(g1.userOrRole) && PlainAccount(g2.userOrRole)
    ensures GetId(g1) == GetId(g2)
        <==> g1.userOrRole == g2.userOrRole && GetDatabase(g1) == GetDatabase(g2)
  {
    if GetId(g1) == GetId(g2) {
      var k1, k2 := AccountKey(g1.userOrRole), AccountKey(g2.userOrRole);
      AccountKeyPlain(g1.userOrRole);
      AccountKeyPlain(g2.userOrRole);
      CutAtFirst(k1, GetDatabase(g1), k2, GetDatabase(g2), ':');
      AccountKeyInjective(g1.userOrRole, g2.userOrRole);
    }
  }

  /** An account key with plain names holds no colon. */
  lemma AccountKeyChars(who: UserOrRole)
    ensures PlainAccount(who) ==> ':' !in AccountKey(who)
  {
    if PlainAccount(who) {
      AccountKeyPlain(who);
    }
  }

  lemma AccountKeyPlain(who: UserOrRole)
    requires PlainAccount(who)
    ensures ':' !in AccountKey(who)
    ensures '@' in AccountKey(who) <==> who.User?
  {
    match who
    case User(u, h) =>
      assert AccountKey(who)[|u|] == '@';
      assert forall ch :: ch in AccountKey(who) ==> ch in u || ch == '@' || ch in h;
    case Role(r) =>
  }

  lemma AccountKeyInjective(a: UserOrRole, b: UserOrRole)
    requires PlainAccount(a) && PlainAccount(b)
    ensures AccountKey(a) == AccountKey(b) <==> a == b
  {
    if AccountKey(a) == AccountKey(b) {
      AccountKeyPlain(a);
      AccountKeyPlain(b);
      if a.User? {
        CutAtFirst(a.user, a.host, b.user, b.host, '@');
      }
    }
  }

  // ---------------------------------------------------------------------------
  // Statements
  // ---------------------------------------------------------------------------

  /** The object a privilege grant is on: `db`.`table`, or KIND `db`.name for a callable. */
  function ObjectName(g: Grant): string
    requires PartiallyRevocable(g)
  {
    if g.TablePrivilegeGrant? then GetDatabase(g) + "." + GetTable(g)
    else g.objectT + " " + GetDatabase(g) + "." + g.callableName
  }

  /** Whether a TLS option asks for a REQUIRE clause: present, and not NONE in any letter case. */
  predicate RequiresTls(tlsOption: string)
  {
    tlsOption != "" && ToLower(tlsOption) != "none"
  }

  /** What a statement grants or revokes: the roles, or the privileges ON the object. */
  function Granted(g: Grant): string
  {
    if g.RoleGrant? then Join(g.roles, ", ") else Join(g.privileges, ", ") + " ON " + ObjectName(g)
  }

  /** The clause the grant flag adds: ADMIN OPTION for a role grant, GRANT OPTION otherwise. */
  function OptionClause(g: Grant): string
  {
    if g.RoleGrant? then " WITH ADMIN OPTION" else " WITH GRANT OPTION"
  }

  /**
   * The GRANT for a grant. Every variant has the same shape: what is granted,
   * TO the account, then the REQUIRE clause when the TLS option asks for one,
   * then the option clause when the flag is set.
   */
  function SQLGrantStatement(g: Grant): (r: string)
    ensures var stmt := "GRANT " + Granted(g) + " TO " + SQLString(g.userOrRole);
      var stmt := if RequiresTls(g.tlsOption) then stmt + " REQUIRE " + g.tlsOption else stmt;
      r == if g.grant then stmt + OptionClause(g) else stmt
  {
    match g
    case RoleGrant(roles, grant, who, tls) =>
      var stmt := "GRANT " + Join(roles, ", ") + " TO " + SQLString(who);
      var stmt := if RequiresTls(tls) then stmt + " REQUIRE " + tls else stmt;
      if grant then stmt + " WITH ADMIN OPTION" else stmt
    case _ =>
      var on := Join(g.privileges, ", ") + " ON " + ObjectName(g);
      var stmt := "GRANT " + on + " TO " + SQLString(g.userOrRole);
      var stmt := if RequiresTls(g.tlsOption) then stmt + " REQUIRE " + g.tlsOption else stmt;
      if g.grant then stmt + " WITH GRANT OPTION" else stmt
  }

  /**
   * The REVOKE for a grant. Every variant has the same shape: what is revoked,
   * FROM the account, then WITH GRANT OPTION for a privilege grant whose flag is set.
   */
  function SQLRevokeStatement(g: Grant): (r: string)
    ensures var stmt := "REVOKE " + Granted(g) + " FROM " + SQLString(g.userOrRole);
      r == if g.grant && PartiallyRevocable(g) then stmt + " WITH GRANT OPTION" else stmt
  {
    match g
    case RoleGrant(roles, _, who, _) =>
      "REVOKE " + Join(roles, ", ") + " FROM " + SQLString(who)
    case _ =>
      var on := Join(g.privileges, ", ") + " ON " + ObjectName(g);
      var stmt := "REVOKE " + on + " FROM " + SQLString(g.userOrRole);
      if g.grant then stmt + " WITH GRANT OPTION" else stmt
  }

  /** REVOKE of the listed privileges only: the full REVOKE of the grant holding just those privileges. */
  function SQLPartialRevokePrivilegesStatement(g: Grant, privilegesToRevoke: seq<string>): (r: string)
    requires PartiallyRevocable(g)
    ensures r == SQLRevokeStatement(g.(privileges := privilegesToRevoke))
  {
    var on := Join(privilegesToRevoke, ", ") + " ON " + ObjectName(g);
    var stmt := "REVOKE " + on + " FROM " + SQLString(g.userOrRole);
    if g.grant then stmt + " WITH GRANT OPTION" else stmt
  }

  /** The same grant with another grant-option flag. */
  function WithGrantOption(g: Grant, grant: bool): Grant
  {
    g.(grant := grant)
  }

  /** The same grant with another TLS option. */
  function WithTls(g: Grant, tlsOption: string): Grant
  {
    g.(tlsOption := tlsOption)
  }

  /** An absent TLS option and NONE, in any letter case, render the same GRANT. */
  lemma GrantWithoutTls(g: Grant)
    requires !RequiresTls(g.tlsOption)
    ensures SQLGrantStatement(g) == SQLGrantStatement(WithTls(g, ""))
  {
  }

  /** Any other TLS option appends ` REQUIRE <option>` to the GRANT, before any option clause. */
  lemma GrantWithTls(g: Grant)
    requires RequiresTls(g.tlsOption)
    ensures SQLGrantStatement(WithGrantOption(g, false))
         == SQLGrantStatement(WithTls(WithGrantOption(g, false), "")) + " REQUIRE " + g.tlsOption
  {
    FlagOnly(g, false);
  }

  /** The grant flag appends WITH GRANT OPTION, or WITH ADMIN OPTION for a role grant, to the GRANT. */
  lemma GrantOptionClause(g: Grant)
    ensures SQLGrantStatement(WithGrantOption(g, true))
         == SQLGrantStatement(WithGrantOption(g, false))
            + (if g.RoleGrant? then " WITH ADMIN OPTION" else " WITH GRANT OPTION")
  {
    FlagOnly(g, false);
    FlagOnly(g, true);
  }

  /** No REVOKE depends on the TLS option. */
  lemma RevokeIgnoresTls(g: Grant, tlsOption: string)
    ensures SQLRevokeStatement(WithTls(g, tlsOption)) == SQLRevokeStatement(g)
    ensures PartiallyRevocable(g) ==> forall privs ::
      SQLPartialRevokePrivilegesStatement(WithTls(g, tlsOption), privs)
        == SQLPartialRevokePrivilegesStatement(g, privs)
  {
  }

  /**
   * A privilege REVOKE carries WITH GRANT OPTION exactly as the GRANT does; a
   * role REVOKE carries no option clause at all.
   */
  lemma RevokeOptionClause(g: Grant)
    ensures PartiallyRevocable(g) ==>
      SQLRevokeStatement(WithGrantOption(g, true)) == SQLRevokeStatement(WithGrantOption(g, false)) + " WITH GRANT OPTION"
    ensures g.RoleGrant? ==> SQLRevokeStatement(WithGrantOption(g, true)) == SQLRevokeStatement(WithGrantOption(g, false))
  {
    FlagOnly(g, false);
    FlagOnly(g, true);
  }

  /** Changing the grant flag keeps what is granted, the account, the TLS option and the variant. */
  lemma FlagOnly(g: Grant, grant: bool)
    ensures var h := WithGrantOption(g, grant);
      Granted(h) == Granted(g) && h.userOrRole == g.userOrRole && h.tlsOption == g.tlsOption
      && h.RoleGrant? == g.RoleGrant?
  {
  }

  /** Revoking a whole privilege grant is the partial revoke of all its privileges. */
  lemma FullRevokeIsPartial(g: Grant)
    requires PartiallyRevocable(g)
    ensures SQLRevokeStatement(g) == SQLPartialRevokePrivilegesStatement(g, g.privileges)
  {
  }
}
