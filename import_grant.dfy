/**
 * ImportGrant of mysql/resource_grant.go: the import key
 * user@host@database@table, with an optional fifth segment asking for the
 * grant option, and the scan of the account's live grants for the first one
 * the key describes.
 */
module Import {
  import opened Wrappers
  import opened Strings
  import opened Grants
  import opened RowParser
  import opened ResourceData
  import opened Reconcile

  datatype ImportKey = ImportKey(user: string, host: string, database: string, table: string, grantOption: bool)

  const WrongIdFormatHint :=
    " - expected user@host@database@table (and optionally ending @ to signify grant option) where some parts can be empty)"

  /** Split the key at every @: four segments, or five when the grant option is asked for. */
  function ParseImportKey(id: string): (r: Result<ImportKey, string>)
    ensures r.Success? <==> |Split(id, '@')| == 4 || |Split(id, '@')| == 5
    ensures r.Success? ==> (r.value.grantOption <==> |Split(id, '@')| == 5)
    ensures r.Success? ==> '@' !in r.value.user && '@' !in r.value.host
                           && '@' !in r.value.database && '@' !in r.value.table
  {
    var parts := Split(id, '@');
    if |parts| != 4 && |parts| != 5 then
      Failure("wrong ID format " + id + WrongIdFormatHint)
    else
      assert '@' !in parts[0] && '@' !in parts[1] && '@' !in parts[2] && '@' !in parts[3];
      Success(ImportKey(parts[0], parts[1], parts[2], parts[3], |parts| == 5))
  }

  /** The key that names a grant's account and object; the grant option adds a trailing @. */
  function FormatImportKey(k: ImportKey): string
  {
    Join([k.user, k.host, k.database, k.table] + (if k.grantOption then [""] else []), "@")
  }

  /** A key written from segments without @ reads back as the same key. */
  lemma ImportKeyRoundTrip(k: ImportKey)
    requires '@' !in k.user && '@' !in k.host && '@' !in k.database && '@' !in k.table
    ensures ParseImportKey(FormatImportKey(k)) == Success(k)
  {
    var parts := [k.user, k.host, k.database, k.table] + (if k.grantOption then [""] else []);
    SplitJoin(parts, '@');
  }

  /**
   * Whether a live grant is the one a key describes: same grant option, the
   * quoted database for a variant that has one (else an empty segment), and
   * the quoted table for a table grant (else an empty segment).
   */
  predicate ImportMatches(g: Grant, k: ImportKey)
  {
    && g.grant == k.grantOption
    && (if HasDatabase(g) then GetDatabase(g) == k.database else k.database == "")
    && (if HasTable(g) then GetTable(g) == k.table else k.table == "")
  }

  /** The scan of ImportGrant: the first grant the key describes, if any. */
  method FirstImportMatch(grants: seq<Grant>, k: ImportKey) returns (found: Option<Grant>)
    ensures found.Some? ==> exists i :: 0 <= i < |grants| && grants[i] == found.value && ImportMatches(grants[i], k)
                                      && forall j :: 0 <= j < i ==> !ImportMatches(grants[j], k)
    ensures found.None? ==> forall i :: 0 <= i < |grants| ==> !ImportMatches(grants[i], k)
  {
    for i := 0 to |grants|
      invariant forall j :: 0 <= j < i ==> !ImportMatches(grants[j], k)
    {
      var grant := grants[i];
      if grant.grant != k.grantOption {
        continue;
      }
      if (!HasDatabase(grant) && k.database != "") || (HasDatabase(grant) && GetDatabase(grant) != k.database) {
        continue;
      }
      if (!HasTable(grant) && k.table != "") || (HasTable(grant) && GetTable(grant) != k.table) {
        continue;
      }
      return Some(grant);
    }
    return None;
  }

  /**
   * Import a grant: read the key, list the user's live grants, and give the
   * fields of the first one the key describes, or nothing when none does.
   */
  method ImportGrant(id: string, query: string -> QueryOutcome) returns (r: Result<seq<Fields>, string>)
    ensures ParseImportKey(id).Failure? ==> r.Failure?
    ensures ParseImportKey(id).Success? ==>
      var k := ParseImportKey(id).value;
      var who := User(k.user, k.host);
      var shown := ShownGrants(who, query(ShowGrantsStatement(who)));
      && (r.Failure? <==> shown.Failure?)
      && (r.Success? ==> |r.value| <= 1)
      && (r.Success? && r.value == [] ==> forall g :: g in shown.value ==> !ImportMatches(g, k))
      && (r.Success? && r.value != [] ==>
            exists i :: 0 <= i < |shown.value| && ImportMatches(shown.value[i], k)
                        && r.value == [SetDataFromGrant(shown.value[i], Defaults)]
                        && forall j :: 0 <= j < i ==> !ImportMatches(shown.value[j], k))
  {
    var key := ParseImportKey(id);
    if key.Failure? {
      return Failure(key.error);
    }
    var k := key.value;
    var grants := ShowUserGrants(User(k.user, k.host), query);
    if grants.Failure? {
      return Failure(grants.error);
    }
    var found := FirstImportMatch(grants.value, k);
    if found.Some? {
      return Success([SetDataFromGrant(found.value, Defaults)]);
    }
    return Success([]);
  }

  /**
   * The database segment is compared with the quoted database name: a key
   * naming a database without back-ticks never matches a grant on it.
   */
  lemma BareDatabaseNeverMatches(g: Grant, k: ImportKey)
    requires HasDatabase(g) && g.database != "*" && !HasSuffix(g.database, "`")
    requires k.database == g.database
    ensures !ImportMatches(g, k)
  {
  }

  /**
   * The key written from a table grant's account, quoted database, quoted
   * table and flag finds a grant read back from the rendered GRANT line.
   */
  lemma ImportFindsRenderedTableGrant(privs: string, database: string, table: string,
                                      grant: bool, user: string, host: string, tls: string)
    requires PlainName(database) && PlainName(table) && table != ""
    ensures var g := TableGrantFromCaptures(privs, QuoteDatabase(database) + "." + QuoteTable(table),
                                            grant, User(user, host), tls);
      ImportMatches(g, ImportKey(user, host, QuoteDatabase(database), QuoteTable(table), grant))
  {
    SplitObjectOfRendered(database, table);
  }

  /**
   * As written, a table grant read from a line naming a user account carries
   * that account as its table, and no key can then select it.
   */
  lemma AsWrittenTableGrantNeverImported(privs: string, objectText: string, target: string,
                                         grant: bool, who: UserOrRole, tls: string, id: string)
    requires '@' in target && ParseImportKey(id).Success?
    ensures !ImportMatches(TableGrantFromCapturesAsWritten(privs, objectText, target, grant, who, tls),
                           ParseImportKey(id).value)
  {
    AsWrittenTableIsAccount(privs, objectText, target, grant, who, tls);
  }
}
