/**
 * The reconciliation decisions of mysql/resource_grant.go: which server
 * errors mean "the grant is already absent", reading an account's live
 * grants (showUserGrants), the conflict check made before creating a grant
 * (hasConflictingGrants), and the statements issued when the declared
 * privileges change (updatePrivileges).
 *
 * The database is an input: a query is a function from the statement text
 * to its outcome, an execution a function from the statement text to the
 * error it raised, if any.
 */
module Reconcile {
  import opened Wrappers
  import opened Strings
  import opened Grants
  import opened RowParser

  /** An error from the database driver: a server error with its number, or any other failure. */
  datatype DbError = MySQLError(number: int, message: string) | OtherError(message: string)

  /** One result row of SHOW GRANTS: its text and what the expressions found in it, or a row that could not be read. */
  datatype Row = Row(text: string, matches: RowMatches) | Unreadable(reason: string)

  datatype QueryOutcome = QueryFailed(error: DbError) | Rows(rows: seq<Row>)

  /**
   * Server errors 1141, 1147 and 1403 say that there is no such grant (for an
   * account, a table or a routine): a revoke or a listing that meets one has
   * nothing to act on.
   */
  function IsNonExistingGrant(err: Option<DbError>): (b: bool)
    ensures b ==> err.Some? && err.value.MySQLError?
    ensures err.Some? && err.value.MySQLError? ==>
      (b <==> err.value.number == 1141 || err.value.number == 1147 || err.value.number == 1403)
  {
    match err
    case Some(MySQLError(number, _)) => number == 1141 || number == 1147 || number == 1403
    case _ => false
  }

  // ---------------------------------------------------------------------------
  // showUserGrants
  // ---------------------------------------------------------------------------

  function ShowGrantsStatement(who: UserOrRole): string
  {
    "SHOW GRANTS FOR " + SQLString(who)
  }

  /** What one row contributes: an error, nothing (a partial revoke, another account), or a grant. */
  function RowStep(who: UserOrRole, row: Row): (r: Result<Option<Grant>, string>)
    ensures r.Success? && r.value.Some? ==>
      SQLString(r.value.value.userOrRole) == SQLString(who)
      && row.Row? && ParsedFrom(r.value.value, row.matches)
    ensures forall g: Grant ::
      (row.Row? && ParseGrantFromRow(row.text, row.matches) == Success(Some(g))
       && SQLString(g.userOrRole) == SQLString(who)) ==> r == Success(Some(g))
  {
    match row
    case Unreadable(reason) => Failure("showUserGrants - reading row failed: " + reason)
    case Row(text, m) =>
      match ParseGrantFromRow(text, m)
      case Failure(e) => Failure(e)
      case Success(None) => Success(None)
      case Success(Some(g)) =>
        if SQLString(g.userOrRole) != SQLString(who) then Success(None) else Success(Some(g))
  }

  /** How one row adds to a listing. */
  type Step = Row -> Result<Option<Grant>, string>

  /** The step of a listing of one account's grants. */
  function StepFor(who: UserOrRole): Step
  {
    row => RowStep(who, row)
  }

  /** The grants kept from the rows read so far, or the first error met. */
  function KeptGrants(step: Step, rows: seq<Row>): Result<seq<Grant>, string>
  {
    if rows == [] then Success([])
    else
      match KeptGrants(step, rows[..|rows| - 1])
      case Failure(e) => Failure(e)
      case Success(grants) =>
        match step(rows[|rows| - 1])
        case Failure(e) => Failure(e)
        case Success(None) => Success(grants)
        case Success(Some(g)) => Success(grants + [g])
  }

  /** The listing of an account's grants: no such grant reads as an empty listing. */
  function ShownGrants(who: UserOrRole, outcome: QueryOutcome): (r: Result<seq<Grant>, string>)
    ensures outcome.QueryFailed? ==>
      (r.Success? <==> IsNonExistingGrant(Some(outcome.error))) && (r.Success? ==> r.value == [])
    ensures outcome.Rows? ==>
      (r.Failure? <==>
         exists k :: 0 <= k < |outcome.rows|
                      && (outcome.rows[k].Unreadable?
                          || ParseGrantFromRow(outcome.rows[k].text, outcome.rows[k].matches).Failure?))
    ensures r.Success? ==> forall g :: g in r.value ==> SQLString(g.userOrRole) == SQLString(who)
  {
    match outcome
    case QueryFailed(e) =>
      if IsNonExistingGrant(Some(e)) then Success([])
      else Failure("showUserGrants - getting grants failed: " + e.message)
    case Rows(rows) =>
      ListingFails(who, rows);
      var listed := KeptGrants(StepFor(who), rows);
      if listed.Success? then
        ListedGrantsForAccount(who, rows);
        listed
      else listed
  }

  /** Once an error is met, later rows do not change the outcome. */
  lemma {:induction false} KeptGrantsFailurePersists(step: Step, rows: seq<Row>, n: nat)
    requires n <= |rows| && KeptGrants(step, rows[..n]).Failure?
    ensures KeptGrants(step, rows) == KeptGrants(step, rows[..n])
    decreases |rows| - n
  {
    if n == |rows| {
      assert rows[..n] == rows;
    } else {
      var init := rows[..|rows| - 1];
      assert init[..n] == rows[..n];
      KeptGrantsFailurePersists(step, init, n);
    }
  }

  /** Every grant listed is what some row gave. */
  lemma {:induction false} KeptGrantsSound(step: Step, rows: seq<Row>)
    requires KeptGrants(step, rows).Success?
    ensures forall g :: g in KeptGrants(step, rows).value ==>
      exists k :: 0 <= k < |rows| && step(rows[k]) == Success(Some(g))
  {
    if rows != [] {
      var init := rows[..|rows| - 1];
      KeptGrantsSound(step, init);
      forall g | g in KeptGrants(step, rows).value
        ensures exists k :: 0 <= k < |rows| && step(rows[k]) == Success(Some(g))
      {
        if g in KeptGrants(step, init).value {
          var k :| 0 <= k < |init| && step(init[k]) == Success(Some(g));
          assert rows[k] == init[k];
        } else {
          assert step(rows[|rows| - 1]) == Success(Some(g));
        }
      }
    }
  }

  /** Every row that gives a grant has it listed. */
  lemma {:induction false} KeptGrantsComplete(step: Step, rows: seq<Row>, k: nat, g: Grant)
    requires KeptGrants(step, rows).Success?
    requires k < |rows| && step(rows[k]) == Success(Some(g))
    ensures g in KeptGrants(step, rows).value
  {
    var init := rows[..|rows| - 1];
    if k < |rows| - 1 {
      assert init[k] == rows[k];
      KeptGrantsComplete(step, init, k, g);
    }
  }

  /** The listing fails exactly when some row fails. */
  lemma {:induction false} KeptGrantsFailure(step: Step, rows: seq<Row>)
    ensures KeptGrants(step, rows).Failure? <==> exists k :: 0 <= k < |rows| && step(rows[k]).Failure?
  {
    if rows != [] {
      var init := rows[..|rows| - 1];
      KeptGrantsFailure(step, init);
      if KeptGrants(step, init).Failure? {
        var k :| 0 <= k < |init| && step(init[k]).Failure?;
        assert rows[k] == init[k];
      } else {
        forall k | 0 <= k < |init| ensures step(rows[k]) == step(init[k]) {
          assert rows[k] == init[k];
        }
      }
    }
  }

  /** A row the listing skips leaves it as it was. */
  lemma KeptGrantsSkip(step: Step, rows: seq<Row>, i: nat)
    requires i < |rows| && KeptGrants(step, rows[..i]).Success?
    requires step(rows[i]) == Success(None)
    ensures KeptGrants(step, rows[..i + 1]) == KeptGrants(step, rows[..i])
  {
    assert rows[..i + 1][..i] == rows[..i];
  }

  /** A row the listing keeps is appended to it. */
  lemma KeptGrantsKeep(step: Step, rows: seq<Row>, i: nat, g: Grant)
    requires i < |rows| && KeptGrants(step, rows[..i]).Success?
    requires step(rows[i]) == Success(Some(g))
    ensures KeptGrants(step, rows[..i + 1]) == Success(KeptGrants(step, rows[..i]).value + [g])
  {
    assert rows[..i + 1][..i] == rows[..i];
  }

  /** A failing row ends the listing with its error. */
  lemma KeptGrantsStop(step: Step, rows: seq<Row>, i: nat, e: string)
    requires i < |rows| && KeptGrants(step, rows[..i]).Success?
    requires step(rows[i]) == Failure(e)
    ensures KeptGrants(step, rows) == Failure(e)
  {
    assert rows[..i + 1][..i] == rows[..i];
    KeptGrantsFailurePersists(step, rows, i + 1);
  }

  /**
   * Every grant the listing of an account keeps is for that account and was
   * read from one of the rows.
   */
  lemma ListedGrantsForAccount(who: UserOrRole, rows: seq<Row>)
    requires KeptGrants(StepFor(who), rows).Success?
    ensures forall g :: g in KeptGrants(StepFor(who), rows).value ==>
      SQLString(g.userOrRole) == SQLString(who)
      && exists k :: 0 <= k < |rows| && rows[k].Row? && ParsedFrom(g, rows[k].matches)
  {
    KeptGrantsSound(StepFor(who), rows);
    forall g | g in KeptGrants(StepFor(who), rows).value
      ensures SQLString(g.userOrRole) == SQLString(who)
      ensures exists k :: 0 <= k < |rows| && rows[k].Row? && ParsedFrom(g, rows[k].matches)
    {
      var k :| 0 <= k < |rows| && StepFor(who)(rows[k]) == Success(Some(g));
      assert RowStep(who, rows[k]) == Success(Some(g));
    }
  }

  /**
   * The listing of an account fails exactly when a row cannot be read or does
   * not parse; rows about other accounts are skipped, not errors.
   */
  lemma ListingFails(who: UserOrRole, rows: seq<Row>)
    ensures KeptGrants(StepFor(who), rows).Failure? <==>
      exists k :: 0 <= k < |rows| &&
        (rows[k].Unreadable? || ParseGrantFromRow(rows[k].text, rows[k].matches).Failure?)
  {
    KeptGrantsFailure(StepFor(who), rows);
    forall k | 0 <= k < |rows|
      ensures StepFor(who)(rows[k]).Failure?
          <==> rows[k].Unreadable? || ParseGrantFromRow(rows[k].text, rows[k].matches).Failure?
    {
    }
  }

  /**
   * The grants an account holds: SHOW GRANTS FOR the account, each row parsed,
   * partial revokes skipped, and rows about another account (as a server
   * returns for a wildcard host) skipped.
   */
  method ShowUserGrants(who: UserOrRole, query: string -> QueryOutcome) returns (r: Result<seq<Grant>, string>)
    ensures r == ShownGrants(who, query(ShowGrantsStatement(who)))
  {
    var outcome := query(ShowGrantsStatement(who));
    match outcome {
      case QueryFailed(e) =>
        if IsNonExistingGrant(Some(e)) {
          return Success([]);
        }
        return Failure("showUserGrants - getting grants failed: " + e.message);
      case Rows(rows) =>
        var grants: seq<Grant> := [];
        for i := 0 to |rows|
          invariant KeptGrants(StepFor(who), rows[..i]) == Success(grants)
        {
          match rows[i] {
            case Unreadable(reason) =>
              KeptGrantsStop(StepFor(who), rows, i, "showUserGrants - reading row failed: " + reason);
              return Failure("showUserGrants - reading row failed: " + reason);
            case Row(text, m) =>
              var parsed := ParseGrantFromRow(text, m);
              match parsed {
                case Failure(e) =>
                  KeptGrantsStop(StepFor(who), rows, i, e);
                  return Failure(e);
                case Success(None) =>
                  KeptGrantsSkip(StepFor(who), rows, i);
                case Success(Some(g)) =>
                  if SQLString(g.userOrRole) == SQLString(who) {
                    KeptGrantsKeep(StepFor(who), rows, i, g);
                    grants := grants + [g];
                  } else {
                    KeptGrantsSkip(StepFor(who), rows, i);
                  }
              }
          }
        }
        assert rows[..|rows|] == rows;
        return Success(grants);
    }
  }

  /** A server that knows no grant for the account gives an empty listing, not an error. */
  lemma NonExistingGrantListsNothing(who: UserOrRole, e: DbError)
    requires e.MySQLError? && e.number in {1141, 1147, 1403}
    ensures ShownGrants(who, QueryFailed(e)) == Success([])
  {
  }

  // ---------------------------------------------------------------------------
  // hasConflictingGrants
  // ---------------------------------------------------------------------------

  /** The concrete variant of a grant. */
  datatype GrantKind = TableKind | ProcedureKind | RoleKind

  function Kind(g: Grant): GrantKind
  {
    match g
    case TablePrivilegeGrant(_, _, _, _, _, _) => TableKind
    case ProcedurePrivilegeGrant(_, _, _, _, _, _, _) => ProcedureKind
    case RoleGrant(_, _, _, _) => RoleKind
  }

  /** A live grant that a desired one would clobber: same grant-option flag, same variant. */
  predicate Conflicts(desired: Grant, live: Grant)
  {
    live.grant == desired.grant && Kind(live) == Kind(desired)
  }

  /** The scan of hasConflictingGrants over a listing. */
  method FindConflict(desired: Grant, grants: seq<Grant>) returns (found: bool)
    ensures found <==> exists i :: 0 <= i < |grants| && Conflicts(desired, grants[i])
  {
    for i := 0 to |grants|
      invariant forall j :: 0 <= j < i ==> !Conflicts(desired, grants[j])
    {
      if desired.grant != grants[i].grant {
        continue;
      }
      if Kind(desired) == Kind(grants[i]) {
        return true;
      }
    }
    return false;
  }

  /**
   * Whether the account already holds an unmanaged grant of the same kind and
   * flag. Databases and tables are not compared.
   */
  method HasConflictingGrants(desired: Grant, query: string -> QueryOutcome) returns (r: Result<bool, string>)
    ensures var shown := ShownGrants(desired.userOrRole, query(ShowGrantsStatement(desired.userOrRole)));
      && (r.Failure? <==> shown.Failure?)
      && (r.Success? ==> (r.value <==> exists g :: g in shown.value && Conflicts(desired, g)))
  {
    var allGrants := ShowUserGrants(desired.userOrRole, query);
    if allGrants.Failure? {
      return Failure("showGrant - getting all grants failed: " + allGrants.error);
    }
    var found := FindConflict(desired, allGrants.value);
    return Success(found);
  }

  // ---------------------------------------------------------------------------
  // updatePrivileges
  // ---------------------------------------------------------------------------

  datatype UpdateError = NotPartiallyRevocable | ExecFailed(error: DbError)

  /** Every element of a set, once each, in some order (Set.List). */
  method ListSet(s: set<string>) returns (xs: seq<string>)
    ensures |xs| == |s| && (forall x :: x in xs <==> x in s)
    ensures forall i, j :: 0 <= i < j < |xs| ==> xs[i] != xs[j]
  {
    xs := [];
    var remaining := s;
    while remaining != {}
      invariant remaining <= s
      invariant forall x :: x in xs <==> x in s && x !in remaining
      invariant |xs| + |remaining| == |s|
      invariant forall i, j :: 0 <= i < j < |xs| ==> xs[i] != xs[j]
      decreases |remaining|
    {
      var x :| x in remaining;
      xs := xs + [x];
      remaining := remaining - {x};
    }
  }

  /** A listing of a set has elements exactly when the set does. */
  lemma ListedNonEmpty(s: set<string>, xs: seq<string>)
    requires |xs| == |s|
    ensures |xs| > 0 <==> s != {}
  {
    if s != {} {
      var x :| x in s;
      assert |s| >= 1;
    }
  }

  /**
   * Move a grant from the old privilege set to the new one: first a partial
   * REVOKE of the privileges dropped (refused for a role grant), then, if any
   * privilege was added, the full GRANT with the grant's whole privilege list.
   * The first statement that fails ends the update.
   */
  method UpdatePrivileges(g: Grant, oldPrivs: set<string>, newPrivs: set<string>,
                          exec: string -> Option<DbError>)
    returns (revokes: seq<string>, issued: seq<string>, err: Option<UpdateError>)
    ensures (forall p :: p in revokes <==> p in oldPrivs - newPrivs) && |revokes| == |oldPrivs - newPrivs|
    ensures oldPrivs == newPrivs ==> issued == [] && err.None?
    ensures oldPrivs - newPrivs == {} ==>
      issued == (if newPrivs - oldPrivs != {} then [SQLGrantStatement(g)] else [])
    ensures oldPrivs - newPrivs != {} && !PartiallyRevocable(g) ==>
      issued == [] && err == Some(NotPartiallyRevocable)
    ensures oldPrivs - newPrivs != {} && PartiallyRevocable(g) ==>
      var revoke := SQLPartialRevokePrivilegesStatement(g, revokes);
      issued == [revoke] + (if exec(revoke).None? && newPrivs - oldPrivs != {} then [SQLGrantStatement(g)] else [])
    ensures err.None? <==>
      !(oldPrivs - newPrivs != {} && !PartiallyRevocable(g)) && forall s :: s in issued ==> exec(s).None?
    ensures err == Some(NotPartiallyRevocable) ==> oldPrivs - newPrivs != {} && !PartiallyRevocable(g)
    ensures err.Some? && err.value.ExecFailed? ==> |issued| > 0 && exec(issued[|issued| - 1]) == Some(err.value.error)
  {
    revokes := ListSet(oldPrivs - newPrivs);
    var grants := ListSet(newPrivs - oldPrivs);
    ListedNonEmpty(oldPrivs - newPrivs, revokes);
    ListedNonEmpty(newPrivs - oldPrivs, grants);
    issued := [];
    err := None;
    if |revokes| > 0 {
      if !PartiallyRevocable(g) {
        return revokes, [], Some(NotPartiallyRevocable);
      }
      var sqlCommand := SQLPartialRevokePrivilegesStatement(g, revokes);
      issued := [sqlCommand];
      var e := exec(sqlCommand);
      if e.Some? {
        err := Some(ExecFailed(e.value));
      }
    }
    if err.None? && |grants| > 0 {
      var sqlCommand := SQLGrantStatement(g);
      var e := exec(sqlCommand);
      issued := issued + [sqlCommand];
      if e.Some? {
        err := Some(ExecFailed(e.value));
      }
    }
  }
}
