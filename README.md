# MySQL grant reconciliation, modelled in Dafny

This project models the grant core of the Terraform MySQL provider's
`mysql_grant` resource (`mysql/resource_grant.go`). That core does the following:

- It describes a grant to a user account (`'user'@'host'`) or to a role. There are three variants: a table privilege grant, a procedure or function privilege grant, and a role grant.
- It renders each grant as `GRANT`, `REVOKE` and partial `REVOKE` statements.
- It canonicalises privilege lists, so that a declared list and a list read from `SHOW GRANTS` compare equal. Tokens are split on commas outside parentheses. Spaces and back-ticks are dropped. Tokens are upper-cased. `ALL` becomes `ALL PRIVILEGES`. Column lists are sorted. `USAGE` is dropped.
- It builds a grant from the resource's declared fields and writes a grant back into them.
- It reads an account's live grants from `SHOW GRANTS` output, one line at a time.
- It makes the reconciliation decisions:
  - the conflict check before a create;
  - the revoke-then-grant sequence of an update;
  - the import key `user@host@database@table[@]` and the first-match scan;
  - treating MySQL errors 1141, 1147 and 1403 as "no such grant".

Modules, one file each:

| file | module | what it covers |
|---|---|---|
| `wrappers.dfy` | `Wrappers` | `Option` and `Result` |
| `strings.dfy` | `Strings` | the Go `strings` functions used here, with their lemmas |
| `sorting.dfy` | `Sorting` | `sort.Strings` |
| `privileges.dfy` | `Privileges` | `extractPermTypes`, `normalizeColumnOrder`, `normalizePerms`, `removeUselessPerms` |
| `grants.dfy` | `Grants` | accounts, grant variants, identifiers, quoting, statements |
| `resource_data.dfy` | `ResourceData` | `parseResourceFromData`, `setDataFromGrant` |
| `row_parser.dfy` | `RowParser` | `parseGrantFromRow` |
| `reconcile.dfy` | `Reconcile` | `isNonExistingGrant`, `showUserGrants`, `hasConflictingGrants`, `updatePrivileges` |
| `import_grant.dfy` | `Import` | `ImportGrant` |

The Go code mutates as it goes in several places:

- `extractPermTypes` and the `normalizePerms` / `removeUselessPerms` pair, which append inside loops;
- the `showUserGrants`, `hasConflictingGrants` and `ImportGrant` scans;
- `updatePrivileges`, which issues statements one after another.

These are methods, specified in three ways:

- `Privileges.ExtractPermTypes`, `Privileges.RemoveUselessPerms`, `Privileges.NormalizePerms` and `Reconcile.ShowUserGrants` are proved equal to a specification function.
- `Reconcile.HasConflictingGrants` and `Import.ImportGrant` are specified through the listing `Reconcile.ShownGrants`.
- `Reconcile.FindConflict`, `Import.FirstImportMatch`, `Reconcile.ListSet` and `Reconcile.UpdatePrivileges` carry their property directly.

The rest are functions.

Two kinds of external behaviour are passed in as inputs:

- **The database.** A query is a function from the statement text to its outcome (rows, or a driver error). An execution is a function from the statement text to the error it raised, if any.
- **Regex results in `parseGrantFromRow`.** What each regular expression found in a line is given as an input (`RowMatches`). The model decides which match wins and how each capture is cleaned.

Two anchored patterns are modelled exactly, as functions proved sound and complete for the shapes they accept:

- the column-list pattern `^([^(]*)\((.*)\)$`;
- the two `(?i)^(function|procedure) …` patterns.

The `[ `]` replacement is modelled as a character filter that drops every space and back-tick.

Some results hold only under conditions:

- Account rendering `'user'@'host'` is injective only for names without a single quote (`Grants.SQLStringInjective`).
- Identifiers `user@host:db` determine the account and database only for names without `@` or `:` (`Grants.GetIdIdentifies`).

The import scan compares the key's database segment with the back-quoted database (`GetDatabase`) and its table segment with the back-quoted table (`GetTable`). A key must therefore back-quote every name other than `*`. `Import.BareDatabaseNeverMatches` proves that a bare database name never matches. Even a quoted key such as `` bob@%@`app`@`users` `` selects a table grant to a user only once the `SHOW GRANTS` line has been read with the corrected parsing described under Findings (`Import.ImportFindsRenderedTableGrant`). With the parsing as written, the grant's table is the account text, and no key selects it (`Import.AsWrittenTableGrantNeverImported`).

## Model

| member | source | states |
|---|---|---|
| `Privileges.ExtractPermTypes` | mysql/resource_grant.go:836-868 | the tokens are the input's segments cut at commas outside parentheses, each without its leading white space; there are exactly (top-level commas + 1) tokens, so empty input gives one empty token |
| `Privileges.Segments` | mysql/resource_grant.go:836-868 | the reference split yields one more segment than there are commas met outside parentheses |
| `Privileges.SegmentsJoin` | mysql/resource_grant.go:836-868 | re-joining the segments with commas gives back the input: only top-level commas are consumed, and every other character is kept in order |
| `Privileges.SegmentsWithoutParentheses` | mysql/resource_grant.go:836-868 | without a `(` the tokenizer cuts at every comma, exactly as strings.Split does |
| `Privileges.ColumnListMatch` | mysql/resource_grant.go:871-878 | a match splits the token into a prefix free of `(` and a column list free of line breaks, with `prefix(columns)` equal to the token |
| `Privileges.ColumnListMatchOf` | mysql/resource_grant.go:871-878 | every token of the shape `prefix(columns)` matches, with exactly those two captures |
| `Privileges.NormalizeColumnOrder` | mysql/resource_grant.go:870-889 | a token without the `prefix(columns)` shape is unchanged; otherwise the result is the prefix and a sorted permutation of the trimmed columns joined with `, ` in parentheses; no character is introduced except `,` and space |
| `Privileges.NormalizeColumnOrderPlain` | mysql/resource_grant.go:877-880 | a token that does not end in `)` or has no `(` is returned unchanged |
| `Privileges.ColumnOrderIgnoresReordering` | mysql/resource_grant.go:882-888 | listing the same columns in any other order gives the same normalized token |
| `Privileges.TrimEachPermutation` | mysql/resource_grant.go:882-885 | trimming each column of a permutation of a list gives a permutation of the trimmed list |
| `Privileges.ColumnFormIdempotent` | mysql/resource_grant.go:870-888 | a column-list token that has already been rewritten is a fixed point of the whole per-token rewriting |
| `Privileges.WithoutUsage` | mysql/resource_grant.go:826-834 | the result never contains USAGE, is no longer than the input, and contains a token exactly when the input does and the token is not USAGE |
| `Privileges.RemoveUselessPerms` | mysql/resource_grant.go:826-834 | the loop returns the input in order without its USAGE tokens |
| `Privileges.NormalizePerms` | mysql/resource_grant.go:891-907 | the loop rewrites every token and then drops USAGE; the result has no USAGE and is no longer than the input |
| `Privileges.NormalizedPermsAppend` | mysql/resource_grant.go:891-907 | normalizing works token by token in input order: a concatenation normalizes to the concatenation of the normalized parts |
| `Privileges.NormalizedPermsSingle` | mysql/resource_grant.go:891-907 | one token gives its rewritten form, or nothing when that form is USAGE |
| `Privileges.NormalizePerm` | mysql/resource_grant.go:894-901 | a rewritten token holds no lower-case ASCII letter and no back-tick |
| `Privileges.AllPrivilegesAlias` | mysql/resource_grant.go:896-900 | a token that reads ALL or ALLPRIVILEGES once spaces and back-ticks are dropped and letters are upper-cased becomes exactly `ALL PRIVILEGES` |
| `Privileges.AllPrivilegesFixed` | mysql/resource_grant.go:896-901 | `ALL PRIVILEGES` rewrites to itself |
| `Privileges.NormalizePermIdempotent` | mysql/resource_grant.go:896-901 | rewriting a token twice gives the same as rewriting it once |
| `Privileges.NormalizedPermsNormalized` | mysql/resource_grant.go:891-907 | every token normalizePerms returns is a fixed point of the rewriting and is not USAGE |
| `Privileges.NormalizedPermsFixed` | mysql/resource_grant.go:891-907 | a list of such tokens is returned unchanged |
| `Privileges.NormalizedPermsIdempotent` | mysql/resource_grant.go:891-907 | normalizing a normalized privilege list changes nothing |
| `Sorting.SortStrings` | mysql/resource_grant.go:886 | the columns come out in code-point order and are a permutation of the input |
| `Sorting.SortIgnoresOrder` | mysql/resource_grant.go:886 | sorting depends only on which strings occur, not on their order |
| `Sorting.SortSorted` | mysql/resource_grant.go:886 | sorting an ordered list leaves it unchanged |
| `Grants.SQLString` | mysql/resource_grant.go:59-69 | an account renders inside single quotes, adding exactly two quotes to a role's name, and four quotes and an `@` to a user's name and host |
| `Grants.GetId` | mysql/resource_grant.go:80-88 | the identifier is exactly the account key for a role grant, and the account key, `:` and the quoted database for table and procedure grants (its prefix, suffix and length are fixed); for names without `@` or `:` it holds a `:` exactly when the variant has a database |
| `Grants.SQLStringInjective` | mysql/resource_grant.go:59-69 | two accounts with quote-free names render alike exactly when they are the same account, user or role |
| `Grants.QuoteDatabase` | mysql/resource_grant.go:98-103 | the result is `*` or ends in a back-tick; `*` and names already ending in a back-tick are kept; any other name is wrapped in back-ticks |
| `Grants.QuoteDatabaseIdempotent` | mysql/resource_grant.go:98-103 | quoting a quoted database name leaves it as it is |
| `Grants.QuoteTable` | mysql/resource_grant.go:105-111 | the result is `*` exactly for the empty name and `*`; otherwise it is the name wrapped in back-ticks |
| `Grants.GetIdIdentifies` | mysql/resource_grant.go:80-88 | for table and procedure grants, two identifiers are equal exactly when the accounts and the quoted databases are equal; nothing else enters the identifier |
| `Grants.SQLGrantStatement` | mysql/resource_grant.go:113-236 | all three variants share one shape: GRANT, what is granted (the roles, or the privileges ON the object), TO the account, then ` REQUIRE <option>` when the TLS option asks for one, then the option clause when the flag is set |
| `Grants.SQLRevokeStatement` | mysql/resource_grant.go:124-240 | all three variants share one shape: REVOKE, what is revoked, FROM the account, then ` WITH GRANT OPTION` only for a privilege grant whose flag is set |
| `Grants.SQLPartialRevokePrivilegesStatement` | mysql/resource_grant.go:132-196 | the partial revoke is the full REVOKE of the same grant holding only the listed privileges |
| `Grants.GrantWithoutTls` | mysql/resource_grant.go:113-122 | an empty TLS option and NONE in any letter case render the same GRANT as no option |
| `Grants.GrantWithTls` | mysql/resource_grant.go:113-122 | any other TLS option appends ` REQUIRE <option>` to the GRANT, before the option clause |
| `Grants.GrantOptionClause` | mysql/resource_grant.go:113-236 | the grant flag appends ` WITH GRANT OPTION` to a privilege GRANT and ` WITH ADMIN OPTION` to a role GRANT |
| `Grants.RevokeIgnoresTls` | mysql/resource_grant.go:124-240 | no REVOKE, full or partial, depends on the TLS option |
| `Grants.RevokeOptionClause` | mysql/resource_grant.go:124-240 | a privilege REVOKE carries ` WITH GRANT OPTION` exactly when the flag is set, and a role REVOKE carries no option clause |
| `Grants.FullRevokeIsPartial` | mysql/resource_grant.go:124-137 | revoking a whole privilege grant is the partial revoke of all its privileges |
| `ResourceData.MatchCallableWithDatabase` | mysql/resource_grant.go:331 | a match is FUNCTION or PROCEDURE in any letter case, a space, a database and a name, with no other dot |
| `ResourceData.MatchCallableWithoutDatabase` | mysql/resource_grant.go:330 | a match is FUNCTION or PROCEDURE in any letter case, a space, and a name without a dot |
| `ResourceData.MatchCallableWithDatabaseOf` | mysql/resource_grant.go:331 | every string of that shape matches, with the kind, database and name captured |
| `ResourceData.MatchCallableWithoutDatabaseOf` | mysql/resource_grant.go:330 | every string of that shape matches, with the kind and name captured |
| `ResourceData.AccountOf` | mysql/resource_grant.go:335-352 | user and host when both are non-empty, else the role when it is non-empty, else the error; a role is chosen only when user or host is missing |
| `ResourceData.ParseResourceFromData` | mysql/resource_grant.go:333-410 | fails exactly when no account is given; listed roles give a role grant with those roles; otherwise a database naming a callable gives a procedure grant (its name taken from the `table` field when the database part names no database), and anything else a table grant on the declared database and table; the flags are carried over and the privileges are the normalized declared ones |
| `ResourceData.SetDataFromGrant` | mysql/resource_grant.go:636-667 | writes the grant's object, flags and privileges or roles (a procedure as `KIND db.name` with an empty table), then its account; other fields are kept |
| `ResourceData.ParseSetDataRoundTrip` | mysql/resource_grant.go:636-667 | writing an expressible grant into a fresh record and building a grant from it gives the same grant back |
| `ResourceData.ParseAfterSetDataStable` | mysql/resource_grant.go:333-410 | building a grant from a record, writing it back into the record and building again gives the same grant (see Left out for the one excluded record shape) |
| `RowParser.RowAccount` | mysql/resource_grant.go:711-727 | there is no account exactly when neither pattern matched; a user-and-host match always wins, with back-ticks, quotes and spaces trimmed |
| `RowParser.RowAccountNeverRole` | mysql/resource_grant.go:713-724 | since the user-and-host pattern matches wherever the role pattern does, the role branch is never taken |
| `RowParser.RoleNames` | mysql/resource_grant.go:730-736 | there is one role per comma-separated part of the list, one more than its commas |
| `RowParser.RoleNamesAreTrimmed` | mysql/resource_grant.go:730-736 | no role read from a list holds a comma or starts or ends with a back-tick, `@`, `%`, double quote or space |
| `RowParser.RoleNamesRoundTrip` | mysql/resource_grant.go:730-736 | a non-empty list of such roles joined with commas reads back as the same roles in the same order |
| `RowParser.RowPrivileges` | mysql/resource_grant.go:746-749 | the privileges read from a line are tokenized, then normalized |
| `RowParser.TableGrantFromCapturesAsWritten` | mysql/resource_grant.go:761-774 | as written: the database is the whole object text and the table is the account text after TO |
| `RowParser.AsWrittenTableIsAccount` | mysql/resource_grant.go:766-768 | as written, a grant to a user account reports a quoted table that contains the `@` of that account |
| `RowParser.AsWrittenExample` | mysql/resource_grant.go:761-768 | the object text and account of one concrete GRANT line come back as the database and table |
| `RowParser.SplitObject` | mysql/resource_grant.go:761-768 | corrected: the object text is cut at its first dot, and each side is trimmed of back-ticks and double quotes |
| `RowParser.SplitObjectOfRendered` | mysql/resource_grant.go:113-114 | reading back the object of a rendered table grant gives back its database and table |
| `RowParser.TableGrantFromCaptures` | mysql/resource_grant.go:761-774 | corrected: the table grant's database and table are the two sides of the object text, and its privileges are normalized |
| `RowParser.ParseGrantFromRow` | mysql/resource_grant.go:697-778 | a REVOKE line gives no grant and no error; any other line gives a grant or an error; it fails exactly when there is no account or no grant pattern; the role pattern wins over the procedure pattern, which wins over the table pattern; the flag and TLS option are carried over whatever the variant; a procedure or table grant's privileges are those read from the line's privilege capture; a procedure uses its one name as both database and callable |
| `Reconcile.IsNonExistingGrant` | mysql/resource_grant.go:568-579 | true exactly for MySQL server errors 1141, 1147 and 1403, and never for other failures |
| `Reconcile.RowStep` | mysql/resource_grant.go:796-819 | a row's grant is kept exactly when it is for the requested account: a kept grant is for that account and was read from the row's matches, and a grant parsed from the row for that account is kept |
| `Reconcile.KeptGrantsFailurePersists` | mysql/resource_grant.go:799-807 | the first failing row ends the listing with its error, whatever rows follow |
| `Reconcile.KeptGrantsSound` | mysql/resource_grant.go:804-819 | every listed grant is what some row's step gave |
| `Reconcile.KeptGrantsComplete` | mysql/resource_grant.go:804-819 | every grant a row's step gives is in the listing when the listing succeeds |
| `Reconcile.KeptGrantsFailure` | mysql/resource_grant.go:796-821 | the listing fails exactly when some row's step fails |
| `Reconcile.ListedGrantsForAccount` | mysql/resource_grant.go:796-819 | every grant of a successful listing is for the requested account, compared as rendered SQL, and was parsed from the matches of some row |
| `Reconcile.ListingFails` | mysql/resource_grant.go:796-807 | the listing fails exactly when some row cannot be read or its line does not parse |
| `Reconcile.ShownGrants` | mysql/resource_grant.go:780-824 | a failed query gives an empty listing exactly when its error means no such grant, and an error otherwise; rows give an error exactly when some row cannot be read or does not parse; every listed grant is for the requested account, compared as rendered SQL |
| `Reconcile.ShowUserGrants` | mysql/resource_grant.go:780-824 | the loop sends SHOW GRANTS FOR the rendered account and returns exactly the listing `ShownGrants` defines for the query outcome |
| `Reconcile.NonExistingGrantListsNothing` | mysql/resource_grant.go:787-789 | a "no such grant" error from the query gives an empty listing, not an error |
| `Reconcile.FindConflict` | mysql/resource_grant.go:674-681 | true exactly when some grant has the desired grant's flag and variant |
| `Reconcile.HasConflictingGrants` | mysql/resource_grant.go:669-683 | fails exactly when the listing fails; otherwise true exactly when some live grant has the same flag and the same variant; databases and tables are not compared |
| `Reconcile.ListSet` | mysql/resource_grant.go:511-517 | the listed privileges are the set's elements, each once |
| `Reconcile.UpdatePrivileges` | mysql/resource_grant.go:506-543 | equal sets issue nothing; dropped privileges are revoked first by a partial REVOKE of exactly those privileges, and for a role grant this is an error with nothing issued; added privileges then issue the full GRANT, unless the revoke failed; the error is the first failing statement's |
| `Import.ParseImportKey` | mysql/resource_grant.go:582-592 | a key is accepted exactly when it has 4 or 5 `@`-separated segments; the grant option is asked for exactly when there are 5 |
| `Import.ImportKeyRoundTrip` | mysql/resource_grant.go:582-592 | a key written from segments without `@` reads back as the same key |
| `Import.FirstImportMatch` | mysql/resource_grant.go:608-628 | returns the first grant with the key's flag, quoted database (or an empty segment for a role grant) and quoted table (or an empty segment for other variants); returns nothing when no grant qualifies |
| `Import.ImportGrant` | mysql/resource_grant.go:581-633 | a bad key or a failed listing is an error; otherwise the result is the fields of the first matching live grant, or empty when none matches |
| `Import.BareDatabaseNeverMatches` | mysql/resource_grant.go:615 | a key that names a database without back-ticks never selects a grant on that database |
| `Import.ImportFindsRenderedTableGrant` | mysql/resource_grant.go:609-628 | once a table grant's line is read with the corrected parsing, the key built from its account, quoted names and flag selects it |
| `Import.AsWrittenTableGrantNeverImported` | mysql/resource_grant.go:620 | with the parsing as written, no import key selects a table grant to a user account |

## Left out

- `supportsRoles` is not modelled. It compares the server version using a version library that is not part of this model.
- The lifecycle entry points are not modelled: `resourceGrant`, `CreateGrant`, `ReadGrant`, `UpdateGrant`, `DeleteGrant` and `setToArray`. They are wiring for the provider framework. The decisions they call are modelled, and the declared fields are the `Fields` record.
- Database connections, contexts, `rows.Close` and logging are not modelled. Queries and executions are function parameters.
- The unanchored regular expressions in `parseGrantFromRow` are not modelled. These are `reRequire`, `userHostRegex`, `roleRegex`, `roleGrantRegex`, `reGrant`, `procedureGrantRegex` and `tableGrantRegex`. What they matched is an input.
- Upper-casing and lower-casing cover ASCII letters only. Go's `strings.ToUpper` also maps some non-ASCII letters onto ASCII ones: dotless ı (U+0131) becomes `I` and long ſ (U+017F) becomes `S`. So Go drops the token `uſage` as `USAGE` and rewrites `allprıvileges` to `ALL PRIVILEGES`, while the model keeps both tokens as they are, apart from upper-casing their ASCII letters. Other non-ASCII letters are upper-cased by Go and kept by the model. Only the comparison of the TLS option with `none` is unaffected: no non-ASCII character lower-cases to `n`, `o` or `e`.
- `RowParser.ParseGrantFromRow` reads table grant lines with the corrected split (`RowParser.TableGrantFromCaptures`), not with the database and table captures of lines 766-768 (see Findings). `Reconcile.ShownGrants`, `Reconcile.ShowUserGrants`, `Import.ImportGrant` and `Import.ImportFindsRenderedTableGrant` inherit that choice. The code as written is `RowParser.TableGrantFromCapturesAsWritten`.
- `ResourceData.ParseAfterSetDataStable` leaves out one record shape: no roles, a `database` field of the form `KIND db` with no dot, and a `table` field containing a dot. Such a procedure grant takes its callable name from the `table` field. Writing it back gives the `database` field `KIND db.name` with that dotted name, which neither callable pattern matches, so reading again builds a table grant.
- Privilege and role sets are modelled as the list the framework yields. Their order and the collapsing of duplicates when a list is written back into a set are not modelled. `Reconcile.ListSet` lists a set in an unspecified order.
- The `GetUserOrRole` and `GrantOption` accessors are the datatype's fields. The `panic` branches for an unknown account or grant type cannot occur with the datatypes.

## Findings

| source | as written | input that shows it | evidently intended | confidence | as-written member | corrected member |
|---|---|---|---|---|---|---|
| mysql/resource_grant.go:761-768 | The table pattern has three groups: privileges, object, and account. So the grant's Database takes the whole object text, and its Table takes the account text after TO. | The line ``GRANT SELECT, INSERT ON `app`.`users` TO 'bob'@'%'`` gives database ``app`.`users`` and table `'bob'@'%'`. That table's quoted form contains `@`, so no import key can select the grant. | Database `app` and table `users`: the object text cut at its dot and each side unquoted, the inverse of how the GRANT is rendered. | high, not executed | `RowParser.TableGrantFromCapturesAsWritten` (shown by `RowParser.AsWrittenExample` and `Import.AsWrittenTableGrantNeverImported`) | `RowParser.TableGrantFromCaptures` (proved by `RowParser.SplitObjectOfRendered` and `Import.ImportFindsRenderedTableGrant`; used by `RowParser.ParseGrantFromRow`) |
