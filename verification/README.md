# Guard logic, verified

This project models, in Dafny 4.11, the guard logic of the repository: the table-privilege auditor, the
one-shot routes that apply migrations to a live database, the two bounded evidence collectors, and the
front end's save-receipt watches and card placement. It proves what those parts are for, over every
input, every failure and every interleaving the model allows.

`dafny verify dfyconfig.toml` checks the whole project.

## How it is laid out

| part | modules |
|---|---|
| Exposure auditor | `Audit` (what `assess` computes, and the loops that compute it), `AuditSemantics` (PostgreSQL privileges and row security, and soundness against them), `AuditCompletion` (every way of filling in the missing facts), `AuditMeaning` (when each verdict, exposure line and gap is given), `Dependents` (the recursive query over rewrite rules), `CatalogReads` (reads under savepoints) |
| Apply protocol | `ApplyProtocol` (any number of appliers, step by step), `ApplyRoute` (one applier as the code runs it, refining the protocol) |
| What the routes compare | `Rows`, `Filters`, `Additions`, `Policies`, `Grants`, `RoleChecks`, `FunctionOwner`, `Deparse`, `DeparseMeaning`, `Probes`, `CommonChecks` (what 0016, 0017 and 0018 share), `ChecksMeaning` (what their lookups find), and the routes `Route0010`, `Route0011`, `Route0013` (its new tables in `NewTables`), `Route0014`, `Route0016`, `Route0017`, `Route0018` (its pre-checks' lists in `Route0018PreChecks`, a reading they accept in `Route0018Ready`, what they look for in `Route0018Meaning`); one route after another in `RouteChain`; what 0018 prints in `Redaction`, in `RedactedNames` for names of any characters, and in `RoleNamePositions` by where a name stands |
| Out-of-sample pair collector | `OosCollector` (values), `OosRun` (the mutable run), `OosMeaning` (what is stored, and when) |
| Derivatives collector | `Derivatives` (values), `DerivativesRun` (the shared, mutable rows), `DerivativesMeaning` (what is written, and what each row says) |
| Front end | `ReceiptWatch` (the event machine), `SaveReceipts` (its mutable objects), `ReceiptMeaning` (what each event does), `CardPlacement` |

Where the source updates state in place, a class or a loop does the same and is proved equal to a
function of the values; the main results are lemmas about those functions. The modules whose names end in
`Meaning`, and `RoleNamePositions`, say what the functions compute from the inputs alone, without calling them.

## Results that need care

- The auditor's recursive query stops at depth 16, although the documentation of `assess` promises "any
  depth". `Dependents.CompleteExactlyWhenTheBoundSuffices` says exactly when the bound loses nothing, and
  `Dependents.LongChainIsMissed` gives a chain of views that is not listed.
- Policy names are injective for table names without a slash; `Policies.SlashesCollide` shows that the
  condition is needed.
- A redaction is complete exactly when neither word of the placeholder is itself a name to withhold. A
  second publication changes nothing exactly when no name to withhold shifts into sight: where a withheld
  name ends the first `acl=` of a fingerprint's detail, a second reading splits at a later one.
  `Redaction.ASecondPublicationCanDiffer` gives a payload where it does.
- The out-of-sample collector's guard against an occasion that exists is never needed by one run at a time: a
  place that is due has nothing stored of the current bar (`OosMeaning.NothingIsStoredOfADueBar`).
- The final card layout depends on the completion order exactly through the cards answered into the
  group that is not theirs.

## Model

| member | source | states |
|---|---|---|
| Audit.Assess | scripts/audit_table_privileges.py:881-1106 | the nested loops over tables, roles, commands, policies and columns compute exactly the report, exposures, gaps and verdict the semantics below are proved about |
| Audit.Known | scripts/audit_table_privileges.py:910-915 | a missing fact is answered unsafely and recorded as a gap, a known one is neither |
| AuditSemantics.NoReachableRowIsHidden | scripts/audit_table_privileges.py:906-907 | soundness: with any part of the facts missing, whatever the policy expressions and the row, a row an API role can reach with a command is an exposure line of that table, role and command |
| AuditSemantics.NoRealtimeEventIsHidden | scripts/audit_table_privileges.py:1047-1066 | the same for what a published table's change events carry, deleted keys included; when the publications could not be read, that is a gap |
| AuditSemantics.ClosedVerdictsAreClosed | scripts/audit_table_privileges.py:1004-1036 | NO_PRIVILEGE and RLS_DENIES_ALL mean that no row is reachable under any policy expressions |
| AuditSemantics.NotExposedMeansUnreachable | scripts/audit_table_privileges.py:1100-1105 | the verdict NOT_EXPOSED means that no fact was missing and no row of any audited table is reachable |
| AuditSemantics.CompleteExposuresAreReal | scripts/audit_table_privileges.py:1007-1049 | with every consulted fact known, a command is exposed if and only if some policy expressions make rows reachable with it |
| AuditSemantics.OpenFiltersNothing | scripts/audit_table_privileges.py:1010-1011 | OPEN means that row-level security filters nothing, whatever the policies say |
| AuditCompletion.CompletionAddsNoExposure | scripts/audit_table_privileges.py:906-915 | monotonicity: every exposure of every completion of the missing facts is already reported for the partial facts |
| AuditCompletion.NoGapsSettlesTheAssessment | scripts/audit_table_privileges.py:910-915 | with no gap, every completion gives the very same assessment: no unrecorded fact was consulted |
| AuditSemantics.RefusedReadIsAGap | scripts/audit_table_privileges.py:942-948 | a refused optional read always prevents the verdict NOT_EXPOSED |
| AuditMeaning.VerdictMeans | scripts/audit_table_privileges.py:1000-1036 | each of the six verdicts of a role and a command is given if and only if the facts say so: the privilege, the columns, what filters, which permissive policies could admit, and the schema |
| AuditMeaning.ExposuresAre | scripts/audit_table_privileges.py:1045-1098 | a line is in the exposures if and only if its command, change event, view row or parent row is there, of an API role, and was not refuted |
| AuditMeaning.GapsAre | scripts/audit_table_privileges.py:910-948 | the gaps are exactly the facts that were asked and not known, the unknown holdings of views and parents, and the refused reads |
| AuditMeaning.NotExposedMeans | scripts/audit_table_privileges.py:1066-1106 | each overall verdict is given if and only if there are lines, gaps or neither; NOT_EXPOSED means that every view and parent row of an API role was answered with no |
| AuditMeaning.EntriesMean | scripts/audit_table_privileges.py:950-1044 | one entry per table, in order, with each of the three roles' privileges, ownership, bypass, schema usage and command reports |
| Dependents.FindDependents | scripts/audit_table_privileges.py:122-141 | the fixpoint loop returns exactly the relations reached by a chain of rewrite rules of at most 16 steps, each with every such depth |
| Dependents.CompleteExactlyWhenTheBoundSuffices | scripts/audit_table_privileges.py:120-141 | every dependent relation is listed if and only if no relation is first reached beyond the bound |
| Dependents.LongChainIsMissed | scripts/audit_table_privileges.py:899-900 | a chain of more than 16 views has a dependent that is not listed |
| CatalogReads.ReadCatalogs | scripts/audit_table_privileges.py:822-855 | a refused optional read costs no other: the reads end early only for a required one, and otherwise each query is answered or listed as refused exactly as if asked alone |
| ApplyProtocol.StepInv | scripts/apply_migration_0013.py:1383-1455 | every step of every applier, failures and lost commits included, keeps the protocol invariant |
| ApplyProtocol.AtMostOneCommit | scripts/apply_migration_0013.py:1383-1455 | over all interleavings of any number of appliers of a one-shot route, at most one commits, and the shared state is the initial one or one that passed every check against it |
| ApplyProtocol.EveryCommitWasChecked | scripts/apply_migration_0018.py:1128-1198 | even when a route is not one-shot, every commit passed the pre-checks and the post-checks against the state it found |
| ApplyProtocol.ReportsAreTruthful | scripts/apply_migration_0013.py:1823-1851 | True only if it committed; False only if it did not and never will, whatever still happens; UNKNOWN only after the attempt was marked; an acknowledged commit is reported True, and False means that none was attempted |
| ApplyProtocol.EarlyFailureReportsFalse | scripts/apply_migration_0013.py:1439-1441 | a failure before the commit was marked as attempted is reported False |
| ApplyProtocol.NestedReportsAreTruthful | scripts/apply_migration_0013.py:1840-1851 | over the nested records of a rehearsal, True means that one of them committed, False that none did and that none that has ended ever will, whatever still happens, and UNKNOWN that one was marked as attempted; one committed record makes it True, and it is False if and only if none was attempted |
| ApplyProtocol.UnknownCannotBeDecided | scripts/apply_migration_0013.py:1823-1851 | UNKNOWN says no less than is known: for every state and result the checks accept, two runs leave the same record, and in one the result is committed and in the other it never is |
| ApplyProtocol.LaterAppliersAreRefused | scripts/apply_migration_0018.py:1208-1217 | once anything is committed by a one-shot route, every later applier's pre-checks refuse |
| ApplyProtocol.OneCommitExactlyWhenNotRepeatable | scripts/apply_migration_0018.py:1208-1230 | from a given state, with any two or more appliers, every run commits at most once if and only if no accepted result can be accepted again |
| ApplyRoute.ApplyInOneTransaction | scripts/apply_migration_0018.py:1128-1198 | one applier, stopped anywhere or nowhere, performs a run of the protocol that ends in its record and its database; it applies if and only if every check passes and nothing fails |
| ApplyRoute.CommitTransaction | scripts/apply_migration_0013.py:1439-1441 | marking, committing and recording, with a failure before, during or after COMMIT, ends in the state the protocol allows |
| Rows.UnchangedFailures | scripts/apply_migration_0018.py:1718-1741 | nothing is reported exactly when the rows are the same in the same order; otherwise exactly the keys gone, appeared and changed, or the order |
| Rows.LastWins | scripts/apply_migration_0018.py:1718-1741 | of rows with one key, the one compared is the last read |
| Additions.AdditionFailures | scripts/apply_migration_0014.py:939-981 | nothing is reported exactly when the older rows are as they were, in order, and each new one is there once and as reviewed |
| Additions.AdditionsMean | scripts/apply_migration_0014.py:939-981 | the new list is accepted if and only if its rows of no new name are the old list, in order, and each new name has exactly one row, which passes its review |
| Additions.NothingElseWasAdded | scripts/apply_migration_0014.py:982-1006 | and then the list is longer by exactly the new rows |
| Additions.ListFailures | scripts/apply_migration_0011.py:772-790 | a list that must be exactly the reviewed one: nothing is reported exactly when its names are these, in order and distinct, and each row is as reviewed |
| Policies.ExpectedPolicies | scripts/apply_migration_0017.py:192-211 | the nested loops fill the dict with one policy per granted command, in order |
| Policies.NamingIsInjective | scripts/apply_migration_0017.py:209-210 | for table names without a slash, two grants never ask for one policy name |
| Policies.OnePolicyPerGrantedCommand | scripts/apply_migration_0016.py:186-212 | exactly one distinct policy per (role, table, command) granted, each with its command, role and expressions, and no other |
| Policies.PoliciesAreTheGrants | scripts/apply_migration_0016.py:186-212 | a table's select, insert, update or delete policy for a role is there if and only if that privilege is granted, under its name, permissive, for that role alone, with USING for reads, updates and deletes and WITH CHECK for inserts and updates |
| Policies.AddedExactly | scripts/apply_migration_0017.py:979-983 | for grants contained in wider ones, the added policies are exactly those of the added grants |
| Policies.CountByTable | scripts/apply_migration_0017.py:1354-1357 | the loop counts, per table, exactly the items whose name starts with it |
| Policies.CountsAreGrants | scripts/apply_migration_0017.py:1347-1369 | the count recovered from the names is the number of commands granted on the table |
| Grants.PolicyCounts | scripts/apply_migration_0018.py:116-160 | the reviewed grants call for 40 policies in 0016 and 44 in 0017, 4 of them added |
| RoleChecks.GrantsFailures | scripts/apply_migration_0017.py:1063-1089 | nothing is reported exactly when every role was read once for every object and holds exactly its list |
| ChecksMeaning.WantedIsListed | scripts/apply_migration_0017.py:1080-1086 | the privileges wanted of a role on an object are those its reviewed list names |
| RoleChecks.SameHoldings | scripts/apply_migration_0018.py:1336-1362 | two readings that pass are the same rows, in some order |
| RoleChecks.PoliciesPostCheckFailures | scripts/apply_migration_0017.py:1289-1299 | nothing is reported exactly when the older policies are unchanged and each added one is as reviewed |
| RoleChecks.SecurityPostCheckFailures | scripts/apply_migration_0016.py:1261-1283 | nothing is reported exactly when nothing but the policy counts changed, and each is the count read for its table and the number of policies added on it |
| RoleChecks.EachCountGrows | scripts/apply_migration_0017.py:1347-1369 | with each table read once, that is: every row's own count grew by the policies added on its table |
| RoleChecks.MembershipsPostCheckFailures | scripts/apply_migration_0016.py:1121-1157 | nothing is reported exactly when no membership is gone and the new ones are one writer row and, unless superuser, the four creator rows; an applier that was not read once has none to be given |
| ChecksMeaning.MembershipsMean | scripts/apply_migration_0016.py:1121-1157 | membership by membership: every old one is kept, and the new ones are one grant of the writer to authenticator, the applier's own or for a superuser anyone's, and otherwise ADMIN on each of the four roles |
| RoleChecks.MembershipsUnchangedFailures | scripts/apply_migration_0018.py:1613-1633 | nothing is reported exactly when the memberships are the same in the same order |
| FunctionOwner.FunctionPostCheckFailures | scripts/apply_migration_0016.py:1225-1258 | nothing is reported exactly when one function is read, with its new owner, its body, and its EXECUTE list in order: the old entries but the owner's, the new owner's and the writer's |
| FunctionOwner.SortedOnce | scripts/apply_migration_0016.py:1236-1239 | a set has one sorted list, so the comparison of lists is one of sets |
| ChecksMeaning.LessMeans | scripts/apply_migration_0016.py:1236-1239 | the order of the list is decided at the first difference, by code point, or by the shorter |
| Deparse.LiteralsAreReadBack | scripts/apply_migration_0014.py:428-456 | the literal extractor undoes the printer: whatever the literals contain, and whatever the code between them is but quotes, it returns exactly their values |
| Deparse.ComparisonsAreReadBack | scripts/apply_migration_0014.py:434-468 | the comparisons are returned in order, none split and none read inside a literal |
| Deparse.NumbersAreReadBack | scripts/apply_migration_0014.py:430-462 | the numbers (and 0013's integers) are exactly the stand-alone ones of the text with every literal emptied |
| DeparseMeaning.NumbersStandAlone | scripts/apply_migration_0014.py:430-462 | a text is taken as a number if and only if it is digits, or digits, a point and digits, and stands in the emptied text with no letter, digit, underscore or point on either side; so for 0013's integers, without fractions |
| DeparseMeaning.NumeralsAreRead | scripts/apply_migration_0013.py:1060-1074 | reading a decimal numeral gives the number it was written for |
| Deparse.LiteralsNeverLeak | scripts/apply_migration_0013.py:1060-1074 | definitions that differ only inside their literals have the same numbers and comparisons |
| Probes.RunConstraintProbes | scripts/apply_migration_0013.py:1458-1484 | whatever each statement does, the loop leaves rows, savepoints and usability as they were, and records for each probe, in order, what it shows alone |
| Probes.ProbeFailures | scripts/apply_migration_0013.py:1487-1500 | nothing is reported exactly when every outcome is the reviewed one, in order |
| Probes.ProbeConstraints | scripts/apply_migration_0013.py:1426-1429 | run and verdict together: no failure exactly when every constraint behaves as reviewed, and nothing is left behind |
| Probes.OrderDoesNotMatter | scripts/apply_migration_0013.py:675-680 | the verdict is the same for the probes in any order |
| ApplyProtocol.AGateMakesItOneShot | scripts/apply_migration_0013.py:1383-1437 | a route whose pre-checks need a gate open that its post-checks need shut is committed at most once, and every later applier finds the gate shut |
| Route0013.RelationPreCheckFailures | scripts/apply_migration_0013.py:1519-1535 | nothing is reported exactly when each relation was read and none exists; "not a first apply" exactly when one does, and only that exactly when every count could be read |
| Route0013.RelationPostCheckFailures | scripts/apply_migration_0013.py:1579-1590 | nothing is reported exactly when each relation is there once, a true 1 and not True |
| Route0013.PreCheckFailures | scripts/apply_migration_0013.py:1503-1547 | the list is empty exactly when the reading passes, names the gate exactly when a relation is there, and nothing else exactly when the rest could be read |
| Route0013.PostCheckFailures | scripts/apply_migration_0013.py:1550-1576 | nothing is reported exactly when the relations are there, the new tables are just what was reviewed and nothing else changed |
| NewTables.SecurityFailures | scripts/apply_migration_0013.py:1593-1603 | nothing is reported exactly when both tables were read, each with the reviewed security |
| NewTables.ColumnFailures | scripts/apply_migration_0013.py:1606-1631 | nothing is reported exactly when the columns are the reviewed ones, in order, with every flag off |
| NewTables.ConstraintFailures | scripts/apply_migration_0013.py:1634-1677 | nothing is reported exactly when the constraints are the reviewed ones, validated, not deferrable, with just their literals and integers, and none is a foreign key |
| NewTables.PrintedDefinitionPasses | scripts/apply_migration_0013.py:1661-1676 | a printed definition passes exactly when its literals and its integers are the reviewed ones |
| NewTables.IndexFailures | scripts/apply_migration_0013.py:1680-1707 | nothing is reported exactly when the indexes are the reviewed ones, of the one structure |
| NewTables.CreatedFailures | scripts/apply_migration_0013.py:1550-1566 | nothing is reported of the new tables exactly when each is just what was reviewed, empty, and every probe showed what it should |
| Route0013.AppliedIsRefused | scripts/apply_migration_0013.py:1503-1535 | what passed is refused as not a first apply and for nothing else |
| Route0013.AppliedAtMostOnce | scripts/apply_migration_0013.py:1383-1455 | over every run 0013 is committed at most once, on a reading that passed, and then every applier is refused as not the first, and for nothing else |
| CommonChecks.RolesFailures | scripts/apply_migration_0018.py:1274-1302 | nothing is reported exactly when authenticator is there, the four roles hold no attribute but an allowed login, and one role applies |
| CommonChecks.MembershipsFailures | scripts/apply_migration_0017.py:1033-1060 | nothing is reported exactly when the writer has its one membership and an applier who is no superuser holds ADMIN on the bundle owner |
| CommonChecks.SchemaGrantsFailures | scripts/apply_migration_0017.py:1102-1113 | nothing is reported exactly when the four roles, and no other, hold USAGE and not CREATE |
| CommonChecks.PoliciesFailures | scripts/apply_migration_0017.py:1116-1131 | nothing is reported exactly when every reviewed policy is there as reviewed |
| CommonChecks.ExecuteFailures | scripts/apply_migration_0018.py:1412-1425 | nothing is reported exactly when owner, writer and service_role may execute the function and none of the five that never may |
| ChecksMeaning.EntriesAreFiltered | scripts/apply_migration_0018.py:1412-1425 | the entries found for the barred grantees are exactly those whose text before the first "=" is one of them, in order |
| Route0016.RolesPreCheckFailures | scripts/apply_migration_0016.py:968-983 | the gate is named exactly when one of the four roles exists, and nothing else exactly when authenticator is there and the one applier may create roles |
| Route0016.FunctionPreCheckFailures | scripts/apply_migration_0016.py:993-1029 | nothing is reported exactly for migration 0015's function; the gate is named exactly when it is the bundle owner's SECURITY DEFINER function already, and then alone |
| Route0016.PreCheckFailures | scripts/apply_migration_0016.py:946-956 | the list is empty exactly when the reading passes, names the gate exactly when something of 0016 is there, and nothing else exactly when the rest is ready |
| Route0016.RolesPostCheckFailures | scripts/apply_migration_0016.py:1096-1118 | nothing is reported exactly when the four roles hold no attribute and every other role is as it was, in order |
| Route0016.PostCheckFailures | scripts/apply_migration_0016.py:1062-1093 | nothing is reported exactly when every part is as reviewed |
| Route0016.AppliedIsRefused | scripts/apply_migration_0016.py:968-1003 | what passed is refused as not a first apply, for every role, every policy and the function |
| Route0016.OnlyTheGateRefuses | scripts/apply_migration_0016.py:946-983 | and for nothing else, if and only if no row of a new role says that it is the applying one, which cannot be when each role is read once |
| Route0016.AppliedAtMostOnce | scripts/apply_migration_0016.py:873-943 | over every run 0016 is committed at most once, on a reading that passed, and what it leaves is refused as not a first apply |
| Route0017.NotBoth | scripts/apply_migration_0017.py:127-176 | the privileges before and after 0017 exclude each other |
| Route0017.GrantsPreCheckFailures | scripts/apply_migration_0017.py:1092-1099 | nothing is reported exactly for 0016's privileges, and the gate, alone, exactly for 0017's |
| Route0017.PoliciesPreCheckFailures | scripts/apply_migration_0017.py:1134-1141 | nothing is reported exactly when 0016's policies are as created and none of 0017's is there; the gate, alone, exactly when one is |
| Route0017.PreCheckFailures | scripts/apply_migration_0017.py:986-1000 | the list is empty exactly when the reading passes, names the gate exactly when something of 0017 is there, and nothing else exactly when the rest is ready |
| Route0017.ForecastPostCheckFailures | scripts/apply_migration_0017.py:1302-1344 | nothing is reported exactly when one function is as reviewed, and any other grantee may execute the bundle function too |
| Route0017.PostCheckFailures | scripts/apply_migration_0017.py:1224-1254 | nothing is reported exactly when every part is as reviewed |
| Route0017.AppliedIsRefused | scripts/apply_migration_0017.py:1092-1191 | what passed is refused as not a first apply, for the grants, every added policy and the function |
| Route0017.OnlyTheGateRefuses | scripts/apply_migration_0017.py:986-1000 | and for nothing else |
| Route0017.AppliedAtMostOnce | scripts/apply_migration_0017.py:899-969 | over every run 0017 is committed at most once, on a reading that passed, and what it leaves is refused as not a first apply and for nothing else |
| RouteChain.After0016 | scripts/apply_migration_0017.py:986-1000 | what 0016 leaves, 0017 goes on from if and only if nothing of 0017 is there, no new role is read as the applying one, the writer has the one membership, and of the function's other grantees service_role is one and neither barred role is |
| RouteChain.After0017 | scripts/apply_migration_0018.py:1208-1230 | what 0017 leaves, 0018 goes on from if and only if service_role holds what it held and the write surfaces are the known ones |
| Route0010.LegacyPreCheckFailures | scripts/apply_migration_0010.py:661-690 | passes exactly on the audited state where something is still held; "not a first apply" is said only alone |
| Route0010.PreCheckFailures | scripts/apply_migration_0010.py:598-616 | the list is empty exactly when the reading passes; the gate is named exactly when the tables are as measured and hold nothing, and then alone |
| Route0010.LegacyPostCheckFailures | scripts/apply_migration_0010.py:719-742 | nothing is reported exactly when every legacy table is closed and otherwise as it was |
| Route0010.SequencePreCheckFailures | scripts/apply_migration_0010.py:693-704 | nothing is reported exactly when the three sequences were read and PUBLIC holds nothing on them |
| Route0010.SequencePostCheckFailures | scripts/apply_migration_0010.py:745-762 | nothing is reported exactly when every sequence is closed and otherwise as it was |
| Route0010.PostCheckIsExact | scripts/apply_migration_0010.py:614-635 | given a passing reading, the post-checks accept exactly that reading with anon and authenticated emptied |
| Route0010.OnlyTheGateRefuses | scripts/apply_migration_0010.py:686-689 | on the applied state, "not a first apply" is the only failure |
| Route0010.AppliedAtMostOnce | scripts/apply_migration_0010.py:558-658 | 0010 is committed at most once, and leaves the initial reading or the intended result |
| Route0011.ColumnPostCheckFailures | scripts/apply_migration_0011.py:760-790 | nothing is reported exactly when the columns are those there were, in order, followed by the four reviewed rows with every flag off |
| Route0011.PreCheckFailures | scripts/apply_migration_0011.py:683-741 | the list is empty exactly when the reading passes, names the gate exactly when a new column or constraint is there, and nothing else exactly when the rest is ready |
| Route0011.PostCheckFailures | scripts/apply_migration_0011.py:744-757 | nothing is reported exactly when the columns and constraints were added as reviewed and nothing else changed |
| Route0011.PrintedDefinitionPasses | scripts/apply_migration_0011.py:809-819 | a printed definition passes exactly when its literals are the reviewed ones, however it is laid out and whatever operators it holds |
| Route0011.AppliedIsRefused | scripts/apply_migration_0011.py:716-729 | the applied state is refused for its new columns and constraints and for nothing else |
| Route0011.AppliedAtMostOnce | scripts/apply_migration_0011.py:610-680 | 0011 is committed at most once, and what it leaves is refused as not a first apply and for nothing else |
| Route0014.PrintedDefinitionPasses | scripts/apply_migration_0014.py:961-979 | a printed definition passes exactly when its literals, stand-alone numbers and comparisons are the reviewed ones |
| Route0014.PreCheckFailures | scripts/apply_migration_0014.py:849-916 | the list is empty exactly when the reading passes, names the gate exactly when something of 0014 is there, and nothing else exactly when the rest is ready |
| Route0014.PostCheckFailures | scripts/apply_migration_0014.py:918-936 | nothing is reported exactly when constraints, triggers and the function were added as reviewed and nothing else changed |
| Route0014.AppliedIsRefused | scripts/apply_migration_0014.py:849-858 | the applied state is refused for every constraint, trigger and the function, and for nothing else |
| Route0014.AppliedAtMostOnce | scripts/apply_migration_0014.py:776-846 | 0014 is committed at most once, and what it leaves is refused as not a first apply and for nothing else |
| Route0018PreChecks.PreCheckFailures | scripts/apply_migration_0018.py:1208-1230 | the list is empty exactly when the reading passes, and names "not a first apply" exactly when the result is already in place, and then nothing else |
| Route0018Meaning.AppliedMeans | scripts/apply_migration_0018.py:1233-1244 | 0018 is taken as applied if and only if service_role holds SELECT alone on each of the six tables, the two functions have no EXECUTE entry of it, and no write surface is left |
| Route0018Meaning.InventoryMeans | scripts/apply_migration_0018.py:1544-1578 | the write surfaces a first apply may find: per table and privilege what service_role held beyond SELECT, by server version, and just the two functions of the bundle's owner; besides them only column grants on the six tables |
| Route0018PreChecks.InventoryOmitted | scripts/apply_migration_0018.py:1526-1541 | exactly the write surfaces the revoke does not cover |
| Route0018.RevokedExecuteFailures | scripts/apply_migration_0018.py:1645-1666 | nothing is reported exactly when the one function is the same but for service_role's EXECUTE entry, filtered in order |
| Route0018.RevokedExactly | scripts/apply_migration_0018.py:1660-1665 | the entries wanted are the old ones at strictly rising places, every one but service_role's EXECUTE |
| Route0018.SecurityPostCheckFailures | scripts/apply_migration_0018.py:1669-1696 | nothing is reported exactly when service_role holds only SELECT on the six core tables and nothing else changed |
| Route0018.InventoryPostCheckFailures | scripts/apply_migration_0018.py:1699-1709 | one failure per write surface left, of any kind |
| Route0018.PostCheckFailures | scripts/apply_migration_0018.py:1581-1610 | nothing is reported exactly when every part passes |
| Route0018.PostCheckIsExact | scripts/apply_migration_0018.py:1581-1709 | given a passing reading, the post-checks accept exactly the intended result of it, the two EXECUTE lists filtered in order, up to the order of the grant rows |
| Route0018.IntendedIsAccepted | scripts/apply_migration_0018.py:1581-1610 | the intended revoke is never refused |
| Route0018.OnlyServiceRoleLosesExecute | scripts/apply_migration_0018.py:1645-1666 | after it the owner and the writer still execute both functions, and service_role neither |
| Route0018.AppliedIsRefused | scripts/apply_migration_0018.py:1208-1244 | whatever passed the post-checks is already applied to the next applier, and refused |
| Route0018.AppliedAtMostOnce | scripts/apply_migration_0018.py:1128-1198 | 0018 is committed at most once, and leaves the initial reading or the intended result |
| Route0018Ready.AFirstApplyIsPossible | scripts/apply_migration_0018.py:1208-1230 | the results above are about something: whatever the two function bodies are, there is a reading every pre-check accepts, and the post-checks accept its intended result |
| Redaction.CollectRoleNames | scripts/apply_migration_0018.py:788-808 | the walk, which adds to one set as it goes, collects exactly the names the next result is about |
| RoleNamePositions.NamesByPosition | scripts/apply_migration_0018.py:788-808 | a name is collected if and only if it stands, at any depth and through lists, under role, member or owner, as a detail of inventory_O, F or G, or in ACL text as grantee=privileges/grantor at the start or after a brace or comma |
| RoleNamePositions.NoNamedRoleIsLeft | scripts/apply_migration_0018.py:768-818 | so no name that stands at such a place and may not be reported is left anywhere in what is published, as a whole word of a string or key, but for the placeholder's own two words |
| RoleNamePositions.ReportableMeans | scripts/apply_migration_0018.py:760-777 | what may be reported: PUBLIC, the four API names, and pg_ or ucpe_ followed by 1 to 58 small letters, digits and underscores |
| RoleNamePositions.PlacesStay | scripts/apply_migration_0018.py:811-818 | nothing moves: what is at a place of the payload is at that place of what is published, put through the same replacement |
| Redaction.TokensAreTheText | scripts/apply_migration_0018.py:779-783 | reading a text as whole words and the characters between loses nothing and splits no word |
| Redaction.RedactionIsComplete | scripts/apply_migration_0018.py:768-785 | for names of one word each, no withheld name is left as a whole word in any key or string, if and only if neither word of the placeholder is itself to be withheld |
| RedactedNames.NoFramedNameIsLeft | scripts/apply_migration_0018.py:774-785 | whatever characters the names hold and in whatever order they are tried, no withheld name that begins and ends with a word and holds neither word of the placeholder stands as a whole in any key or string |
| RedactedNames.WordsAreACase | scripts/apply_migration_0018.py:779-785 | for names of one word each, the pattern's search is the word-by-word substitution the other results are about |
| RedactedNames.UnframedCanBeLeft | scripts/apply_migration_0018.py:779-783 | a name that begins with another character can be left, after one that was withheld |
| Redaction.ReportableNamesStay | scripts/apply_migration_0018.py:774-777 | reportable names are unchanged: every key and string keeps its place, and holds the reportable names it held, in the same order |
| Redaction.PublishingTwiceIsPublishingOnce | scripts/apply_migration_0018.py:768-785 | publishing again changes nothing if and only if no name to withhold stands in the ACL texts that come into sight where a detail's first "acl=" is broken by the placeholder |
| Redaction.NamesNotEndingInAcl | scripts/apply_migration_0018.py:803-808 | so it changes nothing when no withheld name ends in "acl" |
| Redaction.ASecondPublicationCanDiffer | scripts/apply_migration_0018.py:803-808 | a payload with such a name, published twice, differs from itself published once |
| OosCollector.EveryCellIsCountedOnce | scripts/collect_oos_pair_evidence.py:163-285 | for a matrix of any length and any answers, every cell is counted once, and the occasion, selection and prediction caps hold |
| OosCollector.Latest | src/crypto_probability_engine/persistence/repository.py:426-437 | the greatest stored reference close of the symbol and timeframe |
| OosCollector.DueBoundaryIsAPeriodLater | scripts/collect_oos_pair_evidence.py:295-323 | an occasion due on the clock is due on the bar: the boundary reached is three bars after the latest close, with the clock truncated and floored as the code does |
| OosCollector.OccasionsAreSpaced | scripts/collect_oos_pair_evidence.py:171-225 | over any number of runs with arbitrary clocks and failures, stored closes are on the bar, never go back, belong to one pair each and are at least three bars apart |
| OosCollector.WindowsAreBounded | scripts/collect_oos_pair_evidence.py:57-61 | a window of length T holds at most floor(T / period) + 1 occasions |
| OosCollector.InsertedPairsAreWhole | scripts/collect_oos_pair_evidence.py:201-225 | over any number of runs, an occasion never gets a third row, and one that any of them reported inserted holds exactly two, both of the run id reported |
| OosMeaning.InsertedExactlyWhen | scripts/collect_oos_pair_evidence.py:163-273 | a visited cell is INSERTED if and only if it is under the cap, every stored close of its place is at least three bars ago, the reference is live and of the current bar, nothing of that occasion is stored, and the pair, both analyses and the reply were good; NOT_DUE if and only if some close is less than three bars old |
| OosMeaning.TheFirstIsStored | scripts/collect_oos_pair_evidence.py:295-297 | so with an empty repository, a live reference of the current bar and good answers, the first occasion is stored |
| OosMeaning.VisitMeans | scripts/collect_oos_pair_evidence.py:163-273 | each of the nine classifications is given if and only if the rows, the clock and the answers say so; what is stored, pending and counted after each cell |
| OosMeaning.NothingIsStoredOfADueBar | scripts/collect_oos_pair_evidence.py:206-225 | a place that is due has no row of the current bar, so the guard against an existing occasion speaks only where another run stores between the two reads |
| OosMeaning.BoundaryMeans | scripts/collect_oos_pair_evidence.py:316-323 | the current boundary is the one multiple of the bar that the clock, truncated to its second, has reached and not passed |
| OosMeaning.CountersCount | scripts/collect_oos_pair_evidence.py:163-285 | the report's counters are the numbers of its cells of each kind |
| OosRun.Collector.PersistPair | scripts/collect_oos_pair_evidence.py:242-262 | one persist call at most, only after both analyses and within the cap |
| OosRun.Collector.Insert | scripts/collect_oos_pair_evidence.py:226-273 | whatever the analyses leave pending under the pair's run and whatever raises, that run's pending rows are dropped and no others |
| OosRun.Collector.Collect | scripts/collect_oos_pair_evidence.py:163-273 | the loop with its mutable counters computes the modelled run |
| OosRun.RunCollector | scripts/collect_oos_pair_evidence.py:119-285 | past a closed gate nothing is written and the report says nothing was attempted; otherwise the report and the rows are the modelled run's; exit code 0 exactly when nothing failed and the configuration was right |
| OosRun.RefusalMeans | scripts/collect_oos_pair_evidence.py:125-162 | when each refusal is given, and that its report counts nothing but its own failure; the run goes on if and only if it is enabled, confirmed, configured, frozen and ready |
| Derivatives.InfluenceIsFoundAtAnyDepth | scripts/collect_derivatives_evidence.py:593-605 | a value is refused exactly when some entry in it, however deep, influences a decision |
| DerivativesMeaning.RefusedExactlyWhenSomethingWeighs | scripts/collect_derivatives_evidence.py:593-605 | by position: a value is refused if and only if a way down through lists and mappings leads to an entry named decision_influence_frac that is not zero, or named with both "deriv" and "influence", in any case of letters |
| Derivatives.AllOrNothing | scripts/collect_derivatives_evidence.py:278-297 | one cell that is not ready stops the writing of all, and when every one is it starts; a dry run never writes |
| DerivativesMeaning.WritesExactlyWhenEveryCellIsSound | scripts/collect_derivatives_evidence.py:278-297 | the run makes a persist call if and only if it is no dry run, its repository opens and every cell is its own pending row, after the cutover and inside its window, of the named methodology and policy in shadow mode without influence, with nothing in its protected state that weighs |
| DerivativesMeaning.GuardMeans | src/crypto_probability_engine/derivatives_intel/cadence_guard.py:77-200 | when each verdict and reason of the guard is given, with the times it reports |
| DerivativesMeaning.PreflightMeans | scripts/collect_derivatives_evidence.py:392-473 | what each row says before anything is written, for each of the eight things it can say |
| DerivativesMeaning.WrittenMeans | scripts/collect_derivatives_evidence.py:491-524 | what the row of a sound cell says after its persist call |
| DerivativesMeaning.TallyCounts | scripts/collect_derivatives_evidence.py:348-381 | each count of the tally is the number of rows of its kind |
| DerivativesMeaning.CapMeans | scripts/collect_derivatives_evidence.py:384-389 | a cap is breached if and only if more than four rows are confirmed new |
| DerivativesMeaning.ResultIsTheGravest | scripts/collect_derivatives_evidence.py:636-665 | the result is the gravest failure of any row, and otherwise how the run completed |
| Derivatives.CapsAreNeverPassed | scripts/collect_derivatives_evidence.py:384-389 | with the at most four cells of a scope the insert caps are never passed |
| Derivatives.TallyAgreesWithExitCode | scripts/collect_derivatives_evidence.py:348-381 | two independent readings agree: no failure is counted exactly when the exit code is 0 |
| Derivatives.ExitZeroExactlyWhenAllStored | scripts/collect_derivatives_evidence.py:636-665 | a writing run exits with 0 if and only if every cell was ready and its storing confirmed; then every row is INSERTED or ALREADY_EXISTS and snapshots and duplicates add up to the cells |
| DerivativesRun.CellResult.Analyze | scripts/collect_derivatives_evidence.py:392-440 | the row is filled in place as modelled, and the cell is pending exactly when it was identified |
| DerivativesRun.CellResult.ApplyPreflight | scripts/collect_derivatives_evidence.py:443-488 | the guard, with its reason, window and times, and the safety invariants rewrite the row as modelled |
| DerivativesRun.CellResult.Persist | scripts/collect_derivatives_evidence.py:491-524 | the confirmation rewrites the row as modelled |
| DerivativesRun.PreflightCells | scripts/collect_derivatives_evidence.py:278-280 | through the shared rows, every result is preflighted once, and no other row changes |
| DerivativesRun.PersistCells | scripts/collect_derivatives_evidence.py:282-290 | through the shared rows, the writing loop does what is modelled, up to the first exception or breach |
| DerivativesRun.TallyResults | scripts/collect_derivatives_evidence.py:348-381 | the loop's counters are the modelled tally |
| DerivativesRun.RunCollector | scripts/collect_derivatives_evidence.py:198-327 | something is written if and only if the run is enabled, confirmed and configured and every cell is sound; on every path, the gates' included, a failure is counted exactly when the exit code is not 0 |
| ReceiptWatch.StepInv | frontend/app.js:881-949 | every event keeps the watch invariant |
| ReceiptWatch.TheMapHoldsTheLiveWatches | frontend/app.js:848-850 | in every run, a watch is in the map exactly while it is live, so a place has at most one |
| ReceiptWatch.RequestsAreBounded | frontend/app.js:912-915 | a watch sends one request and at most one more per delay, each only after an answer that said PENDING |
| ReceiptWatch.ALiveWatchIsShown | frontend/app.js:1420-1424 | on a timeframe surface, a live watch's cell is that of the card now shown there |
| ReceiptWatch.AStoppedWatchIsSilent | frontend/app.js:879-880 | a watch that was stopped or has ended never asks and never shows anything again |
| ReceiptWatch.OnlyItsOwnReceiptIsShown | frontend/app.js:854-865 | a cell changes only to the state of its live watch's own receipt, on the card now shown |
| ReceiptWatch.SelfDeleteIsSafe | frontend/app.js:942-945 | a watch that ends removes itself and no other |
| ReceiptWatch.ExpiryIsHeeded | frontend/app.js:2586-2591 | a 401 that answers a live watch's request always ends the session, and every watch |
| ReceiptMeaning.AnAnswerIsHeeded | frontend/app.js:938-950 | a live watch's receipt of its own run and a known state is shown in its cell; PENDING is asked again after 1, 2 and then 4 seconds; after any other answer the watch ends and leaves the map |
| ReceiptMeaning.AnEventStopsExactly | frontend/app.js:881-900 | an event stops exactly the live watches whose card it replaces or hides, or whose session it ends; every other one stays as it is, and in the map |
| ReceiptMeaning.AnEventStarts | frontend/app.js:917-952 | a card shown with a run and a Storage row, and nothing else, starts a watch that asks at once; and what becomes of the session |
| ReceiptMeaning.AnEventShows | frontend/app.js:1376-1402 | which card each place shows after each event |
| SaveReceipts.Page.CancelSaveReceipts | frontend/app.js:881-893 | the loop stops, clears and removes exactly the watches of the surface or place |
| SaveReceipts.Page.CancelAllSaveReceipts | frontend/app.js:896-900 | surface by surface, every watch is stopped |
| SaveReceipts.Page.WatchSaveReceipt | frontend/app.js:917-949 | what the place showed before is stopped, and a new watch is started only for a run with a Storage row |
| SaveReceipts.Page.Answered | frontend/app.js:930-946 | an answer, an expired session included, changes the objects as the machine does |
| SaveReceipts.Page.TimerFired | frontend/app.js:947 | the timer starts the next attempt and no other |
| SaveReceipts.Page.SignIn | frontend/app.js:2512-2522 | a new session begins with the next generation, as the machine does |
| SaveReceipts.Page.RenderTimeframePlaceholders | frontend/app.js:1398-1402 | replacing a surface's cards, and hiding the detail, stops their watches |
| CardPlacement.ReplaceInv | frontend/app.js:1376-1396 | whatever card is answered for whatever group, each timeframe keeps exactly one card and both groups stay in order |
| CardPlacement.IndexMeans | frontend/app.js:1390-1391 | the place of a timeframe in a group's order, and which group it is of |
| CardPlacement.ReplacedExactly | frontend/app.js:1376-1396 | an answer shows its card in its group in place of its timeframe's, and moves no other |
| CardPlacement.FinalLayout | frontend/app.js:1376-1440 | after any answers, one per timeframe at most, the cards shown are the answered ones in their groups and the placeholders of the rest at home; in each group the strays come first, in completion order, then its own in its order |
| CardPlacement.ForeignersDecideTheLayout | frontend/app.js:1390-1395 | two layouts are the same exactly when the same foreign cards stand in each group in the same order |
| CardPlacement.CompletionOrderMattersOnlyForStrays | frontend/app.js:1404-1440 | of the same answers, two completion orders end the same exactly when the cards that left home came in the same order |
| CardPlacement.HomeAnswersCommute | frontend/app.js:1404-1440 | when every card stays in its home group, every completion order ends in the same layout |
| CardPlacement.TwoStraysShowTheirOrder | frontend/app.js:1390-1395 | two answers commute if and only if they are not both foreign to one and the same group |
| CardPlacement.Target.ReplaceTimeframeCard | frontend/app.js:1376-1396 | finding, removing and inserting in place does what is modelled |
| CardPlacement.Target.RenderPlaceholders | frontend/app.js:1221-1263 | one loading card per timeframe, each group in its order |

## Left out

- Messages: a failure names its check, what it is about and its kind; the wording is not modelled.
- Reports carry more than is modelled: timings, version strings, SHA-256 digests and the run's provenance.
- SQL, the driver, git, files, hashing and the dispatch checks: query results are values, the driver is a step relation.
- Row columns are taken with the type their query gives them, so "is not a bool" and "is not an int" branches appear only where a count or a version is read.
- Audit.Assess: the served-schema list, PUBLIC grants, missing and duplicated tables are context in the report and are not modelled; neither is what a session's read-only check returns.
- AuditSemantics.NoReachableRowIsHidden: row security is modelled per statement and row, with its policies' expressions as arbitrary functions; leaky operators, row movement and INSERT ... ON CONFLICT are not.
- AuditCompletion.CompletionAddsNoExposure: a completion fills in facts; which optional reads were refused stays the same.
- ApplyProtocol.AtMostOneCommit: the advisory lock is PostgreSQL's, held from being granted to the end of the transaction; a server that loses a committed transaction is not modelled.
- ApplyProtocol.ReportsAreTruthful: the routes of scripts/apply_migration_0008.py, 0012, 0015 and 0019 and the evaluation seal report differently or repeat this protocol, and are not modelled.
- NewTables.CreatedFailures: the reviewed columns, constraints, indexes and probes of the two tables are a parameter, so their own data is not typed out; what is proved holds for any.
- RouteChain.After0016: the forecast function, which 0016 does not read, is an input.
- Deparse.NumbersAreReadBack: letters, digits and word characters are ASCII, and a definition's code holds no quoted identifier with a quote in it.
- Redaction.RedactionIsComplete: every collected name is a single word, as PostgreSQL's unquoted names are; RedactedNames has the general search. Two keys that become one key keep both values here, and only the later one in the source.
- Redaction.ReportableNamesStay: names are single words here; a withheld name of several words may hold a reportable one, which then goes with it.
- Redaction.PublishingTwiceIsPublishingOnce: names are single words here; with others a second reading can find names made of the placeholder and what is left beside it.
- OosCollector.OccasionsAreSpaced: the runs follow one another on one repository that starts without out-of-sample rows, and a persist call stores nothing but rows of its own pair; two runs at once are not modelled, so an occasion that exists is never met by a place that is due (OosMeaning.NothingIsStoredOfADueBar). A clock's float is read as whole microseconds.
- OosCollector.InsertedPairsAreWhole: a persist call stores at most its pair's two rows, and says OK only when both are stored.
- OosRun.Collector.Collect: the repository's row counter exists; its fallback, which cannot tell one row from two, is not modelled.
- DerivativesRun.CellResult.ApplyPreflight: the policy name and the cutover the guard writes are constants and are not kept; the methodology it writes back is the one it was asked about.
- DerivativesRun.RunCollector: the request caps and the allow-list check of the report are not modelled, nor is an exception from the clock, the settings or the run store.
- Derivatives.InfluenceIsFoundAtAnyDepth: lower case is ASCII.
- ReceiptWatch.ALiveWatchIsShown: nothing is claimed of the batch surface, where an overlapping failed batch replaces the cards without a second cancel; each answer is taken to name the timeframe asked for.
- SaveReceipts.Page.WatchSaveReceipt: the map of maps, surface then place, is one map keyed by both; finding the Storage row in the document is an input.
- CardPlacement.ReplaceInv: the branch for a missing group, which the placeholders always provide, is not modelled.
- Front-end rendering, texts and time formats; the calibration and watchlist panels.
- The auditor's rehearsal fixture and its expectations, and the small scanners and command-line tools.
