# Permission hub: a verified model

The hub keeps permissions of Databricks Unity Catalog (UC) and Microsoft Fabric side by side. It reads both
platforms, shows the difference, and writes selected rows from one to the other. This project models its
core in Dafny and proves what the rest of the program relies on.

| file | what it models |
|---|---|
| `DarRoles.dfy`, `DasUpsert.dfy` | OneLake data access roles: how they are read, how a table read is granted, how a row or column policy is upserted |
| `UcGrants.dfy` | UC grants: the order in which they are written, and the reader that collects them |
| `PairDiff.dfy` | collecting the Fabric side, normalising principals, merging both sides into buckets |
| `ApplyRows.dfy`, `ApplyLaws.dfy`, `DbxLaws.dfy`, `PolicyLaws.dfy`, `UcStatements.dfy`, `UcFilterLaws.dfy` | applying rows in either direction, dry or real, and what the next diff sees: towards Fabric, towards Databricks, and of a row filter in either direction |
| `RowPolicy.dfy`, `RowFilterLoop.dfy`, `Lexemes.dfy` | translating row filters both ways |
| `SqlTokens.dfy`, `SqlPredicates.dfy`, `SqlPrint.dfy`, `RowMeaning.dfy` | reading predicate text as a database does, and what the translated texts mean |
| `TagCondition.dfy`, `Abac.dfy`, `AbacLaws.dfy` | tag conditions, and expanding tag-driven policies to tables and columns |
| `Gate.dfy` | approvals and the audit log around a real apply, over whole runs of requests |
| `Drift.dfy` | snapshots of the diff and the drift between them |
| `Canonical.dfy`, `SourceWriters.dfy`, `FabricSync.dfy`, `Reconcile.dfy` | the stand-alone sync package: diff, conflict winners, and applying a diff to a platform of privileges or to Fabric's workspace roles, with calls that are refused, cannot be made, or raise |
| `SourceConverges.dfy`, `FabricConverges.dfy`, `EngineRuns.dfy` | when a reconcile converges, for any answers of the remote side, and what it comes to as the engine calls it |
| `Reset.dfy` | backup, cleanup and restore of a pairing |
| `Voiceover.dfy` | scheduling spoken cues and cutting silence from a recording |
| `Optional.dfy`, `PyDict.dfy`, `Text.dfy` | optional values, Python's ordered dictionary and string operations |

Code that updates something in place is a class or a method with a loop, proved equal to a function of the old
state; the laws are lemmas about that function. HTTP answers, clocks, ids and hashes are parameters. Where a law
needs hashes to tell their inputs apart, or ids to be new, the lemma says so in its `requires`.

Row predicates are read as a database does that knows a quote inside a literal only as a doubled quote: lexemes to tokens
to one tree. (Databricks also reads backslash escapes in literals, unless told otherwise; see "Left out".) The reader
undoes printing for every predicate, with literals of any text (`SqlPrint.ReadUndoesPrint`), so what a predicate means is
a property of its text.

Some promises do not hold for all inputs. For these there is an "if and only if" that says exactly when they hold,
and a lemma with a failing case:

- A restore undoes a cleanup exactly when everything that had something to take was read for the backup and its entry
  was carried out (`Reset.PartialRestoreUndoesCleanup`; failing case `Reset.UnreadableItemIsLost`).
- Towards Unity Catalog or Snowflake a reconcile converges, whatever the remote side answers, exactly when every grant of
  the diff is dispatched, takes effect and has a class that survives its own write and read, and every revoke is
  dispatched, takes effect and leaves no second privilege of its class (`SourceConverges.ConvergesExactly`; if every call
  is made and accepted: `SourceConverges.ReconcileConverges`; failing case `SourceConverges.ResidualPrivilegeSurvives`).
- As the engine calls it, without a workspace URL and without a connection, nothing is ever written to Unity Catalog or,
  unless there is a default connection, to Snowflake: it converges exactly when there is nothing to do
  (`EngineRuns.UnityCatalogIsNeverWritten`, `EngineRuns.SnowflakeIsNeverWritten`; failing case
  `EngineRuns.ContributorIsNotWritten`). Even with a connection no permission of Fabric is granted in Snowflake
  (`EngineRuns.SnowflakeOnlyRevokes`).
- Towards Fabric, the default direction, it converges, whatever the service answers, exactly when every desired
  permission is a workspace permission of a class that round-trips and is there already or finds its place free, no
  principal is to have two classes in one workspace, and every grant and revoke of the diff is dispatched and accepted,
  grants in a run that is not dry (`FabricConverges.FabricConvergesExactly`; if every call is accepted:
  `FabricConverges.FabricReconcileConverges`). A principal that is to change its role ends with none
  (`FabricConverges.MovedPrincipalEndsWithNothing`), permissions as the sources deliver them take every readable role
  away (`FabricConverges.SourceListsRevokeEverything`), and a dry run revokes too (`FabricConverges.DryRunRevokes`).
- The order of grants and revokes matters exactly when a winner's key is not desired (`SourceConverges.OrderMatters`;
  failing case under `target_wins`: `SourceConverges.TargetWinsDependsOnOrder`).
- Merging a member into a role widens access unless the role grants just the one table, and hides the readers
  that are stored under one of the other two member keys (`DarRoles.MergeIsExact`, `DarRoles.MergeKeepsReaders`;
  failing cases `DarRoles.SecondTableIsGiven`, `DarRoles.ReaderIsHidden`).
- One policy upsert takes nobody's access to a path away exactly when the path is the policy's own or nobody reads it
  only through the role that bears the policy's name (`DasUpsert.UpsertKeepsReadersExactly`).
- The row filter loop closes exactly when the normalised predicate passes validation and no principal contains a
  closing parenthesis (`RowFilterLoop.RowFilterLoopCloses`; failing case `RowFilterLoop.ParenthesisBreaksTheLoop`).
- Replacing parameters one at a time equals replacing them together exactly when no input column captures a later
  parameter (`RowMeaning.SequentialIsSimultaneous`; failing case `RowMeaning.CaptureGoesWrong`).
- Mapping parameters renames them and nothing else exactly when no string literal holds a word that is mapped
  (`RowMeaning.MappingRenamesExactly`; failing case `RowMeaning.LiteralIsRewritten`).
- The comment on inherited tags says a table's value overrides its schema's and its catalog's; this holds exactly when
  keys that differ only in case carry equal values (`Abac.TableOverSchemaOverCatalog`; failing case
  `Abac.CaseCanHideTheTable`).
- A row can be told from its text exactly when none of its fields contains a bar (`Drift.TextIsExact`; failing case
  `Drift.BarsCollide`). Fingerprints are exact for keys without line breaks (`Drift.FingerprintIsExact`; failing case
  `Drift.LineBreaksCollide`).
- Behind the gate a real request makes an apply exactly when its approval is approved and of its pairing and the diff is
  live and announced; direction and rows do not enter (`Gate.RealApplyExactly`; a run that uses an approval for no row in
  one direction for a row in the other: `Gate.ApprovalIsNotTiedToRows`).
- A cue without a hold makes `_plan_tighten` fail, because `SPEECH_PAD` is not defined in its file
  (`Voiceover.PlanTighten` returns `NameError` then).

## Model

| member | source | states |
|---|---|---|
| `DarRoles.OneLakeItem.GrantOneLakeDar` | app/services/pair_apply.py:388-480 | The role list changes only when the grant succeeds, and then by the merge of that member; every other outcome leaves it alone |
| `DarRoles.ScopesFromDarPaths` | app/services/pair_diff.py:922-949 | One scope per path in order, and the catalog scope when there is no path |
| `DarRoles.ScopeRoundTrip` | app/services/pair_apply.py:401-408 | The path a table scope is written to reads back as that scope if and only if the scope has three parts, names the paired catalog and its names can be path segments |
| `DarRoles.GrantCollectsOneKey` | app/services/pair_apply.py:447-465 | With hub-named roles that grant just their own path, a merge makes the reader collect exactly one more key, and "already granted" means the key is collected already; the precondition is kept |
| `DarRoles.MergeIsExact` | app/services/pair_apply.py:327-330 | Merging a new member collects that table for it and nothing else if and only if the role grants just that table |
| `DarRoles.SecondTableIsGiven` | app/services/pair_apply.py:447-465 | A role that grants two tables gives a new member of the one the other as well |
| `DarRoles.MergeKeepsReaders` | app/services/pair_apply.py:456-464 | The merge keeps the role's readers if and only if they are not stored under another member key |
| `DarRoles.ReaderIsHidden` | app/services/pair_apply.py:456-464 | A merge hides the reader of a role that keeps its members under another key |
| `DasUpsert.MembersForFineGrainedPolicy` | app/services/pair_apply.py:366-385 | The loops compute the members of the matching roles, one per object id, the last entry in the place of the first; or the caller when there are none |
| `DasUpsert.PolicyItem.UpsertDasConstraintRole` | app/services/pair_apply.py:483-559 | Succeeds exactly when read and write succeed and the upsert is not refused; then the list is the upserted one, otherwise the old one |
| `DasUpsert.PolicyMembersAreReaders` | app/services/pair_apply.py:366-385 | The members' ids are exactly the current readers of the path; the caller's alone when there are none |
| `DasUpsert.UpsertIsLocal` | app/services/pair_apply.py:536-550 | Every other role keeps its content and place, and the replaced role loses no member with an id |
| `DasUpsert.UpsertKeepsReadersExactly` | app/services/pair_apply.py:536-550 | An upsert keeps every reader of a path if and only if it is the policy's own path or nobody reads it only through the role that bears the policy's name |
| `DasUpsert.UpsertTwice` | app/services/pair_apply.py:483-559 | Repeating an upsert leaves the list unchanged, even in member order |
| `DasUpsert.RunsKeepReaders` | app/services/pair_apply.py:483-559 | Over every run of upserts no path loses a reader |
| `DasUpsert.RunsLeaveOthersAlone` | app/services/pair_apply.py:536-550 | Over every run a role whose name no policy uses stays as it is, in place |
| `UcGrants.UnityCatalog.GrantPrivileges` | app/services/pair_apply.py:844-863 | The grants are those of the calls completed before the first failure; success means all of them |
| `UcGrants.HeldAfter` | app/services/pair_apply.py:855-859 | After any calls each principal holds what it held plus exactly what these calls add for it on that securable |
| `UcGrants.GrantOpensParents` | app/services/pair_apply.py:905-922 | A completed grant lets the principal into every parent of the securable |
| `UcGrants.GrantStaysReachable` | app/services/pair_apply.py:915-922 | Stopped after any call, every holder of a data privilege can still get to it |
| `UcGrants.CallsCollect` | app/services/pair_diff.py:230-247 | Any calls add exactly the rows of their privileges on visited securables to what is collected |
| `UcGrants.PrivilegesReadBack` | app/services/pair_apply.py:52-71 | The privileges written for a class are read back as that class, and otherwise only as traversal |
| `UcGrants.TargetOfVisited` | app/services/pair_apply.py:876-895 | A scope the reader reports is the securable the writer grants on |
| `UcGrants.GrantIsCollected` | app/services/pair_apply.py:844-863 | A completed grant on a visited securable makes the row's own principal, scope and class collected, keeps all rows, and adds besides only traversal rows of that principal |
| `UcGrants.DbxCollector.Record` | app/services/pair_diff.py:230-247 | The keys grow by exactly one per known privilege of each named principal |
| `UcGrants.SecurablesAreVisited` | app/services/pair_diff.py:257-286 | The securables gone through are the catalog, the readable ones of its first 50 schemas, and the named ones of their first 50 tables |
| `UcGrants.CollectDbxRows` | app/services/pair_diff.py:226-306 | The plain rows collected are exactly those of the privileges held on visited securables |
| `PairDiff.Collector.RecordAssignment` | app/services/pair_diff.py:737-777 | A workspace role adds its workspace row and, on the paired catalog, its class, every lower class and traversal |
| `PairDiff.CollectFabricRows` | app/services/pair_diff.py:725-817 | The collected keys are exactly those of the assignments and of the roles, each row on Fabric only |
| `PairDiff.MergeRows` | app/services/pair_diff.py:1019-1034 | One row per key, flagged with exactly the sides the key was seen on |
| `PairDiff.ComputeDiff` | app/services/pair_diff.py:957-1050 | The buckets partition one row per normalised key by the sides it was seen on |
| `PairDiff.BucketOf` | app/services/pair_diff.py:80-86 | A row is in the bucket its two sides call for, in both directions |
| `PairDiff.BucketsPartition` | app/services/pair_diff.py:1044-1047 | The sizes of the three buckets add up |
| `ApplyRows.Estate.ApplyRows` | app/services/pair_apply.py:925-1234 | One action per row, in order; each row sees the state the rows before it left; a dry run changes nothing |
| `ApplyRows.Estate.ApplyConstraint` | app/services/pair_apply.py:939-1060 | A row with a constraint is announced, skipped, failed or written as its plan says, and what is reported fits what was done |
| `ApplyRows.Estate.ApplyToFabric` | app/services/pair_apply.py:1062-1204 | A plain row is routed to the item's roles, to a workspace role, or to neither, as its plan says |
| `ApplyRows.Estate.GrantFabricWorkspaceRole` | app/services/pair_apply.py:296-308 | A principal with a role is reported as granted and nothing changes; an unknown one is queued |
| `ApplyLaws.DryRunBounds` | app/services/pair_apply.py:925-1234 | Whatever a real run changes at a row, or reports as granted there, the dry run announced |
| `ApplyLaws.DryRunChangesNothing` | app/services/pair_apply.py:925-1234 | A dry run of any rows in either direction leaves both platforms and the identity queue as they were |
| `ApplyLaws.DryRunAnnounces` | app/services/pair_apply.py:867-873 | Exactly which rows are announced as writes |
| `ApplyLaws.NeverWritten` | app/services/pair_apply.py:945-965 | Unresolved tag policies, traversal rows bound for Fabric, schema rows and write or admin rows of a mirrored table are never written or reported as granted |
| `ApplyLaws.OnlyTheTargetChanges` | app/services/pair_apply.py:925-1234 | Over every run only the platform the direction points to changes |
| `ApplyLaws.TableRowsKeepAssignments` | app/services/pair_apply.py:867-873 | Table and schema rows never touch workspace assignments |
| `ApplyLaws.AssignmentsOnlyGrow` | app/services/pair_apply.py:296-308 | No run changes, removes or doubles an assignment; new ones go to principals without any |
| `ApplyLaws.AssignmentReadsBack` | app/services/pair_apply.py:32-43 | The role given for a class is collected on the paired catalog as that class |
| `ApplyLaws.RunsStayReachable` | app/services/pair_apply.py:1206-1233 | After any run of rows in either direction, each grant stopped after any of its calls, every holder of a data privilege can still get to it |
| `ApplyLaws.ReadIsCollected` | app/services/pair_apply.py:388-480 | One table read: collected if and only if reported as granted, and no other key changes |
| `ApplyLaws.RunIsCollected` | app/services/pair_apply.py:1158-1204 | After a real run over table and schema rows the Fabric rows are the rows before plus one table read for each row reported as granted |
| `ApplyLaws.ApplyThenDiff` | app/services/pair_diff.py:1019-1050 | In the next diff exactly the rows with a granted key that are on Databricks become in sync; every other row keeps its bucket, and only granted keys can be new |
| `ApplyLaws.GrantedRowIsInSync` | app/services/pair_diff.py:1019-1050 | A Databricks-only row keyed by its object id and reported as granted is in sync in the next diff |
| `PolicyLaws.FilterIsCollected` | app/services/pair_apply.py:821-841 | A row filter applied to Fabric adds, if reported as granted, exactly the key the Databricks side has for its translation and a table read for everybody the policy applies to, the caller if nobody reads the table |
| `PolicyLaws.FilterThenDiff` | app/services/pair_diff.py:351-425 | In the next diff exactly the rows with one of these keys can change their bucket or be new |
| `PolicyLaws.FilterIsInSync` | app/services/pair_diff.py:403-425 | A Databricks-only row filter reported as granted is in sync in the next diff |
| `DbxLaws.StepGrants` | app/services/pair_apply.py:1206-1233 | A row changes the grants by its completed calls and is reported as granted exactly when all of them complete |
| `DbxLaws.DbxRunIsCollected` | app/services/pair_apply.py:1206-1233 | After a real run towards Databricks the collected rows are those before plus those of the completed calls |
| `DbxLaws.GrantedIsCollected` | app/services/pair_apply.py:1206-1233 | Each row reported as granted is collected under its own key, and whatever else is new is traversal |
| `DbxLaws.DbxApplyThenDiff` | app/services/pair_diff.py:1019-1050 | In the next diff exactly the Fabric rows that a completed call reaches, names resolved by the directory, become in sync; only such keys can be new |
| `DbxLaws.GrantedRowIsInSyncOnDbx` | app/services/pair_diff.py:1019-1050 | A Fabric-only row reported as granted, whose name the directory maps to its principal, is in sync in the next diff |
| `UcStatements.SetIsRead` | app/services/pair_apply.py:689-698 | Once both statements of a filter are executed its table is described with exactly this filter, as long as nothing else sets a filter on the table or redefines the function |
| `UcStatements.OtherTablesStay` | app/services/pair_apply.py:689-698 | Every other table keeps its filter, unless it is filtered by the same function |
| `UcFilterLaws.OtherTableAvoids` | app/services/pair_apply.py:683-688 | With function names that tell their seeds apart, a filter of another table never touches this one |
| `UcFilterLaws.GrantedFilterIsDescribed` | app/services/pair_apply.py:763-784 | After a real run the table of a filter reported as granted is described with exactly this filter, unless a later row touches it |
| `UcFilterLaws.GrantedFilterIsInSync` | app/services/pair_diff.py:351-425 | A Fabric-only row filter reported as granted is in sync in the next diff if and only if its predicate passes validation and no member principal contains a closing parenthesis; otherwise it stays Fabric-only |
| `RowPolicy.MapFunctionParams` | app/services/fine_grained_policy.py:191-205 | The loop computes the sequential substitution, or the error for a missing or unsafe column |
| `RowPolicy.ReferencedColumns` | app/services/fine_grained_policy.py:171-183 | The loop computes the occurring columns, or the error for an unsafe one |
| `RowFilterLoop.UnwrapWrap` | app/services/fine_grained_policy.py:28-32 | Unwrapping undoes wrapping for every member list without a closing parenthesis |
| `RowFilterLoop.NormalizeSelect` | app/services/fine_grained_policy.py:163-168 | Normalising the emitted SELECT gives the normalised predicate back |
| `RowFilterLoop.ValidIsPlain` | app/services/fine_grained_policy.py:233-250 | A validated predicate is never taken for a wrapped one or a group test |
| `RowFilterLoop.BadListHoldsCall` | app/services/fine_grained_policy.py:223-230 | With a closing parenthesis in the list, what unwrapping leaves holds a call and so fails validation |
| `RowFilterLoop.RowFilterLoopCloses` | app/services/pair_apply.py:662-698 | The emitted filter, read back, has the canonical key of the Fabric row if and only if the predicate passes validation and no principal has a closing parenthesis |
| `RowFilterLoop.ParenthesisBreaksTheLoop` | app/services/pair_apply.py:662-698 | For the group `Sales (EMEA)` the filter is emitted and does not come back |
| `SqlTokens.LiteralText` | app/services/pair_apply.py:620-621 | Any text written by `_sql_string`, quotes included, is read as one literal with exactly that text |
| `SqlPredicates.OrMapped` | app/services/fine_grained_policy.py:191-205 | Reading commutes with renaming the names of a token list, for renamings that leave keywords alone |
| `SqlPredicates.ColsAreWords` | app/services/fine_grained_policy.py:171-183 | Every column a text reads is a word of that text, so looking for words finds it |
| `RowMeaning.SequentialIsSimultaneous` | app/services/fine_grained_policy.py:197-204 | One at a time equals all at once, for every word, if and only if no column captures a later parameter |
| `RowMeaning.CaptureGoesWrong` | app/services/fine_grained_policy.py:197-204 | x mapped to y and then y to z sends x to z |
| `RowMeaning.MappedIsSequential` | app/services/fine_grained_policy.py:191-205 | The mapping of a text maps each of its words and nothing else |
| `RowMeaning.MappedTree` | app/services/fine_grained_policy.py:191-205 | Every text that is read as a predicate, in any layout, is mapped to a text that is read as the same tree with the mapped words replaced, in names and inside string literals |
| `RowMeaning.MappingRenamesExactly` | app/services/fine_grained_policy.py:191-205 | It is the tree with its parameters renamed and nothing else if and only if every string literal stays as it is |
| `RowMeaning.MappingPreservesMeaning` | app/services/fine_grained_policy.py:191-205 | On every row the mapped text has the value of the text, its literals replaced word by word, with its parameters bound to the input columns; if no literal holds a parameter, the value of the text itself |
| `RowMeaning.LiteralIsRewritten` | app/services/fine_grained_policy.py:203-204 | For any parameter p and column c the body p = 'p' becomes c = 'c', which is false on a row where the body is true |
| `RowMeaning.ReferencedExactly` | app/services/fine_grained_policy.py:171-183 | The referenced columns are exactly the table columns that occur, in table order |
| `RowMeaning.GuardedRead` | app/services/pair_apply.py:646-651 | The emitted CASE text reads as the list of exactly these principals, un-doubled, and exactly this predicate |
| `RowMeaning.RowFilterMeaning` | app/services/pair_apply.py:646-698 | The emitted text, read as a filter function and called with the referenced columns only, has the predicate's value on the whole row for every listed member (for everyone when none is listed) and is true for everyone else |
| `TagCondition.ParseTagCondition` | app/services/abac_resolver.py:54-102 | Empty text is true, an unknown word or an ungrammatical text is rejected, and otherwise the tree of the text is returned |
| `TagCondition.ParseIsExact` | app/services/abac_resolver.py:89-97 | The parser accepts exactly the token lists of trees, and each has one tree |
| `TagCondition.MalformedIsRejected` | app/services/abac_resolver.py:94-97 | Unbalanced parentheses, operands side by side and operators without an operand are rejected |
| `TagCondition.PrintThenParse` | app/services/abac_resolver.py:54-102 | A condition printed with the fewest parentheses is parsed and keeps its meaning on all tags: AND binds tighter than OR |
| `TagCondition.EvalIsMonotone` | app/services/abac_resolver.py:99-100 | What holds does not become false when tags are added; it can at most raise an error |
| `Abac.TableOverSchemaOverCatalog` | app/services/abac_resolver.py:115-121 | Conditions on a table see its own value of each key, else its schema's, else the catalog's, if and only if keys that differ only in case carry equal values |
| `Abac.CaseCanHideTheTable` | app/services/abac_resolver.py:325-326 | Two keys that differ only in case make a schema's value hide the table's |
| `Abac.CandidateTables` | app/services/abac_resolver.py:186-200 | The loop lists the candidate tables of the attachment |
| `Abac.CandidatesAreCovered` | app/services/abac_resolver.py:174-200 | A table is a candidate if and only if the attachment covers it |
| `Abac.MatchAliases` | app/services/abac_resolver.py:253-261 | Each alias gets its matching columns; the evaluation raises exactly when one of them does |
| `Abac.ResolvePolicy` | app/services/abac_resolver.py:203-297 | The loops emit, table by table, what the resolution of the policy is, or raise where it raises |
| `AbacLaws.ResolutionIsExact` | app/services/abac_resolver.py:203-297 | A target is emitted if and only if the attachment covers the table, the condition holds, every alias matches a column, and it is the filter with its first matching inputs or a mask of a column of the masked alias |
| `AbacLaws.PlainPoliciesResolve` | app/services/abac_resolver.py:99-100 | Conditions in which no group stands directly behind an operand never raise |
| `AbacLaws.NoDuplicates` | app/services/abac_resolver.py:242-297 | Nothing is emitted twice when the listing repeats nothing |
| `AbacLaws.ResolutionIsMonotone` | app/services/abac_resolver.py:242-297 | Adding tags never removes a masked column or a filtered table, as long as neither resolution raises |
| `AbacLaws.PlainPoliciesAreMonotone` | app/services/abac_resolver.py:242-297 | For plain conditions nothing raises, so adding tags never loses a target |
| `AbacLaws.ColumnTagAdds` | app/services/abac_resolver.py:123-125 | A tag key the column lacks in any case only adds tags |
| `AbacLaws.TableTagAdds` | app/services/abac_resolver.py:115-121 | A tag key a table neither has nor inherits, added to the table, only adds tags |
| `AbacLaws.SchemaTagAdds` | app/services/abac_resolver.py:115-121 | The same for a schema and all its tables |
| `AbacLaws.CatalogTagAdds` | app/services/abac_resolver.py:115-121 | The same for the catalog and all its tables |
| `Gate.Hub.ApplyView` | app/routers/pairings.py:554-676 | Approvals, log, applies and mirror after a request are those the order of its steps gives: gate, live rows, start record, apply, marking, final record |
| `Gate.Hub.DecideRequest` | app/services/approvals.py:60-68 | Only a pending request is decided, and the answer tells whether it was |
| `Gate.RowsAreSelectedAndLive` | app/routers/pairings.py:613-628 | The rows applied are live rows of the source bucket, exactly those selected by key |
| `Gate.EveryApplyIsAnnounced` | app/services/audit_log.py:152-174 | In every run a real apply comes directly after a start record with its id, pairing, direction and size |
| `Gate.AppliesAreLiveSelectedAndBacked` | app/routers/pairings.py:571-660 | A request makes at most one real apply, only on a live diff without errors, on selected source rows, and behind the gate with an approved request of its pairing |
| `Gate.StatusMovesForward` | app/services/approvals.py:60-73 | Requests are kept, move only from pending to approved or rejected and from approved to executed, and start pending |
| `Gate.FinalStays` | app/services/approvals.py:60-73 | A rejected or executed request stays as it is for the rest of the run |
| `Gate.ApprovedWasDecided` | app/services/approvals.py:60-68 | Every approved or executed request was approved by a decision in the run |
| `Gate.OneApplyPerApproval` | app/routers/pairings.py:652-659 | An approval backs a second apply only if the first was not marked; where marking succeeds it backs at most one, and is executed then |
| `Gate.EveryApplyWasDecided` | app/routers/pairings.py:571-588 | With the gate on, every real apply of a run names an approval of its pairing that a decision granted |
| `Gate.RealApplyExactly` | app/routers/pairings.py:571-628 | Behind the gate a known real request adds a real apply if and only if its approval is approved and of its pairing and the diff is live, without errors and announced |
| `Gate.ApprovalIsNotTiedToRows` | app/routers/pairings.py:573-576 | A run from the start: an approval asked for in one direction and for no row, decided, backs an apply of a row in the other |
| `Drift.SnapshotStore.RecordSnapshot` | app/services/drift_service.py:46-83 | One snapshot is added, and the drift is measured against the latest one of the pairing |
| `Drift.TextIsExact` | app/services/drift_service.py:17-24 | Fields are the only ones with their joined text if and only if none of them contains a bar |
| `Drift.RowTextIsInjective` | app/services/drift_service.py:17-24 | A row without a bar shares its text with no row of other fields |
| `Drift.BarsCollide` | app/services/drift_service.py:17-24 | Every row whose principal contains a bar shares its text with the row of another principal and scope |
| `Drift.FingerprintIsExact` | app/services/drift_service.py:56-57 | For keys without line breaks fingerprints agree if and only if the same keys occur equally often, in whatever order |
| `Drift.LineBreaksCollide` | app/services/drift_service.py:56-57 | A row whose principal holds the text of another row and a line break shares its fingerprint with two rows |
| `Drift.LatestIsNewest` | app/services/drift_service.py:59-63 | The previous snapshot is one of the pairing with none newer by time and id |
| `Drift.ReplayIsExact` | app/services/drift_service.py:86-97 | Folding all reported drifts of a pairing from its first snapshot gives the keys of its last diff, whatever others recorded in between |
| `Drift.PairingsDoNotInterfere` | app/services/drift_service.py:59-63 | Leaving out the calls for other pairings changes nothing in what a drift is measured against |
| `Drift.UnchangedIsExact` | app/services/drift_service.py:79-82 | For keys without line breaks "unchanged" is reported if and only if the previous diff held the same keys equally often |
| `Drift.CountsAddUp` | app/services/drift_service.py:65-77 | The stored row count is the sum of the three bucket counts |
| `Reconcile.ComputeDiff` | permission-sync/src/reconciler/diff_engine.py:33-79 | Each key is listed once, in the list its membership calls for, with its latest data, and the conflicts are those of the last permission per securable |
| `Reconcile.ConflictResolver.ResolveAll` | permission-sync/src/reconciler/conflict_resolver.py:39-45 | The winners are those of the strategy; the manual strategy has none and writes every conflict down |
| `SourceWriters.PrivilegeWriter.UpdateUnityCatalog` | permission-sync/src/writers/unity_catalog_writer.py:22-40 | The privilege changes only if the URL has a scheme and the call is accepted; every error is caught and reported |
| `SourceWriters.PrivilegeWriter.ExecuteSnowflake` | permission-sync/src/writers/snowflake_writer.py:47-78 | Without a Snowflake name the item is skipped, with an unsafe identifier it is an error, an exception escapes exactly if opening the connection raises, and the privilege changes only if the statement is accepted |
| `SourceWriters.HeldAfterItems` | permission-sync/src/policy_weaver/policy_weaver_client.py:55-58 | After any items, whatever the answers, exactly the privileges of the items that take effect are added, or removed |
| `SourceWriters.CompletesExactly` | permission-sync/src/policy_weaver/policy_weaver_client.py:51-59 | A run reaches its end if and only if no item of it raises |
| `Reconcile.PolicyWeaverClient.Dispatch` | permission-sync/src/policy_weaver/policy_weaver_client.py:61-97 | One item changes the platform it is sent to and is recorded in the list its outcome names, or raises and is not recorded |
| `Reconcile.PolicyWeaverClient.ApplyDiff` | permission-sync/src/policy_weaver/policy_weaver_client.py:51-59 | For any answers: all grants and then all revokes up to the first exception that escapes, both platforms as these items leave them, and the outcome lists if there was none |
| `Reconcile.EachItemOnce` | permission-sync/src/policy_weaver/policy_weaver_client.py:61-97 | Each dispatched item lands in exactly one of the four lists |
| `Reconcile.FullReconcile` | permission-sync/src/orchestrator/sync_engine.py:91-120 | For any answers: the direction picks the sides, winners are appended to the grants, the apply is given no context, and both platforms and the report are those of that run |
| `SourceConverges.ConvergesExactly` | permission-sync/src/orchestrator/sync_engine.py:104-124 | For any answers, and wherever an exception ends the run: the keys read back are exactly the desired ones if and only if every grant of the diff is dispatched, takes effect and round-trips, and every revoke is dispatched, takes effect and leaves no second privilege of its class; under every strategy |
| `SourceConverges.AcceptedRun` | permission-sync/src/policy_weaver/policy_weaver_client.py:51-59 | When every call is made and accepted the platform holds what it held and the privileges granted, less those revoked |
| `SourceConverges.ReconcileConverges` | permission-sync/src/orchestrator/sync_engine.py:104-124 | When every call is made and accepted: if and only if every desired class round-trips and no revoked key is held through another privilege |
| `SourceConverges.SecondDiffIsEmpty` | permission-sync/src/reconciler/diff_engine.py:47-54 | Once the keys agree there is nothing to grant or revoke |
| `SourceConverges.OrderMatters` | permission-sync/src/policy_weaver/policy_weaver_client.py:55-58 | Revoking first gives the same result if and only if every winner is desired, which holds except under target_wins |
| `SourceConverges.TargetWinsDependsOnOrder` | permission-sync/src/policy_weaver/policy_weaver_client.py:55-58 | Under target_wins every conflict between two classes that round-trip ends differently when revokes come first |
| `SourceConverges.ShippedMatricesAreCoherent` | permission-sync/config/privilege_matrix.yaml:2-60 | The shipped matrices read back each privilege they write for a class that round-trips |
| `SourceConverges.ResidualPrivilegeSurvives` | permission-sync/src/orchestrator/sync_engine.py:104-124 | A revoke can leave a second privilege of the same class, so the reconcile does not converge |
| `EngineRuns.UnityCatalogIsNeverWritten` | permission-sync/src/orchestrator/sync_engine.py:120 | Without a workspace URL nothing changes whatever the remote side would answer, every item with a privilege is an error, every other one is skipped, and the desired keys are read back if and only if they were there already |
| `EngineRuns.ContributorIsNotWritten` | permission-sync/src/policy_weaver/policy_weaver_client.py:67-74 | One Contributor of Fabric and an empty catalog: the reconcile would converge if its calls were made, and leaves the catalog empty |
| `EngineRuns.SnowflakeOnlyRevokes` | permission-sync/src/writers/snowflake_writer.py:35-51 | With any connection: permissions of Fabric name nobody in Snowflake, so it converges if and only if every desired key is there already and every revoke clears its key |
| `EngineRuns.SnowflakeIsNeverWritten` | permission-sync/src/orchestrator/sync_engine.py:120 | Without a connection nothing changes, it converges if and only if there is nothing to do, and the run ends in an exception if and only if opening a connection raises for an item that gets that far |
| `EngineRuns.WorkspaceEditIsNeverWritten` | permission-sync/src/writers/snowflake_writer.py:11-18 | The class behind CREATE TABLE is never written to Snowflake, because a privilege of two words is no safe identifier |
| `FabricSync.FabricWriter.Write` | permission-sync/src/writers/fabric_writer.py:23-32 | A class without a workspace role is skipped, a dry run writes nothing, and a write adds the role only where the principal has none |
| `FabricSync.FabricWriter.RevokeWorkspaceRole` | permission-sync/src/writers/fabric_writer.py:48-57 | A revoke removes whatever role the principal has in the workspace |
| `FabricSync.AfterGrants` | permission-sync/src/policy_weaver/policy_weaver_client.py:55-58 | After any grants, whatever the answers, an occupied place is as it was, and a free one has the role of the first accepted permission for it |
| `FabricSync.AfterRevokes` | permission-sync/src/policy_weaver/policy_weaver_client.py:55-58 | After any revokes, whatever the answers, exactly the places of the accepted ones are empty |
| `FabricSync.ShippedFabricRoundTrips` | permission-sync/config/privilege_matrix.yaml:29-66 | With the shipped tables exactly the three workspace classes and write access survive a write and a read, and the tables are coherent |
| `FabricConverges.FabricConvergesExactly` | permission-sync/src/orchestrator/sync_engine.py:91-124 | For any answers, and wherever an exception ends the run: towards Fabric the keys read back are the desired ones if and only if each desired permission is of kind workspace with a class that round-trips and is there already or finds its place free, no principal is to have two classes in one workspace, every grant of the diff is dispatched in a run that is not dry and accepted, and every revoke is dispatched and accepted |
| `FabricConverges.FabricReconcileConverges` | permission-sync/src/orchestrator/sync_engine.py:91-124 | When every call is accepted in a run that is not dry: if and only if each desired permission is placed like that and no principal is to have two classes in one workspace |
| `FabricConverges.EngineReconcilesFabric` | permission-sync/src/orchestrator/sync_engine.py:95-120 | A reconcile of the engine that writes Fabric leaves every privilege of the source alone |
| `FabricConverges.SourceListsRevokeEverything` | permission-sync/src/orchestrator/sync_engine.py:91-120 | Permissions that are not of kind workspace converge only if there are none, and take away every workspace role that is read |
| `FabricConverges.DryRunRevokes` | permission-sync/src/policy_weaver/policy_weaver_client.py:80-97 | A dry run gives no role and takes away exactly those that are read and not desired |
| `FabricConverges.MovedPrincipalEndsWithNothing` | permission-sync/src/writers/fabric_writer.py:34-57 | A principal that is to change its role in a workspace ends without any |
| `Reset.Console.Capture` | scripts/backup_permissions.py:42-110 | The backup holds the roles and assignments of everything that could be read, and nothing of the rest |
| `Reset.Console.Cleanup` | scripts/permission_reset.py:98-166 | A dry run writes nothing; wherever a run stops, what is gone is exactly the roles of some readable items and the removable privileges of some readable securables of the chosen side, and all of them when it finishes |
| `Reset.Console.Restore` | scripts/permission_reset.py:169-230 | A dry run writes nothing; otherwise exactly the entries carried out are put back, without server fields and system-generated groups excepted: a failing role write ends the run, a failing grant call is passed over |
| `Reset.PartialRestoreUndoesCleanup` | scripts/permission_reset.py:169-230 | Whatever part of the backup is carried out: restoring gives the original grants, and the original roles up to id and etag, if and only if everything that had something to take was read for the backup and its entry carried out |
| `Reset.RestoreUndoesCleanup` | scripts/permission_reset.py:169-230 | When all of the backup is carried out: if and only if nothing that was cleared was unreadable for the backup |
| `Reset.UnreadableItemIsLost` | scripts/backup_permissions.py:42-110 | An item that could not be read, is cleared and then restored has lost its role |
| `Reset.RestoreTwiceIsRestoreOnce` | scripts/permission_reset.py:169-230 | A second restore changes nothing |
| `Reset.NoSessionTouchesSystemGroups` | scripts/permission_reset.py:44-50 | No sequence of cleanups and restores, in any order and however they end, changes a workspace role or what a system-generated group holds |
| `Reset.SystemPrincipalsAreSafe` | scripts/permission_reset.py:44-50 | Corollary of the contracts of `Cleanup` and `Restore`: in one cycle protected principals keep their privileges through the cleanup, system-generated ones through the restore as well, and workspace roles never change |
| `Voiceover.ScheduleWithoutOverlap` | scripts/add_voiceover.py:68-81 | No cue moves earlier, consecutive lines are at least the pause apart, and a cue moves only as far as that needs |
| `Voiceover.ScheduleIsEarliest` | scripts/add_voiceover.py:68-81 | Every other schedule with these two properties starts each cue no earlier |
| `Voiceover.CaptionWindows` | scripts/add_voiceover.py:125-133 | The windows are ordered, disjoint and inside the video, and their union is exactly that of the captions |
| `Voiceover.KeepSegments` | scripts/add_voiceover.py:135-150 | Kept segments are ordered, disjoint and inside the video, every window lies in one, and the silence kept before each window and at the end is exactly the bounded amount |
| `Voiceover.MapInstant` | scripts/add_voiceover.py:153-166 | A new timestamp is the kept length before the old one |
| `Voiceover.PlanTighten` | scripts/add_voiceover.py:111-168 | The plan is faithful: such windows and segments exist, and each timestamp is the kept length before it |
| `Voiceover.KeptIsMonotoneAndShort` | scripts/add_voiceover.py:153-166 | The map of instants never runs backwards and never stretches time |
| `Voiceover.KeptIsExactInside` | scripts/add_voiceover.py:157-163 | Inside one kept segment the output runs at the speed of the video |
| `Voiceover.FaithfulPlanIsTimeMap` | scripts/add_voiceover.py:111-168 | New timestamps are monotone, never later than the old ones, never further apart, and exact inside a caption |

## Left out

- HTTP status texts, tokens, retries, thread pools and the start-up of a SQL warehouse: remote answers are parameters, writes are state updates.
- Directory lookups: a function from name to optional id, or an answer given with the row. Only answers of the kind the code handles occur; exceptions that escape `apply_rows` occur in `Gate` only, as a raised apply.
- Column masks: their mask literals and SQL text are not modelled, only that they are applied, skipped or failed like row filters.
- The hashes in role and function names: names are a function of the path, or of the hashed text, told apart where a law needs it.
- The development-only removal of group predicates, which loses them on purpose: production setting only.
- `DasUpsert.RunsKeepReaders`: needs policy role names that stand for one path each and are not borne by roles of another path, because an upsert replaces the first role of that name; the exact condition of one upsert is `DasUpsert.UpsertKeepsReadersExactly`.
- `DasUpsert.UpsertTwice`: the caller's own entry is complete, as the token lookup makes it.
- `RowMeaning.MappingPreservesMeaning`: for names that are not keywords. Names are compared with case.
- `RowMeaning.RowFilterMeaning`: the meaning is that of the normalised query, because normalising collapses white space inside string literals too.
- `SqlPredicates.OrMapped`: the reader knows comparisons, IN, BETWEEN, LIKE, IS NULL, the connectives and parentheses over names, numbers, string literals, NULL and truth values; names in double quotes, qualified columns, arithmetic and function calls are not read, and a backslash in a literal is an ordinary character.
- `UcGrants.GrantIsCollected`: names without dots and blanks around them, for securables inside the reader's limits of 50.
- `DarRoles.GrantCollectsOneKey`: needs hub-named roles that grant just their own path, because `_dar_role_matches` takes values over all rules together while the reader keeps rules apart.
- `ApplyLaws.RunIsCollected`: plain table and schema rows; catalog rows are covered by `ApplyLaws.AssignmentsOnlyGrow` only, because a principal that has a role is reported as granted without any change.
- `ApplyLaws.ApplyThenDiff`: rows keyed by object id; a group keeps its name as its key and stays in its bucket.
- `PolicyLaws.FilterIsCollected`: the policy role's name, a hash of the policy, is borne only by roles written for the same policy.
- `UcFilterLaws.GrantedFilterIsInSync`: the words of the two statements are not spelt out; Unity Catalog is taken to describe a function and a filter as they were last set.
- `DbxLaws.DbxApplyThenDiff`: other rows of the Databricks side, such as constraints, are the same in both diffs.
- `PairDiff.ComputeDiff`: the display order of the rows, and the cache; abstract and resolved tag policy rows and UC row and column constraints enter as given rows.
- `UcGrants.CollectDbxRows`: plain grants only, not constraints or tag policies; errors of the API end the run and are not modelled.
- `TagCondition.ParseTagCondition`: starts from words and function calls; splitting characters, line breaks, digits on their own, words run together such as `andor`, and the nesting limit of the Python parser are not modelled.
- `Abac.ResolvePolicy`: reading tags from the information schema; policies are given with their kind, specification and attachment taken out of the raw dictionary.
- `Drift.SnapshotStore.RecordSnapshot`: a stored row list that cannot be parsed, which counts as empty.
- `Drift.FingerprintIsExact`, `Drift.UnchangedIsExact`: need keys without line breaks; with them diffs can collide (`Drift.LineBreaksCollide`).
- `Drift.ReplayIsExact`: needs a clock that does not run backwards between two calls for one pairing.
- `Gate.OneApplyPerApproval`: requests run one after the other; two at the same time could both find the approval unused.
- `Reconcile.FullReconcile`: the fallback that normalises unknown spellings of privileges is not modelled; Snowflake users and roles are told apart by their canonical principal, and exceptions of token requests and of closing a connection do not occur.
- `FabricConverges.FabricReconcileConverges`: OneLake data access roles are switched off, as shipped, and workspace display names differ, because a permission names its workspace by display name only.
- `Voiceover.PlanTighten`: exact reals; rounding of timestamps to hundredths is left out, as are cutting and muxing the video.
- Rollback descriptors, the identity queue beyond what an apply adds, connectors, dashboards, Snowflake discovery, authentication, shortcut tables and the demo scripts: input, output or table lookups.
