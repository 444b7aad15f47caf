# galaxy_ng role and permission sync, modelled in Dafny

galaxy_ng keeps two authorization stores in step:

- the pulp store: `Role`, `UserRole`, `GroupRole`;
- the DAB (django-ansible-base) store: `RoleDefinition`, `RoleUserAssignment`, `RoleTeamAssignment`.

Django signal handlers do the mirroring. The engine has four parts:

- **Re-entrancy guard.** Two thread-local flags, `pulp_action` and `dab_action`. The context managers `pulp_rbac_signals` and `dab_rbac_signals` set one of them and restore its prior value. Every handler first checks `rbac_signal_in_progress()` and returns if either flag is set.
- **Role-existence mirror.** Creating or deleting a role on one side creates or deletes its same-named counterpart.
- **Permission diff.** `copy_permissions_role_to_role(A, B)` compares codenames and makes B's codenames match A's. The two `m2m_changed` handlers call it.
- **Assignment mirror.** A grant or revocation on one side (user or group/team, global or object-scoped) is repeated on the other.

The same handlers file has four `post_save` rules: for repositories, distributions, collections and namespace metadata.

Around the engine the project models four more pieces:

- the `migrate-dab-roles` command, which backfills pulp roles into role definitions;
- migration 0054, which seeds a DAB permission for every auth permission and copies roles into role definitions;
- migration 0055, which seeds the "Namespace Admin" role definition;
- the `create-remote` command, which creates a remote with its repository and distribution in one transaction.

Layout:

- `rbac_types.dfy`: the engine's rows. Permissions, sides, m2m actions, grants, assignments and errors.
- `grants.dfy`: the translation between a pulp grant and a DAB assignment, with both round trips.
- `perm_sync.dfy`: the permission diff and the re-entrant m2m cycle, as functions of the two role tables, with lemmas about what one call does.
  - The m2m handlers check the guard but never set it. So the mirrored `permissions.add`/`remove` fires the opposite handler, which copies back.
  - `depth` counts how many more nested signal deliveries the interpreter's recursion limit allows.
- `rbac_sync.dfy`: the class `Engine`.
  - It has the two role tables, the two permission catalogues, the two grant sets and the two flags.
  - Every handler is a method.
  - Every store write calls, explicitly, the handler Django would dispatch for it.
  - The m2m methods are proved to change the tables exactly as the `perm_sync.dfy` functions say.
- `post_save.dfy`: the repository, distribution, collection and namespace-metadata handlers.
- `dab_models.dfy`: the rows and the DAB database object shared by the command and the migrations.
- `migrate_dab_roles.dfy`, `migration_0054.dfy`, `migration_0055.dfy`, `create_remote.dfy`: the command and migrations. Each loop is a method proved against a specification function, with lemmas about that function.
- `strings.dfy`, `wrappers.dfy`: string predicates and Option/Result.

Where the code and its documentation disagree, the model follows the code:

- **`migrate-dab-roles`, line 98.** It compares `rd.content_type_id` with a ContentType object. That test is always true, so the content type is set whenever the role's permissions span exactly one content type. This matches the command's evident intent.
- **Migration 0054.** The `copy_roles_to_role_definitions` operation is commented out of the migration's operation list. It is still modelled, as a function the migration defines.
- **Comment at handlers.py:143-144.** It says a diff never has additions and removals together. The model does not rely on it. `PermSync.CopyConverges` proves what happens when both occur.

## Model

| member | source | states |
|---|---|---|
| RbacSync.Engine.constructor | galaxy_ng/app/signals/handlers.py:95-98 | both flags start cleared, so no sync is in progress |
| RbacSync.Engine.CopyRoleToRoleDefinition | galaxy_ng/app/signals/handlers.py:164-173 | while a sync is in progress nothing changes; otherwise a role definition named like the role exists afterwards, created empty only when none existed (never a duplicate); pulp roles and all grants unchanged; both flags end as they began |
| RbacSync.Engine.CopyRoleDefinitionToRole | galaxy_ng/app/signals/handlers.py:210-219 | the mirror image: a same-named pulp role exists afterwards, created only when absent; nothing changes while a sync is in progress; flags restored |
| RbacSync.Engine.DeleteRoleToRoleDefinition | galaxy_ng/app/signals/handlers.py:176-184 | the same-named role definition is removed if present (a no-op when absent), under the DAB flag as the code has it; nothing changes while a sync is in progress; flags restored |
| RbacSync.Engine.DeleteRoleDefinitionToRole | galaxy_ng/app/signals/handlers.py:222-230 | the same-named pulp role is removed if present; nothing changes while a sync is in progress; flags restored |
| RbacSync.Engine.CreatePulpRole | galaxy_ng/app/signals/handlers.py:164-173 | creating a taken name fails with IntegrityError and changes nothing; otherwise the role exists with no permissions and, unless a sync is in progress, so does a same-named role definition (an existing one kept as it was) |
| RbacSync.Engine.CreateDabRole | galaxy_ng/app/signals/handlers.py:210-219 | the same for a role definition: its post_save gives it a same-named pulp role unless one exists or a sync is in progress |
| RbacSync.Engine.DeletePulpRole | galaxy_ng/app/signals/handlers.py:176-184 | the role is gone, and so is its role definition unless a sync is in progress; grants and flags unchanged |
| RbacSync.Engine.DeleteDabRole | galaxy_ng/app/signals/handlers.py:222-230 | the role definition is gone, and so is the same-named pulp role unless a sync is in progress |
| RbacSync.Engine.CopyPulpGrant | galaxy_ng/app/signals/handlers.py:256-293 | for a saved UserRole or GroupRole: nothing happens while a sync is in progress or when no role definition has the role's name; otherwise DAB gains the row for the user, or for `group.team`, on the grant's object or globally, and that row reads back as exactly this grant; a group without a team fails with nothing written |
| RbacSync.Engine.DeletePulpGrant | galaxy_ng/app/signals/handlers.py:270-306 | for a deleted UserRole or GroupRole: the DAB row that mirrors the grant (user, or `group.team`) is removed when the role definition exists and no sync is in progress; otherwise nothing changes |
| RbacSync.Engine.GiveDabPermission | galaxy_ng/app/signals/handlers.py:335-341 | DAB holds the row afterwards; only a newly created row fires post_save, and then (no sync in progress) pulp holds the grant that the row reads as, or the mapping error is returned |
| RbacSync.Engine.RemoveDabPermission | galaxy_ng/app/signals/handlers.py:344-350 | DAB no longer holds the row; only an actually deleted row fires post_delete, which then revokes the pulp grant the row reads as |
| RbacSync.Engine.CopyDabAssignment | galaxy_ng/app/signals/handlers.py:335-359 | for a saved user or team assignment with no sync in progress, pulp gains exactly the grant `_get_pulp_role_kwargs` reads from it (the team's case acting for `team.group`), or the handler fails with the mapping error and writes nothing; DAB rows unchanged |
| RbacSync.Engine.DeleteDabAssignment | galaxy_ng/app/signals/handlers.py:344-368 | for a deleted user or team assignment with no sync in progress, pulp loses the grant the row reads as, or the handler fails with the mapping error |
| RbacSync.Engine.ApplyDabAssignment | galaxy_ng/app/signals/handlers.py:325-327 | an assignment without an entity raises and changes nothing; otherwise pulp holds the grant built from it |
| RbacSync.Engine.UnapplyDabAssignment | galaxy_ng/app/signals/handlers.py:330-332 | an assignment without an entity raises; otherwise pulp no longer holds the grant built from it |
| RbacSync.Engine.AssignPulpRole | galaxy_ng/app/signals/handlers.py:256-267 | pulp holds the grant afterwards; a newly created grant with a same-named role definition and no sync in progress also puts in DAB the row that reads back as this grant |
| RbacSync.Engine.RemovePulpRole | galaxy_ng/app/signals/handlers.py:270-280 | pulp no longer holds the grant; an actually deleted grant also removes its mirrored DAB row |
| RbacSync.Engine.OnPulpPermissionsChanged | galaxy_ng/app/signals/handlers.py:187-201 | the outcome and both role tables afterwards are those of `PermSync.OnPermissionsChanged` for the pulp side; grants unchanged and flags restored |
| RbacSync.Engine.OnDabPermissionsChanged | galaxy_ng/app/signals/handlers.py:233-247 | the same for the DAB side's handler |
| RbacSync.Engine.CopyPermissionsRoleToRole | galaxy_ng/app/signals/handlers.py:127-160 | the outcome and role tables are those of `PermSync.CopyRoleToRole`, nested handler calls included |
| RbacSync.Engine.AddPermissions | galaxy_ng/app/signals/handlers.py:146-152 | `permissions.add` with its pre_add/post_add dispatch, all or nothing: tables and outcome as `PermSync.AddPermissions` says, so a failure anywhere in the nested handlers leaves the role tables as they were |
| RbacSync.Engine.RemovePermissions | galaxy_ng/app/signals/handlers.py:154-160 | `permissions.remove` with its dispatch, all or nothing: as `PermSync.RemovePermissions` says |
| RbacSync.Engine.ClearPermissions | galaxy_ng/app/signals/handlers.py:187-201 | `permissions.clear` with its pre_clear/post_clear dispatch, all or nothing: as `PermSync.ClearPermissions` says |
| RbacSync.Engine.Deliver | galaxy_ng/app/signals/handlers.py:204 | delivery of m2m_changed to the connected handler, failing at the recursion limit: as `PermSync.Deliver` says |
| RbacSync.Engine.RollbackRoles | galaxy_ng/app/signals/handlers.py:152-160 | the rollback of the atomic block around a Django m2m write: both role tables are back at the saved state; flags and grants unchanged |
| RbacSync.Engine.SetRolePermissions | galaxy_ng/app/signals/handlers.py:137-138 | writes a role's permission rows without a signal, changing only that role |
| Grants.ActorRow | galaxy_ng/app/signals/handlers.py:263-267 | the DAB row names the role and the object (or none for a global grant) and exactly the given kind of actor |
| Grants.DabActorOf | galaxy_ng/app/signals/handlers.py:288-293 | a user maps to itself, a group to its team; a group with no team is an error |
| Grants.PulpRoleArgs | galaxy_ng/app/signals/handlers.py:312-322 | the role name and object (only when set) pass through; the entity is the user when `user_id` is set, else the team's group; neither set raises |
| Grants.DabRowFor | galaxy_ng/app/signals/handlers.py:256-293 | a grant to a group without a team fails, and only that; otherwise the row has one actor (the user itself, or the group's team), the same role definition name and the same object |
| Grants.PulpGrantRoundTrip | galaxy_ng/app/signals/handlers.py:256-322 | mirroring a pulp grant into DAB and reading the row back gives the same grant |
| Grants.DabRowRoundTrip | galaxy_ng/app/signals/handlers.py:256-322 | reading a single-actor DAB row as pulp arguments and mirroring back gives the same row |
| PermSync.Codenames | galaxy_ng/app/signals/handlers.py:137-138 | the codename set holds exactly the codenames of the role's permissions |
| PermSync.WithCodenames | galaxy_ng/app/signals/handlers.py:147-158 | the lookup returns exactly the destination catalogue's rows whose codename is asked for |
| PermSync.ApplyDiff | galaxy_ng/app/signals/handlers.py:137-160 | every permission the diff adds to B comes from B's catalogue and carries a codename of A; every permission it takes from B has a codename A lacks |
| PermSync.DiffCodenames | galaxy_ng/app/signals/handlers.py:137-160 | after the diff, B's codenames are A's codenames that B had or B's catalogue has: codenames missing from B's table are silently skipped |
| PermSync.DiffMatchesSource | galaxy_ng/app/signals/handlers.py:137-160 | when B's catalogue has every codename of A, B's codenames afterwards equal A's |
| PermSync.DiffKeepsShared | galaxy_ng/app/signals/handlers.py:137-160 | a permission whose codename both roles have is neither added to nor removed from B |
| PermSync.DiffSettles | galaxy_ng/app/signals/handlers.py:137-160 | a second diff right after the first has nothing to add and nothing to remove |
| PermSync.OnPermissionsChanged | galaxy_ng/app/signals/handlers.py:187-247 | either side's m2m handler (pulp at 187-201, DAB at 233-247): in a guarded block or for a pre_ action nothing changes; a reverse change raises RuntimeError; no counterpart means nothing changes |
| PermSync.HandlerFrame | galaxy_ng/app/signals/handlers.py:187-247 | a call of either m2m handler changes no role but the one whose permissions changed, in either store, however deep the re-entry goes |
| PermSync.CopyFrame | galaxy_ng/app/signals/handlers.py:127-160 | the copy, with the nested handlers its writes fire, changes no role but `name` |
| PermSync.AddFrame | galaxy_ng/app/signals/handlers.py:152 | `permissions.add` and what it fires changes no role but `name` |
| PermSync.RemoveFrame | galaxy_ng/app/signals/handlers.py:160 | `permissions.remove` and what it fires changes no role but `name` |
| PermSync.ClearFrame | galaxy_ng/app/signals/handlers.py:187-201 | `permissions.clear` and what it fires changes no role but `name` |
| PermSync.DeliverFrame | galaxy_ng/app/signals/handlers.py:204 | a delivered m2m signal changes no role but `name` |
| PermSync.PutFrame | galaxy_ng/app/signals/handlers.py:152-160 | a write to one role changes no other role |
| PermSync.AddPermissions | galaxy_ng/app/signals/handlers.py:146-152 | an empty addition does nothing; a failure anywhere in the nested handlers leaves both tables as they were; while a sync is in progress the ids are simply added to the role |
| PermSync.RemovePermissions | galaxy_ng/app/signals/handlers.py:154-160 | the same for a removal: empty does nothing, a failure changes nothing, and while a sync is in progress the ids are simply taken from the role |
| PermSync.ClearPermissions | galaxy_ng/app/signals/handlers.py:187-201 | a failure changes nothing; while a sync is in progress the role is simply emptied |
| PermSync.Deliver | galaxy_ng/app/signals/handlers.py:187-204 | delivery at the recursion limit fails without a write; a pre_ action, or any action while a sync is in progress, passes without a write |
| PermSync.AddUnfold | galaxy_ng/app/signals/handlers.py:187-201 | an addition outside any guarded block ignores pre_add and lets post_add copy the written role onto its counterpart |
| PermSync.RemoveUnfold | galaxy_ng/app/signals/handlers.py:187-201 | the same for a removal |
| PermSync.CopyRoleToRole | galaxy_ng/app/signals/handlers.py:137-160 | when both roles already hold the same codenames the copy passes and changes no table: nothing is added, removed or fired |
| PermSync.RemoveOnlyCopy | galaxy_ng/app/signals/handlers.py:154-160 | a copy that only removes leaves B with A's codenames, leaves A untouched, and the nested handler finds nothing to do |
| PermSync.AddOnlySets | galaxy_ng/app/signals/handlers.py:137-160 | for a copy that only adds: B gains exactly the catalogue rows for A's extra codenames, and the diff back onto A keeps exactly A's rows whose codename B's catalogue has |
| PermSync.AddOnlyCopy | galaxy_ng/app/signals/handlers.py:146-152 | a copy that only adds gives B the catalogue rows for A's extra codenames; the re-entrant copy back strips from A every codename B's catalogue lacks; with no row to add nothing fires |
| PermSync.AddCodenames | galaxy_ng/app/signals/handlers.py:146-152 | adding the catalogue rows for some codenames adds exactly those of them the catalogue has |
| PermSync.BounceSets | galaxy_ng/app/signals/handlers.py:137-160 | for a two-way diff: B after the addition holds both roles' codenames, and the diff back onto A adds exactly B's codenames that A lacks |
| PermSync.MixedCopyAddBounce | galaxy_ng/app/signals/handlers.py:143-152 | inside a diff with both additions and removals, the post_add handler copies B's codenames that are about to be removed back onto A |
| PermSync.MixedCopyAddPhase | galaxy_ng/app/signals/handlers.py:143-152 | the state after the addition phase of a two-way diff, with A temporarily holding B's extra codenames |
| PermSync.MixedCopyRemovePhase | galaxy_ng/app/signals/handlers.py:154-160 | the removal phase then takes those codenames away from both sides |
| PermSync.RemovePhaseSets | galaxy_ng/app/signals/handlers.py:137-160 | the removal leaves B exactly the plain diff's result, and the diff of that back onto A restores A |
| PermSync.CopyConverges | galaxy_ng/app/signals/handlers.py:127-160 | whenever each side's codenames exist in the other's catalogue, the copy ends with B equal to the plain diff applied to B, A unchanged, and both sides holding the same codenames |
| PermSync.ConvergesByAdding | galaxy_ng/app/signals/handlers.py:137-152 | when A's codenames strictly include B's and B's catalogue has them all, the copy passes with B set to the diff's result |
| PermSync.AddToSettledRole | galaxy_ng/tests/integration/dab/test_dab_rbac_contract.py:124-144 | adding permissions to a role whose counterpart matches it ends with both sides matching, unless the other catalogue has none of the new codenames; permissions the other catalogue lacks are stripped again from the written role |
| PermSync.SettledAddSets | galaxy_ng/app/signals/handlers.py:137-152 | helper for the proofs about the cited lines: after adding to a settled role, its codenames still cover the other side's, and they fit the other catalogue exactly when the added ones do |
| PermSync.AddToSettledRoleUnmatched | galaxy_ng/app/signals/handlers.py:146-152 | helper for the proofs about the cited lines: an addition whose new codenames have no rows on the other side ends with just the addition |
| PermSync.AddToSettledRoleMatched | galaxy_ng/app/signals/handlers.py:146-152 | helper for the proofs about the cited lines: an addition whose new codenames have rows on the other side ends as the mirrored copy says |
| PermSync.CopyAfterSettledAdd | galaxy_ng/app/signals/handlers.py:137-152 | helper for the proofs about the cited lines: the copy fired by an addition to a settled role passes and adds the matching rows on the other side |
| PermSync.AddViaCopy | galaxy_ng/app/signals/handlers.py:146-152 | helper for the proofs about the cited lines: an addition outside a sync ends where the copy it fires ends |
| PermSync.RemoveFromSettledRole | galaxy_ng/tests/integration/dab/test_dab_rbac_contract.py:124-144 | removing permissions from a matched role removes the same codenames from its counterpart; both sides end matching |
| PermSync.UncataloguedAdditionIsUndone | galaxy_ng/app/signals/handlers.py:187-201 | a concrete case: adding `view_a` and `view_b` to a pulp role when DAB knows only `view_a` leaves the pulp role with `view_a` alone |
| PermSync.ClearEmptiesBoth | galaxy_ng/app/signals/handlers.py:187-201 | clearing a role's permissions empties its counterpart too |
| PermSync.PutCommutes | galaxy_ng/app/signals/handlers.py:152-160 | helper for the proofs about the cited lines: writes to the two stores' roles commute |
| PermSync.PutSame | galaxy_ng/app/signals/handlers.py:152-160 | helper for the proofs about the cited lines: writing a role's own permissions back changes nothing |
| PermSync.PutTwice | galaxy_ng/app/signals/handlers.py:152-160 | helper for the proofs about the cited lines: a second write to the same role replaces the first |
| PermSync.CodenamesMono | galaxy_ng/app/signals/handlers.py:137-138 | helper for the proofs about the cited lines: more permissions never mean fewer codenames |
| PostSave.Repository.Save | galaxy_ng/app/signals/handlers.py:31-39 | a created repository without `retain_repo_versions` ends with 1; any other save leaves the field alone (the handler's own re-save included) |
| PostSave.Repository.EnsureRetainRepoVersions | galaxy_ng/app/signals/handlers.py:31-39 | the same rule, from inside the handler |
| PostSave.Distribution.Save | galaxy_ng/app/signals/handlers.py:42-50 | a created distribution without a content guard takes the first redirect guard (or none); any other save leaves it alone |
| PostSave.Distribution.EnsureContentGuardExists | galaxy_ng/app/signals/handlers.py:42-50 | the same rule, from inside the handler |
| PostSave.NamespaceTable.CreateNamespaceIfNotPresent | galaxy_ng/app/signals/handlers.py:53-65 | the collection's namespace exists afterwards; an existing one and all other namespaces are unchanged |
| PostSave.NeedsUpdate | galaxy_ng/app/signals/handlers.py:87-91 | a new namespace always takes the metadata; skipping the update happens only when the namespace already has metadata with the same digest |
| PostSave.Associate | galaxy_ng/app/signals/handlers.py:68-91 | the namespace table gains exactly the metadata's name; an existing namespace keeps its digest, a new one has none |
| PostSave.UpdateMetadata | galaxy_ng/app/signals/handlers.py:76-85 | the namespace takes the metadata row as its last metadata, its company, email, description and resources, and one link per entry; its digest is not touched |
| PostSave.AssociateRewritesOnlyWhenNeeded | galaxy_ng/app/signals/handlers.py:68-91 | the namespace exists afterwards and is rewritten exactly when it is new, has no metadata, or its digest differs; every other namespace is unchanged |
| PostSave.AssociateIdempotent | galaxy_ng/app/signals/handlers.py:68-91 | handling the same metadata row twice leaves what handling it once leaves |
| PostSave.NamespaceTable.AssociateNamespaceMetadata | galaxy_ng/app/signals/handlers.py:68-91 | the table afterwards is `Associate` of the table before |
| DabModels.Ids | galaxy_ng/app/migrations/0055_galaxy_role_defs_to_dab_defs.py:31-32 | the id set holds exactly the ids of the given permission rows |
| DabModels.IdsAppend | galaxy_ng/app/management/commands/migrate-dab-roles.py:90-93 | helper for the proofs about the cited lines: adding one permission row adds exactly its id |
| DabModels.PrefixIds | galaxy_ng/app/management/commands/migrate-dab-roles.py:90-93 | helper for the proofs about the cited lines: one more row of a prefix adds exactly its id |
| DabModels.ContentTypesStep | galaxy_ng/app/management/commands/migrate-dab-roles.py:96-101 | helper for the proofs about the cited lines: one more permission of a prefix adds exactly its content type |
| DabModels.DabDatabase.constructor | galaxy_ng/app/migrations/0054_galaxy_role_defs_to_dab_defs.py:15-16 | the DAB tables hold the given rows |
| MigrateDabRoles.PermIndex.Put | galaxy_ng/app/management/commands/migrate-dab-roles.py:51 | a dict write: a new key goes last, an existing key keeps its place and takes the new value |
| MigrateDabRoles.IndexOf | galaxy_ng/app/management/commands/migrate-dab-roles.py:46-51 | every DAB permission's (app_label, model, codename) key is in the index, and every entry is a permission of the table stored under its own key |
| MigrateDabRoles.IndexStep | galaxy_ng/app/management/commands/migrate-dab-roles.py:46-51 | writing one more permission keeps every key of the rows seen so far and stores each entry under its own key |
| MigrateDabRoles.BuildIndex | galaxy_ng/app/management/commands/migrate-dab-roles.py:46-51 | the loop builds exactly `IndexOf` of the permission table |
| MigrateDabRoles.FirstMatchingKey | galaxy_ng/app/management/commands/migrate-dab-roles.py:71-74 | the first key in insertion order with the permission's app label and codename; none when no key has both |
| MigrateDabRoles.MatchAgrees | galaxy_ng/app/management/commands/migrate-dab-roles.py:65-74 | a role permission's match is a DAB permission of the table with the same app label and codename, whatever its model; there is no match exactly when no row has both |
| MigrateDabRoles.FindMatch | galaxy_ng/app/management/commands/migrate-dab-roles.py:71-74 | the search returns the first matching entry, and finds one exactly when some key matches |
| MigrateDabRoles.Match | galaxy_ng/app/management/commands/migrate-dab-roles.py:71-74 | a match is found exactly when some index key has the permission's app label and codename, and what it returns is one of the indexed DAB permissions |
| MigrateDabRoles.Related | galaxy_ng/app/management/commands/migrate-dab-roles.py:60-74 | at most one related permission per role permission, each the match of one of them |
| MigrateDabRoles.CollectRelated | galaxy_ng/app/management/commands/migrate-dab-roles.py:60-74 | the loop collects the role's matches in order and the set of its content types |
| MigrateDabRoles.RelatedCount | galaxy_ng/app/management/commands/migrate-dab-roles.py:77-79 | the completeness test `len(related_perms) == count()` holds exactly when every permission of the role found a match |
| MigrateDabRoles.AllMatchedStep | galaxy_ng/app/management/commands/migrate-dab-roles.py:65-79 | all of a role's permissions match exactly when all but the last do and the last does |
| MigrateDabRoles.MigrateRole | galaxy_ng/app/management/commands/migrate-dab-roles.py:54-103 | one role's pass adds at most its own role definition, removes none and takes no permission from any |
| MigrateDabRoles.MigrateRoleEffect | galaxy_ng/app/management/commands/migrate-dab-roles.py:54-103 | a role with an unmatched permission changes nothing; otherwise its role definition exists, keeps every permission it had, gains exactly its matches, takes the table description (or ''), and takes the role's content type exactly when there is only one; other role definitions are untouched |
| MigrateDabRoles.MigrateRoleIdempotent | galaxy_ng/app/management/commands/migrate-dab-roles.py:82-103 | handling a role a second time changes nothing more |
| MigrateDabRoles.MigrateAll | galaxy_ng/app/management/commands/migrate-dab-roles.py:54-103 | the whole backfill removes no role definition and takes no permission from any |
| MigrateDabRoles.MigrateAllCoversMatchedRoles | galaxy_ng/app/management/commands/migrate-dab-roles.py:54-103 | every fully matched role ends with a same-named role definition holding all its matches |
| MigrateDabRoles.AddRelated | galaxy_ng/app/management/commands/migrate-dab-roles.py:90-93 | the loop ends with the held ids plus the id of every related permission |
| MigrateDabRoles.MigrateOneRole | galaxy_ng/app/management/commands/migrate-dab-roles.py:55-103 | one pass of the loop changes the role definitions as `MigrateRole` says and leaves the permission table alone |
| MigrateDabRoles.Handle | galaxy_ng/app/management/commands/migrate-dab-roles.py:45-103 | the command's own writes change the role definitions as `MigrateAll` says and never touch the permission table; its code only reads the pulp roles (the handlers that its `rd.permissions.add` calls fire are not composed here, see Left out) |
| Migration0054.MatchingRows | galaxy_ng/app/migrations/0054_galaxy_role_defs_to_dab_defs.py:19-23 | the lookup returns exactly the rows with the given (codename, content type, name) |
| Migration0054.Get | galaxy_ng/app/migrations/0054_galaxy_role_defs_to_dab_defs.py:46-50 | a found row is a row of the table with those fields; DoesNotExist exactly when no row has them |
| Migration0054.GetOrCreate | galaxy_ng/app/migrations/0054_galaxy_role_defs_to_dab_defs.py:19-23 | fails exactly when the lookup finds more than one row, with MultipleObjectsReturned; otherwise it keeps every row, adds at most one, and adds none when the row exists |
| Migration0054.Seed | galaxy_ng/app/migrations/0054_galaxy_role_defs_to_dab_defs.py:17-23 | a failure is MultipleObjectsReturned; a success adds at most one row per auth permission and drops none |
| Migration0054.SeedEffect | galaxy_ng/app/migrations/0054_galaxy_role_defs_to_dab_defs.py:13-25 | existing DAB permissions are kept unchanged and in place, and each auth permission's triple has exactly one row afterwards |
| Migration0054.SeedStable | galaxy_ng/app/migrations/0054_galaxy_role_defs_to_dab_defs.py:19-23 | triples already present once are not duplicated: seeding then changes nothing |
| Migration0054.SeedIdempotent | galaxy_ng/app/migrations/0054_galaxy_role_defs_to_dab_defs.py:17-23 | a second run creates nothing |
| Migration0054.SeedWithoutDuplicates | galaxy_ng/app/migrations/0054_galaxy_role_defs_to_dab_defs.py:17-23 | on a table without duplicate triples the seeding cannot fail, keeps the table free of duplicates, and adds only rows for visited auth permissions |
| Migration0054.SeedFailureSticks | galaxy_ng/app/migrations/0054_galaxy_role_defs_to_dab_defs.py:17-23 | once a get-or-create raises, the whole operation fails with that error |
| Migration0054.NoDuplicatesAtMostOne | galaxy_ng/app/migrations/0054_galaxy_role_defs_to_dab_defs.py:19-23 | in a table without duplicates a lookup finds at most one row |
| Migration0054.MatchingRowsAppend | galaxy_ng/app/migrations/0054_galaxy_role_defs_to_dab_defs.py:19-23 | helper for the proofs about the cited lines: a created row is found by its own lookup and by no other |
| Migration0054.NoMatch | galaxy_ng/app/migrations/0054_galaxy_role_defs_to_dab_defs.py:19-23 | a table without the triple yields an empty lookup |
| Migration0054.SeedStep | galaxy_ng/app/migrations/0054_galaxy_role_defs_to_dab_defs.py:19-23 | one more get-or-create: a found row changes nothing, a missing triple appends a row with the next id, and any other error decides the whole operation |
| Migration0054.CreatePermissionsAsOperation | galaxy_ng/app/migrations/0054_galaxy_role_defs_to_dab_defs.py:13-25 | the loop leaves the table `Seed` computes; when a lookup raises, the transaction puts the rows back and only the id sequence keeps its advance |
| Migration0054.DropIds | galaxy_ng/app/migrations/0054_galaxy_role_defs_to_dab_defs.py:30-32 | exactly the rows whose id is not deleted remain |
| Migration0054.Unlink | galaxy_ng/app/migrations/0054_galaxy_role_defs_to_dab_defs.py:30-32 | deleting permissions removes them from every role definition and removes no role definition |
| Migration0054.ReverseCreatePermissionsAsOperation | galaxy_ng/app/migrations/0054_galaxy_role_defs_to_dab_defs.py:28-32 | no DAB permission is left, and every role definition has lost exactly the deleted permissions |
| Migration0054.ReverseStep | galaxy_ng/app/migrations/0054_galaxy_role_defs_to_dab_defs.py:30-32 | deleting one more permission leaves the rows and role definitions of deleting the longer prefix |
| Migration0054.ReverseStart | galaxy_ng/app/migrations/0054_galaxy_role_defs_to_dab_defs.py:30-32 | before any deletion, rows and role definitions are as they were |
| Migration0054.ReverseDone | galaxy_ng/app/migrations/0054_galaxy_role_defs_to_dab_defs.py:30-32 | after deleting every permission no row is left and each role definition has lost exactly those permissions |
| Migration0054.DropCovered | galaxy_ng/app/migrations/0054_galaxy_role_defs_to_dab_defs.py:30-32 | deleting every row's id leaves no row |
| Migration0054.DropNothing | galaxy_ng/app/migrations/0054_galaxy_role_defs_to_dab_defs.py:30-32 | helper for the proofs about the cited lines: deleting no id leaves every row |
| Migration0054.DropIdsTwice | galaxy_ng/app/migrations/0054_galaxy_role_defs_to_dab_defs.py:30-32 | deleting one more id after some is deleting all of them |
| Migration0054.UnlinkTwice | galaxy_ng/app/migrations/0054_galaxy_role_defs_to_dab_defs.py:30-32 | unlinking one more permission after some is unlinking all of them |
| Migration0054.UnlinkNothing | galaxy_ng/app/migrations/0054_galaxy_role_defs_to_dab_defs.py:30-32 | helper for the proofs about the cited lines: unlinking nothing changes no role definition |
| Migration0054.ExactIds | galaxy_ng/app/migrations/0054_galaxy_role_defs_to_dab_defs.py:45-51 | succeeds exactly when each role permission's triple is found, and then holds each found row's id |
| Migration0054.ExactIdsOnlyFound | galaxy_ng/app/migrations/0054_galaxy_role_defs_to_dab_defs.py:45-51 | every id the lookup collects is the row id of one of the role's permissions |
| Migration0054.CopyRole | galaxy_ng/app/migrations/0054_galaxy_role_defs_to_dab_defs.py:40-51 | succeeds exactly when every permission of the role has its row; then the table gains exactly the role's name and no role definition loses a permission |
| Migration0054.CopyRoleAddsOnlyFound | galaxy_ng/app/migrations/0054_galaxy_role_defs_to_dab_defs.py:45-51 | every permission a role definition gains is the row of one of the role's permissions |
| Migration0054.CopyRoleGrows | galaxy_ng/app/migrations/0054_galaxy_role_defs_to_dab_defs.py:45-51 | helper for the proofs about the cited lines: after a copy the role definition holds each found row id and no definition loses a permission |
| Migration0054.CopyRoles | galaxy_ng/app/migrations/0054_galaxy_role_defs_to_dab_defs.py:40-52 | a successful copy of all roles removes no role definition and takes no permission from any |
| Migration0054.CopyRolesStep | galaxy_ng/app/migrations/0054_galaxy_role_defs_to_dab_defs.py:40-52 | helper for the proofs about the cited lines: copying one more role continues from the table the earlier roles left |
| Migration0054.CopyRoleEffect | galaxy_ng/app/migrations/0054_galaxy_role_defs_to_dab_defs.py:40-59 | the role's definition exists afterwards, keeps its permissions, gains the exact row of each role permission, and takes the content type exactly when there is only one; others are untouched |
| Migration0054.CopyRolesSucceeds | galaxy_ng/app/migrations/0054_galaxy_role_defs_to_dab_defs.py:46-50 | the copy succeeds exactly when every role permission resolves to one row; a missing triple raises |
| Migration0054.ResolvableStep | galaxy_ng/app/migrations/0054_galaxy_role_defs_to_dab_defs.py:46-50 | a longer list of roles resolves exactly when its front and the last role's permissions do |
| Migration0054.CopyRolesCovers | galaxy_ng/app/migrations/0054_galaxy_role_defs_to_dab_defs.py:40-52 | after a successful copy every role has a same-named role definition holding the exact rows of all its permissions |
| Migration0054.PrefixStep | galaxy_ng/app/migrations/0054_galaxy_role_defs_to_dab_defs.py:45-52 | helper for the proofs about the cited lines: one more found permission adds exactly its row's id to the accumulated set |
| Migration0054.ExactIdsFailureSticks | galaxy_ng/app/migrations/0054_galaxy_role_defs_to_dab_defs.py:46-50 | the first lookup that raises decides the role's error |
| Migration0054.CopyRolesErrSticks | galaxy_ng/app/migrations/0054_galaxy_role_defs_to_dab_defs.py:40-52 | once a role's copy raises, the whole operation fails with that error |
| Migration0054.CopyOneRole | galaxy_ng/app/migrations/0054_galaxy_role_defs_to_dab_defs.py:41-59 | one pass of the loop changes the role definitions as `CopyRole` says and leaves the permission table alone |
| Migration0054.CopyRolesToRoleDefinitions | galaxy_ng/app/migrations/0054_galaxy_role_defs_to_dab_defs.py:35-59 | the role definitions afterwards are those `CopyRoles` computes; on an error the transaction restores them |
| Migration0054.ReverseCopyRolesToRoleDefinitions | galaxy_ng/app/migrations/0054_galaxy_role_defs_to_dab_defs.py:62-66 | no role definition is left, and the permission table is untouched |
| Migration0055.Selected | galaxy_ng/app/migrations/0055_galaxy_role_defs_to_dab_defs.py:21 | exactly the DAB permissions whose name contains "namespace", case-insensitively |
| Migration0055.NamespaceAdminDefinition | galaxy_ng/app/migrations/0055_galaxy_role_defs_to_dab_defs.py:22-32 | the created role definition is managed, has the first selected permission's content type and holds every selected permission |
| Migration0055.CopyPermissionsToRoleDefinitions | galaxy_ng/app/migrations/0055_galaxy_role_defs_to_dab_defs.py:16-32 | with no selected permission it raises IndexError before any write, whether or not the role definition exists; otherwise "Namespace Admin" exists afterwards, an existing one is left unchanged, and a new one is `NamespaceAdminDefinition` of the selection |
| Migration0055.CreateNamespaceAdmin | galaxy_ng/app/migrations/0055_galaxy_role_defs_to_dab_defs.py:22-32 | a newly created "Namespace Admin" ends as `NamespaceAdminDefinition` of the selection; no other role definition and no permission changes |
| Migration0055.AddStep | galaxy_ng/app/migrations/0055_galaxy_role_defs_to_dab_defs.py:31-32 | helper for the proofs about the cited lines: one more `rd.permissions.add(perm)` gives the role definition the ids of one more selected permission |
| Strings.Contains | galaxy_ng/app/management/commands/create-remote.py:91 | `needle in hay`: true exactly when the needle occurs at some position |
| Strings.LowerChar | galaxy_ng/app/migrations/0055_galaxy_role_defs_to_dab_defs.py:21 | an ASCII capital becomes the lower-case letter at the same place in the alphabet; every other character is kept |
| Strings.Lower | galaxy_ng/app/migrations/0055_galaxy_role_defs_to_dab_defs.py:21 | lower-cases each character in place |
| Strings.LowerIdempotent | galaxy_ng/app/migrations/0055_galaxy_role_defs_to_dab_defs.py:21 | lower-casing twice is lower-casing once |
| Strings.ContainsIgnoringCaseOfLower | galaxy_ng/app/migrations/0055_galaxy_role_defs_to_dab_defs.py:21 | the case of the searched name does not change whether it matches |
| CreateRemote.OrName | galaxy_ng/app/management/commands/create-remote.py:117 | an absent or empty option falls back to the remote's name |
| CreateRemote.ValidUrl | galaxy_ng/app/management/commands/create-remote.py:50-53 | a URL ending in '/' is refused with a CommandError; any other is returned unchanged |
| CreateRemote.Validate | galaxy_ng/app/management/commands/create-remote.py:89-97 | refused exactly when the requirements file is empty or absent and the URL contains a community domain; otherwise the data comes back unchanged |
| CreateRemote.AnyContained | galaxy_ng/app/management/commands/create-remote.py:90-92 | true exactly when some domain occurs in the URL |
| CreateRemote.RemoteStep | galaxy_ng/app/management/commands/create-remote.py:99-113 | a taken remote name becomes a CommandError; otherwise the remote is added with the given url, auth url, token and requirements file, and nothing else changes |
| CreateRemote.RepositoryStep | galaxy_ng/app/management/commands/create-remote.py:115-134 | fails exactly when the named repository already has a remote, with that error; otherwise the repository (new or existing) gets the remote, reports whether it was created, and nothing else changes |
| CreateRemote.DistributionStep | galaxy_ng/app/management/commands/create-remote.py:136-164 | an IntegrityError exactly when the existing distribution's base path differs from its name, or a new one's base path is taken; on success the distribution (new, or existing and unlinked) gets the repository and remote, and nothing else changes |
| CreateRemote.Transaction | galaxy_ng/app/management/commands/create-remote.py:169-172 | a failed block leaves the tables as they were with fewer than three messages; a committed one has all three messages and the remote |
| CreateRemote.TransactionAllOrNothing | galaxy_ng/app/management/commands/create-remote.py:115-172 | a failing run leaves all three tables as they were; a run succeeds exactly when the remote name is free, the repository has no remote, the distribution has no repository or remote and its base path clashes with no other; success adds the remote, points the repository at it and links the distribution to both, changing nothing else |
| CreateRemote.CommittedMessagesAreTrue | galaxy_ng/app/management/commands/create-remote.py:99-164 | a successful run appends one message per creation, each naming a row the committed tables hold with the links the command made |
| CreateRemote.StaleMessageAfterRollback | galaxy_ng/app/management/commands/create-remote.py:166-176 | a concrete pair of runs: the first fails after creating its remote, and the second, successful run writes the first run's "Created new CollectionRemote" message for a remote that does not exist |
| CreateRemote.Database.constructor | galaxy_ng/app/management/commands/create-remote.py:169 | the database holds the given tables |
| CreateRemote.Database.Rollback | galaxy_ng/app/management/commands/create-remote.py:169-172 | leaving the atomic block by an exception restores the tables it started from |
| CreateRemote.Command.constructor | galaxy_ng/app/management/commands/create-remote.py:18-29 | a command with the given message list and community domains |
| CreateRemote.Command.LoadRequirementsFile | galaxy_ng/app/management/commands/create-remote.py:41-48 | parseable contents are returned and one message is appended; unparseable ones raise a CommandError and append nothing |
| CreateRemote.Command.CreateRemote | galaxy_ng/app/management/commands/create-remote.py:99-113 | the tables and the result are as `RemoteStep` says; on success the creation message is appended |
| CreateRemote.Command.CreateRepository | galaxy_ng/app/management/commands/create-remote.py:115-134 | get or create the repository named by `--repository` or the remote's name; refuse one with a remote, changing no table and appending nothing; otherwise point it at the remote and append "Created new" or "Associated existing" |
| CreateRemote.Command.CreateDistribution | galaxy_ng/app/management/commands/create-remote.py:136-164 | get or create the distribution by name and base path; refuse a base-path clash, or one with a repository or a remote, changing no table and appending nothing; otherwise link both and append its message |
| CreateRemote.Command.Atomic | galaxy_ng/app/management/commands/create-remote.py:169-172 | the tables, the failure and the appended messages are those of `Transaction`; a failure puts the tables back |
| CreateRemote.Command.Handle | galaxy_ng/app/management/commands/create-remote.py:166-176 | a refused run writes nothing and changes nothing; otherwise the tables are those of the transaction, and a successful run writes the whole message list, earlier runs' leftovers included |
| CreateRemote.RunSharingMessages | galaxy_ng/app/management/commands/create-remote.py:29-87 | one run as written in a process whose earlier runs left messages behind, with the options converted in command-line order: whichever of an unparsable requirements file and a URL ending in '/' comes first is the refusal, nothing is written and no table changes, but a file parsed before a refused URL leaves its message in the list; a refusal by `validate` or a failed transaction also leaves this run's messages in the list; success writes those leftovers before its own messages |
| CreateRemote.RunWithOwnMessages | galaxy_ng/app/management/commands/create-remote.py:166-176 | one run with its own message list: the same refusals in the same order; success writes exactly this run's messages, and a refused or failed run writes none and changes no table |

## Left out

- Django signal dispatch and the ORM are written out by hand. Each store write calls the handler Django would run. Queries are functions on maps and sequences.
- Row deletion cascades are not modelled: deleting a Role does not cascade to its UserRole/GroupRole rows, nor a RoleDefinition to its assignments. `RbacSync.Engine.DeletePulpRole` and `RbacSync.Engine.DeleteDabRole` remove only the roles.
- DAB's own signal handlers and the internals of `give_permission`, `remove_permission`, `assign_role` and `remove_role` (validation, object permission caches) are not modelled. Each is modelled only as the creation or deletion of one row, and the post_save/post_delete that creation or deletion fires.
- Django runs each m2m `add`, `remove` and `clear`, with the `m2m_changed` receivers it fires, inside `transaction.atomic`. Only the net effect of that block is modelled: a failure anywhere in the write or in a nested handler leaves both role tables as they were. Savepoints and the database connection are not modelled.
- `threading.local` is one context with two booleans. Concurrent requests and per-thread state are not modelled.
- `depth` stands for the interpreter's recursion limit on nested signal delivery. Reaching it gives the RecursionLimit failure.
- The handlers react only to the forward `permissions` relation. A reverse-relation change is modelled as the RuntimeError it raises, not as a write.
- Which permission rows exist is fixed for the engine: a permission is a (id, codename) pair in a catalogue. Content types of engine permissions are not modelled.
- `RbacSync.Engine.SetRolePermissions` is a write without signals, used to state initial role contents. It is not a handler.
- `create_dab_permissions` (migrations 0054 and 0055) is not modelled. It is a library call whose effect on the DAB permission table is left out; the model starts from the table as the migration finds it.
- MigrateDabRoles.Handle: the runtime signal handlers that `migrate-dab-roles` fires are not composed into it. Its code only reads the pulp roles, but each `rd.permissions.add` (migrate-dab-roles.py line 93) fires `copy_permission_rd_to_role` (handlers.py lines 233-247), which rewrites the pulp role of the same name. The first add to a new role definition cuts that pulp role down to the one added codename; the adds to an existing one push its extra permissions onto the pulp role. The model states neither effect. Migrations use historical models, which fire no handlers.
- `MigrateDabRoles.Handle`: the `print` output is left out.
- The ordering of `set(ctypes)` in `migrate-dab-roles` is not modelled: only whether there is exactly one content type matters.
- Migration 0055's `logger.info` line is left out.
- `PostSave.NamespaceTable.AssociateNamespaceMetadata`: `Namespace.save()` and `set_links` are modelled as field writes. Any digest recomputation inside `Namespace.save` is not modelled.
- The content guard `ContentRedirectContentGuard.objects.first()` is a parameter of `PostSave.Distribution.Save`.
- `create-remote` file reading, `parse_collections_requirements_file` and `slugify` are not modelled:
  - reading a file and the requirements parser are inputs: the file contents and whether they parse;
  - options reach the model already slugified.
- argparse converts the options in command-line order. Only the relative order of `-r` and the URL is modelled (`fileBeforeUrl`), because those are the only two converters that can refuse a run; `slugify` and `str` cannot.
- `COMMUNITY_DOMAINS` is a parameter of the command.
- The `--policy` option is parsed but unused by the command; it is carried in `Options` only.
- The texts of CommandError messages are abstracted to a `Reason`.
- `CreateRemote.RemoteStep`: the IntegrityError of `CollectionRemote.objects.create` is modelled as a taken name only. Other database constraints are not modelled.
- `stdout.write` is modelled as the sequence of written messages.
- String case folding is ASCII only. `__icontains` on non-ASCII names is not modelled.

## Findings

| source | as written | input that shows it | evidently intended | confidence | as-written member | corrected member |
|---|---|---|---|---|---|---|
| galaxy_ng/app/management/commands/create-remote.py:29 | `status_messages` is a class attribute, appended to in `create_remote` (line 111) before the transaction can still fail, and never cleared; `handle` writes the whole list after a successful transaction (lines 175-176) | in one process: repository "a" already has remote "x"; run 1 with name "a" creates remote "a", then fails at `create_repository`, rolling the remote back; run 2 with name "b" succeeds and writes "Created new CollectionRemote a" although no remote "a" exists | only messages of the run's own committed transaction are written (comment at line 174) | not executed | CreateRemote.StaleMessageAfterRollback | CreateRemote.RunWithOwnMessages |
