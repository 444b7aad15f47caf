/**
 * The signal handlers that keep pulp's Role/UserRole/GroupRole tables and
 * DAB's RoleDefinition/RoleUserAssignment/RoleTeamAssignment tables in step,
 * with the two re-entrancy flags of the handlers' thread-local state.
 *
 * Django's signal dispatch is written out: every store write below calls the
 * handler the framework would run for it, and every handler is a method that
 * may in turn write to the other store. The `with pulp_rbac_signals()` and
 * `with dab_rbac_signals()` blocks set one flag and restore its prior value
 * on every exit, exceptions included.
 */
module RbacSync {
  import opened Wrappers
  import opened RbacTypes
  import opened Grants
  import PermSync

  class Engine {
    /** pulp Role rows: name to the rows of `Role.permissions`. */
    var pulpRoles: map<string, set<Perm>>
    /** DAB RoleDefinition rows: name to the rows of `RoleDefinition.permissions`. */
    var dabRoles: map<string, set<Perm>>
    /** The auth Permission table. */
    const pulpPerms: set<Perm>
    /** The DABPermission table. */
    const dabPerms: set<Perm>
    /** pulp UserRole and GroupRole rows. */
    var pulpGrants: set<PulpGrant>
    /** DAB RoleUserAssignment and RoleTeamAssignment rows. */
    var dabGrants: set<DabAssignment>
    /** `rbac_state.pulp_action` */
    var pulpAction: bool
    /** `rbac_state.dab_action` */
    var dabAction: bool
    /** `team.group` for each team, and `group.team` for each group. */
    const groupOfTeam: map<nat, nat>
    const teamOfGroup: map<nat, nat>

    /** Roles hold rows of their own store's permission table; teams and groups are linked one to one. */
    ghost predicate Valid()
      reads this
    {
      && (forall n :: n in pulpRoles ==> pulpRoles[n] <= pulpPerms)
      && (forall n :: n in dabRoles ==> dabRoles[n] <= dabPerms)
      && LinksInverse(groupOfTeam, teamOfGroup)
    }

    /** `rbac_signal_in_progress()` */
    predicate InProgress()
      reads this
    {
      pulpAction || dabAction
    }

    function RoleTables(): PermSync.Tables
      reads this
    {
      PermSync.Tables(pulpRoles, dabRoles)
    }

    function Cats(): PermSync.Catalogues {
      PermSync.Catalogues(pulpPerms, dabPerms)
    }

    function Table(s: Side): map<string, set<Perm>>
      reads this
    {
      RoleTables().Of(s)
    }

    twostate predicate FlagsRestored()
      reads this
    {
      pulpAction == old(pulpAction) && dabAction == old(dabAction)
    }

    twostate predicate RolesUnchanged()
      reads this
    {
      pulpRoles == old(pulpRoles) && dabRoles == old(dabRoles)
    }

    twostate predicate GrantsUnchanged()
      reads this
    {
      pulpGrants == old(pulpGrants) && dabGrants == old(dabGrants)
    }

    /** Empty stores over the given permission tables; both flags start cleared. */
    constructor(pulpPerms: set<Perm>, dabPerms: set<Perm>, groupOfTeam: map<nat, nat>, teamOfGroup: map<nat, nat>)
      requires LinksInverse(groupOfTeam, teamOfGroup)
      ensures Valid() && !InProgress()
      ensures pulpRoles == map[] && dabRoles == map[] && pulpGrants == {} && dabGrants == {}
      ensures this.pulpPerms == pulpPerms && this.dabPerms == dabPerms
      ensures this.groupOfTeam == groupOfTeam && this.teamOfGroup == teamOfGroup
    {
      this.pulpPerms := pulpPerms;
      this.dabPerms := dabPerms;
      this.groupOfTeam := groupOfTeam;
      this.teamOfGroup := teamOfGroup;
      pulpRoles := map[];
      dabRoles := map[];
      pulpGrants := {};
      dabGrants := {};
      pulpAction := false;
      dabAction := false;
    }

    // -------------------------------------------------------------------------
    // Roles and role definitions. A method's `decreases` is evaluated when it
    // is called: a handler called while a flag is set returns at once, and a
    // handler called with both flags clear sets one before it writes.

    /** `copy_role_to_role_definition`, the `post_save` handler of Role. */
    method CopyRoleToRoleDefinition(name: string)
      requires Valid()
      modifies this
      decreases if InProgress() then 0 else 1, 0
      ensures Valid() && FlagsRestored() && GrantsUnchanged() && pulpRoles == old(pulpRoles)
      ensures old(InProgress()) ==> dabRoles == old(dabRoles)
      ensures !old(InProgress()) ==> dabRoles == if name in old(dabRoles) then old(dabRoles) else old(dabRoles)[name := {}]
    {
      if InProgress() {
        return;
      }
      var prior := pulpAction;
      pulpAction := true;
      if name !in dabRoles {
        var _ := CreateDabRole(name);
      }
      pulpAction := prior;
    }

    /** `copy_role_definition_to_role`, the `post_save` handler of RoleDefinition. */
    method CopyRoleDefinitionToRole(name: string)
      requires Valid()
      modifies this
      decreases if InProgress() then 0 else 1, 0
      ensures Valid() && FlagsRestored() && GrantsUnchanged() && dabRoles == old(dabRoles)
      ensures old(InProgress()) ==> pulpRoles == old(pulpRoles)
      ensures !old(InProgress()) ==> pulpRoles == if name in old(pulpRoles) then old(pulpRoles) else old(pulpRoles)[name := {}]
    {
      if InProgress() {
        return;
      }
      var prior := dabAction;
      dabAction := true;
      if name !in pulpRoles {
        var _ := CreatePulpRole(name);
      }
      dabAction := prior;
    }

    /**
     * `delete_role_to_role_definition`, the `post_delete` handler of Role. It
     * enters the DAB block, not the pulp one; every handler checks both
     * flags, so the nested RoleDefinition handler returns either way.
     */
    method DeleteRoleToRoleDefinition(name: string)
      requires Valid()
      modifies this
      decreases if InProgress() then 0 else 1, 0
      ensures Valid() && FlagsRestored() && GrantsUnchanged() && pulpRoles == old(pulpRoles)
      ensures dabRoles == if old(InProgress()) then old(dabRoles) else old(dabRoles) - {name}
    {
      if InProgress() {
        return;
      }
      var prior := dabAction;
      dabAction := true;
      if name in dabRoles {
        DeleteDabRole(name);
      }
      dabAction := prior;
    }

    /** `delete_role_definition_to_role`, the `post_delete` handler of RoleDefinition. */
    method DeleteRoleDefinitionToRole(name: string)
      requires Valid()
      modifies this
      decreases if InProgress() then 0 else 1, 0
      ensures Valid() && FlagsRestored() && GrantsUnchanged() && dabRoles == old(dabRoles)
      ensures pulpRoles == if old(InProgress()) then old(pulpRoles) else old(pulpRoles) - {name}
    {
      if InProgress() {
        return;
      }
      var prior := dabAction;
      dabAction := true;
      if name in pulpRoles {
        DeletePulpRole(name);
      }
      dabAction := prior;
    }

    /**
     * `Role.objects.create(name=name)`: an IntegrityError for a taken name,
     * otherwise a new role with no permissions and its `post_save`. With no
     * sync in progress, a same-named role definition then exists as well.
     */
    method CreatePulpRole(name: string) returns (r: Outcome)
      requires Valid()
      modifies this
      decreases if InProgress() then 0 else 1, 1
      ensures Valid() && FlagsRestored() && GrantsUnchanged()
      ensures name in old(pulpRoles) ==> r == Fail(IntegrityError) && RolesUnchanged()
      ensures name !in old(pulpRoles) ==>
        && r == Pass
        && pulpRoles == old(pulpRoles)[name := {}]
        && dabRoles == if old(InProgress()) || name in old(dabRoles) then old(dabRoles) else old(dabRoles)[name := {}]
    {
      if name in pulpRoles {
        return Fail(IntegrityError);
      }
      pulpRoles := pulpRoles[name := {}];
      CopyRoleToRoleDefinition(name);
      r := Pass;
    }

    /** `RoleDefinition.objects.create(name=name)`, the same on the DAB side. */
    method CreateDabRole(name: string) returns (r: Outcome)
      requires Valid()
      modifies this
      decreases if InProgress() then 0 else 1, 1
      ensures Valid() && FlagsRestored() && GrantsUnchanged()
      ensures name in old(dabRoles) ==> r == Fail(IntegrityError) && RolesUnchanged()
      ensures name !in old(dabRoles) ==>
        && r == Pass
        && dabRoles == old(dabRoles)[name := {}]
        && pulpRoles == if old(InProgress()) || name in old(pulpRoles) then old(pulpRoles) else old(pulpRoles)[name := {}]
    {
      if name in dabRoles {
        return Fail(IntegrityError);
      }
      dabRoles := dabRoles[name := {}];
      CopyRoleDefinitionToRole(name);
      r := Pass;
    }

    /** `role.delete()` and its `post_delete`: with no sync in progress the role definition goes too. */
    method DeletePulpRole(name: string)
      requires Valid() && name in pulpRoles
      modifies this
      decreases if InProgress() then 0 else 1, 1
      ensures Valid() && FlagsRestored() && GrantsUnchanged()
      ensures pulpRoles == old(pulpRoles) - {name}
      ensures dabRoles == if old(InProgress()) then old(dabRoles) else old(dabRoles) - {name}
    {
      pulpRoles := pulpRoles - {name};
      DeleteRoleToRoleDefinition(name);
    }

    /** `rd.delete()` and its `post_delete`: with no sync in progress the pulp role goes too. */
    method DeleteDabRole(name: string)
      requires Valid() && name in dabRoles
      modifies this
      decreases if InProgress() then 0 else 1, 1
      ensures Valid() && FlagsRestored() && GrantsUnchanged()
      ensures dabRoles == old(dabRoles) - {name}
      ensures pulpRoles == if old(InProgress()) then old(pulpRoles) else old(pulpRoles) - {name}
    {
      dabRoles := dabRoles - {name};
      DeleteRoleDefinitionToRole(name);
    }

    // -------------------------------------------------------------------------
    // Assignments

    /**
     * `copy_pulp_user_role` and `copy_pulp_group_role`, the `post_save`
     * handlers of UserRole and GroupRole: when a role definition has the
     * role's name, DAB gives it to the user, or to the group's team.
     */
    method CopyPulpGrant(g: PulpGrant) returns (r: Outcome)
      requires Valid()
      modifies this
      decreases if InProgress() then 0 else 1, 0
      ensures Valid() && FlagsRestored() && RolesUnchanged() && pulpGrants == old(pulpGrants)
      ensures old(InProgress()) || g.role !in dabRoles ==> r == Pass && dabGrants == old(dabGrants)
      ensures !old(InProgress()) && g.role in dabRoles ==>
        match DabRowFor(g, teamOfGroup)
        case Err(e) => r == Fail(e) && dabGrants == old(dabGrants)
        case Ok(row) => r == Pass && dabGrants == old(dabGrants) + {row} && PulpRoleArgs(row, groupOfTeam) == Ok(g)
    {
      if InProgress() {
        return Pass;
      }
      var prior := pulpAction;
      pulpAction := true;
      r := Pass;
      if g.role in dabRoles {
        match DabRowFor(g, teamOfGroup) {
          case Err(e) =>
            r := Fail(e);
          case Ok(row) =>
            r := GiveDabPermission(row);
            PulpGrantRoundTrip(g, groupOfTeam, teamOfGroup);
        }
      }
      pulpAction := prior;
    }

    /** `delete_pulp_user_role` and `delete_pulp_group_role`, the `post_delete` handlers. */
    method DeletePulpGrant(g: PulpGrant) returns (r: Outcome)
      requires Valid()
      modifies this
      decreases if InProgress() then 0 else 1, 0
      ensures Valid() && FlagsRestored() && RolesUnchanged() && pulpGrants == old(pulpGrants)
      ensures old(InProgress()) || g.role !in dabRoles ==> r == Pass && dabGrants == old(dabGrants)
      ensures !old(InProgress()) && g.role in dabRoles ==>
        match DabRowFor(g, teamOfGroup)
        case Err(e) => r == Fail(e) && dabGrants == old(dabGrants)
        case Ok(row) => r == Pass && dabGrants == old(dabGrants) - {row}
    {
      if InProgress() {
        return Pass;
      }
      var prior := pulpAction;
      pulpAction := true;
      r := Pass;
      if g.role in dabRoles {
        match DabRowFor(g, teamOfGroup) {
          case Err(e) =>
            r := Fail(e);
          case Ok(row) =>
            r := RemoveDabPermission(row);
        }
      }
      pulpAction := prior;
    }

    /**
     * `rd.give_permission(actor, obj)` / `rd.give_global_permission(actor)`:
     * the assignment row is created when missing, and only a created row
     * fires `post_save`. With no sync in progress, pulp then holds the grant
     * the row reads as.
     */
    method GiveDabPermission(a: DabAssignment) returns (r: Outcome)
      requires Valid()
      modifies this
      decreases if InProgress() then 0 else 1, 1
      ensures Valid() && FlagsRestored() && RolesUnchanged()
      ensures dabGrants == old(dabGrants) + {a}
      ensures old(InProgress()) || a in old(dabGrants) ==> r == Pass && pulpGrants == old(pulpGrants)
      ensures !old(InProgress()) && a !in old(dabGrants) ==>
        match PulpRoleArgs(a, groupOfTeam)
        case Err(e) => r == Fail(e) && pulpGrants == old(pulpGrants)
        case Ok(g) => r == Pass && pulpGrants == old(pulpGrants) + {g}
    {
      if a in dabGrants {
        return Pass;
      }
      dabGrants := dabGrants + {a};
      r := CopyDabAssignment(a);
    }

    /** `rd.remove_permission(actor, obj)` / `rd.remove_global_permission(actor)`: only a deleted row fires `post_delete`. */
    method RemoveDabPermission(a: DabAssignment) returns (r: Outcome)
      requires Valid()
      modifies this
      decreases if InProgress() then 0 else 1, 1
      ensures Valid() && FlagsRestored() && RolesUnchanged()
      ensures dabGrants == old(dabGrants) - {a}
      ensures old(InProgress()) || a !in old(dabGrants) ==> r == Pass && pulpGrants == old(pulpGrants)
      ensures !old(InProgress()) && a in old(dabGrants) ==>
        match PulpRoleArgs(a, groupOfTeam)
        case Err(e) => r == Fail(e) && pulpGrants == old(pulpGrants)
        case Ok(g) => r == Pass && pulpGrants == old(pulpGrants) - {g}
    {
      if a !in dabGrants {
        return Pass;
      }
      dabGrants := dabGrants - {a};
      r := DeleteDabAssignment(a);
    }

    /**
     * `copy_dab_user_role_assignment` and `copy_dab_team_role_assignment`,
     * the `post_save` handlers of the DAB assignments.
     */
    method CopyDabAssignment(a: DabAssignment) returns (r: Outcome)
      requires Valid()
      modifies this
      decreases if InProgress() then 0 else 1, 0
      ensures Valid() && FlagsRestored() && RolesUnchanged() && dabGrants == old(dabGrants)
      ensures old(InProgress()) ==> r == Pass && pulpGrants == old(pulpGrants)
      ensures !old(InProgress()) ==>
        match PulpRoleArgs(a, groupOfTeam)
        case Err(e) => r == Fail(e) && pulpGrants == old(pulpGrants)
        case Ok(g) => r == Pass && pulpGrants == old(pulpGrants) + {g}
    {
      if InProgress() {
        return Pass;
      }
      var prior := dabAction;
      dabAction := true;
      r := ApplyDabAssignment(a);
      dabAction := prior;
    }

    /** `delete_dab_user_role_assignment` and `delete_dab_team_role_assignment`, the `post_delete` handlers. */
    method DeleteDabAssignment(a: DabAssignment) returns (r: Outcome)
      requires Valid()
      modifies this
      decreases if InProgress() then 0 else 1, 0
      ensures Valid() && FlagsRestored() && RolesUnchanged() && dabGrants == old(dabGrants)
      ensures old(InProgress()) ==> r == Pass && pulpGrants == old(pulpGrants)
      ensures !old(InProgress()) ==>
        match PulpRoleArgs(a, groupOfTeam)
        case Err(e) => r == Fail(e) && pulpGrants == old(pulpGrants)
        case Ok(g) => r == Pass && pulpGrants == old(pulpGrants) - {g}
    {
      if InProgress() {
        return Pass;
      }
      var prior := dabAction;
      dabAction := true;
      r := UnapplyDabAssignment(a);
      dabAction := prior;
    }

    /** `_apply_dab_assignment`: `assign_role` with the arguments `_get_pulp_role_kwargs` builds. */
    method ApplyDabAssignment(a: DabAssignment) returns (r: Outcome)
      requires Valid()
      modifies this
      decreases if InProgress() then 0 else 1, 2
      ensures Valid() && FlagsRestored() && RolesUnchanged()
      ensures match PulpRoleArgs(a, groupOfTeam)
        case Err(e) => r == Fail(e) && GrantsUnchanged()
        case Ok(g) =>
          && pulpGrants == old(pulpGrants) + {g}
          && (old(InProgress()) || g in old(pulpGrants) ==> r == Pass && dabGrants == old(dabGrants))
    {
      match PulpRoleArgs(a, groupOfTeam) {
        case Err(e) =>
          r := Fail(e);
        case Ok(g) =>
          r := AssignPulpRole(g);
      }
    }

    /** `_unapply_dab_assignment`: `remove_role` with the same arguments. */
    method UnapplyDabAssignment(a: DabAssignment) returns (r: Outcome)
      requires Valid()
      modifies this
      decreases if InProgress() then 0 else 1, 2
      ensures Valid() && FlagsRestored() && RolesUnchanged()
      ensures match PulpRoleArgs(a, groupOfTeam)
        case Err(e) => r == Fail(e) && GrantsUnchanged()
        case Ok(g) =>
          && pulpGrants == old(pulpGrants) - {g}
          && (old(InProgress()) || g !in old(pulpGrants) ==> r == Pass && dabGrants == old(dabGrants))
    {
      match PulpRoleArgs(a, groupOfTeam) {
        case Err(e) =>
          r := Fail(e);
        case Ok(g) =>
          r := RemovePulpRole(g);
      }
    }

    /**
     * pulp's `assign_role(role, entity, obj)`: the grant row is created when
     * missing, and only a created row fires `post_save`. With no sync in
     * progress and a same-named role definition, DAB then holds the row that
     * reads back as this grant.
     */
    method AssignPulpRole(g: PulpGrant) returns (r: Outcome)
      requires Valid()
      modifies this
      decreases if InProgress() then 0 else 1, 1
      ensures Valid() && FlagsRestored() && RolesUnchanged()
      ensures pulpGrants == old(pulpGrants) + {g}
      ensures old(InProgress()) || g in old(pulpGrants) || g.role !in dabRoles ==> r == Pass && dabGrants == old(dabGrants)
      ensures !old(InProgress()) && g !in old(pulpGrants) && g.role in dabRoles ==>
        match DabRowFor(g, teamOfGroup)
        case Err(e) => r == Fail(e) && dabGrants == old(dabGrants)
        case Ok(row) => r == Pass && dabGrants == old(dabGrants) + {row} && PulpRoleArgs(row, groupOfTeam) == Ok(g)
    {
      if g in pulpGrants {
        return Pass;
      }
      pulpGrants := pulpGrants + {g};
      r := CopyPulpGrant(g);
    }

    /** pulp's `remove_role(role, entity, obj)`: only a deleted row fires `post_delete`. */
    method RemovePulpRole(g: PulpGrant) returns (r: Outcome)
      requires Valid()
      modifies this
      decreases if InProgress() then 0 else 1, 1
      ensures Valid() && FlagsRestored() && RolesUnchanged()
      ensures pulpGrants == old(pulpGrants) - {g}
      ensures old(InProgress()) || g !in old(pulpGrants) || g.role !in dabRoles ==> r == Pass && dabGrants == old(dabGrants)
      ensures !old(InProgress()) && g in old(pulpGrants) && g.role in dabRoles ==>
        match DabRowFor(g, teamOfGroup)
        case Err(e) => r == Fail(e) && dabGrants == old(dabGrants)
        case Ok(row) => r == Pass && dabGrants == old(dabGrants) - {row}
    {
      if g !in pulpGrants {
        return Pass;
      }
      pulpGrants := pulpGrants - {g};
      r := DeletePulpGrant(g);
    }

    // -------------------------------------------------------------------------
    // Role permissions: the m2m_changed handlers and the writes that fire them.
    // These handlers never set a flag, so a copy re-enters the opposite
    // handler; each method changes the role tables exactly as its namesake in
    // PermSync says, whose lemmas state what that change is.

    /** `copy_permission_role_to_rd`, the `m2m_changed` handler of `Role.permissions`. */
    method OnPulpPermissionsChanged(name: string, action: M2MAction, reverse: bool, depth: nat) returns (r: Outcome)
      requires Valid()
      modifies this
      decreases depth, 3
      ensures Valid() && FlagsRestored() && GrantsUnchanged()
      ensures PermSync.Step(r, RoleTables())
        == PermSync.OnPermissionsChanged(PulpSide, name, action, reverse, old(InProgress()), Cats(), old(RoleTables()), depth)
    {
      if InProgress() || action.IsPre() {
        return Pass;
      }
      if reverse {
        return Fail(ReverseRelation);
      }
      r := Pass;
      if name in dabRoles {
        r := CopyPermissionsRoleToRole(PulpSide, name, depth);
      }
    }

    /** `copy_permission_rd_to_role`, the `m2m_changed` handler of `RoleDefinition.permissions`. */
    method OnDabPermissionsChanged(name: string, action: M2MAction, reverse: bool, depth: nat) returns (r: Outcome)
      requires Valid()
      modifies this
      decreases depth, 3
      ensures Valid() && FlagsRestored() && GrantsUnchanged()
      ensures PermSync.Step(r, RoleTables())
        == PermSync.OnPermissionsChanged(DabSide, name, action, reverse, old(InProgress()), Cats(), old(RoleTables()), depth)
    {
      if InProgress() || action.IsPre() {
        return Pass;
      }
      if reverse {
        return Fail(ReverseRelation);
      }
      r := Pass;
      if name in pulpRoles {
        r := CopyPermissionsRoleToRole(DabSide, name, depth);
      }
    }

    /**
     * `copy_permissions_role_to_role(A, B)` for the role `name` on side `src`
     * and its counterpart: both codename differences are taken first, then
     * the missing rows are added and the extra rows removed by id.
     */
    method CopyPermissionsRoleToRole(src: Side, name: string, depth: nat) returns (r: Outcome)
      requires Valid()
      modifies this
      decreases depth, 2
      ensures Valid() && FlagsRestored() && GrantsUnchanged()
      ensures PermSync.Step(r, RoleTables())
        == PermSync.CopyRoleToRole(src, name, old(InProgress()), Cats(), old(RoleTables()), depth)
    {
      var dst := src.Other();
      var codenamesA := PermSync.Codenames(PermSync.PermsOf(Table(src), name));
      var codenamesB := PermSync.Codenames(PermSync.PermsOf(Table(dst), name));
      var toAdd := codenamesA - codenamesB;
      var toRemove := codenamesB - codenamesA;
      r := Pass;
      if toAdd != {} {
        r := AddPermissions(dst, name, PermSync.WithCodenames(Cats().Of(dst), toAdd), depth);
      }
      if r.Pass? && toRemove != {} {
        r := RemovePermissions(dst, name, PermSync.WithCodenames(Cats().Of(dst), toRemove), depth);
      }
    }

    /** Replace the permission rows of role `name` on side `side`. */
    method SetRolePermissions(side: Side, name: string, perms: set<Perm>)
      requires Valid() && perms <= Cats().Of(side)
      modifies this
      ensures Valid() && FlagsRestored() && GrantsUnchanged()
      ensures RoleTables() == old(RoleTables()).Put(side, name, perms)
    {
      if side == PulpSide {
        pulpRoles := pulpRoles[name := perms];
      } else {
        dabRoles := dabRoles[name := perms];
      }
    }

    /** Undo the role-permission writes of a failed `transaction.atomic` block that started at `saved`. */
    method RollbackRoles(saved: PermSync.Tables)
      requires Valid()
      requires forall n :: n in saved.pulp ==> saved.pulp[n] <= pulpPerms
      requires forall n :: n in saved.dab ==> saved.dab[n] <= dabPerms
      modifies this
      ensures Valid() && FlagsRestored() && GrantsUnchanged()
      ensures RoleTables() == saved
    {
      pulpRoles, dabRoles := saved.pulp, saved.dab;
    }

    /** `role.permissions.add(*ids)`: all or nothing. */
    method AddPermissions(side: Side, name: string, ids: set<Perm>, depth: nat) returns (r: Outcome)
      requires Valid() && ids <= Cats().Of(side)
      modifies this
      decreases depth, 1
      ensures Valid() && FlagsRestored() && GrantsUnchanged()
      ensures PermSync.Step(r, RoleTables())
        == PermSync.AddPermissions(side, name, ids, old(InProgress()), Cats(), old(RoleTables()), depth)
    {
      if ids == {} {
        return Pass;
      }
      var saved := RoleTables();
      r := Deliver(side, name, PreAdd, depth);
      if r.Fail? {
        RollbackRoles(saved);
        return;
      }
      SetRolePermissions(side, name, PermSync.PermsOf(Table(side), name) + ids);
      r := Deliver(side, name, PostAdd, depth);
      if r.Fail? {
        RollbackRoles(saved);
      }
    }

    /** `role.permissions.remove(*ids)`: all or nothing. */
    method RemovePermissions(side: Side, name: string, ids: set<Perm>, depth: nat) returns (r: Outcome)
      requires Valid()
      modifies this
      decreases depth, 1
      ensures Valid() && FlagsRestored() && GrantsUnchanged()
      ensures PermSync.Step(r, RoleTables())
        == PermSync.RemovePermissions(side, name, ids, old(InProgress()), Cats(), old(RoleTables()), depth)
    {
      if ids == {} {
        return Pass;
      }
      var saved := RoleTables();
      r := Deliver(side, name, PreRemove, depth);
      if r.Fail? {
        RollbackRoles(saved);
        return;
      }
      SetRolePermissions(side, name, PermSync.PermsOf(Table(side), name) - ids);
      r := Deliver(side, name, PostRemove, depth);
      if r.Fail? {
        RollbackRoles(saved);
      }
    }

    /** `role.permissions.clear()`: all or nothing. */
    method ClearPermissions(side: Side, name: string, depth: nat) returns (r: Outcome)
      requires Valid()
      modifies this
      ensures Valid() && FlagsRestored() && GrantsUnchanged()
      ensures PermSync.Step(r, RoleTables())
        == PermSync.ClearPermissions(side, name, old(InProgress()), Cats(), old(RoleTables()), depth)
    {
      var saved := RoleTables();
      r := Deliver(side, name, PreClear, depth);
      if r.Fail? {
        RollbackRoles(saved);
        return;
      }
      SetRolePermissions(side, name, {});
      r := Deliver(side, name, PostClear, depth);
      if r.Fail? {
        RollbackRoles(saved);
      }
    }

    /** Django's delivery of `m2m_changed` for side `side`'s relation, one level deeper. */
    method Deliver(side: Side, name: string, action: M2MAction, depth: nat) returns (r: Outcome)
      requires Valid()
      modifies this
      decreases depth, 0
      ensures Valid() && FlagsRestored() && GrantsUnchanged()
      ensures PermSync.Step(r, RoleTables())
        == PermSync.Deliver(side, name, action, old(InProgress()), Cats(), old(RoleTables()), depth)
    {
      if depth == 0 {
        return Fail(RecursionLimit);
      }
      if side == PulpSide {
        r := OnPulpPermissionsChanged(name, action, false, depth - 1);
      } else {
        r := OnDabPermissionsChanged(name, action, false, depth - 1);
      }
    }
  }
}
