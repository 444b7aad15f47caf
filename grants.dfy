/**
 * The assignment mirror's translation between the two stores' grant rows:
 * a pulp UserRole/GroupRole becomes a DAB assignment of the same role to the
 * user or to the group's team, and a DAB assignment becomes the arguments of
 * pulp's `assign_role`/`remove_role`.
 */
module Grants {
  import opened Wrappers
  import opened RbacTypes

  /** The DAB row that `give_permission(actor, obj)` / `give_global_permission(actor)` creates. */
  function ActorRow(role: string, actor: DabActor, obj: Option<ContentObject>): (a: DabAssignment)
    ensures a.roleDefinition == role && a.obj == obj
    ensures a.userId.Some? <==> actor.DabUser?
    ensures a.teamId.Some? <==> actor.DabTeam?
  {
    match actor
    case DabUser(u) => DabAssignment(role, Some(u), None, obj)
    case DabTeam(t) => DabAssignment(role, None, Some(t), obj)
  }

  /** `instance.user` of a UserRole, or `instance.group.team` of a GroupRole. */
  function DabActorOf(e: PulpEntity, teamOfGroup: map<nat, nat>): (r: Result<DabActor, SyncError>)
    ensures r.Err? <==> e.PulpGroup? && e.gid !in teamOfGroup
    ensures r.Err? ==> r.error == MissingLink
    ensures r.Ok? && e.PulpUser? ==> r.value == DabUser(e.uid)
    ensures r.Ok? && e.PulpGroup? ==> r.value == DabTeam(teamOfGroup[e.gid])
  {
    match e
    case PulpUser(u) => Ok(DabUser(u))
    case PulpGroup(g) => if g in teamOfGroup then Ok(DabTeam(teamOfGroup[g])) else Err(MissingLink)
  }

  /** The DAB row the pulp-side handlers give or remove for a pulp grant. */
  function DabRowFor(g: PulpGrant, teamOfGroup: map<nat, nat>): (r: Result<DabAssignment, SyncError>)
    ensures r.Err? <==> g.entity.PulpGroup? && g.entity.gid !in teamOfGroup
    ensures r.Ok? ==> SingleActor(r.value) && r.value.roleDefinition == g.role && r.value.obj == g.obj
    ensures r.Ok? && g.entity.PulpUser? ==> r.value.userId == Some(g.entity.uid)
    ensures r.Ok? && g.entity.PulpGroup? ==> r.value.teamId == Some(teamOfGroup[g.entity.gid])
  {
    match DabActorOf(g.entity, teamOfGroup)
    case Ok(actor) => Ok(ActorRow(g.role, actor, g.obj))
    case Err(e) => Err(e)
  }

  /**
   * `_get_pulp_role_kwargs`: the role name, the entity (the user when
   * `user_id` is set, else `team.group`) and the object (only when
   * `object_id` is set) that pulp's `assign_role`/`remove_role` receive.
   */
  function PulpRoleArgs(a: DabAssignment, groupOfTeam: map<nat, nat>): (r: Result<PulpGrant, SyncError>)
    ensures r.Ok? <==> a.userId.Some? || (a.teamId.Some? && a.teamId.value in groupOfTeam)
    ensures r.Err? && a.teamId.None? ==> r.error == NoEntity
    ensures r.Err? && a.teamId.Some? ==> r.error == MissingLink
    ensures r.Ok? ==> r.value.role == a.roleDefinition && r.value.obj == a.obj
    ensures r.Ok? && a.userId.Some? ==> r.value.entity == PulpUser(a.userId.value)
    ensures r.Ok? && a.userId.None? ==> r.value.entity == PulpGroup(groupOfTeam[a.teamId.value])
  {
    // `obj` is passed only when `object_id` is set, which is when a.obj is Some
    var obj := a.obj;
    if a.userId.Some? then
      Ok(PulpGrant(a.roleDefinition, PulpUser(a.userId.value), obj))
    else if a.teamId.Some? then
      if a.teamId.value in groupOfTeam then
        Ok(PulpGrant(a.roleDefinition, PulpGroup(groupOfTeam[a.teamId.value]), obj))
      else
        Err(MissingLink)
    else
      Err(NoEntity)
  }

  /** A DAB row names exactly one actor, as RoleUserAssignment and RoleTeamAssignment rows do. */
  predicate SingleActor(a: DabAssignment) {
    a.userId.Some? != a.teamId.Some?
  }

  /**
   * Mirroring a pulp grant into DAB and reading the DAB row back as pulp
   * arguments gives the grant back: the two directions of the assignment
   * mirror are inverse whenever the group has a team.
   */
  lemma PulpGrantRoundTrip(g: PulpGrant, groupOfTeam: map<nat, nat>, teamOfGroup: map<nat, nat>)
    requires LinksInverse(groupOfTeam, teamOfGroup)
    requires g.entity.PulpGroup? ==> g.entity.gid in teamOfGroup
    ensures DabRowFor(g, teamOfGroup).Ok?
    ensures SingleActor(DabRowFor(g, teamOfGroup).value)
    ensures PulpRoleArgs(DabRowFor(g, teamOfGroup).value, groupOfTeam) == Ok(g)
  {
    match g.entity
    case PulpUser(u) =>
    case PulpGroup(gid) =>
      var t := teamOfGroup[gid];
      assert groupOfTeam[t] == gid;
  }

  /**
   * Reading a single-actor DAB row as pulp arguments and mirroring those back
   * into DAB gives the row back.
   */
  lemma DabRowRoundTrip(a: DabAssignment, groupOfTeam: map<nat, nat>, teamOfGroup: map<nat, nat>)
    requires LinksInverse(groupOfTeam, teamOfGroup)
    requires SingleActor(a)
    requires a.teamId.Some? ==> a.teamId.value in groupOfTeam
    ensures PulpRoleArgs(a, groupOfTeam).Ok?
    ensures DabRowFor(PulpRoleArgs(a, groupOfTeam).value, teamOfGroup) == Ok(a)
  {
    if a.userId.None? {
      var t := a.teamId.value;
      assert teamOfGroup[groupOfTeam[t]] == t;
    }
  }
}
