/**
 * Entities of the role/permission synchronisation engine between the pulp
 * authorization store (Role, UserRole, GroupRole) and the DAB store
 * (RoleDefinition, RoleUserAssignment, RoleTeamAssignment).
 */
module RbacTypes {
  import opened Wrappers

  /** A permission row of either store: its primary key and its codename. */
  datatype Perm = Perm(id: nat, codename: string)

  /** Which of the two stores a role lives in. */
  datatype Side = PulpSide | DabSide {
    function Other(): Side {
      if this == PulpSide then DabSide else PulpSide
    }
  }

  /** The `action` argument of Django's `m2m_changed` signal. */
  datatype M2MAction = PreAdd | PostAdd | PreRemove | PostRemove | PreClear | PostClear {
    /** `action.startswith("pre_")` */
    predicate IsPre() {
      this == PreAdd || this == PreRemove || this == PreClear
    }
  }

  /** Exceptions the handlers raise or let through. */
  datatype SyncError =
    | ReverseRelation   // RuntimeError: permissions changed through the reverse relationship
    | RecursionLimit    // the interpreter's recursion limit was reached by nested signal delivery
    | IntegrityError    // a unique name was created twice
    | MissingLink       // a Group without a Team, or a Team without a Group
    | NoEntity          // a DAB assignment with neither user nor team

  /** How a handler or store write ends: normally, or with an exception. */
  datatype Outcome = Pass | Fail(error: SyncError)

  /** The object an assignment is scoped to; absent for a global assignment. */
  datatype ContentObject = ContentObject(contentType: string, objectId: string)

  /** The principal of a pulp UserRole (a user) or GroupRole (a group). */
  datatype PulpEntity = PulpUser(uid: nat) | PulpGroup(gid: nat)

  /** The actor of a DAB RoleUserAssignment (a user) or RoleTeamAssignment (a team). */
  datatype DabActor = DabUser(uid: nat) | DabTeam(tid: nat)

  /** A pulp UserRole or GroupRole row: role name, principal, optional object. */
  datatype PulpGrant = PulpGrant(role: string, entity: PulpEntity, obj: Option<ContentObject>)

  /**
   * A DAB RoleUserAssignment or RoleTeamAssignment row as its handlers read it:
   * the role definition's name, `user_id`, `team_id` and `object_id`/`content_object`.
   */
  datatype DabAssignment = DabAssignment(
    roleDefinition: string,
    userId: Option<nat>,
    teamId: Option<nat>,
    obj: Option<ContentObject>)

  /** The one-to-one link between a Team and its Group, seen from both ends. */
  predicate LinksInverse(groupOfTeam: map<nat, nat>, teamOfGroup: map<nat, nat>) {
    && (forall t :: t in groupOfTeam ==> groupOfTeam[t] in teamOfGroup && teamOfGroup[groupOfTeam[t]] == t)
    && (forall g :: g in teamOfGroup ==> teamOfGroup[g] in groupOfTeam && groupOfTeam[teamOfGroup[g]] == g)
  }
}
