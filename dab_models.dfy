/**
 * The rows that the DAB backfill command and the galaxy migrations read and
 * write: content types, auth permissions, DAB permissions, pulp roles and
 * DAB role definitions, with the DAB tables held by one database object.
 */
module DabModels {
  import opened Wrappers

  /** A django ContentType row. */
  datatype ContentType = ContentType(id: nat, appLabel: string, model: string)

  /** A django auth Permission row, as read through `role.permissions`. */
  datatype AuthPermission = AuthPermission(codename: string, contentType: ContentType, name: string)

  /** A DABPermission row. */
  datatype DabPermission = DabPermission(id: nat, codename: string, contentType: ContentType, name: string)
  {
    /** The (codename, content_type, name) fields a migration looks the row up by. */
    function Fields(): AuthPermission {
      AuthPermission(codename, contentType, name)
    }
  }

  /** A pulp core Role row: its unique name and its permissions in query order. */
  datatype CoreRole = CoreRole(name: string, permissions: seq<AuthPermission>)

  /** A DAB RoleDefinition row, without its name (the key of its table). */
  datatype RoleDefinition = RoleDefinition(
    description: string,
    permissions: set<nat>,        // ids of DABPermission rows
    contentType: Option<ContentType>,
    managed: bool)

  /** The row `RoleDefinition.objects.get_or_create(name=...)` inserts without defaults. */
  const NewRoleDefinition := RoleDefinition("", {}, None, false)

  /** Errors of the ORM calls the migrations make. */
  datatype DbError =
    | DoesNotExist             // `objects.get` matched no row
    | MultipleObjectsReturned  // `objects.get` (or get_or_create's lookup) matched several rows
    | IndexError               // a queryset indexed past its end

  /** The ids of some DAB permissions. */
  function Ids(ps: seq<DabPermission>): (ids: set<nat>)
    ensures forall i :: 0 <= i < |ps| ==> ps[i].id in ids
    ensures forall id :: id in ids ==> exists i :: 0 <= i < |ps| && ps[i].id == id
  {
    set i | 0 <= i < |ps| :: ps[i].id
  }

  /** Appending a permission adds its id. */
  lemma IdsAppend(ps: seq<DabPermission>, x: DabPermission)
    ensures Ids(ps + [x]) == Ids(ps) + {x.id}
  {
    assert forall i :: 0 <= i < |ps| ==> (ps + [x])[i] == ps[i];
    assert (ps + [x])[|ps|] == x;
  }

  /** The ids of a longer prefix: one more id. */
  lemma PrefixIds(all: seq<DabPermission>, n: nat)
    requires n < |all|
    ensures Ids(all[..n + 1]) == Ids(all[..n]) + {all[n].id}
  {
    assert all[..n + 1] == all[..n] + [all[n]];
    IdsAppend(all[..n], all[n]);
  }

  /** The distinct content types of a role's permissions. */
  function ContentTypesOf(perms: seq<AuthPermission>): set<ContentType> {
    set i | 0 <= i < |perms| :: perms[i].contentType
  }

  /** One more permission of the prefix: its content type joins the set. */
  lemma ContentTypesStep(perms: seq<AuthPermission>, j: nat)
    requires j < |perms|
    ensures ContentTypesOf(perms[..j + 1]) == ContentTypesOf(perms[..j]) + {perms[j].contentType}
  {
    assert forall i :: 0 <= i < j ==> perms[..j + 1][i] == perms[..j][i];
    assert perms[..j + 1][j] == perms[j];
  }

  /** The DAB tables: the permission table with its id sequence, and the role definitions by name. */
  class DabDatabase {
    var permissions: seq<DabPermission>
    var nextPermissionId: nat
    var roleDefinitions: map<string, RoleDefinition>

    constructor(permissions: seq<DabPermission>, nextPermissionId: nat, roleDefinitions: map<string, RoleDefinition>)
      ensures this.permissions == permissions && this.nextPermissionId == nextPermissionId
      ensures this.roleDefinitions == roleDefinitions
    {
      this.permissions := permissions;
      this.nextPermissionId := nextPermissionId;
      this.roleDefinitions := roleDefinitions;
    }
  }
}
