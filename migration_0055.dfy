/**
 * Migration 0055 of galaxy: seed a managed "Namespace Admin" role definition
 * holding every DAB permission whose name mentions "namespace", unless a
 * role definition of that name already exists.
 */
module Migration0055 {
  import opened Wrappers
  import opened Strings
  import opened DabModels

  const NamespaceAdmin := "Namespace Admin"

  /** `DABPermission.objects.all().filter(name__icontains='namespace')`, in table order. */
  function Selected(rows: seq<DabPermission>): (sel: seq<DabPermission>)
    ensures forall x :: x in sel <==> x in rows && ContainsIgnoringCase(x.name, "namespace")
    ensures |sel| <= |rows|
  {
    if rows == [] then []
    else
      var front := Selected(rows[..|rows| - 1]);
      var last := rows[|rows| - 1];
      assert forall x :: x in rows <==> x in rows[..|rows| - 1] || x == last;
      if ContainsIgnoringCase(last.name, "namespace") then front + [last] else front
  }

  /** The role definition the migration creates: managed, typed by the first selected permission, holding all of them. */
  function NamespaceAdminDefinition(sel: seq<DabPermission>): (rd: RoleDefinition)
    requires sel != []
    ensures rd.managed && rd.contentType == Some(sel[0].contentType)
    ensures rd.permissions == Ids(sel) && rd.description == ""
  {
    NewRoleDefinition.(contentType := Some(sel[0].contentType), managed := true, permissions := Ids(sel))
  }

  /** One more `rd.permissions.add(perm)`: the role definition holds the ids of one more selected permission. */
  lemma AddStep(base: map<string, RoleDefinition>, rd: RoleDefinition, sel: seq<DabPermission>, n: nat)
    requires n < |sel|
    ensures var m := base[NamespaceAdmin := rd.(permissions := Ids(sel[..n]))];
      var current := m[NamespaceAdmin];
      m[NamespaceAdmin := current.(permissions := current.permissions + {sel[n].id})]
        == base[NamespaceAdmin := rd.(permissions := Ids(sel[..n + 1]))]
  {
    PrefixIds(sel, n);
  }

  /**
   * `copy_permissions_to_role_definitions`. The defaults of the
   * get-or-create are built before the lookup, so an empty selection raises
   * IndexError whether or not the role definition exists, and nothing is
   * written. Otherwise "Namespace Admin" exists afterwards; a new one is
   * managed, takes the content type of the first selected permission and
   * holds every selected permission, and an existing one is left as it was.
   */
  method CopyPermissionsToRoleDefinitions(db: DabDatabase) returns (r: Result<(), DbError>)
    modifies db
    ensures r.Err? <==> Selected(old(db.permissions)) == []
    ensures r.Err? ==> r.error == IndexError && db.roleDefinitions == old(db.roleDefinitions)
    ensures r.Ok? ==> NamespaceAdmin in db.roleDefinitions
    ensures r.Ok? && NamespaceAdmin in old(db.roleDefinitions) ==> db.roleDefinitions == old(db.roleDefinitions)
    ensures r.Ok? && NamespaceAdmin !in old(db.roleDefinitions) ==>
      db.roleDefinitions == old(db.roleDefinitions)[NamespaceAdmin := NamespaceAdminDefinition(Selected(old(db.permissions)))]
    ensures db.permissions == old(db.permissions) && db.nextPermissionId == old(db.nextPermissionId)
  {
    var permissions := Selected(db.permissions);
    if permissions == [] {
      return Err(IndexError);
    }
    if NamespaceAdmin in db.roleDefinitions {
      return Ok(());
    }
    CreateNamespaceAdmin(db, permissions);
    return Ok(());
  }

  /**
   * The branch of a new "Namespace Admin": create it managed with the
   * content type of the first selected permission, then add the selected
   * permissions one by one.
   */
  method CreateNamespaceAdmin(db: DabDatabase, permissions: seq<DabPermission>)
    requires permissions != []
    modifies db
    ensures db.roleDefinitions == old(db.roleDefinitions)[NamespaceAdmin := NamespaceAdminDefinition(permissions)]
    ensures db.permissions == old(db.permissions) && db.nextPermissionId == old(db.nextPermissionId)
  {
    var rd := NewRoleDefinition.(contentType := Some(permissions[0].contentType), managed := true);
    db.roleDefinitions := db.roleDefinitions[NamespaceAdmin := rd];
    assert permissions[..0] == [] && rd.(permissions := Ids([])) == rd;
    for n := 0 to |permissions|
      invariant db.permissions == old(db.permissions) && db.nextPermissionId == old(db.nextPermissionId)
      invariant db.roleDefinitions == old(db.roleDefinitions)[NamespaceAdmin := rd.(permissions := Ids(permissions[..n]))]
    {
      var current := db.roleDefinitions[NamespaceAdmin];
      AddStep(old(db.roleDefinitions), rd, permissions, n);
      db.roleDefinitions := db.roleDefinitions[NamespaceAdmin := current.(permissions := current.permissions + {permissions[n].id})];
    }
    assert permissions[..|permissions|] == permissions;
  }
}
