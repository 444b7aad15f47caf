/**
 * Migration 0054 of galaxy: seed a DABPermission for every auth Permission,
 * and (in an operation the migration lists but has commented out) copy every
 * pulp Role into a same-named RoleDefinition. Both have reverse operations
 * that empty the table they filled. A migration runs in one transaction, so
 * an operation that raises leaves the tables as they were.
 */
module Migration0054 {
  import opened Wrappers
  import opened DabModels

  /** The rows of a DAB permission table whose identifying fields are `f`, in table order. */
  function MatchingRows(rows: seq<DabPermission>, f: AuthPermission): (r: seq<DabPermission>)
    ensures |r| <= |rows|
    ensures forall x :: x in r ==> x in rows && x.Fields() == f
    ensures forall i :: 0 <= i < |rows| && rows[i].Fields() == f ==> rows[i] in r
  {
    if rows == [] then []
    else
      var front := MatchingRows(rows[..|rows| - 1], f);
      assert forall i :: 0 <= i < |rows| - 1 ==> rows[i] == rows[..|rows| - 1][i];
      if rows[|rows| - 1].Fields() == f then front + [rows[|rows| - 1]] else front
  }

  /** `DABPermission.objects.get(codename=..., content_type=..., name=...)` */
  function Get(rows: seq<DabPermission>, f: AuthPermission): (r: Result<DabPermission, DbError>)
    ensures r.Ok? ==> r.value in rows && r.value.Fields() == f
    ensures r == Err(DoesNotExist) <==> forall i :: 0 <= i < |rows| ==> rows[i].Fields() != f
  {
    var m := MatchingRows(rows, f);
    assert |m| > 0 ==> m[0] in rows;
    if |m| == 0 then Err(DoesNotExist)
    else if |m| > 1 then Err(MultipleObjectsReturned)
    else Ok(m[0])
  }

  /** The DABPermission table: its rows in table order and the next id its sequence hands out. */
  datatype PermTable = PermTable(rows: seq<DabPermission>, nextId: nat)

  /** `DABPermission.objects.get_or_create(...)`: the table after looking `f` up, creating it when absent. */
  function GetOrCreate(t: PermTable, f: AuthPermission): (r: Result<PermTable, DbError>)
    ensures r.Err? <==> Get(t.rows, f) == Err(MultipleObjectsReturned)
    ensures r.Err? ==> r.error == MultipleObjectsReturned
    ensures r.Ok? ==> t.rows <= r.value.rows && |r.value.rows| <= |t.rows| + 1
    ensures r.Ok? && Get(t.rows, f).Ok? ==> r.value == t
  {
    match Get(t.rows, f)
    case Ok(_) => Ok(t)
    case Err(DoesNotExist) =>
      Ok(PermTable(t.rows + [DabPermission(t.nextId, f.codename, f.contentType, f.name)], t.nextId + 1))
    case Err(e) => Err(e)
  }

  /** The table after `create_permissions_as_operation` visits every auth permission in order. */
  function Seed(t: PermTable, fs: seq<AuthPermission>): (r: Result<PermTable, DbError>)
    ensures r.Err? ==> r.error == MultipleObjectsReturned
    ensures r.Ok? ==> |t.rows| <= |r.value.rows| <= |t.rows| + |fs|
  {
    if fs == [] then Ok(t)
    else
      match Seed(t, fs[..|fs| - 1])
      case Ok(t1) => GetOrCreate(t1, fs[|fs| - 1])
      case Err(e) => Err(e)
  }

  /** The table holds exactly one row with fields `f`. */
  predicate HasOne(rows: seq<DabPermission>, f: AuthPermission) {
    |MatchingRows(rows, f)| == 1
  }

  /** No two rows of the table share their identifying fields. */
  predicate NoDuplicates(rows: seq<DabPermission>) {
    forall i, j :: 0 <= i < j < |rows| ==> rows[i].Fields() != rows[j].Fields()
  }

  lemma MatchingRowsAppend(rows: seq<DabPermission>, x: DabPermission, f: AuthPermission)
    ensures MatchingRows(rows + [x], f) == if x.Fields() == f then MatchingRows(rows, f) + [x] else MatchingRows(rows, f)
  {
    assert (rows + [x])[..|rows + [x]| - 1] == rows;
  }

  /** In a table without duplicates, a lookup finds at most one row. */
  lemma {:induction false} NoDuplicatesAtMostOne(rows: seq<DabPermission>, f: AuthPermission)
    requires NoDuplicates(rows)
    ensures |MatchingRows(rows, f)| <= 1
  {
    if rows != [] {
      var front := rows[..|rows| - 1];
      assert NoDuplicates(front) by {
        forall i, j | 0 <= i < j < |front| ensures front[i].Fields() != front[j].Fields() {
          assert front[i] == rows[i] && front[j] == rows[j];
        }
      }
      NoDuplicatesAtMostOne(front, f);
      assert rows == front + [rows[|rows| - 1]];
      MatchingRowsAppend(front, rows[|rows| - 1], f);
      if rows[|rows| - 1].Fields() == f {
        assert forall i :: 0 <= i < |front| ==> front[i] == rows[i];
        NoMatch(front, f);
      }
    }
  }

  lemma {:induction false} NoMatch(rows: seq<DabPermission>, f: AuthPermission)
    requires forall i :: 0 <= i < |rows| ==> rows[i].Fields() != f
    ensures MatchingRows(rows, f) == []
  {
    if rows != [] {
      var front := rows[..|rows| - 1];
      assert forall i :: 0 <= i < |front| ==> front[i] == rows[i];
      NoMatch(front, f);
    }
  }

  /**
   * A successful seeding keeps every row that was there, unchanged and in
   * place, and leaves exactly one row for each auth permission it visited.
   */
  lemma {:induction false} SeedEffect(t: PermTable, fs: seq<AuthPermission>)
    requires Seed(t, fs).Ok?
    ensures t.rows <= Seed(t, fs).value.rows
    ensures forall i :: 0 <= i < |fs| ==> HasOne(Seed(t, fs).value.rows, fs[i])
  {
    if fs != [] {
      var front := fs[..|fs| - 1];
      var f := fs[|fs| - 1];
      SeedEffect(t, front);
      var t1 := Seed(t, front).value;
      var t2 := Seed(t, fs).value;
      if Get(t1.rows, f).Err? {
        var x := DabPermission(t1.nextId, f.codename, f.contentType, f.name);
        assert t2.rows == t1.rows + [x];
        MatchingRowsAppend(t1.rows, x, f);
        assert MatchingRows(t1.rows, f) == [];
        forall i | 0 <= i < |fs| ensures HasOne(t2.rows, fs[i]) {
          MatchingRowsAppend(t1.rows, x, fs[i]);
          if i < |fs| - 1 {
            assert fs[i] == front[i];
          }
        }
      } else {
        forall i | 0 <= i < |fs| ensures HasOne(t2.rows, fs[i]) {
          if i < |fs| - 1 {
            assert fs[i] == front[i];
          }
        }
      }
    }
  }

  /** Seeding a table that already holds exactly one row per visited permission changes nothing. */
  lemma {:induction false} SeedStable(t: PermTable, fs: seq<AuthPermission>)
    requires forall i :: 0 <= i < |fs| ==> HasOne(t.rows, fs[i])
    ensures Seed(t, fs) == Ok(t)
  {
    if fs != [] {
      var front := fs[..|fs| - 1];
      assert forall i :: 0 <= i < |front| ==> front[i] == fs[i];
      SeedStable(t, front);
      assert HasOne(t.rows, fs[|fs| - 1]);
    }
  }

  /** Running the seeding a second time creates nothing. */
  lemma SeedIdempotent(t: PermTable, fs: seq<AuthPermission>)
    requires Seed(t, fs).Ok?
    ensures Seed(Seed(t, fs).value, fs) == Seed(t, fs)
  {
    SeedEffect(t, fs);
    SeedStable(Seed(t, fs).value, fs);
  }

  /**
   * Seeding a table without duplicate rows succeeds and leaves a table
   * without duplicates; every row it adds has the fields of a visited auth
   * permission.
   */
  lemma {:induction false} SeedWithoutDuplicates(t: PermTable, fs: seq<AuthPermission>)
    requires NoDuplicates(t.rows)
    ensures Seed(t, fs).Ok?
    ensures NoDuplicates(Seed(t, fs).value.rows)
    ensures forall x :: x in Seed(t, fs).value.rows && x !in t.rows ==> x.Fields() in fs
  {
    if fs != [] {
      var front := fs[..|fs| - 1];
      var f := fs[|fs| - 1];
      SeedWithoutDuplicates(t, front);
      var t1 := Seed(t, front).value;
      NoDuplicatesAtMostOne(t1.rows, f);
      if Get(t1.rows, f) == Err(DoesNotExist) {
        var x := DabPermission(t1.nextId, f.codename, f.contentType, f.name);
        assert Seed(t, fs).value.rows == t1.rows + [x];
      }
      forall y | y in Seed(t, fs).value.rows && y !in t.rows ensures y.Fields() in fs {
        if y in t1.rows {
          assert y.Fields() in front;
          var k :| 0 <= k < |front| && front[k] == y.Fields();
          assert fs[k] == front[k];
        }
      }
    }
  }

  /**
   * `create_permissions_as_operation`: get-or-create a DABPermission for each
   * auth permission. When a lookup raises, the migration's transaction puts
   * the rows back; the id sequence is not transactional and keeps what it
   * handed out.
   */
  method CreatePermissionsAsOperation(db: DabDatabase, authPermissions: seq<AuthPermission>) returns (r: Result<(), DbError>)
    modifies db
    ensures var s := Seed(PermTable(old(db.permissions), old(db.nextPermissionId)), authPermissions);
      && (s.Ok? ==> r.Ok? && db.permissions == s.value.rows && db.nextPermissionId == s.value.nextId)
      && (s.Err? ==> r == Err(s.error) && db.permissions == old(db.permissions) && db.nextPermissionId >= old(db.nextPermissionId))
    ensures db.roleDefinitions == old(db.roleDefinitions)
  {
    var saved := db.permissions;
    ghost var t0 := PermTable(saved, old(db.nextPermissionId));
    for n := 0 to |authPermissions|
      invariant db.roleDefinitions == old(db.roleDefinitions)
      invariant db.nextPermissionId >= old(db.nextPermissionId)
      invariant Seed(t0, authPermissions[..n]) == Ok(PermTable(db.permissions, db.nextPermissionId))
    {
      var f := authPermissions[n];
      ghost var u := PermTable(db.permissions, db.nextPermissionId);
      SeedStep(t0, authPermissions, n, u);
      var found := Get(db.permissions, f);
      if found == Err(DoesNotExist) {
        var created := DabPermission(db.nextPermissionId, f.codename, f.contentType, f.name);
        ghost var next := PermTable(u.rows + [created], u.nextId + 1);
        assert Seed(t0, authPermissions[..n + 1]) == Ok(next);
        db.permissions := db.permissions + [created];
        db.nextPermissionId := db.nextPermissionId + 1;
        assert next == PermTable(db.permissions, db.nextPermissionId);
      } else if found.Err? {
        db.permissions := saved;
        return Err(found.error);
      }
    }
    assert authPermissions[..|authPermissions|] == authPermissions;
    return Ok(());
  }

  /**
   * One more auth permission after a successful prefix: a found row leaves
   * the table as it is, a missing one is created with the next id, and any
   * other error of the lookup is the error of the whole seeding.
   */
  lemma SeedStep(t: PermTable, fs: seq<AuthPermission>, n: nat, u: PermTable)
    requires n < |fs| && Seed(t, fs[..n]) == Ok(u)
    ensures Get(u.rows, fs[n]).Ok? ==> Seed(t, fs[..n + 1]) == Ok(u)
    ensures Get(u.rows, fs[n]) == Err(DoesNotExist) ==>
      Seed(t, fs[..n + 1]) == Ok(PermTable(u.rows + [DabPermission(u.nextId, fs[n].codename, fs[n].contentType, fs[n].name)], u.nextId + 1))
    ensures Get(u.rows, fs[n]).Err? && Get(u.rows, fs[n]) != Err(DoesNotExist) ==>
      Seed(t, fs) == Err(Get(u.rows, fs[n]).error)
  {
    assert fs[..n + 1][..n] == fs[..n];
    if Get(u.rows, fs[n]).Err? && Get(u.rows, fs[n]) != Err(DoesNotExist) {
      SeedFailureSticks(t, fs, n + 1);
    }
  }

  /** Once a prefix of the visit fails, the whole seeding fails with the same error. */
  lemma {:induction false} SeedFailureSticks(t: PermTable, fs: seq<AuthPermission>, n: nat)
    requires n <= |fs|
    requires Seed(t, fs[..n]).Err?
    ensures Seed(t, fs) == Seed(t, fs[..n])
    decreases |fs| - n
  {
    if n < |fs| {
      assert fs[..n + 1][..n] == fs[..n];
      SeedFailureSticks(t, fs, n + 1);
    } else {
      assert fs[..n] == fs;
    }
  }

  /** The rows left after deleting the rows with the given ids. */
  function DropIds(rows: seq<DabPermission>, ids: set<nat>): (r: seq<DabPermission>)
    ensures forall x :: x in r <==> x in rows && x.id !in ids
  {
    if rows == [] then []
    else
      var front := DropIds(rows[..|rows| - 1], ids);
      assert forall x :: x in rows <==> x in rows[..|rows| - 1] || x == rows[|rows| - 1];
      if rows[|rows| - 1].id in ids then front else front + [rows[|rows| - 1]]
  }

  /** The role definitions after the permissions with the given ids are deleted: their links cascade. */
  function Unlink(rds: map<string, RoleDefinition>, ids: set<nat>): (r: map<string, RoleDefinition>)
    ensures r.Keys == rds.Keys
    ensures forall n :: n in r ==> r[n] == rds[n].(permissions := rds[n].permissions - ids)
  {
    map n | n in rds :: rds[n].(permissions := rds[n].permissions - ids)
  }

  /**
   * `reverse_create_permissions_as_operation`: delete every DABPermission one
   * by one; each deletion also removes the permission from every role
   * definition.
   */
  method ReverseCreatePermissionsAsOperation(db: DabDatabase)
    modifies db
    ensures db.permissions == []
    ensures db.roleDefinitions == Unlink(old(db.roleDefinitions), Ids(old(db.permissions)))
    ensures db.nextPermissionId == old(db.nextPermissionId)
  {
    var all := db.permissions;
    ReverseStart(all, db.roleDefinitions);
    for n := 0 to |all|
      invariant db.nextPermissionId == old(db.nextPermissionId)
      invariant db.permissions == DropIds(all, Ids(all[..n]))
      invariant db.roleDefinitions == Unlink(old(db.roleDefinitions), Ids(all[..n]))
    {
      var id := all[n].id;
      ReverseStep(all, n, old(db.roleDefinitions));
      db.permissions := DropIds(db.permissions, {id});
      db.roleDefinitions := Unlink(db.roleDefinitions, {id});
    }
    ReverseDone(all, old(db.roleDefinitions));
  }

  /** Before any deletion: every row and every role definition is as it was. */
  lemma ReverseStart(all: seq<DabPermission>, rds: map<string, RoleDefinition>)
    ensures DropIds(all, Ids(all[..0])) == all && Unlink(rds, Ids(all[..0])) == rds
  {
    assert all[..0] == [] && Ids([]) == {};
    DropNothing(all);
    UnlinkNothing(rds);
  }

  /** After deleting every row: no row is left, and every role definition has lost them all. */
  lemma ReverseDone(all: seq<DabPermission>, rds: map<string, RoleDefinition>)
    ensures DropIds(all, Ids(all[..|all|])) == [] && Unlink(rds, Ids(all[..|all|])) == Unlink(rds, Ids(all))
  {
    assert all[..|all|] == all;
    DropCovered(all, Ids(all));
  }

  /** Deleting one more permission: the rows and role definitions are those left by deleting the longer prefix. */
  lemma ReverseStep(all: seq<DabPermission>, n: nat, rds: map<string, RoleDefinition>)
    requires n < |all|
    ensures DropIds(DropIds(all, Ids(all[..n])), {all[n].id}) == DropIds(all, Ids(all[..n + 1]))
    ensures Unlink(Unlink(rds, Ids(all[..n])), {all[n].id}) == Unlink(rds, Ids(all[..n + 1]))
  {
    PrefixIds(all, n);
    DropIdsTwice(all, Ids(all[..n]), all[n].id);
    UnlinkTwice(rds, Ids(all[..n]), all[n].id);
  }

  lemma {:induction false} DropCovered(rows: seq<DabPermission>, ids: set<nat>)
    requires forall i :: 0 <= i < |rows| ==> rows[i].id in ids
    ensures DropIds(rows, ids) == []
  {
    if rows != [] {
      var front := rows[..|rows| - 1];
      assert forall i :: 0 <= i < |front| ==> front[i] == rows[i];
      DropCovered(front, ids);
    }
  }

  lemma UnlinkTwice(rds: map<string, RoleDefinition>, ids: set<nat>, id: nat)
    ensures Unlink(Unlink(rds, ids), {id}) == Unlink(rds, ids + {id})
  {
    forall n | n in rds ensures Unlink(Unlink(rds, ids), {id})[n] == Unlink(rds, ids + {id})[n] {
      assert rds[n].permissions - ids - {id} == rds[n].permissions - (ids + {id});
    }
  }

  lemma UnlinkNothing(rds: map<string, RoleDefinition>)
    ensures Unlink(rds, {}) == rds
  {
    forall n | n in rds ensures Unlink(rds, {})[n] == rds[n] {
      assert rds[n].permissions - {} == rds[n].permissions;
    }
  }

  lemma {:induction false} DropNothing(rows: seq<DabPermission>)
    ensures DropIds(rows, {}) == rows
  {
    if rows != [] {
      DropNothing(rows[..|rows| - 1]);
      assert rows[..|rows| - 1] + [rows[|rows| - 1]] == rows;
    }
  }

  lemma {:induction false} DropIdsTwice(rows: seq<DabPermission>, ids: set<nat>, id: nat)
    ensures DropIds(DropIds(rows, ids), {id}) == DropIds(rows, ids + {id})
  {
    if rows != [] {
      var front := rows[..|rows| - 1];
      var last := rows[|rows| - 1];
      DropIdsTwice(front, ids, id);
      if last.id !in ids {
        var d := DropIds(front, ids);
        assert (d + [last])[..|d + [last]| - 1] == d;
      }
    }
  }

  /** The ids of the exact rows of `perms`, looked up one by one; the first failed lookup is the result. */
  function ExactIds(rows: seq<DabPermission>, perms: seq<AuthPermission>): (r: Result<set<nat>, DbError>)
    ensures r.Ok? <==> forall i :: 0 <= i < |perms| ==> Get(rows, perms[i]).Ok?
    ensures r.Ok? ==> forall i :: 0 <= i < |perms| ==> Get(rows, perms[i]).value.id in r.value
  {
    if perms == [] then Ok({})
    else
      var front, last := perms[..|perms| - 1], perms[|perms| - 1];
      assert forall i :: 0 <= i < |front| ==> front[i] == perms[i];
      var rest, found := ExactIds(rows, front), Get(rows, last);
      if rest.Err? then Err(rest.error)
      else if found.Err? then Err(found.error)
      else Ok(rest.value + {found.value.id})
  }

  /** The found ids are only those of the role permissions' exact rows. */
  lemma {:induction false} ExactIdsOnlyFound(rows: seq<DabPermission>, perms: seq<AuthPermission>)
    requires ExactIds(rows, perms).Ok?
    ensures forall id :: id in ExactIds(rows, perms).value ==>
      exists i :: 0 <= i < |perms| && Get(rows, perms[i]).Ok? && Get(rows, perms[i]).value.id == id
  {
    if perms != [] {
      var front := perms[..|perms| - 1];
      var last := |perms| - 1;
      ExactIdsOnlyFound(rows, front);
      var ids := ExactIds(rows, front).value;
      assert ExactIds(rows, perms).value == ids + {Get(rows, perms[last]).value.id};
      forall id | id in ExactIds(rows, perms).value
        ensures exists i :: 0 <= i < |perms| && Get(rows, perms[i]).Ok? && Get(rows, perms[i]).value.id == id
      {
        if id in ids {
          var i :| 0 <= i < |front| && Get(rows, front[i]).Ok? && Get(rows, front[i]).value.id == id;
          assert front[i] == perms[i];
        } else {
          assert Get(rows, perms[last]).value.id == id;
        }
      }
    }
  }

  /** The role definitions after `copy_roles_to_role_definitions` handles one role. */
  function CopyRole(rows: seq<DabPermission>, rds: map<string, RoleDefinition>, role: CoreRole): (r: Result<map<string, RoleDefinition>, DbError>)
    ensures r.Ok? <==> forall i :: 0 <= i < |role.permissions| ==> Get(rows, role.permissions[i]).Ok?
    ensures r.Ok? ==> r.value.Keys == rds.Keys + {role.name}
    ensures r.Ok? ==> forall n :: n in rds ==> rds[n].permissions <= r.value[n].permissions
  {
    match ExactIds(rows, role.permissions)
    case Err(e) => Err(e)
    case Ok(ids) =>
      var rd := if role.name in rds then rds[role.name] else NewRoleDefinition;
      var contentType := if |ContentTypesOf(role.permissions)| == 1 then Some(role.permissions[0].contentType) else rd.contentType;
      Ok(rds[role.name := rd.(permissions := rd.permissions + ids, contentType := contentType)])
  }

  /** The role definitions after `copy_roles_to_role_definitions` handles every role in order. */
  function CopyRoles(rows: seq<DabPermission>, rds: map<string, RoleDefinition>, roles: seq<CoreRole>): (r: Result<map<string, RoleDefinition>, DbError>)
    ensures r.Ok? ==> rds.Keys <= r.value.Keys
    ensures r.Ok? ==> forall n :: n in rds ==> rds[n].permissions <= r.value[n].permissions
  {
    if roles == [] then Ok(rds)
    else
      match CopyRoles(rows, rds, roles[..|roles| - 1])
      case Err(e) => Err(e)
      case Ok(mid) => CopyRole(rows, mid, roles[|roles| - 1])
  }

  /** Every permission of every role has exactly one DAB permission row with its fields. */
  predicate AllResolvable(rows: seq<DabPermission>, roles: seq<CoreRole>) {
    forall i, j :: 0 <= i < |roles| && 0 <= j < |roles[i].permissions| ==> Get(rows, roles[i].permissions[j]).Ok?
  }

  /**
   * One role: its role definition exists afterwards, keeps its permissions
   * and gains the exact row of each role permission and nothing else, and takes the role's
   * content type exactly when its permissions span one; other role
   * definitions are untouched.
   */
  lemma CopyRoleEffect(rows: seq<DabPermission>, rds: map<string, RoleDefinition>, role: CoreRole)
    requires CopyRole(rows, rds, role).Ok?
    ensures var r := CopyRole(rows, rds, role).value;
      var old_ := if role.name in rds then rds[role.name] else NewRoleDefinition;
      var cts := ContentTypesOf(role.permissions);
      && role.name in r
      && r[role.name].permissions == old_.permissions + ExactIds(rows, role.permissions).value
      && (forall j :: 0 <= j < |role.permissions| ==> Get(rows, role.permissions[j]).value.id in r[role.name].permissions)
      && (|cts| == 1 ==> r[role.name].contentType.Some? && r[role.name].contentType.value in cts)
      && (|cts| != 1 ==> r[role.name].contentType == old_.contentType)
      && r[role.name].description == old_.description && r[role.name].managed == old_.managed
      && r.Keys == rds.Keys + {role.name}
      && (forall n :: n in rds && n != role.name ==> r[n] == rds[n])
  {
    if |ContentTypesOf(role.permissions)| == 1 {
      assert role.permissions[0].contentType in ContentTypesOf(role.permissions);
    }
  }

  /** Every id a role's copy adds to its role definition is the exact row of one of the role's permissions. */
  lemma CopyRoleAddsOnlyFound(rows: seq<DabPermission>, rds: map<string, RoleDefinition>, role: CoreRole)
    requires CopyRole(rows, rds, role).Ok?
    ensures var r := CopyRole(rows, rds, role).value;
      var old_ := if role.name in rds then rds[role.name] else NewRoleDefinition;
      forall id :: id in r[role.name].permissions && id !in old_.permissions ==>
        exists j :: 0 <= j < |role.permissions| && Get(rows, role.permissions[j]).Ok? && Get(rows, role.permissions[j]).value.id == id
  {
    ExactIdsOnlyFound(rows, role.permissions);
  }

  /** One role's copy keeps every role definition's permissions and adds the role's found rows to its own. */
  lemma CopyRoleGrows(rows: seq<DabPermission>, rds: map<string, RoleDefinition>, role: CoreRole)
    requires CopyRole(rows, rds, role).Ok?
    ensures var r := CopyRole(rows, rds, role).value;
      && role.name in r
      && (forall j :: 0 <= j < |role.permissions| ==> Get(rows, role.permissions[j]).value.id in r[role.name].permissions)
      && (forall n :: n in rds ==> n in r && rds[n].permissions <= r[n].permissions)
  {
    CopyRoleEffect(rows, rds, role);
  }

  /** The copy succeeds exactly when every role permission resolves to one row. */
  lemma {:induction false} CopyRolesSucceeds(rows: seq<DabPermission>, rds: map<string, RoleDefinition>, roles: seq<CoreRole>)
    ensures CopyRoles(rows, rds, roles).Ok? <==> AllResolvable(rows, roles)
  {
    if roles != [] {
      var front := roles[..|roles| - 1];
      CopyRolesSucceeds(rows, rds, front);
      ResolvableStep(rows, roles);
    }
  }

  /** A longer list of roles resolves exactly when its front does and the last role's permissions do. */
  lemma ResolvableStep(rows: seq<DabPermission>, roles: seq<CoreRole>)
    requires roles != []
    ensures var last := roles[|roles| - 1];
      AllResolvable(rows, roles) <==>
        && AllResolvable(rows, roles[..|roles| - 1])
        && forall j :: 0 <= j < |last.permissions| ==> Get(rows, last.permissions[j]).Ok?
  {
    var front := roles[..|roles| - 1];
    assert forall i :: 0 <= i < |front| ==> front[i] == roles[i];
  }

  /**
   * A successful copy gives every role a same-named role definition holding
   * the exact rows of all its permissions.
   */
  lemma {:induction false} CopyRolesCovers(rows: seq<DabPermission>, rds: map<string, RoleDefinition>, roles: seq<CoreRole>)
    requires CopyRoles(rows, rds, roles).Ok?
    ensures var r := CopyRoles(rows, rds, roles).value;
      forall i, j :: 0 <= i < |roles| && 0 <= j < |roles[i].permissions| ==>
        && Get(rows, roles[i].permissions[j]).Ok?
        && roles[i].name in r && Get(rows, roles[i].permissions[j]).value.id in r[roles[i].name].permissions
  {
    CopyRolesSucceeds(rows, rds, roles);
    if roles != [] {
      var front := roles[..|roles| - 1];
      var last := roles[|roles| - 1];
      CopyRolesCovers(rows, rds, front);
      var mid := CopyRoles(rows, rds, front).value;
      var r := CopyRoles(rows, rds, roles).value;
      CopyRoleGrows(rows, mid, last);
      forall i, j | 0 <= i < |roles| - 1 && 0 <= j < |roles[i].permissions|
        ensures Get(rows, roles[i].permissions[j]).Ok?
        ensures roles[i].name in r && Get(rows, roles[i].permissions[j]).value.id in r[roles[i].name].permissions
      {
        assert roles[i] == front[i];
      }
    }
  }

  /**
   * One pass of `copy_roles_to_role_definitions`: get-or-create the role
   * definition, add the exact DAB permission of each role permission, and
   * set the content type when there is only one.
   */
  method CopyOneRole(db: DabDatabase, role: CoreRole) returns (r: Result<(), DbError>)
    modifies db
    ensures var c := CopyRole(old(db.permissions), old(db.roleDefinitions), role);
      && (c.Ok? ==> r.Ok? && db.roleDefinitions == c.value)
      && (c.Err? ==> r == Err(c.error) && db.roleDefinitions == old(db.roleDefinitions))
    ensures db.permissions == old(db.permissions) && db.nextPermissionId == old(db.nextPermissionId)
  {
    var ids: set<nat> := {};
    var contentTypes: set<ContentType> := {};
    assert role.permissions[..0] == [];
    for j := 0 to |role.permissions|
      invariant unchanged(db)
      invariant contentTypes == ContentTypesOf(role.permissions[..j])
      invariant ExactIds(db.permissions, role.permissions[..j]) == Ok(ids)
    {
      var found := Get(db.permissions, role.permissions[j]);
      if found.Err? {
        ExactIdsFailureSticks(db.permissions, role.permissions, j);
        return Err(found.error);
      }
      PrefixStep(db.permissions, role.permissions, j);
      ContentTypesStep(role.permissions, j);
      ids := ids + {found.value.id};
      contentTypes := contentTypes + {role.permissions[j].contentType};
    }
    assert role.permissions[..|role.permissions|] == role.permissions;
    var rd := if role.name in db.roleDefinitions then db.roleDefinitions[role.name] else NewRoleDefinition;
    var contentType := rd.contentType;
    if |contentTypes| == 1 {
      contentType := Some(role.permissions[0].contentType);
    }
    db.roleDefinitions := db.roleDefinitions[role.name := rd.(permissions := rd.permissions + ids, contentType := contentType)];
    return Ok(());
  }

  /**
   * `copy_roles_to_role_definitions`: copy every role in turn. A failed
   * lookup raises and the transaction puts the role definitions back.
   */
  method CopyRolesToRoleDefinitions(db: DabDatabase, roles: seq<CoreRole>) returns (r: Result<(), DbError>)
    modifies db
    ensures var c := CopyRoles(old(db.permissions), old(db.roleDefinitions), roles);
      && (c.Ok? ==> r.Ok? && db.roleDefinitions == c.value)
      && (c.Err? ==> r == Err(c.error) && db.roleDefinitions == old(db.roleDefinitions))
    ensures db.permissions == old(db.permissions) && db.nextPermissionId == old(db.nextPermissionId)
  {
    var saved := db.roleDefinitions;
    for n := 0 to |roles|
      invariant db.permissions == old(db.permissions) && db.nextPermissionId == old(db.nextPermissionId)
      invariant CopyRoles(db.permissions, saved, roles[..n]) == Ok(db.roleDefinitions)
    {
      CopyRolesStep(db.permissions, saved, roles, n);
      var step := CopyOneRole(db, roles[n]);
      if step.Err? {
        CopyRolesErrSticks(db.permissions, saved, roles, n + 1);
        db.roleDefinitions := saved;
        return step;
      }
    }
    assert roles[..|roles|] == roles;
    assert CopyRoles(old(db.permissions), old(db.roleDefinitions), roles) == Ok(db.roleDefinitions);
    return Ok(());
  }

  /** One more role of the prefix: its copy applies to what the prefix left, unless the prefix failed. */
  lemma CopyRolesStep(rows: seq<DabPermission>, rds: map<string, RoleDefinition>, roles: seq<CoreRole>, n: nat)
    requires n < |roles|
    ensures CopyRoles(rows, rds, roles[..n + 1]) ==
      match CopyRoles(rows, rds, roles[..n])
      case Err(e) => Err(e)
      case Ok(mid) => CopyRole(rows, mid, roles[n])
  {
    assert roles[..n + 1][..n] == roles[..n];
  }

  /** One more permission of the prefix: its exact row's id joins the set. */
  lemma PrefixStep(rows: seq<DabPermission>, perms: seq<AuthPermission>, j: nat)
    requires j < |perms|
    requires ExactIds(rows, perms[..j]).Ok? && Get(rows, perms[j]).Ok?
    ensures ExactIds(rows, perms[..j + 1]) == Ok(ExactIds(rows, perms[..j]).value + {Get(rows, perms[j]).value.id})
  {
    var p := perms[..j + 1];
    assert p[..|p| - 1] == perms[..j] && p[|p| - 1] == perms[j];
  }

  lemma {:induction false} ExactIdsFailureSticks(rows: seq<DabPermission>, perms: seq<AuthPermission>, j: nat)
    requires j < |perms|
    requires ExactIds(rows, perms[..j]).Ok?
    requires Get(rows, perms[j]).Err?
    ensures ExactIds(rows, perms) == Err(Get(rows, perms[j]).error)
    decreases |perms| - j
  {
    if j == |perms| - 1 {
      assert perms[..j] == perms[..|perms| - 1];
    } else {
      var front := perms[..|perms| - 1];
      assert front[..j] == perms[..j] && front[j] == perms[j];
      ExactIdsFailureSticks(rows, front, j);
    }
  }

  lemma {:induction false} CopyRolesErrSticks(rows: seq<DabPermission>, rds: map<string, RoleDefinition>, roles: seq<CoreRole>, n: nat)
    requires n <= |roles|
    requires CopyRoles(rows, rds, roles[..n]).Err?
    ensures CopyRoles(rows, rds, roles) == CopyRoles(rows, rds, roles[..n])
    decreases |roles| - n
  {
    if n < |roles| {
      assert roles[..n + 1][..n] == roles[..n];
      CopyRolesErrSticks(rows, rds, roles, n + 1);
    } else {
      assert roles[..n] == roles;
    }
  }

  /** `reverse_copy_roles_to_role_definitions`: delete every role definition. */
  method ReverseCopyRolesToRoleDefinitions(db: DabDatabase)
    modifies db
    ensures db.roleDefinitions == map[]
    ensures db.permissions == old(db.permissions) && db.nextPermissionId == old(db.nextPermissionId)
  {
    while db.roleDefinitions != map[]
      invariant db.permissions == old(db.permissions) && db.nextPermissionId == old(db.nextPermissionId)
      decreases |db.roleDefinitions.Keys|
    {
      var name :| name in db.roleDefinitions;
      db.roleDefinitions := db.roleDefinitions - {name};
    }
  }
}
