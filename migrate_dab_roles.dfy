/**
 * The `migrate-dab-roles` management command: every pulp Role whose
 * permissions can all be found among the DAB permissions is copied into a
 * same-named DAB RoleDefinition, which only ever gains permissions.
 */
module MigrateDabRoles {
  import opened Wrappers
  import opened DabModels

  /** The key of the DAB permission index: (app_label, model, codename). */
  datatype PermKey = PermKey(appLabel: string, model: string, codename: string)

  function KeyOf(p: DabPermission): PermKey {
    PermKey(p.contentType.appLabel, p.contentType.model, p.codename)
  }

  /**
   * A Python dict from keys to DAB permissions: `keys` lists the keys in
   * insertion order, and a key written again keeps its place but takes the
   * new value.
   */
  datatype PermIndex = PermIndex(keys: seq<PermKey>, entries: map<PermKey, DabPermission>)
  {
    ghost predicate Valid() {
      && (forall i, j :: 0 <= i < j < |keys| ==> keys[i] != keys[j])
      && (forall i :: 0 <= i < |keys| ==> keys[i] in entries)
      && (forall k :: k in entries ==> k in keys)
    }

    /** `dabperm_map[k] = v` */
    function Put(k: PermKey, v: DabPermission): (ix: PermIndex)
      requires Valid()
      ensures ix.Valid()
      ensures ix.entries == entries[k := v]
      ensures ix.keys == if k in entries then keys else keys + [k]
    {
      PermIndex(if k in entries then keys else keys + [k], entries[k := v])
    }
  }

  /** The index the command builds from the DAB permission table, in table order. */
  function IndexOf(perms: seq<DabPermission>): (ix: PermIndex)
    ensures ix.Valid()
    ensures forall k :: k in ix.entries ==> KeyOf(ix.entries[k]) == k && ix.entries[k] in perms
    ensures forall i :: 0 <= i < |perms| ==> KeyOf(perms[i]) in ix.entries
  {
    if perms == [] then PermIndex([], map[])
    else
      var init := perms[..|perms| - 1];
      var last := perms[|perms| - 1];
      assert perms == init + [last];
      var front := IndexOf(init);
      IndexStep(init, last, front);
      front.Put(KeyOf(last), last)
  }

  /** One more permission row: the index keeps describing the rows seen so far. */
  lemma IndexStep(init: seq<DabPermission>, last: DabPermission, front: PermIndex)
    requires front.Valid()
    requires forall k :: k in front.entries ==> KeyOf(front.entries[k]) == k && front.entries[k] in init
    requires forall i :: 0 <= i < |init| ==> KeyOf(init[i]) in front.entries
    ensures var ix := front.Put(KeyOf(last), last);
      && (forall k :: k in ix.entries ==> KeyOf(ix.entries[k]) == k && ix.entries[k] in init + [last])
      && (forall i :: 0 <= i < |init + [last]| ==> KeyOf((init + [last])[i]) in ix.entries)
  {
    var ix := front.Put(KeyOf(last), last);
    forall i | 0 <= i < |init + [last]|
      ensures KeyOf((init + [last])[i]) in ix.entries
    {
      if i < |init| {
        assert (init + [last])[i] == init[i];
      }
    }
  }

  /** Builds `dabperm_map` from the DAB permission rows. */
  method BuildIndex(perms: seq<DabPermission>) returns (ix: PermIndex)
    ensures ix == IndexOf(perms)
  {
    ix := PermIndex([], map[]);
    for n := 0 to |perms|
      invariant ix == IndexOf(perms[..n])
    {
      assert perms[..n + 1][..n] == perms[..n];
      ix := ix.Put(KeyOf(perms[n]), perms[n]);
    }
    assert perms[..|perms|] == perms;
  }

  /** Whether index key `k` matches a role permission: same app label and codename, any model. */
  predicate Matches(k: PermKey, p: AuthPermission) {
    k.appLabel == p.contentType.appLabel && k.codename == p.codename
  }

  /** The position of the first key of `keys` that matches `p`. */
  function FirstMatchingKey(keys: seq<PermKey>, p: AuthPermission): (r: Option<nat>)
    ensures r.Some? ==> r.value < |keys| && Matches(keys[r.value], p)
    ensures r.Some? ==> forall j :: 0 <= j < r.value ==> !Matches(keys[j], p)
    ensures r.None? ==> forall j :: 0 <= j < |keys| ==> !Matches(keys[j], p)
  {
    if keys == [] then None
    else if Matches(keys[0], p) then Some(0)
    else match FirstMatchingKey(keys[1..], p)
      case None => None
      case Some(i) => Some(i + 1)
  }

  /** The DAB permission a role permission is copied as, if any: the value at its first matching key. */
  function Match(ix: PermIndex, p: AuthPermission): (r: Option<DabPermission>)
    requires ix.Valid()
    ensures r.Some? <==> exists j :: 0 <= j < |ix.keys| && Matches(ix.keys[j], p)
    ensures r.Some? ==> r.value in ix.entries.Values
  {
    match FirstMatchingKey(ix.keys, p)
    case None => None
    case Some(i) => Some(ix.entries[ix.keys[i]])
  }

  /**
   * Against the index of a permission table, a role permission matches a
   * DAB permission of that table with its app label and codename (whatever
   * its model), and has no match exactly when no row has both.
   */
  lemma MatchAgrees(perms: seq<DabPermission>, p: AuthPermission)
    ensures var m := Match(IndexOf(perms), p);
      && (m.Some? ==> m.value in perms && m.value.codename == p.codename
                      && m.value.contentType.appLabel == p.contentType.appLabel)
      && (m.None? <==> forall i :: 0 <= i < |perms| ==> !Matches(KeyOf(perms[i]), p))
  {
    var ix := IndexOf(perms);
    match FirstMatchingKey(ix.keys, p)
    case Some(j) =>
      var k := ix.keys[j];
      var d := ix.entries[k];
      assert KeyOf(d) == k && d in perms;
      var i :| 0 <= i < |perms| && perms[i] == d;
      assert Matches(KeyOf(perms[i]), p);
    case None =>
      forall i | 0 <= i < |perms| ensures !Matches(KeyOf(perms[i]), p) {
        var k := KeyOf(perms[i]);
        assert k in ix.entries;
        var j :| 0 <= j < |ix.keys| && ix.keys[j] == k;
      }
  }

  /** `related_perms`: the matches of the role's permissions, in order, the unmatched ones dropped. */
  function Related(ix: PermIndex, perms: seq<AuthPermission>): (r: seq<DabPermission>)
    requires ix.Valid()
    ensures |r| <= |perms|
    ensures forall d :: d in r ==> exists j :: 0 <= j < |perms| && Match(ix, perms[j]) == Some(d)
  {
    if perms == [] then []
    else
      var init := perms[..|perms| - 1];
      assert forall j :: 0 <= j < |init| ==> init[j] == perms[j];
      var front := Related(ix, init);
      match Match(ix, perms[|perms| - 1])
      case None => front
      case Some(d) => front + [d]
  }

  /** Every permission of the role has a match. */
  predicate AllMatched(ix: PermIndex, perms: seq<AuthPermission>)
    requires ix.Valid()
  {
    forall i :: 0 <= i < |perms| ==> Match(ix, perms[i]).Some?
  }

  /**
   * The command's completeness test `len(related_perms) == count()` holds
   * exactly when every permission of the role found a match.
   */
  lemma {:induction false} RelatedCount(ix: PermIndex, perms: seq<AuthPermission>)
    requires ix.Valid()
    ensures |Related(ix, perms)| <= |perms|
    ensures |Related(ix, perms)| == |perms| <==> AllMatched(ix, perms)
  {
    if perms != [] {
      var front := perms[..|perms| - 1];
      var m := Match(ix, perms[|perms| - 1]);
      RelatedCount(ix, front);
      AllMatchedStep(ix, perms);
      assert |Related(ix, perms)| == |Related(ix, front)| + (if m.Some? then 1 else 0);
    }
  }

  /** A role's permissions all match exactly when all but the last do and the last does. */
  lemma AllMatchedStep(ix: PermIndex, perms: seq<AuthPermission>)
    requires ix.Valid() && perms != []
    ensures AllMatched(ix, perms) <==>
      AllMatched(ix, perms[..|perms| - 1]) && Match(ix, perms[|perms| - 1]).Some?
  {
    var front := perms[..|perms| - 1];
    assert forall i :: 0 <= i < |front| ==> front[i] == perms[i];
  }

  /** `galaxy_role_description`: the UI descriptions of the locked galaxy roles. */
  const Descriptions: map<string, string> := map[
    "core.task_owner" := "Allow all actions on a task.",
    "core.taskschedule_owner" := "Allow all actions on a task schedule.",
    "galaxy.ansible_repository_owner" := "Manage ansible repositories.",
    "galaxy.collection_admin" :=
      "Create, delete and change collection namespaces. "
      + "Upload and delete collections. Sync collections from remotes."
      + " Approve and reject collections.",
    "galaxy.collection_curator" := "Approve, reject and sync collections from remotes.",
    "galaxy.collection_namespace_owner" := "Change and upload collections to namespaces.",
    "galaxy.collection_publisher" := "Upload and modify collections.",
    "galaxy.collection_remote_owner" := "Manage collection remotes.",
    "galaxy.content_admin" := "Manage all content types.",
    "galaxy.execution_environment_admin" :=
      "Push, delete and change execution environments."
      + " Create, delete and change remote registries.",
    "galaxy.execution_environment_collaborator" := "Change existing execution environments.",
    "galaxy.execution_environment_namespace_owner" :=
      "Create and update execution environments under existing container namespaces.",
    "galaxy.execution_environment_publisher" := "Push and change execution environments.",
    "galaxy.group_admin" := "View, add, remove and change groups.",
    "galaxy.synclist_owner" := "View, add, remove and change synclists.",
    "galaxy.task_admin" := "View and cancel any task.",
    "galaxy.user_admin" := "View, add, remove and change users."
  ]

  /** `galaxy_role_description.get(name, '')` */
  function DescriptionOf(name: string): string {
    if name in Descriptions then Descriptions[name] else ""
  }

  /** The role definitions after the command handles one role. */
  function MigrateRole(ix: PermIndex, rds: map<string, RoleDefinition>, role: CoreRole): (r: map<string, RoleDefinition>)
    requires ix.Valid()
    ensures r.Keys <= rds.Keys + {role.name}
    ensures forall n :: n in rds ==> n in r && rds[n].permissions <= r[n].permissions
  {
    var related := Related(ix, role.permissions);
    if |related| != |role.permissions| then rds
    else
      var rd := if role.name in rds then rds[role.name] else NewRoleDefinition;
      var contentType := if |ContentTypesOf(role.permissions)| == 1 then Some(role.permissions[0].contentType) else rd.contentType;
      rds[role.name := rd.(description := DescriptionOf(role.name),
                           permissions := rd.permissions + Ids(related),
                           contentType := contentType)]
  }

  /** The role definitions after the command handles every role, in order. */
  function MigrateAll(ix: PermIndex, rds: map<string, RoleDefinition>, roles: seq<CoreRole>): (r: map<string, RoleDefinition>)
    requires ix.Valid()
    ensures forall n :: n in rds ==> n in r && rds[n].permissions <= r[n].permissions
  {
    if roles == [] then rds
    else MigrateRole(ix, MigrateAll(ix, rds, roles[..|roles| - 1]), roles[|roles| - 1])
  }

  /**
   * One role: a role with an unmatched permission changes nothing; otherwise
   * its role definition exists afterwards, keeps every permission it had,
   * gains every matched one and nothing else, takes the table description,
   * and takes the role's content type exactly when its permissions span one.
   * Role definitions of other names are untouched.
   */
  lemma MigrateRoleEffect(ix: PermIndex, rds: map<string, RoleDefinition>, role: CoreRole)
    requires ix.Valid()
    ensures var r := MigrateRole(ix, rds, role);
      && (!AllMatched(ix, role.permissions) ==> r == rds)
      && (AllMatched(ix, role.permissions) ==>
            var old_ := if role.name in rds then rds[role.name] else NewRoleDefinition;
            var cts := ContentTypesOf(role.permissions);
            && role.name in r
            && r[role.name].permissions == old_.permissions + Ids(Related(ix, role.permissions))
            && r[role.name].description == DescriptionOf(role.name)
            && r[role.name].managed == old_.managed
            && (|cts| == 1 ==> r[role.name].contentType.Some? && r[role.name].contentType.value in cts)
            && (|cts| != 1 ==> r[role.name].contentType == old_.contentType))
      && r.Keys <= rds.Keys + {role.name}
      && (forall n :: n in rds && n != role.name ==> n in r && r[n] == rds[n])
  {
    RelatedCount(ix, role.permissions);
  }

  /** Handling a role a second time changes nothing more. */
  lemma MigrateRoleIdempotent(ix: PermIndex, rds: map<string, RoleDefinition>, role: CoreRole)
    requires ix.Valid()
    ensures MigrateRole(ix, MigrateRole(ix, rds, role), role) == MigrateRole(ix, rds, role)
  {
    var once := MigrateRole(ix, rds, role);
    if |Related(ix, role.permissions)| == |role.permissions| {
      var rd := once[role.name];
      assert rd.permissions + Ids(Related(ix, role.permissions)) == rd.permissions;
      assert once[role.name := rd] == once;
    }
  }

  /**
   * Every role whose permissions all match ends with a same-named role
   * definition holding every one of its matched DAB permissions.
   */
  lemma {:induction false} MigrateAllCoversMatchedRoles(ix: PermIndex, rds: map<string, RoleDefinition>, roles: seq<CoreRole>)
    requires ix.Valid()
    ensures var r := MigrateAll(ix, rds, roles);
      forall i :: 0 <= i < |roles| && AllMatched(ix, roles[i].permissions) ==>
        roles[i].name in r && Ids(Related(ix, roles[i].permissions)) <= r[roles[i].name].permissions
  {
    if roles != [] {
      var front := roles[..|roles| - 1];
      var mid := MigrateAll(ix, rds, front);
      var last := roles[|roles| - 1];
      MigrateAllCoversMatchedRoles(ix, rds, front);
      MigrateRoleEffect(ix, mid, last);
      forall i | 0 <= i < |roles| && AllMatched(ix, roles[i].permissions)
        ensures roles[i].name in MigrateAll(ix, rds, roles)
        ensures Ids(Related(ix, roles[i].permissions)) <= MigrateAll(ix, rds, roles)[roles[i].name].permissions
      {
        if i < |roles| - 1 {
          assert roles[i] == front[i];
          var n := roles[i].name;
          if n != last.name && AllMatched(ix, last.permissions) {
            assert MigrateAll(ix, rds, roles)[n] == mid[n];
          }
        }
      }
    }
  }

  /** `dabperm_map.items()` searched for the first key matching `p`, stopping at it. */
  method FindMatch(ix: PermIndex, p: AuthPermission) returns (r: Option<DabPermission>)
    requires ix.Valid()
    ensures r == Match(ix, p)
    ensures r.Some? <==> exists i :: 0 <= i < |ix.keys| && Matches(ix.keys[i], p)
  {
    var i := 0;
    r := None;
    while i < |ix.keys|
      invariant 0 <= i <= |ix.keys|
      invariant forall j :: 0 <= j < i ==> !Matches(ix.keys[j], p)
    {
      if Matches(ix.keys[i], p) {
        r := Some(ix.entries[ix.keys[i]]);
        var f := FirstMatchingKey(ix.keys, p);
        assert f.Some? && f.value == i;
        return;
      }
      i := i + 1;
    }
  }

  /** The command's inner loop over one role's permissions: `related_perms` and the content types met. */
  method CollectRelated(ix: PermIndex, perms: seq<AuthPermission>) returns (related: seq<DabPermission>, ctypes: set<ContentType>)
    requires ix.Valid()
    ensures related == Related(ix, perms)
    ensures ctypes == ContentTypesOf(perms)
  {
    related := [];
    ctypes := {};
    for n := 0 to |perms|
      invariant related == Related(ix, perms[..n])
      invariant ctypes == ContentTypesOf(perms[..n])
    {
      assert perms[..n + 1][..n] == perms[..n];
      ctypes := ctypes + {perms[n].contentType};
      var m := FindMatch(ix, perms[n]);
      if m.Some? {
        related := related + [m.value];
      }
      ContentTypesStep(perms, n);
    }
    assert perms[..|perms|] == perms;
  }

  /** Copies one role into its role definition, or skips it when a permission has no match. */
  method MigrateOneRole(db: DabDatabase, ix: PermIndex, role: CoreRole)
    requires ix.Valid()
    modifies db
    ensures db.roleDefinitions == MigrateRole(ix, old(db.roleDefinitions), role)
    ensures db.permissions == old(db.permissions) && db.nextPermissionId == old(db.nextPermissionId)
  {
    var related, ctypes := CollectRelated(ix, role.permissions);
    if |related| != |role.permissions| {
      return;
    }
    var existing := if role.name in db.roleDefinitions then db.roleDefinitions[role.name] else NewRoleDefinition;
    var perms := AddRelated(existing.permissions, related);
    var contentType := existing.contentType;
    if |ctypes| == 1 {
      contentType := Some(role.permissions[0].contentType);
    }
    MigrateRoleMatched(ix, db.roleDefinitions, role);
    db.roleDefinitions := db.roleDefinitions[role.name := existing.(description := DescriptionOf(role.name),
                                                                     permissions := perms, contentType := contentType)];
  }

  /** `rd.permissions.add(perm)` for each related permission, skipping ids already held. */
  method AddRelated(held: set<nat>, related: seq<DabPermission>) returns (perms: set<nat>)
    ensures perms == held + Ids(related)
  {
    perms := held;
    for n := 0 to |related|
      invariant perms == held + Ids(related[..n])
    {
      PrefixIds(related, n);
      if related[n].id !in perms {
        perms := perms + {related[n].id};
      }
    }
    assert related[..|related|] == related;
  }

  /** A role whose permissions all match: the role definition it is written as. */
  lemma MigrateRoleMatched(ix: PermIndex, rds: map<string, RoleDefinition>, role: CoreRole)
    requires ix.Valid()
    requires |Related(ix, role.permissions)| == |role.permissions|
    ensures var existing := if role.name in rds then rds[role.name] else NewRoleDefinition;
      var contentType := if |ContentTypesOf(role.permissions)| == 1 then Some(role.permissions[0].contentType)
                         else existing.contentType;
      MigrateRole(ix, rds, role)
        == rds[role.name := existing.(description := DescriptionOf(role.name),
                                      permissions := existing.permissions + Ids(Related(ix, role.permissions)),
                                      contentType := contentType)]
  {
  }

  /** `Command.handle`: index the DAB permissions, then copy every pulp role in turn. */
  method Handle(db: DabDatabase, roles: seq<CoreRole>)
    modifies db
    ensures db.roleDefinitions == MigrateAll(IndexOf(old(db.permissions)), old(db.roleDefinitions), roles)
    ensures db.permissions == old(db.permissions) && db.nextPermissionId == old(db.nextPermissionId)
  {
    var ix := BuildIndex(db.permissions);
    for n := 0 to |roles|
      invariant db.permissions == old(db.permissions) && db.nextPermissionId == old(db.nextPermissionId)
      invariant db.roleDefinitions == MigrateAll(ix, old(db.roleDefinitions), roles[..n])
    {
      assert roles[..n + 1][..n] == roles[..n];
      MigrateOneRole(db, ix, roles[n]);
    }
    assert roles[..|roles|] == roles;
  }
}
