/**
 * The permission diff (`copy_permissions_role_to_role`) and the re-entrant
 * cycle of the two `m2m_changed` handlers, as functions of the two stores'
 * role tables. The class in rbac_sync.dfy is proved to change its state
 * exactly as these functions say; the lemmas here state what that change is.
 *
 * The two m2m handlers check the re-entrancy guard but never set it, so the
 * destination write of a copy fires the opposite handler, which copies back.
 * Nothing but the diff becoming empty stops this; `depth` is how many more
 * nested signal deliveries the interpreter's stack allows.
 */
module PermSync {
  import opened RbacTypes

  /** A store's roles: role name to the permission rows of its `permissions` relation. */
  type RoleTable = map<string, set<Perm>>

  /** The role tables of both stores. */
  datatype Tables = Tables(pulp: RoleTable, dab: RoleTable) {
    function Of(s: Side): RoleTable {
      if s == PulpSide then pulp else dab
    }

    function Put(s: Side, name: string, perms: set<Perm>): (t: Tables)
      ensures t.Of(s) == Of(s)[name := perms] && t.Of(s.Other()) == Of(s.Other())
    {
      if s == PulpSide then Tables(pulp[name := perms], dab) else Tables(pulp, dab[name := perms])
    }
  }

  /** The permission tables of both stores (auth Permission and DABPermission). */
  datatype Catalogues = Catalogues(pulp: set<Perm>, dab: set<Perm>) {
    function Of(s: Side): set<Perm> {
      if s == PulpSide then pulp else dab
    }
  }

  /** How a handler or write ended, and the role tables afterwards. */
  datatype Step = Step(outcome: Outcome, tables: Tables)

  /** The permissions of the role `name`, empty when there is no such role. */
  function PermsOf(t: RoleTable, name: string): set<Perm> {
    if name in t then t[name] else {}
  }

  /** `set(role.permissions.values_list("codename", flat=True))` */
  function Codenames(ps: set<Perm>): (cs: set<string>)
    ensures forall p :: p in ps ==> p.codename in cs
    ensures forall c :: c in cs ==> exists p :: p in ps && p.codename == c
  {
    set p | p in ps :: p.codename
  }

  /** `permission_model.objects.filter(codename__in=codes)`: the catalogue rows with one of `codes`. */
  function WithCodenames(cat: set<Perm>, codes: set<string>): (ps: set<Perm>)
    ensures forall p :: p in ps <==> p in cat && p.codename in codes
  {
    set p | p in cat && p.codename in codes
  }

  /** The permissions of role `name` on side `s`. */
  function Role(t: Tables, s: Side, name: string): set<Perm> {
    PermsOf(t.Of(s), name)
  }

  /** Role `name` has the same codenames in both stores. */
  ghost predicate Settled(t: Tables, name: string) {
    Codenames(Role(t, PulpSide, name)) == Codenames(Role(t, DabSide, name))
  }

  /** Writes to the two stores' roles commute. */
  lemma PutCommutes(t: Tables, s: Side, name: string, x: set<Perm>, y: set<Perm>)
    ensures t.Put(s, name, x).Put(s.Other(), name, y) == t.Put(s.Other(), name, y).Put(s, name, x)
  {
  }

  /** Writing a role's own permissions back changes nothing. */
  lemma PutSame(t: Tables, s: Side, name: string)
    requires name in t.Of(s)
    ensures t.Put(s, name, Role(t, s, name)) == t
  {
    if s == PulpSide {
      assert t.pulp[name := t.pulp[name]] == t.pulp;
    } else {
      assert t.dab[name := t.dab[name]] == t.dab;
    }
  }

  /** A second write to the same role replaces the first. */
  lemma PutTwice(t: Tables, s: Side, name: string, x: set<Perm>, y: set<Perm>)
    ensures t.Put(s, name, x).Put(s, name, y) == t.Put(s, name, y)
  {
    if s == PulpSide {
      assert t.pulp[name := x][name := y] == t.pulp[name := y];
    } else {
      assert t.dab[name := x][name := y] == t.dab[name := y];
    }
  }

  lemma CodenamesMono(a: set<Perm>, b: set<Perm>)
    requires a <= b
    ensures Codenames(a) <= Codenames(b)
  {
  }

  // ---------------------------------------------------------------------------
  // The permission diff on its own

  /**
   * Role B's permissions after `copy_permissions_role_to_role(A, B)` performs
   * its addition and its removal with no handler re-entering in between.
   */
  function ApplyDiff(a: set<Perm>, b: set<Perm>, catB: set<Perm>): (r: set<Perm>)
    ensures forall p :: p in r && p !in b ==> p in catB && p.codename in Codenames(a)
    ensures forall p :: p in b && p !in r ==> p.codename !in Codenames(a)
  {
    var ca, cb := Codenames(a), Codenames(b);
    (b + WithCodenames(catB, ca - cb)) - WithCodenames(catB, cb - ca)
  }

  /**
   * After the diff, B holds exactly A's codenames that B held already or that
   * B's catalogue has: a codename missing from B's table is skipped.
   */
  lemma DiffCodenames(a: set<Perm>, b: set<Perm>, catB: set<Perm>)
    requires b <= catB
    ensures Codenames(ApplyDiff(a, b, catB)) == Codenames(a) * (Codenames(b) + Codenames(catB))
  {
    var ca, cb, cc := Codenames(a), Codenames(b), Codenames(catB);
    var r := ApplyDiff(a, b, catB);
    forall c | c in Codenames(r) ensures c in ca * (cb + cc) {
      var p :| p in r && p.codename == c;
    }
    forall c | c in ca * (cb + cc) ensures c in Codenames(r) {
      if c in cb {
        var p :| p in b && p.codename == c;
        assert p in r;
      } else {
        var p :| p in catB && p.codename == c;
        assert p in r;
      }
    }
  }

  /** When B's catalogue has every codename of A, the diff makes B's codenames equal A's. */
  lemma DiffMatchesSource(a: set<Perm>, b: set<Perm>, catB: set<Perm>)
    requires b <= catB
    requires Codenames(a) <= Codenames(catB)
    ensures Codenames(ApplyDiff(a, b, catB)) == Codenames(a)
  {
    DiffCodenames(a, b, catB);
  }

  /** A permission of B whose codename both roles have is neither added nor removed. */
  lemma DiffKeepsShared(a: set<Perm>, b: set<Perm>, catB: set<Perm>, p: Perm)
    requires p.codename in Codenames(a) * Codenames(b)
    ensures p in ApplyDiff(a, b, catB) <==> p in b
  {
  }

  /**
   * Running the diff again right after it finds nothing to add and nothing to
   * remove: both permission lookups are empty, so B is left as it is.
   */
  lemma DiffSettles(a: set<Perm>, b: set<Perm>, catB: set<Perm>)
    requires b <= catB
    ensures var b' := ApplyDiff(a, b, catB);
      && WithCodenames(catB, Codenames(a) - Codenames(b')) == {}
      && Codenames(b') - Codenames(a) == {}
      && ApplyDiff(a, b', catB) == b'
  {
    var b' := ApplyDiff(a, b, catB);
    DiffCodenames(a, b, catB);
    var missing := Codenames(a) - Codenames(b');
    forall p | p in catB ensures p.codename !in missing {
      assert p.codename in Codenames(catB);
    }
    assert WithCodenames(catB, missing) == {};
    assert WithCodenames(catB, Codenames(b') - Codenames(a)) == {};
  }

  // ---------------------------------------------------------------------------
  // The re-entrant m2m cycle

  /**
   * The `m2m_changed` handler of side `side`'s `permissions` relation
   * (`copy_permission_role_to_rd` for pulp, `copy_permission_rd_to_role` for
   * DAB), for a change of the role `name`; `busy` is `rbac_signal_in_progress()`.
   */
  function OnPermissionsChanged(side: Side, name: string, action: M2MAction, reverse: bool, busy: bool,
                                cats: Catalogues, t: Tables, depth: nat): (r: Step)
    ensures busy || action.IsPre() ==> r == Step(Pass, t)
    ensures !busy && !action.IsPre() && reverse ==> r == Step(Fail(ReverseRelation), t)
    ensures !reverse && name !in t.Of(side.Other()) ==> r == Step(Pass, t)
    decreases depth, 3
  {
    if busy then Step(Pass, t)
    else if action.IsPre() then Step(Pass, t)
    else if reverse then Step(Fail(ReverseRelation), t)
    else if name !in t.Of(side.Other()) then Step(Pass, t)
    else CopyRoleToRole(side, name, busy, cats, t, depth)
  }

  /**
   * `copy_permissions_role_to_role(A, B)` with A the role `name` on side `src`
   * and B its same-named counterpart; both difference sets are computed
   * before the addition, and the removal uses them after the addition's
   * nested handlers have run.
   */
  function CopyRoleToRole(src: Side, name: string, busy: bool, cats: Catalogues, t: Tables, depth: nat): (r: Step)
    ensures Codenames(Role(t, src, name)) == Codenames(Role(t, src.Other(), name)) ==> r == Step(Pass, t)
    decreases depth, 2
  {
    var dst := src.Other();
    var ca := Codenames(PermsOf(t.Of(src), name));
    var cb := Codenames(PermsOf(t.Of(dst), name));
    var added :=
      if ca - cb != {} then AddPermissions(dst, name, WithCodenames(cats.Of(dst), ca - cb), busy, cats, t, depth)
      else Step(Pass, t);
    if added.outcome.Fail? || cb - ca == {} then added
    else RemovePermissions(dst, name, WithCodenames(cats.Of(dst), cb - ca), busy, cats, added.tables, depth)
  }

  /**
   * `role.permissions.add(*ids)`: nothing for no ids; else `pre_add`, the
   * write, `post_add`, inside Django's `transaction.atomic`, so a handler
   * that fails undoes the whole call.
   */
  function AddPermissions(side: Side, name: string, ids: set<Perm>, busy: bool, cats: Catalogues,
                          t: Tables, depth: nat): (r: Step)
    ensures ids == {} ==> r == Step(Pass, t)
    ensures r.outcome.Fail? ==> r.tables == t
    ensures busy && depth >= 1 && ids != {} ==> r == Step(Pass, t.Put(side, name, Role(t, side, name) + ids))
    decreases depth, 1
  {
    if ids == {} then Step(Pass, t)
    else
      var pre := Deliver(side, name, PreAdd, busy, cats, t, depth);
      if pre.outcome.Fail? then Step(pre.outcome, t)
      else
        var written := pre.tables.Put(side, name, PermsOf(pre.tables.Of(side), name) + ids);
        var post := Deliver(side, name, PostAdd, busy, cats, written, depth);
        if post.outcome.Fail? then Step(post.outcome, t) else post
  }

  /** `role.permissions.remove(*ids)`: nothing for no ids; else `pre_remove`, the write, `post_remove`, all or nothing. */
  function RemovePermissions(side: Side, name: string, ids: set<Perm>, busy: bool, cats: Catalogues,
                             t: Tables, depth: nat): (r: Step)
    ensures ids == {} ==> r == Step(Pass, t)
    ensures r.outcome.Fail? ==> r.tables == t
    ensures busy && depth >= 1 && ids != {} ==> r == Step(Pass, t.Put(side, name, Role(t, side, name) - ids))
    decreases depth, 1
  {
    if ids == {} then Step(Pass, t)
    else
      var pre := Deliver(side, name, PreRemove, busy, cats, t, depth);
      if pre.outcome.Fail? then Step(pre.outcome, t)
      else
        var written := pre.tables.Put(side, name, PermsOf(pre.tables.Of(side), name) - ids);
        var post := Deliver(side, name, PostRemove, busy, cats, written, depth);
        if post.outcome.Fail? then Step(post.outcome, t) else post
  }

  /** `role.permissions.clear()`: `pre_clear`, the deletion of every row, `post_clear`, whatever the role holds; all or nothing. */
  function ClearPermissions(side: Side, name: string, busy: bool, cats: Catalogues, t: Tables, depth: nat): (r: Step)
    ensures r.outcome.Fail? ==> r.tables == t
    ensures busy && depth >= 1 ==> r == Step(Pass, t.Put(side, name, {}))
  {
    var pre := Deliver(side, name, PreClear, busy, cats, t, depth);
    if pre.outcome.Fail? then Step(pre.outcome, t)
    else
      var post := Deliver(side, name, PostClear, busy, cats, pre.tables.Put(side, name, {}), depth);
      if post.outcome.Fail? then Step(post.outcome, t) else post
  }

  /** Delivery of an `m2m_changed` signal for side `side`: one more nested handler call. */
  function Deliver(side: Side, name: string, action: M2MAction, busy: bool, cats: Catalogues,
                   t: Tables, depth: nat): (r: Step)
    ensures depth == 0 ==> r == Step(Fail(RecursionLimit), t)
    ensures depth > 0 && (busy || action.IsPre()) ==> r == Step(Pass, t)
    decreases depth, 0
  {
    if depth == 0 then Step(Fail(RecursionLimit), t)
    else OnPermissionsChanged(side, name, action, false, busy, cats, t, depth - 1)
  }

  // ---------------------------------------------------------------------------
  // Only the changed role is ever touched

  /** `u` differs from `t` at most in the role `name`, in either store. */
  predicate OnlyRoleChanged(u: Tables, t: Tables, name: string) {
    u.pulp - {name} == t.pulp - {name} && u.dab - {name} == t.dab - {name}
  }

  /** A write to role `name` changes no other role. */
  lemma PutFrame(t: Tables, s: Side, name: string, x: set<Perm>)
    ensures OnlyRoleChanged(t.Put(s, name, x), t, name)
  {
    if s == PulpSide {
      assert t.pulp[name := x] - {name} == t.pulp - {name};
    } else {
      assert t.dab[name := x] - {name} == t.dab - {name};
    }
  }

  /**
   * However deep the re-entry goes, a handler call changes no role but the
   * one whose permissions changed, in either store.
   */
  lemma {:induction false} HandlerFrame(side: Side, name: string, action: M2MAction, reverse: bool, busy: bool,
                                        cats: Catalogues, t: Tables, depth: nat)
    ensures OnlyRoleChanged(OnPermissionsChanged(side, name, action, reverse, busy, cats, t, depth).tables, t, name)
    decreases depth, 3
  {
    if !busy && !action.IsPre() && !reverse && name in t.Of(side.Other()) {
      CopyFrame(side, name, busy, cats, t, depth);
    }
  }

  /** The copy, with every handler its writes fire, changes no role but `name`. */
  lemma {:induction false} CopyFrame(src: Side, name: string, busy: bool, cats: Catalogues, t: Tables, depth: nat)
    ensures OnlyRoleChanged(CopyRoleToRole(src, name, busy, cats, t, depth).tables, t, name)
    decreases depth, 2
  {
    var dst := src.Other();
    var ca := Codenames(PermsOf(t.Of(src), name));
    var cb := Codenames(PermsOf(t.Of(dst), name));
    var added :=
      if ca - cb != {} then AddPermissions(dst, name, WithCodenames(cats.Of(dst), ca - cb), busy, cats, t, depth)
      else Step(Pass, t);
    if ca - cb != {} {
      AddFrame(dst, name, WithCodenames(cats.Of(dst), ca - cb), busy, cats, t, depth);
    }
    if !added.outcome.Fail? && cb - ca != {} {
      RemoveFrame(dst, name, WithCodenames(cats.Of(dst), cb - ca), busy, cats, added.tables, depth);
    }
  }

  /** `permissions.add` and the handlers it fires change no role but `name`. */
  lemma {:induction false} AddFrame(side: Side, name: string, ids: set<Perm>, busy: bool, cats: Catalogues,
                                    t: Tables, depth: nat)
    ensures OnlyRoleChanged(AddPermissions(side, name, ids, busy, cats, t, depth).tables, t, name)
    decreases depth, 1
  {
    if ids != {} {
      var pre := Deliver(side, name, PreAdd, busy, cats, t, depth);
      DeliverFrame(side, name, PreAdd, busy, cats, t, depth);
      if !pre.outcome.Fail? {
        var written := pre.tables.Put(side, name, PermsOf(pre.tables.Of(side), name) + ids);
        PutFrame(pre.tables, side, name, PermsOf(pre.tables.Of(side), name) + ids);
        DeliverFrame(side, name, PostAdd, busy, cats, written, depth);
      }
    }
  }

  /** `permissions.remove` and the handlers it fires change no role but `name`. */
  lemma {:induction false} RemoveFrame(side: Side, name: string, ids: set<Perm>, busy: bool, cats: Catalogues,
                                       t: Tables, depth: nat)
    ensures OnlyRoleChanged(RemovePermissions(side, name, ids, busy, cats, t, depth).tables, t, name)
    decreases depth, 1
  {
    if ids != {} {
      var pre := Deliver(side, name, PreRemove, busy, cats, t, depth);
      DeliverFrame(side, name, PreRemove, busy, cats, t, depth);
      if !pre.outcome.Fail? {
        var written := pre.tables.Put(side, name, PermsOf(pre.tables.Of(side), name) - ids);
        PutFrame(pre.tables, side, name, PermsOf(pre.tables.Of(side), name) - ids);
        DeliverFrame(side, name, PostRemove, busy, cats, written, depth);
      }
    }
  }

  /** `permissions.clear` and the handlers it fires change no role but `name`. */
  lemma ClearFrame(side: Side, name: string, busy: bool, cats: Catalogues, t: Tables, depth: nat)
    ensures OnlyRoleChanged(ClearPermissions(side, name, busy, cats, t, depth).tables, t, name)
  {
    var pre := Deliver(side, name, PreClear, busy, cats, t, depth);
    DeliverFrame(side, name, PreClear, busy, cats, t, depth);
    if !pre.outcome.Fail? {
      PutFrame(pre.tables, side, name, {});
      DeliverFrame(side, name, PostClear, busy, cats, pre.tables.Put(side, name, {}), depth);
    }
  }

  /** A delivered m2m signal changes no role but `name`. */
  lemma {:induction false} DeliverFrame(side: Side, name: string, action: M2MAction, busy: bool, cats: Catalogues,
                                        t: Tables, depth: nat)
    ensures OnlyRoleChanged(Deliver(side, name, action, busy, cats, t, depth).tables, t, name)
    decreases depth, 0
  {
    if depth > 0 {
      HandlerFrame(side, name, action, false, busy, cats, t, depth - 1);
    }
  }

  // ---------------------------------------------------------------------------
  // What one handler call does to the tables

  /**
   * A non-empty addition by a caller outside any guarded block, with room for
   * one more signal: `pre_add` is ignored, the rows are written, and the
   * handler of `post_add` copies the role onto its counterpart; if that copy
   * fails, the addition is undone.
   */
  lemma AddUnfold(side: Side, name: string, ids: set<Perm>, cats: Catalogues, t: Tables, depth: nat)
    requires name in t.Of(side.Other())
    requires ids != {} && depth >= 1
    ensures var copy := CopyRoleToRole(side, name, false, cats, t.Put(side, name, Role(t, side, name) + ids), depth - 1);
      AddPermissions(side, name, ids, false, cats, t, depth) == if copy.outcome.Fail? then Step(copy.outcome, t) else copy
  {
    assert Deliver(side, name, PreAdd, false, cats, t, depth) == Step(Pass, t);
    var written := t.Put(side, name, Role(t, side, name) + ids);
    assert name in written.Of(side.Other());
    assert Deliver(side, name, PostAdd, false, cats, written, depth)
      == CopyRoleToRole(side, name, false, cats, written, depth - 1);
  }

  /** The same for a non-empty removal. */
  lemma RemoveUnfold(side: Side, name: string, ids: set<Perm>, cats: Catalogues, t: Tables, depth: nat)
    requires name in t.Of(side.Other())
    requires ids != {} && depth >= 1
    ensures var copy := CopyRoleToRole(side, name, false, cats, t.Put(side, name, Role(t, side, name) - ids), depth - 1);
      RemovePermissions(side, name, ids, false, cats, t, depth) == if copy.outcome.Fail? then Step(copy.outcome, t) else copy
  {
    assert Deliver(side, name, PreRemove, false, cats, t, depth) == Step(Pass, t);
    var written := t.Put(side, name, Role(t, side, name) - ids);
    assert name in written.Of(side.Other());
    assert Deliver(side, name, PostRemove, false, cats, written, depth)
      == CopyRoleToRole(side, name, false, cats, written, depth - 1);
  }

  /**
   * A copy that only has to remove: B loses its permissions whose codename A
   * lacks, the nested handler of B's `post_remove` then finds both roles equal,
   * and A is untouched.
   */
  lemma RemoveOnlyCopy(src: Side, name: string, cats: Catalogues, t: Tables, depth: nat)
    requires name in t.pulp && name in t.dab
    requires Role(t, src.Other(), name) <= cats.Of(src.Other())
    requires Codenames(Role(t, src, name)) <= Codenames(Role(t, src.Other(), name))
    requires depth >= 1
    ensures var dst := src.Other();
      CopyRoleToRole(src, name, false, cats, t, depth)
        == Step(Pass, t.Put(dst, name, ApplyDiff(Role(t, src, name), Role(t, dst, name), cats.Of(dst))))
    ensures var dst := src.Other();
      Codenames(ApplyDiff(Role(t, src, name), Role(t, dst, name), cats.Of(dst))) == Codenames(Role(t, src, name))
  {
    var dst := src.Other();
    var a, b := Role(t, src, name), Role(t, dst, name);
    var ca, cb := Codenames(a), Codenames(b);
    var b' := ApplyDiff(a, b, cats.Of(dst));
    CodenamesMono(b, cats.Of(dst));
    DiffMatchesSource(a, b, cats.Of(dst));
    if cb - ca == {} {
      assert b' == b;
      assert t.Put(dst, name, b') == t;
    } else {
      var ids := WithCodenames(cats.Of(dst), cb - ca);
      var c :| c in cb - ca;
      var p :| p in b && p.codename == c;
      assert p in ids;
      assert ca - cb == {};
      assert WithCodenames(cats.Of(dst), ca - cb) == {};
      assert b' == b - ids;
      var written := t.Put(dst, name, b');
      assert Deliver(dst, name, PreRemove, false, cats, t, depth) == Step(Pass, t);
      assert Role(written, dst, name) == b' && Role(written, src, name) == a;
      assert Deliver(dst, name, PostRemove, false, cats, written, depth) == Step(Pass, written);
      assert RemovePermissions(dst, name, ids, false, cats, t, depth) == Step(Pass, written);
    }
  }

  /**
   * A copy that only has to add: B gains the catalogue rows for A's extra
   * codenames; if there were any, the nested handler of B's `post_add` copies
   * B back onto A, and A loses every permission whose codename B's catalogue
   * lacks. With no catalogue row to add, no signal fires and nothing changes.
   */
  lemma AddOnlyCopy(src: Side, name: string, cats: Catalogues, t: Tables, depth: nat)
    requires name in t.pulp && name in t.dab
    requires Role(t, src, name) <= cats.Of(src) && Role(t, src.Other(), name) <= cats.Of(src.Other())
    requires Codenames(Role(t, src.Other(), name)) <= Codenames(Role(t, src, name))
    requires depth >= 2 || (depth >= 1 && Codenames(Role(t, src, name)) <= Codenames(cats.Of(src.Other())))
    ensures var dst := src.Other();
      var a, b, catB := Role(t, src, name), Role(t, dst, name), cats.Of(dst);
      var r := CopyRoleToRole(src, name, false, cats, t, depth);
      && (WithCodenames(catB, Codenames(a) - Codenames(b)) == {} ==> r == Step(Pass, t))
      && (WithCodenames(catB, Codenames(a) - Codenames(b)) != {} ==>
            && r == Step(Pass, t.Put(dst, name, ApplyDiff(a, b, catB)).Put(src, name, WithCodenames(a, Codenames(catB))))
            && Settled(r.tables, name))
  {
    var dst := src.Other();
    var a, b, catA, catB := Role(t, src, name), Role(t, dst, name), cats.Of(src), cats.Of(dst);
    var ids := WithCodenames(catB, Codenames(a) - Codenames(b));
    if ids != {} {
      AddOnlySets(a, b, catA, catB);
      var b1 := b + ids;
      var kept := WithCodenames(a, Codenames(catB));
      var written := t.Put(dst, name, b1);
      assert dst.Other() == src;
      assert Deliver(dst, name, PreAdd, false, cats, t, depth) == Step(Pass, t);
      assert Role(written, dst, name) == b1 && Role(written, src, name) == a;
      assert name in written.pulp && name in written.dab;
      if Codenames(b1) == Codenames(a) {
        PutSame(written, src, name);
      } else {
        RemoveOnlyCopy(dst, name, cats, written, depth - 1);
      }
      assert Deliver(dst, name, PostAdd, false, cats, written, depth)
        == Step(Pass, written.Put(src, name, kept));
      var final := written.Put(src, name, kept);
      assert Role(final, src, name) == kept && Role(final, dst, name) == b1;
    }
  }

  /**
   * The sets behind a copy that only adds: B gains the rows for A's extra
   * codenames that its catalogue has, and the copy back onto A keeps exactly
   * A's rows whose codename B's catalogue has.
   */
  lemma AddOnlySets(a: set<Perm>, b: set<Perm>, catA: set<Perm>, catB: set<Perm>)
    requires a <= catA && b <= catB
    requires Codenames(b) <= Codenames(a)
    ensures var b1 := b + WithCodenames(catB, Codenames(a) - Codenames(b));
      var kept := WithCodenames(a, Codenames(catB));
      && ApplyDiff(a, b, catB) == b1
      && b1 <= catB
      && Codenames(b1) == Codenames(a) * Codenames(catB)
      && Codenames(kept) == Codenames(a) * Codenames(catB)
      && (Codenames(b1) == Codenames(a) ==> kept == a)
      && ApplyDiff(b1, a, catA) == kept
  {
    var ca, cb, cc := Codenames(a), Codenames(b), Codenames(catB);
    var b1 := b + WithCodenames(catB, ca - cb);
    var kept := WithCodenames(a, cc);
    assert WithCodenames(catB, cb - ca) == {};
    CodenamesMono(b, catB);
    DiffCodenames(a, b, catB);
    assert Codenames(b1) == ca * cc;
    assert WithCodenames(catA, Codenames(b1) - ca) == {};
  }

  /** Adding catalogue rows for `codes` adds those of `codes` the catalogue has. */
  lemma AddCodenames(b: set<Perm>, cat: set<Perm>, codes: set<string>)
    ensures Codenames(b + WithCodenames(cat, codes)) == Codenames(b) + codes * Codenames(cat)
  {
    var ids := WithCodenames(cat, codes);
    forall c | c in codes * Codenames(cat) ensures c in Codenames(b + ids) {
      var p :| p in cat && p.codename == c;
      assert p in ids;
    }
    forall c | c in Codenames(b + ids) ensures c in Codenames(b) + codes * Codenames(cat) {
      var p :| p in b + ids && p.codename == c;
    }
  }

  /**
   * Inside the addition of a two-way diff: the handler of B's `post_add`
   * finds B a superset of A and copies B's extra codenames onto A.
   */
  lemma MixedCopyAddBounce(src: Side, name: string, cats: Catalogues, t: Tables, depth: nat)
    requires name in t.pulp && name in t.dab
    requires Role(t, src, name) <= cats.Of(src) && Role(t, src.Other(), name) <= cats.Of(src.Other())
    requires Codenames(Role(t, src, name)) <= Codenames(cats.Of(src.Other()))
    requires Codenames(Role(t, src.Other(), name)) <= Codenames(cats.Of(src))
    requires Codenames(Role(t, src, name)) - Codenames(Role(t, src.Other(), name)) != {}
    requires Codenames(Role(t, src.Other(), name)) - Codenames(Role(t, src, name)) != {}
    requires depth >= 2
    ensures var dst := src.Other();
      var a, b, catA, catB := Role(t, src, name), Role(t, dst, name), cats.Of(src), cats.Of(dst);
      var ca, cb := Codenames(a), Codenames(b);
      var b1 := b + WithCodenames(catB, ca - cb);
      CopyRoleToRole(dst, name, false, cats, t.Put(dst, name, b1), depth - 1)
        == Step(Pass, t.Put(dst, name, b1).Put(src, name, a + WithCodenames(catA, cb - ca)).Put(dst, name, b1))
  {
    var dst := src.Other();
    var a, b, catA, catB := Role(t, src, name), Role(t, dst, name), cats.Of(src), cats.Of(dst);
    var b1 := b + WithCodenames(catB, Codenames(a) - Codenames(b));
    var written := t.Put(dst, name, b1);
    BounceSets(a, b, catA, catB);
    assert dst.Other() == src;
    assert Role(written, dst, name) == b1 && Role(written, src, name) == a;
    assert name in written.pulp && name in written.dab;
    AddOnlyCopy(dst, name, cats, written, depth - 1);
    assert CopyRoleToRole(dst, name, false, cats, written, depth - 1)
      == Step(Pass, written.Put(src, name, ApplyDiff(b1, a, catA)).Put(dst, name, WithCodenames(b1, Codenames(catA))));
  }

  /**
   * The sets behind the bounce of a two-way diff: after the addition B holds
   * both roles' codenames, so the copy back onto A only adds, and every row
   * of B has a codename A's catalogue knows.
   */
  lemma BounceSets(a: set<Perm>, b: set<Perm>, catA: set<Perm>, catB: set<Perm>)
    requires a <= catA && b <= catB
    requires Codenames(a) <= Codenames(catB) && Codenames(b) <= Codenames(catA)
    requires Codenames(b) - Codenames(a) != {}
    ensures var b1 := b + WithCodenames(catB, Codenames(a) - Codenames(b));
      && b1 <= catB
      && Codenames(b1) == Codenames(a) + Codenames(b)
      && Codenames(b1) <= Codenames(catA)
      && WithCodenames(catA, Codenames(b1) - Codenames(a)) != {}
      && ApplyDiff(b1, a, catA) == a + WithCodenames(catA, Codenames(b) - Codenames(a))
      && WithCodenames(b1, Codenames(catA)) == b1
  {
    var ca, cb := Codenames(a), Codenames(b);
    var b1 := b + WithCodenames(catB, ca - cb);
    AddCodenames(b, catB, ca - cb);
    CodenamesMono(a, catA);
    var c2 :| c2 in cb - ca;
    var p2 :| p2 in catA && p2.codename == c2;
    assert p2 in WithCodenames(catA, Codenames(b1) - ca);
    assert WithCodenames(catA, ca - Codenames(b1)) == {};
  }

  /**
   * The addition of a two-way diff: B gains A's extra codenames, and the
   * nested handler of B's `post_add` copies B's codenames that A lacks onto A.
   */
  lemma MixedCopyAddPhase(src: Side, name: string, cats: Catalogues, t: Tables, depth: nat)
    requires name in t.pulp && name in t.dab
    requires Role(t, src, name) <= cats.Of(src) && Role(t, src.Other(), name) <= cats.Of(src.Other())
    requires Codenames(Role(t, src, name)) <= Codenames(cats.Of(src.Other()))
    requires Codenames(Role(t, src.Other(), name)) <= Codenames(cats.Of(src))
    requires Codenames(Role(t, src, name)) - Codenames(Role(t, src.Other(), name)) != {}
    requires Codenames(Role(t, src.Other(), name)) - Codenames(Role(t, src, name)) != {}
    requires depth >= 2
    ensures var dst := src.Other();
      var a, b, catA, catB := Role(t, src, name), Role(t, dst, name), cats.Of(src), cats.Of(dst);
      var ca, cb := Codenames(a), Codenames(b);
      AddPermissions(dst, name, WithCodenames(catB, ca - cb), false, cats, t, depth)
        == Step(Pass, t.Put(dst, name, b + WithCodenames(catB, ca - cb)).Put(src, name, a + WithCodenames(catA, cb - ca)))
  {
    var dst := src.Other();
    var a, b, catA, catB := Role(t, src, name), Role(t, dst, name), cats.Of(src), cats.Of(dst);
    var ca, cb := Codenames(a), Codenames(b);
    var ids := WithCodenames(catB, ca - cb);
    assert ids != {} by {
      var c :| c in ca - cb;
      var p :| p in catB && p.codename == c;
      assert p in ids;
    }
    var b1 := b + ids;
    var a2 := a + WithCodenames(catA, cb - ca);
    var written := t.Put(dst, name, b1);
    var bounce := CopyRoleToRole(dst, name, false, cats, written, depth - 1);
    AddUnfold(dst, name, ids, cats, t, depth);
    MixedCopyAddBounce(src, name, cats, t, depth);
    var t2 := t.Put(dst, name, b1).Put(src, name, a2);
    assert bounce == Step(Pass, t2) by {
      PutTwice(t, dst, name, b1, b1);
      PutCommutes(t.Put(dst, name, b1), src, name, a2, b1);
    }
  }

  /**
   * The stale removal of a two-way diff, after the addition phase: B loses
   * the codenames A originally lacked, and the nested handler of B's
   * `post_remove` takes them off A again.
   */
  lemma MixedCopyRemovePhase(src: Side, name: string, cats: Catalogues, t: Tables, depth: nat)
    requires name in t.pulp && name in t.dab
    requires Role(t, src, name) <= cats.Of(src) && Role(t, src.Other(), name) <= cats.Of(src.Other())
    requires Codenames(Role(t, src, name)) <= Codenames(cats.Of(src.Other()))
    requires Codenames(Role(t, src.Other(), name)) - Codenames(Role(t, src, name)) != {}
    requires depth >= 2
    ensures var dst := src.Other();
      var a, b, catA, catB := Role(t, src, name), Role(t, dst, name), cats.Of(src), cats.Of(dst);
      var ca, cb := Codenames(a), Codenames(b);
      var t2 := t.Put(dst, name, b + WithCodenames(catB, ca - cb)).Put(src, name, a + WithCodenames(catA, cb - ca));
      RemovePermissions(dst, name, WithCodenames(catB, cb - ca), false, cats, t2, depth)
        == Step(Pass, t.Put(dst, name, ApplyDiff(a, b, catB)))
  {
    var dst := src.Other();
    var a, b, catA, catB := Role(t, src, name), Role(t, dst, name), cats.Of(src), cats.Of(dst);
    var ca, cb := Codenames(a), Codenames(b);
    var b1 := b + WithCodenames(catB, ca - cb);
    var a2 := a + WithCodenames(catA, cb - ca);
    var t2 := t.Put(dst, name, b1).Put(src, name, a2);
    var b' := ApplyDiff(a, b, catB);
    var goal := t.Put(dst, name, b');
    var rm := WithCodenames(catB, cb - ca);
    RemovePhaseSets(a, b, catA, catB);
    var written3 := t2.Put(dst, name, b');
    assert dst.Other() == src;
    assert Role(t2, dst, name) - rm == b';
    assert Role(written3, dst, name) == b' && Role(written3, src, name) == a2;
    assert Deliver(dst, name, PreRemove, false, cats, t2, depth) == Step(Pass, t2);
    RemoveOnlyCopy(dst, name, cats, written3, depth - 1);
    var u := t.Put(dst, name, b1);
    PutCommutes(u, src, name, a2, b');
    PutTwice(t, dst, name, b1, b');
    PutTwice(goal, src, name, a2, a);
    PutSame(goal, src, name);
    assert written3.Put(src, name, a) == goal;
    assert Deliver(dst, name, PostRemove, false, cats, written3, depth) == Step(Pass, goal);
  }

  /**
   * The sets behind the removal phase of a mixed copy: what the handler
   * removes from B (after the additions) leaves exactly the diff's result,
   * and copying that back onto A (after the bounce) restores A.
   */
  lemma RemovePhaseSets(a: set<Perm>, b: set<Perm>, catA: set<Perm>, catB: set<Perm>)
    requires a <= catA && b <= catB
    requires Codenames(a) <= Codenames(catB)
    requires Codenames(b) - Codenames(a) != {}
    ensures var ca, cb := Codenames(a), Codenames(b);
      var b1, a2 := b + WithCodenames(catB, ca - cb), a + WithCodenames(catA, cb - ca);
      var rm, b' := WithCodenames(catB, cb - ca), ApplyDiff(a, b, catB);
      && rm != {}
      && b' == b1 - rm
      && b' <= catB && a2 <= catA
      && Codenames(b') == ca && Codenames(b') <= Codenames(a2)
      && ApplyDiff(b', a2, catA) == a
  {
    var ca, cb := Codenames(a), Codenames(b);
    var a2 := a + WithCodenames(catA, cb - ca);
    DiffMatchesSource(a, b, catB);
    var c2 :| c2 in cb - ca;
    var p3 :| p3 in b && p3.codename == c2;
    assert p3 in WithCodenames(catB, cb - ca);
    AddCodenames(a, catA, cb - ca);
    assert WithCodenames(catA, ca - Codenames(a2)) == {};
  }

  /**
   * When each catalogue has every codename of the other side's role, one
   * handler call leaves the source role as it was and makes the destination
   * role exactly the diff's result, so both sides end with A's codenames.
   * With both additions and removals to make, this takes two rounds of
   * re-entry: the nested handler of the addition first copies B's doomed
   * codenames onto A, and the nested handler of the removal takes them away
   * again.
   */
  lemma CopyConverges(src: Side, name: string, cats: Catalogues, t: Tables, depth: nat)
    requires name in t.pulp && name in t.dab
    requires Role(t, src, name) <= cats.Of(src) && Role(t, src.Other(), name) <= cats.Of(src.Other())
    requires Codenames(Role(t, src, name)) <= Codenames(cats.Of(src.Other()))
    requires Codenames(Role(t, src.Other(), name)) <= Codenames(cats.Of(src))
    requires depth >= 2
    ensures var dst := src.Other();
      var r := CopyRoleToRole(src, name, false, cats, t, depth);
      && r == Step(Pass, t.Put(dst, name, ApplyDiff(Role(t, src, name), Role(t, dst, name), cats.Of(dst))))
      && Settled(r.tables, name)
  {
    var dst := src.Other();
    var a, b, catA, catB := Role(t, src, name), Role(t, dst, name), cats.Of(src), cats.Of(dst);
    var ca, cb := Codenames(a), Codenames(b);
    var b' := ApplyDiff(a, b, catB);
    var goal := t.Put(dst, name, b');
    DiffMatchesSource(a, b, catB);
    assert Role(goal, src, name) == a && Role(goal, dst, name) == b';
    if ca - cb == {} {
      RemoveOnlyCopy(src, name, cats, t, depth);
    } else if cb - ca == {} {
      ConvergesByAdding(src, name, cats, t, depth);
    } else {
      MixedCopyAddPhase(src, name, cats, t, depth);
      MixedCopyRemovePhase(src, name, cats, t, depth);
    }
  }

  /** The case of `CopyConverges` where B lacks some codename of A and has none A lacks. */
  lemma ConvergesByAdding(src: Side, name: string, cats: Catalogues, t: Tables, depth: nat)
    requires name in t.pulp && name in t.dab
    requires Role(t, src, name) <= cats.Of(src) && Role(t, src.Other(), name) <= cats.Of(src.Other())
    requires Codenames(Role(t, src, name)) <= Codenames(cats.Of(src.Other()))
    requires Codenames(Role(t, src.Other(), name)) < Codenames(Role(t, src, name))
    requires depth >= 2
    ensures var dst := src.Other();
      var r := CopyRoleToRole(src, name, false, cats, t, depth);
      && r == Step(Pass, t.Put(dst, name, ApplyDiff(Role(t, src, name), Role(t, dst, name), cats.Of(dst))))
      && Settled(r.tables, name)
  {
    var dst := src.Other();
    var a, b, catB := Role(t, src, name), Role(t, dst, name), cats.Of(dst);
    var ca, cb := Codenames(a), Codenames(b);
    var b' := ApplyDiff(a, b, catB);
    var c :| c in ca - cb;
    var p :| p in catB && p.codename == c;
    assert p in WithCodenames(catB, ca - cb);
    AddOnlyCopy(src, name, cats, t, depth);
    assert WithCodenames(a, Codenames(catB)) == a;
    assert Role(t.Put(dst, name, b'), src, name) == a;
    assert t.Put(dst, name, b').Put(src, name, a) == t.Put(dst, name, b');
  }

  // ---------------------------------------------------------------------------
  // A caller's write to a role whose two sides agree

  /**
   * Adding `ids` to a role with the same codenames as `b`: `b`'s codenames
   * stay covered, and the other catalogue `catO` covers the role afterwards
   * exactly when it covers the new codenames.
   */
  lemma SettledAddSets(role: set<Perm>, ids: set<Perm>, b: set<Perm>, cat: set<Perm>, catO: set<Perm>)
    requires Codenames(role) == Codenames(b) && b <= catO
    requires role <= cat && ids <= cat
    ensures Codenames(b) <= Codenames(role + ids)
    ensures Codenames(role + ids) <= Codenames(catO) <==> Codenames(ids) <= Codenames(catO)
  {
    var a := role + ids;
    CodenamesMono(role, a);
    CodenamesMono(b, catO);
    assert Codenames(a) <= Codenames(catO) ==> Codenames(ids) <= Codenames(catO) by {
      CodenamesMono(ids, a);
    }
    assert Codenames(ids) <= Codenames(catO) ==> Codenames(a) <= Codenames(catO) by {
      AddCodenames(role, cat, Codenames(ids));
      assert WithCodenames(cat, Codenames(ids)) >= ids;
      assert Codenames(a) == Codenames(role) + Codenames(ids) by {
        forall c | c in Codenames(a) ensures c in Codenames(role) + Codenames(ids) {
          var p :| p in a && p.codename == c;
        }
      }
    }
  }

  /**
   * `role.permissions.add(*ids)` on a role whose counterpart has the same
   * codenames. If the other catalogue has none of the new codenames, no
   * signal is sent for the counterpart and the two sides now differ. Otherwise
   * the counterpart gains them, and the re-entrant copy back removes from the
   * written role every permission whose codename the other catalogue lacks,
   * including ones the caller has just added: both sides end equal.
   */
  lemma AddToSettledRole(side: Side, name: string, ids: set<Perm>, cats: Catalogues, t: Tables, depth: nat)
    requires name in t.pulp && name in t.dab
    requires Role(t, side, name) <= cats.Of(side) && Role(t, side.Other(), name) <= cats.Of(side.Other())
    requires ids <= cats.Of(side)
    requires Settled(t, name)
    requires depth >= 3 || (depth >= 2 && Codenames(ids) <= Codenames(cats.Of(side.Other())))
    ensures var other := side.Other();
      var a, b, catO := Role(t, side, name) + ids, Role(t, other, name), cats.Of(other);
      var r := AddPermissions(side, name, ids, false, cats, t, depth);
      && (ids == {} ==> r == Step(Pass, t))
      && (ids != {} && WithCodenames(catO, Codenames(a) - Codenames(b)) == {} ==>
            r == Step(Pass, t.Put(side, name, a)))
      && (ids != {} && WithCodenames(catO, Codenames(a) - Codenames(b)) != {} ==>
            && r == Step(Pass, t.Put(side, name, WithCodenames(a, Codenames(catO))).Put(other, name, ApplyDiff(a, b, catO)))
            && Settled(r.tables, name))
  {
    if ids != {} {
      var a := Role(t, side, name) + ids;
      if WithCodenames(cats.Of(side.Other()), Codenames(a) - Codenames(Role(t, side.Other(), name))) == {} {
        AddToSettledRoleUnmatched(side, name, ids, cats, t, depth);
      } else {
        AddToSettledRoleMatched(side, name, ids, cats, t, depth);
      }
    }
  }

  /**
   * The non-empty case of `AddToSettledRole` when the other catalogue has
   * none of the new codenames: the copy the write fires sends nothing.
   */
  lemma AddToSettledRoleUnmatched(side: Side, name: string, ids: set<Perm>, cats: Catalogues, t: Tables, depth: nat)
    requires name in t.pulp && name in t.dab
    requires Role(t, side, name) <= cats.Of(side) && Role(t, side.Other(), name) <= cats.Of(side.Other())
    requires ids <= cats.Of(side) && ids != {}
    requires Settled(t, name)
    requires depth >= 3 || (depth >= 2 && Codenames(ids) <= Codenames(cats.Of(side.Other())))
    requires var a := Role(t, side, name) + ids;
      WithCodenames(cats.Of(side.Other()), Codenames(a) - Codenames(Role(t, side.Other(), name))) == {}
    ensures AddPermissions(side, name, ids, false, cats, t, depth) == Step(Pass, t.Put(side, name, Role(t, side, name) + ids))
  {
    var other := side.Other();
    var a, b, catO := Role(t, side, name) + ids, Role(t, other, name), cats.Of(other);
    var written := t.Put(side, name, a);
    assert CopyRoleToRole(side, name, false, cats, written, depth - 1) == Step(Pass, written) by {
      assert Role(written, side, name) == a && Role(written, other, name) == b;
      SettledAddSets(Role(t, side, name), ids, b, cats.Of(side), catO);
      AddOnlyCopy(side, name, cats, written, depth - 1);
    }
    AddViaCopy(side, name, ids, cats, t, depth, written);
  }

  /**
   * The non-empty case of `AddToSettledRole` when the other catalogue has
   * some new codename: the counterpart gains it, and the copy back trims the
   * written role to the codenames the other catalogue knows.
   */
  lemma AddToSettledRoleMatched(side: Side, name: string, ids: set<Perm>, cats: Catalogues, t: Tables, depth: nat)
    requires name in t.pulp && name in t.dab
    requires Role(t, side, name) <= cats.Of(side) && Role(t, side.Other(), name) <= cats.Of(side.Other())
    requires ids <= cats.Of(side) && ids != {}
    requires Settled(t, name)
    requires depth >= 3 || (depth >= 2 && Codenames(ids) <= Codenames(cats.Of(side.Other())))
    requires var a := Role(t, side, name) + ids;
      WithCodenames(cats.Of(side.Other()), Codenames(a) - Codenames(Role(t, side.Other(), name))) != {}
    ensures var other := side.Other();
      var a, b, catO := Role(t, side, name) + ids, Role(t, other, name), cats.Of(other);
      var r := AddPermissions(side, name, ids, false, cats, t, depth);
      && r == Step(Pass, t.Put(side, name, WithCodenames(a, Codenames(catO))).Put(other, name, ApplyDiff(a, b, catO)))
      && Settled(r.tables, name)
  {
    var other := side.Other();
    var a, b, catO := Role(t, side, name) + ids, Role(t, other, name), cats.Of(other);
    CopyAfterSettledAdd(side, name, ids, cats, t, depth);
    AddViaCopy(side, name, ids, cats, t, depth,
               t.Put(side, name, WithCodenames(a, Codenames(catO))).Put(other, name, ApplyDiff(a, b, catO)));
  }

  /** The copy that `AddToSettledRoleMatched`'s write fires, on its own. */
  lemma CopyAfterSettledAdd(side: Side, name: string, ids: set<Perm>, cats: Catalogues, t: Tables, depth: nat)
    requires name in t.pulp && name in t.dab
    requires Role(t, side, name) <= cats.Of(side) && Role(t, side.Other(), name) <= cats.Of(side.Other())
    requires ids <= cats.Of(side)
    requires Settled(t, name)
    requires depth >= 3 || (depth >= 2 && Codenames(ids) <= Codenames(cats.Of(side.Other())))
    requires var a := Role(t, side, name) + ids;
      WithCodenames(cats.Of(side.Other()), Codenames(a) - Codenames(Role(t, side.Other(), name))) != {}
    ensures var other := side.Other();
      var a, b, catO := Role(t, side, name) + ids, Role(t, other, name), cats.Of(other);
      var final := t.Put(side, name, WithCodenames(a, Codenames(catO))).Put(other, name, ApplyDiff(a, b, catO));
      && CopyRoleToRole(side, name, false, cats, t.Put(side, name, a), depth - 1) == Step(Pass, final)
      && Settled(final, name)
  {
    var other := side.Other();
    var a, b, catO := Role(t, side, name) + ids, Role(t, other, name), cats.Of(other);
    var written := t.Put(side, name, a);
    assert Role(written, side, name) == a && Role(written, other, name) == b;
    SettledAddSets(Role(t, side, name), ids, b, cats.Of(side), catO);
    AddOnlyCopy(side, name, cats, written, depth - 1);
    var kept, diff := WithCodenames(a, Codenames(catO)), ApplyDiff(a, b, catO);
    PutCommutes(written, side, name, kept, diff);
    PutTwice(t, side, name, a, kept);
    PutCommutes(t, side, name, kept, diff);
  }

  /** An addition whose fired copy passes ends where that copy ends. */
  lemma AddViaCopy(side: Side, name: string, ids: set<Perm>, cats: Catalogues, t: Tables, depth: nat, final: Tables)
    requires name in t.Of(side.Other())
    requires ids != {} && depth >= 1
    requires CopyRoleToRole(side, name, false, cats, t.Put(side, name, Role(t, side, name) + ids), depth - 1) == Step(Pass, final)
    ensures AddPermissions(side, name, ids, false, cats, t, depth) == Step(Pass, final)
  {
    AddUnfold(side, name, ids, cats, t, depth);
  }

  /**
   * `role.permissions.remove(*ids)` on a role whose counterpart has the same
   * codenames: the counterpart loses the codenames the role no longer has,
   * the role keeps what the caller left, and both sides end equal.
   */
  lemma RemoveFromSettledRole(side: Side, name: string, ids: set<Perm>, cats: Catalogues, t: Tables, depth: nat)
    requires name in t.pulp && name in t.dab
    requires Role(t, side.Other(), name) <= cats.Of(side.Other())
    requires Settled(t, name)
    requires depth >= 2
    ensures var other := side.Other();
      var a, b := Role(t, side, name) - ids, Role(t, other, name);
      var r := RemovePermissions(side, name, ids, false, cats, t, depth);
      && (ids == {} ==> r == Step(Pass, t))
      && (ids != {} ==> r == Step(Pass, t.Put(side, name, a).Put(other, name, ApplyDiff(a, b, cats.Of(other)))))
      && Settled(r.tables, name)
  {
    var other := side.Other();
    var a, b := Role(t, side, name) - ids, Role(t, other, name);
    if ids != {} {
      var written := t.Put(side, name, a);
      RemoveUnfold(side, name, ids, cats, t, depth);
      assert Role(written, side, name) == a && Role(written, other, name) == b;
      assert Codenames(a) <= Codenames(b) by {
        assert Codenames(Role(t, side, name)) == Codenames(b);
        CodenamesMono(a, Role(t, side, name));
      }
      RemoveOnlyCopy(side, name, cats, written, depth - 1);
      var final := written.Put(other, name, ApplyDiff(a, b, cats.Of(other)));
      assert Role(final, side, name) == a;
      assert Role(final, other, name) == ApplyDiff(a, b, cats.Of(other));
    }
  }

  /**
   * The re-entry in action: a pulp role and its role definition are both
   * empty, and the DAB catalogue has `view_a` but no `view_b`. Adding both
   * permissions to the pulp role leaves it with `view_a` alone: the handler
   * copies `view_a` to the role definition, and the handler of that addition
   * copies the role definition back over the pulp role.
   */
  lemma UncataloguedAdditionIsUndone(depth: nat)
    requires depth >= 3
    ensures var va, vb, da := Perm(1, "view_a"), Perm(2, "view_b"), Perm(11, "view_a");
      var cats := Catalogues({va, vb}, {da});
      var t := Tables(map["r" := {}], map["r" := {}]);
      AddPermissions(PulpSide, "r", {va, vb}, false, cats, t, depth)
        == Step(Pass, Tables(map["r" := {va}], map["r" := {da}]))
  {
    var va, vb, da := Perm(1, "view_a"), Perm(2, "view_b"), Perm(11, "view_a");
    var cats := Catalogues({va, vb}, {da});
    var t := Tables(map["r" := {}], map["r" := {}]);
    var ids: set<Perm> := {va, vb};
    var none: set<Perm> := {};
    CodenamesOfPair(va, vb);
    CodenamesOfPair(da, da);
    CodenamesOfPair(va, va);
    assert Codenames(none) == {};
    assert Role(t, PulpSide, "r") + ids == ids && Role(t, DabSide, "r") == none;
    assert WithCodenames({da}, Codenames(ids) - Codenames(none)) == {da};
    AddToSettledRole(PulpSide, "r", ids, cats, t, depth);
    assert WithCodenames(ids, Codenames({da})) == {va};
    assert WithCodenames({da}, Codenames(none) - Codenames(ids)) == {};
    assert ApplyDiff(ids, none, {da}) == {da};
    assert t.Put(PulpSide, "r", {va}).Put(DabSide, "r", {da}) == Tables(map["r" := {va}], map["r" := {da}]);
  }

  lemma CodenamesOfPair(p: Perm, q: Perm)
    ensures Codenames({p, q}) == {p.codename, q.codename}
  {
  }

  /**
   * `role.permissions.clear()` on a role with a counterpart: the handler of
   * `post_clear` removes every permission of the counterpart too, and the
   * handler of that removal finds both sides empty.
   */
  lemma ClearEmptiesBoth(side: Side, name: string, cats: Catalogues, t: Tables, depth: nat)
    requires name in t.pulp && name in t.dab
    requires Role(t, side.Other(), name) <= cats.Of(side.Other())
    requires depth >= 2
    ensures var r := ClearPermissions(side, name, false, cats, t, depth);
      && r.outcome == Pass
      && r.tables == t.Put(side, name, {}).Put(side.Other(), name, {})
  {
    var other := side.Other();
    var b := Role(t, other, name);
    var written := t.Put(side, name, {});
    assert Deliver(side, name, PreClear, false, cats, t, depth) == Step(Pass, t);
    assert Role(written, side, name) == {} && Role(written, other, name) == b;
    assert Deliver(side, name, PostClear, false, cats, written, depth)
      == CopyRoleToRole(side, name, false, cats, written, depth - 1);
    RemoveOnlyCopy(side, name, cats, written, depth - 1);
    var b' := ApplyDiff({}, b, cats.Of(other));
    assert Codenames(b') == {};
    assert b' == {} by {
      if p :| p in b' {
        assert false;
      }
    }
  }
}
