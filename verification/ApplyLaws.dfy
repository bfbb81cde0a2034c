/** Laws of whole apply runs: what a dry run promises, what a real run leaves alone, and what the next diff sees. */
module ApplyLaws {
  import opened Optional
  import opened Text
  import opened ApplyRows
  import D = DarRoles
  import U = UcGrants
  import P = PairDiff

  /** Reported as written. */
  predicate Granted(a: Action) { a.ok && !a.skipped }

  // ---------------------------------------------------------------- the dry run

  /** Whatever the real run changes at row i, or reports as granted there, the dry run announced. */
  lemma DryRunBounds(p: Pairing, direction: Direction, w: World, steps: seq<Step>, roleName: string -> string, i: nat)
    requires i < |steps|
    ensures var before := WorldAfter(p, direction, false, w, steps[..i], roleName);
            var after := WorldAfter(p, direction, false, w, steps[..i + 1], roleName);
            before != after || Granted(ActionAt(p, direction, false, w, steps, roleName, i))
            ==> Granted(ActionAt(p, direction, true, w, steps, roleName, i))
  {
    assert steps[..i + 1][..i] == steps[..i];
  }

  lemma {:induction false} DryRunChangesNothing(p: Pairing, direction: Direction, w: World, steps: seq<Step>,
                                                roleName: string -> string)
    ensures WorldAfter(p, direction, true, w, steps, roleName) == w
  {
    if steps != [] {
      DryRunChangesNothing(p, direction, w, steps[..|steps| - 1], roleName);
    }
  }

  // ---------------------------------------------------------------- what is never written

  /**
   Rows that must not reach a writer: unresolved tag policies, and what Fabric cannot hold without widening access.
   */
  predicate NotForWriting(direction: Direction, r: P.DiffRow) {
    if r.key.kind != P.NoConstraint then r.source == "databricks_abac" || r.key.kind.OtherKind?
    else direction == DbxToFabric
         && (r.key.access == D.OBJECT_USE || "schema:" <= r.key.scope
             || ("table:" <= r.key.scope && r.key.access != D.DATA_READ))
  }

  /** The answers under which a row of the other kind is not written either, before anything is sent. */
  predicate HeldBack(p: Pairing, direction: Direction, s: Step) {
    if s.row.key.kind != P.NoConstraint then
      if direction == DbxToFabric then s.answers.item != Found || s.answers.policy.None? else s.answers.statements.None?
    else if direction == FabricToDbx then
      U.PrivilegesFor(s.row.key.access, U.UcTarget(s.row.key.scope, p.catalog).0) == []
    else
      IsInternal(s.row.display) || (if "table:" <= s.row.key.scope then s.answers.item != Found
                                    else s.row.key.access.OtherAccess?)
  }

  /** Exactly which rows the dry run announces as writes. */
  lemma DryRunAnnounces(p: Pairing, direction: Direction, w: World, s: Step, roleName: string -> string)
    ensures var e := EffectOf(p, direction, true, w, s, roleName);
            e.ok && !e.skipped <==> !NotForWriting(direction, s.row) && !HeldBack(p, direction, s)
  {
    if "table:" <= s.row.key.scope {
      assert !("schema:" <= s.row.key.scope) by {
        assert s.row.key.scope[0] == 't';
      }
    }
  }

  /** Hence no run, dry or real, writes for such a row: the state before it is the state after it. */
  lemma NeverWritten(p: Pairing, direction: Direction, dryRun: bool, w: World, steps: seq<Step>,
                     roleName: string -> string, i: nat)
    requires i < |steps| && NotForWriting(direction, steps[i].row)
    ensures WorldAfter(p, direction, dryRun, w, steps[..i + 1], roleName) ==
              WorldAfter(p, direction, dryRun, w, steps[..i], roleName)
    ensures !Granted(ActionAt(p, direction, dryRun, w, steps, roleName, i))
  {
    var before := WorldAfter(p, direction, dryRun, w, steps[..i], roleName);
    DryRunAnnounces(p, direction, before, steps[i], roleName);
    assert steps[..i + 1][..i] == steps[..i];
  }

  // ---------------------------------------------------------------- frames

  predicate TableOrSchema(s: Step) { "table:" <= s.row.key.scope || "schema:" <= s.row.key.scope }

  /** The part of the state that only one direction writes. */
  predicate SameFabric(a: World, b: World) {
    a.assignments == b.assignments && a.roles == b.roles && a.unmapped == b.unmapped
  }

  predicate SameDatabricks(a: World, b: World) { a.grants == b.grants && a.executed == b.executed }

  lemma ToFabricStep(p: Pairing, dryRun: bool, w: World, s: Step, roleName: string -> string)
    ensures SameDatabricks(w, EffectOf(p, DbxToFabric, dryRun, w, s, roleName).world)
  {
    var plan := PlanOf(p, DbxToFabric, s);
    assert !plan.RunStatements? && !plan.Grant?;
  }

  lemma ToDatabricksStep(p: Pairing, dryRun: bool, w: World, s: Step, roleName: string -> string)
    ensures SameFabric(w, EffectOf(p, FabricToDbx, dryRun, w, s, roleName).world)
  {
    var plan := PlanOf(p, FabricToDbx, s);
    assert plan.Settled? || plan.RunStatements? || plan.Grant?;
  }

  /** One platform per direction. */
  lemma {:induction false} OnlyTheTargetChanges(p: Pairing, direction: Direction, dryRun: bool, w: World,
                                                steps: seq<Step>,
                                                roleName: string -> string)
    ensures var after := WorldAfter(p, direction, dryRun, w, steps, roleName);
            if direction == DbxToFabric then SameDatabricks(w, after) else SameFabric(w, after)
  {
    if steps != [] {
      var last := |steps| - 1;
      OnlyTheTargetChanges(p, direction, dryRun, w, steps[..last], roleName);
      var before := WorldAfter(p, direction, dryRun, w, steps[..last], roleName);
      if direction == DbxToFabric {
        ToFabricStep(p, dryRun, before, steps[last], roleName);
      } else {
        ToDatabricksStep(p, dryRun, before, steps[last], roleName);
      }
    }
  }

  lemma TableStep(p: Pairing, direction: Direction, dryRun: bool, w: World, s: Step, roleName: string -> string)
    requires TableOrSchema(s)
    ensures EffectOf(p, direction, dryRun, w, s, roleName).world.assignments == w.assignments
  {
    assert !PlanOf(p, direction, s).Assign?;
  }

  /** Table and schema rows, with or without a constraint, never touch workspace assignments. */
  lemma {:induction false} TableRowsKeepAssignments(p: Pairing, direction: Direction, dryRun: bool, w: World,
                                                    steps: seq<Step>,
                                                    roleName: string -> string)
    requires forall s :: s in steps ==> TableOrSchema(s)
    ensures WorldAfter(p, direction, dryRun, w, steps, roleName).assignments == w.assignments
  {
    if steps != [] {
      var last := |steps| - 1;
      TableRowsKeepAssignments(p, direction, dryRun, w, steps[..last], roleName);
      TableStep(p, direction, dryRun, WorldAfter(p, direction, dryRun, w, steps[..last], roleName), steps[last],
                roleName);
    }
  }

  /** The assignments beyond the first n are for distinct principals that had none. */
  predicate FreshFrom(assignments: seq<P.Assignment>, n: nat) {
    forall i, j :: 0 <= i < j < |assignments| && n <= j ==> assignments[i].id != assignments[j].id
  }

  /** A row adds at most one assignment, for a principal without any. */
  predicate Grown(before: seq<P.Assignment>, after: seq<P.Assignment>) {
    after == before
    || (|after| == |before| + 1 && after == before + [after[|before|]] && !HasRole(before, after[|before|].id))
  }

  lemma StepGrows(p: Pairing, direction: Direction, dryRun: bool, w: World, s: Step, roleName: string -> string)
    ensures Grown(w.assignments, EffectOf(p, direction, dryRun, w, s, roleName).world.assignments)
  {
    var plan, a := PlanOf(p, direction, s), s.answers;
    if !dryRun && plan.Assign? && a.entra.Some? && !HasRole(w.assignments, a.entra.value.id) && a.posted {
      assert Perform(w, plan, s, roleName).world.assignments == w.assignments + [NewAssignment(a, plan.role)];
    }
  }

  lemma GrownIsFresh(before: seq<P.Assignment>, after: seq<P.Assignment>, n: nat)
    requires FreshFrom(before, n) && Grown(before, after)
    ensures before <= after && FreshFrom(after, n)
  {
    forall i, j | 0 <= i < j < |after| && n <= j
      ensures after[i].id != after[j].id
    {
      if j == |before| {
        assert after[i] == before[i] && before[i] in before;
      }
    }
  }

  /** No run changes, removes or doubles an existing assignment; new ones go to principals without any. */
  lemma {:induction false} AssignmentsOnlyGrow(p: Pairing, direction: Direction, dryRun: bool, w: World,
                                               steps: seq<Step>,
                                               roleName: string -> string)
    ensures var after := WorldAfter(p, direction, dryRun, w, steps, roleName).assignments;
            w.assignments <= after && FreshFrom(after, |w.assignments|)
  {
    if steps != [] {
      var last := |steps| - 1;
      var before := WorldAfter(p, direction, dryRun, w, steps[..last], roleName);
      AssignmentsOnlyGrow(p, direction, dryRun, w, steps[..last], roleName);
      StepGrows(p, direction, dryRun, before, steps[last], roleName);
      GrownIsFresh(before.assignments, EffectOf(p, direction, dryRun, before, steps[last], roleName).world.assignments,
                   |w.assignments|);
    }
  }

  // ---------------------------------------------------------------- reachability

  /** A grant adds a prefix of its calls. */
  lemma GrantAdds(w: World, plan: Plan, s: Step, roleName: string -> string)
    requires plan.Grant? && s.answers.ucPrincipal.Some?
    ensures var ops := U.Operations(plan.kind, plan.name, plan.privileges);
            var n := U.Completed(ops, s.answers.completed);
            && n <= |ops|
            && Perform(w, plan, s, roleName).world.grants == U.AddedAll(w.grants, s.answers.ucPrincipal.value, ops[..n])
  {
  }

  lemma OthersKeepGrants(w: World, plan: Plan, s: Step, roleName: string -> string)
    requires !plan.Grant? || s.answers.ucPrincipal.None?
    ensures Perform(w, plan, s, roleName).world.grants == w.grants
  {
  }

  lemma StepStaysReachable(p: Pairing, direction: Direction, dryRun: bool, w: World, s: Step,
                           roleName: string -> string)
    requires U.Reachable(w.grants)
    ensures U.Reachable(EffectOf(p, direction, dryRun, w, s, roleName).world.grants)
  {
    var plan := PlanOf(p, direction, s);
    if dryRun {
      DryKeepsWorld(w, plan);
    } else if plan.Grant? && s.answers.ucPrincipal.Some? {
      var ops := U.Operations(plan.kind, plan.name, plan.privileges);
      GrantAdds(w, plan, s, roleName);
      U.GrantStaysReachable(w.grants, s.answers.ucPrincipal.value, plan.kind, plan.name, plan.privileges,
                            U.Completed(ops, s.answers.completed));
    } else {
      OthersKeepGrants(w, plan, s, roleName);
    }
  }

  lemma DryKeepsWorld(w: World, plan: Plan)
    ensures DryEffect(w, plan).world == w
  {
  }

  /**
   Over every run in either direction, each grant stopped after any of its calls, whoever can hold data on Databricks
   can get to it: parents are granted before what they contain.
   */
  lemma {:induction false} RunsStayReachable(p: Pairing, direction: Direction, dryRun: bool, w: World, steps: seq<Step>,
                                             roleName: string -> string)
    requires U.Reachable(w.grants)
    ensures U.Reachable(WorldAfter(p, direction, dryRun, w, steps, roleName).grants)
  {
    if steps != [] {
      var last := |steps| - 1;
      RunsStayReachable(p, direction, dryRun, w, steps[..last], roleName);
      StepStaysReachable(p, direction, dryRun, WorldAfter(p, direction, dryRun, w, steps[..last], roleName),
                         steps[last], roleName);
    }
  }

  /** The role given for a class counts, when read back, as that class on the paired catalog. */
  lemma AssignmentReadsBack(p: Pairing, a: P.Assignment, access: Access)
    requires FabricRole(access).Some? && a.id != "" && p.catalog != ""
    ensures P.PlainKey(Lower(a.id), P.CatalogScope(p.catalog), access)
              in P.AssignmentKeys(p.workspace, p.catalog, a.(role := FabricRole(access).value))
  {
    var b := a.(role := FabricRole(access).value);
    assert P.AccessOfRole(b.role) == Some(access);
    assert access in P.CatalogClasses(access);
  }

  // ---------------------------------------------------------------- what is collected after a run

  /** A plain table or schema row whose scope the reader can give back, resolved to an id if at all. */
  predicate Collectable(p: Pairing, s: Step) {
    && s.row.key.kind == P.NoConstraint
    && (D.SurvivingScope(p.catalog, s.row.key.scope) || "schema:" <= s.row.key.scope)
    && (s.answers.entra.Some? ==> s.answers.entra.value.id != "")
  }

  /** The key a written table read is collected under. */
  function WrittenKey(s: Step): P.RowKey {
    P.PlainKey(if s.answers.entra.Some? then Lower(s.answers.entra.value.id) else "", s.row.key.scope, D.DATA_READ)
  }

  /** The report of a real run. */
  function Report(p: Pairing, w: World, steps: seq<Step>, roleName: string -> string): (actions: seq<Action>)
    ensures |actions| == |steps|
  {
    seq(|steps|, i requires 0 <= i < |steps| => ActionAt(p, DbxToFabric, false, w, steps, roleName, i))
  }

  /** The keys of the rows reported as granted. */
  function WrittenKeys(steps: seq<Step>, actions: seq<Action>): set<P.RowKey>
    requires |actions| == |steps|
  {
    set i | 0 <= i < |steps| && Granted(actions[i]) :: WrittenKey(steps[i])
  }

  lemma WrittenKeysMore(steps: seq<Step>, actions: seq<Action>)
    requires |actions| == |steps| && steps != []
    ensures var last := |steps| - 1;
            WrittenKeys(steps, actions) == WrittenKeys(steps[..last], actions[..last])
              + if Granted(actions[last]) then {WrittenKey(steps[last])} else {}
  {
    var last := |steps| - 1;
    forall k | k in WrittenKeys(steps[..last], actions[..last])
      ensures k in WrittenKeys(steps, actions)
    {
      var i :| 0 <= i < last && Granted(actions[..last][i]) && k == WrittenKey(steps[..last][i]);
      assert Granted(actions[i]) && k == WrittenKey(steps[i]);
    }
    forall k | k in WrittenKeys(steps, actions)
      ensures k in WrittenKeys(steps[..last], actions[..last])
              || (Granted(actions[last]) && k == WrittenKey(steps[last]))
    {
      var i :| 0 <= i < |steps| && Granted(actions[i]) && k == WrittenKey(steps[i]);
      if i < last {
        assert Granted(actions[..last][i]) && k == WrittenKey(steps[..last][i]);
      }
    }
  }

  lemma ReportEarlier(p: Pairing, w: World, steps: seq<Step>, roleName: string -> string, n: nat)
    requires n <= |steps|
    ensures Report(p, w, steps[..n], roleName) == Report(p, w, steps, roleName)[..n]
  {
    forall i | 0 <= i < n
      ensures Report(p, w, steps[..n], roleName)[i] == Report(p, w, steps, roleName)[i]
    {
      assert steps[..n][..i] == steps[..i];
    }
  }

  function PlainOf(keys: set<D.AccessKey>): set<P.RowKey> {
    set k | k in keys :: P.PlainKey(k.principal, k.scope, k.access)
  }

  /** The fine-grained rows of a role list. */
  function ConstraintKeys(catalog: string, roles: seq<D.Role>): set<P.RowKey> {
    set role, k | role in roles && k in RoleConstraints(catalog, role) :: k
  }

  function RoleConstraints(catalog: string, role: D.Role): set<P.RowKey> {
    set rule, k | rule in role.rules && k in P.ConstraintRows(catalog, rule) :: k
  }

  lemma RoleRowsSplit(catalog: string, role: D.Role)
    ensures P.RoleRows(catalog, role) == PlainOf(D.RoleKeys(catalog, role)) + RoleConstraints(catalog, role)
  {
    var members := D.DarMembers(role);
    forall k | k in P.RoleRows(catalog, role)
      ensures k in PlainOf(D.RoleKeys(catalog, role)) + RoleConstraints(catalog, role)
    {
      var rule :| rule in role.rules && k in P.RowsOfRule(catalog, members, rule);
      if k in P.RuleRows(catalog, members, rule) {
        var id, pair :| id in D.Ids(members) && pair in D.RulePairs(catalog, rule)
            && k == P.PlainKey(id, pair.0, pair.1);
        assert pair in D.Pairs(catalog, role);
        assert D.AccessKey(id, pair.0, pair.1) in D.RoleKeys(catalog, role);
      }
    }
    forall k | k in PlainOf(D.RoleKeys(catalog, role))
      ensures k in P.RoleRows(catalog, role)
    {
      var id, pair :| id in D.Ids(members) && pair in D.Pairs(catalog, role) && k == P.PlainKey(id, pair.0, pair.1);
      var rule :| rule in role.rules && pair in D.RulePairs(catalog, rule);
      assert k in P.RuleRows(catalog, members, rule);
      assert k in P.RowsOfRule(catalog, members, rule);
    }
    forall k | k in RoleConstraints(catalog, role)
      ensures k in P.RoleRows(catalog, role)
    {
      var rule :| rule in role.rules && k in P.ConstraintRows(catalog, rule);
      assert k in P.RowsOfRule(catalog, members, rule);
    }
  }

  lemma AllRowsSplit(catalog: string, roles: seq<D.Role>)
    ensures P.AllRoleRows(catalog, roles) == PlainOf(D.DarKeys(catalog, roles)) + ConstraintKeys(catalog, roles)
  {
    forall k
      ensures k in P.AllRoleRows(catalog, roles) <==>
                k in PlainOf(D.DarKeys(catalog, roles)) + ConstraintKeys(catalog, roles)
    {
      if k in P.AllRoleRows(catalog, roles) {
        var role :| role in roles && k in P.RoleRows(catalog, role);
        RoleRowsSplit(catalog, role);
      }
      if k in PlainOf(D.DarKeys(catalog, roles)) {
        var a :| a in D.DarKeys(catalog, roles) && k == P.PlainKey(a.principal, a.scope, a.access);
        var role :| role in roles && a in D.RoleKeys(catalog, role);
        RoleRowsSplit(catalog, role);
        assert k in PlainOf(D.RoleKeys(catalog, role));
        assert k in P.RoleRows(catalog, role);
      }
      if k in ConstraintKeys(catalog, roles) {
        var role :| role in roles && k in RoleConstraints(catalog, role);
        RoleRowsSplit(catalog, role);
        assert k in P.RoleRows(catalog, role);
      }
    }
  }

  /** A grant of a table read leaves the fine-grained rows alone. */
  lemma MergeKeepsConstraints(catalog: string, roles: seq<D.Role>, name: string, path: string, m: D.Member)
    ensures var merge := D.MergeGrant(roles, name, path, m);
            merge.Merged? ==> ConstraintKeys(catalog, merge.roles) == ConstraintKeys(catalog, roles)
  {
    var merge := D.MergeGrant(roles, name, path, m);
    var i := D.FirstNamed(roles, name);
    if merge.Merged? {
      var role := merge.roles[i];
      assert i < |roles| ==> RoleConstraints(catalog, role) == RoleConstraints(catalog, roles[i]);
      assert i == |roles| ==> RoleConstraints(catalog, role) == {};
      forall k
        ensures k in ConstraintKeys(catalog, merge.roles) <==> k in ConstraintKeys(catalog, roles)
      {
        if k in ConstraintKeys(catalog, merge.roles) {
          var r :| r in merge.roles && k in RoleConstraints(catalog, r);
          assert r in roles || r == role;
          assert i < |roles| ==> roles[i] in roles;
        }
        if k in ConstraintKeys(catalog, roles) {
          var r :| r in roles && k in RoleConstraints(catalog, r);
          var j :| 0 <= j < |roles| && roles[j] == r;
          assert merge.roles[j] in merge.roles;
          assert k in RoleConstraints(catalog, merge.roles[j]);
        }
      }
    }
  }

  lemma PlainOfMore(keys: set<D.AccessKey>, k: D.AccessKey)
    ensures PlainOf(keys + {k}) == PlainOf(keys) + {P.PlainKey(k.principal, k.scope, k.access)}
  {
  }

  function Collected(p: Pairing, w: World): set<P.RowKey> {
    P.FabricKeys(p.workspace, p.catalog, w.assignments, w.roles)
  }

  predicate ProperPairing(p: Pairing) { p.catalog != "" && '.' !in p.catalog }

  /** The merge of one member, as rows. */
  lemma MergeIsCollected(catalog: string, roles: seq<D.Role>, roleName: string -> string, path: string, m: D.Member)
    requires D.HubRolesAreOwn(catalog, roles, roleName) && D.NamesInjective(roleName) && m.objectId != ""
    ensures var merge := D.MergeGrant(roles, roleName(path), path, m);
            var key := P.PlainKey(Lower(m.objectId), D.ScopeOfPath(catalog, path), D.DATA_READ);
            && (merge.Merged? ==> P.AllRoleRows(catalog, merge.roles) == P.AllRoleRows(catalog, roles) + {key})
            && (merge.Already? ==> key in P.AllRoleRows(catalog, roles))
  {
    var merge := D.MergeGrant(roles, roleName(path), path, m);
    var key := D.AccessKey(Lower(m.objectId), D.ScopeOfPath(catalog, path), D.DATA_READ);
    D.GrantCollectsOneKey(catalog, roles, roleName, path, m);
    MergeKeepsConstraints(catalog, roles, roleName(path), path, m);
    PlainOfMore(D.DarKeys(catalog, roles), key);
    AllRowsSplit(catalog, roles);
    if merge.Merged? {
      AllRowsSplit(catalog, merge.roles);
    }
  }

  /** One table read: what is reported as granted is collected, and nothing else changes. */
  lemma ReadIsCollected(p: Pairing, w: World, s: Step, roleName: string -> string)
    requires ProperPairing(p) && Collectable(p, s) && s.answers.entra.Some?
    requires D.SurvivingScope(p.catalog, s.row.key.scope)
    requires D.HubRolesAreOwn(p.catalog, w.roles, roleName) && D.NamesInjective(roleName)
    ensures var e := ReadEffect(w, s, roleName);
            && D.HubRolesAreOwn(p.catalog, e.world.roles, roleName)
            && Collected(p, e.world) == Collected(p, w) + if e.ok then {WrittenKey(s)} else {}
  {
    var path := D.DarPath(s.row.key.scope);
    var m := NewMember(s.answers);
    D.ScopeRoundTrip(p.catalog, s.row.key.scope);
    MergeIsCollected(p.catalog, w.roles, roleName, path, m);
    HubRolesStayOwn(p.catalog, w.roles, roleName, path, m);
    ReadEffectMerges(w, s, roleName);
  }

  /** A table read changes the role list only by the merge of its member, and succeeds only with it. */
  lemma ReadEffectMerges(w: World, s: Step, roleName: string -> string)
    requires s.answers.entra.Some?
    ensures var e := ReadEffect(w, s, roleName);
            var merge := D.MergeGrant(w.roles, roleName(D.DarPath(s.row.key.scope)), D.DarPath(s.row.key.scope),
                                      NewMember(s.answers));
            || (e.world == w && (e.ok ==> merge.Already?))
            || (e.ok && merge.Merged? && e.world == w.(roles := merge.roles))
  {
  }

  lemma HubRolesStayOwn(catalog: string, roles: seq<D.Role>, roleName: string -> string, path: string, m: D.Member)
    requires D.HubRolesAreOwn(catalog, roles, roleName) && D.NamesInjective(roleName) && m.objectId != ""
    ensures var merge := D.MergeGrant(roles, roleName(path), path, m);
            merge.Merged? ==> D.HubRolesAreOwn(catalog, merge.roles, roleName)
  {
    D.GrantCollectsOneKey(catalog, roles, roleName, path, m);
  }

  /**
   A real run over table and schema rows: the Fabric rows collected afterwards are those collected before, plus
   one table read for the object id of every row reported as granted.
   */
  lemma {:induction false} RunIsCollected(p: Pairing, w: World, steps: seq<Step>, roleName: string -> string)
    requires ProperPairing(p) && forall s :: s in steps ==> Collectable(p, s)
    requires D.HubRolesAreOwn(p.catalog, w.roles, roleName) && D.NamesInjective(roleName)
    ensures var after := WorldAfter(p, DbxToFabric, false, w, steps, roleName);
            && D.HubRolesAreOwn(p.catalog, after.roles, roleName)
            && Collected(p, after) == Collected(p, w) + WrittenKeys(steps, Report(p, w, steps, roleName))
  {
    if steps != [] {
      var last := |steps| - 1;
      var s := steps[last];
      var before := WorldAfter(p, DbxToFabric, false, w, steps[..last], roleName);
      RunIsCollected(p, w, steps[..last], roleName);
      ReportEarlier(p, w, steps, roleName, last);
      WrittenKeysMore(steps, Report(p, w, steps, roleName));
      StepIsCollected(p, before, s, roleName);
    }
  }

  lemma StepIsCollected(p: Pairing, w: World, s: Step, roleName: string -> string)
    requires ProperPairing(p) && Collectable(p, s)
    requires D.HubRolesAreOwn(p.catalog, w.roles, roleName) && D.NamesInjective(roleName)
    ensures var e := EffectOf(p, DbxToFabric, false, w, s, roleName);
            && D.HubRolesAreOwn(p.catalog, e.world.roles, roleName)
            && Collected(p, e.world) == Collected(p, w) + if e.ok && !e.skipped then {WrittenKey(s)} else {}
  {
    var plan := PlanOf(p, DbxToFabric, s);
    if plan.ReadTable? {
      if s.answers.entra.Some? {
        ReadIsCollected(p, w, s, roleName);
      }
    } else {
      assert TableOrSchema(s);
      assert plan.Settled?;
      assert !(plan.ok && !plan.skipped);
    }
  }

  // ---------------------------------------------------------------- the next diff

  /** Rows as each reader makes them. */
  predicate DbxRows(rows: seq<P.DiffRow>) { forall r :: r in rows ==> r.onDbx && !r.onFabric }

  predicate FabricSide(rows: seq<P.DiffRow>) { forall r :: r in rows ==> r.onFabric && !r.onDbx }

  function NormKey(k: P.RowKey, directory: P.Directory): P.RowKey {
    if '@' in k.principal && directory(Lower(k.principal)).Some?
    then k.(principal := Lower(directory(Lower(k.principal)).value))
    else k
  }

  predicate FromDbx(dbx: seq<P.DiffRow>, directory: P.Directory, r: P.DiffRow) {
    exists d :: d in dbx && r == P.NormalizedDbx(d, directory)
  }

  predicate FromFabric(fabric: seq<P.DiffRow>, directory: P.Directory, r: P.DiffRow) {
    exists f :: f in fabric && r == P.NormalizedFabric(f, directory)
  }

  /** The merged rows are the normalised rows of the two sides. */
  lemma FromNormalized(dbx: seq<P.DiffRow>, fabric: seq<P.DiffRow>, directory: P.Directory, r: P.DiffRow)
    requires r in P.NormalizedAll(dbx, fabric, directory)
    ensures FromDbx(dbx, directory, r) || FromFabric(fabric, directory, r)
  {
    var all := P.NormalizedAll(dbx, fabric, directory);
    var i :| 0 <= i < |all| && all[i] == r;
    if i < |dbx| {
      assert r == P.NormalizedDbx(dbx[i], directory) && dbx[i] in dbx;
    } else {
      assert r == P.NormalizedFabric(fabric[i - |dbx|], directory) && fabric[i - |dbx|] in fabric;
    }
  }

  lemma DbxIsNormalized(dbx: seq<P.DiffRow>, fabric: seq<P.DiffRow>, directory: P.Directory, d: P.DiffRow)
    requires d in dbx
    ensures P.NormalizedDbx(d, directory) in P.NormalizedAll(dbx, fabric, directory)
  {
    var i :| 0 <= i < |dbx| && dbx[i] == d;
    assert P.NormalizedAll(dbx, fabric, directory)[i] == P.NormalizedDbx(d, directory);
  }

  lemma FabricIsNormalized(dbx: seq<P.DiffRow>, fabric: seq<P.DiffRow>, directory: P.Directory, f: P.DiffRow)
    requires f in fabric
    ensures P.NormalizedFabric(f, directory) in P.NormalizedAll(dbx, fabric, directory)
  {
    var i :| 0 <= i < |fabric| && fabric[i] == f;
    assert P.NormalizedAll(dbx, fabric, directory)[|dbx| + i] == P.NormalizedFabric(f, directory);
  }

  predicate Collects(fabric: seq<P.DiffRow>, directory: P.Directory, k: P.RowKey) {
    exists f :: f in fabric && P.NormalizedFabric(f, directory).key == k
  }

  /** What the merge has seen on Fabric comes from the rows collected there. */
  lemma SeenOnFabric(dbx: seq<P.DiffRow>, fabric: seq<P.DiffRow>, directory: P.Directory, k: P.RowKey)
    requires DbxRows(dbx) && FabricSide(fabric)
    ensures P.SeenFabric(P.NormalizedAll(dbx, fabric, directory), k) <==> Collects(fabric, directory, k)
  {
    var all := P.NormalizedAll(dbx, fabric, directory);
    if P.SeenFabric(all, k) {
      var r :| r in all && r.key == k && r.onFabric;
      FromNormalized(dbx, fabric, directory, r);
    }
    if f :| f in fabric && P.NormalizedFabric(f, directory).key == k {
      FabricIsNormalized(dbx, fabric, directory, f);
    }
  }

  /** It depends only on the keys. */
  lemma CollectsByKey(fabric: seq<P.DiffRow>, directory: P.Directory, k: P.RowKey)
    ensures Collects(fabric, directory, k) <==> exists j :: j in P.KeysOf(fabric) && NormKey(j, directory) == k
  {
    if f :| f in fabric && P.NormalizedFabric(f, directory).key == k {
      assert f.key in P.KeysOf(fabric) && NormKey(f.key, directory) == k;
    }
    if j :| j in P.KeysOf(fabric) && NormKey(j, directory) == k {
      var f :| f in fabric && f.key == j;
      assert P.NormalizedFabric(f, directory).key == k;
    }
  }

  lemma CollectsMore(fabric: seq<P.DiffRow>, fabric': seq<P.DiffRow>, added: set<P.RowKey>, directory: P.Directory,
                     k: P.RowKey)
    requires P.KeysOf(fabric') == P.KeysOf(fabric) + added && forall k :: k in added ==> '@' !in k.principal
    ensures Collects(fabric', directory, k) <==> Collects(fabric, directory, k) || k in added
  {
    CollectsByKey(fabric, directory, k);
    CollectsByKey(fabric', directory, k);
    if k in added {
      assert k in P.KeysOf(fabric') && NormKey(k, directory) == k;
    }
  }

  /** What it has seen on Databricks does not depend on Fabric. */
  lemma SeenOnDbx(dbx: seq<P.DiffRow>, fabric: seq<P.DiffRow>, directory: P.Directory, k: P.RowKey)
    requires DbxRows(dbx) && FabricSide(fabric)
    ensures P.SeenDbx(P.NormalizedAll(dbx, fabric, directory), k) <==>
              exists d :: d in dbx && P.NormalizedDbx(d, directory).key == k
  {
    var all := P.NormalizedAll(dbx, fabric, directory);
    if P.SeenDbx(all, k) {
      var r :| r in all && r.key == k && r.onDbx;
      FromNormalized(dbx, fabric, directory, r);
    }
    if d :| d in dbx && P.NormalizedDbx(d, directory).key == k {
      DbxIsNormalized(dbx, fabric, directory, d);
    }
  }

  /** The bucket a key moves to when the keys `added` are collected on Fabric as well. */
  function MovedTo(r: P.DiffRow, added: set<P.RowKey>): P.Status {
    if r.key in added && r.onDbx then P.InSync else P.StatusOf(r)
  }

  /** What the two merges have seen of a key. */
  lemma SeenAfterwards(dbx: seq<P.DiffRow>, fabric: seq<P.DiffRow>, fabric': seq<P.DiffRow>, added: set<P.RowKey>,
                       directory: P.Directory, k: P.RowKey)
    requires DbxRows(dbx) && FabricSide(fabric) && FabricSide(fabric')
    requires P.KeysOf(fabric') == P.KeysOf(fabric) + added && forall k :: k in added ==> '@' !in k.principal
    ensures var rows, rows' := P.NormalizedAll(dbx, fabric, directory), P.NormalizedAll(dbx, fabric', directory);
            && (P.SeenDbx(rows', k) <==> P.SeenDbx(rows, k))
            && (P.SeenFabric(rows', k) <==> P.SeenFabric(rows, k) || k in added)
  {
    SeenOnDbx(dbx, fabric, directory, k);
    SeenOnDbx(dbx, fabric', directory, k);
    SeenOnFabric(dbx, fabric, directory, k);
    SeenOnFabric(dbx, fabric', directory, k);
    CollectsMore(fabric, fabric', added, directory, k);
  }

  lemma EveryRowIsSeen(dbx: seq<P.DiffRow>, fabric: seq<P.DiffRow>, directory: P.Directory, k: P.RowKey)
    requires DbxRows(dbx) && FabricSide(fabric)
    ensures var rows := P.NormalizedAll(dbx, fabric, directory);
            k in P.KeysOf(rows) <==> P.SeenDbx(rows, k) || P.SeenFabric(rows, k)
  {
    var rows := P.NormalizedAll(dbx, fabric, directory);
    forall r | r in rows
      ensures r.onDbx || r.onFabric
    {
      FromNormalized(dbx, fabric, directory, r);
    }
    SomeSide(rows, k);
    SeenIsKey(rows, k);
  }

  /** Keys added on the Fabric side move exactly their own rows. */
  lemma AddedKeysMove(dbx: seq<P.DiffRow>, fabric: seq<P.DiffRow>, fabric': seq<P.DiffRow>, added: set<P.RowKey>,
                      directory: P.Directory, b: P.Buckets, b': P.Buckets, r: P.DiffRow)
    requires DbxRows(dbx) && FabricSide(fabric) && FabricSide(fabric')
    requires P.KeysOf(fabric') == P.KeysOf(fabric) + added && forall k :: k in added ==> '@' !in k.principal
    requires P.IsDiff(b, P.NormalizedAll(dbx, fabric, directory))
    requires P.IsDiff(b', P.NormalizedAll(dbx, fabric', directory))
    ensures r in b.all ==> exists r' :: r' in b'.all && r'.key == r.key && P.StatusOf(r') == MovedTo(r, added)
    ensures r in b'.all && r.key !in P.KeysOf(b.all) ==> r.key in added
  {
    SeenAfterwards(dbx, fabric, fabric', added, directory, r.key);
    EveryRowIsSeen(dbx, fabric, directory, r.key);
    EveryRowIsSeen(dbx, fabric', directory, r.key);
    if r in b.all {
      var r' :| r' in b'.all && r'.key == r.key;
      assert P.StatusOf(r') == MovedTo(r, added);
    }
    if r in b'.all {
      assert r.key in P.KeysOf(b'.all);
    }
  }

  lemma SeenIsKey(rows: seq<P.DiffRow>, k: P.RowKey)
    ensures P.SeenDbx(rows, k) || P.SeenFabric(rows, k) ==> k in P.KeysOf(rows)
  {
  }

  lemma SomeSide(rows: seq<P.DiffRow>, k: P.RowKey)
    requires forall r :: r in rows ==> r.onDbx || r.onFabric
    ensures k in P.KeysOf(rows) ==> P.SeenDbx(rows, k) || P.SeenFabric(rows, k)
  {
  }

  /** Object ids are not e-mail addresses. */
  predicate HasPlainId(s: Step) {
    s.answers.entra.Some? ==> '@' !in s.answers.entra.value.id
  }

  lemma WrittenKeysArePlain(steps: seq<Step>, actions: seq<Action>)
    requires |actions| == |steps| && forall s :: s in steps ==> HasPlainId(s)
    ensures forall k :: k in WrittenKeys(steps, actions) ==> '@' !in k.principal
  {
    forall k | k in WrittenKeys(steps, actions)
      ensures '@' !in k.principal
    {
      var i :| 0 <= i < |steps| && Granted(actions[i]) && k == WrittenKey(steps[i]);
      assert HasPlainId(steps[i]);
    }
  }

  /**
   Apply, then diff again: with the Databricks side unchanged, exactly the rows that carry the key of a granted
   row and are on Databricks become in sync; every other row keeps its bucket, and only granted keys can be new.
   */
  lemma ApplyThenDiff(p: Pairing, w: World, steps: seq<Step>, roleName: string -> string, directory: P.Directory,
                      dbx: seq<P.DiffRow>, fabric: seq<P.DiffRow>, fabric': seq<P.DiffRow>, b: P.Buckets, b': P.Buckets,
                      r: P.DiffRow)
    requires ProperPairing(p) && forall s :: s in steps ==> Collectable(p, s) && HasPlainId(s)
    requires D.HubRolesAreOwn(p.catalog, w.roles, roleName) && D.NamesInjective(roleName)
    requires DbxRows(dbx) && FabricSide(fabric) && FabricSide(fabric')
    requires P.KeysOf(fabric) == Collected(p, w)
    requires P.KeysOf(fabric') == Collected(p, WorldAfter(p, DbxToFabric, false, w, steps, roleName))
    requires P.IsDiff(b, P.NormalizedAll(dbx, fabric, directory))
    requires P.IsDiff(b', P.NormalizedAll(dbx, fabric', directory))
    ensures var written := WrittenKeys(steps, Report(p, w, steps, roleName));
            && (r in b.all ==> exists r' :: r' in b'.all && r'.key == r.key && P.StatusOf(r') == MovedTo(r, written))
            && (r in b'.all && r.key !in P.KeysOf(b.all) ==> r.key in written)
  {
    var written := WrittenKeys(steps, Report(p, w, steps, roleName));
    RunIsCollected(p, w, steps, roleName);
    WrittenKeysArePlain(steps, Report(p, w, steps, roleName));
    AddedKeysMove(dbx, fabric, fabric', written, directory, b, b', r);
  }

  /**
   A selected row of the Databricks-only bucket, keyed by its object id and reported as granted, is in sync afterwards.
   */
  lemma GrantedRowIsInSync(p: Pairing, w: World, steps: seq<Step>, roleName: string -> string, directory: P.Directory,
                           dbx: seq<P.DiffRow>, fabric: seq<P.DiffRow>, fabric': seq<P.DiffRow>, b: P.Buckets,
                           b': P.Buckets, i: nat)
    requires ProperPairing(p) && forall s :: s in steps ==> Collectable(p, s) && HasPlainId(s)
    requires D.HubRolesAreOwn(p.catalog, w.roles, roleName) && D.NamesInjective(roleName)
    requires DbxRows(dbx) && FabricSide(fabric) && FabricSide(fabric')
    requires P.KeysOf(fabric) == Collected(p, w)
    requires P.KeysOf(fabric') == Collected(p, WorldAfter(p, DbxToFabric, false, w, steps, roleName))
    requires P.IsDiff(b, P.NormalizedAll(dbx, fabric, directory))
    requires P.IsDiff(b', P.NormalizedAll(dbx, fabric', directory))
    requires i < |steps| && steps[i].row in b.dbxOnly && steps[i].row.key == WrittenKey(steps[i])
    requires Granted(Report(p, w, steps, roleName)[i])
    ensures exists r' :: r' in b'.inSync && r'.key == steps[i].row.key
  {
    var r := steps[i].row;
    P.InBucket(b.all, P.DbxOnly, r);
    ApplyThenDiff(p, w, steps, roleName, directory, dbx, fabric, fabric', b, b', r);
    assert r.key in WrittenKeys(steps, Report(p, w, steps, roleName));
    var r' :| r' in b'.all && r'.key == r.key && P.StatusOf(r') == P.InSync;
    P.InBucket(b'.all, P.InSync, r');
  }
}
