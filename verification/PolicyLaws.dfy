/**
 A row filter of Unity Catalog applied to Fabric: the role it is written to is collected by the next diff under the
 key of the filter, so the row is in sync, and the rows that appear beside it are those of the role's members.
 */
module PolicyLaws {
  import opened Optional
  import opened Text
  import D = DarRoles
  import S = DasUpsert
  import P = PairDiff
  import R = RowPolicy
  import opened ApplyRows
  import opened ApplyLaws

  /** The key under which the Databricks side lists a filter with this translation. */
  function FilterKey(scope: string, t: R.Translation): P.RowKey {
    P.RowKey(P.TABLE_POLICY_PRINCIPAL, scope, D.DATA_READ, P.RowFilter,
             P.RowFilterOf(R.CanonicalRowFilterKey(scope, t.query)))
  }

  /** The policy role `_grant_fabric_constraint` upserts for a translated filter. */
  function FilterPolicy(name: string, t: R.Translation): S.Policy {
    S.Policy(name, t.tablePath, [D.RowConstraint(t.tablePath, t.query)], [])
  }

  function ReadKeys(ids: set<string>, scope: string): set<P.RowKey> {
    set id | id in ids :: P.PlainKey(id, scope, D.DATA_READ)
  }

  /** Roles that bear the name of a policy were written for that policy. */
  predicate NameIsOwn(roles: seq<D.Role>, policy: S.Policy) {
    forall role :: role in roles && Lower(role.name) == Lower(policy.name) ==>
                     role == S.PolicyRole(policy, role.microsoftEntraMembers)
  }

  // ---------------------------------------------------------------- one role

  /** A filter written for a scope that survives the round trip lies on the path the scope stands for. */
  lemma FilterPath(catalog: string, scope: string, f: R.FunctionInfo, columns: seq<string>)
    requires catalog != "" && D.SurvivingScope(catalog, scope)
    requires R.BuildFabricRowConstraint(scope, catalog, f, columns).Ok?
    ensures R.BuildFabricRowConstraint(scope, catalog, f, columns).value.tablePath == D.DarPath(scope)
  {
    var parts := Split(scope[6..], '.');
    assert parts == [parts[0], parts[1], parts[2]];
    NonEmptyParts(parts[0], parts[1], parts[2]);
    assert R.TableParts(scope, catalog) == Some((parts[0], parts[1], parts[2]));
  }

  lemma NonEmptyParts(a: string, b: string, c: string)
    requires a != "" && b != "" && c != ""
    ensures NonEmpty([a, b, c]) == [a, b, c]
  {
    assert [a, b, c][1..] == [b, c] && [b, c][1..] == [c] && [c][1..] == [];
    assert NonEmpty([c]) == [c];
    assert NonEmpty([b, c]) == [b, c];
  }

  lemma FilterRoleRows(catalog: string, scope: string, name: string, t: R.Translation, members: seq<D.Member>)
    requires D.ScopeOfPath(catalog, t.tablePath) == scope
    ensures P.RoleRows(catalog, S.PolicyRole(FilterPolicy(name, t), members)) ==
              ReadKeys(D.Ids(members), scope) + {FilterKey(scope, t)}
  {
    var role := S.PolicyRole(FilterPolicy(name, t), members);
    RoleRowsSplit(catalog, role);
    FilterPairs(catalog, role, t.tablePath);
    assert role.rules == [role.rules[0]] && D.DarMembers(role) == members;
    var c := D.RowConstraint(t.tablePath, t.query);
    assert role.rules[0].rows == [c] && role.rules[0].columns == [] && c in role.rules[0].rows;
    assert P.RowConstraintKey(catalog, c) == FilterKey(scope, t);
    assert P.ConstraintRows(catalog, role.rules[0]) == {FilterKey(scope, t)};
    assert RoleConstraints(catalog, role) == {FilterKey(scope, t)};
    KeysOfPair(catalog, role, (scope, D.DATA_READ));
  }

  /** The constraints of a rule do not change what it grants. */
  lemma FilterPairs(catalog: string, role: D.Role, path: string)
    requires |role.rules| == 1 && role.rules[0].(rows := [], columns := []) == D.PlainRule(path, ["Read"])
    ensures D.Pairs(catalog, role) == {(D.ScopeOfPath(catalog, path), D.DATA_READ)}
  {
    var plain := role.(rules := [D.PlainRule(path, ["Read"])]);
    D.PlainRulePairs(catalog, path, plain);
    D.PlainRuleValues(path, ["Read"]);
    D.PairsOfOne(catalog, role.rules[0], path, "Read", D.DATA_READ);
    assert role.rules[0] in role.rules;
  }

  lemma KeysOfPair(catalog: string, role: D.Role, pair: (string, D.Access))
    requires D.Pairs(catalog, role) == {pair} && pair.1 == D.DATA_READ
    ensures PlainOf(D.RoleKeys(catalog, role)) == ReadKeys(D.Ids(D.DarMembers(role)), pair.0)
  {
    forall k | k in ReadKeys(D.Ids(D.DarMembers(role)), pair.0)
      ensures k in PlainOf(D.RoleKeys(catalog, role))
    {
      assert D.AccessKey(k.principal, pair.0, pair.1) in D.RoleKeys(catalog, role);
    }
  }

  // ---------------------------------------------------------------- the role list

  lemma RowsDiffer(catalog: string, roles: seq<D.Role>, after: seq<D.Role>, i: nat)
    requires S.DifferAt(roles, after, i) && i <= |roles|
    requires i < |roles| ==> P.RoleRows(catalog, roles[i]) <= P.RoleRows(catalog, after[i])
    ensures P.AllRoleRows(catalog, after) == P.AllRoleRows(catalog, roles) + P.RoleRows(catalog, after[i])
  {
    forall k
      ensures k in P.AllRoleRows(catalog, after) <==>
                k in P.AllRoleRows(catalog, roles) || k in P.RoleRows(catalog, after[i])
    {
      if k in P.AllRoleRows(catalog, after) {
        var j :| 0 <= j < |after| && k in P.RoleRows(catalog, after[j]);
        assert j != i ==> roles[j] in roles && k in P.RoleRows(catalog, roles[j]);
      }
      if k in P.AllRoleRows(catalog, roles) {
        var j :| 0 <= j < |roles| && k in P.RoleRows(catalog, roles[j]);
        assert after[j] in after && k in P.RoleRows(catalog, after[j]);
      }
      assert after[i] in after;
    }
  }

  /** Upserting a filter adds its key and a table read for every member of the role. */
  lemma UpsertRows(catalog: string, scope: string, roles: seq<D.Role>, name: string, t: R.Translation, tenant: string,
                   caller: Option<D.Member>)
    requires D.ScopeOfPath(catalog, t.tablePath) == scope && NameIsOwn(roles, FilterPolicy(name, t))
    requires S.UpsertPolicy(roles, FilterPolicy(name, t), tenant, caller).Upserted?
    ensures P.AllRoleRows(catalog, S.UpsertPolicy(roles, FilterPolicy(name, t), tenant, caller).roles) ==
              P.AllRoleRows(catalog, roles) + {FilterKey(scope, t)}
                + ReadKeys(D.Ids(S.PolicyMembers(roles, t.tablePath, tenant, caller)), scope)
  {
    var policy := FilterPolicy(name, t);
    var after, i := S.UpsertPolicy(roles, policy, tenant, caller).roles, D.FirstNamed(roles, name);
    S.UpsertDiffers(roles, policy, tenant, caller);
    S.UpsertIsLocal(roles, policy, tenant, caller);
    FilterRoleRows(catalog, scope, name, t, S.PolicyMembers(roles, t.tablePath, tenant, caller));
    if i < |roles| {
      assert roles[i] in roles;
      FilterRoleRows(catalog, scope, name, t, roles[i].microsoftEntraMembers);
    }
    RowsDiffer(catalog, roles, after, i);
  }

  // ---------------------------------------------------------------- one row of a run

  /** The row is a filter with this translation, and the policy is the one written for it. */
  predicate FilterStep(p: Pairing, s: Step, f: R.FunctionInfo, columns: seq<string>, t: R.Translation, name: string) {
    && s.row.key.kind == P.RowFilter && D.SurvivingScope(p.catalog, s.row.key.scope)
    && R.BuildFabricRowConstraint(s.row.key.scope, p.catalog, f, columns) == R.Ok(t)
    && s.answers.policy == Some(FilterPolicy(name, t))
  }

  /** Who the policy will apply to: the current readers of the table, or the caller when there are none. */
  function PolicyReaders(w: World, s: Step): set<string> {
    var now := S.CurrentReaders(w.roles, D.DarPath(s.row.key.scope));
    if now != {} then now else if s.answers.caller.Some? then D.Ids([s.answers.caller.value]) else {}
  }

  /** The keys one applied filter adds. */
  function FilterKeys(w: World, s: Step, t: R.Translation): set<P.RowKey> {
    {FilterKey(s.row.key.scope, t)} + ReadKeys(PolicyReaders(w, s), s.row.key.scope)
  }

  lemma PolicyEffect(p: Pairing, w: World, s: Step, roleName: string -> string)
    requires s.row.key.kind == P.RowFilter && s.answers.policy.Some?
    ensures var e := EffectOf(p, DbxToFabric, false, w, s, roleName);
            var u := S.UpsertPolicy(w.roles, s.answers.policy.value, s.answers.tenant, s.answers.caller);
            if e.ok && !e.skipped then u.Upserted? && e.world == w.(roles := u.roles) else e.world == w
  {
  }

  /** The rows the upsert adds are those of the filter. */
  lemma UpsertIsCollected(p: Pairing, w: World, s: Step, f: R.FunctionInfo, columns: seq<string>, t: R.Translation,
                          name: string)
    requires ProperPairing(p) && FilterStep(p, s, f, columns, t, name) && NameIsOwn(w.roles, FilterPolicy(name, t))
    ensures var u := S.UpsertPolicy(w.roles, FilterPolicy(name, t), s.answers.tenant, s.answers.caller);
            u.Upserted? ==> Collected(p, w.(roles := u.roles)) == Collected(p, w) + FilterKeys(w, s, t)
  {
    var scope, a := s.row.key.scope, s.answers;
    FilterPath(p.catalog, scope, f, columns);
    D.ScopeRoundTrip(p.catalog, scope);
    S.PolicyMembersAreReaders(w.roles, t.tablePath, a.tenant, a.caller);
    if S.UpsertPolicy(w.roles, FilterPolicy(name, t), a.tenant, a.caller).Upserted? {
      UpsertRows(p.catalog, scope, w.roles, name, t, a.tenant, a.caller);
    }
  }

  /**
   One filter applied for real: the rows collected afterwards are those collected before and, if the row is reported
   as granted, its key and a table read for everybody the policy applies to.
   */
  lemma FilterIsCollected(p: Pairing, w: World, s: Step, roleName: string -> string, f: R.FunctionInfo,
                          columns: seq<string>, t: R.Translation, name: string)
    requires ProperPairing(p) && FilterStep(p, s, f, columns, t, name) && NameIsOwn(w.roles, FilterPolicy(name, t))
    ensures var e := EffectOf(p, DbxToFabric, false, w, s, roleName);
            Collected(p, e.world) == Collected(p, w) + if e.ok && !e.skipped then FilterKeys(w, s, t) else {}
  {
    PolicyEffect(p, w, s, roleName);
    UpsertIsCollected(p, w, s, f, columns, t, name);
  }

  // ---------------------------------------------------------------- the next diff

  lemma FilterKeysArePlain(w: World, s: Step, t: R.Translation, k: P.RowKey)
    requires (forall id :: id in PolicyReaders(w, s) ==> '@' !in id) && k in FilterKeys(w, s, t)
    ensures '@' !in k.principal
  {
    assert P.TABLE_POLICY_PRINCIPAL == "__table_policy__";
  }

  /**
   A filter reported as granted, in the next diff: a row on Databricks with the filter's key is in sync, and every other
   row keeps its bucket unless it is a table read of somebody the policy applies to.
   */
  lemma FilterThenDiff(p: Pairing, w: World, s: Step, roleName: string -> string, f: R.FunctionInfo,
                       columns: seq<string>, t: R.Translation, name: string, directory: P.Directory,
                       dbx: seq<P.DiffRow>,
                       fabric: seq<P.DiffRow>, fabric': seq<P.DiffRow>, b: P.Buckets, b': P.Buckets, r: P.DiffRow)
    requires ProperPairing(p) && FilterStep(p, s, f, columns, t, name) && NameIsOwn(w.roles, FilterPolicy(name, t))
    requires DbxRows(dbx) && FabricSide(fabric) && FabricSide(fabric')
    requires forall id :: id in PolicyReaders(w, s) ==> '@' !in id
    requires P.KeysOf(fabric) == Collected(p, w)
    requires var e := EffectOf(p, DbxToFabric, false, w, s, roleName);
             e.ok && !e.skipped && P.KeysOf(fabric') == Collected(p, e.world)
    requires P.IsDiff(b, P.NormalizedAll(dbx, fabric, directory))
    requires P.IsDiff(b', P.NormalizedAll(dbx, fabric', directory))
    ensures var added := FilterKeys(w, s, t);
            && (r in b.all ==> exists r' :: r' in b'.all && r'.key == r.key && P.StatusOf(r') == MovedTo(r, added))
            && (r in b'.all && r.key !in P.KeysOf(b.all) ==> r.key in added)
  {
    var added := FilterKeys(w, s, t);
    FilterIsCollected(p, w, s, roleName, f, columns, t, name);
    forall k | k in added
      ensures '@' !in k.principal
    {
      FilterKeysArePlain(w, s, t, k);
    }
    AddedKeysMove(dbx, fabric, fabric', added, directory, b, b', r);
  }

  /**
   A filter of the Databricks-only bucket, keyed by its translation and reported as granted, is in sync afterwards.
   */
  lemma FilterIsInSync(p: Pairing, w: World, s: Step, roleName: string -> string, f: R.FunctionInfo,
                       columns: seq<string>, t: R.Translation, name: string, directory: P.Directory,
                       dbx: seq<P.DiffRow>,
                       fabric: seq<P.DiffRow>, fabric': seq<P.DiffRow>, b: P.Buckets, b': P.Buckets)
    requires ProperPairing(p) && FilterStep(p, s, f, columns, t, name) && NameIsOwn(w.roles, FilterPolicy(name, t))
    requires DbxRows(dbx) && FabricSide(fabric) && FabricSide(fabric')
    requires forall id :: id in PolicyReaders(w, s) ==> '@' !in id
    requires P.KeysOf(fabric) == Collected(p, w)
    requires var e := EffectOf(p, DbxToFabric, false, w, s, roleName);
             e.ok && !e.skipped && P.KeysOf(fabric') == Collected(p, e.world)
    requires P.IsDiff(b, P.NormalizedAll(dbx, fabric, directory))
    requires P.IsDiff(b', P.NormalizedAll(dbx, fabric', directory))
    requires s.row in b.dbxOnly && s.row.key == FilterKey(s.row.key.scope, t)
    ensures exists r' :: r' in b'.inSync && r'.key == s.row.key
  {
    P.InBucket(b.all, P.DbxOnly, s.row);
    FilterThenDiff(p, w, s, roleName, f, columns, t, name, directory, dbx, fabric, fabric', b, b', s.row);
    assert s.row.key in FilterKeys(w, s, t);
    var r' :| r' in b'.all && r'.key == s.row.key && P.StatusOf(r') == P.InSync;
    P.InBucket(b'.all, P.InSync, r');
  }
}
