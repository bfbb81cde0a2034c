/**
 The side-by-side diff of app/services/pair_diff.py: collecting the Fabric side, normalising
 principals, merging both sides and sorting the rows into buckets.
 */
module PairDiff {
  import opened Optional
  import opened Text
  import opened PyDict
  import D = DarRoles
  import RowPolicy

  type Access = D.Access

  datatype Kind = NoConstraint | RowFilter | ColumnMask | OtherKind(name: string)

  /** What a constraint key is the hash of; columns are compared as sorted lists. */
  datatype Constraint =
    | NoKey
    | RowFilterOf(key: RowPolicy.RowFilterKey)
    | ColumnsOf(scope: string, columns: multiset<string>)
    | Signature(text: string)

  /** Everything the union is keyed by. */
  datatype RowKey = RowKey(principal: string, scope: string, access: Access, kind: Kind, constraint: Constraint)

  datatype DiffRow = DiffRow(key: RowKey, display: string, principalType: string, onDbx: bool, onFabric: bool,
                             rawDbx: seq<string>, rawFabric: seq<string>, source: string)

  datatype Status = DbxOnly | FabricOnly | InSync

  function StatusOf(r: DiffRow): Status {
    if r.onDbx && !r.onFabric then DbxOnly
    else if r.onFabric && !r.onDbx then FabricOnly
    else InSync
  }

  const TABLE_POLICY_PRINCIPAL := "__table_policy__"

  function PlainKey(principal: string, scope: string, access: Access): RowKey {
    RowKey(principal, scope, access, NoConstraint, NoKey)
  }

  // ---------------------------------------------------------------- workspace roles

  datatype Assignment = Assignment(id: string, upn: string, display: string, principalType: string, role: string)

  function AccessOfRole(role: string): Option<Access> {
    match role
    case "Viewer" => Some(D.DATA_READ)
    case "Contributor" => Some(D.DATA_WRITE)
    case "Member" => Some(D.DATA_WRITE)
    case "Admin" => Some(D.DATA_ADMIN)
    case _ => None
  }

  /** Higher access covers lower. */
  function Subsumed(access: Access): seq<Access> {
    match access
    case DATA_ADMIN => [D.DATA_WRITE, D.DATA_READ]
    case DATA_WRITE => [D.DATA_READ]
    case _ => []
  }

  /** The principal key of an assignment: object id, else UPN, else display name. */
  function PrincipalOf(a: Assignment): string {
    Lower(if a.id != "" then a.id else if a.upn != "" then a.upn else a.display)
  }

  function WorkspaceScope(workspace: string): string { "workspace:" + workspace }

  function CatalogScope(catalog: string): string { "catalog:" + catalog }

  /** The classes a workspace role counts as on the paired catalog. */
  function CatalogClasses(access: Access): seq<Access> {
    [access] + Subsumed(access) + [D.OBJECT_USE]
  }

  function AssignmentKeys(workspace: string, catalog: string, a: Assignment): set<RowKey> {
    var access := AccessOfRole(a.role);
    if PrincipalOf(a) == "" || access.None? then {}
    else
      {PlainKey(PrincipalOf(a), WorkspaceScope(workspace), access.value)}
      + if catalog == "" then {}
        else ClassRows(PrincipalOf(a), catalog, CatalogClasses(access.value))
  }

  function ClassRows(principal: string, catalog: string, classes: seq<Access>): set<RowKey> {
    set c | c in classes :: PlainKey(principal, CatalogScope(catalog), c)
  }

  lemma ClassRowsMore(principal: string, catalog: string, classes: seq<Access>, c: Access)
    ensures ClassRows(principal, catalog, classes + [c]) ==
              ClassRows(principal, catalog, classes) + {PlainKey(principal, CatalogScope(catalog), c)}
  {
  }

  // ---------------------------------------------------------------- data access roles

  /** The plain rows of one rule. */
  function RuleRows(catalog: string, members: seq<D.Member>, rule: D.Rule): set<RowKey> {
    set id, pair | id in D.Ids(members) && pair in D.RulePairs(catalog, rule) :: PlainKey(id, pair.0, pair.1)
  }

  /** The fine-grained rows of one rule. */
  function ConstraintRows(catalog: string, rule: D.Rule): set<RowKey> {
    (set c | c in rule.rows :: RowConstraintKey(catalog, c))
      + (set c | c in rule.columns :: ColumnConstraintKey(catalog, c))
  }

  function RowConstraintKey(catalog: string, c: D.RowConstraint): RowKey {
    var scope := D.ScopeOfPath(catalog, c.tablePath);
    RowKey(TABLE_POLICY_PRINCIPAL, scope, D.DATA_READ, RowFilter,
           RowFilterOf(RowPolicy.CanonicalRowFilterKey(scope, c.condition)))
  }

  function ColumnConstraintKey(catalog: string, c: D.ColumnConstraint): RowKey {
    var scope := D.ScopeOfPath(catalog, c.tablePath);
    RowKey(TABLE_POLICY_PRINCIPAL, scope, D.DATA_READ, ColumnMask, ColumnsOf(scope, multiset(c.columns)))
  }

  function RoleRows(catalog: string, role: D.Role): set<RowKey> {
    RulesRows(catalog, D.DarMembers(role), role.rules)
  }

  function RulesRows(catalog: string, members: seq<D.Member>, rules: seq<D.Rule>): set<RowKey> {
    set rule, k | rule in rules && k in RowsOfRule(catalog, members, rule) :: k
  }

  /** Every row of one rule. */
  function RowsOfRule(catalog: string, members: seq<D.Member>, rule: D.Rule): set<RowKey> {
    RuleRows(catalog, members, rule) + ConstraintRows(catalog, rule)
  }

  /** Every key the Fabric side of the diff has. */
  function FabricKeys(workspace: string, catalog: string, assignments: seq<Assignment>,
                      roles: seq<D.Role>): set<RowKey> {
    AllAssignmentKeys(workspace, catalog, assignments) + if catalog == "" then {} else AllRoleRows(catalog, roles)
  }

  /** Rows of the Fabric side: filed under their own key, on Fabric only. */
  ghost predicate FabricRows(rows: Dict<RowKey, DiffRow>) {
    && rows.Valid()
    && (forall k :: k in rows.at ==> rows.at[k].key == k && rows.at[k].onFabric && !rows.at[k].onDbx)
  }

  class Collector {
    var rows: Dict<RowKey, DiffRow>

    constructor ()
      ensures FabricRows(rows) && rows.at == map[]
    {
      rows := Empty();
    }

    /** `rows.get(k) or DiffRow(...)`, marked as seen on Fabric, with each raw label once. */
    method Record(k: RowKey, display: string, principalType: string, raw: string, source: string)
      requires FabricRows(rows)
      modifies this
      ensures FabricRows(rows)
      ensures rows.at.Keys == old(rows.at.Keys) + {k}
      ensures raw in rows.at[k].rawFabric
      ensures forall j :: j in old(rows.at) && j != k ==> rows.at[j] == old(rows.at)[j]
    {
      var row := if k in rows.at then rows.at[k] else DiffRow(k, display, principalType, false, false, [], [], source);
      row := row.(onFabric := true);
      if raw !in row.rawFabric {
        row := row.(rawFabric := row.rawFabric + [raw]);
      }
      PutValid(rows, k, row);
      rows := Put(rows, k, row);
    }

    method RecordAssignment(workspace: string, catalog: string, a: Assignment)
      requires FabricRows(rows)
      modifies this
      ensures FabricRows(rows)
      ensures rows.at.Keys == old(rows.at.Keys) + AssignmentKeys(workspace, catalog, a)
    {
      var key := PrincipalOf(a);
      var access := AccessOfRole(a.role);
      if key == "" || access.None? {
        return;
      }
      Record(PlainKey(key, WorkspaceScope(workspace), access.value), a.display, a.principalType, a.role, "");
      if catalog != "" {
        RecordClasses(key, catalog, [access.value] + Subsumed(access.value), a);
        Record(PlainKey(key, CatalogScope(catalog), D.OBJECT_USE), a.display, a.principalType, a.role, "");
        ClassRowsMore(key, catalog, [access.value] + Subsumed(access.value), D.OBJECT_USE);
      }
    }

    /** A workspace role also counts on the paired catalog, for its class and every lower one. */
    method RecordClasses(key: string, catalog: string, classes: seq<Access>, a: Assignment)
      requires FabricRows(rows)
      modifies this
      ensures FabricRows(rows)
      ensures rows.at.Keys == old(rows.at.Keys) + ClassRows(key, catalog, classes)
    {
      var i := 0;
      while i < |classes|
        invariant 0 <= i <= |classes| && FabricRows(rows)
        invariant rows.at.Keys == old(rows.at.Keys) + ClassRows(key, catalog, classes[..i])
      {
        assert classes[..i + 1] == classes[..i] + [classes[i]];
        ClassRowsMore(key, catalog, classes[..i], classes[i]);
        Record(PlainKey(key, CatalogScope(catalog), classes[i]), a.display, a.principalType, a.role, "");
        i := i + 1;
      }
      assert classes[..i] == classes;
    }

    /** One action of a rule, for every member with an id and every scope. */
    method RecordAction(members: seq<D.Member>, scopes: seq<string>, action: string, access: Access)
      requires FabricRows(rows)
      modifies this
      ensures FabricRows(rows)
      ensures rows.at.Keys == old(rows.at.Keys) + Grid(D.Ids(members), scopes, access)
    {
      var i := 0;
      while i < |members|
        invariant 0 <= i <= |members| && FabricRows(rows)
        invariant rows.at.Keys == old(rows.at.Keys) + Grid(D.Ids(members[..i]), scopes, access)
      {
        var m := members[i];
        GridOfNext(members, i, scopes, access);
        if m.objectId != "" {
          RecordMember(m, scopes, action, access);
        }
        i := i + 1;
      }
      assert members[..i] == members;
    }

    method RecordMember(m: D.Member, scopes: seq<string>, action: string, access: Access)
      requires FabricRows(rows)
      modifies this
      ensures FabricRows(rows)
      ensures rows.at.Keys == old(rows.at.Keys) + Grid({Lower(m.objectId)}, scopes, access)
    {
      var j := 0;
      while j < |scopes|
        invariant 0 <= j <= |scopes| && FabricRows(rows)
        invariant rows.at.Keys == old(rows.at.Keys) + Grid({Lower(m.objectId)}, scopes[..j], access)
      {
        assert scopes[..j + 1] == scopes[..j] + [scopes[j]];
        GridScope(Lower(m.objectId), scopes[..j], access, scopes[j]);
        Record(PlainKey(Lower(m.objectId), scopes[j], access), m.objectId,
               if m.objectType != "" then m.objectType else "User", action, "");
        j := j + 1;
      }
      assert scopes[..j] == scopes;
    }

    /** The fine-grained constraints of a rule, one row each, for the table policy principal. */
    method RecordConstraints(catalog: string, rule: D.Rule)
      requires FabricRows(rows)
      modifies this
      ensures FabricRows(rows)
      ensures rows.at.Keys == old(rows.at.Keys) + ConstraintRows(catalog, rule)
    {
      var i := 0;
      while i < |rule.rows|
        invariant 0 <= i <= |rule.rows| && FabricRows(rows)
        invariant rows.at.Keys == old(rows.at.Keys) + set c | c in rule.rows[..i] :: RowConstraintKey(catalog, c)
      {
        assert rule.rows[..i + 1] == rule.rows[..i] + [rule.rows[i]];
        Record(RowConstraintKey(catalog, rule.rows[i]), "Table policy", "Policy", "ROW CONSTRAINT", "fabric");
        i := i + 1;
      }
      assert rule.rows[..i] == rule.rows;
      RecordColumns(catalog, rule.columns);
    }

    method RecordColumns(catalog: string, columns: seq<D.ColumnConstraint>)
      requires FabricRows(rows)
      modifies this
      ensures FabricRows(rows)
      ensures rows.at.Keys == old(rows.at.Keys) + set c | c in columns :: ColumnConstraintKey(catalog, c)
    {
      var i := 0;
      while i < |columns|
        invariant 0 <= i <= |columns| && FabricRows(rows)
        invariant rows.at.Keys == old(rows.at.Keys) + set c | c in columns[..i] :: ColumnConstraintKey(catalog, c)
      {
        assert columns[..i + 1] == columns[..i] + [columns[i]];
        Record(ColumnConstraintKey(catalog, columns[i]), "Table policy", "Policy", "COLUMN CONSTRAINT", "fabric");
        i := i + 1;
      }
      assert columns[..i] == columns;
    }

    method RecordRule(catalog: string, members: seq<D.Member>, rule: D.Rule)
      requires FabricRows(rows)
      modifies this
      ensures FabricRows(rows)
      ensures rows.at.Keys == old(rows.at.Keys) + RowsOfRule(catalog, members, rule)
    {
      var scopes := D.ScopesFromDarPaths(catalog, D.ReadValues(rule, "Path"));
      RecordConstraints(catalog, rule);
      RecordActions(D.ReadValues(rule, "Action"), members, scopes);
      ActionRowsOfRule(catalog, members, rule);
    }

    method RecordActions(actions: seq<string>, members: seq<D.Member>, scopes: seq<string>)
      requires FabricRows(rows)
      modifies this
      ensures FabricRows(rows)
      ensures rows.at.Keys == old(rows.at.Keys) + ActionRows(actions, D.Ids(members), scopes)
    {
      var i := 0;
      while i < |actions|
        invariant 0 <= i <= |actions| && FabricRows(rows)
        invariant rows.at.Keys == old(rows.at.Keys) + ActionRows(actions[..i], D.Ids(members), scopes)
      {
        assert actions[..i + 1] == actions[..i] + [actions[i]];
        ActionRowsMore(actions[..i], actions[i], D.Ids(members), scopes);
        RecordKnownAction(members, scopes, actions[i]);
        i := i + 1;
      }
      assert actions[..i] == actions;
    }

    /** Actions without a canonical class are passed over. */
    method RecordKnownAction(members: seq<D.Member>, scopes: seq<string>, action: string)
      requires FabricRows(rows)
      modifies this
      ensures FabricRows(rows)
      ensures rows.at.Keys == old(rows.at.Keys) + OneAction(action, D.Ids(members), scopes)
    {
      var access := D.AccessOfAction(action);
      if access.Some? {
        RecordAction(members, scopes, action, access.value);
      }
    }

    method RecordRole(catalog: string, role: D.Role)
      requires FabricRows(rows)
      modifies this
      ensures FabricRows(rows)
      ensures rows.at.Keys == old(rows.at.Keys) + RoleRows(catalog, role)
    {
      RecordRules(catalog, D.DarMembers(role), role.rules);
    }

    method RecordRules(catalog: string, members: seq<D.Member>, rules: seq<D.Rule>)
      requires FabricRows(rows)
      modifies this
      ensures FabricRows(rows)
      ensures rows.at.Keys == old(rows.at.Keys) + RulesRows(catalog, members, rules)
    {
      var i := 0;
      while i < |rules|
        invariant 0 <= i <= |rules| && FabricRows(rows)
        invariant rows.at.Keys == old(rows.at.Keys) + RulesRows(catalog, members, rules[..i])
      {
        ghost var done := RulesRows(catalog, members, rules[..i]);
        assert rules[..i + 1] == rules[..i] + [rules[i]];
        RulesRowsMore(catalog, members, rules[..i], rules[i]);
        RecordRule(catalog, members, rules[i]);
        assert rows.at.Keys == old(rows.at.Keys) + (done + RowsOfRule(catalog, members, rules[i]));
        i := i + 1;
      }
      assert rules[..i] == rules;
    }

    method RecordRoles(catalog: string, roles: seq<D.Role>)
      requires FabricRows(rows)
      modifies this
      ensures FabricRows(rows)
      ensures rows.at.Keys == old(rows.at.Keys) + AllRoleRows(catalog, roles)
    {
      var i := 0;
      while i < |roles|
        invariant 0 <= i <= |roles| && FabricRows(rows)
        invariant rows.at.Keys == old(rows.at.Keys) + AllRoleRows(catalog, roles[..i])
      {
        assert roles[..i + 1] == roles[..i] + [roles[i]];
        AllRoleRowsMore(catalog, roles[..i], roles[i]);
        RecordRole(catalog, roles[i]);
        i := i + 1;
      }
      assert roles[..i] == roles;
    }

    method RecordAssignments(workspace: string, catalog: string, assignments: seq<Assignment>)
      requires FabricRows(rows)
      modifies this
      ensures FabricRows(rows)
      ensures rows.at.Keys == old(rows.at.Keys) + AllAssignmentKeys(workspace, catalog, assignments)
    {
      var i := 0;
      while i < |assignments|
        invariant 0 <= i <= |assignments| && FabricRows(rows)
        invariant rows.at.Keys == old(rows.at.Keys) + AllAssignmentKeys(workspace, catalog, assignments[..i])
      {
        assert assignments[..i + 1] == assignments[..i] + [assignments[i]];
        AllAssignmentKeysMore(workspace, catalog, assignments[..i], assignments[i]);
        RecordAssignment(workspace, catalog, assignments[i]);
        i := i + 1;
      }
      assert assignments[..i] == assignments;
    }
  }

  /** `collect_fabric_rows`; without a mirrored item the role list is empty. */
  method CollectFabricRows(workspace: string, catalog: string, assignments: seq<Assignment>, roles: seq<D.Role>)
    returns (rows: Dict<RowKey, DiffRow>)
    ensures FabricRows(rows)
    ensures rows.at.Keys == FabricKeys(workspace, catalog, assignments, roles)
  {
    var c := new Collector();
    c.RecordAssignments(workspace, catalog, assignments);
    if catalog != "" {
      c.RecordRoles(catalog, roles);
    }
    rows := c.rows;
  }

  function AllAssignmentKeys(workspace: string, catalog: string, assignments: seq<Assignment>): set<RowKey> {
    set a, k | a in assignments && k in AssignmentKeys(workspace, catalog, a) :: k
  }

  lemma AllAssignmentKeysMore(workspace: string, catalog: string, assignments: seq<Assignment>, a: Assignment)
    ensures AllAssignmentKeys(workspace, catalog, assignments + [a]) ==
              AllAssignmentKeys(workspace, catalog, assignments) + AssignmentKeys(workspace, catalog, a)
  {
  }

  function AllRoleRows(catalog: string, roles: seq<D.Role>): set<RowKey> {
    set role, k | role in roles && k in RoleRows(catalog, role) :: k
  }

  lemma AllRoleRowsMore(catalog: string, roles: seq<D.Role>, role: D.Role)
    ensures AllRoleRows(catalog, roles + [role]) == AllRoleRows(catalog, roles) + RoleRows(catalog, role)
  {
  }

  lemma RulesRowsMore(catalog: string, members: seq<D.Member>, rules: seq<D.Rule>, rule: D.Rule)
    ensures RulesRows(catalog, members, rules + [rule]) ==
              RulesRows(catalog, members, rules) + RowsOfRule(catalog, members, rule)
  {
    forall k
      ensures k in RulesRows(catalog, members, rules + [rule]) <==>
                k in RulesRows(catalog, members, rules) || k in RowsOfRule(catalog, members, rule)
    {
      if r :| r in rules && k in RowsOfRule(catalog, members, r) {
        assert r in rules + [rule];
      }
      if k in RowsOfRule(catalog, members, rule) {
        assert rule in rules + [rule];
      }
    }
  }

  function OneAction(action: string, ids: set<string>, scopes: seq<string>): set<RowKey> {
    if D.AccessOfAction(action).Some? then Grid(ids, scopes, D.AccessOfAction(action).value) else {}
  }

  function ActionRows(actions: seq<string>, ids: set<string>, scopes: seq<string>): set<RowKey> {
    set a, k | a in actions && k in OneAction(a, ids, scopes) :: k
  }

  lemma ActionRowsMore(actions: seq<string>, action: string, ids: set<string>, scopes: seq<string>)
    ensures ActionRows(actions + [action], ids, scopes) ==
              ActionRows(actions, ids, scopes) + OneAction(action, ids, scopes)
  {
    forall k
      ensures k in ActionRows(actions + [action], ids, scopes) <==>
                k in ActionRows(actions, ids, scopes) + OneAction(action, ids, scopes)
    {
      if a :| a in actions && k in OneAction(a, ids, scopes) {
        assert a in actions + [action];
      }
      if k in OneAction(action, ids, scopes) {
        assert action in actions + [action];
      }
    }
  }

  lemma ActionRowsOfRule(catalog: string, members: seq<D.Member>, rule: D.Rule)
    ensures ActionRows(D.ReadValues(rule, "Action"), D.Ids(members), D.ScopesOf(catalog, D.ReadValues(rule, "Path")))
              == RuleRows(catalog, members, rule)
  {
    var actions, scopes := D.ReadValues(rule, "Action"), D.ScopesOf(catalog, D.ReadValues(rule, "Path"));
    forall k | k in ActionRows(actions, D.Ids(members), scopes)
      ensures k in RuleRows(catalog, members, rule)
    {
      var a :| a in actions && k in OneAction(a, D.Ids(members), scopes);
      var id, sc :| id in D.Ids(members) && sc in scopes && k == PlainKey(id, sc, D.AccessOfAction(a).value);
      assert (sc, D.AccessOfAction(a).value) in D.RulePairs(catalog, rule);
    }
    forall k | k in RuleRows(catalog, members, rule)
      ensures k in ActionRows(actions, D.Ids(members), scopes)
    {
      var id, pair :| id in D.Ids(members) && pair in D.RulePairs(catalog, rule) && k == PlainKey(id, pair.0, pair.1);
      var a, sc :| a in actions && D.AccessOfAction(a).Some? && sc in scopes && pair == (sc, D.AccessOfAction(a).value);
      assert k in OneAction(a, D.Ids(members), scopes);
    }
  }

  function Grid(ids: set<string>, scopes: seq<string>, access: Access): set<RowKey> {
    set id, sc | id in ids && sc in scopes :: PlainKey(id, sc, access)
  }

  lemma GridMore(ids: set<string>, scopes: seq<string>, access: Access, id: string)
    ensures Grid(ids + {id}, scopes, access) == Grid(ids, scopes, access) + Grid({id}, scopes, access)
  {
  }

  lemma GridOfNext(members: seq<D.Member>, i: nat, scopes: seq<string>, access: Access)
    requires i < |members|
    ensures Grid(D.Ids(members[..i + 1]), scopes, access) ==
            Grid(D.Ids(members[..i]), scopes, access)
              + if members[i].objectId != "" then Grid({Lower(members[i].objectId)}, scopes, access) else {}
  {
    assert members[..i + 1] == members[..i] + [members[i]];
    D.IdsOfMore(members[..i], members[i]);
    if members[i].objectId != "" {
      GridMore(D.Ids(members[..i]), scopes, access, Lower(members[i].objectId));
    }
  }

  lemma GridScope(id: string, scopes: seq<string>, access: Access, scope: string)
    ensures Grid({id}, scopes + [scope], access) == Grid({id}, scopes, access) + {PlainKey(id, scope, access)}
  {
  }

  // ---------------------------------------------------------------- merging the two sides

  /** Name to object id, as the directory answers. */
  type Directory = string -> Option<string>

  /** A row whose principal key is an e-mail address is keyed by object id when the directory knows the address. */
  function Normalized(r: DiffRow, email: string, directory: Directory): DiffRow {
    if '@' in r.key.principal && directory(email).Some?
    then r.(key := r.key.(principal := Lower(directory(email).value)))
    else r
  }

  /** The Databricks side looks the displayed name up. */
  function NormalizedDbx(r: DiffRow, directory: Directory): DiffRow {
    Normalized(r, Lower(if r.display != "" then r.display else r.key.principal), directory)
  }

  function NormalizedFabric(r: DiffRow, directory: Directory): DiffRow {
    Normalized(r, Lower(r.key.principal), directory)
  }

  /** Appends the labels that are not there yet. */
  function Union(xs: seq<string>, ys: seq<string>): (u: seq<string>)
    ensures xs <= u
    ensures forall x :: x in u <==> x in xs || x in ys
  {
    if ys == [] then xs
    else
      assert ys == ys[..|ys| - 1] + [ys[|ys| - 1]];
      var before := Union(xs, ys[..|ys| - 1]);
      if ys[|ys| - 1] in before then before else before + [ys[|ys| - 1]]
  }

  function KeysOf(rows: seq<DiffRow>): set<RowKey> {
    set r | r in rows :: r.key
  }

  /** Seen on Databricks, on Fabric. */
  predicate SeenDbx(rows: seq<DiffRow>, k: RowKey) { exists r :: r in rows && r.key == k && r.onDbx }

  predicate SeenFabric(rows: seq<DiffRow>, k: RowKey) { exists r :: r in rows && r.key == k && r.onFabric }

  /** The row stored under k tells on which sides k was seen. */
  ghost predicate MergedAt(m: Dict<RowKey, DiffRow>, rows: seq<DiffRow>, k: RowKey)
    requires k in m.at
  {
    && m.at[k].key == k
    && (m.at[k].onDbx <==> SeenDbx(rows, k))
    && (m.at[k].onFabric <==> SeenFabric(rows, k))
  }

  /** One row per key, flagged with every side the key was seen on. */
  ghost predicate IsMerge(m: Dict<RowKey, DiffRow>, rows: seq<DiffRow>) {
    m.Valid() && m.at.Keys == KeysOf(rows) && forall k :: k in m.at ==> MergedAt(m, rows, k)
  }

  /** A row and what is stored under its key already. */
  function Combined(e: DiffRow, r: DiffRow): DiffRow {
    e.(onDbx := e.onDbx || r.onDbx, onFabric := e.onFabric || r.onFabric,
       rawDbx := Union(e.rawDbx, r.rawDbx), rawFabric := Union(e.rawFabric, r.rawFabric))
  }

  lemma SeenMore(rows: seq<DiffRow>, r: DiffRow, k: RowKey)
    ensures SeenDbx(rows + [r], k) <==> SeenDbx(rows, k) || (k == r.key && r.onDbx)
    ensures SeenFabric(rows + [r], k) <==> SeenFabric(rows, k) || (k == r.key && r.onFabric)
    ensures KeysOf(rows + [r]) == KeysOf(rows) + {r.key}
  {
    assert forall x :: x in rows + [r] <==> x in rows || x == r;
  }

  lemma NotSeen(rows: seq<DiffRow>, k: RowKey)
    requires k !in KeysOf(rows)
    ensures !SeenDbx(rows, k) && !SeenFabric(rows, k)
  {
  }

  lemma MergeMore(m: Dict<RowKey, DiffRow>, rows: seq<DiffRow>, r: DiffRow)
    requires IsMerge(m, rows)
    ensures IsMerge(Put(m, r.key, if r.key in m.at then Combined(m.at[r.key], r) else r), rows + [r])
  {
    var merged := if r.key in m.at then Combined(m.at[r.key], r) else r;
    var after := Put(m, r.key, merged);
    PutValid(m, r.key, merged);
    SeenMore(rows, r, r.key);
    forall k | k in after.at
      ensures MergedAt(after, rows + [r], k)
    {
      SeenMore(rows, r, k);
      if k in m.at {
        assert MergedAt(m, rows, k);
      } else {
        NotSeen(rows, k);
      }
    }
  }

  method MergeRows(rows: seq<DiffRow>) returns (m: Dict<RowKey, DiffRow>)
    ensures IsMerge(m, rows)
  {
    m := Empty();
    var i := 0;
    while i < |rows|
      invariant 0 <= i <= |rows|
      invariant IsMerge(m, rows[..i])
    {
      var r := rows[i];
      MergeMore(m, rows[..i], r);
      assert rows[..i + 1] == rows[..i] + [r];
      m := Put(m, r.key, if r.key in m.at then Combined(m.at[r.key], r) else r);
      i := i + 1;
    }
    assert rows[..i] == rows;
  }

  datatype Buckets = Buckets(all: seq<DiffRow>, dbxOnly: seq<DiffRow>, fabricOnly: seq<DiffRow>, inSync: seq<DiffRow>)

  function WithStatus(rows: seq<DiffRow>, s: Status): seq<DiffRow> {
    if rows == [] then []
    else WithStatus(rows[..|rows| - 1], s) + if StatusOf(rows[|rows| - 1]) == s then [rows[|rows| - 1]] else []
  }

  function Bucketed(rows: seq<DiffRow>): Buckets {
    Buckets(rows, WithStatus(rows, DbxOnly), WithStatus(rows, FabricOnly), WithStatus(rows, InSync))
  }

  lemma {:induction false} InBucket(rows: seq<DiffRow>, s: Status, r: DiffRow)
    ensures r in WithStatus(rows, s) <==> r in rows && StatusOf(r) == s
  {
    if rows != [] {
      InBucket(rows[..|rows| - 1], s, r);
      assert rows == rows[..|rows| - 1] + [rows[|rows| - 1]];
    }
  }

  /** Every row is in exactly one bucket, so the sizes add up. */
  lemma {:induction false} BucketsPartition(rows: seq<DiffRow>)
    ensures var b := Bucketed(rows); |b.dbxOnly| + |b.fabricOnly| + |b.inSync| == |b.all| == |rows|
  {
    if rows != [] {
      BucketsPartition(rows[..|rows| - 1]);
    }
  }

  function NormalizedAll(dbx: seq<DiffRow>, fabric: seq<DiffRow>, directory: Directory): seq<DiffRow> {
    seq(|dbx|, i requires 0 <= i < |dbx| => NormalizedDbx(dbx[i], directory))
    + seq(|fabric|, i requires 0 <= i < |fabric| => NormalizedFabric(fabric[i], directory))
  }

  /** Buckets of the merge: one row per key, in the bucket its two sides call for. */
  ghost predicate IsDiff(b: Buckets, rows: seq<DiffRow>) {
    && b == Bucketed(b.all)
    && KeysOf(b.all) == KeysOf(rows)
    && (forall i, j :: 0 <= i < j < |b.all| ==> b.all[i].key != b.all[j].key)
    && (forall r :: r in b.all ==> (r.onDbx <==> SeenDbx(rows, r.key)))
    && (forall r :: r in b.all ==> (r.onFabric <==> SeenFabric(rows, r.key)))
  }

  /** `merged.values()` */
  function ValuesOf(m: Dict<RowKey, DiffRow>): (all: seq<DiffRow>)
    requires m.Valid()
    ensures |all| == |m.keys|
  {
    seq(|m.keys|, i requires 0 <= i < |m.keys| => m.at[m.keys[i]])
  }

  /** `compute_diff` (the display order of the rows is left out). */
  method ComputeDiff(dbx: seq<DiffRow>, fabric: seq<DiffRow>, directory: Directory) returns (b: Buckets)
    ensures IsDiff(b, NormalizedAll(dbx, fabric, directory))
  {
    var m := MergeRows(NormalizedAll(dbx, fabric, directory));
    b := Bucketed(ValuesOf(m));
    MergeIsDiff(m, NormalizedAll(dbx, fabric, directory));
  }

  lemma MergeIsDiff(m: Dict<RowKey, DiffRow>, rows: seq<DiffRow>)
    requires IsMerge(m, rows)
    ensures IsDiff(Bucketed(ValuesOf(m)), rows)
  {
    var all := ValuesOf(m);
    forall k | 0 <= k < |all|
      ensures all[k].key == m.keys[k]
    {
      assert m.keys[k] in m.keys;
      assert MergedAt(m, rows, m.keys[k]);
    }
    AllKeys(m, all);
    forall r | r in all
      ensures r.key in m.at && m.at[r.key] == r && MergedAt(m, rows, r.key)
    {
      var i :| 0 <= i < |all| && all[i] == r;
      assert m.keys[i] in m.keys;
    }
  }

  lemma AllKeys(m: Dict<RowKey, DiffRow>, all: seq<DiffRow>)
    requires m.Valid() && |all| == |m.keys|
    requires forall k :: 0 <= k < |all| ==> all[k].key == m.keys[k]
    ensures KeysOf(all) == m.at.Keys
  {
    forall k | k in m.at
      ensures k in KeysOf(all)
    {
      assert k in m.keys;
      var i :| 0 <= i < |m.keys| && m.keys[i] == k;
      assert all[i] in all;
    }
    forall k | k in KeysOf(all)
      ensures k in m.at
    {
      var r :| r in all && r.key == k;
      var i :| 0 <= i < |all| && all[i] == r;
      assert m.keys[i] in m.keys;
    }
  }

  /** The bucket of a key, from the two sides. */
  lemma BucketOf(b: Buckets, rows: seq<DiffRow>, r: DiffRow)
    requires IsDiff(b, rows) && r in b.all
    ensures r in b.dbxOnly <==> SeenDbx(rows, r.key) && !SeenFabric(rows, r.key)
    ensures r in b.fabricOnly <==> SeenFabric(rows, r.key) && !SeenDbx(rows, r.key)
    ensures r in b.inSync <==> (SeenDbx(rows, r.key) <==> SeenFabric(rows, r.key))
  {
    InBucket(b.all, DbxOnly, r);
    InBucket(b.all, FabricOnly, r);
    InBucket(b.all, InSync, r);
  }
}
