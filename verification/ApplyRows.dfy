/**
 `apply_rows` of app/services/pair_apply.py: each selected row of the diff is routed to one layer and, unless
 the run is dry, written there. The dry run reads the same answers and writes nothing.
 */
module ApplyRows {
  import opened Optional
  import opened Text
  import D = DarRoles
  import S = DasUpsert
  import U = UcGrants
  import P = PairDiff
  import opened UcStatements

  type Access = D.Access

  datatype Direction = DbxToFabric | FabricToDbx

  /** The search for the mirrored catalog item. */
  datatype Lookup = LookupFailed | NoItem | Found

  datatype Identity = Identity(id: string, principalType: string)

  /** What the remote side answers while one row is processed. */
  datatype Answers = Answers(
    item: Lookup,
    entra: Option<Identity>,
    ucPrincipal: Option<string>,
    policy: Option<S.Policy>,
    statements: Option<seq<Statement>>,
    warehouse: bool,
    tenant: string,
    caller: Option<D.Member>,
    get: D.Reply,
    put: D.Reply,
    posted: bool,
    upn: string,
    displayName: string,
    completed: nat)

  datatype Step = Step(row: P.DiffRow, answers: Answers)

  datatype Pairing = Pairing(workspace: string, catalog: string)

  /** Both platforms, and the queue of principals without an identity. */
  datatype World = World(
    assignments: seq<P.Assignment>,
    roles: seq<D.Role>,
    grants: U.Grants,
    executed: seq<Statement>,
    unmapped: seq<string>)

  datatype Action = Action(direction: Direction, principal: string, scope: string, access: Access, layer: string,
                           ok: bool, skipped: bool)

  // ---------------------------------------------------------------- routing

  predicate Hex(c: char) { '0' <= c <= '9' || 'a' <= c <= 'f' || 'A' <= c <= 'F' }

  predicate IsGuid(s: string) {
    |s| == 36 && forall i :: 0 <= i < 36 ==> if i in {8, 13, 18, 23} then s[i] == '-' else Hex(s[i])
  }

  /** `_is_dbx_internal_principal` */
  predicate IsInternal(name: string) {
    var n := Strip(name);
    '@' !in n && !IsGuid(n)
    && ("_workspace_users_" <= Lower(n) || Lower(n) == "account users" || Lower(n) == "admins" || Lower(n) == "users")
  }

  datatype FabricLayer = UnsupportedSchema | OneLakeDar | WorkspaceRole

  /** `_plan_fabric_layer` */
  function PlanFabricLayer(scope: string, access: Access): FabricLayer {
    if "schema:" <= scope then UnsupportedSchema
    else if "table:" <= scope && D.DarActions(access) != [] then OneLakeDar
    else WorkspaceRole
  }

  function FabricRole(access: Access): Option<string> {
    match access
    case DATA_READ => Some("Viewer")
    case DATA_WRITE => Some("Contributor")
    case DATA_ADMIN => Some("Admin")
    case _ => None
  }

  function LayerOf(p: Pairing, direction: Direction, r: P.DiffRow): string {
    match r.key.kind
    case RowFilter => "row_filter"
    case ColumnMask => "column_mask"
    case OtherKind(name) => name
    case NoConstraint =>
      match direction
      case DbxToFabric =>
        (match PlanFabricLayer(r.key.scope, r.key.access)
         case UnsupportedSchema => "unsupported_schema"
         case OneLakeDar => "onelake_dar"
         case WorkspaceRole => "workspace_role")
      case FabricToDbx =>
        match U.UcTarget(r.key.scope, p.catalog).0
        case Catalog => "uc_catalog_grant"
        case Schema => "uc_schema_grant"
        case Table => "uc_table_grant"
  }

  /** What a row calls for: a verdict without any write, or one write. */
  datatype Plan =
    | Settled(ok: bool, skipped: bool)
    | WritePolicy(policy: S.Policy)
    | RunStatements(statements: Option<seq<Statement>>)
    | Assign(role: string)
    | ReadTable
    | Grant(kind: U.SecurableType, name: string, privileges: seq<string>)

  const SKIP := Settled(true, true)
  const FAIL := Settled(false, false)

  function PlanOf(p: Pairing, direction: Direction, s: Step): Plan {
    if s.row.key.kind != P.NoConstraint then ConstraintPlan(direction, s)
    else if direction == DbxToFabric then FabricPlan(s)
    else
      var (kind, name) := U.UcTarget(s.row.key.scope, p.catalog);
      var privileges := U.PrivilegesFor(s.row.key.access, kind);
      if privileges == [] then FAIL else Grant(kind, name, privileges)
  }

  /** Only a row filter or a column mask that is not an unresolved tag policy is written. */
  function ConstraintPlan(direction: Direction, s: Step): Plan {
    if s.row.source == "databricks_abac" || s.row.key.kind.OtherKind? then SKIP
    else if direction == FabricToDbx then RunStatements(s.answers.statements)
    else if s.answers.item == LookupFailed then FAIL
    else if s.answers.item == NoItem || s.answers.policy.None? then SKIP
    else WritePolicy(s.answers.policy.value)
  }

  function FabricPlan(s: Step): Plan {
    var access := s.row.key.access;
    match PlanFabricLayer(s.row.key.scope, access)
    case UnsupportedSchema => SKIP
    case OneLakeDar =>
      if s.answers.item == LookupFailed then FAIL
      else if s.answers.item == NoItem || access != D.DATA_READ || IsInternal(s.row.display) then SKIP
      else ReadTable
    case WorkspaceRole =>
      if access == D.OBJECT_USE then SKIP
      else if FabricRole(access).None? then FAIL
      else if IsInternal(s.row.display) then SKIP
      else Assign(FabricRole(access).value)
  }

  // ---------------------------------------------------------------- effects

  /** The state after a write, and what is reported about it. */
  datatype Effect = Effect(world: World, ok: bool, skipped: bool)

  predicate HasRole(assignments: seq<P.Assignment>, id: string) {
    exists a :: a in assignments && a.id == id
  }

  function NewAssignment(a: Answers, role: string): P.Assignment
    requires a.entra.Some?
  {
    P.Assignment(a.entra.value.id, a.upn, a.displayName, a.entra.value.principalType, role)
  }

  function NewMember(a: Answers): D.Member
    requires a.entra.Some?
  {
    D.Member(a.entra.value.id, a.tenant,
             if a.entra.value.principalType != "" then a.entra.value.principalType else "User")
  }

  function Perform(w: World, plan: Plan, s: Step, roleName: string -> string): Effect {
    var a := s.answers;
    match plan
    case Settled(ok, skipped) => Effect(w, ok, skipped)
    case WritePolicy(policy) =>
      var u := S.UpsertPolicy(w.roles, policy, a.tenant, a.caller);
      if a.get.Done? && a.put.Done? && u.Upserted? then Effect(w.(roles := u.roles), true, false)
      else Effect(w, false, false)
    case RunStatements(statements) =>
      if !a.warehouse then Effect(w, true, true)
      else if statements.None? then Effect(w, false, false)
      else
        var n := if a.completed < |statements.value| then a.completed else |statements.value|;
        Effect(w.(executed := w.executed + statements.value[..n]), n == |statements.value|, false)
    case Assign(role) =>
      if a.entra.None? then Unmapped(w, s)
      else if HasRole(w.assignments, a.entra.value.id) then Effect(w, true, false)
      else if !a.posted then Effect(w, false, false)
      else Effect(w.(assignments := w.assignments + [NewAssignment(a, role)]), true, false)
    case ReadTable =>
      if a.entra.None? then Unmapped(w, s) else ReadEffect(w, s, roleName)
    case Grant(kind, name, privileges) =>
      if a.ucPrincipal.None? then Effect(w, true, true)
      else
        var ops := U.Operations(kind, name, privileges);
        var n := U.Completed(ops, a.completed);
        Effect(w.(grants := U.AddedAll(w.grants, a.ucPrincipal.value, ops[..n])), n == |ops|, false)
  }

  function ReadEffect(w: World, s: Step, roleName: string -> string): Effect
    requires s.answers.entra.Some?
  {
    var a := s.answers;
    var path := D.DarPath(s.row.key.scope);
    var outcome := D.DarOutcome(w.roles, NewMember(a), s.row.key.access, s.row.key.scope, roleName, a.get, a.put);
    var merge := D.MergeGrant(w.roles, roleName(path), path, NewMember(a));
    Effect(if outcome.Granted? && merge.Merged? then w.(roles := merge.roles) else w, outcome.Ok(), false)
  }

  /** A principal the directory does not know is parked in the queue. */
  function Unmapped(w: World, s: Step): Effect {
    Effect(w.(unmapped := w.unmapped + [s.row.display]), true, true)
  }

  /** What the dry run says about a plan. */
  function DryEffect(w: World, plan: Plan): Effect {
    match plan
    case Settled(ok, skipped) => Effect(w, ok, skipped)
    case RunStatements(statements) => Effect(w, true, statements.None?)
    case _ => Effect(w, true, false)
  }

  function EffectOf(p: Pairing, direction: Direction, dryRun: bool, w: World, s: Step,
                    roleName: string -> string): Effect {
    var plan := PlanOf(p, direction, s);
    if dryRun then DryEffect(w, plan) else Perform(w, plan, s, roleName)
  }

  function ActionOf(p: Pairing, direction: Direction, s: Step, e: Effect): Action {
    Action(direction, s.row.display, s.row.key.scope, s.row.key.access, LayerOf(p, direction, s.row), e.ok, e.skipped)
  }

  /** The state after the first rows. */
  function WorldAfter(p: Pairing, direction: Direction, dryRun: bool, w: World, steps: seq<Step>,
                      roleName: string -> string): World {
    if steps == [] then w
    else
      var before := WorldAfter(p, direction, dryRun, w, steps[..|steps| - 1], roleName);
      EffectOf(p, direction, dryRun, before, steps[|steps| - 1], roleName).world
  }

  /** What the run reports about row i. */
  function ActionAt(p: Pairing, direction: Direction, dryRun: bool, w: World, steps: seq<Step>,
                    roleName: string -> string, i: nat): Action
    requires i < |steps|
  {
    var before := WorldAfter(p, direction, dryRun, w, steps[..i], roleName);
    ActionOf(p, direction, steps[i], EffectOf(p, direction, dryRun, before, steps[i], roleName))
  }

  /** One more row: its effect on what the rows before it left. */
  lemma RunStep(p: Pairing, direction: Direction, dryRun: bool, w: World, steps: seq<Step>,
                roleName: string -> string, i: nat)
    requires i < |steps|
    ensures var e := EffectOf(p, direction, dryRun, WorldAfter(p, direction, dryRun, w, steps[..i], roleName),
                              steps[i], roleName);
            && WorldAfter(p, direction, dryRun, w, steps[..i + 1], roleName) == e.world
            && ActionAt(p, direction, dryRun, w, steps, roleName, i) == ActionOf(p, direction, steps[i], e)
  {
    assert steps[..i + 1][..i] == steps[..i];
  }

  // ---------------------------------------------------------------- the run

  class Estate {
    var assignments: seq<P.Assignment>
    var roles: seq<D.Role>
    var grants: U.Grants
    var executed: seq<Statement>
    var unmapped: seq<string>

    constructor (w: World)
      ensures View() == w
    {
      assignments, roles, grants, executed, unmapped := w.assignments, w.roles, w.grants, w.executed, w.unmapped;
    }

    function View(): World
      reads this
    {
      World(assignments, roles, grants, executed, unmapped)
    }

    /** `_grant_fabric_workspace_role`: a principal that has a role already is reported as granted. */
    method GrantFabricWorkspaceRole(s: Step, role: string) returns (ok: bool, skipped: bool)
      modifies this
      ensures Effect(View(), ok, skipped) == Perform(old(View()), Assign(role), s, x => x)
    {
      if s.answers.entra.None? {
        unmapped := unmapped + [s.row.display];
        return true, true;
      }
      if HasRole(assignments, s.answers.entra.value.id) {
        return true, false;
      }
      if !s.answers.posted {
        return false, false;
      }
      assignments := assignments + [NewAssignment(s.answers, role)];
      return true, false;
    }

    method GrantTableRead(s: Step, roleName: string -> string) returns (ok: bool, skipped: bool)
      modifies this
      ensures Effect(View(), ok, skipped) == Perform(old(View()), ReadTable, s, roleName)
    {
      if s.answers.entra.None? {
        unmapped := unmapped + [s.row.display];
        return true, true;
      }
      var item := new D.OneLakeItem(roles);
      var outcome := item.GrantOneLakeDar(NewMember(s.answers), s.row.key.access, s.row.key.scope, roleName,
                                          s.answers.get, s.answers.put);
      roles := item.roles;
      return outcome.Ok(), false;
    }

    /** `_grant_fabric_constraint`, once the policy is translated. */
    method GrantFabricConstraint(s: Step, policy: S.Policy) returns (ok: bool, skipped: bool)
      modifies this
      ensures Effect(View(), ok, skipped) == Perform(old(View()), WritePolicy(policy), s, x => x)
    {
      var item := new S.PolicyItem(roles);
      ok := item.UpsertDasConstraintRole(policy, s.answers.tenant, s.answers.caller, s.answers.get, s.answers.put);
      roles := item.roles;
      skipped := false;
    }

    /** `_grant_uc_constraint` */
    method GrantUcConstraint(s: Step) returns (ok: bool, skipped: bool)
      modifies this
      ensures Effect(View(), ok, skipped) == Perform(old(View()), RunStatements(s.answers.statements), s, x => x)
    {
      if !s.answers.warehouse {
        return true, true;
      }
      if s.answers.statements.None? {
        return false, false;
      }
      var statements := s.answers.statements.value;
      var i := 0;
      while i < |statements| && i < s.answers.completed
        invariant 0 <= i <= |statements| && i <= s.answers.completed
        invariant View() == old(View()).(executed := old(executed) + statements[..i])
      {
        assert statements[..i + 1] == statements[..i] + [statements[i]];
        executed := executed + [statements[i]];
        i := i + 1;
      }
      return i == |statements|, false;
    }

    method GrantUcPrivileges(s: Step, kind: U.SecurableType, name: string, privileges: seq<string>)
        returns (ok: bool, skipped: bool)
      modifies this
      ensures Effect(View(), ok, skipped) == Perform(old(View()), Grant(kind, name, privileges), s, x => x)
    {
      if s.answers.ucPrincipal.None? {
        return true, true;
      }
      var uc := new U.UnityCatalog(grants);
      ok := uc.GrantPrivileges(kind, name, s.answers.ucPrincipal.value, privileges, s.answers.completed);
      grants := uc.grants;
      skipped := false;
    }

    method ApplyConstraint(p: Pairing, direction: Direction, dryRun: bool, s: Step, roleName: string -> string)
      returns (ok: bool, skipped: bool)
      requires s.row.key.kind != P.NoConstraint
      modifies this
      ensures Effect(View(), ok, skipped) == EffectOf(p, direction, dryRun, old(View()), s, roleName)
    {
      if s.row.source == "databricks_abac" {
        return true, true;
      }
      var supported := s.row.key.kind.RowFilter? || s.row.key.kind.ColumnMask?;
      if direction == DbxToFabric && supported {
        match s.answers.item
        case LookupFailed => return false, false;
        case NoItem => return true, true;
        case Found =>
        if s.answers.policy.None? {
          return true, true;
        }
        if dryRun {
          return true, false;
        }
        ok, skipped := GrantFabricConstraint(s, s.answers.policy.value);
        return;
      }
      if direction == FabricToDbx && supported {
        if dryRun {
          return true, s.answers.statements.None?;
        }
        ok, skipped := GrantUcConstraint(s);
        return;
      }
      return true, true;
    }

    method ApplyToFabric(p: Pairing, dryRun: bool, s: Step, roleName: string -> string)
        returns (ok: bool, skipped: bool)
      requires s.row.key.kind == P.NoConstraint
      modifies this
      ensures Effect(View(), ok, skipped) == EffectOf(p, DbxToFabric, dryRun, old(View()), s, roleName)
    {
      var access := s.row.key.access;
      match PlanFabricLayer(s.row.key.scope, access)
      case UnsupportedSchema =>
        return true, true;
      case OneLakeDar =>
        match s.answers.item {
          case LookupFailed => return false, false;
          case NoItem => return true, true;
          case Found =>
        }
        if access != D.DATA_READ || IsInternal(s.row.display) {
          return true, true;
        }
        if dryRun {
          return true, false;
        }
        ok, skipped := GrantTableRead(s, roleName);
      case WorkspaceRole =>
        if access == D.OBJECT_USE {
          return true, true;
        }
        var role := FabricRole(access);
        if role.None? {
          return false, false;
        }
        if IsInternal(s.row.display) {
          return true, true;
        }
        if dryRun {
          return true, false;
        }
        ok, skipped := GrantFabricWorkspaceRole(s, role.value);
    }

    method ApplyToUc(p: Pairing, dryRun: bool, s: Step, roleName: string -> string) returns (ok: bool, skipped: bool)
      requires s.row.key.kind == P.NoConstraint
      modifies this
      ensures Effect(View(), ok, skipped) == EffectOf(p, FabricToDbx, dryRun, old(View()), s, roleName)
    {
      var (kind, name) := U.UcTarget(s.row.key.scope, p.catalog);
      var privileges := U.PrivilegesFor(s.row.key.access, kind);
      if privileges == [] {
        return false, false;
      }
      if dryRun {
        return true, false;
      }
      ok, skipped := GrantUcPrivileges(s, kind, name, privileges);
    }

    method ApplyOne(p: Pairing, direction: Direction, dryRun: bool, s: Step, roleName: string -> string)
        returns (ok: bool, skipped: bool)
      modifies this
      ensures Effect(View(), ok, skipped) == EffectOf(p, direction, dryRun, old(View()), s, roleName)
    {
      if s.row.key.kind != P.NoConstraint {
        ok, skipped := ApplyConstraint(p, direction, dryRun, s, roleName);
      } else if direction == DbxToFabric {
        ok, skipped := ApplyToFabric(p, dryRun, s, roleName);
      } else {
        ok, skipped := ApplyToUc(p, dryRun, s, roleName);
      }
    }

    /** The next row of a run that began at w. */
    method ApplyNext(p: Pairing, direction: Direction, dryRun: bool, ghost w: World, steps: seq<Step>,
                     roleName: string -> string, i: nat)
      returns (action: Action)
      requires i < |steps| && View() == WorldAfter(p, direction, dryRun, w, steps[..i], roleName)
      modifies this
      ensures dryRun ==> View() == old(View())
      ensures View() == WorldAfter(p, direction, dryRun, w, steps[..i + 1], roleName)
      ensures action == ActionAt(p, direction, dryRun, w, steps, roleName, i)
    {
      RunStep(p, direction, dryRun, w, steps, roleName, i);
      var s := steps[i];
      var ok, skipped := ApplyOne(p, direction, dryRun, s, roleName);
      action := Action(direction, s.row.display, s.row.key.scope, s.row.key.access, LayerOf(p, direction, s.row), ok,
                       skipped);
    }

    /** `apply_rows`: one action per row, in order; every row sees what the rows before it wrote. */
    method ApplyRows(p: Pairing, direction: Direction, dryRun: bool, steps: seq<Step>, roleName: string -> string)
      returns (actions: seq<Action>)
      modifies this
      ensures dryRun ==> View() == old(View())
      ensures View() == WorldAfter(p, direction, dryRun, old(View()), steps, roleName)
      ensures |actions| == |steps|
      ensures forall i :: 0 <= i < |steps| ==>
                actions[i] == ActionAt(p, direction, dryRun, old(View()), steps, roleName, i)
    {
      ghost var w := View();
      actions := [];
      var i := 0;
      while i < |steps|
        invariant 0 <= i <= |steps| && |actions| == i
        invariant dryRun ==> View() == w
        invariant View() == WorldAfter(p, direction, dryRun, w, steps[..i], roleName)
        invariant forall k :: 0 <= k < i ==> actions[k] == ActionAt(p, direction, dryRun, w, steps, roleName, k)
      {
        var action := ApplyNext(p, direction, dryRun, w, steps, roleName, i);
        actions := actions + [action];
        i := i + 1;
      }
      assert steps[..i] == steps;
    }
  }
}
