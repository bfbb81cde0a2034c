/**
 The Fabric side of the sync package: the write planner and the writer (permission-sync/src/writers), with
 OneLake data access roles switched off as shipped, and what discovery reads off the workspaces
 (permission-sync/src/discovery/fabric_discovery.py).
 */
module FabricSync {
  import opened Optional
  import opened Canonical

  datatype Role = Viewer | Contributor | Member | Admin | OtherRole(name: string)

  /** Where a role is assigned: one role per principal and workspace. */
  datatype Slot = Slot(workspace: string, principal: string)

  type Roles = map<Slot, Role>

  datatype Outcome = Granted | Revoked | Skipped | DryRunWouldApply | Failed

  /** The two Fabric tables of the privilege matrix, the display name of each workspace, and the dry-run flag. */
  datatype Setup = Setup(normalize: map<Role, Access>, denormalize: map<Access, Role>, workspaces: map<string, string>,
                         dryRun: bool)

  function SlotOf(p: Permission): Slot { Slot(p.workspace, p.principal) }

  /** `FabricWritePlanner.plan`: the workspace role for the class; without one the layer is skip. */
  function Plan(f: Setup, p: Permission): Option<Role> {
    if p.access in f.denormalize then Some(f.denormalize[p.access]) else None
  }

  /** A POST the service takes: the workspace exists and the principal has no role there yet. */
  predicate Takes(f: Setup, roles: Roles, p: Permission) {
    p.workspace in f.workspaces && SlotOf(p) !in roles
  }

  /** How one write or one revoke ends; the revoke consults neither the planned layer nor the dry-run flag. */
  function FabricOutcome(f: Setup, roles: Roles, p: Permission, accepted: bool, grant: bool): Outcome {
    if !grant then (if accepted then Revoked else Failed)
    else if Plan(f, p).None? then Skipped
    else if f.dryRun then DryRunWouldApply
    else if accepted && Takes(f, roles, p) then Granted
    else Failed
  }

  function RolesAfter(f: Setup, roles: Roles, p: Permission, accepted: bool, grant: bool): Roles {
    match FabricOutcome(f, roles, p, accepted, grant)
    case Granted => roles[SlotOf(p) := Plan(f, p).value]
    case Revoked => roles - {SlotOf(p)}
    case _ => roles
  }

  class FabricWriter {
    const setup: Setup
    var roles: Roles

    constructor (setup: Setup, roles: Roles)
      ensures this.setup == setup && this.roles == roles
    {
      this.setup, this.roles := setup, roles;
    }

    /** `write`, on the layer the planner chose. */
    method Write(p: Permission, accepted: bool) returns (outcome: Outcome)
      modifies this`roles
      ensures outcome == FabricOutcome(setup, old(roles), p, accepted, true)
      ensures roles == RolesAfter(setup, old(roles), p, accepted, true)
    {
      var role := Plan(setup, p);
      if role.None? {
        return Skipped;
      }
      if setup.dryRun {
        return DryRunWouldApply;
      }
      outcome := WriteWorkspaceRole(p, role.value, accepted);
    }

    /** `write_workspace_role`: an unknown workspace or a principal that has a role already is an error. */
    method WriteWorkspaceRole(p: Permission, role: Role, accepted: bool) returns (outcome: Outcome)
      modifies this`roles
      ensures outcome == if accepted && Takes(setup, old(roles), p) then Granted else Failed
      ensures roles == if outcome.Granted? then old(roles)[SlotOf(p) := role] else old(roles)
    {
      if !accepted || p.workspace !in setup.workspaces || SlotOf(p) in roles {
        return Failed;
      }
      roles := roles[SlotOf(p) := role];
      outcome := Granted;
    }

    /** `revoke_workspace_role`: the assignment is deleted by principal; that there is none counts as revoked. */
    method RevokeWorkspaceRole(p: Permission, accepted: bool) returns (outcome: Outcome)
      modifies this`roles
      ensures outcome == FabricOutcome(setup, old(roles), p, accepted, false)
      ensures roles == RolesAfter(setup, old(roles), p, accepted, false)
    {
      if !accepted {
        return Failed;
      }
      roles := roles - {SlotOf(p)};
      outcome := Revoked;
    }
  }

  // ---------------------------------------------------------------- discovery

  const WORKSPACE := "workspace"

  /** The keys discovery reads off the workspaces. */
  function CollectedRoles(f: Setup, roles: Roles): set<Key> {
    set s | s in roles && roles[s] in f.normalize && s.workspace in f.workspaces :: KeyAt(f, s, f.normalize[roles[s]])
  }

  function KeyAt(f: Setup, s: Slot, access: Access): Key
    requires s.workspace in f.workspaces
  {
    Key(s.principal, access, f.workspaces[s.workspace], WORKSPACE)
  }

  /** A permission of kind workspace is labelled with a known workspace and its name, as discovery labels it. */
  predicate Labelled(f: Setup, p: Permission) {
    p.kind == WORKSPACE ==> p.workspace in f.workspaces && p.fqn == f.workspaces[p.workspace]
  }

  predicate AllLabelled(f: Setup, ps: seq<Permission>) { forall p :: p in ps ==> Labelled(f, p) }

  /** The list is what discovery reads off these roles. */
  ghost predicate Discovered(f: Setup, roles: Roles, ps: seq<Permission>) {
    && KeysOf(ps) == CollectedRoles(f, roles)
    && forall p :: p in ps ==> p.kind == WORKSPACE && Labelled(f, p)
  }

  /** Workspace names tell workspaces apart. */
  predicate NamesApart(f: Setup) {
    forall v, w :: v in f.workspaces && w in f.workspaces && f.workspaces[v] == f.workspaces[w] ==> v == w
  }

  /** Granting this class is read back as this class. */
  predicate FabricRoundTrips(f: Setup, access: Access) {
    access in f.denormalize && f.denormalize[access] in f.normalize && f.normalize[f.denormalize[access]] == access
  }

  /** Every class a role is read as round-trips. */
  predicate FabricCoherent(f: Setup) {
    forall r :: r in f.normalize ==> FabricRoundTrips(f, f.normalize[r])
  }

  /**
   A discovered permission is on the occupied slot of its workspace and principal, with the class of the role there.
   */
  lemma DiscoveredSlot(f: Setup, roles: Roles, ps: seq<Permission>, p: Permission)
    requires Discovered(f, roles, ps) && NamesApart(f) && p in ps
    ensures SlotOf(p) in roles && roles[SlotOf(p)] in f.normalize && f.normalize[roles[SlotOf(p)]] == p.access
    ensures p.workspace in f.workspaces && p.KeyOf() == KeyAt(f, SlotOf(p), p.access)
  {
    assert p.KeyOf() in KeysOf(ps);
    var s :| s in roles && roles[s] in f.normalize && s.workspace in f.workspaces
        && p.KeyOf() == KeyAt(f, s, f.normalize[roles[s]]);
    assert s == SlotOf(p);
  }

  // ---------------------------------------------------------------- many writes, many revokes

  type Answers = (Permission, bool) -> bool

  function RolesAfterAll(f: Setup, roles: Roles, ps: seq<Permission>, accepts: Answers, grant: bool): Roles {
    if ps == [] then roles
    else
      var last := |ps| - 1;
      RolesAfter(f, RolesAfterAll(f, roles, ps[..last], accepts, grant), ps[last], accepts(ps[last], grant), grant)
  }

  /** A grant that is accepted and that the slot's workspace and the planned layer allow. */
  predicate Fills(f: Setup, accepts: Answers, p: Permission, s: Slot) {
    SlotOf(p) == s && Plan(f, p).Some? && p.workspace in f.workspaces && accepts(p, true)
  }

  /** The first permission of the list that can be written to the slot. */
  function FirstFor(f: Setup, accepts: Answers, ps: seq<Permission>, s: Slot): Option<Permission> {
    if ps == [] then None
    else
      var before, p := FirstFor(f, accepts, ps[..|ps| - 1], s), ps[|ps| - 1];
      if before.Some? then before else if Fills(f, accepts, p, s) then Some(p) else None
  }

  lemma {:induction false} FirstForIs(f: Setup, accepts: Answers, ps: seq<Permission>, s: Slot)
    ensures var r := FirstFor(f, accepts, ps, s);
            if r.Some? then r.value in ps && Fills(f, accepts, r.value, s)
            else forall p :: p in ps ==> !Fills(f, accepts, p, s)
  {
    if ps != [] {
      FirstForIs(f, accepts, ps[..|ps| - 1], s);
      assert ps == ps[..|ps| - 1] + [ps[|ps| - 1]];
    }
  }

  /** What a slot holds. */
  function At(roles: Roles, s: Slot): Option<Role> { if s in roles then Some(roles[s]) else None }

  /** Grants fill free slots, each with the first accepted permission for it; an occupied slot keeps its role. */
  lemma {:induction false} AfterGrants(f: Setup, roles: Roles, ps: seq<Permission>, accepts: Answers, s: Slot)
    requires !f.dryRun
    ensures At(RolesAfterAll(f, roles, ps, accepts, true), s) ==
              if s in roles then Some(roles[s])
              else if FirstFor(f, accepts, ps, s).Some? then Plan(f, FirstFor(f, accepts, ps, s).value)
              else None
  {
    if ps != [] {
      AfterGrants(f, roles, ps[..|ps| - 1], accepts, s);
      FirstForIs(f, accepts, ps[..|ps| - 1], s);
    }
  }

  /** A dry run writes no role. */
  lemma {:induction false} DryGrants(f: Setup, roles: Roles, ps: seq<Permission>, accepts: Answers)
    requires f.dryRun
    ensures RolesAfterAll(f, roles, ps, accepts, true) == roles
  {
    if ps != [] {
      DryGrants(f, roles, ps[..|ps| - 1], accepts);
    }
  }

  /** The slots of the items whose revoke is accepted. */
  function SlotsOf(ps: seq<Permission>, accepts: Answers): set<Slot> { set p | p in ps
                                                                      && accepts(p, false) :: SlotOf(p) }

  /** Revokes that are accepted clear their slots, in a dry run too. */
  lemma {:induction false} AfterRevokes(f: Setup, roles: Roles, ps: seq<Permission>, accepts: Answers)
    ensures RolesAfterAll(f, roles, ps, accepts, false) == roles - SlotsOf(ps, accepts)
  {
    if ps != [] {
      var last := |ps| - 1;
      AfterRevokes(f, roles, ps[..last], accepts);
      assert ps == ps[..last] + [ps[last]];
      assert SlotsOf(ps, accepts) ==
               SlotsOf(ps[..last], accepts) + if accepts(ps[last], false) then {SlotOf(ps[last])} else {};
    }
  }

  // ---------------------------------------------------------------- the shipped tables

  /** The Fabric tables of privilege_matrix.yaml, for these workspaces. */
  function Shipped(workspaces: map<string, string>, dryRun: bool): Setup {
    Setup(map[Viewer := WORKSPACE_VIEW, Member := WORKSPACE_EDIT, Contributor := DATA_WRITE, Admin := WORKSPACE_ADMIN],
          map[DATA_READ := Viewer, DATA_WRITE := Contributor, DATA_ADMIN := Admin, WORKSPACE_VIEW := Viewer,
              WORKSPACE_EDIT := Member, WORKSPACE_ADMIN := Admin],
          workspaces, dryRun)
  }

  /** Reading, administration and traversal are the classes that never round-trip on Fabric. */
  lemma ShippedFabricRoundTrips(workspaces: map<string, string>, dryRun: bool, a: Access)
    ensures FabricRoundTrips(Shipped(workspaces, dryRun), a) <==> a != DATA_READ && a != DATA_ADMIN && a != OBJECT_USE
    ensures FabricCoherent(Shipped(workspaces, dryRun))
  {
    var f := Shipped(workspaces, dryRun);
    assert FabricRoundTrips(f, WORKSPACE_VIEW) && FabricRoundTrips(f, WORKSPACE_EDIT);
    assert FabricRoundTrips(f, DATA_WRITE) && FabricRoundTrips(f, WORKSPACE_ADMIN);
    assert a.DATA_READ? || a.DATA_WRITE? || a.DATA_ADMIN? || a.OBJECT_USE?
           || a.WORKSPACE_VIEW? || a.WORKSPACE_EDIT? || a.WORKSPACE_ADMIN?;
  }
}
