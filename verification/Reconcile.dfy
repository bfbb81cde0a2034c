/**
 The permission-sync reconciler: the diff of two permission lists, conflict winners, the dispatch
 of grants and revokes, and what the target platform holds afterwards.
 */
module Reconcile {
  import opened Optional
  import opened PyDict
  import opened Canonical
  import opened FabricSync
  import opened SourceWriters

  datatype Conflict = Conflict(source: Permission, target: Permission)

  datatype Diff = Diff(toGrant: seq<Permission>, toRevoke: seq<Permission>,
                       conflicts: seq<Conflict>, same: seq<Permission>)

  predicate DistinctKeys(ps: seq<Permission>) {
    forall i, j :: 0 <= i < j < |ps| ==> ps[i].KeyOf() != ps[j].KeyOf()
  }

  /** The last permission of the list with this key. */
  function LastWith(ps: seq<Permission>, k: Key): Option<Permission> {
    if ps == [] then None
    else if ps[|ps| - 1].KeyOf() == k then Some(ps[|ps| - 1])
    else LastWith(ps[..|ps| - 1], k)
  }

  /** The last permission of the list on this securable. */
  function LastOn(ps: seq<Permission>, s: Securable): Option<Permission> {
    if ps == [] then None
    else if ps[|ps| - 1].On() == s then Some(ps[|ps| - 1])
    else LastOn(ps[..|ps| - 1], s)
  }

  lemma {:induction false} LastWithIsThere(ps: seq<Permission>, k: Key)
    ensures LastWith(ps, k).Some? <==> k in KeysOf(ps)
    ensures LastWith(ps, k).Some? ==> LastWith(ps, k).value in ps && LastWith(ps, k).value.KeyOf() == k
  {
    if ps != [] {
      LastWithIsThere(ps[..|ps| - 1], k);
      assert ps == ps[..|ps| - 1] + [ps[|ps| - 1]];
    }
  }

  lemma {:induction false} LastOnIsThere(ps: seq<Permission>, s: Securable)
    ensures LastOn(ps, s).Some? ==> LastOn(ps, s).value in ps && LastOn(ps, s).value.On() == s
  {
    if ps != [] {
      LastOnIsThere(ps[..|ps| - 1], s);
    }
  }

  /** A desired permission conflicts with the last current one on its securable when their access classes differ. */
  function ConflictsOf(current: seq<Permission>, desired: seq<Permission>): seq<Conflict> {
    if desired == [] then []
    else
      var p := desired[|desired| - 1];
      var t := LastOn(current, p.On());
      ConflictsOf(current, desired[..|desired| - 1])
      + if t.Some? && t.value.access != p.access then [Conflict(p, t.value)] else []
  }

  /**
   What a diff says of its two inputs: each key is listed once, in the list its membership calls for, with its latest
   data.
   */
  ghost predicate IsDiff(d: Diff, current: seq<Permission>, desired: seq<Permission>) {
    && Lists(d.toGrant, desired, KeysOf(desired) - KeysOf(current))
    && Lists(d.same, desired, KeysOf(desired) * KeysOf(current))
    && Lists(d.toRevoke, current, KeysOf(current) - KeysOf(desired))
    && d.conflicts == ConflictsOf(current, desired)
  }

  lemma IndexMore(d: Dict<Key, Permission>, ps: seq<Permission>, p: Permission)
    requires Indexes(d, ps)
    ensures Indexes(Put(d, p.KeyOf(), p), ps + [p])
  {
    PutValid(d, p.KeyOf(), p);
    assert (ps + [p])[..|ps|] == ps;
  }

  method IndexByKey(ps: seq<Permission>) returns (d: Dict<Key, Permission>)
    ensures Indexes(d, ps)
  {
    d := Empty();
    var i := 0;
    while i < |ps|
      invariant 0 <= i <= |ps|
      invariant Indexes(d, ps[..i])
    {
      assert ps[..i + 1] == ps[..i] + [ps[i]];
      IndexMore(d, ps[..i], ps[i]);
      d := Put(d, ps[i].KeyOf(), ps[i]);
      i := i + 1;
    }
    assert ps[..i] == ps;
  }

  /** The permissions of an index, each under its own key and the latest of its list. */
  ghost predicate Indexes(d: Dict<Key, Permission>, ps: seq<Permission>) {
    && d.Valid() && d.at.Keys == KeysOf(ps)
    && (forall k :: k in d.at ==> LastWith(ps, k) == Some(d.at[k]) && d.at[k].KeyOf() == k)
  }

  /** A list of latest permissions of ps, without repetition, whose keys are exactly ks. */
  ghost predicate Lists(out: seq<Permission>, ps: seq<Permission>, ks: set<Key>) {
    && DistinctKeys(out) && KeysOf(out) == ks
    && (forall p :: p in out ==> LastWith(ps, p.KeyOf()) == Some(p))
  }

  lemma ListsMore(out: seq<Permission>, ps: seq<Permission>, ks: set<Key>, p: Permission)
    requires Lists(out, ps, ks) && p.KeyOf() !in ks && LastWith(ps, p.KeyOf()) == Some(p)
    ensures Lists(out + [p], ps, ks + {p.KeyOf()})
  {
    forall i | 0 <= i < |out|
      ensures out[i].KeyOf() != p.KeyOf()
    {
      assert out[i].KeyOf() in KeysOf(out);
    }
  }

  /** Splits the desired permissions into those already there and those to grant. */
  method SplitDesired(desiredByKey: Dict<Key, Permission>, currentByKey: Dict<Key, Permission>,
                      ghost desired: seq<Permission>)
    returns (toGrant: seq<Permission>, same: seq<Permission>)
    requires Indexes(desiredByKey, desired)
    ensures Lists(toGrant, desired, desiredByKey.at.Keys - currentByKey.at.Keys)
    ensures Lists(same, desired, desiredByKey.at.Keys * currentByKey.at.Keys)
  {
    toGrant, same := [], [];
    var i := 0;
    ghost var seen: set<Key> := {};
    while i < |desiredByKey.keys|
      invariant 0 <= i <= |desiredByKey.keys|
      invariant seen == set j | 0 <= j < i :: desiredByKey.keys[j]
      invariant Lists(toGrant, desired, seen - currentByKey.at.Keys)
      invariant Lists(same, desired, seen * currentByKey.at.Keys)
    {
      var k := desiredByKey.keys[i];
      var p := desiredByKey.at[k];
      assert k !in seen;
      if k in currentByKey.at {
        ListsMore(same, desired, seen * currentByKey.at.Keys, p);
        same := same + [p];
        assert (seen + {k}) * currentByKey.at.Keys == seen * currentByKey.at.Keys + {k};
        assert (seen + {k}) - currentByKey.at.Keys == seen - currentByKey.at.Keys;
      } else {
        ListsMore(toGrant, desired, seen - currentByKey.at.Keys, p);
        toGrant := toGrant + [p];
        assert (seen + {k}) - currentByKey.at.Keys == seen - currentByKey.at.Keys + {k};
        assert (seen + {k}) * currentByKey.at.Keys == seen * currentByKey.at.Keys;
      }
      seen := seen + {k};
      i := i + 1;
    }
    assert seen == desiredByKey.at.Keys;
  }

  /** The current permissions whose key is not desired. */
  method Stale(currentByKey: Dict<Key, Permission>, desiredByKey: Dict<Key, Permission>, ghost current: seq<Permission>)
    returns (toRevoke: seq<Permission>)
    requires Indexes(currentByKey, current)
    ensures Lists(toRevoke, current, currentByKey.at.Keys - desiredByKey.at.Keys)
  {
    toRevoke := [];
    var i := 0;
    ghost var seen: set<Key> := {};
    while i < |currentByKey.keys|
      invariant 0 <= i <= |currentByKey.keys|
      invariant seen == set j | 0 <= j < i :: currentByKey.keys[j]
      invariant Lists(toRevoke, current, seen - desiredByKey.at.Keys)
    {
      var k := currentByKey.keys[i];
      assert k !in seen;
      if k !in desiredByKey.at {
        ListsMore(toRevoke, current, seen - desiredByKey.at.Keys, currentByKey.at[k]);
        toRevoke := toRevoke + [currentByKey.at[k]];
        assert (seen + {k}) - desiredByKey.at.Keys == seen - desiredByKey.at.Keys + {k};
      } else {
        assert (seen + {k}) - desiredByKey.at.Keys == seen - desiredByKey.at.Keys;
      }
      seen := seen + {k};
      i := i + 1;
    }
    assert seen == currentByKey.at.Keys;
  }

  method DetectConflicts(current: seq<Permission>, desired: seq<Permission>) returns (conflicts: seq<Conflict>)
    ensures conflicts == ConflictsOf(current, desired)
  {
    var currentBySec: map<Securable, Permission> := map[];
    var i := 0;
    while i < |current|
      invariant 0 <= i <= |current|
      invariant forall s :: LastOn(current[..i], s) == if s in currentBySec then Some(currentBySec[s]) else None
    {
      assert current[..i + 1][..i] == current[..i];
      currentBySec := currentBySec[current[i].On() := current[i]];
      i := i + 1;
    }
    assert current[..i] == current;
    conflicts := [];
    i := 0;
    while i < |desired|
      invariant 0 <= i <= |desired|
      invariant conflicts == ConflictsOf(current, desired[..i])
    {
      assert desired[..i + 1][..i] == desired[..i];
      var p := desired[i];
      if p.On() in currentBySec && currentBySec[p.On()].access != p.access {
        conflicts := conflicts + [Conflict(p, currentBySec[p.On()])];
      }
      i := i + 1;
    }
    assert desired[..i] == desired;
  }

  method ComputeDiff(current: seq<Permission>, desired: seq<Permission>) returns (diff: Diff)
    ensures IsDiff(diff, current, desired)
  {
    var currentByKey := IndexByKey(current);
    var desiredByKey := IndexByKey(desired);
    var toGrant, same := SplitDesired(desiredByKey, currentByKey, desired);
    var toRevoke := Stale(currentByKey, desiredByKey, current);
    var conflicts := DetectConflicts(current, desired);
    diff := Diff(toGrant, toRevoke, conflicts, same);
  }

  // ---------------------------------------------------------------- conflict winners

  datatype Strategy = SourceWins | TargetWins | Manual | Unknown(name: string)

  /** Who wins each conflict; an unknown strategy counts as source_wins. */
  function Winners(strategy: Strategy, conflicts: seq<Conflict>): (out: seq<Permission>)
    ensures forall w :: w in out <==>
              !strategy.Manual? && exists c :: c in conflicts && w == Winner(strategy, c)
  {
    if conflicts == [] || strategy.Manual? then []
    else
      var last := |conflicts| - 1;
      assert conflicts == conflicts[..last] + [conflicts[last]];
      Winners(strategy, conflicts[..last]) + [Winner(strategy, conflicts[last])]
  }

  function Winner(strategy: Strategy, c: Conflict): Permission {
    if strategy.TargetWins? then c.target else c.source
  }

  class ConflictResolver {
    const strategy: Strategy
    /** The conflicts written out for a human to decide. */
    var records: seq<Conflict>

    constructor (strategy: Strategy)
      ensures this.strategy == strategy && records == []
    {
      this.strategy := strategy;
      records := [];
    }

    method Resolve(c: Conflict) returns (winner: Option<Permission>)
      modifies this`records
      ensures winner.Some? <==> !strategy.Manual?
      ensures winner.Some? ==> winner.value == Winner(strategy, c)
      ensures records == old(records) + if strategy.Manual? then [c] else []
    {
      match strategy
      case SourceWins => winner := Some(c.source);
      case TargetWins => winner := Some(c.target);
      case Manual =>
        records := records + [c];
        winner := None;
      case Unknown(_) => winner := Some(c.source);
    }

    method ResolveAll(conflicts: seq<Conflict>) returns (out: seq<Permission>)
      modifies this`records
      ensures out == Winners(strategy, conflicts)
      ensures records == old(records) + if strategy.Manual? then conflicts else []
    {
      out := [];
      var i := 0;
      while i < |conflicts|
        invariant 0 <= i <= |conflicts|
        invariant out == Winners(strategy, conflicts[..i])
        invariant records == old(records) + if strategy.Manual? then conflicts[..i] else []
      {
        assert conflicts[..i + 1][..i] == conflicts[..i];
        assert conflicts[..i + 1] == conflicts[..i] + [conflicts[i]];
        var r := Resolve(conflicts[i]);
        if r.Some? {
          out := out + [r.value];
        }
        i := i + 1;
      }
      assert conflicts[..i] == conflicts;
    }
  }

  /** Both sides of a conflict come from the two lists, on one securable, with different access. */
  lemma {:induction false} ConflictsAreReal(current: seq<Permission>, desired: seq<Permission>)
    ensures forall c :: c in ConflictsOf(current, desired) ==>
              && c.source in desired && c.target in current
              && c.source.On() == c.target.On() && c.source.access != c.target.access
  {
    if desired != [] {
      var p := desired[|desired| - 1];
      ConflictsAreReal(current, desired[..|desired| - 1]);
      LastOnIsThere(current, p.On());
    }
  }

  // ---------------------------------------------------------------- dispatch

  /** The four outcome lists of a run, as a value. */
  datatype Outcomes = Outcomes(granted: seq<Key>, revoked: seq<Key>, skipped: seq<Key>, errors: seq<Key>)

  /** A key goes to the end of the one list its outcome names. */
  function Filed(o: Outcomes, k: Key, outcome: Outcome): Outcomes {
    match outcome
    case Granted => o.(granted := o.granted + [k])
    case Revoked => o.(revoked := o.revoked + [k])
    case Skipped => o.(skipped := o.skipped + [k])
    case DryRunWouldApply => o.(skipped := o.skipped + [k])
    case Failed => o.(errors := o.errors + [k])
  }

  class ApplyResult {
    var granted: seq<Key>
    var revoked: seq<Key>
    var skipped: seq<Key>
    var errors: seq<Key>

    constructor ()
      ensures View() == Outcomes([], [], [], [])
    {
      granted, revoked, skipped, errors := [], [], [], [];
    }

    ghost function View(): Outcomes
      reads this
    {
      Outcomes(granted, revoked, skipped, errors)
    }

    method Record(k: Key, outcome: Outcome)
      modifies this
      ensures View() == Filed(old(View()), k, outcome)
    {
      match outcome
      case Granted => granted := granted + [k];
      case Revoked => revoked := revoked + [k];
      case Skipped => skipped := skipped + [k];
      case DryRunWouldApply => skipped := skipped + [k];
      case Failed => errors := errors + [k];
    }
  }

  class PolicyWeaverClient {
    const matrix: Matrix
    const remote: Remote
    const fabric: FabricWriter
    const source: PrivilegeWriter

    constructor (matrix: Matrix, remote: Remote, fabric: FabricWriter, source: PrivilegeWriter)
      ensures this.matrix == matrix && this.remote == remote && this.fabric == fabric && this.source == source
    {
      this.matrix, this.remote, this.fabric, this.source := matrix, remote, fabric, source;
    }

    function RouteTo(target: Target, ctx: Ctx): Route { Route(target, matrix, fabric.setup, ctx, remote) }

    /** `_dispatch`: one item to its writer; an exception that nobody catches leaves it unrecorded. */
    method Dispatch(p: Permission, target: Target, ctx: Ctx, grant: bool, result: ApplyResult) returns (escaped: bool)
      modifies source`held, fabric`roles, result
      ensures var r := RouteTo(target, ctx);
              && (escaped <==> Escapes(r, p, grant))
              && source.held == HeldAfter(r, old(source.held), p, grant)
              && fabric.roles == (if escaped then old(fabric.roles) else RolesOn(r, old(fabric.roles), [p], grant))
              && result.View() == if escaped then old(result.View())
                                  else Filed(old(result.View()), p.KeyOf(), OutcomeOf(r, old(fabric.roles), p, grant))
    {
      var r := RouteTo(target, ctx);
      OneItem(r, fabric.roles, p, grant);
      var outcome := Skipped;
      escaped := false;
      match target {
      case Fabric =>
        escaped := remote.breaks(p, grant) && (grant ==> Plan(fabric.setup, p).Some? && !fabric.setup.dryRun);
        if escaped {
          return;
        }
        if grant {
          outcome := fabric.Write(p, remote.accepts(p, grant));
        } else {
          outcome := fabric.RevokeWorkspaceRole(p, remote.accepts(p, grant));
        }
      case UnityCatalog =>
        if p.access in matrix.denormalize {
          outcome := source.UpdateUnityCatalog(r, p, grant);
        }
      case Snowflake =>
        if p.access in matrix.denormalize {
          escaped, outcome := source.ExecuteSnowflake(r, p, grant);
          if escaped {
            return;
          }
        }
      case Other =>
      }
      result.Record(p.KeyOf(), outcome);
    }

    /** The next item of a list whose items before it left the state as it is. */
    method DispatchNext(ps: seq<Permission>, i: nat, target: Target, ctx: Ctx, grant: bool, result: ApplyResult,
                        ghost before: RunState)
      returns (escaped: bool)
      requires i < |ps| && RunState(source.held, fabric.roles, result.View()) ==
                             StateAfter(RouteTo(target, ctx), before, ps[..i], grant)
      modifies source`held, fabric`roles, result
      ensures escaped <==> Escapes(RouteTo(target, ctx), ps[i], grant)
      ensures RunState(source.held, fabric.roles, result.View()) ==
                StateAfter(RouteTo(target, ctx), before, ps[..if escaped then i else i + 1], grant)
    {
      ItemsMore(RouteTo(target, ctx), before, ps, grant, i);
      escaped := Dispatch(ps[i], target, ctx, grant, result);
    }

    method DispatchAll(ps: seq<Permission>, target: Target, ctx: Ctx, grant: bool, result: ApplyResult)
      returns (escaped: bool)
      modifies source`held, fabric`roles, result
      ensures var r := RouteTo(target, ctx);
              && (escaped <==> Reach(r, ps, grant) < |ps|)
              && RunState(source.held, fabric.roles, result.View()) ==
                   StateAfter(r, RunState(old(source.held), old(fabric.roles), old(result.View())),
                              ps[..Reach(r, ps, grant)], grant)
    {
      ghost var before := RunState(source.held, fabric.roles, result.View());
      var i := 0;
      while i < |ps|
        invariant 0 <= i <= |ps| && i <= Reach(RouteTo(target, ctx), ps, grant)
        invariant RunState(source.held, fabric.roles, result.View()) ==
                    StateAfter(RouteTo(target, ctx), before, ps[..i], grant)
      {
        escaped := DispatchNext(ps, i, target, ctx, grant, result, before);
        if escaped {
          return;
        }
        i := i + 1;
      }
      escaped := false;
    }

    /**
     Every grant, then every revoke, up to the first exception that nobody catches: each item that is dispatched is
     recorded exactly once, as the answers decide, and both platforms end as these items leave them.
     */
    method ApplyDiff(toGrant: seq<Permission>, toRevoke: seq<Permission>, target: Target, ctx: Ctx)
      returns (result: Option<ApplyResult>)
      modifies source`held, fabric`roles
      ensures result.Some? ==> fresh(result.value)
      ensures result.Some? ==>
                Recorded(result.value.View()) == multiset(IdsOf(toGrant)) + multiset(IdsOf(toRevoke))
      ensures var r := RouteTo(target, ctx);
              && source.held == HeldRun(r, old(source.held), toGrant, toRevoke)
              && fabric.roles == RolesRun(r, old(fabric.roles), toGrant, toRevoke)
              && ViewOf(result) == ReportOf(r, old(fabric.roles), toGrant, toRevoke)
    {
      ghost var r := RouteTo(target, ctx);
      ghost var held, roles := source.held, fabric.roles;
      var lists := new ApplyResult();
      var escaped := DispatchAll(toGrant, target, ctx, true, lists);
      if escaped {
        StoppedInGrants(r, held, roles, toGrant, toRevoke);
        return None;
      }
      assert toGrant[..|toGrant|] == toGrant;
      escaped := DispatchAll(toRevoke, target, ctx, false, lists);
      PastGrants(r, held, roles, toGrant, toRevoke);
      if escaped {
        return None;
      }
      FiledRunOnce(r, roles, toGrant, toRevoke);
      result := Some(lists);
    }
  }

  /** The workspace roles after a list of items; only a Fabric target writes them. */
  function RolesOn(r: Route, roles: Roles, ps: seq<Permission>, grant: bool): Roles {
    if r.target.Fabric? then RolesAfterAll(r.setup, roles, ps, r.remote.accepts, grant) else roles
  }

  lemma OneItem(r: Route, roles: Roles, p: Permission, grant: bool)
    ensures RolesOn(r, roles, [p], grant) ==
              if r.target.Fabric? then RolesAfter(r.setup, roles, p, r.remote.accepts(p, grant), grant) else roles
  {
    assert [p][..|[p]| - 1] == [];
    assert RolesAfterAll(r.setup, roles, [], r.remote.accepts, grant) == roles;
  }

  /** The workspace roles after the grants and then the revokes of a run. */
  function RolesRun(r: Route, roles: Roles, toGrant: seq<Permission>, toRevoke: seq<Permission>): Roles {
    RolesOn(r, RolesOn(r, roles, GrantsRun(r, toGrant), true), RevokesRun(r, toGrant, toRevoke), false)
  }

  function FiledAll(r: Route, roles: Roles, o: Outcomes, ps: seq<Permission>, grant: bool): Outcomes {
    if ps == [] then o
    else
      var last := |ps| - 1;
      Filed(FiledAll(r, roles, o, ps[..last], grant), ps[last].KeyOf(),
            OutcomeOf(r, RolesOn(r, roles, ps[..last], grant), ps[last], grant))
  }

  /** What a completed run records. */
  function FiledRun(r: Route, roles: Roles, toGrant: seq<Permission>, toRevoke: seq<Permission>): Outcomes {
    var grants := FiledAll(r, roles, Outcomes([], [], [], []), toGrant, true);
    FiledAll(r, RolesOn(r, roles, toGrant, true), grants, toRevoke, false)
  }

  lemma StoppedInGrants(r: Route, held: set<Grant>, roles: Roles, toGrant: seq<Permission>, toRevoke: seq<Permission>)
    requires Reach(r, toGrant, true) < |toGrant|
    ensures HeldRun(r, held, toGrant, toRevoke) == HeldAfterAll(r, held, GrantsRun(r, toGrant), true)
    ensures RolesRun(r, roles, toGrant, toRevoke) == RolesOn(r, roles, GrantsRun(r, toGrant), true)
    ensures ReportOf(r, roles, toGrant, toRevoke) == None
  {
  }

  lemma PastGrants(r: Route, held: set<Grant>, roles: Roles, toGrant: seq<Permission>, toRevoke: seq<Permission>)
    requires Reach(r, toGrant, true) == |toGrant|
    ensures var k := Reach(r, toRevoke, false);
            && HeldRun(r, held, toGrant, toRevoke) ==
                 HeldAfterAll(r, HeldAfterAll(r, held, toGrant, true), toRevoke[..k], false)
            && RolesRun(r, roles, toGrant, toRevoke) ==
                 RolesOn(r, RolesOn(r, roles, toGrant, true), toRevoke[..k], false)
            && ReportOf(r, roles, toGrant, toRevoke) ==
                 (if k == |toRevoke| then Some(FiledRun(r, roles, toGrant, toRevoke)) else None)
            && (k == |toRevoke| ==> toRevoke[..k] == toRevoke)
  {
    assert GrantsRun(r, toGrant) == toGrant;
  }

  /** Both platforms and the outcome lists in the middle of a run. */
  datatype RunState = RunState(held: set<Grant>, roles: Roles, filed: Outcomes)

  function StateAfter(r: Route, before: RunState, ps: seq<Permission>, grant: bool): RunState {
    RunState(HeldAfterAll(r, before.held, ps, grant), RolesOn(r, before.roles, ps, grant),
             FiledAll(r, before.roles, before.filed, ps, grant))
  }

  lemma ItemsMore(r: Route, before: RunState, ps: seq<Permission>, grant: bool, i: nat)
    requires i < |ps|
    ensures var s := StateAfter(r, before, ps[..i], grant);
            StateAfter(r, before, ps[..i + 1], grant) ==
              RunState(HeldAfter(r, s.held, ps[i], grant), RolesOn(r, s.roles, [ps[i]], grant),
                       Filed(s.filed, ps[i].KeyOf(), OutcomeOf(r, s.roles, ps[i], grant)))
  {
    assert ps[..i + 1][..i] == ps[..i];
    OneItem(r, RolesOn(r, before.roles, ps[..i], grant), ps[i], grant);
  }

  /** Everything recorded, in whichever list. */
  ghost function Recorded(o: Outcomes): multiset<Key> {
    multiset(o.granted) + multiset(o.revoked) + multiset(o.skipped) + multiset(o.errors)
  }

  /** Each dispatched item lands in exactly one outcome list. */
  lemma {:induction false} EachItemOnce(r: Route, roles: Roles, o: Outcomes, ps: seq<Permission>, grant: bool)
    ensures Recorded(FiledAll(r, roles, o, ps, grant)) == Recorded(o) + multiset(IdsOf(ps))
  {
    if ps != [] {
      var front, p := ps[..|ps| - 1], ps[|ps| - 1];
      EachItemOnce(r, roles, o, front, grant);
      IdsOfLast(ps);
      FiledOnce(FiledAll(r, roles, o, front, grant), p.KeyOf(),
                OutcomeOf(r, RolesOn(r, roles, front, grant), p, grant));
    }
  }

  lemma IdsOfLast(ps: seq<Permission>)
    requires ps != []
    ensures multiset(IdsOf(ps)) == multiset(IdsOf(ps[..|ps| - 1])) + multiset{ps[|ps| - 1].KeyOf()}
  {
    assert ps == ps[..|ps| - 1] + [ps[|ps| - 1]];
    IdsOfMore(ps[..|ps| - 1], ps[|ps| - 1]);
  }

  lemma FiledRunOnce(r: Route, roles: Roles, toGrant: seq<Permission>, toRevoke: seq<Permission>)
    ensures Recorded(FiledRun(r, roles, toGrant, toRevoke)) == multiset(IdsOf(toGrant)) + multiset(IdsOf(toRevoke))
  {
    var o := Outcomes([], [], [], []);
    EachItemOnce(r, roles, o, toGrant, true);
    EachItemOnce(r, RolesOn(r, roles, toGrant, true), FiledAll(r, roles, o, toGrant, true), toRevoke, false);
  }

  lemma FiledOnce(o: Outcomes, k: Key, outcome: Outcome)
    ensures Recorded(Filed(o, k, outcome)) == Recorded(o) + multiset{k}
  {
    match outcome
    case Granted => assert multiset(o.granted + [k]) == multiset(o.granted) + multiset{k};
    case Revoked => assert multiset(o.revoked + [k]) == multiset(o.revoked) + multiset{k};
    case Skipped => assert multiset(o.skipped + [k]) == multiset(o.skipped) + multiset{k};
    case DryRunWouldApply => assert multiset(o.skipped + [k]) == multiset(o.skipped) + multiset{k};
    case Failed => assert multiset(o.errors + [k]) == multiset(o.errors) + multiset{k};
  }

  /** The keys of a list, one per item. */
  function IdsOf(ps: seq<Permission>): seq<Key> {
    seq(|ps|, i requires 0 <= i < |ps| => ps[i].KeyOf())
  }

  lemma IdsOfMore(ps: seq<Permission>, p: Permission)
    ensures IdsOf(ps + [p]) == IdsOf(ps) + [p.KeyOf()]
  {
  }

  // ---------------------------------------------------------------- the whole reconcile

  function WinnerKeys(strategy: Strategy, current: seq<Permission>, desired: seq<Permission>): set<Key> {
    KeysOf(Winners(strategy, ConflictsOf(current, desired)))
  }

  function GrantKeys(strategy: Strategy, current: seq<Permission>, desired: seq<Permission>): set<Key> {
    (KeysOf(desired) - KeysOf(current)) + WinnerKeys(strategy, current, desired)
  }

  function RevokeKeys(current: seq<Permission>, desired: seq<Permission>): set<Key> {
    KeysOf(current) - KeysOf(desired)
  }

  datatype Direction = SourceToFabric | FabricToSource | Bidirectional

  /** Appends the winners whose key is not in the grant list yet. */
  method AppendWinners(granted: seq<Permission>, winners: seq<Permission>) returns (toGrant: seq<Permission>)
    ensures granted <= toGrant
    ensures forall p :: p in toGrant[|granted|..] ==> p in winners && p.KeyOf() !in KeysOf(granted)
    ensures KeysOf(toGrant) == KeysOf(granted) + KeysOf(winners)
  {
    toGrant := granted;
    var existing := KeysOf(granted);
    var i := 0;
    while i < |winners|
      invariant 0 <= i <= |winners| && granted <= toGrant
      invariant KeysOf(toGrant) == KeysOf(granted) + KeysOf(winners[..i])
      invariant forall p :: p in toGrant[|granted|..] ==> p in winners && p.KeyOf() !in KeysOf(granted)
    {
      assert winners[..i + 1] == winners[..i] + [winners[i]];
      KeysOfMore(winners[..i], winners[i]);
      KeysOfMore(toGrant, winners[i]);
      if winners[i].KeyOf() !in existing {
        toGrant := toGrant + [winners[i]];
      }
      i := i + 1;
    }
    assert winners[..i] == winners;
  }

  /** The lists a reconcile applies: those of a diff, with winners of its conflicts behind the grants. */
  ghost predicate Applies(strategy: Strategy, current: seq<Permission>, desired: seq<Permission>, d: Diff,
                          extra: seq<Permission>) {
    && IsDiff(d, current, desired)
    && (forall p :: p in extra ==> p in Winners(strategy, d.conflicts) && p.KeyOf() !in KeysOf(d.toGrant))
    && KeysOf(d.toGrant + extra) == KeysOf(d.toGrant) + KeysOf(Winners(strategy, d.conflicts))
  }

  /** What a reconcile along this route leaves on both platforms and reports, whatever the remote side answers. */
  ghost predicate Reconciles(r: Route, strategy: Strategy, current: seq<Permission>, desired: seq<Permission>,
                             held: set<Grant>, roles: Roles, held': set<Grant>, roles': Roles,
                             report: Option<Outcomes>) {
    exists d: Diff, extra: seq<Permission> ::
      && Applies(strategy, current, desired, d, extra)
      && held' == HeldRun(r, held, d.toGrant + extra, d.toRevoke)
      && roles' == RolesRun(r, roles, d.toGrant + extra, d.toRevoke)
      && report == ReportOf(r, roles, d.toGrant + extra, d.toRevoke)
  }

  /** The outcome lists of a run; none when an exception ends it. */
  function ReportOf(r: Route, roles: Roles, toGrant: seq<Permission>, toRevoke: seq<Permission>): Option<Outcomes> {
    if Completes(r, toGrant, toRevoke) then Some(FiledRun(r, roles, toGrant, toRevoke)) else None
  }

  ghost function ViewOf(result: Option<ApplyResult>): Option<Outcomes>
    reads if result.Some? then {result.value} else {}
  {
    if result.Some? then Some(result.value.View()) else None
  }

  lemma AppliedLists(strategy: Strategy, current: seq<Permission>, desired: seq<Permission>, d: Diff,
                     toGrant: seq<Permission>)
    requires IsDiff(d, current, desired) && d.toGrant <= toGrant
    requires forall p :: p in toGrant[|d.toGrant|..] ==>
               p in Winners(strategy, d.conflicts) && p.KeyOf() !in KeysOf(d.toGrant)
    requires KeysOf(toGrant) == KeysOf(d.toGrant) + KeysOf(Winners(strategy, d.conflicts))
    ensures toGrant == d.toGrant + toGrant[|d.toGrant|..]
    ensures Applies(strategy, current, desired, d, toGrant[|d.toGrant|..])
  {
    assert toGrant == d.toGrant + toGrant[|d.toGrant|..];
  }

  /** The current and the desired permissions of a direction: only fabric_to_source swaps the sides. */
  function Sides(source: seq<Permission>, target: seq<Permission>, direction: Direction)
    : (seq<Permission>, seq<Permission>)
  {
    if direction.FabricToSource? then (source, target) else (target, source)
  }

  /** The platform a direction writes. */
  function Written(direction: Direction, sourcePlatform: Target): Target {
    if direction.FabricToSource? then sourcePlatform else Fabric
  }

  /** Diff, winners, then apply, which is given no context: neither a workspace URL nor a connection. */
  method FullReconcile(source: seq<Permission>, target: seq<Permission>, direction: Direction, sourcePlatform: Target,
                       resolver: ConflictResolver, client: PolicyWeaverClient)
    returns (result: Option<ApplyResult>)
    modifies resolver`records, client.source`held, client.fabric`roles
    ensures result.Some? ==> fresh(result.value)
    ensures var (current, desired) := Sides(source, target, direction);
            && Reconciles(client.RouteTo(Written(direction, sourcePlatform), NO_CTX), resolver.strategy, current,
                          desired,
                          old(client.source.held), old(client.fabric.roles), client.source.held, client.fabric.roles,
                          ViewOf(result))
            && resolver.records == old(resolver.records)
                 + if resolver.strategy.Manual? then ConflictsOf(current, desired) else []
  {
    var desired, current, platform := source, target, Fabric;
    if direction.FabricToSource? {
      desired, current, platform := target, source, sourcePlatform;
    }
    var diff := ComputeDiff(current, desired);
    var winners := resolver.ResolveAll(diff.conflicts);
    var toGrant := AppendWinners(diff.toGrant, winners);
    result := client.ApplyDiff(toGrant, diff.toRevoke, platform, NO_CTX);
    AppliedLists(resolver.strategy, current, desired, diff, toGrant);
  }
}
