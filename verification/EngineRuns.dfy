/**
 What a reconcile towards a source comes to the way permission-sync/src/orchestrator/sync_engine.py calls it: the apply
 is given neither a workspace URL nor a connection, and Fabric's permissions name no Snowflake user or role.
 */
module EngineRuns {
  import opened Optional
  import opened Text
  import opened Canonical
  import opened FabricSync
  import opened SourceWriters
  import opened Reconcile
  import opened SourceConverges

  // ---------------------------------------------------------------- nothing written

  ghost predicate NothingWrites(r: Route) { forall p, g :: !Writes(r, p, g) }

  lemma {:induction false} HeldStays(r: Route, held: set<Grant>, ps: seq<Permission>, grant: bool)
    requires NothingWrites(r)
    ensures HeldAfterAll(r, held, ps, grant) == held
  {
    if ps != [] {
      HeldStays(r, held, ps[..|ps| - 1], grant);
    }
  }

  lemma RunStays(r: Route, held: set<Grant>, gs: seq<Permission>, rs: seq<Permission>)
    requires NothingWrites(r)
    ensures HeldRun(r, held, gs, rs) == held
  {
    HeldStays(r, held, GrantsRun(r, gs), true);
    HeldStays(r, held, RevokesRun(r, gs, rs), false);
  }

  /** The lists of a diff are empty exactly when the keys agree. */
  lemma EmptyDiff(d: Diff, current: seq<Permission>, desired: seq<Permission>)
    requires IsDiff(d, current, desired)
    ensures d.toGrant == [] && d.toRevoke == [] <==> KeysOf(current) == KeysOf(desired)
  {
    if KeysOf(current) == KeysOf(desired) {
      SecondDiffIsEmpty(d, current, desired);
    }
    if d.toGrant == [] && d.toRevoke == [] {
      assert KeysOf(d.toGrant) == {} && KeysOf(d.toRevoke) == {};
      forall k
        ensures k in KeysOf(current) <==> k in KeysOf(desired)
      {
        assert k !in KeysOf(desired) - KeysOf(current) && k !in KeysOf(current) - KeysOf(desired);
      }
    }
  }

  // ---------------------------------------------------------------- Unity Catalog without a workspace URL

  /** The route the engine writes a source on. */
  function EngineRoute(target: Target, m: Matrix, setup: Setup, remote: Remote): Route {
    Route(target, m, setup, NO_CTX, remote)
  }

  lemma NoUrlWritesNothing(m: Matrix, setup: Setup, remote: Remote)
    ensures NothingWrites(EngineRoute(UnityCatalog, m, setup, remote))
  {
  }

  /** The keys of the items whose class has a privilege, and of the others. */
  function Mapped(m: Matrix, ks: set<Key>): set<Key> { set k | k in ks && k.access in m.denormalize }

  function Elements(ks: seq<Key>): set<Key> { set k | k in ks }

  /** Of the items with these keys, the mapped ones are new errors, the others new skips, and that is all. */
  predicate AllFailed(m: Matrix, o: Outcomes, f: Outcomes, ks: set<Key>) {
    && f.granted == o.granted && f.revoked == o.revoked
    && Elements(f.errors) == Elements(o.errors) + Mapped(m, ks)
    && Elements(f.skipped) == Elements(o.skipped) + (ks - Mapped(m, ks))
  }

  lemma OneFails(m: Matrix, o: Outcomes, f: Outcomes, ks: set<Key>, k: Key)
    requires AllFailed(m, o, f, ks)
    ensures AllFailed(m, o, Filed(f, k, if k.access in m.denormalize then Failed else Skipped), ks + {k})
  {
    ElementsMore(f.errors, k);
    ElementsMore(f.skipped, k);
  }

  lemma {:induction false} AllFail(r: Route, roles: Roles, o: Outcomes, ps: seq<Permission>, grant: bool)
    requires r.target.UnityCatalog? && NothingWrites(r)
    ensures AllFailed(r.matrix, o, FiledAll(r, roles, o, ps, grant), KeysOf(ps))
  {
    if ps != [] {
      var front, p := ps[..|ps| - 1], ps[|ps| - 1];
      AllFail(r, roles, o, front, grant);
      OneFails(r.matrix, o, FiledAll(r, roles, o, front, grant), KeysOf(front), p.KeyOf());
      assert ps == front + [p];
      KeysOfMore(front, p);
      assert OutcomeOf(r, RolesOn(r, roles, front, grant), p, grant) ==
               if p.access in r.matrix.denormalize then Failed else Skipped;
    }
  }

  lemma ElementsMore(ks: seq<Key>, k: Key)
    ensures Elements(ks + [k]) == Elements(ks) + {k}
  {
  }

  lemma TwoListsFail(r: Route, roles: Roles, gs: seq<Permission>, rs: seq<Permission>)
    requires r.target.UnityCatalog? && NothingWrites(r)
    ensures ReportOf(r, roles, gs, rs) == Some(FiledRun(r, roles, gs, rs))
    ensures AllFailed(r.matrix, Outcomes([], [], [], []), FiledRun(r, roles, gs, rs), KeysOf(gs) + KeysOf(rs))
  {
    var o := Outcomes([], [], [], []);
    CompletesExactly(r, gs, rs);
    AllFail(r, roles, o, gs, true);
    AllFail(r, RolesOn(r, roles, gs, true), FiledAll(r, roles, o, gs, true), rs, false);
    assert Elements(o.errors) == {} && Elements(o.skipped) == {};
  }

  /** Nothing is written; of the items with these keys the mapped ones are errors and the others are skipped. */
  ghost predicate NothingDone(m: Matrix, ks: set<Key>, held: set<Grant>, roles: Roles, held': set<Grant>, roles': Roles,
                              report: Option<Outcomes>) {
    && held' == held && roles' == roles
    && report.Some? && AllFailed(m, Outcomes([], [], [], []), report.value, ks)
  }

  lemma UnityCatalogRun(m: Matrix, setup: Setup, remote: Remote, held: set<Grant>, roles: Roles, gs: seq<Permission>,
                        rs: seq<Permission>)
    ensures var r := EngineRoute(UnityCatalog, m, setup, remote);
            NothingDone(m, KeysOf(gs) + KeysOf(rs), held, roles, HeldRun(r, held, gs, rs), RolesRun(r, roles, gs, rs),
                        ReportOf(r, roles, gs, rs))
  {
    var r := EngineRoute(UnityCatalog, m, setup, remote);
    NoUrlWritesNothing(m, setup, remote);
    RunStays(r, held, gs, rs);
    TwoListsFail(r, roles, gs, rs);
  }

  /**
   Towards Unity Catalog the engine writes nothing,
     whatever the remote side would answer: every item with a privilege is
   an error, every other one is skipped, and the next discovery reads the desired keys if and only if they were there
   already.
   */
  lemma UnityCatalogIsNeverWritten(m: Matrix, setup: Setup, remote: Remote, strategy: Strategy,
                                   current: seq<Permission>, desired: seq<Permission>, held: set<Grant>, roles: Roles,
                                   held': set<Grant>, roles': Roles, report: Option<Outcomes>)
    requires Reconciles(EngineRoute(UnityCatalog, m, setup, remote), strategy, current, desired, held, roles, held',
                        roles', report)
    ensures held' == held && roles' == roles
    ensures KeysOf(current) == Collected(m, held) ==>
              (Collected(m, held') == KeysOf(desired) <==> KeysOf(current) == KeysOf(desired))
    ensures report.Some? && report.value.granted == [] && report.value.revoked == []
    ensures var ks := GrantKeys(strategy, current, desired) + RevokeKeys(current, desired);
            Elements(report.value.errors) == Mapped(m, ks) && Elements(report.value.skipped) == ks - Mapped(m, ks)
  {
    UnityCatalogReconciles(m, setup, remote, strategy, current, desired, held, roles, held', roles', report);
    assert Elements([]) == {};
  }

  lemma UnityCatalogReconciles(m: Matrix, setup: Setup, remote: Remote, strategy: Strategy, current: seq<Permission>,
                               desired: seq<Permission>, held: set<Grant>, roles: Roles, held': set<Grant>,
                               roles': Roles, report: Option<Outcomes>)
    requires Reconciles(EngineRoute(UnityCatalog, m, setup, remote), strategy, current, desired, held, roles, held',
                        roles', report)
    ensures NothingDone(m, GrantKeys(strategy, current, desired)
                          + RevokeKeys(current, desired), held, roles, held', roles',
                        report)
  {
    var r := EngineRoute(UnityCatalog, m, setup, remote);
    var d: Diff, extra: seq<Permission> :|
      && Applies(strategy, current, desired, d, extra)
      && held' == HeldRun(r, held, d.toGrant + extra, d.toRevoke)
      && roles' == RolesRun(r, roles, d.toGrant + extra, d.toRevoke)
      && report == ReportOf(r, roles, d.toGrant + extra, d.toRevoke);
    UnityCatalogRun(m, setup, remote, held, roles, d.toGrant + extra, d.toRevoke);
    ListKeys(strategy, current, desired, d, extra);
  }

  lemma ListKeys(strategy: Strategy, current: seq<Permission>, desired: seq<Permission>, d: Diff,
                 extra: seq<Permission>)
    requires Applies(strategy, current, desired, d, extra)
    ensures KeysOf(d.toGrant + extra) == GrantKeys(strategy, current, desired)
    ensures KeysOf(d.toRevoke) == RevokeKeys(current, desired)
  {
  }

  /** One Contributor and an empty catalog, if the calls were made. */
  lemma ContributorWouldConverge(strategy: Strategy, p: Permission)
    requires p.access == DATA_WRITE
    ensures Collected(UC_MATRIX, Reconciled(UC_MATRIX, {}, strategy, [], [p])) == KeysOf([p]) == {p.KeyOf()}
    ensures Collected(UC_MATRIX, {}) == {} == KeysOf([])
  {
    assert KeysOf([]) == {} && KeysOf([p]) == {p.KeyOf()} && Collected(UC_MATRIX, {}) == {};
    ShippedMatricesAreCoherent(UC_MATRIX);
    ShippedRoundTrips(UC_MATRIX, p.access);
    ReconcileConverges(UC_MATRIX, {}, strategy, [], [p]);
  }

  lemma ContributorIsMapped(strategy: Strategy, p: Permission)
    requires p.access == DATA_WRITE
    ensures p.KeyOf() in Mapped(UC_MATRIX, GrantKeys(strategy, [], [p]) + RevokeKeys([], [p]))
  {
    assert p.KeyOf() in KeysOf([p]) && p.KeyOf() !in KeysOf([]);
    assert p.KeyOf() in GrantKeys(strategy, [], [p]);
  }

  /**
   The failing case: one Contributor of Fabric and an empty catalog. Every desired class round-trips and nothing is
   revoked, so the reconcile would converge if its calls were made; as the engine calls it, the item is an error.
   */
  lemma ContributorIsNotWritten(setup: Setup, remote: Remote, strategy: Strategy, p: Permission, roles: Roles,
                                held': set<Grant>, roles': Roles, report: Option<Outcomes>)
    requires p.access == DATA_WRITE
    requires Reconciles(EngineRoute(UnityCatalog, UC_MATRIX, setup, remote), strategy, [], [p], {}, roles, held',
                        roles',
                        report)
    ensures Collected(UC_MATRIX, Reconciled(UC_MATRIX, {}, strategy, [], [p])) == KeysOf([p])
    ensures held' == {} && Collected(UC_MATRIX, held') != KeysOf([p])
    ensures report.Some? && p.KeyOf() in report.value.errors
  {
    ContributorWouldConverge(strategy, p);
    ContributorIsMapped(strategy, p);
    UnityCatalogIsNeverWritten(UC_MATRIX, setup, remote, strategy, [], [p], {}, roles, held', roles', report);
    assert p.KeyOf() in Elements(report.value.errors);
  }

  // ---------------------------------------------------------------- Snowflake

  /** Every permission is without a Snowflake user or role, as discovery of Fabric delivers them. */
  predicate Nameless(ps: seq<Permission>) { forall p :: p in ps ==> p.grantee == "" }

  /** A nameless item is skipped: it neither writes nor raises, with whatever connection. */
  lemma NamelessIsSkipped(r: Route, roles: Roles, p: Permission, grant: bool)
    requires r.target.Snowflake? && p.grantee == ""
    ensures !Writes(r, p, grant) && !Escapes(r, p, grant) && OutcomeOf(r, roles, p, grant) == Skipped
  {
  }

  /**
   Towards Snowflake no permission of Fabric is ever granted, even with a connection: a reconcile converges if and only
   if every desired key is there already and every revoke is dispatched, takes effect and leaves no second privilege.
   */
  lemma SnowflakeOnlyRevokes(r: Route, held: set<Grant>, strategy: Strategy, current: seq<Permission>,
                             desired: seq<Permission>, d: Diff, extra: seq<Permission>)
    requires r.target.Snowflake? && Nameless(desired)
    requires Coherent(r.matrix) && KeysOf(current) == Collected(r.matrix, held)
    requires Applies(strategy, current, desired, d, extra)
    ensures Collected(r.matrix, HeldRun(r, held, d.toGrant + extra, d.toRevoke)) == KeysOf(desired) <==>
              && KeysOf(desired) <= KeysOf(current)
              && (forall p :: p in d.toRevoke ==> Clears(r, RevokesRun(r, d.toGrant + extra, d.toRevoke), held, p))
  {
    ConvergesExactly(r, held, strategy, current, desired, d, extra);
    if d.toGrant != [] {
      var p := d.toGrant[0];
      GrantedIsNew(d, current, desired, p);
      NamelessIsSkipped(r, map[], p, true);
    } else {
      assert KeysOf(d.toGrant) == {};
      assert forall k :: k in KeysOf(desired) ==> k in KeysOf(current) || k in KeysOf(desired) - KeysOf(current);
    }
  }

  /** Without parameters no connection opens: there is no default connection. */
  ghost predicate NoDefault(remote: Remote) { forall p, g :: !remote.connects(map[], p, g).Opens? }

  /**
   As the engine calls it, without a connection, nothing is written to Snowflake,
     and the next discovery reads the desired
   keys if and only if they were there already. The run ends in an exception if and only if opening a connection raises
   for some item that gets that far.
   */
  lemma SnowflakeIsNeverWritten(m: Matrix, setup: Setup, remote: Remote, strategy: Strategy, current: seq<Permission>,
                                desired: seq<Permission>, d: Diff, extra: seq<Permission>, held: set<Grant>,
                                roles: Roles)
    requires NoDefault(remote) && Applies(strategy, current, desired, d, extra)
    ensures var r, all := EngineRoute(Snowflake, m, setup, remote), d.toGrant + extra;
            && HeldRun(r, held, all, d.toRevoke) == held
            && (KeysOf(current) == Collected(m, held) ==>
                  (Collected(m, HeldRun(r, held, all, d.toRevoke)) == KeysOf(desired) <==>
                     d.toGrant == [] && d.toRevoke == []))
            && (ReportOf(r, roles, all, d.toRevoke).None? <==>
                  || (exists p :: p in all && Connecting(r, p) && remote.connects(map[], p, true).Throws?)
                  || (exists p :: p in d.toRevoke && Connecting(r, p) && remote.connects(map[], p, false).Throws?))
  {
    var r, all := EngineRoute(Snowflake, m, setup, remote), d.toGrant + extra;
    RunStays(r, held, all, d.toRevoke);
    EmptyDiff(d, current, desired);
    CompletesExactly(r, all, d.toRevoke);
  }

  lemma BlankIsUnsafe(s: string, i: nat)
    requires i < |s| && s[i] == ' ' && s[|s| - 1] != '\n'
    ensures !SafeIdent(s)
  {
    assert s[i] in s && !IdentChar(' ');
  }

  /** A privilege of two words is no identifier: the class behind CREATE TABLE is never written to Snowflake. */
  lemma WorkspaceEditIsNeverWritten(r: Route, p: Permission, grant: bool)
    requires r.target.Snowflake? && r.matrix == SNOWFLAKE_MATRIX && p.access == WORKSPACE_EDIT
    ensures !Writes(r, p, grant) && !Escapes(r, p, grant)
  {
    var text := PrivilegeText(CREATE_TABLE);
    assert r.matrix.denormalize[p.access] == CREATE_TABLE;
    assert text[6] == ' ' && text[|text| - 1] == 'E';
    BlankIsUnsafe(text, 6);
  }
}
