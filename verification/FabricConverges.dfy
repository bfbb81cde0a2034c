/**
 When a reconcile towards Fabric converges: the service takes one role per principal and workspace, refuses a second
 one, and deletes by principal.
 */
module FabricConverges {
  import opened Optional
  import opened Canonical
  import opened FabricSync
  import opened SourceWriters
  import opened Reconcile

  // ---------------------------------------------------------------- the lists of a diff

  /** What is granted is desired and not there yet. */
  lemma GrantsAreNew(d: Diff, current: seq<Permission>, desired: seq<Permission>, p: Permission)
    requires IsDiff(d, current, desired) && p in d.toGrant
    ensures p in desired && p.KeyOf() !in KeysOf(current)
  {
    assert p.KeyOf() in KeysOf(d.toGrant);
    LastWithIsThere(desired, p.KeyOf());
  }

  lemma NewIsGranted(d: Diff, current: seq<Permission>, desired: seq<Permission>, k: Key) returns (p: Permission)
    requires IsDiff(d, current, desired) && k in KeysOf(desired) && k !in KeysOf(current)
    ensures p in d.toGrant && p.KeyOf() == k
  {
    assert k in KeysOf(d.toGrant);
    p :| p in d.toGrant && p.KeyOf() == k;
  }

  lemma OneItemPerKey(ps: seq<Permission>, p: Permission, q: Permission)
    requires DistinctKeys(ps) && p in ps && q in ps && p.KeyOf() == q.KeyOf()
    ensures p == q
  {
    var i :| 0 <= i < |ps| && ps[i] == p;
    var j :| 0 <= j < |ps| && ps[j] == q;
    assert i == j;
  }

  /** Winners stand where a role is assigned already: on the slot of the permission they conflict with. */
  lemma WinnersAreOccupied(f: Setup, roles: Roles, strategy: Strategy, current: seq<Permission>,
                           desired: seq<Permission>, w: Permission)
    requires Discovered(f, roles, current) && NamesApart(f) && AllLabelled(f, desired)
    requires w in Winners(strategy, ConflictsOf(current, desired))
    ensures SlotOf(w) in roles
  {
    ConflictsAreReal(current, desired);
    var c :| c in ConflictsOf(current, desired) && w == Winner(strategy, c);
    DiscoveredSlot(f, roles, current, c.target);
    assert Labelled(f, c.source);
  }

  // ---------------------------------------------------------------- one run, any answers

  /**
   A run towards Fabric: an accurate reading, lists of a diff with winners, and the parts of both that are dispatched.
   */
  ghost predicate Runs(f: Setup, roles: Roles, strategy: Strategy, current: seq<Permission>, desired: seq<Permission>,
                       d: Diff, extra: seq<Permission>, gs: seq<Permission>, rs: seq<Permission>) {
    && NamesApart(f) && Discovered(f, roles, current)
    && Applies(strategy, current, desired, d, extra)
    && (forall p :: p in gs ==> p in d.toGrant || p in extra)
    && (forall p :: p in rs ==> p in d.toRevoke)
  }

  function After(f: Setup, accepts: Answers, roles: Roles, gs: seq<Permission>, rs: seq<Permission>): Roles {
    RolesAfterAll(f, RolesAfterAll(f, roles, gs, accepts, true), rs, accepts, false)
  }

  /** What a slot holds in the end. */
  lemma SlotAfter(f: Setup, accepts: Answers, roles: Roles, strategy: Strategy, current: seq<Permission>,
                  desired: seq<Permission>, d: Diff, extra: seq<Permission>, gs: seq<Permission>, rs: seq<Permission>,
                  s: Slot)
    requires Runs(f, roles, strategy, current, desired, d, extra, gs, rs)
    ensures At(After(f, accepts, roles, gs, rs), s) ==
              if s in roles then (if s in SlotsOf(rs, accepts) then None else Some(roles[s]))
              else if !f.dryRun && FirstFor(f, accepts, gs, s).Some? then Plan(f, FirstFor(f, accepts, gs, s).value)
              else None
  {
    if f.dryRun {
      DryGrants(f, roles, gs, accepts);
    } else {
      AfterGrants(f, roles, gs, accepts, s);
    }
    AfterRevokes(f, RolesAfterAll(f, roles, gs, accepts, true), rs, accepts);
    if s !in roles && s in SlotsOf(rs, accepts) {
      var p :| p in rs && accepts(p, false) && SlotOf(p) == s;
      RevokedIsOccupied(f, roles, current, desired, d, p);
      assert false;
    }
  }

  /** What fills a free slot is an item of the diff, not a winner behind it. */
  lemma FilledByDiff(f: Setup, accepts: Answers, roles: Roles, strategy: Strategy, current: seq<Permission>,
                     desired: seq<Permission>, d: Diff, extra: seq<Permission>, gs: seq<Permission>,
                     rs: seq<Permission>, s: Slot)
    returns (p: Permission)
    requires Runs(f, roles, strategy, current, desired, d, extra, gs, rs)
    requires AllLabelled(f, desired) && s !in roles && FirstFor(f, accepts, gs, s).Some?
    ensures p == FirstFor(f, accepts, gs, s).value && p in gs && p in d.toGrant && Fills(f, accepts, p, s)
    ensures p in desired && p.KeyOf() !in KeysOf(current) && Labelled(f, p)
  {
    FirstForIs(f, accepts, gs, s);
    p := FirstFor(f, accepts, gs, s).value;
    if p in extra {
      WinnersAreOccupied(f, roles, strategy, current, desired, p);
    }
    GrantsAreNew(d, current, desired, p);
  }

  lemma RevokedIsOccupied(f: Setup, roles: Roles, current: seq<Permission>, desired: seq<Permission>, d: Diff,
                          p: Permission)
    requires Discovered(f, roles, current) && NamesApart(f) && IsDiff(d, current, desired) && p in d.toRevoke
    ensures var s := SlotOf(p);
            && s in roles && roles[s] in f.normalize && s.workspace in f.workspaces
            && p.KeyOf() == KeyAt(f, s, f.normalize[roles[s]]) && p.KeyOf() !in KeysOf(desired)
  {
    assert p.KeyOf() in KeysOf(d.toRevoke);
    LastWithIsThere(current, p.KeyOf());
    DiscoveredSlot(f, roles, current, p);
  }

  lemma UnwantedIsRevoked(f: Setup, roles: Roles, current: seq<Permission>, desired: seq<Permission>, d: Diff, s: Slot)
    returns (p: Permission)
    requires Discovered(f, roles, current) && NamesApart(f) && IsDiff(d, current, desired)
    requires s in roles && roles[s] in f.normalize && s.workspace in f.workspaces
    requires KeyAt(f, s, f.normalize[roles[s]]) !in KeysOf(desired)
    ensures p in d.toRevoke && SlotOf(p) == s && p.KeyOf() == KeyAt(f, s, f.normalize[roles[s]])
  {
    var k := KeyAt(f, s, f.normalize[roles[s]]);
    assert k in CollectedRoles(f, roles);
    assert k in KeysOf(d.toRevoke);
    p :| p in d.toRevoke && p.KeyOf() == k;
    LastWithIsThere(current, k);
    DiscoveredSlot(f, roles, current, p);
  }

  // ---------------------------------------------------------------- what is read afterwards

  /** What a slot is read as. */
  predicate Shows(f: Setup, r: Option<Role>, s: Slot, k: Key) {
    r.Some? && r.value in f.normalize && s.workspace in f.workspaces && k == KeyAt(f, s, f.normalize[r.value])
  }

  lemma CollectedShows(f: Setup, roles: Roles, k: Key)
    ensures k in CollectedRoles(f, roles) <==> exists s :: Shows(f, At(roles, s), s, k)
  {
    if k in CollectedRoles(f, roles) {
      var s :| s in roles && roles[s] in f.normalize && s.workspace in f.workspaces
          && k == KeyAt(f, s, f.normalize[roles[s]]);
      assert Shows(f, At(roles, s), s, k);
    }
  }

  /** A desired permission that is, or can become, the one role of its principal in its workspace. */
  predicate Placed(f: Setup, roles: Roles, current: seq<Permission>, p: Permission) {
    p.kind == WORKSPACE && FabricRoundTrips(f, p.access) && (p.KeyOf() in KeysOf(current) || SlotOf(p) !in roles)
  }

  /** One class per principal and workspace. */
  predicate OneClass(desired: seq<Permission>) {
    forall p, q :: p in desired && q in desired && SlotOf(p) == SlotOf(q) ==> p.access == q.access
  }

  /** The grant is dispatched, in a run that is not dry, and accepted. */
  predicate Given(f: Setup, accepts: Answers, gs: seq<Permission>, p: Permission) {
    p in gs && !f.dryRun && accepts(p, true)
  }

  /** The revoke is dispatched and accepted. */
  predicate Taken(accepts: Answers, rs: seq<Permission>, p: Permission) { p in rs && accepts(p, false) }

  /** Every desired permission has its place, and every item of the diff is carried out. */
  ghost predicate AllPlaced(f: Setup, accepts: Answers, roles: Roles, current: seq<Permission>,
                            desired: seq<Permission>,
                            d: Diff, gs: seq<Permission>, rs: seq<Permission>) {
    && (forall p :: p in desired ==> Placed(f, roles, current, p)) && OneClass(desired)
    && (forall p :: p in d.toGrant ==> Given(f, accepts, gs, p))
    && (forall p :: p in d.toRevoke ==> Taken(accepts, rs, p))
  }

  /** The slot of a desired key holds it in the end, if everything is placed. */
  lemma PlacedIsCollected(f: Setup, accepts: Answers, roles: Roles, strategy: Strategy, current: seq<Permission>,
                          desired: seq<Permission>, d: Diff, extra: seq<Permission>, gs: seq<Permission>,
                          rs: seq<Permission>, k: Key)
    requires Runs(f, roles, strategy, current, desired, d, extra, gs, rs)
    requires AllLabelled(f, desired)
    requires AllPlaced(f, accepts, roles, current, desired, d, gs, rs) && k in KeysOf(desired)
    ensures k in CollectedRoles(f, After(f, accepts, roles, gs, rs))
  {
    var after := After(f, accepts, roles, gs, rs);
    var s: Slot;
    if k in KeysOf(current) {
      s :| s in roles && roles[s] in f.normalize && s.workspace in f.workspaces
      && k == KeyAt(f, s, f.normalize[roles[s]]);
      SlotAfter(f, accepts, roles, strategy, current, desired, d, extra, gs, rs, s);
      if s in SlotsOf(rs, accepts) {
        var q :| q in rs && accepts(q, false) && SlotOf(q) == s;
        RevokedIsOccupied(f, roles, current, desired, d, q);
        assert false;
      }
    } else {
      var p := NewIsGranted(d, current, desired, k);
      s := SlotOf(p);
      GrantsAreNew(d, current, desired, p);
      assert Placed(f, roles, current, p) && Labelled(f, p) && Given(f, accepts, gs, p);
      SlotAfter(f, accepts, roles, strategy, current, desired, d, extra, gs, rs, s);
      FirstForIs(f, accepts, gs, s);
      assert Fills(f, accepts, p, s);
      var q := FilledByDiff(f, accepts, roles, strategy, current, desired, d, extra, gs, rs, s);
      assert q.access == p.access;
    }
    assert Shows(f, At(after, s), s, k);
    CollectedShows(f, after, k);
  }

  /** Nothing else is read then. */
  lemma CollectedIsDesired(f: Setup, accepts: Answers, roles: Roles, strategy: Strategy, current: seq<Permission>,
                           desired: seq<Permission>, d: Diff, extra: seq<Permission>, gs: seq<Permission>,
                           rs: seq<Permission>, k: Key)
    requires Runs(f, roles, strategy, current, desired, d, extra, gs, rs)
    requires AllLabelled(f, desired) && AllPlaced(f, accepts, roles, current, desired, d, gs, rs)
    requires k in CollectedRoles(f, After(f, accepts, roles, gs, rs))
    ensures k in KeysOf(desired)
  {
    var after := After(f, accepts, roles, gs, rs);
    CollectedShows(f, after, k);
    var s :| Shows(f, At(after, s), s, k);
    SlotAfter(f, accepts, roles, strategy, current, desired, d, extra, gs, rs, s);
    forall p | p in d.toRevoke && SlotOf(p) == s
      ensures s in SlotsOf(rs, accepts)
    {
      assert Taken(accepts, rs, p);
    }
    if s in roles {
      if k !in KeysOf(desired) {
        var p := UnwantedIsRevoked(f, roles, current, desired, d, s);
      }
    } else {
      var p := FilledByDiff(f, accepts, roles, strategy, current, desired, d, extra, gs, rs, s);
      assert Placed(f, roles, current, p);
      assert p.KeyOf() == k;
    }
  }

  /** A desired key that is read in the end was placed, and shows on its own slot. */
  lemma CollectedIsPlaced(f: Setup, accepts: Answers, roles: Roles, strategy: Strategy, current: seq<Permission>,
                          desired: seq<Permission>, d: Diff, extra: seq<Permission>, gs: seq<Permission>,
                          rs: seq<Permission>, p: Permission)
    requires Runs(f, roles, strategy, current, desired, d, extra, gs, rs) && FabricCoherent(f)
    requires AllLabelled(f, desired) && p in desired
    requires p.KeyOf() in CollectedRoles(f, After(f, accepts, roles, gs, rs))
    ensures Placed(f, roles, current, p)
    ensures Shows(f, At(After(f, accepts, roles, gs, rs), SlotOf(p)), SlotOf(p), p.KeyOf())
  {
    var after := After(f, accepts, roles, gs, rs);
    CollectedShows(f, after, p.KeyOf());
    var s :| Shows(f, At(after, s), s, p.KeyOf());
    assert Labelled(f, p);
    assert s == SlotOf(p);
    SlotAfter(f, accepts, roles, strategy, current, desired, d, extra, gs, rs, s);
    if s in roles {
      assert p.KeyOf() in CollectedRoles(f, roles);
    }
  }

  /** All desired keys are read in the end: every grant of the diff was carried out. */
  lemma CollectedWasGiven(f: Setup, accepts: Answers, roles: Roles, strategy: Strategy, current: seq<Permission>,
                          desired: seq<Permission>, d: Diff, extra: seq<Permission>, gs: seq<Permission>,
                          rs: seq<Permission>, p: Permission)
    requires Runs(f, roles, strategy, current, desired, d, extra, gs, rs) && FabricCoherent(f)
    requires AllLabelled(f, desired) && p in d.toGrant
    requires KeysOf(desired) <= CollectedRoles(f, After(f, accepts, roles, gs, rs))
    ensures Given(f, accepts, gs, p)
  {
    var s := SlotOf(p);
    GrantsAreNew(d, current, desired, p);
    assert p.KeyOf() in KeysOf(desired);
    CollectedIsPlaced(f, accepts, roles, strategy, current, desired, d, extra, gs, rs, p);
    SlotAfter(f, accepts, roles, strategy, current, desired, d, extra, gs, rs, s);
    var q := FilledByDiff(f, accepts, roles, strategy, current, desired, d, extra, gs, rs, s);
    assert q.KeyOf() in KeysOf(desired);
    CollectedIsPlaced(f, accepts, roles, strategy, current, desired, d, extra, gs, rs, q);
    assert Labelled(f, p);
    OneItemPerKey(d.toGrant, p, q);
  }

  /** A stale key that is not read in the end was taken away. */
  lemma UnreadWasTaken(f: Setup, accepts: Answers, roles: Roles, strategy: Strategy, current: seq<Permission>,
                       desired: seq<Permission>, d: Diff, extra: seq<Permission>, gs: seq<Permission>,
                       rs: seq<Permission>, p: Permission)
    requires Runs(f, roles, strategy, current, desired, d, extra, gs, rs) && p in d.toRevoke
    requires p.KeyOf() !in CollectedRoles(f, After(f, accepts, roles, gs, rs))
    ensures Taken(accepts, rs, p)
  {
    var s, after := SlotOf(p), After(f, accepts, roles, gs, rs);
    RevokedIsOccupied(f, roles, current, desired, d, p);
    SlotAfter(f, accepts, roles, strategy, current, desired, d, extra, gs, rs, s);
    CollectedShows(f, after, p.KeyOf());
    assert !Shows(f, At(after, s), s, p.KeyOf());
    assert s in SlotsOf(rs, accepts);
    var q :| q in rs && accepts(q, false) && SlotOf(q) == s;
    RevokedIsOccupied(f, roles, current, desired, d, q);
    OneItemPerKey(d.toRevoke, p, q);
  }

  /** Keys read off different classes of one slot differ, so what is read has one class per slot. */
  lemma ReadIsOneClass(f: Setup, after: Roles, desired: seq<Permission>)
    requires forall p :: p in desired ==> Shows(f, At(after, SlotOf(p)), SlotOf(p), p.KeyOf())
    ensures OneClass(desired)
  {
  }

  lemma RunConverges(f: Setup, accepts: Answers, roles: Roles, strategy: Strategy, current: seq<Permission>,
                     desired: seq<Permission>, d: Diff, extra: seq<Permission>, gs: seq<Permission>,
                     rs: seq<Permission>)
    requires Runs(f, roles, strategy, current, desired, d, extra, gs, rs) && FabricCoherent(f)
    requires AllLabelled(f, desired)
    ensures CollectedRoles(f, After(f, accepts, roles, gs, rs)) == KeysOf(desired) <==>
              AllPlaced(f, accepts, roles, current, desired, d, gs, rs)
  {
    var after := After(f, accepts, roles, gs, rs);
    if CollectedRoles(f, after) == KeysOf(desired) {
      forall p | p in desired
        ensures Placed(f, roles, current, p) && Shows(f, At(after, SlotOf(p)), SlotOf(p), p.KeyOf())
      {
        assert p.KeyOf() in KeysOf(desired);
        CollectedIsPlaced(f, accepts, roles, strategy, current, desired, d, extra, gs, rs, p);
      }
      ReadIsOneClass(f, after, desired);
      forall p | p in d.toGrant
        ensures Given(f, accepts, gs, p)
      {
        CollectedWasGiven(f, accepts, roles, strategy, current, desired, d, extra, gs, rs, p);
      }
      forall p | p in d.toRevoke
        ensures Taken(accepts, rs, p)
      {
        RevokedIsOccupied(f, roles, current, desired, d, p);
        UnreadWasTaken(f, accepts, roles, strategy, current, desired, d, extra, gs, rs, p);
      }
    } else if AllPlaced(f, accepts, roles, current, desired, d, gs, rs) {
      forall k
        ensures k in CollectedRoles(f, after) <==> k in KeysOf(desired)
      {
        if k in KeysOf(desired) {
          PlacedIsCollected(f, accepts, roles, strategy, current, desired, d, extra, gs, rs, k);
        }
        if k in CollectedRoles(f, after) {
          CollectedIsDesired(f, accepts, roles, strategy, current, desired, d, extra, gs, rs, k);
        }
      }
    }
  }

  /** The run of a route to Fabric, as far as it gets. */
  lemma DispatchedRun(r: Route, roles: Roles, strategy: Strategy, current: seq<Permission>, desired: seq<Permission>,
                      d: Diff, extra: seq<Permission>)
    requires r.target.Fabric? && NamesApart(r.setup) && Discovered(r.setup, roles, current)
    requires Applies(strategy, current, desired, d, extra)
    ensures var gs, rs := GrantsRun(r, d.toGrant + extra), RevokesRun(r, d.toGrant + extra, d.toRevoke);
            && Runs(r.setup, roles, strategy, current, desired, d, extra, gs, rs)
            && RolesRun(r, roles, d.toGrant + extra, d.toRevoke) == After(r.setup, r.remote.accepts, roles, gs, rs)
  {
  }

  /**
   Convergence towards Fabric, exactly, whatever the service answers and wherever an exception ends the run: with
   workspace names that differ and an accurate discovery before, the next discovery reads the desired keys, under every
   strategy, if and only if each desired permission is of kind workspace with a class that round-trips and is there
   already or has its place free, no principal is to have two classes in one workspace, every grant of the diff is
   dispatched in a run that is not dry and accepted, and every revoke of it is dispatched and accepted.
   */
  lemma FabricConvergesExactly(r: Route, before: Roles, strategy: Strategy, current: seq<Permission>,
                               desired: seq<Permission>, d: Diff, extra: seq<Permission>)
    requires r.target.Fabric? && NamesApart(r.setup) && FabricCoherent(r.setup)
    requires Discovered(r.setup, before, current) && AllLabelled(r.setup, desired)
    requires Applies(strategy, current, desired, d, extra)
    ensures var all, f := d.toGrant + extra, r.setup;
            CollectedRoles(f, RolesRun(r, before, all, d.toRevoke)) == KeysOf(desired) <==>
              && (forall p :: p in desired ==> Placed(f, before, current, p)) && OneClass(desired)
              && (forall p :: p in d.toGrant ==> Given(f, r.remote.accepts, GrantsRun(r, all), p))
              && (forall p :: p in d.toRevoke ==> Taken(r.remote.accepts, RevokesRun(r, all, d.toRevoke), p))
  {
    var all := d.toGrant + extra;
    DispatchedRun(r, before, strategy, current, desired, d, extra);
    RunConverges(r.setup, r.remote.accepts, before, strategy, current, desired, d, extra, GrantsRun(r, all),
                 RevokesRun(r, all, d.toRevoke));
  }

  // ---------------------------------------------------------------- every call accepted

  /** The workspace roles that a reconcile towards Fabric leaves. */
  ghost predicate FabricReconciled(r: Route, before: Roles, after: Roles, strategy: Strategy, current: seq<Permission>,
                                   desired: seq<Permission>) {
    exists d: Diff, extra: seq<Permission> ::
      && Applies(strategy, current, desired, d, extra)
      && after == RolesRun(r, before, d.toGrant + extra, d.toRevoke)
  }

  /** A reconcile of the engine that writes Fabric. */
  lemma EngineReconcilesFabric(r: Route, strategy: Strategy, current: seq<Permission>, desired: seq<Permission>,
                               held: set<Grant>, roles: Roles, held': set<Grant>, roles': Roles,
                               report: Option<Outcomes>)
    requires r.target.Fabric? && Reconciles(r, strategy, current, desired, held, roles, held', roles', report)
    ensures FabricReconciled(r, roles, roles', strategy, current, desired) && held' == held
  {
    var d: Diff, extra: seq<Permission> :|
      && Applies(strategy, current, desired, d, extra)
      && held' == HeldRun(r, held, d.toGrant + extra, d.toRevoke)
      && roles' == RolesRun(r, roles, d.toGrant + extra, d.toRevoke)
      && report == ReportOf(r, roles, d.toGrant + extra, d.toRevoke);
    HeldUntouched(r, held, GrantsRun(r, d.toGrant + extra), true);
    HeldUntouched(r, held, RevokesRun(r, d.toGrant + extra, d.toRevoke), false);
  }

  lemma {:induction false} HeldUntouched(r: Route, held: set<Grant>, ps: seq<Permission>, grant: bool)
    requires r.target.Fabric?
    ensures HeldAfterAll(r, held, ps, grant) == held
  {
    if ps != [] {
      HeldUntouched(r, held, ps[..|ps| - 1], grant);
    }
  }

  /** Every call is answered, and accepted if the state of the platform allows it. */
  ghost predicate AllAccepting(r: Route) {
    r.target.Fabric? && (forall p, g :: r.remote.accepts(p, g)) && (forall p, g :: !r.remote.breaks(p, g))
  }

  lemma AcceptedRun(r: Route, gs: seq<Permission>, rs: seq<Permission>)
    requires AllAccepting(r)
    ensures GrantsRun(r, gs) == gs && RevokesRun(r, gs, rs) == rs
  {
    CompletesExactly(r, gs, rs);
  }

  lemma AcceptedItems(r: Route, gs: seq<Permission>, extra: seq<Permission>, rs: seq<Permission>)
    requires AllAccepting(r) && !r.setup.dryRun
    ensures forall p :: p in gs ==> Given(r.setup, r.remote.accepts, GrantsRun(r, gs + extra), p)
    ensures forall p :: p in rs ==> Taken(r.remote.accepts, RevokesRun(r, gs + extra, rs), p)
  {
    AcceptedRun(r, gs + extra, rs);
  }

  /**
   With every call accepted in a run that is not dry, it converges if and only if each desired permission has its place
   and no principal is to have two classes in one workspace.
   */
  lemma FabricReconcileConverges(r: Route, before: Roles, after: Roles, strategy: Strategy, current: seq<Permission>,
                                 desired: seq<Permission>)
    requires AllAccepting(r) && !r.setup.dryRun && NamesApart(r.setup) && FabricCoherent(r.setup)
    requires Discovered(r.setup, before, current) && AllLabelled(r.setup, desired)
    requires FabricReconciled(r, before, after, strategy, current, desired)
    ensures CollectedRoles(r.setup, after) == KeysOf(desired) <==>
              (forall p :: p in desired ==> Placed(r.setup, before, current, p)) && OneClass(desired)
  {
    var d: Diff, extra: seq<Permission> :|
      && Applies(strategy, current, desired, d, extra)
      && after == RolesRun(r, before, d.toGrant + extra, d.toRevoke);
    AcceptedItems(r, d.toGrant, extra, d.toRevoke);
    FabricConvergesExactly(r, before, strategy, current, desired, d, extra);
  }

  // ---------------------------------------------------------------- consequences

  /** What an accepted run, dry or not, leaves on a slot that is occupied. */
  lemma OccupiedAfter(r: Route, before: Roles, after: Roles, strategy: Strategy, current: seq<Permission>,
                      desired: seq<Permission>, s: Slot)
    requires AllAccepting(r) && NamesApart(r.setup) && Discovered(r.setup, before, current)
    requires FabricReconciled(r, before, after, strategy, current, desired) && s in before
    ensures var f := r.setup;
            At(after, s) == if before[s] in f.normalize && s.workspace in f.workspaces
                               && KeyAt(f, s, f.normalize[before[s]]) !in KeysOf(desired)
                            then None else Some(before[s])
  {
    var f := r.setup;
    var d: Diff, extra: seq<Permission> :|
      && Applies(strategy, current, desired, d, extra)
      && after == RolesRun(r, before, d.toGrant + extra, d.toRevoke);
    var all := d.toGrant + extra;
    AcceptedRun(r, all, d.toRevoke);
    DispatchedRun(r, before, strategy, current, desired, d, extra);
    SlotAfter(f, r.remote.accepts, before, strategy, current, desired, d, extra, all, d.toRevoke, s);
    if before[s] in f.normalize && s.workspace in f.workspaces
       && KeyAt(f, s, f.normalize[before[s]]) !in KeysOf(desired) {
      var p := UnwantedIsRevoked(f, before, current, desired, d, s);
      assert s in SlotsOf(d.toRevoke, r.remote.accepts);
    } else if s in SlotsOf(d.toRevoke, r.remote.accepts) {
      var p :| p in d.toRevoke && r.remote.accepts(p, false) && SlotOf(p) == s;
      RevokedIsOccupied(f, before, current, desired, d, p);
    }
  }

  /**
   What the sources deliver is never of kind workspace: a run that is not dry then converges only towards nothing,
   and it takes away every workspace role that discovery can read.
   */
  lemma SourceListsRevokeEverything(r: Route, before: Roles, after: Roles, strategy: Strategy, current: seq<Permission>,
                                    desired: seq<Permission>, s: Slot)
    requires AllAccepting(r) && !r.setup.dryRun && NamesApart(r.setup) && FabricCoherent(r.setup)
    requires Discovered(r.setup, before, current)
    requires FabricReconciled(r, before, after, strategy, current, desired)
    requires forall p :: p in desired ==> p.kind != WORKSPACE
    ensures CollectedRoles(r.setup, after) == KeysOf(desired) <==> desired == []
    ensures s in before && before[s] in r.setup.normalize && s.workspace in r.setup.workspaces ==> s !in after
  {
    FabricReconcileConverges(r, before, after, strategy, current, desired);
    if desired != [] {
      assert !Placed(r.setup, before, current, desired[0]);
    }
    if s in before {
      OccupiedAfter(r, before, after, strategy, current, desired, s);
    }
  }

  /** A dry run writes no role, but it revokes: exactly the roles that are read and not desired are gone. */
  lemma DryRunRevokes(r: Route, before: Roles, after: Roles, strategy: Strategy, current: seq<Permission>,
                      desired: seq<Permission>, s: Slot)
    requires AllAccepting(r) && r.setup.dryRun && NamesApart(r.setup) && Discovered(r.setup, before, current)
    requires FabricReconciled(r, before, after, strategy, current, desired)
    ensures var f := r.setup;
            At(after, s) == if s in before && before[s] in f.normalize && s.workspace in f.workspaces
                               && KeyAt(f, s, f.normalize[before[s]]) !in KeysOf(desired)
                            then None else At(before, s)
  {
    if s in before {
      OccupiedAfter(r, before, after, strategy, current, desired, s);
    } else {
      var d: Diff, extra: seq<Permission> :|
        && Applies(strategy, current, desired, d, extra)
        && after == RolesRun(r, before, d.toGrant + extra, d.toRevoke);
      DispatchedRun(r, before, strategy, current, desired, d, extra);
      SlotAfter(r.setup, r.remote.accepts, before, strategy, current, desired, d, extra,
                GrantsRun(r, d.toGrant + extra), RevokesRun(r, d.toGrant + extra, d.toRevoke), s);
    }
  }

  /**
   The failing case with two roles: a principal that is to move from one role to another in a workspace ends with
   none there, because the grant is refused while the old role is assigned and the revoke then deletes it.
   */
  lemma MovedPrincipalEndsWithNothing(r: Route, before: Roles, after: Roles, strategy: Strategy,
                                      current: seq<Permission>, desired: seq<Permission>, p: Permission)
    requires AllAccepting(r) && NamesApart(r.setup) && Discovered(r.setup, before, current)
    requires AllLabelled(r.setup, desired) && OneClass(desired)
    requires FabricReconciled(r, before, after, strategy, current, desired)
    requires p in desired && p.kind == WORKSPACE && SlotOf(p) in before && p.KeyOf() !in KeysOf(current)
    requires before[SlotOf(p)] in r.setup.normalize
    ensures SlotOf(p) !in after
  {
    var f, s := r.setup, SlotOf(p);
    assert Labelled(f, p);
    var k := KeyAt(f, s, f.normalize[before[s]]);
    assert k in CollectedRoles(f, before);
    assert p.KeyOf() != k;
    forall q | q in desired
      ensures q.KeyOf() != k
    {
      assert Labelled(f, q);
      assert SlotOf(q) == s ==> q.access == p.access;
    }
    OccupiedAfter(r, before, after, strategy, current, desired, s);
  }
}
