/**
 When a reconcile towards Unity Catalog or Snowflake converges: exactly, for any answers of the remote side, and as
 the engine calls it, without a workspace URL and without a connection.
 */
module SourceConverges {
  import opened Optional
  import opened Text
  import opened Canonical
  import opened FabricSync
  import opened SourceWriters
  import opened Reconcile

  /** The keys a new discovery reads off the platform. */
  function Collected(m: Matrix, held: set<Grant>): set<Key> {
    set g | g in held && g.privilege in m.normalize :: ReadAs(m, g)
  }

  function ReadAs(m: Matrix, g: Grant): Key
    requires g.privilege in m.normalize
  {
    Key(g.principal, m.normalize[g.privilege], g.fqn, g.kind)
  }

  predicate Reads(m: Matrix, g: Grant, k: Key) { g.privilege in m.normalize && k == ReadAs(m, g) }

  /** Granting this class on the platform is read back as this class. */
  predicate RoundTrips(m: Matrix, access: Access) {
    access in m.denormalize && m.denormalize[access] in m.normalize && m.normalize[m.denormalize[access]] == access
  }

  /** Every class a privilege can be read as round-trips. */
  predicate Coherent(m: Matrix) {
    forall raw :: raw in m.normalize ==> RoundTrips(m, m.normalize[raw])
  }

  /** Some privilege of class k other than the one a revoke removes is held. */
  predicate Residual(m: Matrix, held: set<Grant>, k: Key) {
    exists g :: g in held && Reads(m, g, k) && (k.access in m.denormalize ==> g.privilege != m.denormalize[k.access])
  }

  // ---------------------------------------------------------------- the lists of a diff

  lemma GrantedIsNew(d: Diff, current: seq<Permission>, desired: seq<Permission>, p: Permission)
    requires IsDiff(d, current, desired) && p in d.toGrant
    ensures p in desired && p.KeyOf() in KeysOf(desired) && p.KeyOf() !in KeysOf(current)
  {
    assert p.KeyOf() in KeysOf(d.toGrant);
    LastWithIsThere(desired, p.KeyOf());
  }

  lemma RevokedIsStale(d: Diff, current: seq<Permission>, desired: seq<Permission>, p: Permission)
    requires IsDiff(d, current, desired) && p in d.toRevoke
    ensures p in current && p.KeyOf() in KeysOf(current) && p.KeyOf() !in KeysOf(desired)
  {
    assert p.KeyOf() in KeysOf(d.toRevoke);
    LastWithIsThere(current, p.KeyOf());
  }

  /** A winner behind the grants has a key that is there already. */
  lemma ExtraIsCurrent(strategy: Strategy, d: Diff, extra: seq<Permission>, current: seq<Permission>,
                       desired: seq<Permission>, p: Permission)
    requires Applies(strategy, current, desired, d, extra) && p in extra
    ensures p.KeyOf() in KeysOf(current)
  {
    WinnersComeFromTheLists(strategy, current, desired);
    assert p.KeyOf() in WinnerKeys(strategy, current, desired);
  }

  lemma WinnersComeFromTheLists(strategy: Strategy, current: seq<Permission>, desired: seq<Permission>)
    ensures strategy.TargetWins? ==> WinnerKeys(strategy, current, desired) <= KeysOf(current)
    ensures !strategy.TargetWins? ==> WinnerKeys(strategy, current, desired) <= KeysOf(desired)
    ensures strategy.Manual? ==> WinnerKeys(strategy, current, desired) == {}
  {
    ConflictsAreReal(current, desired);
  }

  lemma SameKeySameItem(ps: seq<Permission>, p: Permission, q: Permission)
    requires DistinctKeys(ps) && p in ps && q in ps && p.KeyOf() == q.KeyOf()
    ensures p == q
  {
    var i :| 0 <= i < |ps| && ps[i] == p;
    var j :| 0 <= j < |ps| && ps[j] == q;
    assert i == j;
  }

  /** What is read has a class that round-trips, so the privilege of its class reads as it. */
  lemma CurrentRoundTrips(m: Matrix, held: set<Grant>, current: seq<Permission>, p: Permission)
    requires Coherent(m) && KeysOf(current) == Collected(m, held) && p.KeyOf() in KeysOf(current)
    ensures RoundTrips(m, p.access) && Reads(m, GrantFor(m, p), p.KeyOf())
  {
    var g :| g in held && g.privilege in m.normalize && p.KeyOf() == ReadAs(m, g);
  }

  // ---------------------------------------------------------------- one run, any answers

  /** The item was dispatched and took effect, and the class it grants is read back as itself. */
  predicate Lands(r: Route, run: seq<Permission>, p: Permission) {
    p in run && Writes(r, p, true) && RoundTrips(r.matrix, p.access)
  }

  /** The item was dispatched and took effect, and no second privilege keeps its key. */
  predicate Clears(r: Route, run: seq<Permission>, held: set<Grant>, p: Permission) {
    p in run && Writes(r, p, false) && !Residual(r.matrix, held, p.KeyOf())
  }

  /**
   What a run works on: an accurate reading, the lists of a diff with winners, and parts of both that are dispatched.
   */
  ghost predicate Runs(r: Route, held: set<Grant>, strategy: Strategy, current: seq<Permission>,
                       desired: seq<Permission>, d: Diff, extra: seq<Permission>,
                       gs: seq<Permission>, rs: seq<Permission>) {
    && Coherent(r.matrix) && KeysOf(current) == Collected(r.matrix, held)
    && Applies(strategy, current, desired, d, extra)
    && (forall p :: p in gs ==> p in d.toGrant || p in extra)
    && (forall p :: p in rs ==> p in d.toRevoke)
  }

  function After(r: Route, held: set<Grant>, gs: seq<Permission>, rs: seq<Permission>): set<Grant> {
    HeldAfterAll(r, HeldAfterAll(r, held, gs, true), rs, false)
  }

  lemma AfterHas(r: Route, held: set<Grant>, gs: seq<Permission>, rs: seq<Permission>, g: Grant)
    ensures g in After(r, held, gs, rs) <==> (g in held || WrittenIn(r, gs, true, g)) && !WrittenIn(r, rs, false, g)
  {
    HeldAfterItems(r, held, gs, true, g);
    HeldAfterItems(r, HeldAfterAll(r, held, gs, true), rs, false, g);
  }

  /** A revoke removes only privileges that read as its own key, and that key is not desired. */
  lemma RevokedReadsStale(r: Route, held: set<Grant>, strategy: Strategy, current: seq<Permission>,
                          desired: seq<Permission>, d: Diff, extra: seq<Permission>, gs: seq<Permission>,
                          rs: seq<Permission>, g: Grant)
    returns (q: Permission)
    requires Runs(r, held, strategy, current, desired, d, extra, gs, rs) && WrittenIn(r, rs, false, g)
    ensures q in rs && q in d.toRevoke && Writes(r, q, false) && GrantFor(r.matrix, q) == g
    ensures Reads(r.matrix, g, q.KeyOf()) && q.KeyOf() !in KeysOf(desired)
  {
    q :| q in rs && Writes(r, q, false) && GrantFor(r.matrix, q) == g;
    RevokedIsStale(d, current, desired, q);
    CurrentRoundTrips(r.matrix, held, current, q);
  }

  /** The stale key of a privilege in hand: its item is dispatched and effective exactly when the privilege goes. */
  lemma StaleIsRevoked(r: Route, held: set<Grant>, strategy: Strategy, current: seq<Permission>,
                       desired: seq<Permission>, d: Diff, extra: seq<Permission>, gs: seq<Permission>,
                       rs: seq<Permission>, k: Key)
    returns (p: Permission)
    requires Runs(r, held, strategy, current, desired, d, extra, gs, rs)
    requires k in KeysOf(current) && k !in KeysOf(desired)
    ensures p in d.toRevoke && p.KeyOf() == k && RoundTrips(r.matrix, p.access)
    ensures Reads(r.matrix, GrantFor(r.matrix, p), k)
  {
    assert k in KeysOf(d.toRevoke);
    p :| p in d.toRevoke && p.KeyOf() == k;
    CurrentRoundTrips(r.matrix, held, current, p);
  }

  /** If every item of the diff lands or clears, exactly the desired keys are read afterwards. */
  lemma DesiredIsRead(r: Route, held: set<Grant>, strategy: Strategy, current: seq<Permission>,
                      desired: seq<Permission>, d: Diff, extra: seq<Permission>, gs: seq<Permission>,
                      rs: seq<Permission>, k: Key)
    requires Runs(r, held, strategy, current, desired, d, extra, gs, rs)
    requires (forall p :: p in d.toGrant ==> Lands(r, gs, p)) && k in KeysOf(desired)
    ensures k in Collected(r.matrix, After(r, held, gs, rs))
  {
    var g: Grant;
    if k in KeysOf(current) {
      g :| g in held && g.privilege in r.matrix.normalize && k == ReadAs(r.matrix, g);
    } else {
      assert k in KeysOf(d.toGrant);
      var p :| p in d.toGrant && p.KeyOf() == k;
      assert Lands(r, gs, p);
      g := GrantFor(r.matrix, p);
      assert WrittenIn(r, gs, true, g);
    }
    AfterHas(r, held, gs, rs, g);
    if WrittenIn(r, rs, false, g) {
      var q := RevokedReadsStale(r, held, strategy, current, desired, d, extra, gs, rs, g);
      assert false;
    }
  }

  /** A privilege in hand afterwards reads as a key that was there, or as one that was granted. */
  lemma GrantedReads(r: Route, held: set<Grant>, strategy: Strategy, current: seq<Permission>,
                     desired: seq<Permission>, d: Diff, extra: seq<Permission>, gs: seq<Permission>,
                     rs: seq<Permission>, g: Grant)
    returns (q: Permission)
    requires Runs(r, held, strategy, current, desired, d, extra, gs, rs) && WrittenIn(r, gs, true, g)
    ensures q in gs && Writes(r, q, true) && GrantFor(r.matrix, q) == g && (q in d.toGrant || q in extra)
    ensures q in extra ==> q.KeyOf() in KeysOf(current) && Reads(r.matrix, g, q.KeyOf())
  {
    q :| q in gs && Writes(r, q, true) && GrantFor(r.matrix, q) == g;
    if q in extra {
      ExtraIsCurrent(strategy, d, extra, current, desired, q);
      CurrentRoundTrips(r.matrix, held, current, q);
    }
  }

  /** Once an item has cleared, no privilege of its key that was held or granted is left. */
  lemma ClearedIsGone(r: Route, held: set<Grant>, rs: seq<Permission>, p: Permission, g: Grant)
    requires Clears(r, rs, held, p) && Reads(r.matrix, g, p.KeyOf())
    requires p.access in r.matrix.denormalize
    requires g in held || g.privilege == r.matrix.denormalize[p.access]
    ensures WrittenIn(r, rs, false, g)
  {
    assert g == GrantFor(r.matrix, p);
  }

  lemma ReadIsDesired(r: Route, held: set<Grant>, strategy: Strategy, current: seq<Permission>,
                      desired: seq<Permission>, d: Diff, extra: seq<Permission>, gs: seq<Permission>,
                      rs: seq<Permission>, k: Key)
    requires Runs(r, held, strategy, current, desired, d, extra, gs, rs)
    requires forall p :: p in d.toGrant ==> Lands(r, gs, p)
    requires forall p :: p in d.toRevoke ==> Clears(r, rs, held, p)
    requires k in Collected(r.matrix, After(r, held, gs, rs))
    ensures k in KeysOf(desired)
  {
    var m := r.matrix;
    var g :| g in After(r, held, gs, rs) && g.privilege in m.normalize && k == ReadAs(m, g);
    AfterHas(r, held, gs, rs, g);
    if g in held {
      assert k in KeysOf(current);
    } else {
      var q := GrantedReads(r, held, strategy, current, desired, d, extra, gs, rs, g);
      if q in d.toGrant {
        GrantedIsNew(d, current, desired, q);
        assert Lands(r, gs, q);
      } else {
        assert g.privilege == m.denormalize[k.access];
      }
    }
    if k in KeysOf(current) && k !in KeysOf(desired) {
      var p := StaleIsRevoked(r, held, strategy, current, desired, d, extra, gs, rs, k);
      ClearedIsGone(r, held, rs, p, g);
    }
  }

  /** A desired key that is read in the end landed, if it was granted. */
  lemma ReadHasLanded(r: Route, held: set<Grant>, strategy: Strategy, current: seq<Permission>,
                      desired: seq<Permission>, d: Diff, extra: seq<Permission>, gs: seq<Permission>,
                      rs: seq<Permission>, p: Permission)
    requires Runs(r, held, strategy, current, desired, d, extra, gs, rs)
    requires KeysOf(desired) <= Collected(r.matrix, After(r, held, gs, rs)) && p in d.toGrant
    ensures Lands(r, gs, p)
  {
    var m, after := r.matrix, After(r, held, gs, rs);
    GrantedIsNew(d, current, desired, p);
    var k := p.KeyOf();
    assert k in Collected(m, after);
    var g :| g in after && g.privilege in m.normalize && k == ReadAs(m, g);
    AfterHas(r, held, gs, rs, g);
    assert g !in held;
    var q := GrantedReads(r, held, strategy, current, desired, d, extra, gs, rs, g);
    if q in d.toGrant {
      GrantedIsNew(d, current, desired, q);
      assert q.KeyOf() in Collected(m, after);
      ReadRoundTrips(m, after, q.KeyOf());
      SameKeySameItem(d.toGrant, p, q);
    }
  }

  lemma ReadRoundTrips(m: Matrix, held: set<Grant>, k: Key)
    requires Coherent(m) && k in Collected(m, held)
    ensures RoundTrips(m, k.access)
  {
    var g :| g in held && g.privilege in m.normalize && k == ReadAs(m, g);
  }

  /** A stale key that is not read in the end was cleared. */
  lemma UnreadWasCleared(r: Route, held: set<Grant>, strategy: Strategy, current: seq<Permission>,
                         desired: seq<Permission>, d: Diff, extra: seq<Permission>, gs: seq<Permission>,
                         rs: seq<Permission>, p: Permission)
    requires Runs(r, held, strategy, current, desired, d, extra, gs, rs)
    requires p in d.toRevoke && p.KeyOf() !in Collected(r.matrix, After(r, held, gs, rs))
    ensures Clears(r, rs, held, p)
  {
    var k := p.KeyOf();
    RevokedIsStale(d, current, desired, p);
    forall h | h in held && Reads(r.matrix, h, k)
      ensures p in rs && Writes(r, p, false) && h == GrantFor(r.matrix, p)
    {
      AfterHas(r, held, gs, rs, h);
      assert h !in After(r, held, gs, rs);
      var q := RevokedReadsStale(r, held, strategy, current, desired, d, extra, gs, rs, h);
      SameKeySameItem(d.toRevoke, p, q);
    }
    var g :| g in held && g.privilege in r.matrix.normalize && k == ReadAs(r.matrix, g);
    assert Reads(r.matrix, g, k);
  }

  lemma RunConverges(r: Route, held: set<Grant>, strategy: Strategy, current: seq<Permission>,
                     desired: seq<Permission>, d: Diff, extra: seq<Permission>, gs: seq<Permission>,
                     rs: seq<Permission>)
    requires Runs(r, held, strategy, current, desired, d, extra, gs, rs)
    ensures Collected(r.matrix, After(r, held, gs, rs)) == KeysOf(desired) <==>
              (forall p :: p in d.toGrant ==> Lands(r, gs, p))
              && (forall p :: p in d.toRevoke ==> Clears(r, rs, held, p))
  {
    var collected := Collected(r.matrix, After(r, held, gs, rs));
    if collected == KeysOf(desired) {
      forall p | p in d.toGrant
        ensures Lands(r, gs, p)
      {
        ReadHasLanded(r, held, strategy, current, desired, d, extra, gs, rs, p);
      }
      forall p | p in d.toRevoke
        ensures Clears(r, rs, held, p)
      {
        RevokedIsStale(d, current, desired, p);
        UnreadWasCleared(r, held, strategy, current, desired, d, extra, gs, rs, p);
      }
    } else if (forall p :: p in d.toGrant ==> Lands(r, gs, p))
    && (forall p :: p in d.toRevoke ==> Clears(r, rs, held, p)) {
      forall k
        ensures k in collected <==> k in KeysOf(desired)
      {
        if k in KeysOf(desired) {
          DesiredIsRead(r, held, strategy, current, desired, d, extra, gs, rs, k);
        }
        if k in collected {
          ReadIsDesired(r, held, strategy, current, desired, d, extra, gs, rs, k);
        }
      }
    }
  }

  /**
   Convergence, exactly, whatever the remote side answers and wherever an exception ends the run: the next discovery
   reads the desired keys, under every strategy, if and only if every grant of the diff is dispatched, takes effect and
   has a class that round-trips, and every revoke of it is dispatched, takes effect and leaves no second privilege of
   its class.
   */
  lemma ConvergesExactly(r: Route, held: set<Grant>, strategy: Strategy, current: seq<Permission>,
                         desired: seq<Permission>, d: Diff, extra: seq<Permission>)
    requires Coherent(r.matrix) && KeysOf(current) == Collected(r.matrix, held)
    requires Applies(strategy, current, desired, d, extra)
    ensures var all := d.toGrant + extra;
            Collected(r.matrix, HeldRun(r, held, all, d.toRevoke)) == KeysOf(desired) <==>
              && (forall p :: p in d.toGrant ==> Lands(r, GrantsRun(r, all), p))
              && (forall p :: p in d.toRevoke ==> Clears(r, RevokesRun(r, all, d.toRevoke), held, p))
  {
    var all := d.toGrant + extra;
    RunConverges(r, held, strategy, current, desired, d, extra, GrantsRun(r, all), RevokesRun(r, all, d.toRevoke));
  }

  // ---------------------------------------------------------------- every call accepted

  /** The privileges that stand for these keys. */
  function PrivilegesOf(m: Matrix, ks: set<Key>): set<Grant> {
    set k | k in ks && k.access in m.denormalize :: PrivilegeOf(m, k)
  }

  function PrivilegeOf(m: Matrix, k: Key): Grant
    requires k.access in m.denormalize
  {
    Grant(k.principal, k.fqn, k.kind, m.denormalize[k.access])
  }

  /** What a platform holds after one reconcile all of whose calls are made and accepted. */
  function Reconciled(m: Matrix, held: set<Grant>, strategy: Strategy, current: seq<Permission>,
                      desired: seq<Permission>): set<Grant> {
    (held + PrivilegesOf(m, GrantKeys(strategy, current, desired))) - PrivilegesOf(m, RevokeKeys(current, desired))
  }

  /** Every item whose class has a privilege takes effect. */
  ghost predicate AllWrite(r: Route, ps: seq<Permission>, grant: bool) {
    forall p :: p in ps && p.access in r.matrix.denormalize ==> Writes(r, p, grant)
  }

  lemma WrittenKeys(r: Route, ps: seq<Permission>, grant: bool, g: Grant)
    requires AllWrite(r, ps, grant)
    ensures WrittenIn(r, ps, grant, g) <==> g in PrivilegesOf(r.matrix, KeysOf(ps))
  {
    if WrittenIn(r, ps, grant, g) {
      var p :| p in ps && Writes(r, p, grant) && GrantFor(r.matrix, p) == g;
      assert p.KeyOf() in KeysOf(ps) && PrivilegeOf(r.matrix, p.KeyOf()) == g;
    }
    if g in PrivilegesOf(r.matrix, KeysOf(ps)) {
      var k :| k in KeysOf(ps) && k.access in r.matrix.denormalize && g == PrivilegeOf(r.matrix, k);
      var p :| p in ps && p.KeyOf() == k;
      assert Writes(r, p, grant) && GrantFor(r.matrix, p) == g;
    }
  }

  lemma AllWriteCompletes(r: Route, gs: seq<Permission>, rs: seq<Permission>)
    requires PerPrivilege(r.target) && AllWrite(r, gs, true) && AllWrite(r, rs, false)
    ensures Completes(r, gs, rs)
  {
    CompletesExactly(r, gs, rs);
  }

  /** When every call is made and accepted, the platform ends as the keys of the two lists say. */
  lemma AcceptedRun(r: Route, held: set<Grant>, strategy: Strategy, current: seq<Permission>,
                    desired: seq<Permission>, d: Diff, extra: seq<Permission>)
    requires Applies(strategy, current, desired, d, extra) && PerPrivilege(r.target)
    requires AllWrite(r, d.toGrant + extra, true) && AllWrite(r, d.toRevoke, false)
    ensures HeldRun(r, held, d.toGrant + extra, d.toRevoke) == Reconciled(r.matrix, held, strategy, current, desired)
  {
    var all := d.toGrant + extra;
    AllWriteCompletes(r, all, d.toRevoke);
    assert KeysOf(all) == GrantKeys(strategy, current, desired);
    forall g
      ensures g in HeldRun(r, held, all, d.toRevoke) <==> g in Reconciled(r.matrix, held, strategy, current, desired)
    {
      AfterHas(r, held, all, d.toRevoke, g);
      WrittenKeys(r, all, true, g);
      WrittenKeys(r, d.toRevoke, false, g);
    }
  }

  // ---------------------------------------------------------------- every pair of lists has a diff

  /** The last permission of each of these keys. */
  function Latest(ps: seq<Permission>, ks: set<Key>): seq<Permission> {
    if ps == [] then []
    else
      var p := ps[|ps| - 1];
      if p.KeyOf() in ks then Latest(ps[..|ps| - 1], ks - {p.KeyOf()}) + [p] else Latest(ps[..|ps| - 1], ks)
  }

  lemma {:induction false} LatestLists(ps: seq<Permission>, ks: set<Key>)
    requires ks <= KeysOf(ps)
    ensures Lists(Latest(ps, ks), ps, ks)
  {
    if ps != [] {
      var front, p := ps[..|ps| - 1], ps[|ps| - 1];
      assert ps == front + [p];
      KeysOfMore(front, p);
      var rest := Latest(front, ks - {p.KeyOf()});
      LatestLists(front, ks - {p.KeyOf()});
      forall q | q in rest
        ensures LastWith(ps, q.KeyOf()) == Some(q)
      {
        assert q.KeyOf() in KeysOf(rest);
      }
      if p.KeyOf() in ks {
        assert Lists(rest, ps, ks - {p.KeyOf()});
        ListsMore(rest, ps, ks - {p.KeyOf()}, p);
        assert (ks - {p.KeyOf()}) + {p.KeyOf()} == ks;
      } else {
        assert ks - {p.KeyOf()} == ks;
      }
    }
  }

  lemma SomeDiff(current: seq<Permission>, desired: seq<Permission>) returns (d: Diff)
    ensures IsDiff(d, current, desired)
  {
    var c, w := KeysOf(current), KeysOf(desired);
    LatestLists(desired, w - c);
    LatestLists(desired, w * c);
    LatestLists(current, c - w);
    d := Diff(Latest(desired, w - c), Latest(current, c - w), ConflictsOf(current, desired), Latest(desired, w * c));
  }

  function Without(ps: seq<Permission>, ks: set<Key>): (out: seq<Permission>)
    ensures forall p :: p in out <==> p in ps && p.KeyOf() !in ks
  {
    if ps == [] then []
    else Without(ps[..|ps| - 1], ks) + if ps[|ps| - 1].KeyOf() in ks then [] else [ps[|ps| - 1]]
  }

  lemma SomeRun(strategy: Strategy, current: seq<Permission>, desired: seq<Permission>)
    returns (d: Diff, extra: seq<Permission>)
    ensures Applies(strategy, current, desired, d, extra)
  {
    d := SomeDiff(current, desired);
    var winners := Winners(strategy, d.conflicts);
    extra := Without(winners, KeysOf(d.toGrant));
    forall k | k in KeysOf(winners)
      ensures k in KeysOf(d.toGrant) || k in KeysOf(extra)
    {
      var p :| p in winners && p.KeyOf() == k;
      assert k !in KeysOf(d.toGrant) ==> p in extra;
    }
    assert KeysOf(d.toGrant + extra) == KeysOf(d.toGrant) + KeysOf(extra);
  }

  /** A route on which every call is made and accepted. */
  function Open(m: Matrix): Route {
    Route(UnityCatalog, m, Setup(map[], map[], map[], false), Ctx("http://", map[]),
          Remote((p, g) => true, (p, g) => false, (c, p, g) => Opens))
  }

  lemma OpenWrites(m: Matrix, ps: seq<Permission>, grant: bool)
    ensures AllWrite(Open(m), ps, grant)
  {
    assert Lower("http://") == "http://";
  }

  /**
   Convergence when every call is made and accepted: the next discovery reads the desired keys, under every strategy, if
   and only if every desired class round-trips through the privilege matrix and no revoked key is also held through a
   second privilege of its class.
   */
  lemma ReconcileConverges(m: Matrix, held: set<Grant>, strategy: Strategy, current: seq<Permission>,
                           desired: seq<Permission>)
    requires Coherent(m) && KeysOf(current) == Collected(m, held)
    ensures Collected(m, Reconciled(m, held, strategy, current, desired)) == KeysOf(desired) <==>
              && (forall d :: d in KeysOf(desired) ==> RoundTrips(m, d.access))
              && (forall k :: k in RevokeKeys(current, desired) ==> !Residual(m, held, k))
  {
    var r := Open(m);
    var d, extra := SomeRun(strategy, current, desired);
    var all := d.toGrant + extra;
    OpenWrites(m, all, true);
    OpenWrites(m, d.toRevoke, false);
    AcceptedRun(r, held, strategy, current, desired, d, extra);
    AllWriteCompletes(r, all, d.toRevoke);
    ConvergesExactly(r, held, strategy, current, desired, d, extra);
    LandsExactly(m, held, strategy, current, desired, d, extra);
    ClearsExactly(m, held, current, desired, d);
  }

  lemma LandsExactly(m: Matrix, held: set<Grant>, strategy: Strategy, current: seq<Permission>,
                     desired: seq<Permission>, d: Diff, extra: seq<Permission>)
    requires Coherent(m) && KeysOf(current) == Collected(m, held) && Applies(strategy, current, desired, d, extra)
    ensures (forall p :: p in d.toGrant ==> Lands(Open(m), d.toGrant + extra, p)) <==>
              forall k :: k in KeysOf(desired) ==> RoundTrips(m, k.access)
  {
    OpenWrites(m, d.toGrant, true);
    if forall p :: p in d.toGrant ==> Lands(Open(m), d.toGrant + extra, p) {
      forall k | k in KeysOf(desired)
        ensures RoundTrips(m, k.access)
      {
        if k in KeysOf(current) {
          ReadRoundTrips(m, held, k);
        } else {
          assert k in KeysOf(d.toGrant);
          var p :| p in d.toGrant && p.KeyOf() == k;
          assert Lands(Open(m), d.toGrant + extra, p);
        }
      }
    }
    if forall k :: k in KeysOf(desired) ==> RoundTrips(m, k.access) {
      forall p | p in d.toGrant
        ensures Lands(Open(m), d.toGrant + extra, p)
      {
        GrantedIsNew(d, current, desired, p);
      }
    }
  }

  lemma ClearsExactly(m: Matrix, held: set<Grant>, current: seq<Permission>, desired: seq<Permission>, d: Diff)
    requires Coherent(m) && KeysOf(current) == Collected(m, held) && IsDiff(d, current, desired)
    ensures (forall p :: p in d.toRevoke ==> Clears(Open(m), d.toRevoke, held, p)) <==>
              forall k :: k in RevokeKeys(current, desired) ==> !Residual(m, held, k)
  {
    OpenWrites(m, d.toRevoke, false);
    if forall p :: p in d.toRevoke ==> Clears(Open(m), d.toRevoke, held, p) {
      forall k | k in RevokeKeys(current, desired)
        ensures !Residual(m, held, k)
      {
        assert k in KeysOf(d.toRevoke);
        var p :| p in d.toRevoke && p.KeyOf() == k;
        assert Clears(Open(m), d.toRevoke, held, p);
      }
    }
    if forall k :: k in RevokeKeys(current, desired) ==> !Residual(m, held, k) {
      forall p | p in d.toRevoke
        ensures Clears(Open(m), d.toRevoke, held, p)
      {
        RevokedIsStale(d, current, desired, p);
        CurrentRoundTrips(m, held, current, p);
        assert p.KeyOf() in RevokeKeys(current, desired);
      }
    }
  }

  lemma ItemsHaveKeys(ps: seq<Permission>)
    ensures ps != [] ==> KeysOf(ps) != {}
  {
    if ps != [] {
      assert ps[0].KeyOf() in KeysOf(ps);
    }
  }

  /** After convergence a second diff grants and revokes nothing. */
  lemma SecondDiffIsEmpty(d: Diff, current: seq<Permission>, desired: seq<Permission>)
    requires IsDiff(d, current, desired) && KeysOf(current) == KeysOf(desired)
    ensures d.toGrant == [] && d.toRevoke == []
  {
    ItemsHaveKeys(d.toGrant);
    ItemsHaveKeys(d.toRevoke);
  }

  /**
   Revoking before granting ends in the same state exactly when no winner is itself revoked: always
   under source_wins, and under target_wins only when every winner is desired too.
   */
  lemma OrderMatters(m: Matrix, held: set<Grant>, strategy: Strategy, current: seq<Permission>,
                     desired: seq<Permission>)
    requires Coherent(m) && KeysOf(current) == Collected(m, held)
    requires forall d :: d in KeysOf(desired) ==> RoundTrips(m, d.access)
    ensures (held - PrivilegesOf(m, RevokeKeys(current, desired)))
              + PrivilegesOf(m, GrantKeys(strategy, current, desired))
              == Reconciled(m, held, strategy, current, desired)
            <==> WinnerKeys(strategy, current, desired) <= KeysOf(desired)
    ensures !strategy.TargetWins? ==> WinnerKeys(strategy, current, desired) <= KeysOf(desired)
  {
    WinnersComeFromTheLists(strategy, current, desired);
    var grants := PrivilegesOf(m, GrantKeys(strategy, current, desired));
    var revokes := PrivilegesOf(m, RevokeKeys(current, desired));
    if w :| w in WinnerKeys(strategy, current, desired) && w !in KeysOf(desired) {
      var g := Grant(w.principal, w.fqn, w.kind, m.denormalize[w.access]);
      assert w in RevokeKeys(current, desired);
      assert g in grants && g in revokes;
      assert g !in Reconciled(m, held, strategy, current, desired);
    } else {
      assert grants !! revokes;
    }
  }

  // ---------------------------------------------------------------- the shipped matrix

  /** The Unity Catalog tables of privilege_matrix.yaml. */
  const UC_MATRIX: Matrix := Matrix(
    map[SELECT := DATA_READ, READ_VOLUME := DATA_READ, USE_CATALOG := OBJECT_USE, USE_SCHEMA := OBJECT_USE,
        MODIFY := DATA_WRITE, WRITE_VOLUME := DATA_WRITE, CREATE_TABLE := DATA_WRITE,
        CREATE_SCHEMA := WORKSPACE_EDIT, CREATE_CATALOG := WORKSPACE_EDIT,
        ALL_PRIVILEGES := DATA_ADMIN, OWNERSHIP := DATA_ADMIN],
    map[DATA_READ := SELECT, DATA_WRITE := MODIFY, DATA_ADMIN := ALL_PRIVILEGES, OBJECT_USE := USE_SCHEMA,
        WORKSPACE_VIEW := USE_CATALOG, WORKSPACE_EDIT := CREATE_SCHEMA, WORKSPACE_ADMIN := ALL_PRIVILEGES])

  /** The Snowflake tables of privilege_matrix.yaml. */
  const SNOWFLAKE_MATRIX: Matrix := Matrix(
    map[SELECT := DATA_READ, REFERENCES := DATA_READ, INSERT := DATA_WRITE, UPDATE := DATA_WRITE,
        DELETE := DATA_WRITE, TRUNCATE := DATA_WRITE, USAGE := OBJECT_USE, CREATE_TABLE := WORKSPACE_EDIT,
        CREATE_SCHEMA := WORKSPACE_EDIT, OWNERSHIP := DATA_ADMIN, ALL := DATA_ADMIN],
    map[DATA_READ := SELECT, DATA_WRITE := INSERT, DATA_ADMIN := OWNERSHIP, OBJECT_USE := USAGE,
        WORKSPACE_VIEW := USAGE, WORKSPACE_EDIT := CREATE_TABLE, WORKSPACE_ADMIN := ALL])

  /** WORKSPACE_VIEW and WORKSPACE_ADMIN are the two classes that never round-trip on either platform. */
  lemma ShippedRoundTrips(m: Matrix, a: Access)
    requires m == UC_MATRIX || m == SNOWFLAKE_MATRIX
    ensures RoundTrips(m, a) <==> a != WORKSPACE_VIEW && a != WORKSPACE_ADMIN
  {
    if m == UC_MATRIX {
      UcRoundTrips(a);
    } else {
      SnowflakeRoundTrips(a);
    }
  }

  lemma UcRoundTrips(a: Access)
    ensures RoundTrips(UC_MATRIX, a) <==> a != WORKSPACE_VIEW && a != WORKSPACE_ADMIN
  {
    match a
    case DATA_READ =>
    case DATA_WRITE =>
    case DATA_ADMIN =>
    case OBJECT_USE =>
    case WORKSPACE_VIEW =>
    case WORKSPACE_EDIT =>
    case WORKSPACE_ADMIN =>
  }

  lemma SnowflakeRoundTrips(a: Access)
    ensures RoundTrips(SNOWFLAKE_MATRIX, a) <==> a != WORKSPACE_VIEW && a != WORKSPACE_ADMIN
  {
    match a
    case DATA_READ =>
    case DATA_WRITE =>
    case DATA_ADMIN =>
    case OBJECT_USE =>
    case WORKSPACE_VIEW =>
    case WORKSPACE_EDIT =>
    case WORKSPACE_ADMIN =>
  }

  /** Both shipped matrices are coherent. */
  lemma ShippedMatricesAreCoherent(m: Matrix)
    requires m == UC_MATRIX || m == SNOWFLAKE_MATRIX
    ensures Coherent(m)
  {
    forall raw | raw in m.normalize
      ensures RoundTrips(m, m.normalize[raw])
    {
      ShippedRoundTrips(m, m.normalize[raw]);
    }
  }

  /** Why the residual condition is needed: of two write privileges on one table, one survives the revoke. */
  lemma ResidualPrivilegeSurvives()
    ensures var held := {Grant("u", "c.s.t", "table", MODIFY), Grant("u", "c.s.t", "table", WRITE_VOLUME)};
            var current := [Permission("u", DATA_WRITE, "c.s.t", "table", "w", "unity_catalog", "")];
            && KeysOf(current) == Collected(UC_MATRIX, held)
            && Collected(UC_MATRIX, Reconciled(UC_MATRIX, held, SourceWins, current, [])) != KeysOf([])
  {
    var held := {Grant("u", "c.s.t", "table", MODIFY), Grant("u", "c.s.t", "table", WRITE_VOLUME)};
    var current := [Permission("u", DATA_WRITE, "c.s.t", "table", "w", "unity_catalog", "")];
    var k := current[0].KeyOf();
    assert KeysOf(current) == {k};
    assert Grant("u", "c.s.t", "table", MODIFY) in held;
    assert Collected(UC_MATRIX, held) == {k};
    var g := Grant("u", "c.s.t", "table", WRITE_VOLUME);
    assert g in held;
    assert Residual(UC_MATRIX, held, k);
    ShippedMatricesAreCoherent(UC_MATRIX);
    assert k in RevokeKeys(current, []);
    ReconcileConverges(UC_MATRIX, held, SourceWins, current, []);
  }

  lemma OneConflict(c: Permission, d: Permission)
    requires c.On() == d.On() && c.access != d.access
    ensures ConflictsOf([c], [d]) == [Conflict(d, c)]
  {
    assert [d][..0] == [] && [c][..0] == [];
    assert LastOn([c], d.On()) == Some(c);
    assert ConflictsOf([c], []) == [];
  }

  lemma OneWinner(c: Permission, d: Permission)
    requires c.On() == d.On() && c.access != d.access
    ensures c.KeyOf() in WinnerKeys(TargetWins, [c], [d]) && c.KeyOf() !in KeysOf([d])
  {
    OneConflict(c, d);
    var x := Conflict(d, c);
    assert x in [x] && Winner(TargetWins, x) == c;
    assert c in Winners(TargetWins, [x]);
  }

  /**
   Where the order matters: any one conflict under target_wins. The current class is granted again although it is not
   desired, so its revoke must come last.
   */
  lemma TargetWinsDependsOnOrder(m: Matrix, c: Permission, d: Permission)
    requires Coherent(m) && RoundTrips(m, c.access) && RoundTrips(m, d.access)
    requires c.On() == d.On() && c.access != d.access
    ensures var held := {GrantFor(m, c)};
            && KeysOf([c]) == Collected(m, held)
            && (held - PrivilegesOf(m, RevokeKeys([c], [d]))) + PrivilegesOf(m, GrantKeys(TargetWins, [c], [d]))
                 != Reconciled(m, held, TargetWins, [c], [d])
  {
    var held := {GrantFor(m, c)};
    OneHeld(m, c);
    OneWinner(c, d);
    OrderMatters(m, held, TargetWins, [c], [d]);
  }

  lemma OneHeld(m: Matrix, c: Permission)
    requires RoundTrips(m, c.access)
    ensures KeysOf([c]) == Collected(m, {GrantFor(m, c)})
  {
    assert KeysOf([c]) == {c.KeyOf()};
    assert GrantFor(m, c) in {GrantFor(m, c)};
    assert Collected(m, {GrantFor(m, c)}) == {c.KeyOf()};
  }
}
