/** Laws of apply runs towards Databricks: what is collected there afterwards, and what the next diff sees. */
module DbxLaws {
  import opened Optional
  import opened Text
  import opened ApplyRows
  import opened ApplyLaws
  import D = DarRoles
  import U = UcGrants
  import P = PairDiff

  type Listing = seq<U.SchemaListing>

  // ---------------------------------------------------------------- one row

  /**
   A plain row on a securable the reader visits, with a class that has privileges there, for a principal with a name.
   */
  predicate Grantable(p: Pairing, listing: Listing, s: Step) {
    && s.row.key.kind == P.NoConstraint
    && OnVisited(p, listing, s.row.key.scope, s.row.key.access)
    && (s.answers.ucPrincipal.Some? ==> Strip(s.answers.ucPrincipal.value) != "")
  }

  predicate OnVisited(p: Pairing, listing: Listing, scope: string, access: Access) {
    var (kind, name) := U.UcTarget(scope, p.catalog);
    U.Visited(p.catalog, listing, kind, name) && scope == U.ScopeText(kind, name) && U.PrivilegesFor(access, kind) != []
  }

  /** The name the grant goes to. */
  function PrincipalOf(s: Step): string {
    if s.answers.ucPrincipal.Some? then s.answers.ucPrincipal.value else ""
  }

  /** The key of the row on the Databricks side. */
  function OwnKey(s: Step): P.RowKey {
    P.PlainKey(Lower(Strip(PrincipalOf(s))), s.row.key.scope, s.row.key.access)
  }

  function OpsOf(p: Pairing, s: Step): seq<U.Op> {
    var (kind, name) := U.UcTarget(s.row.key.scope, p.catalog);
    U.Operations(kind, name, U.PrivilegesFor(s.row.key.access, kind))
  }

  /** The rows that the completed calls of a row make collectable. */
  function StepKeys(p: Pairing, listing: Listing, s: Step): set<P.RowKey> {
    if s.answers.ucPrincipal.None? then {}
    else U.CallKeys(OpsOf(p, s)[..U.Completed(OpsOf(p, s), s.answers.completed)], PrincipalOf(s), p.catalog, listing)
  }

  /** A row changes the grants by its completed calls, and is reported as granted exactly when all of them complete. */
  lemma StepGrants(p: Pairing, listing: Listing, w: World, s: Step, roleName: string -> string)
    requires Grantable(p, listing, s)
    ensures var e := EffectOf(p, FabricToDbx, false, w, s, roleName);
            var ops := OpsOf(p, s);
            var n := U.Completed(ops, s.answers.completed);
            && e.world.grants == (if s.answers.ucPrincipal.None? then w.grants
                                  else U.AddedAll(w.grants, PrincipalOf(s), ops[..n]))
            && (e.ok && !e.skipped <==> s.answers.ucPrincipal.Some? && n == |ops|)
  {
    var (kind, name) := U.UcTarget(s.row.key.scope, p.catalog);
    assert PlanOf(p, FabricToDbx, s) == Grant(kind, name, U.PrivilegesFor(s.row.key.access, kind));
  }

  /**
   The own key of a row that is granted is among its keys; any other key of a row is traversal for the same principal.
   */
  lemma StepKeysAreOwn(p: Pairing, listing: Listing, s: Step, k: P.RowKey)
    requires Grantable(p, listing, s) && U.CleanListing(p.catalog, listing)
    ensures s.answers.ucPrincipal.Some? && U.Completed(OpsOf(p, s), s.answers.completed) == |OpsOf(p, s)| ==>
              OwnKey(s) in StepKeys(p, listing, s)
    ensures k in StepKeys(p, listing, s) ==>
              k == OwnKey(s) || (k.access == D.OBJECT_USE && k.principal == OwnKey(s).principal)
  {
    var (kind, name) := U.UcTarget(s.row.key.scope, p.catalog);
    var a := U.Attempt(PrincipalOf(s), s.row.key.scope, s.row.key.access);
    var ops, n := OpsOf(p, s), U.Completed(OpsOf(p, s), s.answers.completed);
    if s.answers.ucPrincipal.Some? {
      if n == |ops| {
        assert ops[..n] == ops;
        OwnIsCalled(p, listing, kind, name, a);
      }
      if k in StepKeys(p, listing, s) {
        var op :| op in ops[..n] && k in U.OpKeys(op, PrincipalOf(s), p.catalog, listing);
        U.OpKeyIsOwn(op, kind, name, a, p.catalog, listing, k);
      }
    }
  }

  lemma OwnIsCalled(p: Pairing, listing: Listing, kind: U.SecurableType, name: string, a: U.Attempt)
    requires U.Visited(p.catalog, listing, kind, name) && a.scope == U.ScopeText(kind, name)
    requires Strip(a.principal) != "" && U.PrivilegesFor(a.access, kind) != []
    ensures P.PlainKey(Lower(Strip(a.principal)), a.scope, a.access)
              in U.CallKeys(U.Operations(kind, name, U.PrivilegesFor(a.access, kind)), a.principal, p.catalog, listing)
  {
    var ops := U.Operations(kind, name, U.PrivilegesFor(a.access, kind));
    U.PrivilegesReadBack(a.access, kind);
    var q :| q in U.PrivilegesFor(a.access, kind) && U.AccessOf(q) == Some(a.access);
    var last := ops[|ops| - 1];
    assert last in ops;
    assert U.KeyOf(U.Holding(kind, name, a.principal), a.access) in U.OpKeys(last, a.principal, p.catalog, listing);
  }

  // ---------------------------------------------------------------- a run

  function RunKeys(p: Pairing, listing: Listing, steps: seq<Step>): set<P.RowKey> {
    set s, k | s in steps && k in StepKeys(p, listing, s) :: k
  }

  lemma RunKeysMore(p: Pairing, listing: Listing, steps: seq<Step>, s: Step)
    ensures RunKeys(p, listing, steps + [s]) == RunKeys(p, listing, steps) + StepKeys(p, listing, s)
  {
    assert forall x :: x in steps + [s] <==> x in steps || x == s;
  }

  function DbxCollected(p: Pairing, listing: Listing, w: World): set<P.RowKey> {
    U.DbxKeys(w.grants, p.catalog, listing)
  }

  /**
   A real run towards Databricks, each row stopped after any of its calls: the rows collected afterwards are those
   collected before plus those of the completed calls.
   */
  lemma {:induction false} DbxRunIsCollected(p: Pairing, listing: Listing, w: World, steps: seq<Step>,
                                             roleName: string -> string)
    requires forall s :: s in steps ==> Grantable(p, listing, s)
    ensures DbxCollected(p, listing, WorldAfter(p, FabricToDbx, false, w, steps, roleName))
              == DbxCollected(p, listing, w) + RunKeys(p, listing, steps)
  {
    if steps != [] {
      var last := |steps| - 1;
      DbxRunIsCollected(p, listing, w, steps[..last], roleName);
      RunKeysLast(p, listing, steps);
      DbxLastIsCollected(p, listing, w, steps, roleName);
    }
  }

  lemma RunKeysLast(p: Pairing, listing: Listing, steps: seq<Step>)
    requires steps != []
    ensures RunKeys(p, listing, steps) ==
              RunKeys(p, listing, steps[..|steps| - 1]) + StepKeys(p, listing, steps[|steps| - 1])
  {
    assert steps == steps[..|steps| - 1] + [steps[|steps| - 1]];
    RunKeysMore(p, listing, steps[..|steps| - 1], steps[|steps| - 1]);
  }

  lemma DbxLastIsCollected(p: Pairing, listing: Listing, w: World, steps: seq<Step>, roleName: string -> string)
    requires steps != [] && Grantable(p, listing, steps[|steps| - 1])
    ensures var last := |steps| - 1;
            DbxCollected(p, listing, WorldAfter(p, FabricToDbx, false, w, steps, roleName)) ==
              DbxCollected(p, listing, WorldAfter(p, FabricToDbx, false, w, steps[..last], roleName))
                + StepKeys(p, listing, steps[last])
  {
    var last := |steps| - 1;
    DbxStepIsCollected(p, listing, WorldAfter(p, FabricToDbx, false, w, steps[..last], roleName), steps[last],
                       roleName);
  }

  lemma DbxStepIsCollected(p: Pairing, listing: Listing, w: World, s: Step, roleName: string -> string)
    requires Grantable(p, listing, s)
    ensures DbxCollected(p, listing, EffectOf(p, FabricToDbx, false, w, s, roleName).world)
              == DbxCollected(p, listing, w) + StepKeys(p, listing, s)
  {
    var ops := OpsOf(p, s);
    StepGrants(p, listing, w, s, roleName);
    U.CallsCollect(w.grants, PrincipalOf(s), ops[..U.Completed(ops, s.answers.completed)], p.catalog, listing);
  }

  /** Every row reported as granted is collected under its own key; whatever is new besides is traversal. */
  lemma GrantedIsCollected(p: Pairing, listing: Listing, w: World, steps: seq<Step>, roleName: string -> string, i: nat,
                           k: P.RowKey)
    requires (forall s :: s in steps ==> Grantable(p, listing, s)) && U.CleanListing(p.catalog, listing) && i < |steps|
    ensures var after := DbxCollected(p, listing, WorldAfter(p, FabricToDbx, false, w, steps, roleName));
            && (Granted(ActionAt(p, FabricToDbx, false, w, steps, roleName, i)) ==> OwnKey(steps[i]) in after)
            && (k in after && k !in DbxCollected(p, listing, w) ==>
                  exists s :: s in steps
                              && (k == OwnKey(s) || (k.access == D.OBJECT_USE && k.principal == OwnKey(s).principal)))
  {
    DbxRunIsCollected(p, listing, w, steps, roleName);
    StepGrants(p, listing, WorldAfter(p, FabricToDbx, false, w, steps[..i], roleName), steps[i], roleName);
    StepKeysAreOwn(p, listing, steps[i], k);
    if k in RunKeys(p, listing, steps) {
      var s :| s in steps && k in StepKeys(p, listing, s);
      StepKeysAreOwn(p, listing, s, k);
    }
  }

  // ---------------------------------------------------------------- the next diff

  /** Rows of the Databricks side; a row keyed by an address is displayed by that address. */
  predicate DbxSide(rows: seq<P.DiffRow>) {
    DbxRows(rows) && forall r :: r in rows ==> Displayed(r)
  }

  predicate Displayed(r: P.DiffRow) {
    '@' in r.key.principal ==> Lower(if r.display != "" then r.display else r.key.principal) == Lower(r.key.principal)
  }

  lemma NormalizedByKey(r: P.DiffRow, directory: P.Directory)
    requires Displayed(r)
    ensures P.NormalizedDbx(r, directory).key == NormKey(r.key, directory)
  {
  }

  /** The key is one of these, or becomes one by way of the directory. */
  predicate Reaches(keys: set<P.RowKey>, directory: P.Directory, k: P.RowKey) {
    exists j :: j in keys && NormKey(j, directory) == k
  }

  lemma SeenByKey(dbx: seq<P.DiffRow>, fabric: seq<P.DiffRow>, directory: P.Directory, k: P.RowKey)
    requires DbxSide(dbx) && FabricSide(fabric)
    ensures P.SeenDbx(P.NormalizedAll(dbx, fabric, directory), k) <==> Reaches(P.KeysOf(dbx), directory, k)
  {
    SeenOnDbx(dbx, fabric, directory, k);
    if d :| d in dbx && P.NormalizedDbx(d, directory).key == k {
      NormalizedByKey(d, directory);
      assert d.key in P.KeysOf(dbx) && NormKey(d.key, directory) == k;
    }
    if j :| j in P.KeysOf(dbx) && NormKey(j, directory) == k {
      var d :| d in dbx && d.key == j;
      NormalizedByKey(d, directory);
    }
  }

  /** The bucket a row moves to when more keys are collected on Databricks. */
  function MovedOnDbx(r: P.DiffRow, added: set<P.RowKey>, directory: P.Directory): P.Status {
    if Reaches(added, directory, r.key) && r.onFabric then P.InSync else P.StatusOf(r)
  }

  lemma DbxKeysMove(dbx: seq<P.DiffRow>, dbx': seq<P.DiffRow>, fabric: seq<P.DiffRow>, added: set<P.RowKey>,
                    directory: P.Directory, b: P.Buckets, b': P.Buckets, r: P.DiffRow)
    requires DbxSide(dbx) && DbxSide(dbx') && FabricSide(fabric) && P.KeysOf(dbx') == P.KeysOf(dbx) + added
    requires P.IsDiff(b, P.NormalizedAll(dbx, fabric, directory))
    requires P.IsDiff(b', P.NormalizedAll(dbx', fabric, directory))
    ensures r in b.all ==>
              exists r' :: r' in b'.all && r'.key == r.key && P.StatusOf(r') == MovedOnDbx(r, added, directory)
    ensures r in b'.all && r.key !in P.KeysOf(b.all) ==> Reaches(added, directory, r.key)
  {
    SeenByKey(dbx, fabric, directory, r.key);
    SeenByKey(dbx', fabric, directory, r.key);
    ReachesMore(P.KeysOf(dbx), added, directory, r.key);
    SeenOnFabric(dbx, fabric, directory, r.key);
    SeenOnFabric(dbx', fabric, directory, r.key);
    EveryRowIsSeen(dbx, fabric, directory, r.key);
    EveryRowIsSeen(dbx', fabric, directory, r.key);
    if r in b.all {
      var r' :| r' in b'.all && r'.key == r.key;
      assert P.StatusOf(r') == MovedOnDbx(r, added, directory);
    }
    if r in b'.all {
      assert r.key in P.KeysOf(b'.all);
    }
  }

  lemma ReachesMore(a: set<P.RowKey>, b: set<P.RowKey>, directory: P.Directory, k: P.RowKey)
    ensures Reaches(a + b, directory, k) <==> Reaches(a, directory, k) || Reaches(b, directory, k)
  {
  }

  /**
   Apply towards Databricks, then diff again: with Fabric and the other Databricks rows unchanged, exactly the rows
   whose key a completed call reaches, and that are on Fabric, become in sync; every other row keeps its bucket.
   */
  lemma DbxApplyThenDiff(p: Pairing, listing: Listing, w: World, steps: seq<Step>, roleName: string -> string,
                         directory: P.Directory,
                         others: set<P.RowKey>, dbx: seq<P.DiffRow>, dbx': seq<P.DiffRow>, fabric: seq<P.DiffRow>,
                         b: P.Buckets, b': P.Buckets, r: P.DiffRow)
    requires forall s :: s in steps ==> Grantable(p, listing, s)
    requires DbxSide(dbx) && DbxSide(dbx') && FabricSide(fabric)
    requires P.KeysOf(dbx) == DbxCollected(p, listing, w) + others
    requires P.KeysOf(dbx') == DbxCollected(p, listing, WorldAfter(p, FabricToDbx, false, w, steps, roleName)) + others
    requires P.IsDiff(b, P.NormalizedAll(dbx, fabric, directory))
    requires P.IsDiff(b', P.NormalizedAll(dbx', fabric, directory))
    ensures var added := RunKeys(p, listing, steps);
            && (r in b.all ==>
                  exists r' :: r' in b'.all && r'.key == r.key && P.StatusOf(r') == MovedOnDbx(r, added, directory))
            && (r in b'.all && r.key !in P.KeysOf(b.all) ==> Reaches(added, directory, r.key))
  {
    DbxRunIsCollected(p, listing, w, steps, roleName);
    DbxKeysMove(dbx, dbx', fabric, RunKeys(p, listing, steps), directory, b, b', r);
  }

  /**
   A Fabric-only row reported as granted, whose name the directory maps to the row's principal, is in sync afterwards.
   */
  lemma GrantedRowIsInSyncOnDbx(p: Pairing, listing: Listing, w: World, steps: seq<Step>, roleName: string -> string,
                                directory: P.Directory, others: set<P.RowKey>, dbx: seq<P.DiffRow>,
                                dbx': seq<P.DiffRow>,
                                fabric: seq<P.DiffRow>, b: P.Buckets, b': P.Buckets, i: nat)
    requires (forall s :: s in steps ==> Grantable(p, listing, s)) && U.CleanListing(p.catalog, listing)
    requires DbxSide(dbx) && DbxSide(dbx') && FabricSide(fabric)
    requires P.KeysOf(dbx) == DbxCollected(p, listing, w) + others
    requires P.KeysOf(dbx') == DbxCollected(p, listing, WorldAfter(p, FabricToDbx, false, w, steps, roleName)) + others
    requires P.IsDiff(b, P.NormalizedAll(dbx, fabric, directory))
    requires P.IsDiff(b', P.NormalizedAll(dbx', fabric, directory))
    requires i < |steps| && steps[i].row in b.fabricOnly && NormKey(OwnKey(steps[i]), directory) == steps[i].row.key
    requires Granted(ActionAt(p, FabricToDbx, false, w, steps, roleName, i))
    ensures exists r' :: r' in b'.inSync && r'.key == steps[i].row.key
  {
    var r := steps[i].row;
    P.InBucket(b.all, P.FabricOnly, r);
    StepGrants(p, listing, WorldAfter(p, FabricToDbx, false, w, steps[..i], roleName), steps[i], roleName);
    StepKeysAreOwn(p, listing, steps[i], OwnKey(steps[i]));
    assert steps[i] in steps && OwnKey(steps[i]) in RunKeys(p, listing, steps);
    DbxApplyThenDiff(p, listing, w, steps, roleName, directory, others, dbx, dbx', fabric, b, b', r);
    assert Reaches(RunKeys(p, listing, steps), directory, r.key);
    var r' :| r' in b'.all && r'.key == r.key && P.StatusOf(r') == P.InSync;
    P.InBucket(b'.all, P.InSync, r');
  }
}
