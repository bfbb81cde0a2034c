/**
 A row filter of Fabric applied to Databricks: after the run the table is described with exactly this filter, and the
 row is in sync in the next diff exactly when the filter comes back from its own text.
 */
module UcFilterLaws {
  import opened Optional
  import opened Text
  import D = DarRoles
  import P = PairDiff
  import R = RowPolicy
  import F = RowFilterLoop
  import opened UcStatements
  import opened ApplyRows
  import opened ApplyLaws
  import opened DbxLaws

  /** What the function's name is the hash of. */
  function Seed(f: F.UcRowFilter, condition: string): string {
    f.table + ("|" + (condition + ("|" + Join(f.on, ","))))
  }

  /** The row asks for this Fabric filter, and its statements are those of the filter. */
  predicate UcFilterStep(p: Pairing, s: Step, query: string, principals: seq<string>, columns: seq<F.Column>,
                         f: F.UcRowFilter, routineName: string -> string) {
    && s.row.key == FilterKeyOf(s.row.key.scope, query) && s.row.source != "databricks_abac"
    && F.FabricRowFilter(s.row.key.scope, p.catalog, query, principals, columns) == R.Ok(f)
    && s.answers.statements == Some(Statements(f, Routine(f, query, routineName)))
  }

  function Routine(f: F.UcRowFilter, query: string, routineName: string -> string): string {
    routineName(Seed(f, R.NormalizeRowPredicate(query)))
  }

  /** The key of a row filter with this predicate. */
  function FilterKeyOf(scope: string, query: string): P.RowKey {
    P.RowKey(P.TABLE_POLICY_PRINCIPAL, scope, D.DATA_READ, P.RowFilter,
             P.RowFilterOf(R.CanonicalRowFilterKey(scope, query)))
  }

  /** The key the Databricks side lists a filter under; one that has no translation is known by a signature. */
  function ListedKey(scope: string, catalog: string, f: F.UcRowFilter, signature: F.UcRowFilter -> string): P.RowKey {
    var back := F.ReadBack(f, scope, catalog);
    if back.Ok? then FilterKeyOf(scope, back.value.query)
    else P.RowKey(P.TABLE_POLICY_PRINCIPAL, scope, D.DATA_READ, P.RowFilter, P.Signature(signature(f)))
  }

  /** The table of a scope, as the statements name it. */
  function TableName(scope: string, catalog: string): string {
    var t := R.TableParts(scope, catalog);
    if t.None? then "" else t.value.0 + "." + t.value.1 + "." + t.value.2
  }

  /** The keys of the row filters of these tables. */
  function FilterKeys(executed: seq<Statement>, scopes: set<string>, catalog: string,
                      signature: F.UcRowFilter -> string): set<P.RowKey> {
    set scope | scope in scopes && FilterOf(executed, TableName(scope, catalog)).Some? ::
      ListedKey(scope, catalog, FilterOf(executed, TableName(scope, catalog)).value, signature)
  }

  /** A listed key is the row's key exactly when the filter comes back. */
  lemma ListedExactly(p: Pairing, scope: string, query: string, principals: seq<string>, columns: seq<F.Column>,
                      f: F.UcRowFilter, signature: F.UcRowFilter -> string)
    requires F.FabricRowFilter(scope, p.catalog, query, principals, columns) == R.Ok(f)
    ensures f.table == TableName(scope, p.catalog)
    ensures ListedKey(scope, p.catalog, f, signature) == FilterKeyOf(scope, query) <==>
              R.Valid(R.NormalizeRowPredicate(query)) && forall x :: x in principals ==> ')' !in x
  {
    F.RowFilterLoopCloses(scope, p.catalog, query, principals, columns);
  }

  // ---------------------------------------------------------------- one run

  /** No statement of the row touches the table or the function. */
  predicate Avoids(s: Step, table: string, routine: string) {
    s.answers.statements.Some? ==> forall x :: x in s.answers.statements.value ==> !Touches(x, table, routine)
  }

  /** A row executes a prefix of its statements, all of them when it is reported as granted. */
  lemma StepExecutes(p: Pairing, w: World, s: Step, roleName: string -> string) returns (more: seq<Statement>)
    ensures EffectOf(p, FabricToDbx, false, w, s, roleName).world.executed == w.executed + more
    ensures s.answers.statements.None? ==> more == []
    ensures s.answers.statements.Some? ==> more <= s.answers.statements.value
    ensures var e := EffectOf(p, FabricToDbx, false, w, s, roleName);
            s.row.key.kind == P.RowFilter && s.row.source != "databricks_abac" && e.ok && !e.skipped ==>
              s.answers.statements.Some? && more == s.answers.statements.value
  {
    var plan := PlanOf(p, FabricToDbx, s);
    more := [];
    if plan.RunStatements? && s.answers.warehouse && plan.statements.Some? {
      var all := plan.statements.value;
      more := all[..if s.answers.completed < |all| then s.answers.completed else |all|];
    } else {
      assert w.executed + [] == w.executed;
    }
  }

  /** Statements executed between two points of a run, none of which touches the table or the function. */
  ghost predicate Harmless(before: seq<Statement>, after: seq<Statement>, more: seq<Statement>, table: string,
                           routine: string) {
    after == before + more && forall x :: x in more ==> !Touches(x, table, routine)
  }

  ghost predicate SomeHarmless(before: seq<Statement>, after: seq<Statement>, table: string, routine: string) {
    exists more :: Harmless(before, after, more, table, routine)
  }

  lemma HarmlessStep(p: Pairing, w: World, s: Step, roleName: string -> string, table: string, routine: string)
    requires Avoids(s, table, routine)
    ensures SomeHarmless(w.executed, EffectOf(p, FabricToDbx, false, w, s, roleName).world.executed, table, routine)
  {
    var own := StepExecutes(p, w, s, roleName);
    assert Harmless(w.executed, EffectOf(p, FabricToDbx, false, w, s, roleName).world.executed, own, table, routine);
  }

  lemma HarmlessRow(p: Pairing, w: World, steps: seq<Step>, roleName: string -> string, j: nat, table: string,
                    routine: string)
    requires j < |steps| && Avoids(steps[j], table, routine)
    ensures SomeHarmless(WorldAfter(p, FabricToDbx, false, w, steps[..j], roleName).executed,
                         WorldAfter(p, FabricToDbx, false, w, steps[..j + 1], roleName).executed, table, routine)
  {
    RunStep(p, FabricToDbx, false, w, steps, roleName, j);
    HarmlessStep(p, WorldAfter(p, FabricToDbx, false, w, steps[..j], roleName), steps[j], roleName, table, routine);
  }

  lemma {:induction false} HarmlessChain(es: seq<seq<Statement>>, n: nat, table: string, routine: string)
    returns (more: seq<Statement>)
    requires n < |es| && forall j :: n <= j < |es| - 1 ==> SomeHarmless(es[j], es[j + 1], table, routine)
    ensures Harmless(es[n], es[|es| - 1], more, table, routine)
  {
    if n == |es| - 1 {
      more := [];
    } else {
      var last := |es| - 1;
      var before := HarmlessChain(es[..last], n, table, routine);
      assert SomeHarmless(es[last - 1], es[last - 1 + 1], table, routine);
      var own :| Harmless(es[last - 1], es[last], own, table, routine);
      more := before + own;
    }
  }

  /** What was executed before each row, and at the end. */
  function Logs(p: Pairing, w: World, steps: seq<Step>, roleName: string -> string): (es: seq<seq<Statement>>)
    ensures |es| == |steps| + 1
  {
    seq(|steps| + 1, j requires 0 <= j <= |steps| => WorldAfter(p, FabricToDbx, false, w, steps[..j],
                                                                roleName).executed)
  }

  lemma LogAt(p: Pairing, w: World, steps: seq<Step>, roleName: string -> string, j: nat)
    requires j <= |steps|
    ensures Logs(p, w, steps, roleName)[j] == WorldAfter(p, FabricToDbx, false, w, steps[..j], roleName).executed
  {
  }

  lemma HarmlessLog(p: Pairing, w: World, steps: seq<Step>, roleName: string -> string, j: nat, table: string,
                    routine: string)
    requires j < |steps| && Avoids(steps[j], table, routine)
    ensures var es := Logs(p, w, steps, roleName); SomeHarmless(es[j], es[j + 1], table, routine)
  {
    LogAt(p, w, steps, roleName, j);
    LogAt(p, w, steps, roleName, j + 1);
    HarmlessRow(p, w, steps, roleName, j, table, routine);
  }

  /** Rows that avoid a table and its function leave its filter alone. */
  lemma LaterRowsAvoid(p: Pairing, w: World, steps: seq<Step>, roleName: string -> string, n: nat, table: string,
                       routine: string)
    returns (more: seq<Statement>)
    requires n <= |steps| && forall j :: n <= j < |steps| ==> Avoids(steps[j], table, routine)
    ensures Harmless(Logs(p, w, steps, roleName)[n], Logs(p, w, steps, roleName)[|steps|], more, table, routine)
  {
    forall j | n <= j < |steps|
      ensures var es := Logs(p, w, steps, roleName); SomeHarmless(es[j], es[j + 1], table, routine)
    {
      HarmlessLog(p, w, steps, roleName, j, table, routine);
    }
    more := HarmlessChain(Logs(p, w, steps, roleName), n, table, routine);
  }

  /**
   After a real run towards Databricks, the table of a row filter that is reported as granted is described with exactly
   this filter, unless a later row touches the table or the function.
   */
  lemma GrantedFilterIsDescribed(p: Pairing, w: World, steps: seq<Step>, roleName: string -> string, i: nat,
                                 query: string,
                                 principals: seq<string>, columns: seq<F.Column>, f: F.UcRowFilter,
                                 routineName: string -> string)
    requires i < |steps| && UcFilterStep(p, steps[i], query, principals, columns, f, routineName)
    requires Granted(ActionAt(p, FabricToDbx, false, w, steps, roleName, i))
    requires forall j :: i < j < |steps| ==> Avoids(steps[j], f.table, Routine(f, query, routineName))
    ensures FilterOf(WorldAfter(p, FabricToDbx, false, w, steps, roleName).executed, f.table) == Some(f)
  {
    var routine, before := Routine(f, query, routineName), WorldAfter(p, FabricToDbx, false, w, steps[..i], roleName);
    RunStep(p, FabricToDbx, false, w, steps, roleName, i);
    var own := StepExecutes(p, before, steps[i], roleName);
    var more := LaterRowsAvoid(p, w, steps, roleName, i + 1, f.table, routine);
    LogAt(p, w, steps, roleName, i + 1);
    LogAt(p, w, steps, roleName, |steps|);
    assert steps[..|steps|] == steps;
    SetIsRead(before.executed, f, routine, more);
  }

  // ---------------------------------------------------------------- later rows of other tables

  lemma BeforeBar(a: string, b: string, x: string, y: string)
    requires '|' !in a && '|' !in b && a + ("|" + x) == b + ("|" + y)
    ensures a == b
  {
    SplitFirst(a, '|', x);
    SplitFirst(b, '|', y);
    assert a + ['|'] + x == a + ("|" + x) && b + ['|'] + y == b + ("|" + y);
    assert ([a] + Split(x, '|'))[0] == a && ([b] + Split(y, '|'))[0] == b;
  }

  lemma NoBar(p: Pairing, scope: string, query: string, principals: seq<string>, columns: seq<F.Column>,
              f: F.UcRowFilter)
    requires F.FabricRowFilter(scope, p.catalog, query, principals, columns) == R.Ok(f)
    ensures '|' !in f.table
  {
    var t := R.TableParts(scope, p.catalog).value;
    assert f.table == t.0 + "." + t.1 + "." + t.2;
    assert '|' !in t.0 && '|' !in t.1 && '|' !in t.2;
  }

  /** With function names that tell their seeds apart, a filter of another table avoids this one. */
  lemma OtherTableAvoids(p: Pairing, s: Step, query: string, principals: seq<string>, columns: seq<F.Column>,
                         f: F.UcRowFilter, s': Step, query': string, principals': seq<string>,
                         columns': seq<F.Column>, f': F.UcRowFilter, routineName: string -> string)
    requires UcFilterStep(p, s, query, principals, columns, f, routineName)
    requires UcFilterStep(p, s', query', principals', columns', f', routineName) && f'.table != f.table
    requires forall x, y :: routineName(x) == routineName(y) ==> x == y
    ensures Avoids(s', f.table, Routine(f, query, routineName))
  {
    NoBar(p, s.row.key.scope, query, principals, columns, f);
    NoBar(p, s'.row.key.scope, query', principals', columns', f');
    if Routine(f', query', routineName) == Routine(f, query, routineName) {
      BeforeBar(f.table, f'.table, R.NormalizeRowPredicate(query) + ("|" + Join(f.on, ",")),
                R.NormalizeRowPredicate(query') + ("|" + Join(f'.on, ",")));
    }
  }

  // ---------------------------------------------------------------- the next diff

  /** A listed filter key belongs to the table of its scope. */
  lemma KeysOfScope(executed: seq<Statement>, scopes: set<string>, catalog: string, signature: F.UcRowFilter -> string,
                    scope: string, query: string)
    requires scope in scopes
    ensures var filter := FilterOf(executed, TableName(scope, catalog));
            FilterKeyOf(scope, query) in FilterKeys(executed, scopes, catalog, signature) <==>
              filter.Some? && ListedKey(scope, catalog, filter.value, signature) == FilterKeyOf(scope, query)
  {
  }

  lemma PolicyKeyStays(directory: P.Directory, j: P.RowKey, scope: string, query: string)
    ensures NormKey(j, directory) == FilterKeyOf(scope, query) && '@' !in j.principal ==> j == FilterKeyOf(scope, query)
    ensures NormKey(FilterKeyOf(scope, query), directory) == FilterKeyOf(scope, query)
  {
    assert P.TABLE_POLICY_PRINCIPAL == "__table_policy__";
  }

  /** No principal is mapped to the name that stands for table policies. */
  ghost predicate NobodyIsPolicy(directory: P.Directory) {
    forall x :: directory(x).Some? ==> Lower(directory(x).value) != P.TABLE_POLICY_PRINCIPAL
  }

  /**
   A Fabric-only row filter reported as granted, in the next diff, whose Databricks side lists the row filters of the
   tables and other keys: it is in sync if and only if its normalised predicate passes validation and no member
   principal contains a closing parenthesis; otherwise it stays Fabric-only.
   */
  lemma GrantedFilterIsInSync(p: Pairing, w: World, steps: seq<Step>, roleName: string -> string, i: nat, query: string,
                              principals: seq<string>, columns: seq<F.Column>, f: F.UcRowFilter,
                              routineName: string -> string, signature: F.UcRowFilter -> string, scopes: set<string>,
                              others: set<P.RowKey>, directory: P.Directory, dbx: seq<P.DiffRow>,
                              dbx': seq<P.DiffRow>, fabric: seq<P.DiffRow>, b: P.Buckets, b': P.Buckets)
    requires i < |steps| && UcFilterStep(p, steps[i], query, principals, columns, f, routineName)
    requires Granted(ActionAt(p, FabricToDbx, false, w, steps, roleName, i))
    requires forall j :: i < j < |steps| ==> Avoids(steps[j], f.table, Routine(f, query, routineName))
    requires DbxSide(dbx) && DbxSide(dbx') && FabricSide(fabric) && NobodyIsPolicy(directory)
    requires steps[i].row.key.scope in scopes && steps[i].row.key !in others
    requires var after := WorldAfter(p, FabricToDbx, false, w, steps, roleName);
             P.KeysOf(dbx') == others + FilterKeys(after.executed, scopes, p.catalog, signature)
    requires P.IsDiff(b, P.NormalizedAll(dbx, fabric, directory))
    requires P.IsDiff(b', P.NormalizedAll(dbx', fabric, directory))
    requires steps[i].row in b.fabricOnly
    ensures var comesBack := R.Valid(R.NormalizeRowPredicate(query)) && forall x :: x in principals ==> ')' !in x;
            exists r' :: r' in (if comesBack then b'.inSync else b'.fabricOnly) && r'.key == steps[i].row.key
  {
    var r, scope := steps[i].row, steps[i].row.key.scope;
    var after := WorldAfter(p, FabricToDbx, false, w, steps, roleName);
    GrantedFilterIsDescribed(p, w, steps, roleName, i, query, principals, columns, f, routineName);
    ListedExactly(p, scope, query, principals, columns, f, signature);
    KeysOfScope(after.executed, scopes, p.catalog, signature, scope, query);
    WasOnFabricOnly(dbx, fabric, directory, b, r);
    SeenAfterFilter(dbx', fabric, directory, b', r);
    ReachesPolicy(P.KeysOf(dbx), directory, scope, query);
    ReachesPolicy(P.KeysOf(dbx'), directory, scope, query);
  }

  /** Only the key itself is normalised to the key of a table policy. */
  lemma ReachesPolicy(keys: set<P.RowKey>, directory: P.Directory, scope: string, query: string)
    requires NobodyIsPolicy(directory)
    ensures Reaches(keys, directory, FilterKeyOf(scope, query)) <==> FilterKeyOf(scope, query) in keys
  {
    var k := FilterKeyOf(scope, query);
    PolicyKeyStays(directory, k, scope, query);
    if j :| j in keys && NormKey(j, directory) == k {
      PolicyKeyStays(directory, j, scope, query);
      if '@' in j.principal {
        NormalizedPrincipal(directory, j);
      }
    }
  }

  /** A principal that is an address is left as it is, or becomes an id of the directory. */
  lemma NormalizedPrincipal(directory: P.Directory, j: P.RowKey)
    requires NobodyIsPolicy(directory) && '@' in j.principal
    ensures NormKey(j, directory).principal != P.TABLE_POLICY_PRINCIPAL
  {
    assert P.TABLE_POLICY_PRINCIPAL == "__table_policy__" && '@' !in "__table_policy__";
  }

  lemma WasOnFabricOnly(dbx: seq<P.DiffRow>, fabric: seq<P.DiffRow>, directory: P.Directory, b: P.Buckets, r: P.DiffRow)
    requires DbxSide(dbx) && FabricSide(fabric) && P.IsDiff(b, P.NormalizedAll(dbx, fabric, directory))
    requires r in b.fabricOnly
    ensures Collects(fabric, directory, r.key) && !Reaches(P.KeysOf(dbx), directory, r.key)
  {
    P.InBucket(b.all, P.FabricOnly, r);
    SeenOnFabric(dbx, fabric, directory, r.key);
    SeenByKey(dbx, fabric, directory, r.key);
  }

  lemma SeenAfterFilter(dbx: seq<P.DiffRow>, fabric: seq<P.DiffRow>, directory: P.Directory, b: P.Buckets, r: P.DiffRow)
    requires DbxSide(dbx) && FabricSide(fabric) && P.IsDiff(b, P.NormalizedAll(dbx, fabric, directory))
    requires Collects(fabric, directory, r.key)
    ensures exists r' :: r' in (if Reaches(P.KeysOf(dbx), directory, r.key) then b.inSync else b.fabricOnly)
                         && r'.key == r.key
  {
    SeenOnFabric(dbx, fabric, directory, r.key);
    SeenByKey(dbx, fabric, directory, r.key);
    EveryRowIsSeen(dbx, fabric, directory, r.key);
    var r' :| r' in b.all && r'.key == r.key;
    P.InBucket(b.all, P.InSync, r');
    P.InBucket(b.all, P.FabricOnly, r');
  }
}
