/**
 Laws of the materialisation: it is sound and complete, free of duplicates, and never loses a target when a tag is
 added.
 */
module AbacLaws {
  import opened Optional
  import opened Text
  import opened PyDict
  import opened TagCondition
  import opened Abac

  predicate Sat(c: Condition, tags: Tags) { Evaluate(c, tags) == Value(true) }

  // ---------------------------------------------------------------- what a policy asks for

  predicate ColumnSat(g: GovernedTags, c: Condition, schema: string, table: string, column: string)
  {
    Sat(c, DirectTags(g, schema, table, column))
  }

  /** The attachment covers the table, the condition on it holds, and every alias matches some column. */
  ghost predicate Applies(g: GovernedTags, l: Listing, p: Plan, schema: string, table: string)
    requires p.aliases.Valid()
  {
    && Covers(AttachmentOf(p.policy), l, schema, table)
    && Sat(p.when, TableTags(g, schema, table))
    && forall a :: a in p.aliases.at ==> AliasSat(g, l, p, schema, table, a)
  }

  predicate AliasSat(g: GovernedTags, l: Listing, p: Plan, schema: string, table: string, a: string)
    requires a in p.aliases.at
  {
    exists column :: column in ColumnsOf(l, schema, table) && ColumnSat(g, p.aliases.at[a], schema, table, column)
  }

  /** The first column in the table's order that satisfies a condition. */
  function FirstSat(g: GovernedTags, c: Condition, schema: string, table: string, columns: seq<string>): Option<string>
  {
    if columns == [] then None
    else
      var n := |columns| - 1;
      var before := FirstSat(g, c, schema, table, columns[..n]);
      if before.Some? then before
      else if ColumnSat(g, c, schema, table, columns[n]) then Some(columns[n])
      else None
  }

  /** The columns a row filter is given: for each alias of the plan it uses, the first column of that alias. */
  function InputsFor(g: GovernedTags, l: Listing, p: Plan, schema: string, table: string,
                     using: seq<Option<string>>): seq<string>
  {
    if using == [] then []
    else
      var last := using[|using| - 1];
      InputsFor(g, l, p, schema, table, using[..|using| - 1])
      + if last.Some? && last.value != "" && last.value in p.aliases.at
           && FirstSat(g, p.aliases.at[last.value], schema, table, ColumnsOf(l, schema, table)).Some?
        then [FirstSat(g, p.aliases.at[last.value], schema, table, ColumnsOf(l, schema, table)).value]
        else []
  }

  /** The targets a plan asks for. */
  ghost predicate Wanted(g: GovernedTags, l: Listing, p: Plan, t: Target)
    requires p.aliases.Valid()
  {
    Applies(g, l, p, t.schema, t.table) && WantedHere(g, l, p, t.schema, t.table, t)
  }

  ghost predicate WantedHere(g: GovernedTags, l: Listing, p: Plan, schema: string, table: string, t: Target)
    requires p.aliases.Valid()
  {
    if p.kind == RowFilter then t == FilterTarget(p, schema, table, InputsFor(g, l, p, schema, table, p.spec.using))
    else
      && MaskedAlias(p).Some?
      && t == MaskTarget(p, schema, table, t.column)
      && t.column in ColumnsOf(l, schema, table)
      && ColumnSat(g, p.aliases.at[MaskedAlias(p).value], schema, table, t.column)
  }

  // ---------------------------------------------------------------- sound and complete

  lemma {:induction false} MatchedExactly(g: GovernedTags, c: Condition, schema: string, table: string,
                                          columns: seq<string>, column: string)
    requires Matched(g, c, schema, table, columns).Some?
    ensures column in Matched(g, c, schema, table, columns).value <==>
              column in columns && ColumnSat(g, c, schema, table, column)
    ensures column in columns ==> Evaluate(c, DirectTags(g, schema, table, column)).Value?
  {
    if columns != [] {
      var n := |columns| - 1;
      MatchedExactly(g, c, schema, table, columns[..n], column);
      assert columns == columns[..n] + [columns[n]];
    }
  }

  lemma {:induction false} MatchedFirst(g: GovernedTags, c: Condition, schema: string, table: string,
                                        columns: seq<string>)
    requires Matched(g, c, schema, table, columns).Some?
    ensures var m := Matched(g, c, schema, table, columns).value;
            FirstSat(g, c, schema, table, columns) == if m == [] then None else Some(m[0])
  {
    if columns != [] {
      MatchedFirst(g, c, schema, table, columns[..|columns| - 1]);
    }
  }

  /** Unless an error is raised, every alias has its list of columns. */
  lemma NoneRaises(g: GovernedTags, l: Listing, p: Plan, schema: string, table: string, a: string)
    requires p.aliases.Valid() && !SomeRaises(g, l, p, schema, table, |p.aliases.keys|) && a in p.aliases.at
    ensures MatchedBy(g, l, p, schema, table, a).Some?
  {
    assert a in p.aliases.keys;
    var i :| 0 <= i < |p.aliases.keys| && p.aliases.keys[i] == a;
    assert !RaisesAt(g, l, p, schema, table, i);
  }

  lemma AliasMatches(g: GovernedTags, l: Listing, p: Plan, schema: string, table: string, a: string)
    requires p.aliases.Valid() && !SomeRaises(g, l, p, schema, table, |p.aliases.keys|) && a in p.aliases.at
    ensures MatchMap(g, l, p, schema, table)[a] != [] <==> AliasSat(g, l, p, schema, table, a)
    ensures MatchedBy(g, l, p, schema, table, a) == Some(MatchMap(g, l, p, schema, table)[a])
  {
    NoneRaises(g, l, p, schema, table, a);
    var m := MatchedBy(g, l, p, schema, table, a).value;
    var columns := ColumnsOf(l, schema, table);
    if m != [] {
      MatchedExactly(g, p.aliases.at[a], schema, table, columns, m[0]);
    }
    if column :| column in columns && ColumnSat(g, p.aliases.at[a], schema, table, column) {
      MatchedExactly(g, p.aliases.at[a], schema, table, columns, column);
    }
  }

  lemma {:induction false} InputsAreFirst(g: GovernedTags, l: Listing, p: Plan, schema: string, table: string,
                                          using: seq<Option<string>>)
    requires p.aliases.Valid() && !SomeRaises(g, l, p, schema, table, |p.aliases.keys|)
    ensures UsingColumns(using, MatchMap(g, l, p, schema, table)) == InputsFor(g, l, p, schema, table, using)
  {
    if using != [] {
      var last := using[|using| - 1];
      InputsAreFirst(g, l, p, schema, table, using[..|using| - 1]);
      if last.Some? && last.value in p.aliases.at {
        AliasMatches(g, l, p, schema, table, last.value);
        MatchedFirst(g, p.aliases.at[last.value], schema, table, ColumnsOf(l, schema, table));
      }
    }
  }

  lemma InMaskTargets(p: Plan, schema: string, table: string, columns: seq<string>, t: Target)
    ensures t in MaskTargets(p, schema, table, columns) <==>
              t == MaskTarget(p, schema, table, t.column) && t.column in columns
  {
    if t == MaskTarget(p, schema, table, t.column) && t.column in columns {
      var i :| 0 <= i < |columns| && columns[i] == t.column;
      assert MaskTargets(p, schema, table, columns)[i] == t;
    }
  }

  lemma EmitIsExact(g: GovernedTags, l: Listing, p: Plan, schema: string, table: string, t: Target)
    requires p.aliases.Valid() && !SomeRaises(g, l, p, schema, table, |p.aliases.keys|)
    ensures t in Emit(p, schema, table, MatchMap(g, l, p, schema, table)) <==>
              (forall a :: a in p.aliases.at ==> AliasSat(g, l, p, schema, table, a))
              && WantedHere(g, l, p, schema, table, t)
  {
    var m := MatchMap(g, l, p, schema, table);
    forall a | a in p.aliases.at
      ensures m[a] != [] <==> AliasSat(g, l, p, schema, table, a)
    {
      AliasMatches(g, l, p, schema, table, a);
    }
    if p.kind == RowFilter {
      InputsAreFirst(g, l, p, schema, table, p.spec.using);
    } else if MaskedAlias(p).Some? {
      var a := MaskedAlias(p).value;
      AliasMatches(g, l, p, schema, table, a);
      InMaskTargets(p, schema, table, m[a], t);
      MatchedExactly(g, p.aliases.at[a], schema, table, ColumnsOf(l, schema, table), t.column);
    }
  }

  /** The targets of one table. */
  lemma TableIsExact(g: GovernedTags, l: Listing, p: Plan, schema: string, table: string, t: Target)
    requires p.aliases.Valid() && EmittedFor(g, l, p, schema, table).Out?
    ensures t in EmittedFor(g, l, p, schema, table).targets <==>
              && Sat(p.when, TableTags(g, schema, table))
              && (forall a :: a in p.aliases.at ==> AliasSat(g, l, p, schema, table, a))
              && WantedHere(g, l, p, schema, table, t)
  {
    if Sat(p.when, TableTags(g, schema, table)) {
      EmitIsExact(g, l, p, schema, table, t);
    }
  }

  lemma {:induction false} EveryTableIsOut(g: GovernedTags, l: Listing, p: Plan, candidates: seq<(string, string)>,
                                           c: (string, string))
    requires p.aliases.Valid() && EmittedForAll(g, l, p, candidates).Out? && c in candidates
    ensures EmittedFor(g, l, p, c.0, c.1).Out?
  {
    var n := |candidates| - 1;
    if c != candidates[n] {
      EveryTableIsOut(g, l, p, candidates[..n], c);
    }
  }

  /** The candidate a target is emitted for. */
  lemma {:induction false} FromSomeTable(g: GovernedTags, l: Listing, p: Plan, candidates: seq<(string, string)>,
                                         t: Target)
    returns (c: (string, string))
    requires p.aliases.Valid() && EmittedForAll(g, l, p, candidates).Out?
    requires t in EmittedForAll(g, l, p, candidates).targets
    ensures c in candidates && EmittedFor(g, l, p, c.0, c.1).Out? && t in EmittedFor(g, l, p, c.0, c.1).targets
  {
    var n := |candidates| - 1;
    c := candidates[n];
    if t !in EmittedFor(g, l, p, c.0, c.1).targets {
      c := FromSomeTable(g, l, p, candidates[..n], t);
    }
  }

  lemma {:induction false} InSomeTable(g: GovernedTags, l: Listing, p: Plan, candidates: seq<(string, string)>,
                                       c: (string, string), t: Target)
    requires p.aliases.Valid() && EmittedForAll(g, l, p, candidates).Out? && c in candidates
    requires EmittedFor(g, l, p, c.0, c.1).Out? && t in EmittedFor(g, l, p, c.0, c.1).targets
    ensures t in EmittedForAll(g, l, p, candidates).targets
  {
    var n := |candidates| - 1;
    if c != candidates[n] {
      InSomeTable(g, l, p, candidates[..n], c, t);
    }
  }

  /** A successful resolution emits exactly the targets the policy asks for. */
  lemma ResolutionIsExact(g: GovernedTags, l: Listing, p: Policy, t: Target)
    requires Resolution(g, l, p).Out?
    ensures t in Resolution(g, l, p).targets <==> PlanOf(p).Some? && Wanted(g, l, PlanOf(p).value, t)
  {
    if PlanOf(p).Some? {
      var plan := PlanOf(p).value;
      var candidates := CandidatesOf(AttachmentOf(p), l);
      if t in Resolution(g, l, p).targets {
        var c := FromSomeTable(g, l, plan, candidates, t);
        TableIsExact(g, l, plan, c.0, c.1, t);
        CandidatesAreCovered(AttachmentOf(p), l, c);
      }
      if Wanted(g, l, plan, t) {
        CandidatesAreCovered(AttachmentOf(p), l, (t.schema, t.table));
        EveryTableIsOut(g, l, plan, candidates, (t.schema, t.table));
        TableIsExact(g, l, plan, t.schema, t.table, t);
        InSomeTable(g, l, plan, candidates, (t.schema, t.table), t);
      }
    }
  }

  // ---------------------------------------------------------------- when it succeeds

  predicate Plain(c: Condition) { c.When? ==> CallFree(c.tree) }

  lemma PlainHasValue(c: Condition, tags: Tags)
    requires Plain(c)
    ensures Evaluate(c, tags).Value?
  {
    if c.When? {
      CallFreeHasValue(c.tree, tags);
    }
  }

  lemma {:induction false} PlainMatches(g: GovernedTags, c: Condition, schema: string, table: string,
                                        columns: seq<string>)
    requires Plain(c)
    ensures Matched(g, c, schema, table, columns).Some?
  {
    if columns != [] {
      PlainMatches(g, c, schema, table, columns[..|columns| - 1]);
      PlainHasValue(c, DirectTags(g, schema, table, columns[|columns| - 1]));
    }
  }

  lemma {:induction false} PlainEmits(g: GovernedTags, l: Listing, p: Plan, candidates: seq<(string, string)>)
    requires p.aliases.Valid() && Plain(p.when) && forall a :: a in p.aliases.at ==> Plain(p.aliases.at[a])
    ensures EmittedForAll(g, l, p, candidates).Out?
  {
    if candidates != [] {
      var c := candidates[|candidates| - 1];
      PlainEmits(g, l, p, candidates[..|candidates| - 1]);
      PlainHasValue(p.when, TableTags(g, c.0, c.1));
      forall i | 0 <= i < |p.aliases.keys|
        ensures !RaisesAt(g, l, p, c.0, c.1, i)
      {
        assert p.aliases.keys[i] in p.aliases.keys;
        PlainMatches(g, p.aliases.at[p.aliases.keys[i]], c.0, c.1, ColumnsOf(l, c.0, c.1));
      }
    }
  }

  /** Conditions in which no group stands directly behind an operand never raise, on any tags. */
  lemma PlainPoliciesResolve(g: GovernedTags, l: Listing, p: Policy)
    requires PlanOf(p).Some? ==> Plain(PlanOf(p).value.when)
    requires PlanOf(p).Some? ==>
               forall a :: a in PlanOf(p).value.aliases.at ==> Plain(PlanOf(p).value.aliases.at[a])
    ensures Resolution(g, l, p).Out?
  {
    if PlanOf(p).Some? {
      PlainEmits(g, l, PlanOf(p).value, CandidatesOf(AttachmentOf(p), l));
    }
  }

  // ---------------------------------------------------------------- no duplicates

  predicate Distinct<T(==)>(xs: seq<T>) { forall i, j :: 0 <= i < j < |xs| ==> xs[i] != xs[j] }

  lemma DistinctConcat<T>(a: seq<T>, b: seq<T>)
    requires Distinct(a) && Distinct(b) && forall x :: x in a ==> x !in b
    ensures Distinct(a + b)
  {
    forall i, j | 0 <= i < j < |a + b|
      ensures (a + b)[i] != (a + b)[j]
    {
      if i < |a| && j >= |a| {
        assert a[i] in a;
      }
    }
  }

  predicate DistinctListing(l: Listing) {
    && Distinct(l.tables.keys)
    && (forall s :: s in l.tables.at ==> Distinct(l.tables.at[s]))
    && (forall t :: t in l.columns ==> Distinct(l.columns[t]))
  }

  lemma DistinctPairs(schema: string, tables: seq<string>)
    requires Distinct(tables)
    ensures Distinct(Pairs(schema, tables))
  {
  }

  lemma {:induction false} DistinctFirst(l: Listing, n: nat)
    requires DistinctListing(l) && n <= |l.tables.keys|
    ensures Distinct(PairsOfFirst(l, n))
  {
    if n > 0 {
      var schema := l.tables.keys[n - 1];
      DistinctFirst(l, n - 1);
      DistinctPairs(schema, TablesOf(l, schema));
      forall c | c in PairsOfFirst(l, n - 1)
        ensures c !in Pairs(schema, TablesOf(l, schema))
      {
        InPairsOfFirst(l, n - 1, c);
        var i :| 0 <= i < n - 1 && l.tables.keys[i] == c.0;
        InPairs(schema, TablesOf(l, schema), c);
      }
      DistinctConcat(PairsOfFirst(l, n - 1), Pairs(schema, TablesOf(l, schema)));
    }
  }

  lemma DistinctCandidates(a: Attachment, l: Listing)
    requires DistinctListing(l)
    ensures Distinct(CandidatesOf(a, l))
  {
    match a
    case OnTable(_, _) =>
    case OnSchema(schema) => DistinctPairs(schema, TablesOf(l, schema));
    case OnCatalog => DistinctFirst(l, |l.tables.keys|);
  }

  lemma {:induction false} DistinctMatched(g: GovernedTags, c: Condition, schema: string, table: string,
                                           columns: seq<string>)
    requires Matched(g, c, schema, table, columns).Some? && Distinct(columns)
    ensures Distinct(Matched(g, c, schema, table, columns).value)
  {
    if columns != [] {
      var n := |columns| - 1;
      DistinctMatched(g, c, schema, table, columns[..n]);
      MatchedExactly(g, c, schema, table, columns[..n], columns[n]);
    }
  }

  lemma DistinctEmitted(g: GovernedTags, l: Listing, p: Plan, schema: string, table: string)
    requires p.aliases.Valid() && DistinctListing(l) && EmittedFor(g, l, p, schema, table).Out?
    ensures Distinct(EmittedFor(g, l, p, schema, table).targets)
  {
    if Sat(p.when, TableTags(g, schema, table)) && p.kind == ColumnMask && MaskedAlias(p).Some? {
      var a := MaskedAlias(p).value;
      AliasMatches(g, l, p, schema, table, a);
      DistinctMatched(g, p.aliases.at[a], schema, table, ColumnsOf(l, schema, table));
      DistinctMasks(p, schema, table, MatchMap(g, l, p, schema, table)[a]);
    }
  }

  lemma DistinctMasks(p: Plan, schema: string, table: string, columns: seq<string>)
    requires Distinct(columns)
    ensures Distinct(MaskTargets(p, schema, table, columns))
  {
    var ts := MaskTargets(p, schema, table, columns);
    assert forall i :: 0 <= i < |ts| ==> ts[i].column == columns[i];
  }

  lemma {:induction false} DistinctAll(g: GovernedTags, l: Listing, p: Plan, candidates: seq<(string, string)>)
    requires p.aliases.Valid() && DistinctListing(l) && Distinct(candidates) && EmittedForAll(g, l, p, candidates).Out?
    ensures Distinct(EmittedForAll(g, l, p, candidates).targets)
  {
    if candidates != [] {
      var n := |candidates| - 1;
      var c := candidates[n];
      DistinctAll(g, l, p, candidates[..n]);
      DistinctEmitted(g, l, p, c.0, c.1);
      var before, last := EmittedForAll(g, l, p, candidates[..n]).targets, EmittedFor(g, l, p, c.0, c.1).targets;
      forall t | t in before
        ensures t !in last
      {
        var b := FromSomeTable(g, l, p, candidates[..n], t);
        TableIsExact(g, l, p, b.0, b.1, t);
        TableIsExact(g, l, p, c.0, c.1, t);
        assert b == (t.schema, t.table);
      }
      DistinctConcat(before, last);
    }
  }

  /** No target is emitted twice when the listing repeats no schema, table or column. */
  lemma NoDuplicates(g: GovernedTags, l: Listing, p: Policy)
    requires DistinctListing(l) && Resolution(g, l, p).Out?
    ensures Distinct(Resolution(g, l, p).targets)
  {
    if PlanOf(p).Some? {
      DistinctCandidates(AttachmentOf(p), l);
      DistinctAll(g, l, PlanOf(p).value, CandidatesOf(AttachmentOf(p), l));
    }
  }

  // ---------------------------------------------------------------- monotone

  /** More tags everywhere, none changed. */
  ghost predicate MoreTags(g: GovernedTags, g': GovernedTags) {
    && (forall s, t :: Extends(TableTags(g, s, t), TableTags(g', s, t)))
    && (forall s, t, c :: Extends(DirectTags(g, s, t, c), DirectTags(g', s, t, c)))
  }

  /** Of the conditions of a covered table none raises. */
  lemma SatStays(g: GovernedTags, g': GovernedTags, l: Listing, p: Plan, schema: string, table: string)
    requires MoreTags(g, g') && p.aliases.Valid() && Applies(g, l, p, schema, table)
    requires EmittedFor(g', l, p, schema, table).Out?
    ensures Applies(g', l, p, schema, table)
    ensures !SomeRaises(g', l, p, schema, table, |p.aliases.keys|)
  {
    ConditionIsMonotone(p.when, TableTags(g, schema, table), TableTags(g', schema, table));
    forall a | a in p.aliases.at
      ensures AliasSat(g', l, p, schema, table, a)
    {
      var column :| column in ColumnsOf(l, schema, table) && ColumnSat(g, p.aliases.at[a], schema, table, column);
      ColumnStays(g, g', l, p, schema, table, a, column);
    }
  }

  lemma ColumnStays(g: GovernedTags, g': GovernedTags, l: Listing, p: Plan, schema: string, table: string, a: string,
                    column: string)
    requires MoreTags(g, g') && p.aliases.Valid() && !SomeRaises(g', l, p, schema, table, |p.aliases.keys|)
    requires a in p.aliases.at
    requires column in ColumnsOf(l, schema, table) && ColumnSat(g, p.aliases.at[a], schema, table, column)
    ensures ColumnSat(g', p.aliases.at[a], schema, table, column)
  {
    NoneRaises(g', l, p, schema, table, a);
    MatchedExactly(g', p.aliases.at[a], schema, table, ColumnsOf(l, schema, table), column);
    ConditionIsMonotone(p.aliases.at[a], DirectTags(g, schema, table, column), DirectTags(g', schema, table, column));
  }

  /** The place a target is bound to. */
  predicate SamePlace(a: Target, b: Target) {
    a.kind == b.kind && a.schema == b.schema && a.table == b.table && a.column == b.column
  }

  /** Adding tags never removes a masked column or a filtered table, as long as neither resolution raises. */
  lemma ResolutionIsMonotone(g: GovernedTags, g': GovernedTags, l: Listing, p: Policy, t: Target)
    requires MoreTags(g, g') && Resolution(g, l, p).Out? && Resolution(g', l, p).Out?
    requires t in Resolution(g, l, p).targets
    ensures exists t' :: t' in Resolution(g', l, p).targets && SamePlace(t, t')
  {
    ResolutionIsExact(g, l, p, t);
    var plan := PlanOf(p).value;
    var candidates := CandidatesOf(AttachmentOf(p), l);
    CandidatesAreCovered(AttachmentOf(p), l, (t.schema, t.table));
    EveryTableIsOut(g', l, plan, candidates, (t.schema, t.table));
    SatStays(g, g', l, plan, t.schema, t.table);
    var inputs := InputsFor(g', l, plan, t.schema, t.table, plan.spec.using);
    var t' := if plan.kind == RowFilter then FilterTarget(plan, t.schema, t.table, inputs) else t;
    if plan.kind == ColumnMask {
      ColumnStays(g, g', l, plan, t.schema, t.table, MaskedAlias(plan).value, t.column);
    }
    assert Wanted(g', l, plan, t');
    ResolutionIsExact(g', l, p, t');
  }

  /** With conditions in which no group stands behind an operand, nothing can raise, so nothing is ever lost. */
  lemma PlainPoliciesAreMonotone(g: GovernedTags, g': GovernedTags, l: Listing, p: Policy, t: Target)
    requires MoreTags(g, g') && PlanOf(p).Some?
    requires Plain(PlanOf(p).value.when)
    requires forall a :: a in PlanOf(p).value.aliases.at ==> Plain(PlanOf(p).value.aliases.at[a])
    ensures Resolution(g, l, p).Out? && Resolution(g', l, p).Out?
    ensures t in Resolution(g, l, p).targets ==> exists t' :: t' in Resolution(g', l, p).targets && SamePlace(t, t')
  {
    PlainPoliciesResolve(g, l, p);
    PlainPoliciesResolve(g', l, p);
    if t in Resolution(g, l, p).targets {
      ResolutionIsMonotone(g, g', l, p, t);
    }
  }

  // ---------------------------------------------------------------- adding one tag

  /** The order of keys without one of them. */
  function Drop(keys: seq<string>, k: string): seq<string> {
    if keys == [] then []
    else Drop(keys[..|keys| - 1], k) + if keys[|keys| - 1] == k then [] else [keys[|keys| - 1]]
  }

  predicate Lacks(d: TagDict, k: string) { k !in d.at && k !in d.keys }

  /** The dictionary d' is d with one more key, wherever it stands. */
  ghost predicate Plus(d: TagDict, d': TagDict, k: string, v: string) {
    Lacks(d, k) && d'.at == d.at[k := v] && Drop(d'.keys, k) == d.keys
  }

  lemma {:induction false} DropAbsent(keys: seq<string>, k: string)
    requires k !in keys
    ensures Drop(keys, k) == keys
  {
    if keys != [] {
      DropAbsent(keys[..|keys| - 1], k);
    }
  }

  lemma DropMore(keys: seq<string>, x: string, k: string)
    ensures Drop(keys + [x], k) == Drop(keys, k) + if x == k then [] else [x]
  {
    assert (keys + [x])[..|keys|] == keys;
  }

  lemma PlusNew(d: TagDict, k: string, v: string)
    requires Lacks(d, k)
    ensures Plus(d, Put(d, k, v), k, v)
  {
    DropAbsent(d.keys, k);
    DropMore(d.keys, k, k);
  }

  lemma PlusPut(d: TagDict, d': TagDict, k: string, v: string, x: string, w: string)
    requires Plus(d, d', k, v) && x != k
    ensures Plus(Put(d, x, w), Put(d', x, w), k, v)
  {
    DropMore(d'.keys, x, k);
    assert d'.at[x := w] == d.at[x := w][k := v];
  }

  lemma {:induction false} PlusUpdate(d: TagDict, d': TagDict, e: TagDict, n: nat, k: string, v: string)
    requires Plus(d, d', k, v) && k !in e.keys && n <= |e.keys|
    ensures Plus(UpdateFirst(d, e, n), UpdateFirst(d', e, n), k, v)
  {
    if n > 0 {
      PlusUpdate(d, d', e, n - 1, k, v);
      PlusPut(UpdateFirst(d, e, n - 1), UpdateFirst(d', e, n - 1), k, v, e.keys[n - 1], GetOr(e, e.keys[n - 1], ""));
    }
  }

  lemma {:induction false} UpdatePrefix(d: TagDict, e: TagDict, n: nat, k: string, v: string)
    requires Lacks(e, k) && n <= |e.keys|
    ensures UpdateFirst(d, Put(e, k, v), n) == UpdateFirst(d, e, n)
  {
    if n > 0 {
      UpdatePrefix(d, e, n - 1, k, v);
      assert Put(e, k, v).keys[n - 1] == e.keys[n - 1];
    }
  }

  lemma {:induction false} StillLacks(d: TagDict, e: TagDict, n: nat, k: string)
    requires Lacks(d, k) && k !in e.keys && n <= |e.keys|
    ensures Lacks(UpdateFirst(d, e, n), k)
  {
    if n > 0 {
      StillLacks(d, e, n - 1, k);
    }
  }

  lemma UpdateWithNew(d: TagDict, e: TagDict, k: string, v: string)
    requires Lacks(d, k) && Lacks(e, k)
    ensures Plus(Update(d, e), Update(d, Put(e, k, v)), k, v)
  {
    UpdatePrefix(d, e, |e.keys|, k, v);
    StillLacks(d, e, |e.keys|, k);
    PlusNew(Update(d, e), k, v);
    assert Put(e, k, v).keys == e.keys + [k];
  }

  /** The lower-case tags other than the added one, with and without it. */
  lemma {:induction false} LowerDrop(keys: seq<string>, d: TagDict, d': TagDict, k: string, low: string)
    requires (forall x :: x != k ==> GetOr(d, x, "") == GetOr(d', x, "")) && low != Lower(k)
    ensures low in LowerOf(Drop(keys, k), d) ==>
              low in LowerOf(keys, d') && LowerOf(keys, d')[low] == LowerOf(Drop(keys, k), d)[low]
  {
    if keys != [] {
      var n := |keys| - 1;
      LowerDrop(keys[..n], d, d', k, low);
      if keys[n] != k {
        var dropped := Drop(keys, k);
        assert dropped[..|dropped| - 1] == Drop(keys[..n], k);
      } else {
        assert Drop(keys, k) == Drop(keys[..n], k);
      }
    }
  }

  /** A key that is new whatever its case only adds to the lower-case tags. */
  lemma PlusExtends(d: TagDict, d': TagDict, k: string, v: string)
    requires Plus(d, d', k, v) && Lower(k) !in LowerKeys(d)
    ensures Extends(LowerKeys(d), LowerKeys(d'))
  {
    forall low | low in LowerKeys(d)
      ensures low in LowerKeys(d') && LowerKeys(d')[low] == LowerKeys(d)[low]
    {
      LowerDrop(d'.keys, d, d', k, low);
    }
  }

  /** A key that is absent whatever its case is absent. */
  lemma AbsentKey(d: TagDict, k: string)
    requires d.Valid() && Lower(k) !in LowerKeys(d)
    ensures Lacks(d, k)
  {
    if k in d.keys {
      LowerHas(d.keys, d, k);
    }
  }

  function AddColumnTag(g: GovernedTags, schema: string, table: string, column: string, k: string,
                        v: string): GovernedTags {
    g.(column := g.column[(schema, table, column) := Put(ColumnTags(g, schema, table, column), k, v)])
  }

  function AddTableTag(g: GovernedTags, schema: string, table: string, k: string, v: string): GovernedTags {
    g.(table := g.table[(schema, table) := Put(OwnTableTags(g, schema, table), k, v)])
  }

  function AddSchemaTag(g: GovernedTags, schema: string, k: string, v: string): GovernedTags {
    g.(schema := g.schema[schema := Put(SchemaTags(g, schema), k, v)])
  }

  function AddCatalogTag(g: GovernedTags, k: string, v: string): GovernedTags {
    g.(catalog := Put(g.catalog, k, v))
  }

  /** Nothing changes where the three levels do not. */
  lemma SameTableTags(g: GovernedTags, g': GovernedTags, schema: string, table: string)
    requires g.catalog == g'.catalog && SchemaTags(g, schema) == SchemaTags(g', schema)
    requires OwnTableTags(g, schema, table) == OwnTableTags(g', schema, table)
    ensures Extends(TableTags(g, schema, table), TableTags(g', schema, table))
  {
  }

  lemma SameColumnTags(g: GovernedTags, g': GovernedTags, schema: string, table: string, column: string)
    requires ColumnTags(g, schema, table, column) == ColumnTags(g', schema, table, column)
    ensures Extends(DirectTags(g, schema, table, column), DirectTags(g', schema, table, column))
  {
  }

  lemma ColumnTagAddsAt(g: GovernedTags, schema: string, table: string, column: string, k: string, v: string)
    requires g.Valid() && Lower(k) !in DirectTags(g, schema, table, column)
    ensures Extends(DirectTags(g, schema, table, column),
                    DirectTags(AddColumnTag(g, schema, table, column, k, v), schema, table, column))
  {
    var d := ColumnTags(g, schema, table, column);
    AbsentKey(d, k);
    PlusNew(d, k, v);
    PlusExtends(d, Put(d, k, v), k, v);
  }

  /** A tag key the column does not have, in whatever case. */
  lemma ColumnTagAdds(g: GovernedTags, schema: string, table: string, column: string, k: string, v: string)
    requires g.Valid() && Lower(k) !in DirectTags(g, schema, table, column)
    ensures MoreTags(g, AddColumnTag(g, schema, table, column, k, v))
  {
    var g' := AddColumnTag(g, schema, table, column, k, v);
    forall s, t
      ensures Extends(TableTags(g, s, t), TableTags(g', s, t))
    {
      SameTableTags(g, g', s, t);
    }
    forall s, t, c
      ensures Extends(DirectTags(g, s, t, c), DirectTags(g', s, t, c))
    {
      if (s, t, c) != (schema, table, column) {
        SameColumnTags(g, g', s, t, c);
      } else {
        ColumnTagAddsAt(g, schema, table, column, k, v);
      }
    }
  }

  /** The columns keep their tags when only the levels above change. */
  lemma ColumnsKept(g: GovernedTags, g': GovernedTags)
    requires g.column == g'.column
    ensures forall s, t, c :: Extends(DirectTags(g, s, t, c), DirectTags(g', s, t, c))
  {
    forall s, t, c
      ensures Extends(DirectTags(g, s, t, c), DirectTags(g', s, t, c))
    {
      SameColumnTags(g, g', s, t, c);
    }
  }

  /** A key absent from what a table inherits is absent at all three levels. */
  lemma AbsentAbove(g: GovernedTags, schema: string, table: string, k: string)
    requires g.Valid() && Lower(k) !in TableTags(g, schema, table)
    ensures Lacks(OwnTableTags(g, schema, table), k) && Lacks(SchemaTags(g, schema), k) && Lacks(g.catalog, k)
    ensures Lacks(Update(g.catalog, SchemaTags(g, schema)), k)
  {
    var s := SchemaTags(g, schema);
    EffectiveIsValid(g, schema, table);
    AbsentKey(EffectiveTableTags(g, schema, table), k);
    EffectiveIsInherited(g, schema, table, k);
    StillLacks(g.catalog, s, |s.keys|, k);
  }

  lemma TableTagAddsAt(g: GovernedTags, schema: string, table: string, k: string, v: string)
    requires g.Valid() && Lower(k) !in TableTags(g, schema, table)
    ensures Extends(TableTags(g, schema, table), TableTags(AddTableTag(g, schema, table, k, v), schema, table))
  {
    var g' := AddTableTag(g, schema, table, k, v);
    var own := OwnTableTags(g, schema, table);
    AbsentAbove(g, schema, table, k);
    UpdateWithNew(Update(g.catalog, SchemaTags(g, schema)), own, k, v);
    assert OwnTableTags(g', schema, table) == Put(own, k, v);
    PlusExtends(EffectiveTableTags(g, schema, table), EffectiveTableTags(g', schema, table), k, v);
  }

  /** A tag key the table neither has nor inherits. */
  lemma TableTagAdds(g: GovernedTags, schema: string, table: string, k: string, v: string)
    requires g.Valid() && Lower(k) !in TableTags(g, schema, table)
    ensures MoreTags(g, AddTableTag(g, schema, table, k, v))
  {
    var g' := AddTableTag(g, schema, table, k, v);
    ColumnsKept(g, g');
    forall s, t
      ensures Extends(TableTags(g, s, t), TableTags(g', s, t))
    {
      if (s, t) != (schema, table) {
        SameTableTags(g, g', s, t);
      } else {
        TableTagAddsAt(g, schema, table, k, v);
      }
    }
  }

  lemma SchemaTagAddsAt(g: GovernedTags, schema: string, table: string, k: string, v: string)
    requires g.Valid() && Lower(k) !in TableTags(g, schema, table)
    ensures Extends(TableTags(g, schema, table), TableTags(AddSchemaTag(g, schema, k, v), schema, table))
  {
    var g' := AddSchemaTag(g, schema, k, v);
    AbsentAbove(g, schema, table, k);
    UpdateWithNew(g.catalog, SchemaTags(g, schema), k, v);
    var own := OwnTableTags(g, schema, table);
    assert SchemaTags(g', schema) == Put(SchemaTags(g, schema), k, v);
    PlusUpdate(Update(g.catalog, SchemaTags(g, schema)), Update(g.catalog, SchemaTags(g', schema)), own, |own.keys|, k,
               v);
    PlusExtends(EffectiveTableTags(g, schema, table), EffectiveTableTags(g', schema, table), k, v);
  }

  /** A tag key no table of the schema has or inherits. */
  lemma SchemaTagAdds(g: GovernedTags, schema: string, k: string, v: string)
    requires g.Valid() && forall t :: Lower(k) !in TableTags(g, schema, t)
    ensures MoreTags(g, AddSchemaTag(g, schema, k, v))
  {
    var g' := AddSchemaTag(g, schema, k, v);
    ColumnsKept(g, g');
    forall s, t
      ensures Extends(TableTags(g, s, t), TableTags(g', s, t))
    {
      if s == schema {
        SchemaTagAddsAt(g, schema, t, k, v);
      } else {
        SameTableTags(g, g', s, t);
      }
    }
  }

  lemma CatalogTagAddsAt(g: GovernedTags, s: string, t: string, k: string, v: string)
    requires g.Valid() && Lower(k) !in TableTags(g, s, t)
    ensures Extends(TableTags(g, s, t), TableTags(AddCatalogTag(g, k, v), s, t))
  {
    var g' := AddCatalogTag(g, k, v);
    AbsentAbove(g, s, t, k);
    PlusNew(g.catalog, k, v);
    var schema, own := SchemaTags(g, s), OwnTableTags(g, s, t);
    PlusUpdate(g.catalog, g'.catalog, schema, |schema.keys|, k, v);
    PlusUpdate(Update(g.catalog, schema), Update(g'.catalog, schema), own, |own.keys|, k, v);
    PlusExtends(EffectiveTableTags(g, s, t), EffectiveTableTags(g', s, t), k, v);
  }

  /** A tag key no table of the catalog has or inherits. */
  lemma CatalogTagAdds(g: GovernedTags, k: string, v: string)
    requires g.Valid() && forall s, t :: Lower(k) !in TableTags(g, s, t)
    ensures MoreTags(g, AddCatalogTag(g, k, v))
  {
    var g' := AddCatalogTag(g, k, v);
    ColumnsKept(g, g');
    forall s, t
      ensures Extends(TableTags(g, s, t), TableTags(g', s, t))
    {
      CatalogTagAddsAt(g, s, t, k, v);
    }
  }
}
