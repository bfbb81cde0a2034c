/**
 Materialising tag-driven policies (app/services/abac_resolver.py): which tables and columns a policy applies to,
 given the tags they carry now.
 */
module Abac {
  import opened Optional
  import opened Text
  import opened PyDict
  import opened TagCondition

  type TagDict = Dict<string, string>

  // ---------------------------------------------------------------- tags

  datatype GovernedTags = GovernedTags(
    catalog: TagDict,
    schema: map<string, TagDict>,
    table: map<(string, string), TagDict>,
    column: map<(string, string, string), TagDict>)
  {
    ghost predicate Valid() {
      && catalog.Valid()
      && (forall s :: s in schema ==> schema[s].Valid())
      && (forall t :: t in table ==> table[t].Valid())
      && (forall c :: c in column ==> column[c].Valid())
    }
  }

  const NO_TAGS: TagDict := Dict([], map[])

  /** `d.update(e)`, for the first n keys of e. */
  function UpdateFirst(d: TagDict, e: TagDict, n: nat): TagDict
    requires n <= |e.keys|
  {
    if n == 0 then d
    else Put(UpdateFirst(d, e, n - 1), e.keys[n - 1], GetOr(e, e.keys[n - 1], ""))
  }

  function Update(d: TagDict, e: TagDict): TagDict {
    UpdateFirst(d, e, |e.keys|)
  }

  function SchemaTags(g: GovernedTags, schema: string): TagDict {
    if schema in g.schema then g.schema[schema] else NO_TAGS
  }

  function OwnTableTags(g: GovernedTags, schema: string, table: string): TagDict {
    if (schema, table) in g.table then g.table[(schema, table)] else NO_TAGS
  }

  /** `effective_table_tags`: catalog, then schema, then table, a child overriding its parent. */
  function EffectiveTableTags(g: GovernedTags, schema: string, table: string): TagDict {
    Update(Update(g.catalog, SchemaTags(g, schema)), OwnTableTags(g, schema, table))
  }

  /** `column_tags`: nothing is inherited. */
  function ColumnTags(g: GovernedTags, schema: string, table: string, column: string): TagDict {
    if (schema, table, column) in g.column then g.column[(schema, table, column)] else NO_TAGS
  }

  /** `_lower_keys`: of two keys that differ only in case the later one counts. */
  function LowerOf(keys: seq<string>, d: TagDict): Tags {
    if keys == [] then map[]
    else LowerOf(keys[..|keys| - 1], d)[Lower(keys[|keys| - 1]) := GetOr(d, keys[|keys| - 1], "")]
  }

  function LowerKeys(d: TagDict): Tags {
    LowerOf(d.keys, d)
  }

  function TableTags(g: GovernedTags, schema: string, table: string): Tags {
    LowerKeys(EffectiveTableTags(g, schema, table))
  }

  function DirectTags(g: GovernedTags, schema: string, table: string, column: string): Tags {
    LowerKeys(ColumnTags(g, schema, table, column))
  }

  // ---------------------------------------------------------------- laws of the tags

  /** What `d.get(k)` gives. */
  function Lookup(d: TagDict, k: string): Option<string> {
    if k in d.at then Some(d.at[k]) else None
  }

  lemma InPrefix(keys: seq<string>, n: nat, k: string)
    requires n < |keys|
    ensures k in keys[..n + 1] <==> k in keys[..n] || k == keys[n]
  {
    assert keys[..n + 1] == keys[..n] + [keys[n]];
  }

  lemma {:induction false} UpdateFirstAt(d: TagDict, e: TagDict, n: nat, k: string)
    requires n <= |e.keys|
    ensures Lookup(UpdateFirst(d, e, n), k) == if k in e.keys[..n] then Some(GetOr(e, k, "")) else Lookup(d, k)
  {
    if n > 0 {
      UpdateFirstAt(d, e, n - 1, k);
      InPrefix(e.keys, n - 1, k);
    }
  }

  lemma UpdateAt(d: TagDict, e: TagDict, k: string)
    requires e.Valid()
    ensures Lookup(Update(d, e), k) == if k in e.at then Lookup(e, k) else Lookup(d, k)
  {
    UpdateFirstAt(d, e, |e.keys|, k);
    assert e.keys[..|e.keys|] == e.keys;
  }

  lemma {:induction false} UpdateFirstValid(d: TagDict, e: TagDict, n: nat)
    requires d.Valid() && n <= |e.keys|
    ensures UpdateFirst(d, e, n).Valid()
  {
    if n > 0 {
      UpdateFirstValid(d, e, n - 1);
      PutValid(UpdateFirst(d, e, n - 1), e.keys[n - 1], GetOr(e, e.keys[n - 1], ""));
    }
  }

  lemma EffectiveIsValid(g: GovernedTags, schema: string, table: string)
    requires g.Valid()
    ensures EffectiveTableTags(g, schema, table).Valid()
  {
    var s, t := SchemaTags(g, schema), OwnTableTags(g, schema, table);
    UpdateFirstValid(g.catalog, s, |s.keys|);
    UpdateFirstValid(Update(g.catalog, s), t, |t.keys|);
  }

  /** A lower-case key has the value of one of its spellings. */
  lemma {:induction false} LowerOfSome(keys: seq<string>, d: TagDict, low: string) returns (k: string)
    requires low in LowerOf(keys, d)
    ensures k in keys && Lower(k) == low && LowerOf(keys, d)[low] == GetOr(d, k, "")
  {
    var n := |keys| - 1;
    k := keys[n];
    if Lower(keys[n]) != low {
      k := LowerOfSome(keys[..n], d, low);
    }
  }

  lemma {:induction false} LowerHas(keys: seq<string>, d: TagDict, k: string)
    requires k in keys
    ensures Lower(k) in LowerOf(keys, d)
  {
    var n := |keys| - 1;
    if keys[n] != k {
      LowerHas(keys[..n], d, k);
    }
  }

  /** The value a key has for a table: its own, else its schema's, else the catalog's. */
  function Inherited(g: GovernedTags, schema: string, table: string, key: string): Option<string> {
    if key in OwnTableTags(g, schema, table).at then Lookup(OwnTableTags(g, schema, table), key)
    else if key in SchemaTags(g, schema).at then Lookup(SchemaTags(g, schema), key)
    else Lookup(g.catalog, key)
  }

  lemma EffectiveIsInherited(g: GovernedTags, schema: string, table: string, key: string)
    requires g.Valid()
    ensures Lookup(EffectiveTableTags(g, schema, table), key) == Inherited(g, schema, table, key)
  {
    UpdateAt(g.catalog, SchemaTags(g, schema), key);
    UpdateAt(Update(g.catalog, SchemaTags(g, schema)), OwnTableTags(g, schema, table), key);
  }

  /** A key that the table has or inherits is seen, in lower case, with its own value. */
  predicate Seen(g: GovernedTags, schema: string, table: string, key: string) {
    Inherited(g, schema, table, key).Some? ==>
      Lower(key) in TableTags(g, schema, table)
      && TableTags(g, schema, table)[Lower(key)] == Inherited(g, schema, table, key).value
  }

  /** Two keys that differ only in case, if the table has or inherits both, carry the same value. */
  predicate CaseAgrees(g: GovernedTags, schema: string, table: string, j: string, k: string) {
    var v, w := Inherited(g, schema, table, j), Inherited(g, schema, table, k);
    Lower(j) == Lower(k) && v.Some? && w.Some? ==> v == w
  }

  /** What conditions see under a lower-case key is what the table inherits under one of its spellings. */
  lemma SeenIsInherited(g: GovernedTags, schema: string, table: string, low: string) returns (k: string)
    requires g.Valid() && low in TableTags(g, schema, table)
    ensures Lower(k) == low && Inherited(g, schema, table, k) == Some(TableTags(g, schema, table)[low])
  {
    var d := EffectiveTableTags(g, schema, table);
    EffectiveIsValid(g, schema, table);
    k := LowerOfSome(d.keys, d, low);
    EffectiveIsInherited(g, schema, table, k);
  }

  lemma InheritedIsSeen(g: GovernedTags, schema: string, table: string, k: string)
    requires g.Valid() && Inherited(g, schema, table, k).Some?
    ensures Lower(k) in TableTags(g, schema, table)
  {
    var d := EffectiveTableTags(g, schema, table);
    EffectiveIsValid(g, schema, table);
    EffectiveIsInherited(g, schema, table, k);
    LowerHas(d.keys, d, k);
  }

  /**
   Conditions on a table see table over schema over catalog, exactly: every key the table has or inherits is seen with
   its own value if and only if keys that differ only in case carry equal values.
   */
  lemma TableOverSchemaOverCatalog(g: GovernedTags, schema: string, table: string)
    requires g.Valid()
    ensures (forall key :: Seen(g, schema, table, key)) <==> forall j, k :: CaseAgrees(g, schema, table, j, k)
  {
    if forall j, k :: CaseAgrees(g, schema, table, j, k) {
      forall key
        ensures Seen(g, schema, table, key)
      {
        if Inherited(g, schema, table, key).Some? {
          InheritedIsSeen(g, schema, table, key);
          var k := SeenIsInherited(g, schema, table, Lower(key));
          assert CaseAgrees(g, schema, table, key, k);
        }
      }
    }
    if forall key :: Seen(g, schema, table, key) {
      forall j, k
        ensures CaseAgrees(g, schema, table, j, k)
      {
        assert Seen(g, schema, table, j) && Seen(g, schema, table, k);
      }
    }
  }

  function OneTag(key: string, value: string): TagDict {
    Dict([key], map[key := value])
  }

  /**
   Without that proviso it fails: when the catalog has a key too, a schema's spelling of it in another case hides
   what the table says.
   */
  lemma CaseCanHideTheTable(key: string, other: string, a: string, b: string, c: string)
    requires key != other && Lower(key) == Lower(other)
    ensures var g := GovernedTags(OneTag(key, a), map["s" := OneTag(other, b)], map[("s", "t") := OneTag(key, c)],
                                  map[]);
            Inherited(g, "s", "t", key) == Some(c) && TableTags(g, "s", "t") == map[Lower(key) := b]
  {
    UpdateOne(OneTag(key, a), other, b);
    PutOther(key, other, a, b);
    UpdateOne(TwoTags(key, other, a, b), key, c);
    PutAgain(key, other, a, b, c);
    LowerOfTwo(key, other, c, b);
  }

  lemma PutOther(key: string, other: string, a: string, b: string)
    requires key != other
    ensures Put(OneTag(key, a), other, b) == TwoTags(key, other, a, b)
  {
  }

  lemma PutAgain(key: string, other: string, a: string, b: string, c: string)
    requires key != other
    ensures Put(TwoTags(key, other, a, b), key, c) == TwoTags(key, other, c, b)
  {
  }

  function TwoTags(key: string, other: string, a: string, b: string): TagDict {
    Dict([key, other], map[key := a, other := b])
  }

  lemma UpdateOne(d: TagDict, key: string, value: string)
    ensures Update(d, OneTag(key, value)) == Put(d, key, value)
  {
    assert UpdateFirst(d, OneTag(key, value), 0) == d;
  }

  lemma LowerOfTwo(key: string, other: string, c: string, b: string)
    requires key != other && Lower(key) == Lower(other)
    ensures LowerKeys(TwoTags(key, other, c, b)) == map[Lower(key) := b]
  {
    var d := TwoTags(key, other, c, b);
    assert d.keys[..1] == [key] && [key][..0] == [];
    assert LowerOf([key], d) == map[Lower(key) := c];
  }

  // ---------------------------------------------------------------- policies

  datatype Kind = RowFilter | ColumnMask

  /** The bound part of a policy; a `using` entry without an alias is a constant. */
  datatype Spec = Spec(functionName: string, onColumn: string, using: seq<Option<string>>)

  datatype Match = Match(alias: string, condition: seq<Piece>)

  datatype Policy = Policy(name: string, columnMask: Option<Spec>, rowFilter: Option<Spec>, typeSaysMask: bool,
                           typeSaysFilter: bool,
                           when: seq<Piece>, matches: seq<Match>, onType: string, onFullName: string,
                           toPrincipals: seq<string>, exceptPrincipals: seq<string>)

  datatype Target = Target(kind: Kind, schema: string, table: string, column: string, inputColumns: seq<string>,
                           functionName: string,
                           policyName: string, when: seq<Piece>, toPrincipals: seq<string>,
                           exceptPrincipals: seq<string>)

  function PolicyKind(p: Policy): Option<Kind> {
    if p.columnMask.Some? || p.typeSaysMask then Some(ColumnMask)
    else if p.rowFilter.Some? || p.typeSaysFilter then Some(RowFilter)
    else None
  }

  function PolicySpec(p: Policy, kind: Kind): Spec {
    var spec := if kind == ColumnMask then p.columnMask else p.rowFilter;
    if spec.Some? then spec.value else Spec("", "", [])
  }

  datatype Attachment = OnCatalog | OnSchema(schema: string) | OnTable(schema: string, table: string)

  /** `_scope_schema_table`; the type is in upper case. */
  function AttachmentOf(p: Policy): Attachment {
    var parts := Split(p.onFullName, '.');
    if p.onType == "SCHEMA" && |parts| >= 2 then OnSchema(parts[1])
    else if p.onType == "TABLE" && |parts| >= 3 then OnTable(parts[1], parts[2])
    else OnCatalog
  }

  // ---------------------------------------------------------------- candidate tables

  datatype Listing = Listing(tables: Dict<string, seq<string>>, columns: map<(string, string), seq<string>>)

  function TablesOf(l: Listing, schema: string): seq<string> {
    GetOr(l.tables, schema, [])
  }

  function Pairs(schema: string, tables: seq<string>): seq<(string, string)> {
    seq(|tables|, i requires 0 <= i < |tables| => (schema, tables[i]))
  }

  function PairsOfFirst(l: Listing, n: nat): seq<(string, string)>
    requires n <= |l.tables.keys|
  {
    if n == 0 then [] else PairsOfFirst(l, n - 1) + Pairs(l.tables.keys[n - 1], TablesOf(l, l.tables.keys[n - 1]))
  }

  function CandidatesOf(a: Attachment, l: Listing): seq<(string, string)> {
    match a
    case OnTable(schema, table) => [(schema, table)]
    case OnSchema(schema) => Pairs(schema, TablesOf(l, schema))
    case OnCatalog => PairsOfFirst(l, |l.tables.keys|)
  }

  method CandidateTables(a: Attachment, l: Listing) returns (out: seq<(string, string)>)
    ensures out == CandidatesOf(a, l)
  {
    out := [];
    match a
    case OnTable(schema, table) => out := out + [(schema, table)];
    case OnSchema(schema) => out := out + Pairs(schema, TablesOf(l, schema));
    case OnCatalog =>
      var i := 0;
      while i < |l.tables.keys|
        invariant 0 <= i <= |l.tables.keys|
        invariant out == PairsOfFirst(l, i)
      {
        out := out + Pairs(l.tables.keys[i], TablesOf(l, l.tables.keys[i]));
        i := i + 1;
      }
  }

  /** The attachment covers the table. */
  predicate Covers(a: Attachment, l: Listing, schema: string, table: string) {
    match a
    case OnTable(s, t) => schema == s && table == t
    case OnSchema(s) => schema == s && table in TablesOf(l, s)
    case OnCatalog => schema in l.tables.keys && table in TablesOf(l, schema)
  }

  lemma InPairs(schema: string, tables: seq<string>, c: (string, string))
    ensures c in Pairs(schema, tables) <==> c.0 == schema && c.1 in tables
  {
    if c.0 == schema && c.1 in tables {
      var i :| 0 <= i < |tables| && tables[i] == c.1;
      assert Pairs(schema, tables)[i] == c;
    }
  }

  lemma {:induction false} InPairsOfFirst(l: Listing, n: nat, c: (string, string))
    requires n <= |l.tables.keys|
    ensures c in PairsOfFirst(l, n) <==> c.0 in l.tables.keys[..n] && c.1 in TablesOf(l, c.0)
  {
    if n > 0 {
      InPairsOfFirst(l, n - 1, c);
      InPairs(l.tables.keys[n - 1], TablesOf(l, l.tables.keys[n - 1]), c);
      assert l.tables.keys[..n] == l.tables.keys[..n - 1] + [l.tables.keys[n - 1]];
    }
  }

  lemma CandidatesAreCovered(a: Attachment, l: Listing, c: (string, string))
    ensures c in CandidatesOf(a, l) <==> Covers(a, l, c.0, c.1)
  {
    match a
    case OnTable(_, _) =>
    case OnSchema(schema) => InPairs(schema, TablesOf(l, schema), c);
    case OnCatalog =>
      InPairsOfFirst(l, |l.tables.keys|, c);
      assert l.tables.keys[..|l.tables.keys|] == l.tables.keys;
  }

  // ---------------------------------------------------------------- resolving one table

  /** What a policy comes down to once its conditions are parsed. */
  datatype Plan = Plan(kind: Kind, spec: Spec, when: Condition, aliases: Dict<string, Condition>, policy: Policy)

  /** The columns that satisfy a condition, in order; none at all when evaluation raises. */
  function Matched(g: GovernedTags, c: Condition, schema: string, table: string,
                   columns: seq<string>): Option<seq<string>>
  {
    if columns == [] then Some([])
    else
      var n := |columns| - 1;
      var before := Matched(g, c, schema, table, columns[..n]);
      if before.None? then None
      else
        match Evaluate(c, DirectTags(g, schema, table, columns[n]))
        case TypeError => None
        case Value(holds) => Some(before.value + if holds then [columns[n]] else [])
  }

  method MatchColumns(g: GovernedTags, c: Condition, schema: string, table: string, columns: seq<string>)
      returns (r: Option<seq<string>>)
    ensures r == Matched(g, c, schema, table, columns)
  {
    var matched: seq<string> := [];
    var i := 0;
    while i < |columns|
      invariant 0 <= i <= |columns|
      invariant Some(matched) == Matched(g, c, schema, table, columns[..i])
    {
      assert columns[..i + 1][..i] == columns[..i];
      var v := Evaluate(c, DirectTags(g, schema, table, columns[i]));
      if v.TypeError? {
        MatchedRaises(g, c, schema, table, columns, i + 1);
        return None;
      }
      assert columns[..i + 1][i] == columns[i];
      if v.holds {
        matched := matched + [columns[i]];
      } else {
        assert matched + [] == matched;
      }
      i := i + 1;
    }
    assert columns[..i] == columns;
    r := Some(matched);
  }

  lemma {:induction false} MatchedRaises(g: GovernedTags, c: Condition, schema: string, table: string,
                                         columns: seq<string>, n: nat)
    requires n <= |columns| && Matched(g, c, schema, table, columns[..n]).None?
    ensures Matched(g, c, schema, table, columns).None?
  {
    if n < |columns| {
      assert columns[..|columns| - 1][..n] == columns[..n];
      MatchedRaises(g, c, schema, table, columns[..|columns| - 1], n);
    } else {
      assert columns[..n] == columns;
    }
  }

  function ColumnsOf(l: Listing, schema: string, table: string): seq<string> {
    if (schema, table) in l.columns then l.columns[(schema, table)] else []
  }

  function MatchedBy(g: GovernedTags, l: Listing, p: Plan, schema: string, table: string,
                     alias: string): Option<seq<string>>
    requires alias in p.aliases.at
  {
    Matched(g, p.aliases.at[alias], schema, table, ColumnsOf(l, schema, table))
  }

  predicate SomeRaises(g: GovernedTags, l: Listing, p: Plan, schema: string, table: string, n: nat)
    requires p.aliases.Valid() && n <= |p.aliases.keys|
  {
    exists i :: 0 <= i < n && RaisesAt(g, l, p, schema, table, i)
  }

  predicate RaisesAt(g: GovernedTags, l: Listing, p: Plan, schema: string, table: string, i: nat)
    requires p.aliases.Valid() && i < |p.aliases.keys|
  {
    assert p.aliases.keys[i] in p.aliases.keys;
    MatchedBy(g, l, p, schema, table, p.aliases.keys[i]).None?
  }

  /** `alias_matches` for the aliases; a raised error ends it. */
  method MatchAliases(g: GovernedTags, l: Listing, p: Plan, schema: string, table: string)
      returns (r: Option<map<string, seq<string>>>)
    requires p.aliases.Valid()
    ensures r.None? <==> SomeRaises(g, l, p, schema, table, |p.aliases.keys|)
    ensures r.Some? ==> r.value.Keys == p.aliases.at.Keys
                        && forall a :: a in p.aliases.at ==> MatchedBy(g, l, p, schema, table, a) == Some(r.value[a])
  {
    var m: map<string, seq<string>> := map[];
    var i := 0;
    while i < |p.aliases.keys|
      invariant 0 <= i <= |p.aliases.keys|
      invariant !SomeRaises(g, l, p, schema, table, i)
      invariant forall a :: a in m <==> a in p.aliases.keys[..i]
      invariant forall a :: a in m ==> a in p.aliases.at && MatchedBy(g, l, p, schema, table, a) == Some(m[a])
    {
      var alias := p.aliases.keys[i];
      assert alias in p.aliases.keys;
      assert p.aliases.keys[..i + 1] == p.aliases.keys[..i] + [alias];
      var matched := MatchColumns(g, p.aliases.at[alias], schema, table, ColumnsOf(l, schema, table));
      if matched.None? {
        assert RaisesAt(g, l, p, schema, table, i);
        return None;
      }
      m := m[alias := matched.value];
      i := i + 1;
    }
    assert p.aliases.keys[..i] == p.aliases.keys;
    r := Some(m);
  }

  /** The alias whose columns are masked: the named one, else the first. */
  function MaskedAlias(p: Plan): Option<string>
    requires p.aliases.Valid()
    ensures MaskedAlias(p).Some? ==> MaskedAlias(p).value in p.aliases.at
  {
    if p.spec.onColumn in p.aliases.at then Some(p.spec.onColumn)
    else if p.aliases.keys != [] then
      assert p.aliases.keys[0] in p.aliases.keys;
      Some(p.aliases.keys[0])
    else None
  }

  function MaskTarget(p: Plan, schema: string, table: string, column: string): Target {
    Target(ColumnMask, schema, table, column, [column], p.spec.functionName, p.policy.name, p.policy.when,
           p.policy.toPrincipals, p.policy.exceptPrincipals)
  }

  function FilterTarget(p: Plan, schema: string, table: string, columns: seq<string>): Target {
    Target(RowFilter, schema, table, "", columns, p.spec.functionName, p.policy.name, p.policy.when,
           p.policy.toPrincipals, p.policy.exceptPrincipals)
  }

  function MaskTargets(p: Plan, schema: string, table: string, columns: seq<string>): seq<Target> {
    seq(|columns|, i requires 0 <= i < |columns| => MaskTarget(p, schema, table, columns[i]))
  }

  /** `_resolve_using_columns`: the first column of each alias that matched one. */
  function UsingColumns(using: seq<Option<string>>, m: map<string, seq<string>>): seq<string> {
    if using == [] then []
    else
      var last := using[|using| - 1];
      UsingColumns(using[..|using| - 1], m)
      + if last.Some? && last.value != "" && last.value in m && m[last.value] != [] then [m[last.value][0]] else []
  }

  method ResolveUsingColumns(using: seq<Option<string>>, m: map<string, seq<string>>) returns (columns: seq<string>)
    ensures columns == UsingColumns(using, m)
  {
    columns := [];
    var i := 0;
    while i < |using|
      invariant 0 <= i <= |using|
      invariant columns == UsingColumns(using[..i], m)
    {
      assert using[..i + 1][..i] == using[..i];
      if using[i].Some? && using[i].value != "" {
        var alias := using[i].value;
        if alias in m && m[alias] != [] {
          columns := columns + [m[alias][0]];
        }
      }
      i := i + 1;
    }
    assert using[..i] == using;
  }

  /** What is emitted for one table, or the error raised there. */
  datatype Emitted = Raised | Out(targets: seq<Target>)

  /** Every alias matched something. */
  predicate AllMatch(m: map<string, seq<string>>) { forall a :: a in m ==> m[a] != [] }

  function Emit(p: Plan, schema: string, table: string, m: map<string, seq<string>>): seq<Target>
    requires p.aliases.Valid() && m.Keys == p.aliases.at.Keys
  {
    if !AllMatch(m) then []
    else if p.kind == RowFilter then [FilterTarget(p, schema, table, UsingColumns(p.spec.using, m))]
    else if MaskedAlias(p).Some? then MaskTargets(p, schema, table, m[MaskedAlias(p).value])
    else []
  }

  ghost function MatchMap(g: GovernedTags, l: Listing, p: Plan, schema: string, table: string): map<string, seq<string>>
    requires p.aliases.Valid() && !SomeRaises(g, l, p, schema, table, |p.aliases.keys|)
  {
    map a | a in p.aliases.at :: ListOr(MatchedBy(g, l, p, schema, table, a))
  }

  function ListOr(o: Option<seq<string>>): seq<string> {
    if o.Some? then o.value else []
  }

  ghost function EmittedFor(g: GovernedTags, l: Listing, p: Plan, schema: string, table: string): Emitted
    requires p.aliases.Valid()
  {
    match Evaluate(p.when, TableTags(g, schema, table))
    case TypeError => Raised
    case Value(holds) =>
      if !holds then Out([])
      else if SomeRaises(g, l, p, schema, table, |p.aliases.keys|) then Raised
      else Out(Emit(p, schema, table, MatchMap(g, l, p, schema, table)))
  }

  lemma MatchMapIs(g: GovernedTags, l: Listing, p: Plan, schema: string, table: string, m: map<string, seq<string>>)
    requires p.aliases.Valid() && !SomeRaises(g, l, p, schema, table, |p.aliases.keys|)
    requires m.Keys == p.aliases.at.Keys
    requires forall a :: a in p.aliases.at ==> MatchedBy(g, l, p, schema, table, a) == Some(m[a])
    ensures m == MatchMap(g, l, p, schema, table)
  {
  }

  method MaskColumns(p: Plan, schema: string, table: string, m: map<string, seq<string>>) returns (out: seq<Target>)
    requires p.aliases.Valid() && m.Keys == p.aliases.at.Keys && AllMatch(m)
    ensures out == if MaskedAlias(p).Some? then MaskTargets(p, schema, table, m[MaskedAlias(p).value]) else []
  {
    var masked := if p.spec.onColumn in m then m[p.spec.onColumn] else [];
    if masked == [] && p.aliases.keys != [] {
      assert p.aliases.keys[0] in p.aliases.keys;
      masked := m[p.aliases.keys[0]];
    }
    out := [];
    var i := 0;
    while i < |masked|
      invariant 0 <= i <= |masked|
      invariant out == MaskTargets(p, schema, table, masked[..i])
    {
      out := out + [MaskTarget(p, schema, table, masked[i])];
      i := i + 1;
    }
    assert masked[..i] == masked;
  }

  method ResolveTable(g: GovernedTags, l: Listing, p: Plan, schema: string, table: string) returns (r: Emitted)
    requires p.aliases.Valid()
    ensures r == EmittedFor(g, l, p, schema, table)
  {
    var v := Evaluate(p.when, TableTags(g, schema, table));
    if v.TypeError? {
      return Raised;
    }
    if !v.holds {
      return Out([]);
    }
    var matches := MatchAliases(g, l, p, schema, table);
    if matches.None? {
      return Raised;
    }
    var m := matches.value;
    MatchMapIs(g, l, p, schema, table, m);
    if exists a :: a in m && m[a] == [] {
      return Out([]);
    }
    assert AllMatch(m);
    var out: seq<Target> := [];
    if p.kind == ColumnMask {
      out := MaskColumns(p, schema, table, m);
    } else {
      var columns := ResolveUsingColumns(p.spec.using, m);
      out := out + [FilterTarget(p, schema, table, columns)];
    }
    r := Out(out);
  }

  // ---------------------------------------------------------------- resolving a policy

  function ParsedAliases(matches: seq<Match>): (r: Option<Dict<string, Condition>>)
    ensures r.Some? ==> r.value.Valid()
  {
    if matches == [] then Some(Empty())
    else
      var last := matches[|matches| - 1];
      var before := ParsedAliases(matches[..|matches| - 1]);
      var c := ConditionOf(last.condition);
      if before.None? || c.None? then None
      else
        PutValid(before.value, last.alias, c.value);
        Some(Put(before.value, last.alias, c.value))
  }

  method ParseAliases(matches: seq<Match>) returns (r: Option<Dict<string, Condition>>)
    ensures r == ParsedAliases(matches)
  {
    var d: Dict<string, Condition> := Empty();
    var i := 0;
    while i < |matches|
      invariant 0 <= i <= |matches| && d.Valid()
      invariant Some(d) == ParsedAliases(matches[..i])
    {
      assert matches[..i + 1][..i] == matches[..i];
      var c := ParseTagCondition(matches[i].condition);
      if c.None? {
        AliasesStayUnparsed(matches, i + 1);
        return None;
      }
      PutValid(d, matches[i].alias, c.value);
      d := Put(d, matches[i].alias, c.value);
      i := i + 1;
    }
    assert matches[..i] == matches;
    r := Some(d);
  }

  lemma {:induction false} AliasesStayUnparsed(matches: seq<Match>, n: nat)
    requires n <= |matches| && ParsedAliases(matches[..n]).None?
    ensures ParsedAliases(matches).None?
  {
    if n < |matches| {
      assert matches[..|matches| - 1][..n] == matches[..n];
      AliasesStayUnparsed(matches[..|matches| - 1], n);
    } else {
      assert matches[..n] == matches;
    }
  }

  /** A policy of no known kind, or with a condition outside the grammar, has no plan. */
  function PlanOf(p: Policy): (r: Option<Plan>)
    ensures r.Some? ==> r.value.aliases.Valid()
  {
    var kind := PolicyKind(p);
    if kind.None? then None
    else
      var when := ConditionOf(p.when);
      var aliases := ParsedAliases(p.matches);
      if when.None? || aliases.None? then None
      else Some(Plan(kind.value, PolicySpec(p, kind.value), when.value, aliases.value, p))
  }

  ghost function EmittedForAll(g: GovernedTags, l: Listing, p: Plan, candidates: seq<(string, string)>): Emitted
    requires p.aliases.Valid()
  {
    if candidates == [] then Out([])
    else
      var n := |candidates| - 1;
      var before := EmittedForAll(g, l, p, candidates[..n]);
      var last := EmittedFor(g, l, p, candidates[n].0, candidates[n].1);
      if before.Raised? || last.Raised? then Raised else Out(before.targets + last.targets)
  }

  ghost function Resolution(g: GovernedTags, l: Listing, p: Policy): Emitted
  {
    var plan := PlanOf(p);
    if plan.None? then Out([]) else EmittedForAll(g, l, plan.value, CandidatesOf(AttachmentOf(p), l))
  }

  /** `resolve_policy` */
  method ResolvePolicy(g: GovernedTags, l: Listing, p: Policy) returns (r: Emitted)
    ensures r == Resolution(g, l, p)
  {
    var kind := PolicyKind(p);
    if kind.None? {
      return Out([]);
    }
    var when := ParseTagCondition(p.when);
    var aliases := ParseAliases(p.matches);
    if when.None? || aliases.None? {
      return Out([]);
    }
    var plan := Plan(kind.value, PolicySpec(p, kind.value), when.value, aliases.value, p);
    var candidates := CandidateTables(AttachmentOf(p), l);
    var out: seq<Target> := [];
    var i := 0;
    while i < |candidates|
      invariant 0 <= i <= |candidates|
      invariant Out(out) == EmittedForAll(g, l, plan, candidates[..i])
    {
      assert candidates[..i + 1][..i] == candidates[..i];
      var e := ResolveTable(g, l, plan, candidates[i].0, candidates[i].1);
      if e.Raised? {
        StaysRaised(g, l, plan, candidates, i + 1);
        return Raised;
      }
      out := out + e.targets;
      i := i + 1;
    }
    assert candidates[..i] == candidates;
    r := Out(out);
  }

  lemma {:induction false} StaysRaised(g: GovernedTags, l: Listing, p: Plan, candidates: seq<(string, string)>, n: nat)
    requires p.aliases.Valid() && n <= |candidates| && EmittedForAll(g, l, p, candidates[..n]).Raised?
    ensures EmittedForAll(g, l, p, candidates).Raised?
  {
    if n < |candidates| {
      assert candidates[..|candidates| - 1][..n] == candidates[..n];
      StaysRaised(g, l, p, candidates[..|candidates| - 1], n);
    } else {
      assert candidates[..n] == candidates;
    }
  }
}
