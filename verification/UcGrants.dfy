/**
 Unity Catalog grants: the order in which pair_apply.py writes them, and what pair_diff.py collects
 from them afterwards.
 */
module UcGrants {
  import opened Optional
  import opened Text
  import opened PyDict
  import D = DarRoles
  import P = PairDiff

  type Access = D.Access

  datatype SecurableType = Catalog | Schema | Table

  datatype Holding = Holding(kind: SecurableType, name: string, principal: string)

  /** Who holds what. */
  type Grants = map<Holding, set<string>>

  /** One call that adds privileges. */
  datatype Op = Op(kind: SecurableType, name: string, privileges: seq<string>)

  function HeldBy(g: Grants, h: Holding): set<string> {
    if h in g then g[h] else {}
  }

  // ---------------------------------------------------------------- planning a grant

  /** `s.partition(c)`, without the separator. */
  function Partition(s: string, c: char): (string, string) {
    if s == "" then ("", "")
    else if s[0] == c then ("", s[1..])
    else var rest := Partition(s[1..], c); ([s[0]] + rest.0, rest.1)
  }

  /** `_uc_target_from_scope` */
  function UcTarget(scope: string, defaultCatalog: string): (SecurableType, string) {
    var (scopeType, raw) := Partition(scope, ':');
    var name := Strip(raw);
    var parts := NonEmpty(Split(name, '.'));
    if scopeType == "schema" then (Schema, if |parts| >= 2 then name else Qualified(defaultCatalog, name))
    else if scopeType == "table" then (Table, if |parts| >= 3 then name else Qualified(defaultCatalog, name))
    else (Catalog, if scopeType == "catalog" && name != "" then name else defaultCatalog)
  }

  function Qualified(catalog: string, name: string): string { catalog + "." + name }

  /** `_uc_privileges_for_scope` */
  function PrivilegesFor(access: Access, kind: SecurableType): seq<string> {
    match access
    case DATA_READ => Traverse(kind) + ["SELECT"]
    case DATA_WRITE => Traverse(kind) + ["MODIFY"]
    case DATA_ADMIN => ["ALL_PRIVILEGES"]
    case OBJECT_USE => Traverse(kind)
    case OtherAccess(_) => []
  }

  /** The privilege to look inside a container; a table is not one. */
  function Traverse(kind: SecurableType): seq<string> {
    match kind
    case Catalog => ["USE_CATALOG"]
    case Schema => ["USE_SCHEMA"]
    case Table => []
  }

  /** `_uc_parent_grants` */
  function ParentGrants(kind: SecurableType, fullName: string): seq<Op> {
    var parts := NonEmpty(Split(fullName, '.'));
    (if !kind.Catalog? && parts != [] then [Op(Catalog, parts[0], ["USE_CATALOG"])] else [])
    + if kind.Table? && |parts| >= 2 then [Op(Schema, parts[0] + "." + parts[1], ["USE_SCHEMA"])] else []
  }

  /** `_uc_grant_operations`: the parents first. */
  function Operations(kind: SecurableType, fullName: string, privileges: seq<string>): seq<Op> {
    ParentGrants(kind, fullName) + [Op(kind, fullName, privileges)]
  }

  // ---------------------------------------------------------------- writing

  function Added(g: Grants, principal: string, op: Op): Grants {
    var h := Holding(op.kind, op.name, principal);
    if op.privileges == [] then g else g[h := HeldBy(g, h) + set p | p in op.privileges]
  }

  function AddedAll(g: Grants, principal: string, ops: seq<Op>): Grants {
    if ops == [] then g
    else Added(AddedAll(g, principal, ops[..|ops| - 1]), principal, ops[|ops| - 1])
  }

  /** How many calls complete; a call without privileges is passed over, so it cannot fail. */
  function Completed(ops: seq<Op>, failing: nat): (n: nat)
    ensures n <= |ops|
  {
    if failing < |ops| && ops[failing].privileges != [] then failing else |ops|
  }

  class UnityCatalog {
    var grants: Grants

    constructor (grants: Grants)
      ensures this.grants == grants
    {
      this.grants := grants;
    }

    /**
     `_grant_uc_privileges`: one call per operation, up to the first that fails (the call number `failing`, if any).
     */
    method GrantPrivileges(kind: SecurableType, fullName: string, principal: string, privileges: seq<string>,
                           failing: nat)
        returns (ok: bool)
      modifies this
      ensures var ops := Operations(kind, fullName, privileges);
              && ok == (Completed(ops, failing) == |ops|)
              && grants == AddedAll(old(grants), principal, ops[..Completed(ops, failing)])
    {
      ok := CallAll(principal, Operations(kind, fullName, privileges), failing);
    }

    method CallAll(principal: string, ops: seq<Op>, failing: nat) returns (ok: bool)
      modifies this
      ensures ok == (Completed(ops, failing) == |ops|)
      ensures grants == AddedAll(old(grants), principal, ops[..Completed(ops, failing)])
    {
      var i := 0;
      while i < |ops|
        invariant 0 <= i <= Completed(ops, failing)
        invariant grants == AddedAll(old(grants), principal, ops[..i])
      {
        AddedMore(old(grants), principal, ops, i);
        if ops[i].privileges != [] {
          if i == failing {
            return false;
          }
          grants := Added(grants, principal, ops[i]);
        }
        i := i + 1;
      }
      ok := true;
    }
  }

  lemma AddedMore(g: Grants, principal: string, ops: seq<Op>, i: nat)
    requires i < |ops|
    ensures AddedAll(g, principal, ops[..i + 1]) == Added(AddedAll(g, principal, ops[..i]), principal, ops[i])
  {
    assert ops[..i + 1][..i] == ops[..i];
  }

  lemma {:induction false} HeldAfter(g: Grants, principal: string, ops: seq<Op>, h: Holding)
    ensures HeldBy(AddedAll(g, principal, ops), h) ==
              HeldBy(g, h) + set op, p | op in ops && h == Holding(op.kind, op.name, principal)
              && p in op.privileges :: p
  {
    if ops != [] {
      var last := |ops| - 1;
      HeldAfter(g, principal, ops[..last], h);
      assert ops == ops[..last] + [ops[last]];
    }
  }

  // ---------------------------------------------------------------- reachability

  /** A privilege on the data itself, as opposed to the two that only let one look inside. */
  predicate OnData(privilege: string) {
    privilege != "USE_CATALOG" && privilege != "USE_SCHEMA"
  }

  /** Every parent of the securable lets the principal in. */
  ghost predicate ParentsOpen(g: Grants, h: Holding) {
    forall op :: op in ParentGrants(h.kind, h.name) ==>
      var held := HeldBy(g, Holding(op.kind, op.name, h.principal));
      op.privileges[0] in held || "ALL_PRIVILEGES" in held
  }

  /** Whoever holds a data privilege can get to it. */
  ghost predicate Reachable(g: Grants) {
    forall h, p :: p in HeldBy(g, h) && OnData(p) ==> ParentsOpen(g, h)
  }

  lemma OpenStaysOpen(g: Grants, principal: string, ops: seq<Op>, h: Holding)
    requires ParentsOpen(g, h)
    ensures ParentsOpen(AddedAll(g, principal, ops), h)
  {
    forall op | op in ParentGrants(h.kind, h.name)
      ensures var held := HeldBy(AddedAll(g, principal, ops), Holding(op.kind, op.name, h.principal));
              op.privileges[0] in held || "ALL_PRIVILEGES" in held
    {
      HeldAfter(g, principal, ops, Holding(op.kind, op.name, h.principal));
    }
  }

  lemma ParentsOnlyTraverse(op: Op, kind: SecurableType, fullName: string, p: string)
    ensures op in ParentGrants(kind, fullName) && p in op.privileges ==> !OnData(p)
  {}

  /** Who holds more after some calls was granted it by one of them. */
  lemma NewPrivilege(g: Grants, principal: string, ops: seq<Op>, h: Holding, p: string) returns (op: Op)
    requires p in HeldBy(AddedAll(g, principal, ops), h) && p !in HeldBy(g, h)
    ensures op in ops && h == Holding(op.kind, op.name, principal) && p in op.privileges
  {
    HeldAfter(g, principal, ops, h);
    op :| op in ops && h == Holding(op.kind, op.name, principal) && p in op.privileges;
  }

  lemma GrantedIsHeld(g: Grants, principal: string, ops: seq<Op>, op: Op)
    requires op in ops && op.privileges != []
    ensures op.privileges[0] in HeldBy(AddedAll(g, principal, ops), Holding(op.kind, op.name, principal))
  {
    HeldAfter(g, principal, ops, Holding(op.kind, op.name, principal));
  }

  /** A completed grant opens the parents of its securable. */
  lemma GrantOpensParents(g: Grants, principal: string, kind: SecurableType, fullName: string, privileges: seq<string>)
    ensures ParentsOpen(AddedAll(g, principal, Operations(kind, fullName, privileges)),
                        Holding(kind, fullName, principal))
  {
    var ops := Operations(kind, fullName, privileges);
    forall parent | parent in ParentGrants(kind, fullName)
      ensures parent.privileges[0] in HeldBy(AddedAll(g, principal, ops), Holding(parent.kind, parent.name, principal))
    {
      GrantedIsHeld(g, principal, ops, parent);
    }
  }

  /** The parents of a securable are granted before it: stopped after any call, data privileges stay reachable. */
  lemma GrantStaysReachable(g: Grants, principal: string, kind: SecurableType, fullName: string,
                            privileges: seq<string>, n: nat)
    requires Reachable(g) && n <= |Operations(kind, fullName, privileges)|
    ensures Reachable(AddedAll(g, principal, Operations(kind, fullName, privileges)[..n]))
  {
    var ops := Operations(kind, fullName, privileges);
    var after := AddedAll(g, principal, ops[..n]);
    forall h, p | p in HeldBy(after, h) && OnData(p)
      ensures ParentsOpen(after, h)
    {
      if p in HeldBy(g, h) {
        OpenStaysOpen(g, principal, ops[..n], h);
      } else {
        var op := NewPrivilege(g, principal, ops[..n], h, p);
        DataOpIsLast(kind, fullName, privileges, n, op, p);
        assert ops[..n] == ops;
        GrantOpensParents(g, principal, kind, fullName, privileges);
      }
    }
  }

  /** Only the last call of a grant carries a data privilege. */
  lemma DataOpIsLast(kind: SecurableType, fullName: string, privileges: seq<string>, n: nat, op: Op, p: string)
    requires n <= |Operations(kind, fullName, privileges)|
    ensures op in Operations(kind, fullName, privileges)[..n] && p in op.privileges && OnData(p) ==>
              n == |Operations(kind, fullName, privileges)| && op == Op(kind, fullName, privileges)
  {
    ParentsOnlyTraverse(op, kind, fullName, p);
    var parents := ParentGrants(kind, fullName);
    assert n <= |parents| ==> Operations(kind, fullName, privileges)[..n] == parents[..n];
  }

  /** A row to grant: to whom, where, what. */
  datatype Attempt = Attempt(principal: string, scope: string, access: Access)

  /** The calls an attempt makes; a class without privileges on the securable makes none. */
  function CallsOf(a: Attempt, defaultCatalog: string): seq<Op> {
    var (kind, name) := UcTarget(a.scope, defaultCatalog);
    var privileges := PrivilegesFor(a.access, kind);
    if privileges == [] then [] else Operations(kind, name, privileges)
  }

  // ---------------------------------------------------------------- collecting

  /** A schema of the catalog and the tables listed in it. */
  datatype SchemaListing = SchemaListing(name: string, tables: seq<string>)

  function Capped<T>(xs: seq<T>): seq<T> {
    if |xs| <= 50 then xs else xs[..50]
  }

  /** `UC_TO_ACCESS`, of the upper-case name. */
  function AccessOfPrivilege(privilege: string): Option<Access> {
    match privilege
    case "SELECT" => Some(D.DATA_READ)
    case "READ_VOLUME" => Some(D.DATA_READ)
    case "MODIFY" => Some(D.DATA_WRITE)
    case "CREATE_SCHEMA" => Some(D.DATA_WRITE)
    case "CREATE_TABLE" => Some(D.DATA_WRITE)
    case "CREATE_FUNCTION" => Some(D.DATA_WRITE)
    case "WRITE_VOLUME" => Some(D.DATA_WRITE)
    case "APPLY_TAG" => Some(D.DATA_ADMIN)
    case "ALL_PRIVILEGES" => Some(D.DATA_ADMIN)
    case "USE_CATALOG" => Some(D.OBJECT_USE)
    case "USE_SCHEMA" => Some(D.OBJECT_USE)
    case "EXECUTE" => Some(D.OBJECT_USE)
    case _ => None
  }

  function AccessOf(privilege: string): Option<Access> {
    AccessOfPrivilege(Upper(privilege))
  }

  /** The securables the reader visits: the catalog, the first 50 schemas, and the first 50 tables of each. */
  predicate Visited(catalog: string, listing: seq<SchemaListing>, kind: SecurableType, name: string) {
    match kind
    case Catalog => name == catalog
    case Schema => exists s :: s in Capped(listing) && Readable(s) && name == Qualified(catalog, s.name)
    case Table => exists s, t :: s in Capped(listing) && Readable(s) && t in Capped(s.tables) && t != ""
                             && name == Qualified(Qualified(catalog, s.name), t)
  }

  predicate Readable(s: SchemaListing) { s.name != "" && s.name != "information_schema" }

  function ScopeText(kind: SecurableType, name: string): string {
    (match kind case Catalog => "catalog:" case Schema => "schema:" case Table => "table:") + name
  }

  function KeyOf(h: Holding, access: Access): P.RowKey {
    P.PlainKey(Lower(Strip(h.principal)), ScopeText(h.kind, h.name), access)
  }

  /** The plain rows of the Databricks side. */
  function DbxKeys(g: Grants, catalog: string, listing: seq<SchemaListing>): set<P.RowKey> {
    set h, p | h in g && p in g[h] && Visited(catalog, listing, h.kind, h.name) && Strip(h.principal) != ""
               && AccessOf(p).Some? :: KeyOf(h, AccessOf(p).value)
  }

  /** The rows one call makes collectable. */
  function OpKeys(op: Op, principal: string, catalog: string, listing: seq<SchemaListing>): set<P.RowKey> {
    if !Visited(catalog, listing, op.kind, op.name) || Strip(principal) == "" then {}
    else set p | p in op.privileges && AccessOf(p).Some?
      :: KeyOf(Holding(op.kind, op.name, principal), AccessOf(p).value)
  }

  /** One call adds exactly the rows of its privileges. */
  lemma CallCollects(g: Grants, principal: string, op: Op, catalog: string, listing: seq<SchemaListing>)
    ensures DbxKeys(Added(g, principal, op), catalog, listing) ==
              DbxKeys(g, catalog, listing) + OpKeys(op, principal, catalog, listing)
  {
    var after := Added(g, principal, op);
    var own := Holding(op.kind, op.name, principal);
    forall k | k in DbxKeys(after, catalog, listing)
      ensures k in DbxKeys(g, catalog, listing) + OpKeys(op, principal, catalog, listing)
    {
      var h, p :| h in after && p in after[h] && Visited(catalog, listing, h.kind, h.name) && Strip(h.principal) != ""
                  && AccessOf(p).Some? && k == KeyOf(h, AccessOf(p).value);
      if h in g && p in g[h] {
        assert k in DbxKeys(g, catalog, listing);
      } else {
        assert h == own && p in op.privileges;
      }
    }
    forall k | k in DbxKeys(g, catalog, listing) + OpKeys(op, principal, catalog, listing)
      ensures k in DbxKeys(after, catalog, listing)
    {
      if k in DbxKeys(g, catalog, listing) {
        var h, p :| h in g && p in g[h] && Visited(catalog, listing, h.kind, h.name) && Strip(h.principal) != ""
                    && AccessOf(p).Some? && k == KeyOf(h, AccessOf(p).value);
        assert h in after && p in after[h];
      } else {
        var p :| p in op.privileges && AccessOf(p).Some? && k == KeyOf(own, AccessOf(p).value);
        assert own in after && p in after[own];
      }
    }
  }

  lemma UpperNames()
    ensures AccessOf("USE_CATALOG") == AccessOf("USE_SCHEMA") == Some(D.OBJECT_USE)
    ensures AccessOf("SELECT") == Some(D.DATA_READ) && AccessOf("MODIFY") == Some(D.DATA_WRITE)
    ensures AccessOf("ALL_PRIVILEGES") == Some(D.DATA_ADMIN)
  {
    assert Upper("USE_CATALOG") == "USE_CATALOG";
    assert Upper("USE_SCHEMA") == "USE_SCHEMA";
    assert Upper("SELECT") == "SELECT";
    assert Upper("MODIFY") == "MODIFY";
    assert Upper("ALL_PRIVILEGES") == "ALL_PRIVILEGES";
  }

  /** The privileges of a class read back as that class, and otherwise only as traversal. */
  lemma PrivilegesReadBack(access: Access, kind: SecurableType)
    requires PrivilegesFor(access, kind) != []
    ensures exists p :: p in PrivilegesFor(access, kind) && AccessOf(p) == Some(access)
    ensures forall p :: p in PrivilegesFor(access, kind) ==>
              AccessOf(p) == Some(access) || AccessOf(p) == Some(D.OBJECT_USE)
  {
    UpperNames();
    var ps := PrivilegesFor(access, kind);
    assert AccessOf(ps[|ps| - 1]) == Some(access);
  }

  /** The rows that a list of calls makes collectable. */
  function CallKeys(ops: seq<Op>, principal: string, catalog: string, listing: seq<SchemaListing>): set<P.RowKey> {
    set op, k | op in ops && k in OpKeys(op, principal, catalog, listing) :: k
  }

  lemma CallKeysMore(ops: seq<Op>, op: Op, principal: string, catalog: string, listing: seq<SchemaListing>)
    ensures CallKeys(ops + [op], principal, catalog, listing) ==
              CallKeys(ops, principal, catalog, listing) + OpKeys(op, principal, catalog, listing)
  {
    assert forall o :: o in ops + [op] <==> o in ops || o == op;
  }

  /** Any number of calls adds exactly their rows. */
  lemma {:induction false} CallsCollect(g: Grants, principal: string, ops: seq<Op>, catalog: string,
                                        listing: seq<SchemaListing>)
    ensures DbxKeys(AddedAll(g, principal, ops), catalog, listing) ==
              DbxKeys(g, catalog, listing) + CallKeys(ops, principal, catalog, listing)
  {
    if ops != [] {
      var last := |ops| - 1;
      assert ops == ops[..last] + [ops[last]];
      CallsCollect(g, principal, ops[..last], catalog, listing);
      CallKeysMore(ops[..last], ops[last], principal, catalog, listing);
      CallCollects(AddedAll(g, principal, ops[..last]), principal, ops[last], catalog, listing);
    }
  }

  /** A name without dots and without blanks around it. */
  predicate Clean(name: string) {
    name != "" && '.' !in name && !IsSpace(name[0]) && !IsSpace(name[|name| - 1])
  }

  predicate CleanListing(catalog: string, listing: seq<SchemaListing>) {
    Clean(catalog) && forall s :: s in listing ==> CleanSchema(s)
  }

  predicate CleanSchema(s: SchemaListing) {
    (s.name != "" ==> Clean(s.name)) && forall t :: t in s.tables ==> t == "" || Clean(t)
  }

  lemma StripClean(name: string)
    requires name != "" && !IsSpace(name[0]) && !IsSpace(name[|name| - 1])
    ensures Strip(name) == name
  {
  }

  lemma {:induction false} PartitionAt(head: string, c: char, rest: string)
    requires c !in head
    ensures Partition(head + [c] + rest, c) == (head, rest)
  {
    var s := head + [c] + rest;
    if head == "" {
      assert s[1..] == rest;
    } else {
      assert s[1..] == head[1..] + [c] + rest;
      PartitionAt(head[1..], c, rest);
      assert [head[0]] + head[1..] == head;
    }
  }

  lemma QualifiedParts(a: string, b: string)
    requires Clean(a)
    ensures Split(Qualified(a, b), '.') == [a] + Split(b, '.')
  {
    assert Qualified(a, b) == a + ['.'] + b;
    SplitFirst(a, '.', b);
  }

  lemma NonEmptyMore(x: string, xs: seq<string>)
    requires x != ""
    ensures NonEmpty([x] + xs) == [x] + NonEmpty(xs)
  {
    assert ([x] + xs)[1..] == xs;
  }

  lemma SchemaName(catalog: string, schema: string)
    requires Clean(catalog) && Clean(schema)
    ensures Strip(Qualified(catalog, schema)) == Qualified(catalog, schema)
    ensures |NonEmpty(Split(Qualified(catalog, schema), '.'))| == 2
  {
    var n := Qualified(catalog, schema);
    assert n[0] == catalog[0] && n[|n| - 1] == schema[|schema| - 1];
    StripClean(n);
    QualifiedParts(catalog, schema);
    SplitWhole(schema, '.');
    NonEmptyMore(catalog, [schema]);
    NonEmptyMore(schema, []);
    assert [schema] + [] == [schema];
  }

  lemma TableName(catalog: string, schema: string, table: string)
    requires Clean(catalog) && Clean(schema) && Clean(table)
    ensures Strip(Qualified(Qualified(catalog, schema), table)) == Qualified(Qualified(catalog, schema), table)
    ensures |NonEmpty(Split(Qualified(Qualified(catalog, schema), table), '.'))| == 3
  {
    var n := Qualified(Qualified(catalog, schema), table);
    assert n[0] == catalog[0] && n[|n| - 1] == table[|table| - 1];
    StripClean(n);
    assert n == Qualified(catalog, Qualified(schema, table));
    SchemaName(schema, table);
    QualifiedParts(catalog, Qualified(schema, table));
    NonEmptyMore(catalog, Split(Qualified(schema, table), '.'));
  }

  lemma TargetOfScope(kind: SecurableType, name: string, catalog: string)
    requires Strip(name) == name && name != ""
    requires match kind case Catalog => true
                        case Schema => |NonEmpty(Split(name, '.'))| >= 2
                        case Table => |NonEmpty(Split(name, '.'))| >= 3
    ensures UcTarget(ScopeText(kind, name), catalog) == (kind, name)
  {
    var head := match kind case Catalog => "catalog" case Schema => "schema" case Table => "table";
    assert ScopeText(kind, name) == head + [':'] + name;
    PartitionAt(head, ':', name);
  }

  lemma VisitedName(kind: SecurableType, name: string, catalog: string, listing: seq<SchemaListing>)
    requires CleanListing(catalog, listing) && Visited(catalog, listing, kind, name)
    ensures Strip(name) == name && name != ""
    ensures kind.Schema? ==> |NonEmpty(Split(name, '.'))| == 2
    ensures kind.Table? ==> |NonEmpty(Split(name, '.'))| == 3
  {
    match kind
    case Catalog => StripClean(name);
    case Schema =>
      var s :| s in Capped(listing) && Readable(s) && name == Qualified(catalog, s.name);
      assert s in listing && CleanSchema(s);
      SchemaName(catalog, s.name);
    case Table =>
      var s, t :| s in Capped(listing) && Readable(s) && t in Capped(s.tables) && t != ""
          && name == Qualified(Qualified(catalog, s.name), t);
      assert s in listing && CleanSchema(s) && t in s.tables;
      TableName(catalog, s.name, t);
  }

  /** A scope the reader reports is the scope the writer grants on. */
  lemma TargetOfVisited(kind: SecurableType, name: string, catalog: string, listing: seq<SchemaListing>)
    requires CleanListing(catalog, listing) && Visited(catalog, listing, kind, name)
    ensures UcTarget(ScopeText(kind, name), catalog) == (kind, name)
  {
    VisitedName(kind, name, catalog, listing);
    TargetOfScope(kind, name, catalog);
  }

  /**
   A completed grant of a row on a securable the reader visits: the row's own principal, scope and class are
   collected afterwards, everything collected before still is,
     and what is new besides is only permission to look inside.
   */
  lemma GrantIsCollected(g: Grants, a: Attempt, kind: SecurableType, name: string, catalog: string,
                         listing: seq<SchemaListing>)
    requires CleanListing(catalog, listing) && Visited(catalog, listing, kind, name)
    requires a.scope == ScopeText(kind, name) && Strip(a.principal) != "" && PrivilegesFor(a.access, kind) != []
    ensures var before := DbxKeys(g, catalog, listing);
            var after := DbxKeys(AddedAll(g, a.principal, CallsOf(a, catalog)), catalog, listing);
            var own := P.PlainKey(Lower(Strip(a.principal)), a.scope, a.access);
            && before + {own} <= after
            && forall k :: k in after && k !in before && k != own ==>
                 k.access == D.OBJECT_USE && k.principal == own.principal
  {
    TargetOfVisited(kind, name, catalog, listing);
    var ops := CallsOf(a, catalog);
    var privileges := PrivilegesFor(a.access, kind);
    CallsCollect(g, a.principal, ops, catalog, listing);
    PrivilegesReadBack(a.access, kind);
    var p :| p in privileges && AccessOf(p) == Some(a.access);
    var last := ops[|ops| - 1];
    assert last == Op(kind, name, privileges);
    assert KeyOf(Holding(kind, name, a.principal), a.access) in OpKeys(last, a.principal, catalog, listing);
    forall k | k in CallKeys(ops, a.principal, catalog, listing)
      ensures k.principal == Lower(Strip(a.principal))
      ensures k == P.PlainKey(Lower(Strip(a.principal)), a.scope, a.access) || k.access == D.OBJECT_USE
    {
      var op :| op in ops && k in OpKeys(op, a.principal, catalog, listing);
      OpKeyIsOwn(op, kind, name, a, catalog, listing, k);
    }
  }

  lemma OpKeyIsOwn(op: Op, kind: SecurableType, name: string, a: Attempt, catalog: string, listing: seq<SchemaListing>,
                   k: P.RowKey)
    requires op in Operations(kind, name, PrivilegesFor(a.access, kind))
    requires k in OpKeys(op, a.principal, catalog, listing)
    requires PrivilegesFor(a.access, kind) != []
    ensures k.principal == Lower(Strip(a.principal))
    ensures k == KeyOf(Holding(kind, name, a.principal), a.access) || k.access == D.OBJECT_USE
  {
    var p :| p in op.privileges && AccessOf(p).Some?
        && k == KeyOf(Holding(op.kind, op.name, a.principal), AccessOf(p).value);
    PrivilegesReadBack(a.access, kind);
    UpperNames();
    assert op in ParentGrants(kind, name) ==> AccessOf(p) == Some(D.OBJECT_USE);
  }

  // ---------------------------------------------------------------- the reader itself

  /** What the API lists for one securable. */
  datatype Listed = Listed(principal: string, privileges: seq<string>)

  type Api = (SecurableType, string) -> seq<Listed>

  /** The listing of every securable shows exactly who holds what. */
  ghost predicate Shows(api: Api, g: Grants) {
    forall h, p :: p in HeldBy(g, h) <==> ShowsOne(api(h.kind, h.name), h.principal, p)
  }

  predicate ShowsOne(listed: seq<Listed>, principal: string, p: string) {
    exists a :: a in listed && a.principal == principal && p in a.privileges
  }

  function PrivilegeRows(principal: string, scope: string, privileges: seq<string>): set<P.RowKey> {
    set p | p in privileges && AccessOf(p).Some? :: P.PlainKey(Lower(Strip(principal)), scope, AccessOf(p).value)
  }

  function ListedRows(scope: string, a: Listed): set<P.RowKey> {
    if Strip(a.principal) == "" then {} else PrivilegeRows(a.principal, scope, a.privileges)
  }

  function AllListedRows(scope: string, listed: seq<Listed>): set<P.RowKey> {
    set a, k | a in listed && k in ListedRows(scope, a) :: k
  }

  function SecurableRows(api: Api, securables: seq<(SecurableType, string)>): set<P.RowKey> {
    set s, k | s in securables && k in AllListedRows(ScopeText(s.0, s.1), api(s.0, s.1)) :: k
  }

  lemma PrivilegeRowsMore(principal: string, scope: string, privileges: seq<string>, p: string)
    ensures PrivilegeRows(principal, scope, privileges + [p]) == PrivilegeRows(principal, scope, privileges)
              + if AccessOf(p).Some? then {P.PlainKey(Lower(Strip(principal)), scope, AccessOf(p).value)} else {}
  {
    assert forall x :: x in privileges + [p] <==> x in privileges || x == p;
  }

  lemma AllListedRowsMore(scope: string, listed: seq<Listed>, a: Listed)
    ensures AllListedRows(scope, listed + [a]) == AllListedRows(scope, listed) + ListedRows(scope, a)
  {
    assert forall x :: x in listed + [a] <==> x in listed || x == a;
  }

  lemma SecurableRowsMore(api: Api, securables: seq<(SecurableType, string)>, s: (SecurableType, string))
    ensures SecurableRows(api, securables + [s]) ==
              SecurableRows(api, securables) + AllListedRows(ScopeText(s.0, s.1), api(s.0, s.1))
  {
    assert forall x :: x in securables + [s] <==> x in securables || x == s;
  }

  class DbxCollector {
    var rows: Dict<P.RowKey, P.DiffRow>

    constructor ()
      ensures rows == Empty()
    {
      rows := Empty();
    }

    /** One privilege of one principal; a privilege without a class is passed over. */
    method RecordPrivilege(scope: string, a: Listed, p: string)
      modifies this
      ensures rows.at.Keys == old(rows.at.Keys) + PrivilegeRows(a.principal, scope, [p])
    {
      var access := AccessOf(p);
      if access.None? {
        return;
      }
      var display := Strip(a.principal);
      var k := P.PlainKey(Lower(display), scope, access.value);
      var row := if k in rows.at then rows.at[k]
          else P.DiffRow(k, display, PrincipalType(display), false, false, [], [], "");
      row := row.(onDbx := true);
      if p !in row.rawDbx {
        row := row.(rawDbx := row.rawDbx + [p]);
      }
      rows := Put(rows, k, row);
    }

    method RecordListed(scope: string, a: Listed)
      modifies this
      ensures rows.at.Keys == old(rows.at.Keys) + ListedRows(scope, a)
    {
      if Strip(a.principal) == "" {
        return;
      }
      var i := 0;
      while i < |a.privileges|
        invariant 0 <= i <= |a.privileges|
        invariant rows.at.Keys == old(rows.at.Keys) + PrivilegeRows(a.principal, scope, a.privileges[..i])
      {
        assert a.privileges[..i + 1] == a.privileges[..i] + [a.privileges[i]];
        PrivilegeRowsMore(a.principal, scope, a.privileges[..i], a.privileges[i]);
        PrivilegeRowsMore(a.principal, scope, [], a.privileges[i]);
        assert [] + [a.privileges[i]] == [a.privileges[i]];
        RecordPrivilege(scope, a, a.privileges[i]);
        i := i + 1;
      }
      assert a.privileges[..i] == a.privileges;
    }

    /** `_record` */
    method Record(scope: string, listed: seq<Listed>)
      modifies this
      ensures rows.at.Keys == old(rows.at.Keys) + AllListedRows(scope, listed)
    {
      var i := 0;
      while i < |listed|
        invariant 0 <= i <= |listed|
        invariant rows.at.Keys == old(rows.at.Keys) + AllListedRows(scope, listed[..i])
      {
        assert listed[..i + 1] == listed[..i] + [listed[i]];
        AllListedRowsMore(scope, listed[..i], listed[i]);
        RecordListed(scope, listed[i]);
        i := i + 1;
      }
      assert listed[..i] == listed;
    }

    method RecordAll(api: Api, securables: seq<(SecurableType, string)>)
      modifies this
      ensures rows.at.Keys == old(rows.at.Keys) + SecurableRows(api, securables)
    {
      var i := 0;
      while i < |securables|
        invariant 0 <= i <= |securables|
        invariant rows.at.Keys == old(rows.at.Keys) + SecurableRows(api, securables[..i])
      {
        var s := securables[i];
        assert securables[..i + 1] == securables[..i] + [s];
        SecurableRowsMore(api, securables[..i], s);
        Record(ScopeText(s.0, s.1), api(s.0, s.1));
        i := i + 1;
      }
      assert securables[..i] == securables;
    }
  }

  function CountOf(s: string, c: char): nat {
    if s == "" then 0 else CountOf(s[1..], c) + if s[0] == c then 1 else 0
  }

  /** The type is guessed from the look of the name. */
  function PrincipalType(principal: string): string {
    if '@' in principal then "User"
    else if CountOf(principal, '-') == 4 && |principal| == 36 then "ServicePrincipal"
    else "Group"
  }

  /** The schemas that are read, and the tables of one of them. */
  function SchemaNames(catalog: string, schemas: seq<SchemaListing>): seq<(SecurableType, string)> {
    if schemas == [] then []
    else
      var last := schemas[|schemas| - 1];
      SchemaNames(catalog, schemas[..|schemas| - 1]) + if Readable(last) then [(Schema, Qualified(catalog, last.name))]
      else []
  }

  function TableNames(schema: string, tables: seq<string>): seq<(SecurableType, string)> {
    if tables == [] then []
    else
      var last := tables[|tables| - 1];
      TableNames(schema, tables[..|tables| - 1]) + if last != "" then [(Table, Qualified(schema, last))] else []
  }

  function AllTableNames(catalog: string, schemas: seq<SchemaListing>): seq<(SecurableType, string)> {
    if schemas == [] then []
    else
      var last := schemas[|schemas| - 1];
      AllTableNames(catalog, schemas[..|schemas| - 1])
      + if Readable(last) then TableNames(Qualified(catalog, last.name), Capped(last.tables)) else []
  }

  /** The catalog, then the schemas, then the tables. */
  function Securables(catalog: string, listing: seq<SchemaListing>): seq<(SecurableType, string)> {
    [(Catalog, catalog)] + SchemaNames(catalog, Capped(listing)) + AllTableNames(catalog, Capped(listing))
  }

  lemma {:induction false} InSchemaNames(catalog: string, schemas: seq<SchemaListing>, n: (SecurableType, string))
    ensures n in SchemaNames(catalog, schemas) <==>
              n.0 == Schema && exists s :: s in schemas && Readable(s) && n.1 == Qualified(catalog, s.name)
  {
    if schemas != [] {
      var last := |schemas| - 1;
      InSchemaNames(catalog, schemas[..last], n);
      assert schemas == schemas[..last] + [schemas[last]];
    }
  }

  lemma {:induction false} InTableNames(schema: string, tables: seq<string>, n: (SecurableType, string))
    ensures n in TableNames(schema, tables) <==>
              n.0 == Table && exists t :: t in tables && t != "" && n.1 == Qualified(schema, t)
  {
    if tables != [] {
      var last := |tables| - 1;
      InTableNames(schema, tables[..last], n);
      assert tables == tables[..last] + [tables[last]];
    }
  }

  predicate InTables(catalog: string, s: SchemaListing, n: (SecurableType, string)) {
    n in TableNames(Qualified(catalog, s.name), Capped(s.tables))
  }

  lemma {:induction false} InAllTableNames(catalog: string, schemas: seq<SchemaListing>, n: (SecurableType, string))
    ensures n in AllTableNames(catalog, schemas) <==> exists s :: s in schemas && Readable(s) && InTables(catalog, s, n)
  {
    if schemas != [] {
      var last := |schemas| - 1;
      InAllTableNames(catalog, schemas[..last], n);
      assert schemas == schemas[..last] + [schemas[last]];
      var s := schemas[last];
      assert n in TableNames(Qualified(catalog, s.name), Capped(s.tables)) <==> InTables(catalog, s, n);
    }
  }

  /** The securables gone through are the visited ones. */
  lemma SecurablesAreVisited(catalog: string, listing: seq<SchemaListing>, n: (SecurableType, string))
    ensures n in Securables(catalog, listing) <==> Visited(catalog, listing, n.0, n.1)
  {
    InSchemaNames(catalog, Capped(listing), n);
    InAllTableNames(catalog, Capped(listing), n);
    if s :| s in Capped(listing) && Readable(s) && InTables(catalog, s, n) {
      InTableNames(Qualified(catalog, s.name), Capped(s.tables), n);
    }
    if s, t :| s in Capped(listing) && Readable(s) && t in Capped(s.tables) && t != ""
               && n == (Table, Qualified(Qualified(catalog, s.name), t)) {
      InTableNames(Qualified(catalog, s.name), Capped(s.tables), n);
      assert InTables(catalog, s, n);
    }
  }

  /** `collect_dbx_rows`: its plain rows are exactly those of the visited securables. */
  method CollectDbxRows(api: Api, catalog: string, listing: seq<SchemaListing>, ghost g: Grants)
      returns (rows: Dict<P.RowKey, P.DiffRow>)
    requires Shows(api, g)
    ensures rows.at.Keys == DbxKeys(g, catalog, listing)
  {
    var c := new DbxCollector();
    c.RecordAll(api, Securables(catalog, listing));
    rows := c.rows;
    CollectedIsHeld(api, g, catalog, listing);
  }

  lemma CollectedIsHeld(api: Api, g: Grants, catalog: string, listing: seq<SchemaListing>)
    requires Shows(api, g)
    ensures SecurableRows(api, Securables(catalog, listing)) == DbxKeys(g, catalog, listing)
  {
    forall k | k in SecurableRows(api, Securables(catalog, listing))
      ensures k in DbxKeys(g, catalog, listing)
    {
      var s :| s in Securables(catalog, listing) && k in AllListedRows(ScopeText(s.0, s.1), api(s.0, s.1));
      SecurablesAreVisited(catalog, listing, s);
      RowIsHeld(api, g, s, k);
    }
    forall k | k in DbxKeys(g, catalog, listing)
      ensures k in SecurableRows(api, Securables(catalog, listing))
    {
      var h, p :| h in g && p in g[h] && Visited(catalog, listing, h.kind, h.name) && Strip(h.principal) != ""
                  && AccessOf(p).Some? && k == KeyOf(h, AccessOf(p).value);
      var s := (h.kind, h.name);
      SecurablesAreVisited(catalog, listing, s);
      assert p in HeldBy(g, h);
      HeldIsRow(api, h, p);
      assert k in AllListedRows(ScopeText(s.0, s.1), api(s.0, s.1));
    }
  }

  lemma RowIsHeld(api: Api, g: Grants, s: (SecurableType, string), k: P.RowKey)
    requires Shows(api, g) && k in AllListedRows(ScopeText(s.0, s.1), api(s.0, s.1))
    ensures exists h, p :: h in g && p in g[h] && h.kind == s.0 && h.name == s.1 && Strip(h.principal) != ""
                           && AccessOf(p).Some? && k == KeyOf(h, AccessOf(p).value)
  {
    var a :| a in api(s.0, s.1) && k in ListedRows(ScopeText(s.0, s.1), a);
    var p :| p in a.privileges && AccessOf(p).Some?
        && k == P.PlainKey(Lower(Strip(a.principal)), ScopeText(s.0, s.1), AccessOf(p).value);
    var h := Holding(s.0, s.1, a.principal);
    assert ShowsOne(api(h.kind, h.name), h.principal, p);
    assert p in HeldBy(g, h);
  }

  lemma HeldIsRow(api: Api, h: Holding, p: string)
    requires ShowsOne(api(h.kind, h.name), h.principal, p) && Strip(h.principal) != "" && AccessOf(p).Some?
    ensures KeyOf(h, AccessOf(p).value) in AllListedRows(ScopeText(h.kind, h.name), api(h.kind, h.name))
  {
    var a :| a in api(h.kind, h.name) && a.principal == h.principal && p in a.privileges;
    assert KeyOf(h, AccessOf(p).value) in ListedRows(ScopeText(h.kind, h.name), a);
  }
}
