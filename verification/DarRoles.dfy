/**
 OneLake data access roles: how the hub reads them (pair_diff.py) and how it writes them
 (pair_apply.py). The two sides interpret a role differently, so the laws connect them.
 */
module DarRoles {
  import opened Optional
  import opened Text

  datatype Access = DATA_READ | DATA_WRITE | DATA_ADMIN | OBJECT_USE | OtherAccess(name: string)

  /** One permission attribute; the writer also looks at two keys the reader ignores. */
  datatype Attr = Attr(name: string, includedIn: seq<string>, values: seq<string>, value: seq<string>)

  datatype RowConstraint = RowConstraint(tablePath: string, condition: string)

  datatype ColumnConstraint = ColumnConstraint(tablePath: string, columns: seq<string>)

  datatype Rule = Rule(permission: seq<Attr>, attributes: seq<Attr>,
                       rows: seq<RowConstraint>, columns: seq<ColumnConstraint>)

  /** A member; missing fields are empty strings. */
  datatype Member = Member(objectId: string, tenantId: string, objectType: string)

  /** A role keeps its members under one of three keys. */
  datatype Role = Role(name: string, rules: seq<Rule>,
                       microsoftEntraMembers: seq<Member>, entraMembers: seq<Member>, microsoftEntraUsers: seq<Member>)

  // ---------------------------------------------------------------- scopes and paths

  /** The item path a table scope is written to; anything that is not a three-part table is the whole item. */
  function DarPath(scope: string): string {
    if "table:" <= scope then
      var parts := Split(scope[6..], '.');
      if |parts| >= 3 then TablePath(parts[1], parts[2]) else "*"
    else "*"
  }

  function TablePath(schema: string, table: string): string {
    "/Tables/" + schema + "/" + table
  }

  /** The scope the reader makes of one path. */
  function ScopeOfPath(catalog: string, path: string): string {
    var clean := Strip(path);
    if clean == "" || clean == "/" || clean == "*" then "catalog:" + catalog
    else
      var segs := NonEmpty(Split(StripChar(clean, '/'), '/'));
      if segs == [] || segs == ["*"] then "catalog:" + catalog
      else if Lower(segs[0]) == "tables" then
        if |segs| == 1 then "catalog:" + catalog
        else if |segs| == 2 then SchemaScope(catalog, segs[1])
        else TableScope(catalog, segs[1], segs[2..])
      else if |segs| == 1 then SchemaScope(catalog, segs[0])
      else TableScope(catalog, segs[0], segs[1..])
  }

  function SchemaScope(catalog: string, schema: string): string {
    "schema:" + catalog + "." + schema
  }

  function TableScope(catalog: string, schema: string, rest: seq<string>): string {
    "table:" + catalog + "." + schema + "." + Join(rest, ".")
  }

  /** `_scopes_from_dar_paths`: no path at all means the whole catalog. */
  method ScopesFromDarPaths(catalog: string, paths: seq<string>) returns (scopes: seq<string>)
    ensures scopes == ScopesOf(catalog, paths)
  {
    if paths == [] {
      scopes := ScopesOfEach(catalog, ["/"]);
      WholeCatalog(catalog);
    } else {
      scopes := ScopesOfEach(catalog, paths);
    }
  }

  method ScopesOfEach(catalog: string, todo: seq<string>) returns (scopes: seq<string>)
    ensures |scopes| == |todo| && forall k :: 0 <= k < |todo| ==> scopes[k] == ScopeOfPath(catalog, todo[k])
  {
    scopes := [];
    var i := 0;
    while i < |todo|
      invariant 0 <= i <= |todo| && |scopes| == i
      invariant forall k :: 0 <= k < i ==> scopes[k] == ScopeOfPath(catalog, todo[k])
    {
      scopes := scopes + [ScopeOfPath(catalog, todo[i])];
      i := i + 1;
    }
  }

  lemma WholeCatalog(catalog: string)
    ensures ScopeOfPath(catalog, "/") == "catalog:" + catalog
  {
    assert Strip("/") == "/";
  }

  function ScopesOf(catalog: string, paths: seq<string>): seq<string> {
    if paths == [] then ["catalog:" + catalog]
    else seq(|paths|, i requires 0 <= i < |paths| => ScopeOfPath(catalog, paths[i]))
  }

  /** A part of a table name that survives as a path segment. */
  predicate Segment(part: string) {
    part != "" && '/' !in part && '.' !in part
  }

  lemma StrippedTablePath(schema: string, table: string)
    ensures Strip(TablePath(schema, table)) == TablePath(schema, StripRight(table))
  {
    var head := "/Tables/" + schema + "/";
    assert head[0] == '/' && head[|head| - 1] == '/';
    assert StripLeft(head + table) == head + table;
    StripRightConcat(head, table);
    StripRightIsPrefix(head);
  }

  /** The path of a clean schema and table name, read back. */
  lemma ReadTablePath(catalog: string, schema: string, table: string)
    requires Segment(schema) && '/' !in table
    ensures ScopeOfPath(catalog, TablePath(schema, table)) ==
              if StripRight(table) == "" then SchemaScope(catalog, schema)
              else TableScope(catalog, schema, [StripRight(table)])
  {
    StrippedTablePath(schema, table);
    StripRightIsPrefix(table);
    var t := StripRight(table);
    TrimmedPath(schema, t);
    ReadSegments(catalog, TablePath(schema, table), ["Tables", schema] + if t == "" then [] else [t]);
  }

  lemma ReadSegments(catalog: string, path: string, segs: seq<string>)
    requires |Strip(path)| > 1 && segs == NonEmpty(Split(StripChar(Strip(path), '/'), '/'))
    requires |segs| >= 2 && segs[0] == "Tables"
    ensures ScopeOfPath(catalog, path) ==
              if |segs| == 2 then SchemaScope(catalog, segs[1]) else TableScope(catalog, segs[1], segs[2..])
  {
    assert Lower("Tables") == "tables";
  }

  /** Splitting a clean table path gives its two names. */
  lemma TrimmedPath(schema: string, t: string)
    requires Segment(schema) && '/' !in t
    ensures NonEmpty(Split(StripChar(TablePath(schema, t), '/'), '/')) ==
              ["Tables", schema] + if t == "" then [] else [t]
  {
    var clean := TablePath(schema, t);
    var inner := "Tables/" + schema + "/" + t;
    assert clean[1..] == inner;
    if t == "" {
      var cut := "Tables/" + schema;
      assert inner[..|inner| - 1] == cut;
      assert cut[|cut| - 1] == schema[|schema| - 1];
      assert StripChar(cut, '/') == cut;
      assert StripChar(inner, '/') == cut;
      assert cut == "Tables" + ['/'] + schema;
      SplitFirst("Tables", '/', schema);
      SplitWhole(schema, '/');
      NonEmptyThree("Tables", schema, "");
      assert ["Tables", schema, ""][1..] == [schema, ""];
      assert NonEmpty(["Tables", schema]) == ["Tables", schema] by {
        assert ["Tables", schema][1..] == [schema];
        assert NonEmpty([schema]) == [schema] + NonEmpty([]);
      }
    } else {
      assert inner[|inner| - 1] == t[|t| - 1];
      assert StripChar(clean, '/') == inner;
      assert inner == "Tables" + ['/'] + (schema + ['/'] + t);
      SplitFirst("Tables", '/', schema + ['/'] + t);
      SplitFirst(schema, '/', t);
      SplitWhole(t, '/');
      NonEmptyThree("Tables", schema, t);
    }
  }

  /** A table scope whose written path reads back as itself. */
  predicate SurvivingScope(catalog: string, scope: string) {
    "table:" <= scope &&
    var parts := Split(scope[6..], '.');
    && |parts| == 3 && parts[0] == catalog
    && Segment(parts[1]) && Segment(parts[2]) && !IsSpace(parts[2][|parts[2]| - 1])
  }

  lemma TableScopeParts(catalog: string, schema: string, rest: seq<string>)
    requires rest != [] && '.' !in catalog && '.' !in schema && forall r :: r in rest ==> '.' !in r
    ensures Split(TableScope(catalog, schema, rest)[6..], '.') == [catalog, schema] + rest
  {
    TableScopeJoined(catalog, schema, rest);
    SplitOfJoin([catalog, schema] + rest, '.');
  }

  lemma TableScopeJoined(catalog: string, schema: string, rest: seq<string>)
    requires rest != []
    ensures "table:" <= TableScope(catalog, schema, rest)
    ensures TableScope(catalog, schema, rest)[6..] == Join([catalog, schema] + rest, ".")
  {
    var parts := [catalog, schema] + rest;
    assert parts[1..] == [schema] + rest;
    assert ([schema] + rest)[1..] == rest;
    assert Join([schema] + rest, ".") == schema + "." + Join(rest, ".");
  }

  /** The segments of a dot-free path are dot-free, slash-free and not empty. */
  lemma SegmentsOf(path: string)
    requires '.' !in path
    ensures forall seg :: seg in NonEmpty(Split(StripChar(Strip(path), '/'), '/')) ==> Segment(seg)
  {
    var clean := Strip(path);
    StripRightIsPrefix(StripLeft(path));
    StripLeftChars(path, '.');
    StripCharChars(clean, '/', '.');
    SplitParts(StripChar(clean, '/'), '/');
  }

  /** Schema and catalog scopes are not table scopes. */
  lemma OtherScopes(catalog: string, schema: string)
    ensures !("table:" <= "catalog:" + catalog) && !("table:" <= SchemaScope(catalog, schema))
  {
    assert ("catalog:" + catalog)[0] == 'c' && SchemaScope(catalog, schema)[0] == 's' && "table:"[0] == 't';
  }

  /**
   Exactly which table scopes come back from a write: the scope has three parts, the first is the
   paired catalog, and the names can be path segments. Every other table scope is read back as
   something else (a two-part scope, for instance, is written to the whole item).
   */
  lemma ScopeRoundTrip(catalog: string, scope: string)
    requires '.' !in catalog && "table:" <= scope
    ensures ScopeOfPath(catalog, DarPath(scope)) == scope <==> SurvivingScope(catalog, scope)
  {
    var parts := Split(scope[6..], '.');
    SplitParts(scope[6..], '.');
    if SurvivingScope(catalog, scope) {
      SurvivorsRoundTrip(catalog, scope, parts[1], parts[2]);
    } else if ScopeOfPath(catalog, DarPath(scope)) == scope {
      OnlySurvivorsRoundTrip(catalog, scope, parts);
    }
  }

  lemma SurvivorsRoundTrip(catalog: string, scope: string, schema: string, table: string)
    requires "table:" <= scope && Split(scope[6..], '.') == [catalog, schema, table]
    requires Segment(schema) && Segment(table) && !IsSpace(table[|table| - 1])
    ensures ScopeOfPath(catalog, DarPath(scope)) == scope
  {
    ReadTablePath(catalog, schema, table);
    StripRightIsPrefix(table);
    JoinOfSplit(scope[6..], '.');
    TableScopeJoined(catalog, schema, [table]);
    assert [catalog, schema] + [table] == [catalog, schema, table];
  }

  /** Fewer than three parts: the path names no table, and another scope comes back. */
  lemma ShortScopeIsLost(catalog: string, scope: string, parts: seq<string>)
    requires "table:" <= scope && parts == Split(scope[6..], '.') && |parts| < 3
    ensures ScopeOfPath(catalog, DarPath(scope)) != scope
  {
    assert Strip("*") == "*";
    OtherScopes(catalog, "");
  }

  lemma OnlySurvivorsRoundTrip(catalog: string, scope: string, parts: seq<string>)
    requires '.' !in catalog && "table:" <= scope && parts == Split(scope[6..], '.')
    requires forall p :: p in parts ==> '.' !in p
    requires ScopeOfPath(catalog, DarPath(scope)) == scope
    ensures SurvivingScope(catalog, scope)
  {
    if |parts| < 3 {
      ShortScopeIsLost(catalog, scope, parts);
      assert false;
    }
    NamesAreSegments(catalog, scope, parts);
    var p1, p2 := parts[1], parts[2];
    ReadTablePath(catalog, p1, p2);
    StripRightIsPrefix(p2);
    OtherScopes(catalog, p1);
    TableScopeParts(catalog, p1, [StripRight(p2)]);
    assert parts == [catalog, p1, StripRight(p2)];
  }

  /** A table scope that comes back was written with names that are path segments. */
  lemma NamesAreSegments(catalog: string, scope: string, parts: seq<string>)
    requires '.' !in catalog && "table:" <= scope && parts == Split(scope[6..], '.') && |parts| >= 3
    requires '.' !in parts[1] && '.' !in parts[2]
    requires ScopeOfPath(catalog, TablePath(parts[1], parts[2])) == scope
    ensures Segment(parts[1]) && Segment(parts[2])
  {
    var path := TablePath(parts[1], parts[2]);
    SegmentsOf(path);
    var schema, rest := TableSegments(catalog, scope, path);
    TableScopeParts(catalog, schema, rest);
    assert parts[1] == schema && parts[2] == rest[0];
  }

  /** What a path must look like to be read as a table scope. */
  lemma TableSegments(catalog: string, scope: string, path: string) returns (schema: string, rest: seq<string>)
    requires "table:" <= scope && ScopeOfPath(catalog, path) == scope
    requires forall s :: s in NonEmpty(Split(StripChar(Strip(path), '/'), '/')) ==> Segment(s)
    ensures scope == TableScope(catalog, schema, rest) && rest != [] && Segment(schema)
    ensures forall r :: r in rest ==> Segment(r)
  {
    var segs := NonEmpty(Split(StripChar(Strip(path), '/'), '/'));
    OtherScopes(catalog, if |segs| == 1 then segs[0] else if |segs| == 2 then segs[1] else "");
    if |segs| >= 3 && Lower(segs[0]) == "tables" {
      schema, rest := segs[1], segs[2..];
    } else {
      schema, rest := segs[0], segs[1..];
    }
  }

  // ---------------------------------------------------------------- reading a role

  /** `_dar_rule_values` of the reader: exact attribute name, one key, in order. */
  function ReadAttrs(attrs: seq<Attr>, name: string): seq<string> {
    if attrs == [] then []
    else (if attrs[0].name == name then attrs[0].includedIn else []) + ReadAttrs(attrs[1..], name)
  }

  function ReadValues(rule: Rule, name: string): seq<string> {
    ReadAttrs(rule.permission, name) + ReadAttrs(rule.attributes, name)
  }

  /** The first non-empty member list. */
  function DarMembers(role: Role): seq<Member> {
    if role.microsoftEntraMembers != [] then role.microsoftEntraMembers
    else if role.entraMembers != [] then role.entraMembers
    else role.microsoftEntraUsers
  }

  function AccessOfAction(action: string): Option<Access> {
    match action
    case "Read" => Some(DATA_READ)
    case "ReadAll" => Some(DATA_READ)
    case "Write" => Some(DATA_WRITE)
    case "Reshare" => Some(DATA_ADMIN)
    case "Execute" => Some(OBJECT_USE)
    case "Explore" => Some(OBJECT_USE)
    case "Microsoft.Fabric/OneLake/Read" => Some(DATA_READ)
    case "Microsoft.Fabric/OneLake/Write" => Some(DATA_WRITE)
    case _ => None
  }

  /** One collected permission: who, where, what. */
  datatype AccessKey = AccessKey(principal: string, scope: string, access: Access)

  /** What a rule lets its members do. */
  function RulePairs(catalog: string, rule: Rule): set<(string, Access)> {
    set a, sc | a in ReadValues(rule, "Action") && AccessOfAction(a).Some?
    && sc in ScopesOf(catalog, ReadValues(rule, "Path"))
      :: (sc, AccessOfAction(a).value)
  }

  function Pairs(catalog: string, role: Role): set<(string, Access)> {
    set rule, pair | rule in role.rules && pair in RulePairs(catalog, rule) :: pair
  }

  /** The object ids of a member list, as keys. */
  function Ids(members: seq<Member>): set<string> {
    set m | m in members && m.objectId != "" :: Lower(m.objectId)
  }

  function RoleKeys(catalog: string, role: Role): set<AccessKey> {
    set id, pair | id in Ids(DarMembers(role)) && pair in Pairs(catalog, role) :: AccessKey(id, pair.0, pair.1)
  }

  /** Everything the reader collects from the roles of an item. */
  function DarKeys(catalog: string, roles: seq<Role>): set<AccessKey> {
    set role, k | role in roles && k in RoleKeys(catalog, role) :: k
  }

  // ---------------------------------------------------------------- matching a role before a write

  /** `_dar_rule_values` of the writer: any case, three keys, all rules together. */
  function WriterValues(role: Role, name: string): set<string> {
    set rule, a, v | rule in role.rules && a in rule.permission + rule.attributes && Lower(a.name) == Lower(name)
                     && v in a.includedIn + a.values + a.value :: v
  }

  predicate Matches(role: Role, path: string, actions: seq<string>) {
    path in WriterValues(role, "Path") && forall a :: a in actions ==> a in WriterValues(role, "Action")
  }

  function PlainRule(path: string, actions: seq<string>): Rule {
    Rule([Attr("Path", [path], [], []), Attr("Action", actions, [], [])], [], [], [])
  }

  /** The first role with this name, ignoring case; the length of the list when there is none. */
  function FirstNamed(roles: seq<Role>, name: string): (i: nat)
    ensures i <= |roles|
    ensures i < |roles| ==> Lower(roles[i].name) == Lower(name)
    ensures forall k :: 0 <= k < i ==> Lower(roles[k].name) != Lower(name)
  {
    if roles == [] || Lower(roles[0].name) == Lower(name) then 0
    else 1 + FirstNamed(roles[1..], name)
  }

  lemma FirstNamedUnique(roles: seq<Role>, name: string, i: nat)
    requires i <= |roles| && (i < |roles| ==> Lower(roles[i].name) == Lower(name))
    requires forall k :: 0 <= k < i ==> Lower(roles[k].name) != Lower(name)
    ensures FirstNamed(roles, name) == i
  {
  }

  // ---------------------------------------------------------------- granting a table read

  datatype Reply = Done | Missing | Error

  datatype Outcome =
    | NoMapping | ReadOnlyMirror | SchemaUnsupported | Unavailable | GetFailed
    | Refused | AlreadyGranted | PutFailed | Granted
  {
    predicate Ok() { AlreadyGranted? || Granted? }
  }

  function DarActions(access: Access): seq<string> {
    match access
    case DATA_READ => ["Read"]
    case DATA_WRITE => ["Read", "Write"]
    case DATA_ADMIN => ["Read", "Write", "Reshare"]
    case OBJECT_USE => []
    case OtherAccess(_) => []
  }

  /** What the merge of one member does to a role list. */
  datatype Merge = Refuse | Already | Merged(roles: seq<Role>)

  function MergeGrant(roles: seq<Role>, name: string, path: string, m: Member): Merge {
    var i := FirstNamed(roles, name);
    if i == |roles| then Merged(roles + [Role(name, [PlainRule(path, ["Read"])], [m], [], [])])
    else if !Matches(roles[i], path, ["Read"]) then Refuse
    else if exists e :: e in roles[i].microsoftEntraMembers && Lower(e.objectId) == Lower(m.objectId) then Already
    else Merged(roles[i := roles[i].(microsoftEntraMembers := roles[i].microsoftEntraMembers + [m])])
  }

  class OneLakeItem {
    var roles: seq<Role>

    constructor (roles: seq<Role>)
      ensures this.roles == roles
    {
      this.roles := roles;
    }

    /** The in-place search of the current role list, stopping at the first match. */
    method Find(name: string) returns (i: nat)
      ensures i == FirstNamed(roles, name)
    {
      i := 0;
      while i < |roles| && Lower(roles[i].name) != Lower(name)
        invariant 0 <= i <= |roles|
        invariant forall k :: 0 <= k < i ==> Lower(roles[k].name) != Lower(name)
      {
        i := i + 1;
      }
      FirstNamedUnique(roles, name, i);
    }

    method GrantOneLakeDar(m: Member, access: Access, scope: string, roleName: string -> string, get: Reply, put: Reply)
      returns (outcome: Outcome)
      modifies this
      ensures !outcome.Granted? ==> roles == old(roles)
      ensures outcome.Granted? ==> MergeGrant(old(roles), roleName(DarPath(scope)), DarPath(scope), m) == Merged(roles)
      ensures outcome == DarOutcome(old(roles), m, access, scope, roleName, get, put)
    {
      var actions := DarActions(access);
      if actions == [] {
        return NoMapping;
      }
      if "Write" in actions || "Reshare" in actions {
        return ReadOnlyMirror;
      }
      if "schema:" <= scope {
        return SchemaUnsupported;
      }
      var path := DarPath(scope);
      match get
      case Missing => return Unavailable;
      case Error => return GetFailed;
      case Done =>
      var current := roles;
      var i := Find(roleName(path));
      if i < |current| {
        if !Matches(current[i], path, actions) {
          return Refused;
        }
        var existing := current[i].microsoftEntraMembers;
        if exists e :: e in existing && Lower(e.objectId) == Lower(m.objectId) {
          return AlreadyGranted;
        }
        current := current[i := current[i].(microsoftEntraMembers := existing + [m])];
      } else {
        current := current + [Role(roleName(path), [PlainRule(path, actions)], [m], [], [])];
      }
      match put
      case Missing => return Unavailable;
      case Error => return PutFailed;
      case Done =>
      roles := current;
      outcome := Granted;
    }
  }

  /** How a grant ends: only a table read on a reachable item, merged into a role of its own scope, is granted. */
  function DarOutcome(roles: seq<Role>, m: Member, access: Access, scope: string, roleName: string -> string,
                      get: Reply, put: Reply): Outcome {
    if DarActions(access) == [] then NoMapping
    else if access != DATA_READ then ReadOnlyMirror
    else if "schema:" <= scope then SchemaUnsupported
    else if get.Missing? then Unavailable
    else if get.Error? then GetFailed
    else
      var merge := MergeGrant(roles, roleName(DarPath(scope)), DarPath(scope), m);
      if merge.Refuse? then Refused
      else if merge.Already? then AlreadyGranted
      else if put.Missing? then Unavailable
      else if put.Error? then PutFailed
      else Granted
  }

  // ---------------------------------------------------------------- laws of the grant

  /** A role that grants nothing but reading one table, and whose readable members are the ones a merge extends. */
  ghost predicate OwnRole(catalog: string, role: Role, path: string) {
    && Pairs(catalog, role) == {(ScopeOfPath(catalog, path), DATA_READ)}
    && (role.microsoftEntraMembers != [] || DarMembers(role) == [])
  }

  /** Every role that bears the hub name of a path is the path's own. */
  ghost predicate HubRolesAreOwn(catalog: string, roles: seq<Role>, roleName: string -> string) {
    forall role, path :: role in roles && Lower(role.name) == Lower(roleName(path)) ==> OwnRole(catalog, role, path)
  }

  /** Hub names tell paths apart, even ignoring case. */
  ghost predicate NamesInjective(roleName: string -> string) {
    forall p, q :: Lower(roleName(p)) == Lower(roleName(q)) ==> p == q
  }

  lemma PlainRuleValues(path: string, actions: seq<string>)
    ensures ReadValues(PlainRule(path, actions), "Path") == [path]
    ensures ReadValues(PlainRule(path, actions), "Action") == actions
  {
    var p, a := Attr("Path", [path], [], []), Attr("Action", actions, [], []);
    assert "Path"[0] != "Action"[0];
    assert [p, a][1..] == [a] && [a][1..] == [];
    assert ReadAttrs([a], "Path") == [] && ReadAttrs([a], "Action") == actions;
  }

  lemma PlainRulePairs(catalog: string, path: string, role: Role)
    requires role.rules == [PlainRule(path, ["Read"])]
    ensures Pairs(catalog, role) == {(ScopeOfPath(catalog, path), DATA_READ)}
  {
    PlainRuleValues(path, ["Read"]);
    PairsOfOne(catalog, role.rules[0], path, "Read", DATA_READ);
    assert role.rules[0] in role.rules;
  }

  lemma PairsOfOne(catalog: string, rule: Rule, path: string, action: string, access: Access)
    requires ReadValues(rule, "Path") == [path] && ReadValues(rule, "Action") == [action]
    requires AccessOfAction(action) == Some(access)
    ensures RulePairs(catalog, rule) == {(ScopeOfPath(catalog, path), access)}
  {
    assert ScopesOf(catalog, [path]) == [ScopeOfPath(catalog, path)];
    assert action in [action] && ScopeOfPath(catalog, path) in [ScopeOfPath(catalog, path)];
    assert (ScopeOfPath(catalog, path), access) in RulePairs(catalog, rule);
  }

  lemma IdsOfMore(ms: seq<Member>, m: Member)
    ensures Ids(ms + [m]) == Ids(ms) + if m.objectId != "" then {Lower(m.objectId)} else {}
  {
  }

  /** Replacing, or adding, one role changes the collected keys by that role only. */
  lemma DarKeysReplace(catalog: string, roles: seq<Role>, i: nat, role: Role, extra: set<AccessKey>)
    requires i < |roles| && RoleKeys(catalog, role) == RoleKeys(catalog, roles[i]) + extra
    ensures DarKeys(catalog, roles[i := role]) == DarKeys(catalog, roles) + extra
  {
    forall k
      ensures k in DarKeys(catalog, roles[i := role]) <==> k in DarKeys(catalog, roles) + extra
    {
      if k in DarKeys(catalog, roles[i := role]) {
        var r :| r in roles[i := role] && k in RoleKeys(catalog, r);
        if r == role {
          assert roles[i] in roles;
        }
      }
      if k in DarKeys(catalog, roles) + extra {
        assert roles[i := role][i] == role;
        if k in extra {
          assert role in roles[i := role];
        } else {
          var r :| r in roles && k in RoleKeys(catalog, r);
          var j :| 0 <= j < |roles| && roles[j] == r;
          assert roles[i := role][j] in roles[i := role];
        }
      }
    }
  }

  lemma DarKeysAppend(catalog: string, roles: seq<Role>, role: Role)
    ensures DarKeys(catalog, roles + [role]) == DarKeys(catalog, roles) + RoleKeys(catalog, role)
  {
    forall k
      ensures k in DarKeys(catalog, roles + [role]) <==> k in DarKeys(catalog, roles) + RoleKeys(catalog, role)
    {
      if k in RoleKeys(catalog, role) {
        assert role in roles + [role];
      }
      if k in DarKeys(catalog, roles) {
        var r :| r in roles && k in RoleKeys(catalog, r);
        assert r in roles + [role];
      }
    }
  }

  /** The role a first grant creates. */
  lemma NewRoleCollects(catalog: string, name: string, path: string, m: Member)
    requires m.objectId != ""
    ensures var role := Role(name, [PlainRule(path, ["Read"])], [m], [], []);
            RoleKeys(catalog, role) == {AccessKey(Lower(m.objectId), ScopeOfPath(catalog, path), DATA_READ)}
  {
    var role := Role(name, [PlainRule(path, ["Read"])], [m], [], []);
    PlainRulePairs(catalog, path, role);
    assert Ids(DarMembers(role)) == {Lower(m.objectId)};
  }

  /** One more member of a role of the path. */
  lemma MemberCollects(catalog: string, role: Role, path: string, m: Member)
    requires OwnRole(catalog, role, path) && Matches(role, path, ["Read"]) && m.objectId != ""
    ensures var wider := role.(microsoftEntraMembers := role.microsoftEntraMembers + [m]);
            RoleKeys(catalog, wider) ==
              RoleKeys(catalog, role) + {AccessKey(Lower(m.objectId), ScopeOfPath(catalog, path), DATA_READ)}
  {
    var wider := role.(microsoftEntraMembers := role.microsoftEntraMembers + [m]);
    assert DarMembers(wider) == DarMembers(role) + [m];
    IdsOfMore(DarMembers(role), m);
    assert Pairs(catalog, wider) == Pairs(catalog, role) == {(ScopeOfPath(catalog, path), DATA_READ)};
  }

  /** One grant: the reader collects exactly one more key, or the same keys when it was already there. */
  lemma GrantCollectsOneKey(catalog: string, roles: seq<Role>, roleName: string -> string, path: string, m: Member)
    requires HubRolesAreOwn(catalog, roles, roleName) && NamesInjective(roleName) && m.objectId != ""
    ensures var merge := MergeGrant(roles, roleName(path), path, m);
            var key := AccessKey(Lower(m.objectId), ScopeOfPath(catalog, path), DATA_READ);
            && (merge.Merged? ==> DarKeys(catalog, merge.roles) == DarKeys(catalog, roles) + {key})
            && (merge.Merged? ==> HubRolesAreOwn(catalog, merge.roles, roleName))
            && (merge.Already? ==> key in DarKeys(catalog, roles))
  {
    var name := roleName(path);
    var i := FirstNamed(roles, name);
    var merge := MergeGrant(roles, name, path, m);
    var pair := (ScopeOfPath(catalog, path), DATA_READ);
    var key := AccessKey(Lower(m.objectId), pair.0, DATA_READ);
    if i == |roles| {
      var role := Role(name, [PlainRule(path, ["Read"])], [m], [], []);
      PlainRulePairs(catalog, path, role);
      NewRoleCollects(catalog, name, path, m);
      DarKeysAppend(catalog, roles, role);
    } else {
      assert OwnRole(catalog, roles[i], path);
      if merge.Already? {
        var e :| e in roles[i].microsoftEntraMembers && Lower(e.objectId) == Lower(m.objectId);
        assert Lower(m.objectId) in Ids(DarMembers(roles[i]));
        assert key in RoleKeys(catalog, roles[i]);
      } else if merge.Merged? {
        var role := merge.roles[i];
        MemberCollects(catalog, roles[i], path, m);
        DarKeysReplace(catalog, roles, i, role, {key});
      }
    }
  }

  /**
   Why the precondition is needed, and exactly: merging a new member into a readable role gives that
   member the table and nothing else if and only if the role grants just that.
   */
  lemma MergeIsExact(catalog: string, role: Role, path: string, m: Member)
    requires role.microsoftEntraMembers != [] && m.objectId != ""
    requires Lower(m.objectId) !in Ids(role.microsoftEntraMembers)
    ensures var merged := role.(microsoftEntraMembers := role.microsoftEntraMembers + [m]);
            RoleKeys(catalog, merged) == RoleKeys(catalog, role)
              + {AccessKey(Lower(m.objectId), ScopeOfPath(catalog, path), DATA_READ)}
            <==> Pairs(catalog, role) == {(ScopeOfPath(catalog, path), DATA_READ)}
  {
    var merged := role.(microsoftEntraMembers := role.microsoftEntraMembers + [m]);
    var id, pair := Lower(m.objectId), (ScopeOfPath(catalog, path), DATA_READ);
    var key := AccessKey(id, pair.0, DATA_READ);
    IdsOfMore(role.microsoftEntraMembers, m);
    assert Pairs(catalog, merged) == Pairs(catalog, role);
    if RoleKeys(catalog, merged) == RoleKeys(catalog, role) + {key} {
      forall p | p in Pairs(catalog, role)
        ensures p == pair
      {
        assert id in Ids(DarMembers(merged));
        assert AccessKey(id, p.0, p.1) in RoleKeys(catalog, merged);
        assert p == (p.0, p.1);
      }
      assert key in RoleKeys(catalog, merged);
      var p :| p in Pairs(catalog, merged) && AccessKey(id, p.0, p.1) == key;
      assert p == (p.0, p.1);
      assert Pairs(catalog, role) == {pair};
    }
    if Pairs(catalog, role) == {pair} {
      forall k
        ensures k in RoleKeys(catalog, merged) <==> k in RoleKeys(catalog, role) + {key}
      {
        if k in RoleKeys(catalog, merged) {
          var i, p :| i in Ids(DarMembers(merged)) && p in Pairs(catalog, merged) && k == AccessKey(i, p.0, p.1);
          assert p in Pairs(catalog, role) && p == pair;
          assert i != id ==> i in Ids(DarMembers(role)) && k in RoleKeys(catalog, role);
        }
        if k in RoleKeys(catalog, role) {
          var i, p :| i in Ids(DarMembers(role)) && p in Pairs(catalog, role) && k == AccessKey(i, p.0, p.1);
          assert i in Ids(DarMembers(merged)) && p in Pairs(catalog, merged);
        }
        assert id in Ids(DarMembers(merged)) && pair in Pairs(catalog, merged);
        assert key == AccessKey(id, pair.0, pair.1);
      }
    }
  }

  /**
   The second half of the precondition, exactly: the merge keeps every reader of the role if and only
   if the members are not kept under one of the other two keys, which the merge would hide.
   */
  lemma MergeKeepsReaders(role: Role, m: Member)
    ensures var merged := role.(microsoftEntraMembers := role.microsoftEntraMembers + [m]);
            DarMembers(merged) == DarMembers(role) + [m] <==> role.microsoftEntraMembers != [] || DarMembers(role) == []
  {
  }

  function TwoTables(name: string, path: string, other: string, members: seq<Member>): Role {
    Role(name, [PlainRule(path, ["Read"]), PlainRule(other, ["Read"])], members, [], [])
  }

  lemma SecondTableMerges(name: string, path: string, other: string, reader: Member, m: Member)
    requires Lower(m.objectId) != Lower(reader.objectId)
    ensures MergeGrant([TwoTables(name, path, other, [reader])], name, path, m) ==
              Merged([TwoTables(name, path, other, [reader, m])])
  {
    var role := TwoTables(name, path, other, [reader]);
    TwoTablesMatch(role, path, other);
    FirstNamedUnique([role], name, 0);
    assert [reader] + [m] == [reader, m];
    assert [role][0 := TwoTables(name, path, other, [reader, m])] == [TwoTables(name, path, other, [reader, m])];
  }

  lemma SecondTableKey(catalog: string, name: string, path: string, other: string, members: seq<Member>, id: string)
    ensures AccessKey(id, ScopeOfPath(catalog, other), DATA_READ)
              in DarKeys(catalog, [TwoTables(name, path, other, members)]) <==>
              id in Ids(members)
  {
    var role, pair := TwoTables(name, path, other, members), (ScopeOfPath(catalog, other), DATA_READ);
    PlainRuleValues(other, ["Read"]);
    PairsOfOne(catalog, role.rules[1], other, "Read", DATA_READ);
    assert role.rules[1] in role.rules && pair in Pairs(catalog, role);
    assert role in [role];
    if id in Ids(members) {
      assert id in Ids(DarMembers(role));
      assert AccessKey(id, pair.0, pair.1) in RoleKeys(catalog, role);
    }
  }

  /** The failing case: a hub-named role that grants a second table is extended, and gives the new member both. */
  lemma SecondTableIsGiven(catalog: string, name: string, path: string, other: string, reader: Member, m: Member)
    requires ScopeOfPath(catalog, other) != ScopeOfPath(catalog, path)
    requires m.objectId != "" && Lower(m.objectId) != Lower(reader.objectId)
    ensures var role := TwoTables(name, path, other, [reader]);
            var merge := MergeGrant([role], name, path, m);
            var key := AccessKey(Lower(m.objectId), ScopeOfPath(catalog, other), DATA_READ);
            merge.Merged? && key in DarKeys(catalog, merge.roles) && key !in DarKeys(catalog, [role])
  {
    SecondTableMerges(name, path, other, reader, m);
    SecondTableKey(catalog, name, path, other, [reader], Lower(m.objectId));
    SecondTableKey(catalog, name, path, other, [reader, m], Lower(m.objectId));
    assert m in [reader, m];
  }

  lemma TwoTablesMatch(role: Role, path: string, other: string)
    requires role.rules == [PlainRule(path, ["Read"]), PlainRule(other, ["Read"])]
    ensures Matches(role, path, ["Read"])
  {
    var rule := role.rules[0];
    var p, a := rule.permission[0], rule.permission[1];
    assert rule in role.rules;
    assert p in rule.permission + rule.attributes && a in rule.permission + rule.attributes;
    assert path in p.includedIn + p.values + p.value && "Read" in a.includedIn + a.values + a.value;
  }

  /** The failing case: a reader stored under the second member key is hidden by the first member of the first. */
  lemma ReaderIsHidden(name: string, path: string, reader: Member, m: Member)
    requires reader != m
    ensures var role := Role(name, [PlainRule(path, ["Read"])], [], [reader], []);
            && DarMembers(role) == [reader]
            && DarMembers(role.(microsoftEntraMembers := role.microsoftEntraMembers + [m])) == [m]
  {
  }
}
