/**
 The writers of the sync package and how a call of theirs can end (permission-sync/src/writers): the workspace URL
 and connection a call is made with, the identifiers Snowflake is given, and the exceptions nobody catches.
 */
module SourceWriters {
  import opened Text
  import opened Canonical
  import opened FabricSync

  /** The raw privileges the privilege matrix names for Unity Catalog and Snowflake. */
  datatype Privilege =
    | SELECT | READ_VOLUME | USE_CATALOG | USE_SCHEMA | MODIFY | WRITE_VOLUME | CREATE_TABLE | CREATE_SCHEMA
    | CREATE_CATALOG | ALL_PRIVILEGES | OWNERSHIP | REFERENCES | INSERT | UPDATE | DELETE | TRUNCATE | USAGE | ALL
    | OtherPrivilege(name: string)

  function PrivilegeText(p: Privilege): string {
    match p
    case SELECT => "SELECT"
    case READ_VOLUME => "READ VOLUME"
    case USE_CATALOG => "USE CATALOG"
    case USE_SCHEMA => "USE SCHEMA"
    case MODIFY => "MODIFY"
    case WRITE_VOLUME => "WRITE VOLUME"
    case CREATE_TABLE => "CREATE TABLE"
    case CREATE_SCHEMA => "CREATE SCHEMA"
    case CREATE_CATALOG => "CREATE CATALOG"
    case ALL_PRIVILEGES => "ALL PRIVILEGES"
    case OWNERSHIP => "OWNERSHIP"
    case REFERENCES => "REFERENCES"
    case INSERT => "INSERT"
    case UPDATE => "UPDATE"
    case DELETE => "DELETE"
    case TRUNCATE => "TRUNCATE"
    case USAGE => "USAGE"
    case ALL => "ALL"
    case OtherPrivilege(name) => name
  }

  datatype Target = Fabric | UnityCatalog | Snowflake | Other

  /** Platforms written one privilege at a time. */
  predicate PerPrivilege(target: Target) { target.UnityCatalog? || target.Snowflake? }

  /** The privilege matrix of one platform: raw privilege to access class, and back. */
  datatype Matrix = Matrix(normalize: map<Privilege, Access>, denormalize: map<Access, Privilege>)

  /** One privilege held on the target platform. */
  datatype Grant = Grant(principal: string, fqn: string, kind: string, privilege: Privilege)

  function GrantFor(m: Matrix, p: Permission): Grant
    requires p.access in m.denormalize
  {
    Grant(p.principal, p.fqn, p.kind, m.denormalize[p.access])
  }

  // ---------------------------------------------------------------- what a call is made with

  /** The `ctx` of `apply_diff`: missing entries are empty. */
  datatype Ctx = Ctx(workspaceUrl: string, connection: map<string, string>)

  const NO_CTX := Ctx("", map[])

  /** What opening a Snowflake connection comes to; without parameters it is the default connection, if there is one. */
  datatype Connect = NoConnector | Throws | Opens

  /**
   What the remote side answers to a call: whether it accepts, as far as the state of the platform does not decide it,
   whether the call ends in an exception instead, and what a connection comes to.
   */
  datatype Remote = Remote(accepts: (Permission, bool) -> bool, breaks: (Permission, bool) -> bool,
                           connects: (map<string, string>, Permission, bool) -> Connect)

  /** Where a run writes, and with what. */
  datatype Route = Route(target: Target, matrix: Matrix, setup: Setup, ctx: Ctx, remote: Remote)

  /** httpx has no transport for a URL of another scheme, or of none. */
  predicate HasScheme(url: string) { "http://" <= Lower(url) || "https://" <= Lower(url) }

  predicate IdentStart(c: char) { 'a' <= c <= 'z' || 'A' <= c <= 'Z' || c == '_' }

  predicate IdentChar(c: char) { IdentStart(c) || '0' <= c <= '9' || c == '.' || c == '"' }

  /** `_IDENT_RE` matches; its end also stands before one last line break. */
  predicate SafeIdent(s: string) {
    var t := if s != "" && s[|s| - 1] == '\n' then s[..|s| - 1] else s;
    t != "" && IdentStart(t[0]) && forall c :: c in t ==> IdentChar(c)
  }

  /** Everything Snowflake is given as an identifier is one. */
  predicate SafeSql(m: Matrix, p: Permission)
    requires p.access in m.denormalize
  {
    SafeIdent(Upper(p.kind)) && SafeIdent(p.fqn) && SafeIdent(PrivilegeText(m.denormalize[p.access]))
    && SafeIdent(p.grantee)
  }

  // ---------------------------------------------------------------- how an item ends

  /** `SnowflakeWriter._execute` gets as far as opening a connection. */
  predicate Connecting(r: Route, p: Permission) {
    && r.target.Snowflake? && p.access in r.matrix.denormalize
    && p.grantee != "" && SafeSql(r.matrix, p)
  }

  /**
   An exception leaves the dispatch of the item: one of a Fabric call, or one of opening a Snowflake connection. Those
   of a Unity Catalog call and of a Snowflake statement are caught.
   */
  predicate Escapes(r: Route, p: Permission, grant: bool) {
    if r.target.Fabric? then r.remote.breaks(p, grant) && (grant ==> Plan(r.setup, p).Some? && !r.setup.dryRun)
    else Connecting(r, p) && r.remote.connects(r.ctx.connection, p, grant).Throws?
  }

  /** The item changes a platform of privileges. */
  predicate Writes(r: Route, p: Permission, grant: bool) {
    && p.access in r.matrix.denormalize && r.remote.accepts(p, grant)
    && match r.target
       case UnityCatalog => HasScheme(r.ctx.workspaceUrl) && !r.remote.breaks(p, grant)
       case Snowflake => Connecting(r, p) && r.remote.connects(r.ctx.connection, p, grant).Opens?
       case _ => false
  }

  /** How one item ends, unless an exception leaves its dispatch. */
  function OutcomeOf(r: Route, roles: Roles, p: Permission, grant: bool): Outcome {
    if r.target.Fabric? then FabricOutcome(r.setup, roles, p, r.remote.accepts(p, grant), grant)
    else if !PerPrivilege(r.target) || p.access !in r.matrix.denormalize then Skipped
    else if r.target.Snowflake? && p.grantee == "" then Skipped
    else if !Writes(r, p, grant) then Failed
    else if grant then Granted
    else Revoked
  }

  // ---------------------------------------------------------------- the writers

  /** A platform that is written one privilege at a time. */
  class PrivilegeWriter {
    /** What the platform holds. */
    var held: set<Grant>

    constructor (held: set<Grant>)
      ensures this.held == held
    {
      this.held := held;
    }

    /** `UnityCatalogWriter._update`: every error of the call is caught. */
    method UpdateUnityCatalog(r: Route, p: Permission, grant: bool) returns (outcome: Outcome)
      requires r.target.UnityCatalog? && p.access in r.matrix.denormalize
      modifies this`held
      ensures held == HeldAfter(r, old(held), p, grant)
      ensures outcome == OutcomeOf(r, map[], p, grant)
    {
      if !HasScheme(r.ctx.workspaceUrl) || r.remote.breaks(p, grant) || !r.remote.accepts(p, grant) {
        return Failed;
      }
      outcome := Change(r, p, grant);
    }

    /** `SnowflakeWriter._execute`: opening the connection stands outside the handler. */
    method ExecuteSnowflake(r: Route, p: Permission, grant: bool) returns (escaped: bool, outcome: Outcome)
      requires r.target.Snowflake? && p.access in r.matrix.denormalize
      modifies this`held
      ensures escaped <==> Escapes(r, p, grant)
      ensures held == HeldAfter(r, old(held), p, grant)
      ensures !escaped ==> outcome == OutcomeOf(r, map[], p, grant)
    {
      escaped, outcome := false, Failed;
      if p.grantee == "" {
        outcome := Skipped;
        return;
      }
      if !SafeSql(r.matrix, p) {
        return;
      }
      match r.remote.connects(r.ctx.connection, p, grant)
      case Throws => escaped := true;
      case NoConnector =>
      case Opens =>
        if r.remote.accepts(p, grant) {
          outcome := Change(r, p, grant);
        }
    }

    method Change(r: Route, p: Permission, grant: bool) returns (outcome: Outcome)
      requires Writes(r, p, grant)
      modifies this`held
      ensures held == HeldAfter(r, old(held), p, grant)
      ensures outcome == if grant then Granted else Revoked
    {
      held := if grant then held + {GrantFor(r.matrix, p)} else held - {GrantFor(r.matrix, p)};
      outcome := if grant then Granted else Revoked;
    }
  }

  function HeldAfter(r: Route, held: set<Grant>, p: Permission, grant: bool): set<Grant> {
    if !Writes(r, p, grant) then held
    else if grant then held + {GrantFor(r.matrix, p)}
    else held - {GrantFor(r.matrix, p)}
  }

  function HeldAfterAll(r: Route, held: set<Grant>, ps: seq<Permission>, grant: bool): set<Grant> {
    if ps == [] then held
    else HeldAfter(r, HeldAfterAll(r, held, ps[..|ps| - 1], grant), ps[|ps| - 1], grant)
  }

  /** Whether an item of the list writes this privilege. */
  ghost predicate WrittenIn(r: Route, ps: seq<Permission>, grant: bool, g: Grant) {
    exists p :: p in ps && Writes(r, p, grant) && GrantFor(r.matrix, p) == g
  }

  /** After any items, whatever the answers: exactly the privileges of the items that write are added, or removed. */
  lemma {:induction false} HeldAfterItems(r: Route, held: set<Grant>, ps: seq<Permission>, grant: bool, g: Grant)
    ensures g in HeldAfterAll(r, held, ps, grant) <==>
              if grant then g in held || WrittenIn(r, ps, grant, g) else g in held && !WrittenIn(r, ps, grant, g)
  {
    if ps != [] {
      var last := |ps| - 1;
      HeldAfterItems(r, held, ps[..last], grant, g);
      assert ps == ps[..last] + [ps[last]];
      assert WrittenIn(r, ps, grant, g) <==>
               WrittenIn(r, ps[..last], grant, g) || (Writes(r, ps[last], grant) && GrantFor(r.matrix, ps[last]) == g);
    }
  }

  // ---------------------------------------------------------------- runs that an exception may end

  /** How many items of the list are dispatched before an exception escapes. */
  function Reach(r: Route, ps: seq<Permission>, grant: bool): (n: nat)
    ensures n <= |ps|
    ensures forall i :: 0 <= i < n ==> !Escapes(r, ps[i], grant)
    ensures n < |ps| ==> Escapes(r, ps[n], grant)
  {
    if ps == [] || Escapes(r, ps[0], grant) then 0 else 1 + Reach(r, ps[1..], grant)
  }

  /** The grants and the revokes of a run that are dispatched. */
  function GrantsRun(r: Route, toGrant: seq<Permission>): seq<Permission> { toGrant[..Reach(r, toGrant, true)] }

  function RevokesRun(r: Route, toGrant: seq<Permission>, toRevoke: seq<Permission>): seq<Permission> {
    if Reach(r, toGrant, true) < |toGrant| then [] else toRevoke[..Reach(r, toRevoke, false)]
  }

  /** No item of the run raises. */
  predicate Completes(r: Route, toGrant: seq<Permission>, toRevoke: seq<Permission>) {
    GrantsRun(r, toGrant) == toGrant && RevokesRun(r, toGrant, toRevoke) == toRevoke
  }

  /** A run completes exactly when no item of it raises. */
  lemma CompletesExactly(r: Route, toGrant: seq<Permission>, toRevoke: seq<Permission>)
    ensures Completes(r, toGrant, toRevoke) <==>
              && (forall p :: p in toGrant ==> !Escapes(r, p, true))
              && (forall p :: p in toRevoke ==> !Escapes(r, p, false))
  {
    var n, k := Reach(r, toGrant, true), Reach(r, toRevoke, false);
    if n < |toGrant| {
      assert toGrant[n] in toGrant;
    } else if k < |toRevoke| {
      assert toRevoke[k] in toRevoke;
    }
  }

  /** What a platform of privileges holds after all grants and then all revokes of a run. */
  function HeldRun(r: Route, held: set<Grant>, toGrant: seq<Permission>, toRevoke: seq<Permission>): set<Grant> {
    HeldAfterAll(r, HeldAfterAll(r, held, GrantsRun(r, toGrant), true), RevokesRun(r, toGrant, toRevoke), false)
  }
}
