/**
 Fine-grained (row and column) roles: the upsert of pair_apply.py, which gives a policy role to
 exactly the principals that can read the table already.
 */
module DasUpsert {
  import opened Optional
  import opened Text
  import opened PyDict
  import opened DarRoles

  /** A member with the two optional fields filled in. */
  function Enriched(m: Member, tenant: string): Member {
    Member(m.objectId, if m.tenantId != "" then m.tenantId else tenant,
           if m.objectType != "" then m.objectType else "User")
  }

  /**
   `members_by_oid` after a list of members: keyed by lower-case object id, the last one wins, members without an id are
   left out.
   */
  function AddMembers(d: Dict<string, Member>, ms: seq<Member>, tenant: string): Dict<string, Member> {
    if ms == [] then d
    else
      var before, m := AddMembers(d, ms[..|ms| - 1], tenant), ms[|ms| - 1];
      if m.objectId == "" then before else Put(before, Lower(m.objectId), Enriched(m, tenant))
  }

  /** The members of every role that reads this path, in role order. */
  function Readers(roles: seq<Role>, path: string): seq<Member> {
    if roles == [] then []
    else
      var last := |roles| - 1;
      Readers(roles[..last], path) + if Matches(roles[last], path, ["Read"]) then DarMembers(roles[last]) else []
  }

  function ReaderDict(roles: seq<Role>, path: string, tenant: string): Dict<string, Member> {
    AddMembers(Empty(), Readers(roles, path), tenant)
  }

  /** `list(d.values())` */
  function Values(d: Dict<string, Member>): (vs: seq<Member>)
    ensures |vs| == |d.keys|
  {
    seq(|d.keys|, i requires 0 <= i < |d.keys| => GetOr(d, d.keys[i], Member("", "", "")))
  }

  /** The members of a dictionary of readers, or the caller when there are none. */
  function MembersFor(readers: seq<Member>, tenant: string, caller: Option<Member>): seq<Member> {
    var d := AddMembers(Empty(), readers, tenant);
    if d.keys != [] then Values(d)
    else if caller.Some? && caller.value.objectId != "" then [caller.value]
    else []
  }

  /** Who a policy on this path applies to. */
  function PolicyMembers(roles: seq<Role>, path: string, tenant: string, caller: Option<Member>): seq<Member> {
    MembersFor(Readers(roles, path), tenant, caller)
  }

  datatype Upsert = NoMember | OtherScope | Upserted(roles: seq<Role>)

  /** A policy to write: the role name, the table path and the constraints. */
  datatype Policy = Policy(name: string, path: string, rows: seq<RowConstraint>, columns: seq<ColumnConstraint>)

  function PolicyRole(p: Policy, members: seq<Member>): Role {
    var rule := PlainRule(p.path, ["Read"]);
    Role(p.name, [rule.(rows := p.rows, columns := p.columns)], members, [], [])
  }

  function UpsertPolicy(roles: seq<Role>, p: Policy, tenant: string, caller: Option<Member>): Upsert {
    var members := PolicyMembers(roles, p.path, tenant, caller);
    if members == [] then NoMember
    else
      var i := FirstNamed(roles, p.name);
      if i == |roles| then Upserted(roles + [PolicyRole(p, members)])
      else if !Matches(roles[i], p.path, ["Read"]) then OtherScope
      else Upserted(roles[i := PolicyRole(p, members)])
  }

  /** The inner loop over the members of one role. */
  method MergeMembers(start: Dict<string, Member>, ms: seq<Member>, tenant: string)
      returns (byOid: Dict<string, Member>)
    ensures byOid == AddMembers(start, ms, tenant)
  {
    byOid := start;
    var j := 0;
    while j < |ms|
      invariant 0 <= j <= |ms|
      invariant byOid == AddMembers(start, ms[..j], tenant)
    {
      assert ms[..j + 1][..j] == ms[..j];
      if ms[j].objectId != "" {
        byOid := Put(byOid, Lower(ms[j].objectId), Enriched(ms[j], tenant));
      }
      j := j + 1;
    }
    assert ms[..j] == ms;
  }

  method MembersForFineGrainedPolicy(roles: seq<Role>, path: string, tenant: string, caller: Option<Member>)
    returns (members: seq<Member>)
    ensures members == PolicyMembers(roles, path, tenant, caller)
  {
    var byOid: Dict<string, Member> := Empty();
    var i := 0;
    while i < |roles|
      invariant 0 <= i <= |roles|
      invariant byOid == ReaderDict(roles[..i], path, tenant)
    {
      assert roles[..i + 1][..i] == roles[..i];
      if Matches(roles[i], path, ["Read"]) {
        var ms := DarMembers(roles[i]);
        byOid := MergeMembers(byOid, ms, tenant);
        AddMembersConcat(Empty(), Readers(roles[..i], path), ms, tenant);
      } else {
        assert Readers(roles[..i + 1], path) == Readers(roles[..i], path);
      }
      i := i + 1;
    }
    assert roles[..i] == roles;
    AddMembersValid(Empty(), Readers(roles, path), tenant);
    if byOid.keys == [] {
      if caller.Some? && caller.value.objectId != "" {
        OneValue(byOid, Lower(caller.value.objectId), caller.value);
        byOid := Put(byOid, Lower(caller.value.objectId), caller.value);
      }
    }
    members := Values(byOid);
  }

  lemma OneValue(d: Dict<string, Member>, k: string, m: Member)
    requires d.Valid() && d.keys == []
    ensures Values(Put(d, k, m)) == [m]
  {
  }

  class PolicyItem {
    var roles: seq<Role>

    constructor (roles: seq<Role>)
      ensures this.roles == roles
    {
      this.roles := roles;
    }

    /** Reads the list, changes it in place and puts it back; any failure leaves the item alone. */
    method UpsertDasConstraintRole(p: Policy, tenant: string, caller: Option<Member>, get: Reply, put: Reply)
        returns (ok: bool)
      modifies this
      ensures ok <==> get.Done? && put.Done? && UpsertPolicy(old(roles), p, tenant, caller).Upserted?
      ensures ok ==> UpsertPolicy(old(roles), p, tenant, caller) == Upserted(roles)
      ensures !ok ==> roles == old(roles)
    {
      if !get.Done? {
        return false;
      }
      var current := roles;
      var members := MembersForFineGrainedPolicy(current, p.path, tenant, caller);
      if members == [] {
        return false;
      }
      var i := 0;
      while i < |current| && Lower(current[i].name) != Lower(p.name)
        invariant 0 <= i <= |current|
        invariant forall k :: 0 <= k < i ==> Lower(current[k].name) != Lower(p.name)
      {
        i := i + 1;
      }
      FirstNamedUnique(current, p.name, i);
      if i < |current| && !Matches(current[i], p.path, ["Read"]) {
        return false;
      }
      if i == |current| {
        current := current + [PolicyRole(p, members)];
      } else {
        current := current[i := PolicyRole(p, members)];
      }
      if !put.Done? {
        return false;
      }
      roles := current;
      ok := true;
    }
  }

  // ---------------------------------------------------------------- the member dictionary

  lemma AddLast(d: Dict<string, Member>, ms: seq<Member>, tenant: string)
    requires ms != []
    ensures var before, m := AddMembers(d, ms[..|ms| - 1], tenant), ms[|ms| - 1];
            AddMembers(d, ms, tenant) == if m.objectId == "" then before
            else Put(before, Lower(m.objectId), Enriched(m, tenant))
  {
  }

  lemma {:induction false} AddMembersConcat(d: Dict<string, Member>, a: seq<Member>, b: seq<Member>, tenant: string)
    ensures AddMembers(d, a + b, tenant) == AddMembers(AddMembers(d, a, tenant), b, tenant)
  {
    if b == [] {
      assert a + b == a;
    } else {
      var last := |b| - 1;
      AddMembersConcat(d, a, b[..last], tenant);
      assert (a + b)[..|a + b| - 1] == a + b[..last];
      assert (a + b)[|a + b| - 1] == b[last];
      AddLast(d, a + b, tenant);
      AddLast(AddMembers(d, a, tenant), b, tenant);
    }
  }

  /** The keys of the dictionary are the object ids of the members. */
  lemma {:induction false} AddMembersKeys(d: Dict<string, Member>, ms: seq<Member>, tenant: string)
    ensures AddMembers(d, ms, tenant).at.Keys == d.at.Keys + Ids(ms)
    ensures d.keys <= AddMembers(d, ms, tenant).keys
  {
    if ms != [] {
      var last := |ms| - 1;
      AddMembersKeys(d, ms[..last], tenant);
      assert ms == ms[..last] + [ms[last]];
      IdsOfMore(ms[..last], ms[last]);
    }
  }

  /** Every stored member is complete, carries its own key, and would be stored unchanged. */
  ghost predicate Stored(d: Dict<string, Member>, tenant: string) {
    forall k | k in d.at :: d.at[k].objectId != "" && Lower(d.at[k].objectId) == k
           && Enriched(d.at[k], tenant) == d.at[k]
  }

  lemma {:induction false} AddMembersStored(d: Dict<string, Member>, ms: seq<Member>, tenant: string)
    requires Stored(d, tenant)
    ensures Stored(AddMembers(d, ms, tenant), tenant)
  {
    if ms != [] {
      AddMembersStored(d, ms[..|ms| - 1], tenant);
    }
  }

  /** The entry the last member with this key leaves. */
  function LastEntry(ms: seq<Member>, k: string, tenant: string): Member {
    if ms == [] then Member("", "", "")
    else if ms[|ms| - 1].objectId != "" && Lower(ms[|ms| - 1].objectId) == k then Enriched(ms[|ms| - 1], tenant)
    else LastEntry(ms[..|ms| - 1], k, tenant)
  }

  lemma {:induction false} AddMembersAt(d: Dict<string, Member>, ms: seq<Member>, k: string, tenant: string)
    requires k in AddMembers(d, ms, tenant).at
    ensures k in Ids(ms) ==> AddMembers(d, ms, tenant).at[k] == LastEntry(ms, k, tenant)
    ensures k !in Ids(ms) ==> k in d.at && AddMembers(d, ms, tenant).at[k] == d.at[k]
  {
    if ms != [] {
      var last := |ms| - 1;
      assert ms == ms[..last] + [ms[last]];
      IdsOfMore(ms[..last], ms[last]);
      if ms[last].objectId == "" || Lower(ms[last].objectId) != k {
        AddMembersAt(d, ms[..last], k, tenant);
      }
    }
  }

  /** Members that are there already keep the order of the keys. */
  lemma {:induction false} AddKnownMembers(d: Dict<string, Member>, ms: seq<Member>, tenant: string)
    requires Ids(ms) <= d.at.Keys
    ensures AddMembers(d, ms, tenant).keys == d.keys
  {
    if ms != [] {
      var last := |ms| - 1;
      assert ms == ms[..last] + [ms[last]];
      IdsOfMore(ms[..last], ms[last]);
      AddKnownMembers(d, ms[..last], tenant);
      AddMembersKeys(d, ms[..last], tenant);
    }
  }

  /** Adding the same members a second time changes nothing. */
  lemma AddTwice(d: Dict<string, Member>, ms: seq<Member>, tenant: string)
    ensures AddMembers(AddMembers(d, ms, tenant), ms, tenant) == AddMembers(d, ms, tenant)
  {
    var r := AddMembers(d, ms, tenant);
    var again := AddMembers(r, ms, tenant);
    AddMembersKeys(d, ms, tenant);
    AddMembersKeys(r, ms, tenant);
    AddKnownMembers(r, ms, tenant);
    forall k | k in r.at
      ensures again.at[k] == r.at[k]
    {
      AddMembersAt(d, ms, k, tenant);
      AddMembersAt(r, ms, k, tenant);
    }
    assert again.at == r.at;
  }

  lemma {:induction false} AddMembersValid(d: Dict<string, Member>, ms: seq<Member>, tenant: string)
    requires d.Valid()
    ensures AddMembers(d, ms, tenant).Valid()
  {
    if ms != [] {
      var m := ms[|ms| - 1];
      AddMembersValid(d, ms[..|ms| - 1], tenant);
      PutValid(AddMembers(d, ms[..|ms| - 1], tenant), Lower(m.objectId), Enriched(m, tenant));
    }
  }

  /** The value stored under the n-th key. */
  lemma StoredAt(full: Dict<string, Member>, n: nat, tenant: string)
    requires full.Valid() && Stored(full, tenant) && n < |full.keys|
    ensures var m := Values(full)[n];
            m.objectId != "" && Lower(m.objectId) == full.keys[n] && Enriched(m, tenant) == m == full.at[full.keys[n]]
    ensures full.keys[n] !in full.keys[..n]
  {
    assert full.keys[n] in full.keys;
  }

  lemma PutKeys(d: Dict<string, Member>, keys: seq<string>, n: nat, v: Member)
    requires d.Valid() && n < |keys| && keys[n] !in keys[..n]
    ensures d.keys == keys[..n] ==> Put(d, keys[n], v).keys == keys[..n + 1]
    ensures keys[n] in d.keys ==> Put(d, keys[n], v).keys == d.keys
  {
    assert keys[..n] + [keys[n]] == keys[..n + 1];
    assert keys[n] in d.at <==> keys[n] in d.keys;
  }

  lemma AddValue(d: Dict<string, Member>, vs: seq<Member>, n: nat, tenant: string)
    requires n < |vs| && vs[n].objectId != ""
    ensures AddMembers(d, vs[..n + 1], tenant) ==
              Put(AddMembers(d, vs[..n], tenant), Lower(vs[n].objectId), Enriched(vs[n], tenant))
  {
    assert vs[..n + 1][..n] == vs[..n];
  }

  /** The keys of a dictionary, rebuilt from its values on top of some of its first keys. */
  lemma {:induction false} AddValuesKeys(d: Dict<string, Member>, full: Dict<string, Member>, n: nat, tenant: string)
    requires d.Valid() && full.Valid() && Stored(full, tenant) && d.keys <= full.keys && n <= |full.keys|
    ensures AddMembers(d, Values(full)[..n], tenant).keys == full.keys[..if n > |d.keys| then n else |d.keys|]
  {
    var vs := Values(full);
    if n > 0 {
      AddValuesKeys(d, full, n - 1, tenant);
      AddValuesStep(d, full, n - 1, tenant);
    } else {
      assert vs[..0] == [];
    }
  }

  lemma AddValuesStep(d: Dict<string, Member>, full: Dict<string, Member>, n: nat, tenant: string)
    requires d.Valid() && full.Valid() && Stored(full, tenant) && n < |full.keys|
    requires |d.keys| <= |full.keys|
    requires AddMembers(d, Values(full)[..n], tenant).keys == full.keys[..if n > |d.keys| then n else |d.keys|]
    ensures AddMembers(d, Values(full)[..n + 1], tenant).keys ==
              full.keys[..if n + 1 > |d.keys| then n + 1 else |d.keys|]
  {
    var before := AddMembers(d, Values(full)[..n], tenant);
    StoredAt(full, n, tenant);
    AddValue(d, Values(full), n, tenant);
    AddMembersValid(d, Values(full)[..n], tenant);
    PutKeys(before, full.keys, n, Values(full)[n]);
    if n < |d.keys| {
      assert before.keys[n] == full.keys[n];
    }
  }

  lemma {:induction false} LastEntryOfValues(full: Dict<string, Member>, n: nat, i: nat, tenant: string)
    requires full.Valid() && Stored(full, tenant) && i < n <= |full.keys|
    ensures LastEntry(Values(full)[..n], full.keys[i], tenant) == full.at[full.keys[i]]
  {
    var vs := Values(full);
    assert vs[..n][..n - 1] == vs[..n - 1];
    assert full.keys[n - 1] in full.keys && full.keys[i] in full.keys;
    if i < n - 1 {
      LastEntryOfValues(full, n - 1, i, tenant);
    }
  }

  lemma IdsOfValues(full: Dict<string, Member>, tenant: string)
    requires full.Valid() && Stored(full, tenant)
    ensures Ids(Values(full)) == full.at.Keys
  {
    forall k | k in full.at
      ensures k in Ids(Values(full))
    {
      assert k in full.keys;
      var i :| 0 <= i < |full.keys| && full.keys[i] == k;
      assert Values(full)[i] in Values(full);
    }
    forall k | k in Ids(Values(full))
      ensures k in full.at
    {
      var m :| m in Values(full) && m.objectId != "" && Lower(m.objectId) == k;
      var i :| 0 <= i < |full.keys| && Values(full)[i] == m;
      assert full.keys[i] in full.keys;
    }
  }

  lemma PrefixKeys(d: Dict<string, Member>, full: Dict<string, Member>)
    requires d.Valid() && full.Valid() && d.keys <= full.keys
    ensures d.at.Keys <= full.at.Keys
  {
    forall k | k in d.at
      ensures k in full.at
    {
      assert k in d.keys && k in full.keys;
    }
  }

  lemma ValueOf(full: Dict<string, Member>, k: string, tenant: string)
    requires full.Valid() && Stored(full, tenant) && k in full.at
    ensures LastEntry(Values(full), k, tenant) == full.at[k]
  {
    assert k in full.keys;
    var i :| 0 <= i < |full.keys| && full.keys[i] == k;
    assert Values(full)[..|full.keys|] == Values(full);
    LastEntryOfValues(full, |full.keys|, i, tenant);
  }

  lemma AddValuesOrder(d: Dict<string, Member>, full: Dict<string, Member>, tenant: string)
    requires d.Valid() && full.Valid() && Stored(full, tenant) && d.keys <= full.keys
    ensures AddMembers(d, Values(full), tenant).keys == full.keys
  {
    AddValuesKeys(d, full, |full.keys|, tenant);
    assert Values(full)[..|full.keys|] == Values(full) && full.keys[..|full.keys|] == full.keys;
  }

  lemma AddValuesDomain(d: Dict<string, Member>, full: Dict<string, Member>, tenant: string)
    requires d.Valid() && full.Valid() && Stored(full, tenant) && d.keys <= full.keys
    ensures AddMembers(d, Values(full), tenant).at.Keys == full.at.Keys == Ids(Values(full))
  {
    IdsOfValues(full, tenant);
    PrefixKeys(d, full);
    AddMembersKeys(d, Values(full), tenant);
  }

  lemma AddValuesAt(d: Dict<string, Member>, full: Dict<string, Member>, k: string, tenant: string)
    requires d.Valid() && full.Valid() && Stored(full, tenant) && d.keys <= full.keys && k in full.at
    ensures k in AddMembers(d, Values(full), tenant).at && AddMembers(d, Values(full), tenant).at[k] == full.at[k]
  {
    AddValuesDomain(d, full, tenant);
    AddMembersAt(d, Values(full), k, tenant);
    ValueOf(full, k, tenant);
  }

  lemma SameDict(a: Dict<string, Member>, b: Dict<string, Member>)
    requires a.keys == b.keys && a.at.Keys == b.at.Keys && forall k :: k in b.at ==> a.at[k] == b.at[k]
    ensures a == b
  {
    assert a.at == b.at;
  }

  /** Writing the values of a dictionary over one with the same first keys rebuilds it. */
  lemma AddValues(d: Dict<string, Member>, full: Dict<string, Member>, tenant: string)
    requires d.Valid() && full.Valid() && Stored(full, tenant) && d.keys <= full.keys
    ensures AddMembers(d, Values(full), tenant) == full
  {
    AddValuesOrder(d, full, tenant);
    AddValuesDomain(d, full, tenant);
    forall k | k in full.at
      ensures AddMembers(d, Values(full), tenant).at[k] == full.at[k]
    {
      AddValuesAt(d, full, k, tenant);
    }
    SameDict(AddMembers(d, Values(full), tenant), full);
  }

  // ---------------------------------------------------------------- who a policy applies to

  /** The object ids that can read this path now, as the writer sees it. */
  function CurrentReaders(roles: seq<Role>, path: string): set<string> {
    set role, id | role in roles && Matches(role, path, ["Read"]) && id in Ids(DarMembers(role)) :: id
  }

  lemma IdsConcat(a: seq<Member>, b: seq<Member>)
    ensures Ids(a + b) == Ids(a) + Ids(b)
  {
  }

  lemma {:induction false} ReadersAreCurrent(roles: seq<Role>, path: string)
    ensures Ids(Readers(roles, path)) == CurrentReaders(roles, path)
  {
    if roles != [] {
      var last := |roles| - 1;
      assert roles == roles[..last] + [roles[last]];
      ReadersAreCurrent(roles[..last], path);
      var own := if Matches(roles[last], path, ["Read"]) then DarMembers(roles[last]) else [];
      IdsConcat(Readers(roles[..last], path), own);
      assert CurrentReaders(roles, path) == CurrentReaders(roles[..last], path) + Ids(own);
    }
  }

  lemma MembersForIds(readers: seq<Member>, tenant: string, caller: Option<Member>)
    ensures var ids := Ids(MembersFor(readers, tenant, caller));
            if Ids(readers) != {} then ids == Ids(readers)
            else ids == if caller.Some? then Ids([caller.value]) else {}
  {
    var d := AddMembers(Empty(), readers, tenant);
    AddMembersKeys(Empty(), readers, tenant);
    AddMembersStored(Empty(), readers, tenant);
    AddMembersValid(Empty(), readers, tenant);
    IdsOfValues(d, tenant);
    if d.keys == [] {
      assert d.at.Keys == {};
    } else {
      assert d.keys[0] in d.keys;
    }
  }

  /** The policy applies to exactly the current readers of the path; to the caller alone when there are none. */
  lemma PolicyMembersAreReaders(roles: seq<Role>, path: string, tenant: string, caller: Option<Member>)
    ensures var ids := Ids(PolicyMembers(roles, path, tenant, caller));
            if CurrentReaders(roles, path) != {} then ids == CurrentReaders(roles, path)
            else ids == if caller.Some? then Ids([caller.value]) else {}
  {
    ReadersAreCurrent(roles, path);
    MembersForIds(Readers(roles, path), tenant, caller);
  }

  lemma PolicyRoleValues(p: Policy, members: seq<Member>)
    ensures WriterValues(PolicyRole(p, members), "Path") == {p.path}
    ensures WriterValues(PolicyRole(p, members), "Action") == {"Read"}
  {
    var role := PolicyRole(p, members);
    var rule := role.rules[0];
    var path, action := rule.permission[0], rule.permission[1];
    assert Lower("Path")[0] == 'p' && Lower("Action")[0] == 'a';
    assert rule in role.rules && path in rule.permission + rule.attributes
           && action in rule.permission + rule.attributes;
    assert p.path in path.includedIn + path.values + path.value;
    assert "Read" in action.includedIn + action.values + action.value;
  }

  /** A policy role is read on its own path only. */
  lemma PolicyRoleMatches(p: Policy, members: seq<Member>, path: string)
    ensures Matches(PolicyRole(p, members), path, ["Read"]) <==> path == p.path
  {
    PolicyRoleValues(p, members);
  }

  /** The other roles stay, in order; the replaced role matched the path and loses no member. */
  lemma UpsertIsLocal(roles: seq<Role>, p: Policy, tenant: string, caller: Option<Member>)
    requires UpsertPolicy(roles, p, tenant, caller).Upserted?
    ensures var after, i := UpsertPolicy(roles, p, tenant, caller).roles, FirstNamed(roles, p.name);
            && i < |after| && after[i].name == p.name
            && roles[..i] == after[..i]
            && (i < |roles| ==> |after| == |roles| && after[i + 1..] == roles[i + 1..]
                                && Ids(DarMembers(roles[i])) <= Ids(DarMembers(after[i])))
            && (i == |roles| ==> |after| == |roles| + 1)
            && DarMembers(after[i]) == PolicyMembers(roles, p.path, tenant, caller)
  {
    var i := FirstNamed(roles, p.name);
    var members := PolicyMembers(roles, p.path, tenant, caller);
    PolicyMembersAreReaders(roles, p.path, tenant, caller);
    if i < |roles| {
      assert roles[i] in roles;
      assert Ids(DarMembers(roles[i])) <= CurrentReaders(roles, p.path);
    }
  }

  // ---------------------------------------------------------------- repeating an upsert

  lemma {:induction false} ReadersConcat(a: seq<Role>, b: seq<Role>, path: string)
    ensures Readers(a + b, path) == Readers(a, path) + Readers(b, path)
  {
    if b == [] {
      assert a + b == a;
    } else {
      var last := |b| - 1;
      ReadersConcat(a, b[..last], path);
      assert (a + b)[..|a + b| - 1] == a + b[..last];
    }
  }

  lemma ReadersOfOne(p: Policy, members: seq<Member>)
    requires members != []
    ensures Readers([PolicyRole(p, members)], p.path) == members
  {
    PolicyRoleMatches(p, members, p.path);
    assert [PolicyRole(p, members)][..0] == [];
    assert Readers([], p.path) == [];
  }

  /** The dictionary of the readers, when the policy role with all of them stands in place of some of them. */
  lemma ReaderDictStable(before: seq<Member>, old_: seq<Member>, after: seq<Member>, tenant: string)
    ensures var d := AddMembers(Empty(), before + old_ + after, tenant);
            AddMembers(Empty(), before + Values(d) + after, tenant) == d
  {
    var d := AddMembers(Empty(), before + old_ + after, tenant);
    var start := AddMembers(Empty(), before, tenant);
    AddMembersConcat(Empty(), before + old_, after, tenant);
    AddMembersConcat(Empty(), before, old_, tenant);
    var middle := AddMembers(start, old_, tenant);
    assert d == AddMembers(middle, after, tenant);
    AddMembersKeys(start, old_, tenant);
    AddMembersKeys(middle, after, tenant);
    AddMembersValid(Empty(), before, tenant);
    AddMembersValid(Empty(), before + old_ + after, tenant);
    AddMembersStored(Empty(), before + old_ + after, tenant);
    AddMembersConcat(Empty(), before + Values(d), after, tenant);
    AddMembersConcat(Empty(), before, Values(d), tenant);
    AddValues(start, d, tenant);
    AddTwice(middle, after, tenant);
  }

  lemma {:induction false} AddNobody(d: Dict<string, Member>, ms: seq<Member>, tenant: string)
    requires Ids(ms) == {}
    ensures AddMembers(d, ms, tenant) == d
  {
    if ms != [] {
      var last := |ms| - 1;
      assert ms == ms[..last] + [ms[last]];
      IdsOfMore(ms[..last], ms[last]);
      AddNobody(d, ms[..last], tenant);
    }
  }

  /** The same when nobody could read the path and the role holds the caller. */
  lemma CallerStable(before: seq<Member>, old_: seq<Member>, after: seq<Member>, caller: Member, tenant: string)
    requires Ids(before + old_ + after) == {}
    requires caller.objectId != "" && Enriched(caller, tenant) == caller
    ensures Values(AddMembers(Empty(), before + [caller] + after, tenant)) == [caller]
  {
    IdsConcat(before + old_, after);
    IdsConcat(before, old_);
    AddMembersConcat(Empty(), before + [caller], after, tenant);
    AddMembersConcat(Empty(), before, [caller], tenant);
    AddNobody(Empty(), before, tenant);
    assert [caller][..0] == [];
    var d := AddMembers(Empty(), [caller], tenant);
    assert d == Put(Empty(), Lower(caller.objectId), caller);
    AddNobody(d, after, tenant);
  }

  lemma MembersForStable(rb: seq<Member>, rr: seq<Member>, ra: seq<Member>, tenant: string, caller: Option<Member>)
    requires caller.Some? ==> Enriched(caller.value, tenant) == caller.value
    requires MembersFor(rb + rr + ra, tenant, caller) != []
    ensures MembersFor(rb + MembersFor(rb + rr + ra, tenant, caller) + ra, tenant, caller) ==
              MembersFor(rb + rr + ra, tenant, caller)
  {
    var d := AddMembers(Empty(), rb + rr + ra, tenant);
    if d.keys != [] {
      ReaderDictStable(rb, rr, ra, tenant);
    } else {
      AddMembersKeys(Empty(), rb + rr + ra, tenant);
      AddMembersValid(Empty(), rb + rr + ra, tenant);
      assert d.at.Keys == {};
      CallerStable(rb, rr, ra, caller.value, tenant);
    }
  }

  /** The members a second upsert computes are the members of the first, in the same order. */
  lemma MembersStable(before: seq<Role>, replaced: seq<Role>, after: seq<Role>, p: Policy, tenant: string,
                      caller: Option<Member>)
    requires caller.Some? ==> Enriched(caller.value, tenant) == caller.value
    requires PolicyMembers(before + replaced + after, p.path, tenant, caller) != []
    ensures var members := PolicyMembers(before + replaced + after, p.path, tenant, caller);
            PolicyMembers(before + [PolicyRole(p, members)] + after, p.path, tenant, caller) == members
  {
    var members := PolicyMembers(before + replaced + after, p.path, tenant, caller);
    ReadersOfThree(before, replaced, after, p.path);
    ReadersOfThree(before, [PolicyRole(p, members)], after, p.path);
    ReadersOfOne(p, members);
    MembersForStable(Readers(before, p.path), Readers(replaced, p.path), Readers(after, p.path), tenant, caller);
  }

  lemma ReadersOfThree(a: seq<Role>, b: seq<Role>, c: seq<Role>, path: string)
    ensures Readers(a + b + c, path) == Readers(a, path) + Readers(b, path) + Readers(c, path)
  {
    ReadersConcat(a + b, c, path);
    ReadersConcat(a, b, path);
  }

  /** The two lists differ in one place, which may be new. */
  predicate DifferAt(roles: seq<Role>, after: seq<Role>, i: nat) {
    && i < |after| && |after| == (if i == |roles| then i + 1 else |roles|)
    && forall j :: 0 <= j < |roles| && j != i ==> after[j] == roles[j]
  }

  lemma UpsertDiffers(roles: seq<Role>, p: Policy, tenant: string, caller: Option<Member>)
    requires UpsertPolicy(roles, p, tenant, caller).Upserted?
    ensures var after, i := UpsertPolicy(roles, p, tenant, caller).roles, FirstNamed(roles, p.name);
            && DifferAt(roles, after, i)
            && after[i] == PolicyRole(p, PolicyMembers(roles, p.path, tenant, caller))
  {
  }

  lemma SplitAt(roles: seq<Role>, changed: seq<Role>, i: nat, before: seq<Role>, after: seq<Role>)
    requires DifferAt(roles, changed, i) && i <= |roles|
    requires before == roles[..i] && after == if i == |roles| then [] else roles[i + 1..]
    ensures roles == before + (if i == |roles| then [] else [roles[i]]) + after
    ensures changed == before + [changed[i]] + after
  {
  }

  /** An upsert as the replacement of a piece of the role list. */
  lemma UpsertSplits(roles: seq<Role>, p: Policy, tenant: string, caller: Option<Member>)
    returns (before: seq<Role>, replaced: seq<Role>, after: seq<Role>)
    requires UpsertPolicy(roles, p, tenant, caller).Upserted?
    ensures roles == before + replaced + after && |before| == FirstNamed(roles, p.name)
    ensures UpsertPolicy(roles, p, tenant, caller).roles ==
              before + [PolicyRole(p, PolicyMembers(roles, p.path, tenant, caller))] + after
  {
    var i := FirstNamed(roles, p.name);
    UpsertDiffers(roles, p, tenant, caller);
    before := roles[..i];
    if i == |roles| {
      replaced, after := [], [];
    } else {
      replaced, after := [roles[i]], roles[i + 1..];
    }
    SplitAt(roles, UpsertPolicy(roles, p, tenant, caller).roles, i, before, after);
  }

  /** An upsert whose role stands there already, with the members it computes. */
  lemma UpsertOfOwn(before: seq<Role>, after: seq<Role>, p: Policy, members: seq<Member>, tenant: string,
                    caller: Option<Member>)
    requires forall k :: 0 <= k < |before| ==> Lower(before[k].name) != Lower(p.name)
    requires var roles := before + [PolicyRole(p, members)] + after;
             PolicyMembers(roles, p.path, tenant, caller) == members != []
    ensures var roles := before + [PolicyRole(p, members)] + after;
            UpsertPolicy(roles, p, tenant, caller) == Upserted(roles)
  {
    var roles, i := before + [PolicyRole(p, members)] + after, |before|;
    assert roles[i] == PolicyRole(p, members);
    FirstNamedUnique(roles, p.name, i);
    PolicyRoleMatches(p, members, p.path);
    assert roles[i := PolicyRole(p, members)] == roles;
  }

  /** Repeating an upsert leaves the role list exactly as it is, down to the order of the members. */
  lemma UpsertTwice(roles: seq<Role>, p: Policy, tenant: string, caller: Option<Member>)
    requires caller.Some? ==> Enriched(caller.value, tenant) == caller.value
    requires UpsertPolicy(roles, p, tenant, caller).Upserted?
    ensures var after := UpsertPolicy(roles, p, tenant, caller).roles;
            UpsertPolicy(after, p, tenant, caller) == Upserted(after)
  {
    var members := PolicyMembers(roles, p.path, tenant, caller);
    var before, replaced, rest := UpsertSplits(roles, p, tenant, caller);
    MembersStable(before, replaced, rest, p, tenant, caller);
    forall k | 0 <= k < |before|
      ensures Lower(before[k].name) != Lower(p.name)
    {
      assert before[k] == roles[k];
    }
    UpsertOfOwn(before, rest, p, members, tenant, caller);
  }

  // ---------------------------------------------------------------- runs

  /** A run of upserts; one that is refused changes nothing. */
  function UpsertAll(roles: seq<Role>, policies: seq<Policy>, tenant: string, caller: Option<Member>): seq<Role> {
    if policies == [] then roles
    else
      var before := UpsertAll(roles, policies[..|policies| - 1], tenant, caller);
      var step := UpsertPolicy(before, policies[|policies| - 1], tenant, caller);
      if step.Upserted? then step.roles else before
  }

  /** Policy names stand for one path each, and no role that bears one reads another path. */
  ghost predicate PolicyRolesAreOwn(roles: seq<Role>, policies: seq<Policy>) {
    && (forall role, p, path | role in roles && p in policies ::
          Lower(role.name) == Lower(p.name) && Matches(role, path, ["Read"]) ==> path == p.path)
    && (forall p, q | p in policies && q in policies :: Lower(p.name) == Lower(q.name) ==> p.path == q.path)
  }

  lemma ReadersInclude(roles: seq<Role>, i: nat, path: string, id: string)
    requires i < |roles| && Matches(roles[i], path, ["Read"]) && id in Ids(DarMembers(roles[i]))
    ensures id in CurrentReaders(roles, path)
  {
    assert roles[i] in roles;
  }

  predicate ReadsThrough(role: Role, path: string, id: string) {
    Matches(role, path, ["Read"]) && id in Ids(DarMembers(role))
  }

  /** The id reads the path through role i and through no other. */
  predicate OnlyThrough(roles: seq<Role>, i: nat, path: string, id: string) {
    i < |roles| && ReadsThrough(roles[i], path, id)
    && forall k :: 0 <= k < |roles| && k != i ==> !ReadsThrough(roles[k], path, id)
  }

  ghost predicate NobodyOnlyThrough(roles: seq<Role>, i: nat, path: string) {
    forall id :: !OnlyThrough(roles, i, path, id)
  }

  ghost predicate SomebodyReads(roles: seq<Role>, path: string, id: string) {
    exists k :: 0 <= k < |roles| && ReadsThrough(roles[k], path, id)
  }

  lemma ReaderSomewhere(roles: seq<Role>, path: string, id: string)
    ensures id in CurrentReaders(roles, path) <==> SomebodyReads(roles, path, id)
  {
    if id in CurrentReaders(roles, path) {
      var role :| role in roles && Matches(role, path, ["Read"]) && id in Ids(DarMembers(role));
      var k :| 0 <= k < |roles| && roles[k] == role;
      assert ReadsThrough(roles[k], path, id);
    }
    if k :| 0 <= k < |roles| && ReadsThrough(roles[k], path, id) {
      ReadersInclude(roles, k, path, id);
    }
  }

  lemma ReadersDiffer(roles: seq<Role>, after: seq<Role>, i: nat, path: string, id: string)
    requires DifferAt(roles, after, i) && SomebodyReads(roles, path, id) && !ReadsThrough(after[i], path, id)
    ensures SomebodyReads(after, path, id) <==> !OnlyThrough(roles, i, path, id)
  {
    var k :| 0 <= k < |roles| && ReadsThrough(roles[k], path, id);
    if k != i {
      assert ReadsThrough(after[k], path, id);
    }
    if j :| 0 <= j < |after| && ReadsThrough(after[j], path, id) {
      assert j != i && ReadsThrough(roles[j], path, id);
    }
  }

  /**
   Who loses a path in an upsert: those who read it only through the role that is replaced, unless it is the policy's
   own path.
   */
  lemma UpsertLoses(roles: seq<Role>, p: Policy, tenant: string, caller: Option<Member>, path: string, id: string)
    requires UpsertPolicy(roles, p, tenant, caller).Upserted? && id in CurrentReaders(roles, path)
    ensures id in CurrentReaders(UpsertPolicy(roles, p, tenant, caller).roles, path) <==>
              path == p.path || !OnlyThrough(roles, FirstNamed(roles, p.name), path, id)
  {
    var after, i := UpsertPolicy(roles, p, tenant, caller).roles, FirstNamed(roles, p.name);
    UpsertDiffers(roles, p, tenant, caller);
    PolicyRoleMatches(p, PolicyMembers(roles, p.path, tenant, caller), path);
    ReaderSomewhere(roles, path, id);
    ReaderSomewhere(after, path, id);
    if path == p.path {
      UpsertKeepsOwnPath(roles, p, tenant, caller, id);
    } else {
      ReadersDiffer(roles, after, i, path, id);
    }
  }

  lemma UpsertKeepsOwnPath(roles: seq<Role>, p: Policy, tenant: string, caller: Option<Member>, id: string)
    requires UpsertPolicy(roles, p, tenant, caller).Upserted? && id in CurrentReaders(roles, p.path)
    ensures SomebodyReads(UpsertPolicy(roles, p, tenant, caller).roles, p.path, id)
  {
    var after, i := UpsertPolicy(roles, p, tenant, caller).roles, FirstNamed(roles, p.name);
    var members := PolicyMembers(roles, p.path, tenant, caller);
    UpsertDiffers(roles, p, tenant, caller);
    PolicyRoleMatches(p, members, p.path);
    PolicyMembersAreReaders(roles, p.path, tenant, caller);
    assert ReadsThrough(after[i], p.path, id);
  }

  /**
   One upsert takes nobody's access to a path away, exactly: if and only if it is the policy's own path or nobody reads
   it only through the role that bears the policy's name.
   */
  lemma UpsertKeepsReadersExactly(roles: seq<Role>, p: Policy, tenant: string, caller: Option<Member>, path: string)
    requires UpsertPolicy(roles, p, tenant, caller).Upserted?
    ensures CurrentReaders(roles, path) <= CurrentReaders(UpsertPolicy(roles, p, tenant, caller).roles, path) <==>
              path == p.path || NobodyOnlyThrough(roles, FirstNamed(roles, p.name), path)
  {
    var after, i := UpsertPolicy(roles, p, tenant, caller).roles, FirstNamed(roles, p.name);
    forall id | id in CurrentReaders(roles, path)
      ensures id in CurrentReaders(after, path) <==> path == p.path || !OnlyThrough(roles, i, path, id)
    {
      UpsertLoses(roles, p, tenant, caller, path, id);
    }
    forall id | OnlyThrough(roles, i, path, id)
      ensures id in CurrentReaders(roles, path)
    {
      ReaderSomewhere(roles, path, id);
    }
    if path == p.path || NobodyOnlyThrough(roles, i, path) {
      forall id | id in CurrentReaders(roles, path)
        ensures id in CurrentReaders(after, path)
      {
        assert path == p.path || !OnlyThrough(roles, i, path, id);
      }
    } else {
      var id :| OnlyThrough(roles, i, path, id);
      var before, later := CurrentReaders(roles, path), CurrentReaders(after, path);
      assert id in before && id !in later;
      assert !(before <= later);
    }
  }

  /** When names stand for paths, one upsert takes nobody's access away. */
  lemma UpsertKeepsReaders(roles: seq<Role>, p: Policy, policies: seq<Policy>, tenant: string, caller: Option<Member>,
                           path: string)
    requires p in policies && PolicyRolesAreOwn(roles, policies)
    requires UpsertPolicy(roles, p, tenant, caller).Upserted?
    ensures CurrentReaders(roles, path) <= CurrentReaders(UpsertPolicy(roles, p, tenant, caller).roles, path)
  {
    var i := FirstNamed(roles, p.name);
    forall id | OnlyThrough(roles, i, path, id)
      ensures path == p.path
    {
      assert roles[i] in roles && Lower(roles[i].name) == Lower(p.name);
    }
    UpsertKeepsReadersExactly(roles, p, tenant, caller, path);
  }

  lemma UpsertKeepsNames(roles: seq<Role>, p: Policy, policies: seq<Policy>, tenant: string, caller: Option<Member>)
    requires p in policies && PolicyRolesAreOwn(roles, policies)
    requires UpsertPolicy(roles, p, tenant, caller).Upserted?
    ensures PolicyRolesAreOwn(UpsertPolicy(roles, p, tenant, caller).roles, policies)
  {
    var after := UpsertPolicy(roles, p, tenant, caller).roles;
    var own := PolicyRole(p, PolicyMembers(roles, p.path, tenant, caller));
    assert forall role :: role in after ==> role == own || role in roles;
    forall role, q, other | role in after && q in policies && Lower(role.name) == Lower(q.name)
           && Matches(role, other, ["Read"])
      ensures other == q.path
    {
      if role == own {
        PolicyRoleMatches(p, own.microsoftEntraMembers, other);
      }
    }
  }

  /** Over every run, no path loses a reader. */
  lemma {:induction false} RunsKeepReaders(roles: seq<Role>, policies: seq<Policy>, all: seq<Policy>, tenant: string,
                                          caller: Option<Member>, path: string)
    requires PolicyRolesAreOwn(roles, all) && forall p :: p in policies ==> p in all
    ensures PolicyRolesAreOwn(UpsertAll(roles, policies, tenant, caller), all)
    ensures CurrentReaders(roles, path) <= CurrentReaders(UpsertAll(roles, policies, tenant, caller), path)
  {
    if policies != [] {
      var last := |policies| - 1;
      RunsKeepReaders(roles, policies[..last], all, tenant, caller, path);
      var before, p := UpsertAll(roles, policies[..last], tenant, caller), policies[last];
      if UpsertPolicy(before, p, tenant, caller).Upserted? {
        UpsertKeepsReaders(before, p, all, tenant, caller, path);
        UpsertKeepsNames(before, p, all, tenant, caller);
      }
    }
  }

  lemma UpsertLeaves(roles: seq<Role>, p: Policy, tenant: string, caller: Option<Member>, k: nat)
    requires UpsertPolicy(roles, p, tenant, caller).Upserted?
    requires k < |roles| && Lower(p.name) != Lower(roles[k].name)
    ensures var after := UpsertPolicy(roles, p, tenant, caller).roles; k < |after| && after[k] == roles[k]
  {
    UpsertDiffers(roles, p, tenant, caller);
  }

  /** Over every run, a role whose name no policy uses stays as it is, in its place. */
  lemma {:induction false} RunsLeaveOthersAlone(roles: seq<Role>, policies: seq<Policy>, tenant: string,
                                                caller: Option<Member>, k: nat)
    requires k < |roles| && forall p :: p in policies ==> Lower(p.name) != Lower(roles[k].name)
    ensures var after := UpsertAll(roles, policies, tenant, caller);
            k < |after| && after[k] == roles[k]
  {
    if policies != [] {
      var last := |policies| - 1;
      RunsLeaveOthersAlone(roles, policies[..last], tenant, caller, k);
      var before, p := UpsertAll(roles, policies[..last], tenant, caller), policies[last];
      if UpsertPolicy(before, p, tenant, caller).Upserted? {
        assert p in policies;
        UpsertLeaves(before, p, tenant, caller, k);
      }
    }
  }
}
