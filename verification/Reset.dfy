/**
 The backup, cleanup and restore cycle of scripts/backup_permissions.py and
 scripts/permission_reset.py. Reads may fail one by one, a failing write ends a cleanup at any point,
 a failing role write ends a restore, and a failing grant of a restore is passed over.
 */
module Reset {
  import opened Optional
  import opened Text

  type ItemId = string

  /** A data access role; id and etag are managed by the server. */
  datatype Role = Role(name: string, body: string, id: Option<string>, etag: Option<string>)

  datatype Securable = Securable(kind: string, fullName: string)

  datatype Assignment = Assignment(principal: string, privileges: set<string>)

  /** One entry of a grant update. */
  datatype Change = Change(principal: string, add: set<string>, remove: set<string>)

  /** Everything the scripts can read or write. */
  datatype Estate = Estate(roles: map<ItemId, seq<Role>>, grants: map<Securable, seq<Assignment>>,
                           workspaceRoles: seq<string>)

  /** What the scripts walk over: the mirrored items of the pairing and its catalog, schemas and tables. */
  datatype Inventory = Inventory(items: seq<ItemId>, securables: seq<Securable>)

  datatype Backup = Backup(roles: seq<(ItemId, seq<Role>)>, grants: seq<(Securable, seq<Assignment>)>)

  datatype Side = Both | FabricOnly | DbxOnly

  function RolesAt(e: Estate, item: ItemId): seq<Role> {
    if item in e.roles then e.roles[item] else []
  }

  function GrantsAt(e: Estate, s: Securable): seq<Assignment> {
    if s in e.grants then e.grants[s] else []
  }

  /** The privileges a principal holds through a list of assignments. */
  function Held(assignments: seq<Assignment>, principal: string): set<string> {
    if assignments == [] then {}
    else
      var last := assignments[|assignments| - 1];
      Held(assignments[..|assignments| - 1], principal) + if last.principal == principal then last.privileges else {}
  }

  function HeldAt(e: Estate, s: Securable, principal: string): set<string> {
    Held(GrantsAt(e, s), principal)
  }

  const SYSTEM_GENERATED_PREFIXES: seq<string> := ["_workspace_users_", "_workspace_admins_"]

  /** Principals Unity Catalog refuses to grant to. */
  predicate IsSystemGenerated(principal: string) {
    SYSTEM_GENERATED_PREFIXES[0] <= Lower(principal) || SYSTEM_GENERATED_PREFIXES[1] <= Lower(principal)
  }

  predicate IsBuiltinPrincipal(principal: string) {
    Lower(principal) == "account users"
  }

  /** Whose privileges a cleanup takes away. */
  predicate Removable(principal: string, includeSystem: bool) {
    !IsSystemGenerated(principal) && (IsBuiltinPrincipal(principal) ==> includeSystem)
  }

  // ---------------------------------------------------------------- the grant update of Unity Catalog

  /** One change: an existing entry of the principal is updated, otherwise added privileges get a new entry. */
  function Changed(assignments: seq<Assignment>, c: Change): seq<Assignment> {
    if assignments == [] then (if c.add == {} then [] else [Assignment(c.principal, c.add)])
    else if assignments[0].principal == c.principal then
      [Assignment(c.principal, assignments[0].privileges + c.add - c.remove)] + Taken(assignments[1..], c)
    else [assignments[0]] + Changed(assignments[1..], c)
  }

  /** A removal reaches every entry of the principal. */
  function Taken(assignments: seq<Assignment>, c: Change): seq<Assignment> {
    if assignments == [] then []
    else
      var a := assignments[0];
      [if a.principal == c.principal then a.(privileges := a.privileges - c.remove) else a] + Taken(assignments[1..], c)
  }

  function ChangedAll(assignments: seq<Assignment>, changes: seq<Change>): seq<Assignment> {
    if changes == [] then assignments
    else Changed(ChangedAll(assignments, changes[..|changes| - 1]), changes[|changes| - 1])
  }

  lemma {:induction false} HeldFront(a: Assignment, rest: seq<Assignment>, principal: string)
    ensures Held([a] + rest, principal) == (if a.principal == principal then a.privileges else {})
              + Held(rest, principal)
  {
    if rest == [] {
      assert [a] + rest == [a];
      assert [a][..0] == [];
      assert Held([], principal) == {};
    } else {
      var front := rest[..|rest| - 1];
      HeldFront(a, front, principal);
      assert ([a] + rest)[..|rest|] == [a] + front;
    }
  }

  lemma {:induction false} HeldTaken(assignments: seq<Assignment>, c: Change, principal: string)
    ensures Held(Taken(assignments, c), principal) ==
              if principal == c.principal then Held(assignments, principal) - c.remove else Held(assignments, principal)
  {
    if assignments != [] {
      var a, rest := assignments[0], assignments[1..];
      assert assignments == [a] + rest;
      HeldTaken(rest, c, principal);
      HeldFront(a, rest, principal);
      HeldFront(if a.principal == c.principal then a.(privileges := a.privileges - c.remove)
                else a, Taken(rest, c), principal);
    }
  }

  /** An update that only adds, or only removes, changes what its principal holds by just that, and nobody else. */
  lemma {:induction false} HeldChanged(assignments: seq<Assignment>, c: Change, principal: string)
    requires c.add == {} || c.remove == {}
    ensures Held(Changed(assignments, c), principal) ==
              if principal == c.principal then Held(assignments, principal) + c.add - c.remove
              else Held(assignments, principal)
  {
    if assignments == [] {
      if c.add != {} {
        HeldFront(Assignment(c.principal, c.add), [], principal);
        assert [Assignment(c.principal, c.add)] + [] == [Assignment(c.principal, c.add)];
      }
    } else {
      var a, rest := assignments[0], assignments[1..];
      assert assignments == [a] + rest;
      HeldFront(a, rest, principal);
      if a.principal == c.principal {
        HeldTaken(rest, c, principal);
        HeldFront(Assignment(c.principal, a.privileges + c.add - c.remove), Taken(rest, c), principal);
      } else {
        HeldChanged(rest, c, principal);
        HeldFront(a, Changed(rest, c), principal);
      }
    }
  }

  /** What a list of changes of one direction does to one principal. */
  function Mentioned(changes: seq<Change>, principal: string): set<string> {
    if changes == [] then {}
    else
      var c := changes[|changes| - 1];
      Mentioned(changes[..|changes| - 1], principal) + if c.principal == principal then c.add + c.remove else {}
  }

  lemma {:induction false} HeldChangedAll(assignments: seq<Assignment>, changes: seq<Change>, adds: bool,
                                          principal: string)
    requires forall c :: c in changes ==> if adds then c.remove == {} else c.add == {}
    ensures Held(ChangedAll(assignments, changes), principal) ==
              if adds then Held(assignments, principal) + Mentioned(changes, principal)
              else Held(assignments, principal) - Mentioned(changes, principal)
  {
    if changes != [] {
      var last := |changes| - 1;
      HeldChangedAll(assignments, changes[..last], adds, principal);
      HeldChanged(ChangedAll(assignments, changes[..last]), changes[last], principal);
    }
  }

  // ---------------------------------------------------------------- the three scripts

  /**
   A backup holds what could be read: the roles of every readable item, the assignments of every readable securable.
   */
  ghost predicate BackedUp(b: Backup, e: Estate, inv: Inventory, unreadableItems: set<ItemId>,
                           unreadable: set<Securable>) {
    && |b.roles| == |inv.items|
    && (forall i :: 0 <= i < |inv.items| ==>
          b.roles[i] == (inv.items[i], if inv.items[i] in unreadableItems then [] else RolesAt(e, inv.items[i])))
    && (forall entry :: entry in b.grants ==>
          entry.0 in inv.securables && entry.0 !in unreadable && entry.1 == GrantsAt(e, entry.0))
    && (forall s :: s in inv.securables && s !in unreadable && GrantsAt(e, s) != [] ==> (s, GrantsAt(e, s)) in b.grants)
  }

  /** Roles without the fields the server manages. */
  function Stripped(r: Role): Role { r.(id := None, etag := None) }

  function StrippedAll(rs: seq<Role>): (out: seq<Role>)
    ensures |out| == |rs|
    ensures forall i :: 0 <= i < |rs| ==> out[i] == Stripped(rs[i])
  {
    seq(|rs|, i requires 0 <= i < |rs| => Stripped(rs[i]))
  }

  class Console {
    var estate: Estate

    constructor (estate: Estate)
      ensures this.estate == estate
    {
      this.estate := estate;
    }

    /**
     capture_fabric and capture_databricks: a securable without assignments, or unreadable, leaves no entry to restore.
     */
    method Capture(inv: Inventory, unreadableItems: set<ItemId>, unreadable: set<Securable>) returns (b: Backup)
      ensures BackedUp(b, estate, inv, unreadableItems, unreadable)
    {
      var roles: seq<(ItemId, seq<Role>)> := [];
      var i := 0;
      while i < |inv.items|
        invariant 0 <= i <= |inv.items| && |roles| == i
        invariant forall k :: 0 <= k < i ==>
                    roles[k] == (inv.items[k], if inv.items[k] in unreadableItems then []
                                 else RolesAt(estate, inv.items[k]))
      {
        var item := inv.items[i];
        roles := roles + [(item, if item in unreadableItems then [] else RolesAt(estate, item))];
        i := i + 1;
      }
      var grants: seq<(Securable, seq<Assignment>)> := [];
      i := 0;
      while i < |inv.securables|
        invariant 0 <= i <= |inv.securables|
        invariant forall entry :: entry in grants ==>
                    entry.0 in inv.securables && entry.0 !in unreadable && entry.1 == GrantsAt(estate, entry.0)
        invariant forall k :: 0 <= k < i && inv.securables[k] !in unreadable &&
                              GrantsAt(estate, inv.securables[k]) != [] ==>
                                (inv.securables[k], GrantsAt(estate, inv.securables[k])) in grants
      {
        var s := inv.securables[i];
        if s !in unreadable && GrantsAt(estate, s) != [] {
          grants := grants + [(s, GrantsAt(estate, s))];
        }
        i := i + 1;
      }
      b := Backup(roles, grants);
    }

    method PutRoles(item: ItemId, roles: seq<Role>)
      modifies this
      ensures estate == old(estate).(roles := old(estate).roles[item := roles])
    {
      estate := estate.(roles := estate.roles[item := roles]);
    }

    method UpdateGrants(s: Securable, changes: seq<Change>)
      modifies this
      ensures estate == old(estate).(grants := old(estate).grants[s := ChangedAll(GrantsAt(old(estate), s), changes)])
    {
      estate := estate.(grants := estate.grants[s := ChangedAll(GrantsAt(estate, s), changes)]);
    }

    /** The removals a cleanup asks for on one securable. */
    method Removals(assignments: seq<Assignment>, includeSystem: bool) returns (changes: seq<Change>)
      ensures forall c :: c in changes ==> c.add == {}
      ensures forall p :: Mentioned(changes, p) == if Removable(p, includeSystem) then Held(assignments, p) else {}
    {
      changes := [];
      var i := 0;
      while i < |assignments|
        invariant 0 <= i <= |assignments|
        invariant forall c :: c in changes ==> c.add == {}
        invariant forall p :: Mentioned(changes, p) == if Removable(p, includeSystem) then Held(assignments[..i], p)
                  else {}
      {
        var a := assignments[i];
        assert assignments[..i + 1][..i] == assignments[..i];
        i := i + 1;
        if a.privileges == {} || IsSystemGenerated(a.principal) || (IsBuiltinPrincipal(a.principal) && !includeSystem) {
          continue;
        }
        ghost var before := changes;
        changes := changes + [Change(a.principal, {}, a.privileges)];
        assert changes[..|before|] == before;
      }
      assert assignments[..i] == assignments;
    }

    /** The additions a restore asks for on one securable. */
    method Additions(assignments: seq<Assignment>) returns (changes: seq<Change>)
      ensures forall c :: c in changes ==> c.remove == {}
      ensures forall p :: Mentioned(changes, p) == if IsSystemGenerated(p) then {} else Held(assignments, p)
    {
      changes := [];
      var i := 0;
      while i < |assignments|
        invariant 0 <= i <= |assignments|
        invariant forall c :: c in changes ==> c.remove == {}
        invariant forall p :: Mentioned(changes, p) == if IsSystemGenerated(p) then {} else Held(assignments[..i], p)
      {
        var a := assignments[i];
        assert assignments[..i + 1][..i] == assignments[..i];
        i := i + 1;
        if a.privileges == {} || IsSystemGenerated(a.principal) {
          continue;
        }
        ghost var before := changes;
        changes := changes + [Change(a.principal, a.privileges, {})];
        assert changes[..|before|] == before;
      }
      assert assignments[..i] == assignments;
    }

    /** The Fabric half of a cleanup; it stops at the first write that fails. */
    method CleanItems(items: seq<ItemId>, apply: bool, unreadable: set<ItemId>, budget: nat, ghost includeSystem: bool)
      returns (finished: bool, left: nat, ghost done: set<ItemId>)
      modifies this
      ensures !apply ==> finished && estate == old(estate)
      ensures done <= Readable(items, unreadable)
      ensures apply && finished ==> done == Readable(items, unreadable)
      ensures Cleaned(old(estate), estate, done, {}, includeSystem)
    {
      left, done := budget, {};
      var i := 0;
      while i < |items|
        invariant 0 <= i <= |items|
        invariant !apply ==> estate == old(estate)
        invariant done <= Readable(items[..i], unreadable)
        invariant apply ==> done == Readable(items[..i], unreadable)
        invariant Cleaned(old(estate), estate, done, {}, includeSystem)
      {
        var item := items[i];
        ReadableMore(items, i, unreadable);
        if item !in unreadable && apply {
          var cleared;
          cleared, left := ClearItem(item, left, old(estate), done, includeSystem);
          if !cleared {
            return false, left, done;
          }
          done := done + {item};
        }
        i := i + 1;
      }
      assert items[..i] == items;
      finished := true;
    }

    /** Empties the role list of one item, unless it is empty already. */
    method ClearItem(item: ItemId, budget: nat, ghost before: Estate, ghost done: set<ItemId>,
                     ghost includeSystem: bool)
      returns (ok: bool, left: nat)
      requires Cleaned(before, estate, done, {}, includeSystem)
      modifies this
      ensures !ok ==> estate == old(estate)
      ensures ok ==> Cleaned(before, estate, done + {item}, {}, includeSystem)
    {
      if RolesAt(estate, item) == [] {
        return true, budget;
      }
      if budget == 0 {
        return false, 0;
      }
      PutRoles(item, []);
      return true, budget - 1;
    }

    /** The Unity Catalog half of a cleanup; it stops at the first write that fails. */
    method CleanSecurables(securables: seq<Securable>, apply: bool, includeSystem: bool, unreadable: set<Securable>,
                           budget: nat)
      returns (finished: bool, ghost done: set<Securable>)
      modifies this
      ensures !apply ==> finished && estate == old(estate)
      ensures done <= Readable(securables, unreadable)
      ensures apply && finished ==> done == Readable(securables, unreadable)
      ensures Cleaned(old(estate), estate, {}, done, includeSystem)
    {
      var left := budget;
      done := {};
      var i := 0;
      while i < |securables|
        invariant 0 <= i <= |securables|
        invariant !apply ==> estate == old(estate)
        invariant done <= Readable(securables[..i], unreadable)
        invariant apply ==> done == Readable(securables[..i], unreadable)
        invariant Cleaned(old(estate), estate, {}, done, includeSystem)
      {
        var s := securables[i];
        ReadableMore(securables, i, unreadable);
        if s !in unreadable {
          var changes := Removals(GrantsAt(estate, s), includeSystem);
          if apply {
            CleanOne(old(estate), estate, {}, done, includeSystem, s, changes);
            if changes != [] {
              if left == 0 {
                return false, done;
              }
              left := left - 1;
              UpdateGrants(s, changes);
            }
            done := done + {s};
          }
        }
        i := i + 1;
      }
      assert securables[..i] == securables;
      finished := true;
    }

    /**
     Cleanup. A dry run writes nothing. The budget is the number of writes that succeed before one
     fails and ends the run: whatever it is, what is gone is exactly the roles of some readable items
     and the removable privileges of some readable securables, of the chosen side.
     */
    method Cleanup(inv: Inventory, apply: bool, includeSystem: bool, side: Side,
                   unreadableItems: set<ItemId>, unreadable: set<Securable>, budget: nat) returns (finished: bool)
      modifies this
      ensures !apply ==> finished && estate == old(estate)
      ensures exists items, secs ::
                && items <= TouchableItems(inv, side, unreadableItems)
                   && secs <= TouchableSecurables(inv, side, unreadable)
                && Cleaned(old(estate), estate, items, secs, includeSystem)
      ensures apply && finished ==>
                Cleaned(old(estate), estate, TouchableItems(inv, side, unreadableItems),
                        TouchableSecurables(inv, side, unreadable), includeSystem)
    {
      var left := budget;
      ghost var items: set<ItemId>, secs: set<Securable> := {}, {};
      finished := true;
      if side.Both? || side.FabricOnly? {
        finished, left, items := CleanItems(inv.items, apply, unreadableItems, budget, includeSystem);
      }
      if finished && (side.Both? || side.DbxOnly?) {
        finished, secs := CleanSecurables(inv.securables, apply, includeSystem, unreadable, left);
      }
      assert Cleaned(old(estate), estate, items, secs, includeSystem);
    }

    /**
     Restore. A role write that fails ends the run, after `puts` that succeed; a grant call that fails is passed over.
     What is written back is exactly the entries that were carried out, except to system-generated groups.
     */
    method Restore(b: Backup, apply: bool, puts: nat, refuses: nat -> bool) returns (finished: bool, ghost done: Backup)
      modifies this
      ensures !apply ==> finished && estate == old(estate)
      ensures apply ==> RestoredFrom(done, old(estate), estate)
      ensures apply ==> (finished <==> PutCount(b.roles) <= puts) && PartOf(done, b)
      ensures apply && finished ==> done == Backup(b.roles, Kept(b.grants, refuses))
      ensures apply && !finished ==> done.roles <= b.roles && PutCount(done.roles) == puts && done.grants == []
    {
      ghost var roles;
      finished, roles := RestoreItems(b.roles, apply, puts);
      if apply {
        KeptIsPart(b, roles, refuses);
      }
      done := Backup(roles, []);
      if finished {
        done := Backup(b.roles, Kept(b.grants, refuses));
        RestoreSecurables(b, apply, refuses, old(estate));
      }
    }

    method RestoreItems(entries: seq<(ItemId, seq<Role>)>, apply: bool, puts: nat)
      returns (finished: bool, ghost done: seq<(ItemId, seq<Role>)>)
      modifies this
      ensures !apply ==> finished && estate == old(estate)
      ensures apply ==> RestoredFrom(Backup(done, []), old(estate), estate)
      ensures apply ==> (finished <==> PutCount(entries) <= puts)
      ensures apply ==> done <= entries
      ensures finished ==> done == entries
      ensures apply && !finished ==> PutCount(done) == puts
    {
      var left := puts;
      var i := 0;
      while i < |entries|
        invariant 0 <= i <= |entries|
        invariant !apply ==> estate == old(estate)
        invariant apply ==> RestoredFrom(Backup(entries[..i], []), old(estate), estate)
        invariant apply ==> PutCount(entries[..i]) + left == puts
      {
        assert entries[..i + 1][..i] == entries[..i];
        ItemRestored(entries, i, old(estate), estate);
        var payload := StrippedAll(entries[i].1);
        if apply && payload != [] {
          if left == 0 {
            PutCountGrows(entries, i + 1);
            return false, entries[..i];
          }
          left := left - 1;
          PutRoles(entries[i].0, payload);
        }
        i := i + 1;
      }
      assert entries[..i] == entries;
      return true, entries;
    }

    /** The grant call of one securable, if it asks for anything. */
    method RestoreEntry(ghost done: Backup, entry: (Securable, seq<Assignment>), ghost before: Estate)
      requires RestoredFrom(done, before, estate)
      modifies this
      ensures RestoredFrom(Backup(done.roles, done.grants + [entry]), before, estate)
    {
      var changes := Additions(entry.1);
      RestoreOne(done, entry, before, estate, changes);
      if changes != [] {
        UpdateGrants(entry.0, changes);
      }
    }

    method RestoreSecurables(b: Backup, apply: bool, refuses: nat -> bool, ghost before: Estate)
      requires apply ==> RestoredFrom(Backup(b.roles, []), before, estate)
      modifies this
      ensures !apply ==> estate == old(estate)
      ensures apply ==> RestoredFrom(Backup(b.roles, Kept(b.grants, refuses)), before, estate)
    {
      var i := 0;
      while i < |b.grants|
        invariant 0 <= i <= |b.grants|
        invariant !apply ==> estate == old(estate)
        invariant apply ==> RestoredFrom(Backup(b.roles, Kept(b.grants[..i], refuses)), before, estate)
      {
        KeptMore(b.grants, i, refuses);
        if apply && !refuses(i) {
          RestoreEntry(Backup(b.roles, Kept(b.grants[..i], refuses)), b.grants[i], before);
        }
        i := i + 1;
      }
      assert b.grants[..i] == b.grants;
    }
  }

  /** How many role lists of a backup are written back. */
  function PutCount(entries: seq<(ItemId, seq<Role>)>): nat {
    if entries == [] then 0
    else PutCount(entries[..|entries| - 1]) + if entries[|entries| - 1].1 == [] then 0 else 1
  }

  lemma {:induction false} PutCountGrows(entries: seq<(ItemId, seq<Role>)>, n: nat)
    requires n <= |entries|
    ensures PutCount(entries[..n]) <= PutCount(entries)
  {
    if n < |entries| {
      var front := entries[..|entries| - 1];
      assert front[..n] == entries[..n];
      PutCountGrows(front, n);
    } else {
      assert entries[..n] == entries;
    }
  }

  /** The entries whose grant call does not fail. */
  function Kept(entries: seq<(Securable, seq<Assignment>)>, refuses: nat -> bool): seq<(Securable, seq<Assignment>)> {
    if entries == [] then []
    else
      var last := |entries| - 1;
      Kept(entries[..last], refuses) + if refuses(last) then [] else [entries[last]]
  }

  /** What of a list can be read. */
  function Readable<T>(xs: seq<T>, unreadable: set<T>): set<T> {
    set x | x in xs && x !in unreadable
  }

  lemma ReadableMore<T>(xs: seq<T>, i: nat, unreadable: set<T>)
    requires i < |xs|
    ensures Readable(xs[..i + 1], unreadable) == Readable(xs[..i], unreadable) + if xs[i] in unreadable then {}
            else {xs[i]}
  {
    assert xs[..i + 1] == xs[..i] + [xs[i]];
  }

  function TouchableItems(inv: Inventory, side: Side, unreadable: set<ItemId>): set<ItemId> {
    if side.DbxOnly? then {} else Readable(inv.items, unreadable)
  }

  function TouchableSecurables(inv: Inventory, side: Side, unreadable: set<Securable>): set<Securable> {
    if side.FabricOnly? then {} else Readable(inv.securables, unreadable)
  }

  /**
   Between e0 and e1 these items lost their roles and these securables their removable privileges, and nothing else
   changed.
   */
  ghost predicate Cleaned(e0: Estate, e1: Estate, items: set<ItemId>, secs: set<Securable>, includeSystem: bool) {
    && (forall it :: RolesAt(e1, it) == if it in items then [] else RolesAt(e0, it))
    && (forall s, p :: HeldAt(e1, s, p) == if s in secs && Removable(p, includeSystem) then {} else HeldAt(e0, s, p))
    && e1.workspaceRoles == e0.workspaceRoles
  }

  lemma CleanOne(e0: Estate, e1: Estate, items: set<ItemId>, secs: set<Securable>, includeSystem: bool, s: Securable,
                 changes: seq<Change>)
    requires Cleaned(e0, e1, items, secs, includeSystem)
    requires forall c :: c in changes ==> c.add == {}
    requires forall p :: Mentioned(changes, p) == if Removable(p, includeSystem) then Held(GrantsAt(e1, s), p) else {}
    ensures var e2 := if changes == [] then e1 else e1.(grants := e1.grants[s := ChangedAll(GrantsAt(e1, s), changes)]);
            Cleaned(e0, e2, items, secs + {s}, includeSystem)
  {
    var e2 := if changes == [] then e1 else e1.(grants := e1.grants[s := ChangedAll(GrantsAt(e1, s), changes)]);
    forall it
      ensures RolesAt(e2, it) == RolesAt(e1, it)
    {
    }
    forall t, p
      ensures HeldAt(e2, t, p) == if t == s && Removable(p, includeSystem) then {} else HeldAt(e1, t, p)
    {
      if t == s {
        HeldChangedAll(GrantsAt(e1, s), changes, false, p);
      }
    }
  }

  /** The roles an item ends with: the last non-empty backed up list, without server fields. */
  function RestoredRoles(entries: seq<(ItemId, seq<Role>)>, item: ItemId, current: seq<Role>): seq<Role> {
    if entries == [] then current
    else
      var last := |entries| - 1;
      if entries[last].0 == item && entries[last].1 != [] then StrippedAll(entries[last].1)
      else RestoredRoles(entries[..last], item, current)
  }

  /** What a backup says a principal held on a securable. */
  function BackedUpHeld(entries: seq<(Securable, seq<Assignment>)>, s: Securable, principal: string): set<string> {
    if entries == [] then {}
    else
      var last := |entries| - 1;
      BackedUpHeld(entries[..last], s, principal) + if entries[last].0 == s then Held(entries[last].1, principal)
      else {}
  }

  ghost predicate RestoredFrom(b: Backup, e0: Estate, e1: Estate) {
    && (forall it :: RolesAt(e1, it) == RestoredRoles(b.roles, it, RolesAt(e0, it)))
    && (forall s, p :: HeldAt(e1, s, p) == HeldAt(e0, s, p) + if IsSystemGenerated(p) then {}
        else BackedUpHeld(b.grants, s, p))
    && e1.workspaceRoles == e0.workspaceRoles
  }

  /** The next entry: its role list is put back if it is not empty. */
  lemma ItemRestored(entries: seq<(ItemId, seq<Role>)>, i: nat, e0: Estate, e1: Estate)
    requires i < |entries|
    ensures var (item, roles) := entries[i];
            var e2 := if roles == [] then e1 else e1.(roles := e1.roles[item := StrippedAll(roles)]);
            RestoredFrom(Backup(entries[..i], []), e0, e1) ==> RestoredFrom(Backup(entries[..i + 1], []), e0, e2)
  {
    assert entries[..i + 1][..i] == entries[..i];
  }

  lemma RestoreOne(b: Backup, entry: (Securable, seq<Assignment>), e0: Estate, e1: Estate, changes: seq<Change>)
    requires RestoredFrom(b, e0, e1)
    requires forall c :: c in changes ==> c.remove == {}
    requires forall p :: Mentioned(changes, p) == if IsSystemGenerated(p) then {} else Held(entry.1, p)
    ensures var s := entry.0;
            var e2 := if changes == [] then e1 else e1.(grants := e1.grants[s := ChangedAll(GrantsAt(e1, s), changes)]);
            RestoredFrom(Backup(b.roles, b.grants + [entry]), e0, e2)
  {
    var s := entry.0;
    var e2 := if changes == [] then e1 else e1.(grants := e1.grants[s := ChangedAll(GrantsAt(e1, s), changes)]);
    assert (b.grants + [entry])[..|b.grants|] == b.grants;
    forall it
      ensures RolesAt(e2, it) == RolesAt(e1, it)
    {
    }
    forall t, p
      ensures HeldAt(e2, t, p) == HeldAt(e1, t, p) + if t == s then Mentioned(changes, p) else {}
    {
      if t == s {
        HeldChangedAll(GrantsAt(e1, s), changes, true, p);
      }
    }
  }

  // ---------------------------------------------------------------- the laws of the cycle

  /** Two estates that differ at most in the server-managed fields of their roles. */
  ghost predicate Same(e0: Estate, e1: Estate) {
    && (forall it :: StrippedAll(RolesAt(e0, it)) == StrippedAll(RolesAt(e1, it)))
    && (forall s, p :: HeldAt(e0, s, p) == HeldAt(e1, s, p))
    && e0.workspaceRoles == e1.workspaceRoles
  }

  lemma {:induction false} RestoredRolesOf(entries: seq<(ItemId, seq<Role>)>, item: ItemId, roles: seq<Role>,
                                           current: seq<Role>)
    requires forall entry :: entry in entries && entry.0 == item ==> entry.1 == roles
    ensures RestoredRoles(entries, item, current) ==
              if roles != [] && exists entry :: entry in entries && entry.0 == item then StrippedAll(roles) else current
  {
    if entries != [] {
      var last := |entries| - 1;
      assert entries == entries[..last] + [entries[last]];
      RestoredRolesOf(entries[..last], item, roles, current);
    }
  }

  lemma {:induction false} BackedUpHeldOf(entries: seq<(Securable, seq<Assignment>)>, s: Securable,
                                          assignments: seq<Assignment>, principal: string)
    requires forall entry :: entry in entries && entry.0 == s ==> entry.1 == assignments
    ensures BackedUpHeld(entries, s, principal) ==
              if exists entry :: entry in entries && entry.0 == s then Held(assignments, principal) else {}
  {
    if entries != [] {
      var last := |entries| - 1;
      assert entries == entries[..last] + [entries[last]];
      BackedUpHeldOf(entries[..last], s, assignments, principal);
    }
  }

  /** Entries of the list name this item, or this securable. */
  ghost predicate Lists<K, V>(entries: seq<(K, V)>, k: K) { exists entry :: entry in entries && entry.0 == k }

  /** The part of a backup that was carried out. */
  predicate PartOf(done: Backup, b: Backup) {
    (forall entry :: entry in done.roles ==> entry in b.roles)
    && (forall entry :: entry in done.grants ==> entry in b.grants)
  }

  /** The roles an item has after a restore from a part of a backup of e0. */
  lemma RolesRestored(done: Backup, b: Backup, e0: Estate, e1: Estate, e2: Estate, inv: Inventory,
                      unreadableItems: set<ItemId>, unreadable: set<Securable>, item: ItemId)
    requires BackedUp(b, e0, inv, unreadableItems, unreadable) && PartOf(done, b) && RestoredFrom(done, e1, e2)
    ensures RolesAt(e2, item) ==
              if Lists(done.roles, item) && item !in unreadableItems && RolesAt(e0, item) != []
              then StrippedAll(RolesAt(e0, item)) else RolesAt(e1, item)
  {
    var roles := if item in unreadableItems then [] else RolesAt(e0, item);
    forall entry | entry in done.roles && entry.0 == item
      ensures entry.1 == roles && item in inv.items
    {
      var i :| 0 <= i < |b.roles| && b.roles[i] == entry;
    }
    RestoredRolesOf(done.roles, item, roles, RolesAt(e1, item));
  }

  /** What a principal holds after a restore from a part of a backup of e0. */
  lemma HeldRestored(done: Backup, b: Backup, e0: Estate, e1: Estate, e2: Estate, inv: Inventory,
                     unreadableItems: set<ItemId>, unreadable: set<Securable>, s: Securable, p: string)
    requires BackedUp(b, e0, inv, unreadableItems, unreadable) && PartOf(done, b) && RestoredFrom(done, e1, e2)
    ensures HeldAt(e2, s, p) == HeldAt(e1, s, p) +
              if !IsSystemGenerated(p) && Lists(done.grants, s) then HeldAt(e0, s, p) else {}
  {
    BackedUpHeldOf(done.grants, s, GrantsAt(e0, s), p);
  }

  /**
   A restore undoes a cleanup, exactly, whatever part of the backup is carried out. Back up e0, clean up these items and
   securables (whatever the side, the flag and the point where the run stopped), restore: the result is e0 again, up to
   the server-managed role fields, if and only if everything that had something for the cleanup to take was read for the
   backup and has an entry that was carried out.
   */
  lemma PartialRestoreUndoesCleanup(done: Backup, b: Backup, e0: Estate, e1: Estate, e2: Estate, inv: Inventory,
                                    unreadableItems: set<ItemId>, unreadable: set<Securable>,
                                    items: set<ItemId>, secs: set<Securable>, includeSystem: bool)
    requires BackedUp(b, e0, inv, unreadableItems, unreadable) && PartOf(done, b)
    requires Cleaned(e0, e1, items, secs, includeSystem) && RestoredFrom(done, e1, e2)
    ensures Same(e0, e2) <==>
              && (forall it :: it in items && RolesAt(e0, it) != [] ==>
                    it !in unreadableItems && Lists(done.roles, it))
              && (forall s, p :: s in secs && Removable(p, includeSystem) && HeldAt(e0, s, p) != {} ==>
                    Lists(done.grants, s))
  {
    forall it
      ensures StrippedAll(RolesAt(e0, it)) == StrippedAll(RolesAt(e2, it)) <==>
                (it in items && RolesAt(e0, it) != [] ==> it !in unreadableItems && Lists(done.roles, it))
    {
      RolesRestored(done, b, e0, e1, e2, inv, unreadableItems, unreadable, it);
      assert StrippedAll(StrippedAll(RolesAt(e0, it))) == StrippedAll(RolesAt(e0, it));
    }
    forall s, p
      ensures HeldAt(e0, s, p) == HeldAt(e2, s, p) <==>
                (s in secs && Removable(p, includeSystem) && HeldAt(e0, s, p) != {} ==> Lists(done.grants, s))
    {
      HeldRestored(done, b, e0, e1, e2, inv, unreadableItems, unreadable, s, p);
    }
  }

  /** What has an entry in a complete backup. */
  lemma BackupLists(b: Backup, e0: Estate, inv: Inventory, unreadableItems: set<ItemId>, unreadable: set<Securable>)
    requires BackedUp(b, e0, inv, unreadableItems, unreadable)
    ensures forall it :: Lists(b.roles, it) <==> it in inv.items
    ensures forall s, p :: HeldAt(e0, s, p) != {} ==> (Lists(b.grants, s) <==> s in inv.securables && s !in unreadable)
  {
    forall it | it in inv.items
      ensures Lists(b.roles, it)
    {
      var i :| 0 <= i < |inv.items| && inv.items[i] == it;
      assert b.roles[i] in b.roles && b.roles[i].0 == it;
    }
    forall it | Lists(b.roles, it)
      ensures it in inv.items
    {
      var entry :| entry in b.roles && entry.0 == it;
      var i :| 0 <= i < |b.roles| && b.roles[i] == entry;
    }
    forall s, p | HeldAt(e0, s, p) != {}
      ensures Lists(b.grants, s) <==> s in inv.securables && s !in unreadable
    {
      assert GrantsAt(e0, s) != [];
      if s in inv.securables && s !in unreadable {
        assert (s, GrantsAt(e0, s)) in b.grants && (s, GrantsAt(e0, s)).0 == s;
      }
    }
  }

  /**
   When the whole backup is carried out, a restore undoes a cleanup if and only if everything the backup could not read
   had nothing for the cleanup to take.
   */
  lemma RestoreUndoesCleanup(b: Backup, e0: Estate, e1: Estate, e2: Estate, inv: Inventory,
                             unreadableItems: set<ItemId>, unreadable: set<Securable>,
                             items: set<ItemId>, secs: set<Securable>, includeSystem: bool)
    requires BackedUp(b, e0, inv, unreadableItems, unreadable)
    requires items <= set it | it in inv.items
    requires secs <= set s | s in inv.securables
    requires Cleaned(e0, e1, items, secs, includeSystem)
    requires RestoredFrom(b, e1, e2)
    ensures Same(e0, e2) <==>
              && (forall it :: it in items && it in unreadableItems ==> RolesAt(e0, it) == [])
              && (forall s, p :: s in secs && s in unreadable && Removable(p, includeSystem) ==> HeldAt(e0, s, p) == {})
  {
    BackupLists(b, e0, inv, unreadableItems, unreadable);
    PartialRestoreUndoesCleanup(b, b, e0, e1, e2, inv, unreadableItems, unreadable, items, secs, includeSystem);
  }

  /** What `Restore` carries out is a part of its backup. */
  lemma KeptIsPart(b: Backup, roles: seq<(ItemId, seq<Role>)>, refuses: nat -> bool)
    requires roles <= b.roles
    ensures PartOf(Backup(roles, Kept(b.grants, refuses)), b) && PartOf(Backup(roles, []), b)
  {
    KeptAreEntries(b.grants, refuses);
  }

  lemma KeptMore(entries: seq<(Securable, seq<Assignment>)>, i: nat, refuses: nat -> bool)
    requires i < |entries|
    ensures Kept(entries[..i + 1], refuses) ==
              if refuses(i) then Kept(entries[..i], refuses) else Kept(entries[..i], refuses) + [entries[i]]
  {
    assert entries[..i + 1][..i] == entries[..i];
  }

  lemma {:induction false} KeptAreEntries(entries: seq<(Securable, seq<Assignment>)>, refuses: nat -> bool)
    ensures forall entry :: entry in Kept(entries, refuses) ==> entry in entries
  {
    if entries != [] {
      KeptAreEntries(entries[..|entries| - 1], refuses);
    }
  }

  /** Restoring a second time changes nothing, whatever the backup. */
  lemma RestoreTwiceIsRestoreOnce(b: Backup, e1: Estate, e2: Estate, e3: Estate)
    requires RestoredFrom(b, e1, e2) && RestoredFrom(b, e2, e3)
    ensures Same(e2, e3) && forall it :: RolesAt(e2, it) == RolesAt(e3, it)
  {
    forall it
      ensures RolesAt(e2, it) == RolesAt(e3, it)
    {
      RestoredRolesStable(b.roles, it, RolesAt(e1, it));
    }
  }

  lemma {:induction false} RestoredRolesStable(entries: seq<(ItemId, seq<Role>)>, item: ItemId, current: seq<Role>)
    ensures RestoredRoles(entries, item, RestoredRoles(entries, item, current)) == RestoredRoles(entries, item, current)
  {
    if entries != [] {
      var last := |entries| - 1;
      if entries[last].0 != item || entries[last].1 == [] {
        RestoredRolesStable(entries[..last], item, current);
      }
    }
  }

  /** One step of a console session: a cleanup, wherever it stopped, or a restore, whatever of it was carried out. */
  ghost predicate Step(e: Estate, e': Estate) {
    || (exists items, secs, includeSystem :: Cleaned(e, e', items, secs, includeSystem))
    || (exists done :: RestoredFrom(done, e, e'))
  }

  ghost predicate Session(es: seq<Estate>) { forall i :: 0 < i < |es| ==> Step(es[i - 1], es[i]) }

  /**
   The lockout guards over whole sessions: no sequence of cleanups and restores, in whatever order and however they end,
   changes a workspace role or what a system-generated group holds.
   */
  lemma {:induction false} NoSessionTouchesSystemGroups(es: seq<Estate>, n: nat, s: Securable, p: string)
    requires Session(es) && n < |es| && IsSystemGenerated(p)
    ensures HeldAt(es[n], s, p) == HeldAt(es[0], s, p) && es[n].workspaceRoles == es[0].workspaceRoles
  {
    if n > 0 {
      NoSessionTouchesSystemGroups(es, n - 1, s, p);
      assert Step(es[n - 1], es[n]);
    }
  }

  /** The lockout guards: no step of the cycle changes a workspace role or what a system-generated group holds. */
  lemma SystemPrincipalsAreSafe(b: Backup, e0: Estate, e1: Estate, e2: Estate, items: set<ItemId>, secs: set<Securable>,
                                includeSystem: bool, s: Securable, p: string)
    requires Cleaned(e0, e1, items, secs, includeSystem) && RestoredFrom(b, e1, e2)
    requires IsSystemGenerated(p) || (Lower(p) == "account users" && !includeSystem)
    ensures HeldAt(e1, s, p) == HeldAt(e0, s, p)
    ensures IsSystemGenerated(p) ==> HeldAt(e2, s, p) == HeldAt(e0, s, p)
    ensures e0.workspaceRoles == e1.workspaceRoles == e2.workspaceRoles
  {
  }

  /** The failing case: an item that could not be read for the backup, and is cleared afterwards, stays cleared. */
  lemma UnreadableItemIsLost(role: Role)
    ensures var e0, e1 := Estate(map["i" := [role]], map[], []), Estate(map["i" := []], map[], []);
            var b := Backup([("i", [])], []);
            && BackedUp(b, e0, Inventory(["i"], []), {"i"}, {})
            && Cleaned(e0, e1, {"i"}, {}, false) && RestoredFrom(b, e1, e1)
            && !Same(e0, e1)
  {
    var e0, e1 := Estate(map["i" := [role]], map[], []), Estate(map["i" := []], map[], []);
    var entries: seq<(ItemId, seq<Role>)> := [("i", [])];
    assert entries[..0] == [];
    assert |StrippedAll(RolesAt(e0, "i"))| == 1 && |StrippedAll(RolesAt(e1, "i"))| == 0;
  }
}
