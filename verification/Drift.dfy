/** Snapshots of the diff and the drift between them (app/services/drift_service.py). */
module Drift {
  import opened Optional
  import opened Text
  import P = PairDiff

  // ---------------------------------------------------------------- row keys

  function AccessName(a: P.Access): string {
    match a
    case DATA_READ => "DATA_READ"
    case DATA_WRITE => "DATA_WRITE"
    case DATA_ADMIN => "DATA_ADMIN"
    case OBJECT_USE => "OBJECT_USE"
    case OtherAccess(name) => name
  }

  function KindName(k: P.Kind): string {
    match k
    case NoConstraint => ""
    case RowFilter => "row_filter"
    case ColumnMask => "column_mask"
    case OtherKind(name) => name
  }

  /** The text a constraint is identified by, a hash of it. */
  type Digest = P.Constraint -> string

  function Fields(k: P.RowKey, digest: Digest): seq<string> {
    [k.principal, k.scope, AccessName(k.access), KindName(k.kind), digest(k.constraint)]
  }

  /** `_row_key` */
  function RowText(k: P.RowKey, digest: Digest): string {
    Join(Fields(k, digest), "|")
  }

  predicate BarFree(parts: seq<string>) { forall part :: part in parts ==> '|' !in part }

  lemma {:induction false} SplitConcat(a: string, rest: string)
    ensures |Split(a + ['|'] + rest, '|')| == |Split(a, '|')| + |Split(rest, '|')|
    ensures |Split(a, '|')| == 1 ==> '|' !in a
  {
    if a == "" {
      assert (a + ['|'] + rest)[1..] == rest;
    } else {
      assert (a + ['|'] + rest)[1..] == a[1..] + ['|'] + rest;
      SplitConcat(a[1..], rest);
    }
  }

  /** A joined text splits into more parts than it was made of, unless they are free of bars. */
  lemma {:induction false} SplitJoinSize(parts: seq<string>)
    requires parts != []
    ensures |Split(Join(parts, "|"), '|')| >= |parts|
    ensures |Split(Join(parts, "|"), '|')| == |parts| ==> BarFree(parts)
  {
    SplitConcat(parts[0], "");
    if |parts| > 1 {
      SplitJoinSize(parts[1..]);
      SplitConcat(parts[0], Join(parts[1..], "|"));
      assert Join(parts, "|") == parts[0] + ['|'] + Join(parts[1..], "|");
      assert parts == [parts[0]] + parts[1..];
    } else {
      assert parts == [parts[0]];
    }
  }

  lemma JoinTwo(a: string, b: string, post: seq<string>)
    ensures Join([a, b] + post, "|") == (a + "|" + b) + if post == [] then "" else "|" + Join(post, "|")
  {
    var parts := [a, b] + post;
    assert parts[1..] == [b] + post;
    assert ([b] + post)[1..] == post;
  }

  /** Where two neighbours meet does not show in the text. */
  lemma {:induction false} Regroup(pre: seq<string>, a: string, b: string, c: string, d: string, post: seq<string>)
    requires a + "|" + b == c + "|" + d
    ensures Join(pre + [a, b] + post, "|") == Join(pre + [c, d] + post, "|")
  {
    if pre == [] {
      assert pre + [a, b] + post == [a, b] + post && pre + [c, d] + post == [c, d] + post;
      JoinTwo(a, b, post);
      JoinTwo(c, d, post);
    } else {
      Regroup(pre[1..], a, b, c, d, post);
      assert (pre + [a, b] + post)[1..] == pre[1..] + [a, b] + post;
      assert (pre + [c, d] + post)[1..] == pre[1..] + [c, d] + post;
    }
  }

  /** A part with a bar leaves another list of as many parts with the same text. */
  lemma BarMoves(parts: seq<string>, i: nat) returns (other: seq<string>)
    requires |parts| > 1 && i < |parts| && '|' in parts[i]
    ensures |other| == |parts| && other != parts && Join(other, "|") == Join(parts, "|")
  {
    var at :| 0 <= at < |parts[i]| && parts[i][at] == '|';
    var x, y := parts[i][..at], parts[i][at + 1..];
    assert parts[i] == x + "|" + y;
    if i + 1 < |parts| {
      var b := parts[i + 1];
      other := parts[..i] + [x, y + "|" + b] + parts[i + 2..];
      assert parts == parts[..i] + [parts[i], b] + parts[i + 2..];
      assert parts[i] + "|" + b == x + "|" + (y + "|" + b);
      Regroup(parts[..i], parts[i], b, x, y + "|" + b, parts[i + 2..]);
      assert other[i] == x && |x| < |parts[i]|;
    } else {
      var a := parts[i - 1];
      other := parts[..i - 1] + [a + "|" + x, y] + [];
      assert parts == parts[..i - 1] + [a, parts[i]] + [];
      assert a + "|" + parts[i] == (a + "|" + x) + "|" + y;
      Regroup(parts[..i - 1], a, parts[i], a + "|" + x, y, []);
      assert other[i] == y && |y| < |parts[i]|;
    }
  }

  /** No other list of as many fields has the same text. */
  predicate Alone(parts: seq<string>, other: seq<string>) {
    |other| == |parts| && Join(other, "|") == Join(parts, "|") ==> other == parts
  }

  /** Fields can be told from their text, exactly: they are the only ones with it if and only if none contains a bar. */
  lemma TextIsExact(parts: seq<string>)
    requires |parts| > 1
    ensures (forall other :: Alone(parts, other)) <==> BarFree(parts)
  {
    if BarFree(parts) {
      SplitOfJoin(parts, '|');
      forall other
        ensures Alone(parts, other)
      {
        if |other| == |parts| && Join(other, "|") == Join(parts, "|") {
          SplitJoinSize(other);
          SplitOfJoin(other, '|');
        }
      }
    } else {
      var part :| part in parts && '|' in part;
      var i :| 0 <= i < |parts| && parts[i] == part;
      var other := BarMoves(parts, i);
      assert !Alone(parts, other);
    }
  }

  /** A row without bars shares its text with no row of other fields. */
  lemma RowTextIsInjective(j: P.RowKey, k: P.RowKey, digest: Digest)
    requires BarFree(Fields(j, digest))
    ensures RowText(j, digest) == RowText(k, digest) <==> Fields(j, digest) == Fields(k, digest)
  {
    TextIsExact(Fields(j, digest));
    assert Alone(Fields(j, digest), Fields(k, digest));
  }

  /** A principal with a bar does: every such row shares its text with the row of another principal and scope. */
  lemma BarsCollide(x: string, y: string, scope: string, access: P.Access, digest: Digest)
    ensures RowText(P.PlainKey(x + "|" + y, scope, access), digest) ==
              RowText(P.PlainKey(x, y + "|" + scope, access), digest)
    ensures P.PlainKey(x + "|" + y, scope, access) != P.PlainKey(x, y + "|" + scope, access)
  {
    var tail := [AccessName(access), "", digest(P.NoKey)];
    assert Fields(P.PlainKey(x + "|" + y, scope, access), digest) == [] + [x + "|" + y, scope] + tail;
    assert Fields(P.PlainKey(x, y + "|" + scope, access), digest) == [] + [x, y + "|" + scope] + tail;
    assert (x + "|" + y) + "|" + scope == x + "|" + (y + "|" + scope);
    Regroup([], x + "|" + y, scope, x, y + "|" + scope, tail);
    assert |x + "|" + y| > |x|;
  }

  // ---------------------------------------------------------------- sorting

  /** The order of strings. */
  predicate AtMost(a: string, b: string) {
    a == "" || (b != "" && (a[0] < b[0] || (a[0] == b[0] && AtMost(a[1..], b[1..]))))
  }

  lemma {:induction false} AtMostTotal(a: string, b: string)
    ensures AtMost(a, b) || AtMost(b, a)
    ensures AtMost(a, b) && AtMost(b, a) ==> a == b
  {
    if a != "" && b != "" {
      AtMostTotal(a[1..], b[1..]);
      assert a == [a[0]] + a[1..] && b == [b[0]] + b[1..];
    }
  }

  lemma {:induction false} AtMostTransitive(a: string, b: string, c: string)
    requires AtMost(a, b) && AtMost(b, c)
    ensures AtMost(a, c)
  {
    if a != "" && a[0] == b[0] == c[0] {
      AtMostTransitive(a[1..], b[1..], c[1..]);
    }
  }

  function Insert(x: string, xs: seq<string>): seq<string> {
    if xs == [] || AtMost(x, xs[0]) then [x] + xs else [xs[0]] + Insert(x, xs[1..])
  }

  /** `sorted(xs)` */
  function SortedKeys(xs: seq<string>): seq<string> {
    if xs == [] then [] else Insert(xs[0], SortedKeys(xs[1..]))
  }

  predicate Ordered(xs: seq<string>) { forall i, j :: 0 <= i < j < |xs| ==> AtMost(xs[i], xs[j]) }

  lemma OrderedCons(x: string, xs: seq<string>)
    requires Ordered(xs) && forall y :: y in xs ==> AtMost(x, y)
    ensures Ordered([x] + xs) && multiset([x] + xs) == multiset(xs) + multiset{x}
  {
  }

  lemma AtMostAll(x: string, xs: seq<string>)
    requires Ordered(xs) && xs != [] && AtMost(x, xs[0])
    ensures forall y :: y in xs ==> AtMost(x, y)
  {
    forall y | y in xs
      ensures AtMost(x, y)
    {
      var j :| 0 <= j < |xs| && xs[j] == y;
      if j > 0 {
        AtMostTransitive(x, xs[0], y);
      }
    }
  }

  lemma {:induction false} InsertKeeps(x: string, xs: seq<string>)
    requires Ordered(xs)
    ensures Ordered(Insert(x, xs)) && multiset(Insert(x, xs)) == multiset(xs) + multiset{x}
  {
    if xs == [] {
      OrderedCons(x, xs);
    } else if AtMost(x, xs[0]) {
      AtMostAll(x, xs);
      OrderedCons(x, xs);
    } else {
      AtMostTotal(x, xs[0]);
      InsertKeeps(x, xs[1..]);
      var rest := Insert(x, xs[1..]);
      forall y | y in rest
        ensures AtMost(xs[0], y)
      {
        assert y in multiset(rest);
        assert y == x || y in xs[1..];
      }
      OrderedCons(xs[0], rest);
      assert xs == [xs[0]] + xs[1..];
    }
  }

  lemma {:induction false} SortIsOrdered(xs: seq<string>)
    ensures Ordered(SortedKeys(xs)) && multiset(SortedKeys(xs)) == multiset(xs)
  {
    if xs != [] {
      SortIsOrdered(xs[1..]);
      InsertKeeps(xs[0], SortedKeys(xs[1..]));
      assert xs == [xs[0]] + xs[1..];
    }
  }

  lemma HeadsAgree(xs: seq<string>, ys: seq<string>)
    requires Ordered(xs) && Ordered(ys) && xs != [] && ys != [] && xs[0] in ys && ys[0] in xs
    ensures xs[0] == ys[0]
  {
    var i :| 0 <= i < |ys| && ys[i] == xs[0];
    var j :| 0 <= j < |xs| && xs[j] == ys[0];
    assert i == 0 || AtMost(ys[0], xs[0]);
    assert j == 0 || AtMost(xs[0], ys[0]);
    AtMostTotal(xs[0], ys[0]);
  }

  lemma TailHolds(xs: seq<string>)
    requires xs != []
    ensures multiset(xs[1..]) == multiset(xs) - multiset{xs[0]}
  {
    assert xs == [xs[0]] + xs[1..];
  }

  /** An ordered list is determined by what it holds. */
  lemma {:induction false} OrderedIsCanonical(xs: seq<string>, ys: seq<string>)
    requires Ordered(xs) && Ordered(ys) && multiset(xs) == multiset(ys)
    ensures xs == ys
  {
    assert |xs| == |multiset(xs)| == |multiset(ys)| == |ys|;
    if xs != [] {
      assert xs[0] in multiset(ys) && ys[0] in multiset(xs);
      HeadsAgree(xs, ys);
      TailHolds(xs);
      TailHolds(ys);
      OrderedIsCanonical(xs[1..], ys[1..]);
      assert xs == [xs[0]] + xs[1..] && ys == [ys[0]] + ys[1..];
    }
  }

  // ---------------------------------------------------------------- fingerprints

  predicate LineFree(keys: seq<string>) { forall k :: k in keys ==> k != "" && '\n' !in k }

  ghost predicate Injective(hash: string -> string) { forall a, b :: hash(a) == hash(b) ==> a == b }

  function Fingerprint(keys: seq<string>, hash: string -> string): string {
    hash(Join(SortedKeys(keys), "\n"))
  }

  lemma {:induction false} JoinNotEmpty(xs: seq<string>)
    requires xs != [] && forall x :: x in xs ==> x != ""
    ensures Join(xs, "\n") != ""
  {
    assert xs[0] in xs;
  }

  /** Fingerprints agree exactly when the same keys occur equally often, in whatever order. */
  lemma FingerprintIsExact(a: seq<string>, b: seq<string>, hash: string -> string)
    requires LineFree(a) && LineFree(b) && Injective(hash)
    ensures Fingerprint(a, hash) == Fingerprint(b, hash) <==> multiset(a) == multiset(b)
  {
    SortIsOrdered(a);
    SortIsOrdered(b);
    var s, t := SortedKeys(a), SortedKeys(b);
    SortedIsLineFree(a);
    SortedIsLineFree(b);
    if Fingerprint(a, hash) == Fingerprint(b, hash) {
      assert Join(s, "\n") == Join(t, "\n");
      if s == [] || t == [] {
        if s != [] {
          JoinNotEmpty(s);
        }
        if t != [] {
          JoinNotEmpty(t);
        }
      } else {
        SplitOfJoin(s, '\n');
        SplitOfJoin(t, '\n');
      }
      assert s == t;
    }
    if multiset(a) == multiset(b) {
      OrderedIsCanonical(s, t);
    }
  }

  lemma JoinAfter(front: string, x: string, rest: seq<string>, sep: string)
    ensures Join([front + x] + rest, sep) == front + Join([x] + rest, sep)
  {
    assert ([front + x] + rest)[1..] == rest && ([x] + rest)[1..] == rest;
  }

  lemma TwoSorted(x: string, y: string)
    requires AtMost(x, y)
    ensures SortedKeys([x, y]) == [x, y] && SortedKeys([x + "\n" + y]) == [x + "\n" + y]
    ensures Join([x, y], "\n") == Join([x + "\n" + y], "\n")
  {
    assert [x, y][1..] == [y] && [y][1..] == [];
    assert SortedKeys([y]) == [y];
  }

  /**
   The failing case: a diff of two rows and a diff of one row share their fingerprint when the one row's principal is
   the text of the first row, a line break, and the principal of the second.
   */
  lemma LineBreaksCollide(j: P.RowKey, k: P.RowKey, digest: Digest, hash: string -> string)
    requires AtMost(RowText(j, digest), RowText(k, digest))
    ensures var long := k.(principal := RowText(j, digest) + "\n" + k.principal);
            Fingerprint([RowText(long, digest)], hash) == Fingerprint([RowText(j, digest), RowText(k, digest)], hash)
  {
    var long := k.(principal := RowText(j, digest) + "\n" + k.principal);
    var rest := Fields(k, digest)[1..];
    assert Fields(k, digest) == [k.principal] + rest && Fields(long, digest) == [long.principal] + rest;
    JoinAfter(RowText(j, digest) + "\n", k.principal, rest, "|");
    TwoSorted(RowText(j, digest), RowText(k, digest));
  }

  lemma SortedIsLineFree(xs: seq<string>)
    requires LineFree(xs)
    ensures LineFree(SortedKeys(xs))
  {
    SortIsOrdered(xs);
    forall k | k in SortedKeys(xs)
      ensures k != "" && '\n' !in k
    {
      assert k in multiset(SortedKeys(xs));
      assert k in xs;
    }
  }

  // ---------------------------------------------------------------- snapshots

  datatype Snapshot = Snapshot(id: nat, pairing: string, takenAt: int, rowCount: nat, dbxOnly: nat, fabricOnly: nat,
                               inSync: nat,
                               fingerprint: string, rows: seq<P.DiffRow>)

  /** Rows that appeared and disappeared, by key. */
  datatype Drift = Drift(added: map<string, P.DiffRow>, removed: map<string, P.DiffRow>, isFirst: bool,
                         sameAsBefore: bool)

  /** `_serialize_row`: the raw labels are not stored. */
  function Serialized(r: P.DiffRow): P.DiffRow {
    r.(rawDbx := [], rawFabric := [])
  }

  function SerializedAll(rows: seq<P.DiffRow>): seq<P.DiffRow> {
    seq(|rows|, i requires 0 <= i < |rows| => Serialized(rows[i]))
  }

  function KeysOf(rows: seq<P.DiffRow>, digest: Digest): seq<string> {
    seq(|rows|, i requires 0 <= i < |rows| => RowText(rows[i].key, digest))
  }

  /** `{_row_key(r): r for r in rows}` */
  function ByKey(rows: seq<P.DiffRow>, digest: Digest): map<string, P.DiffRow> {
    if rows == [] then map[]
    else ByKey(rows[..|rows| - 1], digest)[RowText(rows[|rows| - 1].key, digest) := rows[|rows| - 1]]
  }

  /** Later, by time and then by id. */
  predicate Newer(a: Snapshot, b: Snapshot) {
    a.takenAt > b.takenAt || (a.takenAt == b.takenAt && a.id > b.id)
  }

  /** `ORDER BY taken_at DESC, id DESC LIMIT 1` among the snapshots of a pairing. */
  function Latest(table: seq<Snapshot>, pairing: string): Option<Snapshot> {
    if table == [] then None
    else
      var last := table[|table| - 1];
      var before := Latest(table[..|table| - 1], pairing);
      if last.pairing != pairing then before
      else if before.Some? && !Newer(last, before.value) then before
      else Some(last)
  }

  lemma {:induction false} LatestIsNewest(table: seq<Snapshot>, pairing: string)
    ensures var l := Latest(table, pairing);
            && (l.None? <==> forall s :: s in table ==> s.pairing != pairing)
            && (l.Some? ==> l.value in table && l.value.pairing == pairing
                            && forall s :: s in table && s.pairing == pairing ==> !Newer(s, l.value))
  {
    if table != [] {
      LatestIsNewest(table[..|table| - 1], pairing);
      assert table == table[..|table| - 1] + [table[|table| - 1]];
    }
  }

  function SnapshotOf(id: nat, pairing: string, now: int, b: P.Buckets, digest: Digest,
                      hash: string -> string): Snapshot {
    Snapshot(id, pairing, now, |b.all|, |b.dbxOnly|, |b.fabricOnly|, |b.inSync|,
             Fingerprint(KeysOf(b.all, digest), hash), SerializedAll(b.all))
  }

  function DriftFrom(prev: Option<Snapshot>, s: Snapshot, digest: Digest): Drift {
    if prev.None? then Drift(map[], map[], true, false)
    else
      var was, now := ByKey(prev.value.rows, digest), ByKey(s.rows, digest);
      Drift(now - was.Keys, was - now.Keys, false, prev.value.fingerprint == s.fingerprint)
  }

  class SnapshotStore {
    var table: seq<Snapshot>

    constructor ()
      ensures table == []
    {
      table := [];
    }

    /** `record_snapshot`; ids count up from one. */
    method RecordSnapshot(pairing: string, now: int, b: P.Buckets, digest: Digest, hash: string -> string)
        returns (drift: Drift)
      modifies this
      ensures table == old(table) + [SnapshotOf(|old(table)| + 1, pairing, now, b, digest, hash)]
      ensures drift == DriftFrom(Latest(old(table), pairing), table[|old(table)|], digest)
    {
      var keys := SortedKeys(KeysOf(b.all, digest));
      var prev := Latest(table, pairing);
      var s := Snapshot(|table| + 1, pairing, now, |b.all|, |b.dbxOnly|, |b.fabricOnly|, |b.inSync|,
                        hash(Join(keys, "\n")), SerializedAll(b.all));
      table := table + [s];
      drift := DriftFrom(prev, s, digest);
    }
  }

  // ---------------------------------------------------------------- whole histories

  /** One call of the service. */
  datatype Call = Call(pairing: string, now: int, buckets: P.Buckets)

  function TableAfter(calls: seq<Call>, digest: Digest, hash: string -> string): (t: seq<Snapshot>)
    ensures |t| == |calls|
  {
    if calls == [] then []
    else
      var c := calls[|calls| - 1];
      TableAfter(calls[..|calls| - 1], digest, hash) + [SnapshotOf(|calls|, c.pairing, c.now, c.buckets, digest, hash)]
  }

  /** What the last call reports. */
  function LastDrift(calls: seq<Call>, digest: Digest, hash: string -> string): Drift
    requires calls != []
  {
    var table := TableAfter(calls, digest, hash);
    DriftFrom(Latest(table[..|table| - 1], calls[|calls| - 1].pairing), table[|table| - 1], digest)
  }

  /** The keys rebuilt from the first snapshot of a pairing and the drifts reported since. */
  function Replay(calls: seq<Call>, pairing: string, digest: Digest, hash: string -> string): Option<set<string>> {
    if calls == [] then None
    else
      var c := calls[|calls| - 1];
      var before := Replay(calls[..|calls| - 1], pairing, digest, hash);
      var drift := LastDrift(calls, digest, hash);
      if c.pairing != pairing then before
      else if before.None? then Some(ByKey(SerializedAll(c.buckets.all), digest).Keys)
      else Some(before.value - drift.removed.Keys + drift.added.Keys)
  }

  /** The last call for a pairing. */
  function LastCall(calls: seq<Call>, pairing: string): Option<Call> {
    if calls == [] then None
    else if calls[|calls| - 1].pairing == pairing then Some(calls[|calls| - 1])
    else LastCall(calls[..|calls| - 1], pairing)
  }

  /** The clock does not run backwards between two calls for one pairing. */
  predicate InOrder(calls: seq<Call>) {
    forall i, j :: 0 <= i < j < |calls| && calls[i].pairing == calls[j].pairing ==> calls[i].now <= calls[j].now
  }

  function StoredCall(s: Snapshot, c: Call, digest: Digest, hash: string -> string): bool {
    s == SnapshotOf(s.id, c.pairing, c.now, c.buckets, digest, hash)
  }

  lemma {:induction false} LastCallIsOne(calls: seq<Call>, pairing: string)
    ensures var l := LastCall(calls, pairing); l.Some? ==> l.value in calls && l.value.pairing == pairing
  {
    if calls != [] {
      LastCallIsOne(calls[..|calls| - 1], pairing);
      assert calls == calls[..|calls| - 1] + [calls[|calls| - 1]];
    }
  }

  /** The latest snapshot is the one of the last call, other pairings notwithstanding. */
  lemma {:induction false} LatestIsLastCall(calls: seq<Call>, pairing: string, digest: Digest, hash: string -> string)
    requires InOrder(calls)
    ensures var l := Latest(TableAfter(calls, digest, hash), pairing);
            var c := LastCall(calls, pairing);
            && (l.Some? <==> c.Some?)
            && (l.Some? ==> StoredCall(l.value, c.value, digest, hash) && l.value.id <= |calls|)
  {
    if calls != [] {
      var n := |calls| - 1;
      LatestIsLastCall(calls[..n], pairing, digest, hash);
      LastCallIsOne(calls[..n], pairing);
      var before := LastCall(calls[..n], pairing);
      if before.Some? && calls[n].pairing == pairing {
        var i :| 0 <= i < n && calls[..n][i] == before.value;
        assert calls[i].now <= calls[n].now;
      }
    }
  }

  /** The stored keys are the texts of the rows of the diff. */
  lemma {:induction false} StoredKeys(rows: seq<P.DiffRow>, digest: Digest)
    ensures ByKey(SerializedAll(rows), digest).Keys == set r | r in rows :: RowText(r.key, digest)
  {
    if rows != [] {
      var n := |rows| - 1;
      StoredKeys(rows[..n], digest);
      assert SerializedAll(rows)[..n] == SerializedAll(rows[..n]);
      assert rows == rows[..n] + [rows[n]];
    }
  }

  /** Taking the removed keys away and adding the new ones leads from one snapshot to the next. */
  lemma DriftLeadsOn(prev: Snapshot, s: Snapshot, digest: Digest)
    ensures var d := DriftFrom(Some(prev), s, digest);
            ByKey(prev.rows, digest).Keys - d.removed.Keys + d.added.Keys == ByKey(s.rows, digest).Keys
  {
  }

  /** Replaying the drifts of a pairing gives the keys of its last diff, whatever was recorded for others in between. */
  lemma {:induction false} ReplayIsExact(calls: seq<Call>, pairing: string, digest: Digest, hash: string -> string)
    requires InOrder(calls)
    ensures var c := LastCall(calls, pairing);
            Replay(calls, pairing, digest, hash) ==
              if c.None? then None else Some(ByKey(SerializedAll(c.value.buckets.all), digest).Keys)
  {
    if calls != [] {
      var n := |calls| - 1;
      ReplayIsExact(calls[..n], pairing, digest, hash);
      if calls[n].pairing == pairing {
        LatestIsLastCall(calls[..n], pairing, digest, hash);
        var table := TableAfter(calls, digest, hash);
        assert table[..n] == TableAfter(calls[..n], digest, hash);
        var prev := Latest(table[..n], pairing);
        if prev.Some? {
          DriftLeadsOn(prev.value, table[n], digest);
        }
      }
    }
  }

  /** The calls for one pairing. */
  function Only(calls: seq<Call>, pairing: string): seq<Call> {
    if calls == [] then []
    else
      var last := calls[|calls| - 1];
      Only(calls[..|calls| - 1], pairing) + if last.pairing == pairing then [last] else []
  }

  /** The same snapshot up to its id. */
  predicate SameSnapshot(a: Option<Snapshot>, b: Option<Snapshot>) {
    (a.Some? <==> b.Some?) && (a.Some? ==> a.value.(id := 0) == b.value.(id := 0))
  }

  lemma {:induction false} IdsCount(calls: seq<Call>, pairing: string, digest: Digest, hash: string -> string)
    ensures var l := Latest(TableAfter(calls, digest, hash), pairing); l.Some? ==> l.value.id <= |calls|
  {
    if calls != [] {
      IdsCount(calls[..|calls| - 1], pairing, digest, hash);
    }
  }

  /** What one more snapshot does to the latest one, up to ids. */
  lemma LatestStep(a: seq<Snapshot>, b: seq<Snapshot>, s: Snapshot, t: Snapshot, pairing: string)
    requires SameSnapshot(Latest(a, pairing), Latest(b, pairing)) && s.pairing == pairing && s.(id := 0) == t.(id := 0)
    requires Latest(a, pairing).Some? ==> Latest(a, pairing).value.id < s.id && Latest(b, pairing).value.id < t.id
    ensures SameSnapshot(Latest(a + [s], pairing), Latest(b + [t], pairing))
  {
    assert (a + [s])[..|a|] == a && (b + [t])[..|b|] == b;
  }

  /**
   Whatever the clock does, the calls for other pairings make no difference to what a pairing's drift is measured
   against.
   */
  lemma {:induction false} PairingsDoNotInterfere(calls: seq<Call>, pairing: string, digest: Digest,
                                                  hash: string -> string)
    ensures SameSnapshot(Latest(TableAfter(calls, digest, hash), pairing),
                         Latest(TableAfter(Only(calls, pairing), digest, hash), pairing))
  {
    if calls != [] {
      var n := |calls| - 1;
      var rest := Only(calls[..n], pairing);
      PairingsDoNotInterfere(calls[..n], pairing, digest, hash);
      IdsCount(calls[..n], pairing, digest, hash);
      IdsCount(rest, pairing, digest, hash);
      if calls[n].pairing == pairing {
        var c, only := calls[n], rest + [calls[n]];
        assert Only(calls, pairing) == only && only[..|rest|] == rest;
        LatestStep(TableAfter(calls[..n], digest, hash), TableAfter(rest, digest, hash),
                   SnapshotOf(n + 1, c.pairing, c.now, c.buckets, digest, hash),
                   SnapshotOf(|rest| + 1, c.pairing, c.now, c.buckets, digest, hash), pairing);
      } else {
        assert Only(calls, pairing) == rest;
        assert TableAfter(calls, digest, hash)[..n] == TableAfter(calls[..n], digest, hash);
      }
    }
  }

  /** A call reports "unchanged" exactly when the previous diff held the same keys equally often. */
  lemma UnchangedIsExact(calls: seq<Call>, digest: Digest, hash: string -> string)
    requires calls != [] && InOrder(calls) && Injective(hash)
    requires forall c :: c in calls ==> LineFree(KeysOf(c.buckets.all, digest))
    ensures var n := |calls| - 1;
            var prev := LastCall(calls[..n], calls[n].pairing);
            LastDrift(calls, digest, hash).sameAsBefore <==>
              prev.Some? && multiset(KeysOf(prev.value.buckets.all, digest)) ==
                multiset(KeysOf(calls[n].buckets.all, digest))
  {
    var n := |calls| - 1;
    LatestIsLastCall(calls[..n], calls[n].pairing, digest, hash);
    LastCallIsOne(calls[..n], calls[n].pairing);
    var prev := LastCall(calls[..n], calls[n].pairing);
    assert calls[n] in calls;
    if prev.Some? {
      assert prev.value in calls;
      FingerprintIsExact(KeysOf(prev.value.buckets.all, digest), KeysOf(calls[n].buckets.all, digest), hash);
    }
  }

  /** The counts of a stored diff add up. */
  lemma CountsAddUp(id: nat, pairing: string, now: int, b: P.Buckets, rows: seq<P.DiffRow>, digest: Digest,
                    hash: string -> string)
    requires P.IsDiff(b, rows)
    ensures var s := SnapshotOf(id, pairing, now, b, digest, hash); s.rowCount == s.dbxOnly + s.fabricOnly + s.inSync
  {
    P.BucketsPartition(b.all);
  }
}
