/**
 The gate around a real apply: approvals (app/services/approvals.py), the audit log (app/services/audit_log.py)
 and the request that ties them to an apply (`apply_view` of app/routers/pairings.py), over sequential requests.
 */
module Gate {
  import opened Optional
  import P = PairDiff
  import Drift
  import opened ApplyRows

  datatype Status = Pending | Approved | Rejected | Executed

  datatype Approval = Approval(pairing: string, direction: Direction, rows: set<string>, status: Status)

  datatype RecordStatus = Started | Blocked | Completed | Partial | Failed

  /** A line of the audit log. */
  datatype Record = Record(id: string, pairing: string, direction: Direction, dryRun: bool, selected: nat,
                           status: RecordStatus)

  /** What happened, in order: lines of the audit log, and calls of `apply_rows` in between. */
  datatype Event =
    | Logged(record: Record)
    | Applied(auditId: string, pairing: string, direction: Direction, dryRun: bool, rows: seq<P.DiffRow>,
              approval: Option<string>, marked: bool)

  /** The approvals table, the audit log with the applies in it, and the mirror of the log in the database. */
  datatype State = State(approvals: map<string, Approval>, trace: seq<Event>, mirror: map<string, Record>)

  /** The numbers of a report. */
  datatype Counts = Counts(ok: nat, skipped: nat, failed: nat)

  /** The live diff, with its errors if any; or an exception, and what the cache holds. */
  datatype DiffAnswer =
    | Computed(buckets: P.Buckets, errors: bool)
    | Raised(cached: Option<P.Buckets>, cachedErrors: bool)

  /** The selected keys, each once, in the order they are gone through. */
  datatype Request = Request(pairing: string, known: bool, direction: Direction, dryRun: bool, selected: seq<string>,
                             approvalId: string)

  /** What the rest of the system does during a request. */
  datatype Environment = Environment(diff: DiffAnswer, newApproval: string, auditId: string, startWritten: bool,
                                     finishWritten: bool,
                                     mirrored: bool, applyRaises: bool, marking: bool, counts: Counts)

  datatype Op =
    | Apply(request: Request, env: Environment)
    | Decide(id: string, approve: bool)

  // ---------------------------------------------------------------- the rows of a request

  /**
   The diff a request works on, unless it is refused: a real apply never works on cached rows or on a diff with errors.
   */
  function Usable(r: Request, e: Environment): Option<P.Buckets> {
    match e.diff
    case Computed(b, errors) => if errors then None else Some(b)
    case Raised(cached, cachedErrors) => if r.dryRun && cached.Some? && !cachedErrors then cached else None
  }

  function Source(b: P.Buckets, direction: Direction): seq<P.DiffRow> {
    if direction == DbxToFabric then b.dbxOnly else b.fabricOnly
  }

  /** `[live_by_key[k] for k in selected if k in live_by_key]` */
  function Picked(selected: seq<string>, live: map<string, P.DiffRow>): seq<P.DiffRow> {
    if selected == [] then []
    else
      var k := selected[|selected| - 1];
      Picked(selected[..|selected| - 1], live) + if k in live then [live[k]] else []
  }

  lemma {:induction false} PickedIsSelection(selected: seq<string>, live: map<string, P.DiffRow>, r: P.DiffRow)
    ensures r in Picked(selected, live) <==> exists k :: k in selected && k in live && live[k] == r
  {
    if selected != [] {
      var n := |selected| - 1;
      PickedIsSelection(selected[..n], live, r);
      assert selected == selected[..n] + [selected[n]];
    }
  }

  lemma {:induction false} ByKeyIsLive(rows: seq<P.DiffRow>, digest: Drift.Digest)
    ensures var live := Drift.ByKey(rows, digest);
            && (forall k :: k in live ==> live[k] in rows && Drift.RowText(live[k].key, digest) == k)
            && (forall r :: r in rows ==> Drift.RowText(r.key, digest) in live)
  {
    if rows != [] {
      var n := |rows| - 1;
      ByKeyIsLive(rows[..n], digest);
      assert rows == rows[..n] + [rows[n]];
    }
  }

  function RowsOf(r: Request, b: P.Buckets, digest: Drift.Digest): seq<P.DiffRow> {
    Picked(r.selected, Drift.ByKey(Source(b, r.direction), digest))
  }

  /** The rows applied are live rows of the source bucket, and among them exactly those selected by key. */
  lemma RowsAreSelectedAndLive(r: Request, b: P.Buckets, digest: Drift.Digest)
    ensures forall row :: row in RowsOf(r, b, digest) ==>
              row in Source(b, r.direction) && Drift.RowText(row.key, digest) in r.selected
    ensures forall row :: row in Source(b, r.direction) && Drift.RowText(row.key, digest) in r.selected ==>
              exists applied :: applied in RowsOf(r, b, digest)
                                && Drift.RowText(applied.key, digest) == Drift.RowText(row.key, digest)
  {
    var live := Drift.ByKey(Source(b, r.direction), digest);
    ByKeyIsLive(Source(b, r.direction), digest);
    forall row
      ensures row in RowsOf(r, b, digest) <==> exists k :: k in r.selected && k in live && live[k] == row
    {
      PickedIsSelection(r.selected, live, row);
    }
    forall row | row in Source(b, r.direction) && Drift.RowText(row.key, digest) in r.selected
      ensures exists applied :: applied in RowsOf(r, b, digest)
                                && Drift.RowText(applied.key, digest) == Drift.RowText(row.key, digest)
    {
      var k := Drift.RowText(row.key, digest);
      assert live[k] in RowsOf(r, b, digest);
    }
  }

  // ---------------------------------------------------------------- one request

  function StatusOf(c: Counts): RecordStatus {
    if c.failed == 0 then Completed else if c.ok > 0 || c.skipped > 0 then Partial else Failed
  }

  /** The approval that backs a real apply. */
  predicate Backs(s: State, r: Request) {
    && r.approvalId != "" && r.approvalId in s.approvals
    && s.approvals[r.approvalId].status == Approved && s.approvals[r.approvalId].pairing == r.pairing
  }

  function Chosen(r: Request): set<string> {
    set k | k in r.selected
  }

  predicate Parked(s: State, r: Request, gated: bool) {
    !r.dryRun && gated && !Backs(s, r)
  }

  function WithRecord(s: State, record: Record, mirrored: bool): State {
    State(s.approvals, s.trace + [Logged(record)], if mirrored then s.mirror[record.id := record] else s.mirror)
  }

  /** `approvals.mark_executed` */
  function MarkExecuted(s: State, id: string): State {
    if id in s.approvals then s.(approvals := s.approvals[id := s.approvals[id].(status := Executed)]) else s
  }

  /** `approvals.decide`: only a pending request is decided. */
  function Decided(s: State, id: string, approve: bool): State {
    if id in s.approvals && s.approvals[id].status == Pending
    then s.(approvals := s.approvals[id := s.approvals[id].(status := if approve then Approved else Rejected)])
    else s
  }

  class Hub {
    var approvals: map<string, Approval>
    var trace: seq<Event>
    var mirror: map<string, Record>

    constructor ()
      ensures View() == State(map[], [], map[])
    {
      approvals, trace, mirror := map[], [], map[];
    }

    function View(): State
      reads this
    {
      State(approvals, trace, mirror)
    }

    method DecideRequest(id: string, approve: bool) returns (done: bool)
      modifies this
      ensures View() == Decided(old(View()), id, approve)
      ensures done <==> old(id in approvals && approvals[id].status == Pending)
    {
      done := id in approvals && approvals[id].status == Pending;
      if done {
        approvals := approvals[id := approvals[id].(status := if approve then Approved else Rejected)];
      }
    }

    method CreateRequest(r: Request, id: string)
      modifies this
      ensures View() == old(View()).(approvals := old(approvals)[id := Approval(r.pairing, r.direction, Chosen(r),
                                                                                Pending)])
    {
      approvals := approvals[id := Approval(r.pairing, r.direction, Chosen(r), Pending)];
    }

    /** `record_permission_apply`: the file first, then the mirror as far as it goes. */
    method WriteRecord(record: Record, mirrored: bool)
      modifies this
      ensures View() == WithRecord(old(View()), record, mirrored)
    {
      trace := trace + [Logged(record)];
      if mirrored {
        mirror := mirror[record.id := record];
      }
    }

    /** `apply_view`, from the validated form to the final record. */
    method ApplyView(r: Request, e: Environment, gated: bool, digest: Drift.Digest)
      modifies this
      ensures View() == AfterApply(old(View()), r, e, gated, digest)
    {
      if !r.known {
        return;
      }
      var note: Option<string> := None;
      if !r.dryRun && gated {
        if !(r.approvalId != "" && r.approvalId in approvals
             && approvals[r.approvalId].status == Approved && approvals[r.approvalId].pairing == r.pairing) {
          CreateRequest(r, e.newApproval);
          return;
        }
        note := Some(r.approvalId);
      }
      var rows, error := LiveRows(r, e, digest);
      RunApply(r, e, gated, note, rows, error, digest);
    }

    /** The rows to apply, and whether the request is refused. */
    method LiveRows(r: Request, e: Environment, digest: Drift.Digest) returns (rows: seq<P.DiffRow>, error: bool)
      ensures rows == Shown(r, e, digest) && error == Usable(r, e).None?
    {
      var buckets := P.Buckets([], [], [], []);
      error := false;
      match e.diff {
        case Computed(b, errors) =>
          buckets := b;
          error := errors;
        case Raised(cached, cachedErrors) =>
          if r.dryRun && cached.Some? {
            buckets := cached.value;
            error := cachedErrors;
          } else {
            error := true;
          }
      }
      rows := RowsOf(r, buckets, digest);
    }

    /** Start record, apply, marking of the approval, final record. */
    method RunApply(r: Request, e: Environment, gated: bool, note: Option<string>, rows: seq<P.DiffRow>, refused: bool,
                    digest: Drift.Digest)
      requires r.known && !Parked(View(), r, gated) && note == Note(r, gated)
      requires rows == Shown(r, e, digest) && refused == Usable(r, e).None?
      modifies this
      ensures View() == AfterApply(old(View()), r, e, gated, digest)
    {
      var error := refused;
      var status := Blocked;
      if !error && !r.dryRun {
        if e.startWritten {
          WriteRecord(Record(e.auditId, r.pairing, r.direction, false, |rows|, Started), e.mirrored);
        } else {
          error := true;
        }
      }
      if !error {
        var marked := note.Some? && !e.applyRaises && e.marking;
        trace := trace + [Applied(e.auditId, r.pairing, r.direction, r.dryRun, rows, note, marked)];
        if e.applyRaises {
          return;
        }
        if marked {
          approvals := approvals[r.approvalId := approvals[r.approvalId].(status := Executed)];
        }
        status := StatusOf(e.counts);
      }
      if e.finishWritten {
        WriteRecord(Record(e.auditId, r.pairing, r.direction, r.dryRun, |rows|, status), e.mirrored);
      }
    }
  }

  // ---------------------------------------------------------------- what a request does to the state

  /** The rows shown for a refused request still count as selected. */
  function Shown(r: Request, e: Environment, digest: Drift.Digest): seq<P.DiffRow> {
    match e.diff
    case Computed(b, _) => RowsOf(r, b, digest)
    case Raised(cached, _) => if r.dryRun && cached.Some? then RowsOf(r, cached.value, digest)
         else RowsOf(r, P.Buckets([], [], [], []), digest)
  }

  predicate Runs(r: Request, e: Environment) {
    Usable(r, e).Some? && (r.dryRun || e.startWritten)
  }

  function Note(r: Request, gated: bool): Option<string> {
    if r.dryRun || !gated then None else Some(r.approvalId)
  }

  function AppliedEvent(r: Request, e: Environment, gated: bool, digest: Drift.Digest): Event {
    Applied(e.auditId, r.pairing, r.direction, r.dryRun, Shown(r, e, digest), Note(r, gated),
            Note(r, gated).Some? && !e.applyRaises && e.marking)
  }

  function StartRecord(r: Request, e: Environment, digest: Drift.Digest): Record {
    Record(e.auditId, r.pairing, r.direction, false, |Shown(r, e, digest)|, Started)
  }

  function AfterStart(s: State, r: Request, e: Environment, digest: Drift.Digest): State {
    if r.dryRun then s else WithRecord(s, StartRecord(r, e, digest), e.mirrored)
  }

  function AfterRun(s: State, r: Request, e: Environment, gated: bool, digest: Drift.Digest): State {
    var applied := AppliedEvent(r, e, gated, digest);
    var t := s.(trace := s.trace + [applied]);
    if applied.marked then MarkExecuted(t, r.approvalId) else t
  }

  function AfterFinish(s: State, r: Request, e: Environment, digest: Drift.Digest, status: RecordStatus): State {
    if e.finishWritten then WithRecord(s, Record(e.auditId, r.pairing, r.direction, r.dryRun, |Shown(r, e, digest)|,
                                                 status), e.mirrored)
    else s
  }

  function AfterApply(s: State, r: Request, e: Environment, gated: bool, digest: Drift.Digest): State {
    if !r.known then s
    else if Parked(s, r, gated) then
      s.(approvals := s.approvals[e.newApproval := Approval(r.pairing, r.direction, Chosen(r), Pending)])
    else if Runs(r, e) then
      var t := AfterRun(AfterStart(s, r, e, digest), r, e, gated, digest);
      if e.applyRaises then t else AfterFinish(t, r, e, digest, StatusOf(e.counts))
    else AfterFinish(s, r, e, digest, Blocked)
  }

  function After(s: State, op: Op, gated: bool, digest: Drift.Digest): State {
    match op
    case Apply(r, e) => AfterApply(s, r, e, gated, digest)
    case Decide(id, approve) => Decided(s, id, approve)
  }

  function AfterAll(s: State, ops: seq<Op>, gated: bool, digest: Drift.Digest): State {
    if ops == [] then s else After(AfterAll(s, ops[..|ops| - 1], gated, digest), ops[|ops| - 1], gated, digest)
  }

  const NOTHING := State(map[], [], map[])

  /** Ids are new when they are made. */
  predicate FreshIds(s: State, op: Op) {
    op.Apply? ==> op.env.newApproval !in s.approvals && forall e :: e in s.trace ==> IdOf(e) != op.env.auditId
  }

  function IdOf(e: Event): string {
    match e case Logged(record) => record.id case Applied(id, _, _, _, _, _, _) => id
  }

  predicate AllFresh(ops: seq<Op>, gated: bool, digest: Drift.Digest) {
    forall i :: 0 <= i < |ops| ==> FreshIds(AfterAll(NOTHING, ops[..i], gated, digest), ops[i])
  }

  // ---------------------------------------------------------------- announced before it happens

  /** Directly before a real apply the log holds its start record. */
  predicate AnnouncedAt(trace: seq<Event>, i: nat)
    requires i < |trace|
  {
    var e := trace[i];
    e.Applied? && !e.dryRun ==>
      i > 0 && trace[i - 1] == Logged(Record(e.auditId, e.pairing, e.direction, false, |e.rows|, Started))
  }

  predicate Announced(trace: seq<Event>) {
    forall i :: 0 <= i < |trace| ==> AnnouncedAt(trace, i)
  }

  lemma AnnouncedLine(trace: seq<Event>, record: Record)
    requires Announced(trace)
    ensures Announced(trace + [Logged(record)])
  {
    var t := trace + [Logged(record)];
    forall i | 0 <= i < |t|
      ensures AnnouncedAt(t, i)
    {
      assert i < |trace| ==> AnnouncedAt(trace, i);
    }
  }

  lemma AnnouncedApply(trace: seq<Event>, e: Event)
    requires Announced(trace) && e.Applied?
    requires !e.dryRun ==> trace != []
    requires !e.dryRun ==>
               trace[|trace| - 1] == Logged(Record(e.auditId, e.pairing, e.direction, false, |e.rows|, Started))
    ensures Announced(trace + [e])
  {
    var t := trace + [e];
    forall i | 0 <= i < |t|
      ensures AnnouncedAt(t, i)
    {
      assert i < |trace| ==> AnnouncedAt(trace, i);
    }
  }

  lemma StepIsAnnounced(s: State, op: Op, gated: bool, digest: Drift.Digest)
    requires Announced(s.trace)
    ensures Announced(After(s, op, gated, digest).trace)
  {
    if op.Apply? && op.request.known && !Parked(s, op.request, gated) {
      var r, e := op.request, op.env;
      var t := s;
      var status := Blocked;
      if Runs(r, e) {
        if !r.dryRun {
          AnnouncedLine(s.trace, StartRecord(r, e, digest));
        }
        AnnouncedApply(AfterStart(s, r, e, digest).trace, AppliedEvent(r, e, gated, digest));
        t := AfterRun(AfterStart(s, r, e, digest), r, e, gated, digest);
        status := StatusOf(e.counts);
      }
      AnnouncedLine(t.trace, Record(e.auditId, r.pairing, r.direction, r.dryRun, |Shown(r, e, digest)|, status));
    }
  }

  /** In every run, each real apply comes directly after a start record with its id, pairing, direction and size. */
  lemma {:induction false} EveryApplyIsAnnounced(ops: seq<Op>, gated: bool, digest: Drift.Digest)
    ensures Announced(AfterAll(NOTHING, ops, gated, digest).trace)
  {
    if ops != [] {
      EveryApplyIsAnnounced(ops[..|ops| - 1], gated, digest);
      StepIsAnnounced(AfterAll(NOTHING, ops[..|ops| - 1], gated, digest), ops[|ops| - 1], gated, digest);
    }
  }

  // ---------------------------------------------------------------- what a request applies

  /** The events of a request that is not parked, in order. */
  function NewEvents(r: Request, e: Environment, gated: bool, digest: Drift.Digest): seq<Event> {
    var start := if Runs(r, e) && !r.dryRun then [Logged(StartRecord(r, e, digest))] else [];
    var applied := if Runs(r, e) then [AppliedEvent(r, e, gated, digest)] else [];
    var status := if Runs(r, e) then StatusOf(e.counts) else Blocked;
    start + applied + if e.finishWritten && !(Runs(r, e) && e.applyRaises)
                      then [Logged(Record(e.auditId, r.pairing, r.direction, r.dryRun, |Shown(r, e, digest)|, status))]
                      else []
  }

  lemma TraceOfApply(s: State, r: Request, e: Environment, gated: bool, digest: Drift.Digest)
    ensures AfterApply(s, r, e, gated, digest).trace ==
              s.trace + if r.known && !Parked(s, r, gated) then NewEvents(r, e, gated, digest) else []
  {
  }

  /**
   A request appends at most one real apply, and only on a live diff without errors, on the selected rows, behind the
   gate.
   */
  lemma AppliesAreLiveSelectedAndBacked(s: State, op: Op, gated: bool, digest: Drift.Digest, i: nat)
    requires var t := After(s, op, gated, digest).trace; |s.trace| <= i < |t| && t[i].Applied? && !t[i].dryRun
    ensures op.Apply? && op.request.known && !op.request.dryRun
    ensures op.env.diff.Computed? && !op.env.diff.errors
    ensures var t := After(s, op, gated, digest).trace;
            && t[i].pairing == op.request.pairing && t[i].direction == op.request.direction
            && (forall row :: row in t[i].rows ==> row in Source(op.env.diff.buckets, op.request.direction)
                                                   && Drift.RowText(row.key, digest) in op.request.selected)
            && (gated ==> t[i].approval == Some(op.request.approvalId) && Backs(s, op.request))
            && forall j :: |s.trace| <= j < |t| && t[j].Applied? ==> j == i
  {
    if op.Apply? {
      TraceOfApply(s, op.request, op.env, gated, digest);
      NewApply(op.request, op.env, gated, digest, i - |s.trace|);
    }
  }

  lemma NewApply(r: Request, e: Environment, gated: bool, digest: Drift.Digest, i: nat)
    ensures var t := NewEvents(r, e, gated, digest);
            i < |t| && t[i].Applied? ==>
              (t[i] == AppliedEvent(r, e, gated, digest) && Runs(r, e)
               && forall j :: 0 <= j < |t| && t[j].Applied? ==> j == i)
    ensures Runs(r, e) && !r.dryRun ==>
              && e.diff.Computed? && !e.diff.errors
              && forall row :: row in Shown(r, e, digest) ==>
                   row in Source(e.diff.buckets, r.direction) && Drift.RowText(row.key, digest) in r.selected
  {
    if e.diff.Computed? {
      RowsAreSelectedAndLive(r, e.diff.buckets, digest);
    }
  }

  /** The trace only grows. */
  lemma {:induction false} TraceGrows(s: State, ops: seq<Op>, gated: bool, digest: Drift.Digest)
    ensures s.trace <= AfterAll(s, ops, gated, digest).trace
  {
    if ops != [] {
      TraceGrows(s, ops[..|ops| - 1], gated, digest);
    }
  }

  // ---------------------------------------------------------------- how approvals move

  predicate Moves(from: Status, to: Status) {
    from == to || (from == Pending && (to == Approved || to == Rejected)) || (from == Approved && to == Executed)
  }

  /** One step keeps every request, moves its status forward at most, and adds only pending ones. */
  lemma StatusMovesForward(s: State, op: Op, gated: bool, digest: Drift.Digest, id: string)
    requires FreshIds(s, op)
    ensures var t := After(s, op, gated, digest);
            && (id in s.approvals ==> id in t.approvals && Moves(s.approvals[id].status, t.approvals[id].status)
                                      && t.approvals[id].(status := s.approvals[id].status) == s.approvals[id])
            && (id !in s.approvals && id in t.approvals ==> t.approvals[id].status == Pending)
  {
  }

  predicate Final(status: Status) { status == Rejected || status == Executed }

  predicate Settled(s: State, id: string) { id in s.approvals && Final(s.approvals[id].status) }

  predicate SameRequest(s: State, t: State, id: string)
    requires id in s.approvals
  {
    id in t.approvals && t.approvals[id] == s.approvals[id]
  }

  lemma FinalStep(s: State, op: Op, gated: bool, digest: Drift.Digest, id: string)
    requires FreshIds(s, op) && Settled(s, id)
    ensures SameRequest(s, After(s, op, gated, digest), id)
  {
    StatusMovesForward(s, op, gated, digest, id);
  }

  lemma FinalOneMore(ops: seq<Op>, gated: bool, digest: Drift.Digest, s: State, id: string)
    requires ops != [] && Settled(s, id)
    requires var before := AfterAll(NOTHING, ops[..|ops| - 1], gated, digest);
             SameRequest(s, before, id) && FreshIds(before, ops[|ops| - 1])
    ensures SameRequest(s, AfterAll(NOTHING, ops, gated, digest), id)
  {
    FinalStep(AfterAll(NOTHING, ops[..|ops| - 1], gated, digest), ops[|ops| - 1], gated, digest, id);
  }

  lemma {:induction false} FinalUpTo(ops: seq<Op>, gated: bool, digest: Drift.Digest, n: nat, m: nat, id: string)
    requires AllFresh(ops, gated, digest) && n <= m <= |ops|
    requires Settled(AfterAll(NOTHING, ops[..n], gated, digest), id)
    ensures SameRequest(AfterAll(NOTHING, ops[..n], gated, digest), AfterAll(NOTHING, ops[..m], gated, digest), id)
  {
    if n < m {
      FinalUpTo(ops, gated, digest, n, m - 1, id);
      assert FreshIds(AfterAll(NOTHING, ops[..m - 1], gated, digest), ops[m - 1]);
      assert ops[..m][..m - 1] == ops[..m - 1];
      FinalOneMore(ops[..m], gated, digest, AfterAll(NOTHING, ops[..n], gated, digest), id);
    }
  }

  /** A rejected or executed request stays as it is for the rest of the run. */
  lemma FinalStays(ops: seq<Op>, gated: bool, digest: Drift.Digest, n: nat, id: string)
    requires AllFresh(ops, gated, digest) && n <= |ops|
    requires Settled(AfterAll(NOTHING, ops[..n], gated, digest), id)
    ensures SameRequest(AfterAll(NOTHING, ops[..n], gated, digest), AfterAll(NOTHING, ops, gated, digest), id)
  {
    FinalUpTo(ops, gated, digest, n, |ops|, id);
    assert ops[..|ops|] == ops;
  }

  lemma FreshPrefix(ops: seq<Op>, gated: bool, digest: Drift.Digest)
    requires AllFresh(ops, gated, digest) && ops != []
    ensures AllFresh(ops[..|ops| - 1], gated, digest)
    ensures FreshIds(AfterAll(NOTHING, ops[..|ops| - 1], gated, digest), ops[|ops| - 1])
  {
    var n := |ops| - 1;
    forall i | 0 <= i < n
      ensures FreshIds(AfterAll(NOTHING, ops[..n][..i], gated, digest), ops[..n][i])
    {
      assert ops[..n][..i] == ops[..i];
    }
  }

  predicate WasApproved(s: State, id: string) {
    id in s.approvals && (s.approvals[id].status == Approved || s.approvals[id].status == Executed)
  }

  /** Only a decision approves. */
  lemma ApprovedByDecision(s: State, op: Op, gated: bool, digest: Drift.Digest, id: string)
    requires FreshIds(s, op) && !WasApproved(s, id) && WasApproved(After(s, op, gated, digest), id)
    ensures op == Decide(id, true)
  {
    match op
    case Apply(r, e) =>
      StatusMovesForward(s, op, gated, digest, id);
      ApplyNeverApproves(s, r, e, gated, digest, id);
    case Decide(other, approve) =>
  }

  lemma ApplyNeverApproves(s: State, r: Request, e: Environment, gated: bool, digest: Drift.Digest, id: string)
    requires id in AfterApply(s, r, e, gated, digest).approvals
    ensures var t := AfterApply(s, r, e, gated, digest);
            t.approvals[id].status == Pending || WasApproved(s, id)
            || (id in s.approvals && t.approvals[id] == s.approvals[id])
  {
  }

  /** Every approved or executed request was approved by a decision in the run. */
  lemma {:induction false} ApprovedWasDecided(ops: seq<Op>, gated: bool, digest: Drift.Digest, id: string)
    requires AllFresh(ops, gated, digest) && WasApproved(AfterAll(NOTHING, ops, gated, digest), id)
    ensures Decide(id, true) in ops
  {
    if ops != [] {
      var last := |ops| - 1;
      var before := AfterAll(NOTHING, ops[..last], gated, digest);
      FreshPrefix(ops, gated, digest);
      if WasApproved(before, id) {
        ApprovedWasDecided(ops[..last], gated, digest, id);
      } else {
        ApprovedByDecision(before, ops[last], gated, digest, id);
      }
    }
  }

  // ---------------------------------------------------------------- one approval, one apply

  predicate BackedBy(e: Event, id: string) { e.Applied? && e.approval == Some(id) }

  /** A marked apply is the last one its approval backs, and leaves it executed. */
  predicate UsedUp(s: State, id: string) {
    && (forall i, j :: 0 <= i < j < |s.trace| && BackedBy(s.trace[i], id) && BackedBy(s.trace[j], id) ==>
          !s.trace[i].marked)
    && (forall e :: e in s.trace && BackedBy(e, id) ==> id in s.approvals)
    && (forall e :: e in s.trace && BackedBy(e, id) && e.marked ==> s.approvals[id].status == Executed)
  }

  /** Only lines were added. */
  lemma UsedUpLine(s: State, id: string, record: Record, mirrored: bool)
    requires UsedUp(s, id)
    ensures UsedUp(WithRecord(s, record, mirrored), id)
  {
  }

  lemma UsedUpApply(s: State, r: Request, e: Environment, gated: bool, digest: Drift.Digest, id: string)
    requires UsedUp(s, id) && (Note(r, gated).Some? ==> Backs(s, r))
    ensures UsedUp(AfterRun(s, r, e, gated, digest), id)
  {
    var applied := AppliedEvent(r, e, gated, digest);
    var t := AfterRun(s, r, e, gated, digest);
    assert t.trace == s.trace + [applied];
    if BackedBy(applied, id) {
      assert s.approvals[id].status == Approved;
      assert forall f :: f in s.trace && BackedBy(f, id) ==> !f.marked;
    }
  }

  lemma UsedUpStep(s: State, op: Op, gated: bool, digest: Drift.Digest, id: string)
    requires UsedUp(s, id) && FreshIds(s, op)
    ensures UsedUp(After(s, op, gated, digest), id)
  {
    if op.Apply? && op.request.known && !Parked(s, op.request, gated) {
      var r, e := op.request, op.env;
      var t := s;
      var status := Blocked;
      if Runs(r, e) {
        if !r.dryRun {
          UsedUpLine(s, id, StartRecord(r, e, digest), e.mirrored);
        }
        UsedUpApply(AfterStart(s, r, e, digest), r, e, gated, digest, id);
        t := AfterRun(AfterStart(s, r, e, digest), r, e, gated, digest);
        status := StatusOf(e.counts);
      }
      UsedUpLine(t, id, Record(e.auditId, r.pairing, r.direction, r.dryRun, |Shown(r, e, digest)|, status), e.mirrored);
    }
  }

  /**
   In every run, an approval backs a second apply only if marking the first one failed (or that apply raised):
   where every marking succeeds, one approval backs at most one apply.
   */
  lemma {:induction false} OneApplyPerApproval(ops: seq<Op>, gated: bool, digest: Drift.Digest, id: string)
    requires AllFresh(ops, gated, digest)
    ensures UsedUp(AfterAll(NOTHING, ops, gated, digest), id)
  {
    if ops != [] {
      FreshPrefix(ops, gated, digest);
      OneApplyPerApproval(ops[..|ops| - 1], gated, digest, id);
      UsedUpStep(AfterAll(NOTHING, ops[..|ops| - 1], gated, digest), ops[|ops| - 1], gated, digest, id);
    }
  }

  /**
   With the gate closed to unapproved requests, every real apply of a run names an approval that a decision granted.
   */
  lemma {:induction false} EveryApplyWasDecided(ops: seq<Op>, digest: Drift.Digest, i: nat)
    requires AllFresh(ops, true, digest)
    requires var t := AfterAll(NOTHING, ops, true, digest).trace; i < |t| && t[i].Applied? && !t[i].dryRun
    ensures var s := AfterAll(NOTHING, ops, true, digest);
            && s.trace[i].approval.Some?
            && var id := s.trace[i].approval.value;
               Decide(id, true) in ops && id in s.approvals && s.approvals[id].pairing == s.trace[i].pairing
  {
    if ops != [] {
      var last := |ops| - 1;
      var before := AfterAll(NOTHING, ops[..last], true, digest);
      FreshPrefix(ops, true, digest);
      assert ops == ops[..last] + [ops[last]];
      if i < |before.trace| {
        assert AfterAll(NOTHING, ops, true, digest).trace[i] == before.trace[i] by {
          TraceGrows(before, [ops[last]], true, digest);
        }
        EveryApplyWasDecided(ops[..last], digest, i);
        StatusMovesForward(before, ops[last], true, digest, before.trace[i].approval.value);
      } else {
        AppliesAreLiveSelectedAndBacked(before, ops[last], true, digest, i);
        var id := ops[last].request.approvalId;
        ApprovedWasDecided(ops[..last], true, digest, id);
        StatusMovesForward(before, ops[last], true, digest, id);
      }
    }
  }

  /** Some event from n on is an apply. */
  predicate AppliesFrom(trace: seq<Event>, n: nat) {
    exists i :: n <= i < |trace| && trace[i].Applied?
  }

  /**
   Behind the gate, a real request for a known pairing makes an apply if and only if its approval is approved and of
   the same pairing, and the diff is live, without errors, and announced in the log. Neither the direction nor the
   rows that the approval was asked for occur in this condition.
   */
  lemma RealApplyExactly(s: State, r: Request, e: Environment, digest: Drift.Digest)
    requires r.known && !r.dryRun
    ensures AppliesFrom(AfterApply(s, r, e, true, digest).trace, |s.trace|) <==> Backs(s, r) && Runs(r, e)
  {
    var t := AfterApply(s, r, e, true, digest).trace;
    TraceOfApply(s, r, e, true, digest);
    if Backs(s, r) && Runs(r, e) {
      assert t[|s.trace| + 1] == AppliedEvent(r, e, true, digest);
    }
  }

  /** A request for approval, its decision, and the request that uses the approval. */
  function Misuse(row: P.DiffRow, digest: Drift.Digest): seq<Op> {
    var diff := Computed(P.Buckets([row], [], [row], []), false);
    [Apply(Request("p", true, DbxToFabric, false, [], ""),
           Environment(diff, "a", "1", true, true, true, false, true, Counts(0, 0, 0))),
     Decide("a", true),
     Apply(Request("p", true, FabricToDbx, false, [Drift.RowText(row.key, digest)], "a"),
           Environment(diff, "b", "2", true, true, true, false, true, Counts(1, 0, 0)))]
  }

  lemma AfterThree(a: Op, b: Op, c: Op, digest: Drift.Digest)
    ensures AfterAll(NOTHING, [], true, digest) == NOTHING
    ensures AfterAll(NOTHING, [a], true, digest) == After(NOTHING, a, true, digest)
    ensures AfterAll(NOTHING, [a, b], true, digest) == After(After(NOTHING, a, true, digest), b, true, digest)
    ensures AfterAll(NOTHING, [a, b, c], true, digest) ==
              After(AfterAll(NOTHING, [a, b], true, digest), c, true, digest)
  {
    assert [a][..0] == [] && [a, b][..1] == [a] && [a, b, c][..2] == [a, b];
  }

  lemma PickedOne(row: P.DiffRow, digest: Drift.Digest)
    ensures var k := Drift.RowText(row.key, digest); Picked([k], Drift.ByKey([row], digest)) == [row]
  {
    var k := Drift.RowText(row.key, digest);
    assert [row][..0] == [] && [k][..0] == [];
    assert Drift.ByKey([row], digest) == map[k := row];
  }

  /** The approval after the request for it, and after its decision. */
  function MisuseState(status: Status): State {
    State(map["a" := Approval("p", DbxToFabric, {}, status)], [], map[])
  }

  lemma MisuseBegins(row: P.DiffRow, digest: Drift.Digest)
    ensures var ops := Misuse(row, digest);
            && FreshIds(NOTHING, ops[0]) && After(NOTHING, ops[0], true, digest) == MisuseState(Pending)
            && FreshIds(MisuseState(Pending), ops[1])
            && After(MisuseState(Pending), ops[1], true, digest) == MisuseState(Approved)
  {
    assert Chosen(Misuse(row, digest)[0].request) == {};
  }

  lemma MisuseIsFresh(row: P.DiffRow, digest: Drift.Digest)
    ensures FreshIds(MisuseState(Approved), Misuse(row, digest)[2])
  {
  }

  lemma MisuseEnds(row: P.DiffRow, digest: Drift.Digest)
    ensures var t := After(MisuseState(Approved), Misuse(row, digest)[2], true, digest).trace;
            |t| == 3 && t[1] == Applied("2", "p", FabricToDbx, false, [row], Some("a"), true)
  {
    var op := Misuse(row, digest)[2];
    PickedOne(row, digest);
    TraceOfApply(MisuseState(Approved), op.request, op.env, true, digest);
  }

  /**
   What the gate does not promise, as a run from the start: an approval asked for in one direction and for no row
   backs an apply of a row in the other.
   */
  lemma ApprovalIsNotTiedToRows(digest: Drift.Digest, row: P.DiffRow)
    ensures AllFresh(Misuse(row, digest), true, digest)
    ensures AfterAll(NOTHING, Misuse(row, digest)[..1], true, digest).approvals ==
              map["a" := Approval("p", DbxToFabric, {}, Pending)]
    ensures var t := AfterAll(NOTHING, Misuse(row, digest), true, digest).trace;
            |t| == 3 && t[1] == Applied("2", "p", FabricToDbx, false, [row], Some("a"), true)
  {
    var ops := Misuse(row, digest);
    AfterThree(ops[0], ops[1], ops[2], digest);
    MisuseBegins(row, digest);
    MisuseIsFresh(row, digest);
    MisuseEnds(row, digest);
    assert ops[..0] == [] && ops[..1] == [ops[0]] && ops[..2] == [ops[0], ops[1]] && ops == [ops[0], ops[1], ops[2]];
  }
}
