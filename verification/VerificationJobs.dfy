/** The life of an audit verification job: guarded SQL updates driven by racing deliveries, retries,
    a lazy stale-reconciler, an error handler and an unguarded completion. */
module VerificationJobs {
  import opened Outcomes
  import opened EntryText
  import opened AuditChain

  datatype Status = QUEUED | RUNNING | VERIFIED | INTEGRITY_FAILURE | FAILED

  /** One row of audit_verifications; times are whole seconds of one clock. */
  datatype Job = Job(
    status: Status, entriesChecked: nat, totalEntries: Option<nat>, lastSeqChecked: Option<nat>,
    failedEntryID: Option<Uuid>, failedSeq: Option<nat>, failureType: Option<string>, failureReason: Option<string>,
    startedAt: Option<nat>, completedAt: Option<nat>, createdAt: nat, updatedAt: nat)

  type JobId = nat

  type Table = map<JobId, Job>

  predicate Active(j: Job) {
    j.status == QUEUED || j.status == RUNNING
  }

  function Rank(status: Status): nat {
    match status
    case QUEUED => 0
    case RUNNING => 1
    case _ => 2
  }

  // ---- the constraints of the table ----

  predicate FailureFieldsEmpty(j: Job) {
    j.failedEntryID.None? && j.failedSeq.None? && j.failureType.None? && j.failureReason.None?
  }

  /** The lifecycle_timestamps and failure_fields CHECK constraints. */
  predicate Checks(j: Job) {
    && match j.status {
         case QUEUED => j.startedAt.None? && j.completedAt.None?
         case RUNNING => j.startedAt.Some? && j.completedAt.None?
         case FAILED => j.completedAt.Some?
         case _ => j.startedAt.Some? && j.completedAt.Some?
       }
    && if j.status == INTEGRITY_FAILURE || j.status == FAILED then j.failureType.Some? else FailureFieldsEmpty(j)
  }

  /** idx_audit_verifications_single_active. */
  predicate SingleActive(t: Table) {
    forall i, j :: i in t && j in t && Active(t[i]) && Active(t[j]) ==> i == j
  }

  predicate Sound(t: Table) {
    SingleActive(t) && forall id :: id in t ==> Checks(t[id])
  }

  // ---- the statements ----

  datatype DbError = NoRows | UniqueViolation | CheckViolation

  datatype Write = Write(table: Table, result: Result<Job, DbError>)

  datatype CompleteParams = CompleteParams(
    status: Status, entriesChecked: nat, failedEntryID: Option<Uuid>, failedSeq: Option<nat>,
    failureType: Option<string>, failureReason: Option<string>)

  function NewJob(now: nat): Job {
    Job(QUEUED, 0, None, None, None, None, None, None, None, None, now, now)
  }

  predicate OtherActive(t: Table, id: JobId) {
    exists i :: i in t && i != id && Active(t[i])
  }

  /** Stores a row unless a constraint refuses it, in which case the statement fails. */
  function Store(t: Table, id: JobId, j: Job): Write {
    if !Checks(j) then Write(t, Err(CheckViolation))
    else if Active(j) && OtherActive(t, id) then Write(t, Err(UniqueViolation))
    else Write(t[id := j], Ok(j))
  }

  function Create(t: Table, id: JobId, now: nat): Write {
    if id in t then Write(t, Err(UniqueViolation)) else Store(t, id, NewJob(now))
  }

  function MarkRunning(t: Table, id: JobId, total: nat, now: nat): Write {
    if id !in t || t[id].status != QUEUED then Write(t, Err(NoRows))
    else Store(t, id, t[id].(status := RUNNING, startedAt := Some(now), totalEntries := Some(total), updatedAt := now))
  }

  /** The wording of failure reasons is not modelled. */
  const REASON := "reason"

  function MarkStale(t: Table, id: JobId, now: nat): Write {
    if id !in t || !Active(t[id]) then Write(t, Err(NoRows))
    else Store(t, id, t[id].(status := FAILED, failureType := Some("STALE_TIMEOUT"), failureReason := Some(REASON),
                             completedAt := Some(now), updatedAt := now))
  }

  function UpdateProgress(t: Table, id: JobId, checked: nat, lastSeq: nat, now: nat): Write {
    if id !in t || t[id].status != RUNNING then Write(t, Err(NoRows))
    else Store(t, id, t[id].(entriesChecked := checked, lastSeqChecked := Some(lastSeq), updatedAt := now))
  }

  /** The one UPDATE without a status guard. */
  function Complete(t: Table, id: JobId, p: CompleteParams, now: nat): Write {
    if id !in t then Write(t, Err(NoRows))
    else Store(t, id, t[id].(
      status := p.status, entriesChecked := p.entriesChecked, failedEntryID := p.failedEntryID, failedSeq := p.failedSeq,
      failureType := p.failureType, failureReason := p.failureReason, completedAt := Some(now), updatedAt := now))
  }

  /** `u` keeps every row of `t`, lowers no rank and forgets no start. */
  predicate Advances(t: Table, u: Table) {
    forall id :: id in t ==> id in u && Rank(t[id].status) <= Rank(u[id].status) && (t[id].startedAt.Some? ==> u[id].startedAt.Some?)
  }

  lemma StoreSound(t: Table, id: JobId, j: Job)
    requires Sound(t)
    ensures Sound(Store(t, id, j).table)
  {}

  // ---- reading ----

  const STALE_QUEUED_THRESHOLD: nat := 300
  const STALE_RUNNING_THRESHOLD: nat := 120

  /** Terminal, or updated within its threshold at time `at`. */
  predicate Current(j: Job, at: nat) {
    Active(j) ==> at < j.updatedAt + if j.status == QUEUED then STALE_QUEUED_THRESHOLD else STALE_RUNNING_THRESHOLD
  }

  /** The table as the service holds it: each method is one SQL statement or one read path over them. */
  class VerificationTable {
    var rows: Table

    constructor ()
      ensures rows == map[] && Sound(rows)
    {
      rows := map[];
    }

    /** Starts a job, or finds the one that is already queued or running. */
    method StartVerification(id: JobId, now: nat) returns (active: JobId, createdNew: bool)
      requires Sound(rows) && id !in rows
      modifies this
      ensures Sound(rows) && active in rows && Active(rows[active])
      ensures createdNew <==> forall i :: i in old(rows) ==> !Active(old(rows)[i])
      ensures rows == if createdNew then old(rows)[active := Job(QUEUED, 0, None, None, None, None, None, None, None, None, now, now)] else old(rows)
      ensures createdNew ==> active == id
    {
      if OtherActive(rows, id) {
        active :| active in rows && Active(rows[active]);
        return active, false;
      }
      StoreSound(rows, id, NewJob(now));
      rows := rows[id := NewJob(now)];
      return id, true;
    }

    method UpdateStale(id: JobId, now: nat) returns (r: Result<Job, DbError>)
      requires Sound(rows)
      modifies this
      ensures Sound(rows) && Write(rows, r) == MarkStale(old(rows), id, now)
      ensures r.Ok? <==> id in old(rows) && (old(rows)[id].status == QUEUED || old(rows)[id].status == RUNNING)
      ensures r.Err? ==> rows == old(rows) && r.error == NoRows
      ensures r.Ok? ==> rows == old(rows)[id := r.value] && r.value == old(rows)[id].(
        status := FAILED, failureType := Some("STALE_TIMEOUT"), failureReason := Some(REASON), completedAt := Some(now), updatedAt := now)
    {
      if id !in rows || !Active(rows[id]) {
        return Err(NoRows);
      }
      StoreSound(rows, id, MarkStale(rows, id, now).table[id]);
      var j := rows[id].(status := FAILED, failureType := Some("STALE_TIMEOUT"), failureReason := Some(REASON),
                         completedAt := Some(now), updatedAt := now);
      rows := rows[id := j];
      r := Ok(j);
    }

    /** `row` was read from this table a moment ago; meanwhile other sessions may have advanced it. */
    method ReconcileStale(id: JobId, row: Job, now: nat) returns (r: Job)
      requires Sound(rows) && id in rows && Rank(row.status) <= Rank(rows[id].status)
      modifies this
      ensures Sound(rows) && Advances(old(rows), rows)
      ensures Current(r, now)
      ensures (r.status == QUEUED ==> now < r.updatedAt + 300) && (r.status == RUNNING ==> now < r.updatedAt + 120)
      ensures Current(row, now) ==> r == row && rows == old(rows)
      ensures !Current(row, now) ==> !Active(r) && rows == old(rows)[id := r]
      ensures !Current(row, now) && !Active(old(rows)[id]) ==> r == old(rows)[id]
    {
      if !Active(row) {
        return row;
      }
      var threshold := STALE_RUNNING_THRESHOLD;
      if row.status == QUEUED {
        threshold := STALE_QUEUED_THRESHOLD;
      }
      if now < row.updatedAt + threshold {
        return row;
      }
      var updated := UpdateStale(id, now);
      if updated.Err? {
        assert rows == old(rows)[id := rows[id]];
        return rows[id];
      }
      r := updated.value;
    }
  }

  // ---- deliveries ----

  const VERIFY_AUDIT_CHAIN_MAX_RETRY: nat := 3

  /** One delivery of a task: RunVerification, then the error handler if it failed. */
  datatype Phase =
    | Counting
    | Counted(total: nat)
    | Scanning(checked: nat)
    | Scanned(checked: nat, failure: Option<BatchResult>)
    | Erred
    | SawActive(checked: nat)
    | Done

  /** `ran` records that this delivery moved its job to RUNNING. */
  datatype Delivery = Delivery(id: JobId, retried: nat, ran: bool, phase: Phase)

  /** One read: GetByID, the age test, MarkStale, and the re-read if that matched no row. */
  datatype Reader =
    | HasRow(id: JobId, row: Job)
    | Stale(id: JobId)
    | Missed(id: JobId)
    | Returned(row: Job, at: nat)

  /** One call of StartVerification: its INSERT, and after a conflict the read of the active job. */
  datatype Request =
    | Refused
    | Started(id: JobId)
    | Found(id: JobId)
    | Failed

  datatype System = System(
    now: nat, table: Table, deliveries: map<nat, Delivery>, readers: map<nat, Reader>, requests: map<nat, Request>)

  datatype Action =
    | Tick(d: nat)
    | Start(q: nat, id: JobId)
    | FindActive(q: nat, id: JobId)
    | FindNone(q: nat)
    | Deliver(d: nat, id: JobId, retried: nat)
    | Count(d: nat, total: nat)
    | Begin(d: nat)
    | Progress(d: nat, checked: nat, lastSeq: nat)
    | Finish(d: nat, failure: Option<BatchResult>)
    | Persist(d: nat)
    | Error(d: nat)
    | HandlerRead(d: nat)
    | HandlerComplete(d: nat, timedOut: bool)
    | Crash(d: nat)
    | Read(r: nat, id: JobId)
    | Age(r: nat)
    | Reconcile(r: nat)
    | Reread(r: nat)

  const FAILURE_TYPES := {"GENESIS_INVALID", "PREVIOUS_HASH_MISMATCH", "CANONICALIZATION_ERROR", "ENTRY_HASH_MISMATCH"}

  /** What verifyBatches can hand to completeVerification. */
  predicate Verdict(failure: Option<BatchResult>) {
    failure.Some? ==> !failure.value.ok && failure.value.failureType in FAILURE_TYPES
  }

  lemma ReportsAreVerdicts(lib: Library, rows: seq<Row>, prev: Option<Digest>, r: BatchResult)
    requires Reports(lib, rows, prev, r)
    ensures Verdict(if r.ok then None else Some(r))
  {
    hide GoodRow;
  }

  function CompletionOf(checked: nat, failure: Option<BatchResult>): CompleteParams {
    if failure.None? then CompleteParams(VERIFIED, checked, None, None, None, None)
    else
      var f := failure.value;
      CompleteParams(INTEGRITY_FAILURE, checked, f.failedEntryID, f.failedSeq,
                     if f.failureType == "" then None else Some(f.failureType), Some(REASON))
  }

  function OperationalFailure(checked: nat, timedOut: bool): CompleteParams {
    CompleteParams(FAILED, checked, None, None, Some(if timedOut then "TIMEOUT" else "DATABASE_ERROR"),
                   Some(REASON))
  }

  predicate RetriesExhausted(retried: nat) {
    retried >= VERIFY_AUDIT_CHAIN_MAX_RETRY
  }

  function SetPhase(s: System, d: nat, p: Phase): System
    requires d in s.deliveries
  {
    s.(deliveries := s.deliveries[d := s.deliveries[d].(phase := p)])
  }

  /** A statement's outcome: on success the delivery goes on, on an error it has failed. */
  function After(s: System, d: nat, w: Write, next: Delivery): System
    requires d in s.deliveries
  {
    if w.result.Ok? then s.(table := w.table, deliveries := s.deliveries[d := next]) else SetPhase(s, d, Erred)
  }

  function DoBegin(s: System, d: nat): System {
    if d !in s.deliveries || !s.deliveries[d].phase.Counted? then s
    else
      var me := s.deliveries[d];
      var w := MarkRunning(s.table, me.id, me.phase.total, s.now);
      if w.result == Err(NoRows) then SetPhase(s, d, Done)
      else After(s, d, w, me.(ran := true, phase := Scanning(0)))
  }

  /** UpdateProgress is an :exec, so matching no row is not an error. */
  function DoProgress(s: System, d: nat, checked: nat, lastSeq: nat): System {
    if d !in s.deliveries || !s.deliveries[d].phase.Scanning? then s
    else
      var me := s.deliveries[d];
      var w := UpdateProgress(s.table, me.id, checked, lastSeq, s.now);
      if w.result == Err(NoRows) then SetPhase(s, d, Scanning(checked)) else After(s, d, w, me.(phase := Scanning(checked)))
  }

  function DoPersist(s: System, d: nat): System {
    if d !in s.deliveries || !s.deliveries[d].phase.Scanned? then s
    else
      var me := s.deliveries[d];
      After(s, d, Complete(s.table, me.id, CompletionOf(me.phase.checked, me.phase.failure), s.now), me.(phase := Done))
  }

  function DoHandlerRead(s: System, d: nat): System {
    if d !in s.deliveries || !s.deliveries[d].phase.Erred? || !RetriesExhausted(s.deliveries[d].retried) then s
    else
      var id := s.deliveries[d].id;
      if id in s.table && Active(s.table[id]) then SetPhase(s, d, SawActive(s.table[id].entriesChecked)) else SetPhase(s, d, Done)
  }

  function DoHandlerComplete(s: System, d: nat, timedOut: bool): System {
    if d !in s.deliveries || !s.deliveries[d].phase.SawActive? then s
    else
      var me := s.deliveries[d];
      var w := Complete(s.table, me.id, OperationalFailure(me.phase.checked, timedOut), s.now);
      if w.result.Ok? then s.(table := w.table, deliveries := s.deliveries[d := me.(phase := Done)]) else SetPhase(s, d, Done)
  }

  /** A task is delivered first with retry count 0, and with a count one higher once an earlier delivery has failed or
      its worker's lease has lapsed; any delivery may be repeated. */
  predicate Due(s: System, id: JobId, retried: nat) {
    retried == 0 || exists d :: d in s.deliveries && s.deliveries[d].id == id && s.deliveries[d].retried + 1 == retried
  }

  /** StartVerification; a fresh UUID never names an existing row, and GetActive runs in its own transaction. */
  function DoRequest(s: System, a: Action): System {
    match a
    case Start(q, id) =>
      if q in s.requests || id in s.table then s
      else
        var w := Create(s.table, id, s.now);
        s.(table := w.table, requests := s.requests[q := if w.result.Ok? then Started(id) else Refused])
    case FindActive(q, id) =>
      if q in s.requests && s.requests[q].Refused? && id in s.table && Active(s.table[id]) then
        s.(requests := s.requests[q := Found(id)])
      else s
    case FindNone(q) =>
      if q in s.requests && s.requests[q].Refused? && !AnyActive(s.table) then s.(requests := s.requests[q := Failed]) else s
    case _ => s
  }

  predicate AnyActive(t: Table) {
    exists id :: id in t && Active(t[id])
  }

  /** Steps of a delivery that touch no table. */
  function DoQuiet(s: System, a: Action): System {
    match a
    case Deliver(d, id, retried) =>
      if d in s.deliveries || id !in s.table || !Due(s, id, retried) then s
      else s.(deliveries := s.deliveries[d := Delivery(id, retried, false, Counting)])
    case Count(d, total) => if d in s.deliveries && s.deliveries[d].phase.Counting? then SetPhase(s, d, Counted(total)) else s
    case Finish(d, failure) =>
      if d in s.deliveries && s.deliveries[d].phase.Scanning? && Verdict(failure)
      then SetPhase(s, d, Scanned(s.deliveries[d].phase.checked, failure)) else s
    case Error(d) =>
      if d in s.deliveries && (var p := s.deliveries[d].phase; p.Counting? || p.Counted? || p.Scanning? || p.Scanned?)
      then SetPhase(s, d, Erred) else s
    case Crash(d) => if d in s.deliveries then SetPhase(s, d, Done) else s
    case _ => s
  }

  function DoRead(s: System, a: Action): System {
    match a
    case Read(r, id) => if id in s.table then s.(readers := s.readers[r := HasRow(id, s.table[id])]) else s
    case Age(r) =>
      if r in s.readers && s.readers[r].HasRow? then
        var row := s.readers[r].row;
        s.(readers := s.readers[r := if Current(row, s.now) then Returned(row, s.now) else Stale(s.readers[r].id)])
      else s
    case Reconcile(r) =>
      if r in s.readers && s.readers[r].Stale? then
        var w := MarkStale(s.table, s.readers[r].id, s.now);
        s.(table := w.table, readers := s.readers[r := if w.result.Ok? then Returned(w.result.value, s.now) else Missed(s.readers[r].id)])
      else s
    case Reread(r) =>
      if r in s.readers && s.readers[r].Missed? && s.readers[r].id in s.table then
        s.(readers := s.readers[r := Returned(s.table[s.readers[r].id], s.now)])
      else s
    case _ => s
  }

  function Step(s: System, a: Action): System {
    match a
    case Tick(d) => s.(now := s.now + d)
    case Start(_, _) => DoRequest(s, a)
    case FindActive(_, _) => DoRequest(s, a)
    case FindNone(_) => DoRequest(s, a)
    case Begin(d) => DoBegin(s, d)
    case Progress(d, checked, lastSeq) => DoProgress(s, d, checked, lastSeq)
    case Persist(d) => DoPersist(s, d)
    case HandlerRead(d) => DoHandlerRead(s, d)
    case HandlerComplete(d, timedOut) => DoHandlerComplete(s, d, timedOut)
    case Read(_, _) => DoRead(s, a)
    case Age(_) => DoRead(s, a)
    case Reconcile(_) => DoRead(s, a)
    case Reread(_) => DoRead(s, a)
    case _ => DoQuiet(s, a)
  }

  function Initial(): System {
    System(0, map[], map[], map[], map[])
  }

  function RunFrom(s: System, actions: seq<Action>): System {
    if |actions| == 0 then s
    else Step(RunFrom(s, actions[..|actions| - 1]), actions[|actions| - 1])
  }

  // ---- the invariant ----

  predicate InFlight(d: Delivery) {
    d.phase.Scanning? || d.phase.Scanned?
  }

  predicate GoodDelivery(t: Table, d: Delivery) {
    && d.id in t
    && (d.ran ==> t[d.id].status != QUEUED)
    && (InFlight(d) ==> d.ran && (t[d.id].status == RUNNING || t[d.id].status == FAILED) && t[d.id].startedAt.Some?)
    && (d.phase.Scanned? ==> Verdict(d.phase.failure))
    && (d.phase.Counting? || d.phase.Counted? ==> !d.ran)
  }

  predicate GoodReader(t: Table, r: Reader) {
    match r
    case HasRow(id, row) => id in t
    case Stale(id) => id in t
    case Missed(id) => id in t && !Active(t[id])
    case Returned(row, at) => Current(row, at)
  }

  /** No job is scanned by two deliveries. */
  predicate ScannedOnce(deliveries: map<nat, Delivery>) {
    forall a, b :: a in deliveries && b in deliveries && a != b && deliveries[a].ran && deliveries[b].ran ==>
      deliveries[a].id != deliveries[b].id
  }

  predicate Inv(s: System) {
    && Sound(s.table)
    && (forall d :: d in s.deliveries ==> GoodDelivery(s.table, s.deliveries[d]))
    && ScannedOnce(s.deliveries)
    && (forall r :: r in s.readers ==> GoodReader(s.table, s.readers[r]))
  }

  // ---- every step keeps it ----

  lemma ReadersSurvive(t: Table, u: Table, readers: map<nat, Reader>)
    requires Advances(t, u) && forall r :: r in readers ==> GoodReader(t, readers[r])
    ensures forall r :: r in readers ==> GoodReader(u, readers[r])
  {
    forall r | r in readers ensures GoodReader(u, readers[r]) {
      assert GoodReader(t, readers[r]);
    }
  }

  /** A step of one delivery that may also rewrite its job. */
  lemma DeliveryStep(s: System, t: System, d: nat)
    requires Inv(s) && d in t.deliveries && t.deliveries == s.deliveries[d := t.deliveries[d]]
    requires t.readers == s.readers && Sound(t.table) && Advances(s.table, t.table)
    requires GoodDelivery(t.table, t.deliveries[d])
    requires d in s.deliveries ==> t.deliveries[d].id == s.deliveries[d].id
    requires t.deliveries[d].ran ==>
      forall b :: b in s.deliveries && b != d && s.deliveries[b].ran ==> s.deliveries[b].id != t.deliveries[d].id
    requires forall b :: b in s.deliveries && b != d ==> GoodDelivery(t.table, s.deliveries[b])
    ensures Inv(t)
  {
    ReadersSurvive(s.table, t.table, s.readers);
  }

  lemma RunningAccepted(t: Table, id: JobId, total: nat, now: nat)
    requires Sound(t) && id in t
    ensures var w := MarkRunning(t, id, total, now);
      && Sound(w.table) && Advances(t, w.table)
      && if t[id].status == QUEUED then
           w.result.Ok? && w.table == t[id := w.result.value] && w.result.value.status == RUNNING
           && w.result.value.startedAt == Some(now)
         else w == Write(t, Err(NoRows))
  {}

  lemma BeginKeepsInv(s: System, d: nat)
    requires Inv(s)
    ensures Inv(DoBegin(s, d))
  {
    hide Sound, MarkRunning, Advances;
    var t := DoBegin(s, d);
    if t != s {
      var me := s.deliveries[d];
      assert GoodDelivery(s.table, me);
      RunningAccepted(s.table, me.id, me.phase.total, s.now);
      assert forall b :: b in s.deliveries && s.deliveries[b].ran ==> GoodDelivery(s.table, s.deliveries[b]);
      NotYetRun(s, t.table, d);
      DeliveryStep(s, t, d);
    }
  }

  /** While a job is queued no delivery has run it, so starting it disturbs no other delivery. */
  lemma NotYetRun(s: System, u: Table, d: nat)
    requires Inv(s) && d in s.deliveries && s.deliveries[d].id in u
    requires u == s.table || (s.table[s.deliveries[d].id].status == QUEUED && u == s.table[s.deliveries[d].id := u[s.deliveries[d].id]]
                              && u[s.deliveries[d].id].status == RUNNING)
    ensures forall b :: b in s.deliveries && b != d ==> GoodDelivery(u, s.deliveries[b])
  {
    hide Sound, ScannedOnce, GoodReader;
    forall b | b in s.deliveries && b != d ensures GoodDelivery(u, s.deliveries[b]) {
      assert GoodDelivery(s.table, s.deliveries[b]);
    }
  }

  lemma ProgressAccepted(t: Table, id: JobId, checked: nat, lastSeq: nat, now: nat)
    requires Sound(t) && id in t
    ensures var w := UpdateProgress(t, id, checked, lastSeq, now);
      && Sound(w.table) && Advances(t, w.table)
      && if t[id].status == RUNNING then
           w.result.Ok? && w.table == t[id := w.result.value] && w.result.value.status == RUNNING
           && w.result.value.startedAt == t[id].startedAt
         else w == Write(t, Err(NoRows))
  {}

  lemma ProgressKeepsInv(s: System, d: nat, checked: nat, lastSeq: nat)
    requires Inv(s)
    ensures Inv(DoProgress(s, d, checked, lastSeq))
  {
    hide Sound, UpdateProgress, Advances;
    var t := DoProgress(s, d, checked, lastSeq);
    if t != s {
      assert GoodDelivery(s.table, s.deliveries[d]);
      ProgressAccepted(s.table, s.deliveries[d].id, checked, lastSeq, s.now);
      DeliveryStep(s, t, d);
    }
  }

  /** The completion of a scan is never refused, also when a reader has meanwhile failed the job. */
  lemma ScanCompletionAccepted(s: System, d: nat)
    requires Inv(s) && d in s.deliveries && s.deliveries[d].phase.Scanned?
    ensures var p := s.deliveries[d].phase; var id := s.deliveries[d].id;
      var w := Complete(s.table, id, CompletionOf(p.checked, p.failure), s.now);
      && w.result.Ok? && Sound(w.table) && Advances(s.table, w.table)
      && w.table == s.table[id := w.result.value] && !Active(w.result.value)
      && w.result.value.status == (if p.failure.None? then VERIFIED else INTEGRITY_FAILURE)
  {
    assert GoodDelivery(s.table, s.deliveries[d]);
  }

  lemma PersistKeepsInv(s: System, d: nat)
    requires Inv(s)
    ensures Inv(DoPersist(s, d))
  {
    hide Complete, Sound;
    var t := DoPersist(s, d);
    if t != s {
      ScanCompletionAccepted(s, d);
      assert GoodDelivery(s.table, s.deliveries[d]);
      DeliveryStep(s, t, d);
    }
  }

  /** The handler's completion is never refused either. */
  lemma HandlerCompletionAccepted(s: System, d: nat, timedOut: bool)
    requires Inv(s) && d in s.deliveries && s.deliveries[d].phase.SawActive?
    ensures var id := s.deliveries[d].id;
      var w := Complete(s.table, id, OperationalFailure(s.deliveries[d].phase.checked, timedOut), s.now);
      && w.result.Ok? && Sound(w.table) && Advances(s.table, w.table)
      && w.table == s.table[id := w.result.value] && w.result.value.status == FAILED
      && w.result.value.startedAt == s.table[id].startedAt
  {
    assert GoodDelivery(s.table, s.deliveries[d]);
  }

  lemma HandlerCompleteKeepsInv(s: System, d: nat, timedOut: bool)
    requires Inv(s)
    ensures Inv(DoHandlerComplete(s, d, timedOut))
  {
    hide Complete, Sound;
    var t := DoHandlerComplete(s, d, timedOut);
    if t != s {
      HandlerCompletionAccepted(s, d, timedOut);
      assert GoodDelivery(s.table, s.deliveries[d]);
      DeliveryStep(s, t, d);
    }
  }

  lemma QuietKeepsInv(s: System, a: Action)
    requires Inv(s)
    ensures Inv(DoQuiet(s, a))
  {
    hide Sound;
    var t := DoQuiet(s, a);
    if t != s {
      DeliveryStep(s, t, a.d);
    }
  }

  lemma StaleAccepted(t: Table, id: JobId, now: nat)
    requires Sound(t) && id in t
    ensures var w := MarkStale(t, id, now);
      && Sound(w.table) && Advances(t, w.table)
      && if Active(t[id]) then
           w.result.Ok? && w.table == t[id := w.result.value] && w.result.value.status == FAILED
           && w.result.value.startedAt == t[id].startedAt
         else w == Write(t, Err(NoRows))
  {}

  lemma ReadKeepsInv(s: System, a: Action)
    requires Inv(s)
    ensures Inv(DoRead(s, a))
  {
    hide Sound, MarkStale;
    var t := DoRead(s, a);
    if t != s {
      if a.Reconcile? {
        StaleAccepted(s.table, s.readers[a.r].id, s.now);
        ReadersSurvive(s.table, t.table, s.readers);
        assert GoodReader(t.table, t.readers[a.r]);
      } else {
        assert GoodReader(t.table, t.readers[a.r]);
      }
    }
  }

  lemma RequestKeepsInv(s: System, a: Action)
    requires Inv(s)
    ensures Inv(DoRequest(s, a))
  {
    if a.Start? && a.id !in s.table {
      CreateKeepsTable(s, a.id);
    }
    hide Sound, Create;
  }

  lemma CreateKeepsTable(s: System, id: JobId)
    requires Inv(s) && id !in s.table
    ensures var u := Create(s.table, id, s.now).table;
      && Sound(u)
      && (forall d :: d in s.deliveries ==> GoodDelivery(u, s.deliveries[d]))
      && (forall r :: r in s.readers ==> GoodReader(u, s.readers[r]))
  {
    var u := Create(s.table, id, s.now).table;
    StoreSound(s.table, id, NewJob(s.now));
    assert Advances(s.table, u);
    ReadersSurvive(s.table, u, s.readers);
  }

  lemma StepKeepsInv(s: System, a: Action)
    requires Inv(s)
    ensures Inv(Step(s, a))
  {
    hide Inv, DoBegin, DoProgress, DoPersist, DoHandlerRead, DoHandlerComplete, DoQuiet, DoRead, DoRequest;
    match a
    case Tick(d) => TickKeepsInv(s, d);
    case Start(_, _) => RequestKeepsInv(s, a);
    case FindActive(_, _) => RequestKeepsInv(s, a);
    case FindNone(_) => RequestKeepsInv(s, a);
    case Begin(d) => BeginKeepsInv(s, d);
    case Progress(d, checked, lastSeq) => ProgressKeepsInv(s, d, checked, lastSeq);
    case Persist(d) => PersistKeepsInv(s, d);
    case HandlerRead(d) => HandlerReadKeepsInv(s, d);
    case HandlerComplete(d, timedOut) => HandlerCompleteKeepsInv(s, d, timedOut);
    case Read(_, _) => ReadKeepsInv(s, a);
    case Age(_) => ReadKeepsInv(s, a);
    case Reconcile(_) => ReadKeepsInv(s, a);
    case Reread(_) => ReadKeepsInv(s, a);
    case _ => QuietKeepsInv(s, a);
  }

  lemma TickKeepsInv(s: System, d: nat)
    requires Inv(s)
    ensures Inv(s.(now := s.now + d))
  {}

  lemma HandlerReadKeepsInv(s: System, d: nat)
    requires Inv(s)
    ensures Inv(DoHandlerRead(s, d))
  {
    hide Sound, RetriesExhausted;
    var t := DoHandlerRead(s, d);
    if t != s {
      DeliveryStep(s, t, d);
    }
  }

  lemma {:induction false} RunKeepsInv(s: System, actions: seq<Action>)
    requires Inv(s)
    ensures Inv(RunFrom(s, actions))
  {
    hide Step, Inv;
    if |actions| > 0 {
      RunKeepsInv(s, actions[..|actions| - 1]);
      StepKeepsInv(RunFrom(s, actions[..|actions| - 1]), actions[|actions| - 1]);
    }
  }

  // ---- theorems over all runs ----

  /** At most one job is queued or running, every row meets its CHECK constraints, each job is scanned by at
      most one delivery, and whatever a reader returned was terminal or within its threshold. */
  lemma JobsAreSafe(actions: seq<Action>)
    ensures var s := RunFrom(Initial(), actions);
      && SingleActive(s.table)
      && (forall id :: id in s.table ==> Checks(s.table[id]))
      && ScannedOnce(s.deliveries)
      && (forall r :: r in s.readers && s.readers[r].Returned? ==> Current(s.readers[r].row, s.readers[r].at))
  {
    hide RunFrom, Checks, Current;
    RunKeepsInv(Initial(), actions);
    var s := RunFrom(Initial(), actions);
    assert forall r :: r in s.readers ==> GoodReader(s.table, s.readers[r]);
  }

  lemma AdvancesReflexive(t: Table)
    ensures Advances(t, t)
  {}

  lemma StepAdvances(s: System, a: Action)
    requires Inv(s)
    ensures Advances(s.table, Step(s, a).table)
  {
    AdvancesReflexive(s.table);
    hide Sound, Advances, DoBegin, Complete, UpdateProgress, MarkStale, GoodReader, GoodDelivery;
    match a
    case Start(_, id) => CreateAdvances(s.table, id, s.now);
    case Begin(d) => if DoBegin(s, d) != s { BeginAdvances(s, d); }
    case Progress(d, checked, lastSeq) => if DoProgress(s, d, checked, lastSeq) != s { ProgressAdvances(s, d, checked, lastSeq); }
    case Persist(d) => if DoPersist(s, d) != s { ScanCompletionAccepted(s, d); }
    case HandlerComplete(d, timedOut) => if DoHandlerComplete(s, d, timedOut) != s { HandlerCompletionAccepted(s, d, timedOut); }
    case Reconcile(r) => if DoRead(s, a) != s { ReconcileAdvances(s, r); }
    case _ =>
  }

  lemma CreateAdvances(t: Table, id: JobId, now: nat)
    ensures Advances(t, Create(t, id, now).table)
  {}

  lemma ProgressAdvances(s: System, d: nat, checked: nat, lastSeq: nat)
    requires Inv(s) && d in s.deliveries
    ensures Advances(s.table, UpdateProgress(s.table, s.deliveries[d].id, checked, lastSeq, s.now).table)
  {
    hide Sound, UpdateProgress, Advances;
    assert GoodDelivery(s.table, s.deliveries[d]);
    ProgressAccepted(s.table, s.deliveries[d].id, checked, lastSeq, s.now);
  }

  lemma ReconcileAdvances(s: System, r: nat)
    requires Inv(s) && r in s.readers && s.readers[r].Stale?
    ensures Advances(s.table, MarkStale(s.table, s.readers[r].id, s.now).table)
  {
    hide Sound, MarkStale, Advances;
    assert GoodReader(s.table, s.readers[r]);
    StaleAccepted(s.table, s.readers[r].id, s.now);
  }

  lemma BeginAdvances(s: System, d: nat)
    requires Inv(s) && DoBegin(s, d) != s
    ensures Advances(s.table, DoBegin(s, d).table)
  {
    hide Sound, MarkRunning;
    assert GoodDelivery(s.table, s.deliveries[d]);
    RunningAccepted(s.table, s.deliveries[d].id, s.deliveries[d].phase.total, s.now);
  }

  /** No row disappears, and the rank QUEUED < RUNNING < terminal never drops. */
  lemma {:induction false} RankNeverDrops(before: seq<Action>, actions: seq<Action>)
    ensures Advances(RunFrom(Initial(), before).table, RunFrom(RunFrom(Initial(), before), actions).table)
  {
    hide Step, Inv;
    var s := RunFrom(Initial(), before);
    if |actions| > 0 {
      RankNeverDrops(before, actions[..|actions| - 1]);
      InitialInv();
      RunKeepsInv(Initial(), before);
      RunKeepsInv(s, actions[..|actions| - 1]);
      StepAdvances(RunFrom(s, actions[..|actions| - 1]), actions[|actions| - 1]);
    }
  }

  lemma InitialInv()
    ensures Inv(Initial())
  {}

  /** No statement that any run executes is ever refused by a constraint. */
  lemma NoUpdateRefused(actions: seq<Action>, d: nat, r: nat, n: nat, m: nat, timedOut: bool)
    ensures var s := RunFrom(Initial(), actions);
      && (d in s.deliveries && s.deliveries[d].phase.Counted? ==>
            var w := MarkRunning(s.table, s.deliveries[d].id, n, s.now).result; w.Ok? || w.error == NoRows)
      && (d in s.deliveries && s.deliveries[d].phase.Scanning? ==>
            var w := UpdateProgress(s.table, s.deliveries[d].id, n, m, s.now).result; w.Ok? || w.error == NoRows)
      && (d in s.deliveries && s.deliveries[d].phase.Scanned? ==>
            var p := s.deliveries[d].phase;
            Complete(s.table, s.deliveries[d].id, CompletionOf(p.checked, p.failure), s.now).result.Ok?)
      && (d in s.deliveries && s.deliveries[d].phase.SawActive? ==>
            Complete(s.table, s.deliveries[d].id, OperationalFailure(s.deliveries[d].phase.checked, timedOut), s.now).result.Ok?)
      && (r in s.readers && s.readers[r].Stale? ==>
            var w := MarkStale(s.table, s.readers[r].id, s.now).result; w.Ok? || w.error == NoRows)
  {
    hide RunFrom, MarkRunning, UpdateProgress, Complete, MarkStale, Sound, Advances;
    var s := RunFrom(Initial(), actions);
    InitialInv();
    RunKeepsInv(Initial(), actions);
    if d in s.deliveries {
      var id := s.deliveries[d].id;
      assert GoodDelivery(s.table, s.deliveries[d]);
      RunningAccepted(s.table, id, n, s.now);
      ProgressAccepted(s.table, id, n, m, s.now);
      if s.deliveries[d].phase.Scanned? { ScanCompletionAccepted(s, d); }
      if s.deliveries[d].phase.SawActive? { HandlerCompletionAccepted(s, d, timedOut); }
    }
    if r in s.readers && s.readers[r].Stale? {
      assert GoodReader(s.table, s.readers[r]);
      StaleAccepted(s.table, s.readers[r].id, s.now);
    }
  }

  // ---- which terminal rows stay as they are ----

  /** A scan of this job is still running, or its result is not stored yet. */
  predicate ScanInFlight(s: System, id: JobId) {
    exists d :: d in s.deliveries && s.deliveries[d].id == id && InFlight(s.deliveries[d])
  }

  /** An error handler has seen this job active and has not written yet. */
  predicate HandlerArmed(s: System, id: JobId) {
    exists d :: d in s.deliveries && s.deliveries[d].id == id && s.deliveries[d].phase.SawActive?
  }

  predicate HasStatus(s: System, id: JobId, status: Status) {
    id in s.table && s.table[id].status == status
  }

  /** A delivery that will write nothing further over this status. */
  predicate Harmless(d: Delivery, id: JobId, status: Status) {
    d.id == id ==> !InFlight(d) && (status == FAILED || !d.phase.SawActive?)
  }

  predicate Settled(s: System, id: JobId, status: Status) {
    HasStatus(s, id, status) && Rank(status) == 2 && forall d :: d in s.deliveries ==> Harmless(s.deliveries[d], id, status)
  }

  lemma SettledAfterBegin(s: System, a: Action, id: JobId, status: Status)
    requires Settled(s, id, status) && (a.Begin? || a.Progress?)
    ensures Settled(Step(s, a), id, status)
  {
    hide Checks, OtherActive, DoHandlerRead, DoHandlerComplete, DoPersist, DoQuiet, DoRead, DoRequest;
    var t := Step(s, a);
    if t != s {
      assert Harmless(s.deliveries[a.d], id, status);
      assert HasStatus(t, id, status) && Harmless(t.deliveries[a.d], id, status);
      assert t.deliveries == s.deliveries[a.d := t.deliveries[a.d]];
    }
  }

  lemma SettledAfterPersist(s: System, d: nat, id: JobId, status: Status)
    requires Settled(s, id, status)
    ensures Settled(Step(s, Persist(d)), id, status)
  {
    hide Checks, OtherActive, DoHandlerRead, DoHandlerComplete, DoBegin, DoProgress, DoQuiet, DoRead, DoRequest, CompletionOf;
    var t := Step(s, Persist(d));
    if t != s {
      assert Harmless(s.deliveries[d], id, status);
      assert HasStatus(t, id, status) && Harmless(t.deliveries[d], id, status);
      assert t.deliveries == s.deliveries[d := t.deliveries[d]];
    }
  }

  lemma SettledAfterHandler(s: System, a: Action, id: JobId, status: Status)
    requires Settled(s, id, status) && (a.HandlerRead? || a.HandlerComplete?)
    ensures Settled(Step(s, a), id, status)
  {
    hide Checks, OtherActive, DoBegin, DoProgress, DoPersist, DoQuiet, DoRead, DoRequest;
    var t := Step(s, a);
    if t != s {
      assert Harmless(s.deliveries[a.d], id, status);
      assert HasStatus(t, id, status) && Harmless(t.deliveries[a.d], id, status);
      assert t.deliveries == s.deliveries[a.d := t.deliveries[a.d]];
    }
  }

  lemma SettledStep(s: System, a: Action, id: JobId, status: Status)
    requires Settled(s, id, status)
    ensures Settled(Step(s, a), id, status)
  {
    hide Checks, OtherActive, DoBegin, DoProgress, DoPersist, DoHandlerRead, DoHandlerComplete, Current;
    if a.Begin? || a.Progress? {
      SettledAfterBegin(s, a, id, status);
    } else if a.Persist? {
      SettledAfterPersist(s, a.d, id, status);
    } else if a.HandlerRead? || a.HandlerComplete? {
      SettledAfterHandler(s, a, id, status);
    } else {
      var t := Step(s, a);
      assert HasStatus(t, id, status);
      forall d | d in t.deliveries ensures Harmless(t.deliveries[d], id, status) {
        assert d in s.deliveries ==> Harmless(s.deliveries[d], id, status);
      }
    }
  }

  lemma {:induction false} SettledForever(s: System, actions: seq<Action>, id: JobId, status: Status)
    requires Settled(s, id, status)
    ensures HasStatus(RunFrom(s, actions), id, status) && Settled(RunFrom(s, actions), id, status)
  {
    hide Step;
    if |actions| > 0 {
      SettledForever(s, actions[..|actions| - 1], id, status);
      SettledStep(RunFrom(s, actions[..|actions| - 1]), actions[|actions| - 1], id, status);
    }
  }

  lemma RunOne(s: System, a: Action)
    ensures RunFrom(s, [a]) == Step(s, a)
  {
    assert [a][..0] == [];
  }

  lemma RunTwo(s: System, a: Action, b: Action)
    ensures RunFrom(s, [a, b]) == Step(Step(s, a), b)
  {
    RunOne(s, a);
    assert [a, b][..1] == [a];
  }

  /** A scan in flight on a failed job ends by overwriting the failure. */
  lemma ScanOverwrites(s: System, id: JobId)
    requires Inv(s) && HasStatus(s, id, FAILED) && ScanInFlight(s, id)
    ensures exists actions :: !HasStatus(RunFrom(s, actions), id, FAILED)
  {
    hide Inv, Complete;
    var d :| d in s.deliveries && s.deliveries[d].id == id && InFlight(s.deliveries[d]);
    if s.deliveries[d].phase.Scanned? {
      ScanCompletionAccepted(s, d);
      RunOne(s, Persist(d));
      assert !HasStatus(RunFrom(s, [Persist(d)]), id, FAILED);
    } else {
      var t := Step(s, Finish(d, None));
      StepKeepsInv(s, Finish(d, None));
      ScanCompletionAccepted(t, d);
      RunTwo(s, Finish(d, None), Persist(d));
      assert !HasStatus(RunFrom(s, [Finish(d, None), Persist(d)]), id, FAILED);
    }
  }

  /** An armed handler overwrites a completed job with FAILED. */
  lemma HandlerOverwrites(s: System, id: JobId, status: Status)
    requires Inv(s) && HasStatus(s, id, status) && status != FAILED && HandlerArmed(s, id)
    ensures exists actions :: !HasStatus(RunFrom(s, actions), id, status)
  {
    hide Inv, Complete;
    var d :| d in s.deliveries && s.deliveries[d].id == id && s.deliveries[d].phase.SawActive?;
    HandlerCompletionAccepted(s, d, false);
    RunOne(s, HandlerComplete(d, false));
    assert !HasStatus(RunFrom(s, [HandlerComplete(d, false)]), id, status);
  }

  /** A terminal status is final exactly when no scan of a failed job is still in flight and no error handler
      is about to write over a finished one. */
  lemma TerminalFinalIff(before: seq<Action>, id: JobId, status: Status)
    requires HasStatus(RunFrom(Initial(), before), id, status) && Rank(status) == 2
    ensures var s := RunFrom(Initial(), before);
      (forall actions :: HasStatus(RunFrom(s, actions), id, status)) <==>
      (if status == FAILED then !ScanInFlight(s, id) else !HandlerArmed(s, id))
  {
    hide RunFrom, HasStatus, ScanInFlight, HandlerArmed;
    var s := RunFrom(Initial(), before);
    InitialInv();
    RunKeepsInv(Initial(), before);
    if status == FAILED {
      if ScanInFlight(s, id) { ScanOverwrites(s, id); }
    } else {
      FinishedIsNotInFlight(s, id, status);
      if HandlerArmed(s, id) { HandlerOverwrites(s, id, status); }
    }
    if if status == FAILED then !ScanInFlight(s, id) else !HandlerArmed(s, id) {
      IsSettled(s, id, status);
      forall actions ensures HasStatus(RunFrom(s, actions), id, status) {
        SettledForever(s, actions, id, status);
      }
    }
  }

  lemma IsSettled(s: System, id: JobId, status: Status)
    requires HasStatus(s, id, status) && Rank(status) == 2
    requires !ScanInFlight(s, id) && (status == FAILED || !HandlerArmed(s, id))
    ensures Settled(s, id, status)
  {
    forall d | d in s.deliveries ensures Harmless(s.deliveries[d], id, status) {
      assert s.deliveries[d].id == id ==> !InFlight(s.deliveries[d]);
    }
  }

  lemma FinishedIsNotInFlight(s: System, id: JobId, status: Status)
    requires Inv(s) && HasStatus(s, id, status) && (status == VERIFIED || status == INTEGRITY_FAILURE)
    ensures !ScanInFlight(s, id)
  {
    assert forall d :: d in s.deliveries ==> GoodDelivery(s.table, s.deliveries[d]);
  }
}
