/** Concurrent writers appending to audit_log while a batched scan reads it.
    A state is what PostgreSQL has committed plus every open transaction; an action is one statement. */
module ChainProtocol {
  import opened Outcomes
  import opened Text
  import opened Json
  import opened Canonical
  import opened EntryText
  import opened AuditChain

  /** Which of the two defences against forks is in place. */
  datatype Guards = Guards(advisoryLock: bool, uniqueIndexes: bool)

  /** `metadata` None is a nil map. */
  datatype Event = Event(
    userID: Option<Uuid>, role: string, action: string, resourceType: string,
    resourceID: Option<Uuid>, caseID: Option<Uuid>, metadata: Option<Members>)

  /** Where a call of ChainWriter.append stands; `seen` is the committed log its head read saw. It has returned without
      an error when Recorded, and with one when Lost or, if only the reply to COMMIT was lost, Unacknowledged. */
  datatype Phase =
    | Open
    | Locked
    | HeadRead(seen: seq<Row>)
    | Numbered(seen: seq<Row>, seq_: nat)
    | Inserted(seen: seq<Row>, row: Row)
    | Recorded
    | Unacknowledged
    | Lost

  datatype Writer = Writer(event: Event, attempt: nat, phase: Phase)

  const MAX_CHAIN_WRITE_ATTEMPTS: nat := 3

  /** A run of verifyBatches; `covered` is the committed log when its latest page was read. */
  datatype Scan = Scan(finished: bool, verified: bool, lastSeq: nat, expectedPrev: Option<Digest>,
                       checked: nat, covered: seq<Row>)

  type WriterId = nat

  /** `log` holds the committed rows in commit order and `authors` the calls that committed them. */
  datatype System = System(log: seq<Row>, authors: seq<WriterId>, nextSeq: nat, lock: Option<WriterId>,
                           writers: map<WriterId, Writer>, scan: Scan)

  datatype Action =
    | Start(w: WriterId, event: Event)
    | Lock(w: WriterId)
    | ReadHead(w: WriterId)
    | NextSeq(w: WriterId)
    | Insert(w: WriterId, id: Uuid, timestamp: Timestamp)
    | Commit(w: WriterId, acknowledged: bool)
    | Fail(w: WriterId)
    | ReadPage(limit: nat, page: seq<Row>)

  function Initial(): System {
    System([], [], 1, None, map[], Scan(false, false, 0, None, 0, []))
  }

  // ---- statements ----

  function InsertBySeq(table: seq<Row>, row: Row): seq<Row> {
    if |table| == 0 || table[|table| - 1].seq_ <= row.seq_ then table + [row]
    else InsertBySeq(table[..|table| - 1], row) + [table[|table| - 1]]
  }

  /** The committed rows, which are kept in commit order, as ORDER BY seq returns them. */
  function SortedBySeq(log: seq<Row>): seq<Row> {
    if |log| == 0 then [] else InsertBySeq(SortedBySeq(log[..|log| - 1]), log[|log| - 1])
  }

  /** SELECT hash ... ORDER BY seq DESC LIMIT 1. */
  function HeadHash(log: seq<Row>): Option<Digest> {
    var t := SortedBySeq(log);
    PrevAt(t, None, |t|)
  }

  function EventEntry(e: Event, id: Uuid, timestamp: Timestamp, metadata: string, prev: Option<Digest>): Entry {
    Entry(id, timestamp, e.userID, e.role, e.action, e.resourceType, e.resourceID, e.caseID, metadata, prev)
  }

  /** The row that InsertAuditEntry stores; an empty role is stored as NULL. */
  function NewRow(lib: Library, e: Event, id: Uuid, timestamp: Timestamp, metadata: string, prev: Option<Digest>, seq_: nat): Row {
    Row(seq_, id, timestamp, e.userID, if e.role == "" then None else Some(e.role), e.action, e.resourceType,
        e.resourceID, e.caseID, metadata, prev, ComputeEntryHash(lib, EventEntry(e, id, timestamp, metadata, prev)))
  }

  /** 23505: a committed row already has this predecessor, or this hash. */
  predicate Taken(log: seq<Row>, row: Row) {
    exists i :: 0 <= i < |log| && (log[i].prevHash == row.prevHash || log[i].hash == row.hash)
  }

  /** An uncommitted insert of another transaction has one of them, so this insert has to wait. */
  predicate Pending(s: System, w: WriterId, row: Row) {
    exists v :: v in s.writers && v != w && Clash(s.writers[v].phase, row)
  }

  predicate Clash(p: Phase, row: Row) {
    p.Inserted? && (p.row.prevHash == row.prevHash || p.row.hash == row.hash)
  }

  /** The row is committed, whatever the caller was told. */
  predicate Stored(p: Phase) {
    p.Recorded? || p.Unacknowledged?
  }

  predicate InTransaction(p: Phase) {
    !Stored(p) && !p.Lost?
  }

  function SetPhase(s: System, w: WriterId, p: Phase): System
    requires w in s.writers
  {
    s.(writers := s.writers[w := s.writers[w].(phase := p)])
  }

  /** The transaction of `w` ends, and with it the advisory lock. */
  function Release(s: System, w: WriterId): System {
    if s.lock == Some(w) then s.(lock := None) else s
  }

  /** A row as read back: the same row, its metadata text possibly laid out anew by jsonb. */
  ghost predicate ReadsAs(lib: Library, stored: Row, read: Row) {
    read == stored.(metadata := read.metadata) && Relayout(lib.nf, stored.metadata, read.metadata)
  }

  ghost predicate PageReadsAs(lib: Library, stored: seq<Row>, read: seq<Row>) {
    |stored| == |read| && forall i :: 0 <= i < |read| ==> ReadsAs(lib, stored[i], read[i])
  }

  // ---- steps ----

  function DoStart(lib: Library, s: System, w: WriterId, e: Event): System {
    if w in s.writers then s
    else s.(writers := s.writers[w := Writer(e, 0, if CanonicalizeEventMetadata(lib.nf, e.metadata).Ok? then Open else Lost)])
  }

  function DoLock(g: Guards, s: System, w: WriterId): System {
    if w !in s.writers || !s.writers[w].phase.Open? then s
    else if !g.advisoryLock then SetPhase(s, w, Locked)
    else if s.lock.Some? then s
    else SetPhase(s.(lock := Some(w)), w, Locked)
  }

  function DoReadHead(s: System, w: WriterId): System {
    if w !in s.writers || !s.writers[w].phase.Locked? then s else SetPhase(s, w, HeadRead(s.log))
  }

  /** The identity column draws its value before the indexes are checked; a failed insert leaves a gap. */
  function DoNextSeq(s: System, w: WriterId): System {
    if w !in s.writers || !s.writers[w].phase.HeadRead? then s
    else SetPhase(s.(nextSeq := s.nextSeq + 1), w, Numbered(s.writers[w].phase.seen, s.nextSeq))
  }

  /** The row that a numbered writer is about to insert. */
  function PendingRow(lib: Library, me: Writer, id: Uuid, timestamp: Timestamp): Result<Row, string>
    requires me.phase.Numbered?
  {
    match CanonicalizeEventMetadata(lib.nf, me.event.metadata)
    case Err(e) => Err(e)
    case Ok(metadata) => Ok(NewRow(lib, me.event, id, timestamp, metadata, HeadHash(me.phase.seen), me.phase.seq_))
  }

  /** A failed attempt: the transaction rolls back and the loop tries again while it may. */
  function Retried(me: Writer): Writer {
    var attempt := me.attempt + 1;
    Writer(me.event, attempt, if attempt < MAX_CHAIN_WRITE_ATTEMPTS then Open else Lost)
  }

  function DoInsert(lib: Library, g: Guards, s: System, w: WriterId, id: Uuid, timestamp: Timestamp): System {
    if w !in s.writers || !s.writers[w].phase.Numbered? then s
    else
      var me := s.writers[w];
      var row := PendingRow(lib, me, id, timestamp);
      if row.Err? || (g.uniqueIndexes && Pending(s, w, row.value)) then s
      else if g.uniqueIndexes && Taken(s.log, row.value) then Release(s.(writers := s.writers[w := Retried(me)]), w)
      else SetPhase(s, w, Inserted(me.phase.seen, row.value))
  }

  function DoCommit(s: System, w: WriterId, acknowledged: bool): System {
    if w !in s.writers || !s.writers[w].phase.Inserted? then s
    else
      var t := s.(log := s.log + [s.writers[w].phase.row], authors := s.authors + [w]);
      Release(SetPhase(t, w, if acknowledged then Recorded else Unacknowledged), w)
  }

  /** Any other database error: the event is not recorded and append returns at once. */
  function DoFail(s: System, w: WriterId): System {
    if w !in s.writers || !InTransaction(s.writers[w].phase) then s
    else Release(SetPhase(s, w, Lost), w)
  }

  /** One iteration of verifyBatches. */
  ghost function DoReadPage(lib: Library, s: System, limit: nat, page: seq<Row>): System {
    var scan := s.scan;
    if scan.finished || limit == 0 || !PageReadsAs(lib, ListFromSeq(SortedBySeq(s.log), scan.lastSeq, limit), page) then s
    else if |page| == 0 then s.(scan := scan.(finished := true, verified := true, covered := s.log))
    else if !Accepted(lib, page, scan.expectedPrev) then s.(scan := scan.(finished := true, covered := s.log))
    else
      s.(scan := Scan(|page| < limit, |page| < limit, page[|page| - 1].seq_, Some(page[|page| - 1].hash),
                      scan.checked + |page|, s.log))
  }

  ghost function Step(lib: Library, g: Guards, s: System, a: Action): System {
    match a
    case Start(w, e) => DoStart(lib, s, w, e)
    case Lock(w) => DoLock(g, s, w)
    case ReadHead(w) => DoReadHead(s, w)
    case NextSeq(w) => DoNextSeq(s, w)
    case Insert(w, id, timestamp) => DoInsert(lib, g, s, w, id, timestamp)
    case Commit(w, acknowledged) => DoCommit(s, w, acknowledged)
    case Fail(w) => DoFail(s, w)
    case ReadPage(limit, page) => DoReadPage(lib, s, limit, page)
  }

  ghost function Run(lib: Library, g: Guards, actions: seq<Action>): System {
    if |actions| == 0 then Initial()
    else Step(lib, g, Run(lib, g, actions[..|actions| - 1]), actions[|actions| - 1])
  }

  // ---- the invariant ----

  /** One genesis, then every row names the row before it; seq order is commit order. */
  predicate Linear(log: seq<Row>) {
    BySeq(log) && forall i :: 0 <= i < |log| ==> Linked(log, i)
  }

  /** The row at `i` names the row before it. */
  predicate Linked(log: seq<Row>, i: nat)
    requires i < |log|
  {
    log[i].prevHash == PrevAt(log, None, i)
  }

  /** The row stores this event, and its hash is the hash of the stored fields. */
  predicate Records(lib: Library, row: Row, e: Event) {
    && row.hash == ComputeEntryHash(lib, RowEntry(row, row.metadata))
    && row.userID == e.userID && row.resourceID == e.resourceID && row.caseID == e.caseID
    && row.action == e.action && row.resourceType == e.resourceType
    && row.role == (if e.role == "" then None else Some(e.role))
    && CanonicalizeEventMetadata(lib.nf, e.metadata) == Ok(row.metadata)
  }

  predicate RecordsAuthor(lib: Library, s: System, i: nat)
    requires i < |s.log| && i < |s.authors|
  {
    && s.authors[i] in s.writers && Stored(s.writers[s.authors[i]].phase)
    && Records(lib, s.log[i], s.writers[s.authors[i]].event)
  }

  predicate GoodLog(lib: Library, s: System) {
    && Linear(s.log)
    && (forall i :: 0 <= i < |s.log| ==> s.log[i].seq_ < s.nextSeq)
    && |s.authors| == |s.log|
    && (forall i :: 0 <= i < |s.log| ==> RecordsAuthor(lib, s, i))
    && (forall i, j :: 0 <= i < j < |s.authors| ==> s.authors[i] != s.authors[j])
    && (forall w :: w in s.writers && Stored(s.writers[w].phase) ==> w in s.authors)
  }

  predicate HoldsLock(p: Phase) {
    p.Locked? || p.HeadRead? || p.Numbered? || p.Inserted?
  }

  /** Larger than every seq in the log the writer read. */
  predicate Above(seq_: nat, seen: seq<Row>) {
    seq_ > 0 && forall i :: 0 <= i < |seen| ==> seen[i].seq_ < seq_
  }

  predicate GoodPhase(lib: Library, g: Guards, s: System, w: WriterId, me: Writer) {
    var p := me.phase;
    && (g.advisoryLock && HoldsLock(p) ==> s.lock == Some(w))
    && (p.HeadRead? || p.Numbered? || p.Inserted? ==> p.seen <= s.log && (g.advisoryLock ==> p.seen == s.log))
    && (p.Numbered? ==> p.seq_ < s.nextSeq && Above(p.seq_, p.seen))
    && (p.Inserted? ==>
          && p.row.seq_ < s.nextSeq && Above(p.row.seq_, p.seen)
          && p.row.prevHash == PrevAt(p.seen, None, |p.seen|)
          && Records(lib, p.row, me.event)
          && (g.uniqueIndexes ==> !Taken(s.log, p.row)))
  }

  predicate GoodWriters(lib: Library, g: Guards, s: System) {
    && (forall w :: w in s.writers ==> GoodPhase(lib, g, s, w, s.writers[w]))
    && (g.uniqueIndexes ==> forall w :: w in s.writers && s.writers[w].phase.Inserted? ==> !Pending(s, w, s.writers[w].phase.row))
  }

  predicate DistinctHashes(log: seq<Row>) {
    forall i, j :: 0 <= i < j < |log| ==> log[i].hash != log[j].hash
  }

  predicate GoodScan(s: System) {
    && s.scan.checked <= |s.log|
    && s.scan.lastSeq == SeqAt(s.log, s.scan.checked)
    && s.scan.expectedPrev == PrevAt(s.log, None, s.scan.checked)
    && s.scan.covered <= s.log
    && (s.scan.finished ==> s.scan.verified && s.scan.checked == |s.scan.covered|)
  }

  predicate Inv(lib: Library, g: Guards, s: System) {
    && s.nextSeq > 0
    && GoodLog(lib, s)
    && GoodWriters(lib, g, s)
    && (g.uniqueIndexes ==> DistinctHashes(s.log))
    && GoodScan(s)
  }

  // ---- heads ----

  lemma PrefixBySeq(log: seq<Row>)
    requires BySeq(log) && |log| > 0
    ensures BySeq(log[..|log| - 1])
    ensures |log| > 1 ==> log[..|log| - 1][|log| - 2].seq_ < log[|log| - 1].seq_
  {}

  lemma {:induction false} SortedIsIdentity(log: seq<Row>)
    requires BySeq(log)
    ensures SortedBySeq(log) == log
  {
    hide BySeq;
    if |log| > 0 {
      PrefixBySeq(log);
      SortedIsIdentity(log[..|log| - 1]);
      assert log == log[..|log| - 1] + [log[|log| - 1]];
    }
  }

  lemma HeadOfLinear(log: seq<Row>, seen: seq<Row>)
    requires Linear(log) && seen <= log
    ensures HeadHash(seen) == PrevAt(seen, None, |seen|) == PrevAt(log, None, |seen|)
  {
    assert BySeq(seen);
    SortedIsIdentity(seen);
  }

  /** If nobody has claimed the head a writer read, that head is still the head. */
  lemma UnclaimedHeadIsCurrent(log: seq<Row>, seen: seq<Row>, row: Row)
    requires Linear(log) && seen <= log && row.prevHash == PrevAt(seen, None, |seen|) && !Taken(log, row)
    ensures seen == log
  {
    assert PrevAt(log, None, |seen|) == row.prevHash;
    assert forall i :: 0 <= i < |log| ==> log[i].prevHash != row.prevHash;
    assert |seen| < |log| ==> Linked(log, |seen|);
  }

  // ---- every step keeps the invariant ----

  /** A step of one writer that leaves log and scan alone. */
  lemma WriterStepKeepsInv(lib: Library, g: Guards, s: System, t: System, w: WriterId)
    requires Inv(lib, g, s)
    requires t.log == s.log && t.authors == s.authors && t.scan == s.scan && t.nextSeq >= s.nextSeq
    requires w in t.writers && t.writers == s.writers[w := t.writers[w]] && !Stored(t.writers[w].phase)
    requires w in s.writers ==> InTransaction(s.writers[w].phase)
    requires t.lock == s.lock || (s.lock == Some(w) && t.lock == None) || (s.lock == None && t.lock == Some(w))
    requires GoodPhase(lib, g, t, w, t.writers[w])
    requires g.uniqueIndexes && t.writers[w].phase.Inserted? ==> !Pending(t, w, t.writers[w].phase.row)
    ensures Inv(lib, g, t)
  {
    hide Records, Linear, Above, Taken, SeqAt, DistinctHashes;
    forall v | v in t.writers ensures GoodPhase(lib, g, t, v, t.writers[v]) {
      assert v != w ==> GoodPhase(lib, g, s, v, s.writers[v]);
    }
    forall i | 0 <= i < |t.log| ensures RecordsAuthor(lib, t, i) {
      assert RecordsAuthor(lib, s, i);
    }
    if g.uniqueIndexes {
      forall v | v in t.writers && t.writers[v].phase.Inserted? ensures !Pending(t, v, t.writers[v].phase.row) {
        if v != w {
          assert !Pending(s, v, s.writers[v].phase.row);
          assert !Clash(t.writers[w].phase, t.writers[v].phase.row);
        }
      }
    }
  }

  lemma StartKeepsInv(lib: Library, g: Guards, s: System, w: WriterId, e: Event)
    requires Inv(lib, g, s)
    ensures Inv(lib, g, DoStart(lib, s, w, e))
  {
    hide Linear, CanonicalizeEventMetadata, Records;
    if w !in s.writers {
      WriterStepKeepsInv(lib, g, s, DoStart(lib, s, w, e), w);
    }
  }

  lemma LockKeepsInv(lib: Library, g: Guards, s: System, w: WriterId)
    requires Inv(lib, g, s)
    ensures Inv(lib, g, DoLock(g, s, w))
  {
    hide Linear, Records;
    if DoLock(g, s, w) != s {
      WriterStepKeepsInv(lib, g, s, DoLock(g, s, w), w);
    }
  }

  lemma ReadHeadKeepsInv(lib: Library, g: Guards, s: System, w: WriterId)
    requires Inv(lib, g, s)
    ensures Inv(lib, g, DoReadHead(s, w))
  {
    hide Linear, Records;
    if DoReadHead(s, w) != s {
      assert GoodPhase(lib, g, s, w, s.writers[w]);
      WriterStepKeepsInv(lib, g, s, DoReadHead(s, w), w);
    }
  }

  lemma NextSeqKeepsInv(lib: Library, g: Guards, s: System, w: WriterId)
    requires Inv(lib, g, s)
    ensures Inv(lib, g, DoNextSeq(s, w))
  {
    hide Linear, Records;
    if DoNextSeq(s, w) != s {
      assert GoodPhase(lib, g, s, w, s.writers[w]);
      WriterStepKeepsInv(lib, g, s, DoNextSeq(s, w), w);
    }
  }

  lemma FailKeepsInv(lib: Library, g: Guards, s: System, w: WriterId)
    requires Inv(lib, g, s)
    ensures Inv(lib, g, DoFail(s, w))
  {
    hide Linear, Records;
    if DoFail(s, w) != s {
      WriterStepKeepsInv(lib, g, s, DoFail(s, w), w);
    }
  }

  lemma PendingRowRecords(lib: Library, log: seq<Row>, me: Writer, id: Uuid, timestamp: Timestamp)
    requires Linear(log) && me.phase.Numbered? && me.phase.seen <= log
    requires PendingRow(lib, me, id, timestamp).Ok?
    ensures var row := PendingRow(lib, me, id, timestamp).value;
      && Records(lib, row, me.event) && row.seq_ == me.phase.seq_
      && row.prevHash == PrevAt(me.phase.seen, None, |me.phase.seen|)
  {
    hide CanonicalizeEventMetadata, Preimage, Linear;
    HeadOfLinear(log, me.phase.seen);
    var row := PendingRow(lib, me, id, timestamp).value;
    assert RowEntry(row, row.metadata) == EventEntry(me.event, id, timestamp, row.metadata, row.prevHash);
  }

  lemma InsertKeepsInv(lib: Library, g: Guards, s: System, w: WriterId, id: Uuid, timestamp: Timestamp)
    requires Inv(lib, g, s)
    ensures Inv(lib, g, DoInsert(lib, g, s, w, id, timestamp))
  {
    hide Linear, Records, PendingRow, Taken, Clash, SeqAt, DistinctHashes;
    if DoInsert(lib, g, s, w, id, timestamp) != s {
      assert GoodPhase(lib, g, s, w, s.writers[w]);
      PendingRowRecords(lib, s.log, s.writers[w], id, timestamp);
      WriterStepKeepsInv(lib, g, s, DoInsert(lib, g, s, w, id, timestamp), w);
    }
  }

  lemma AppendBySeq(log: seq<Row>, row: Row)
    requires BySeq(log) && Above(row.seq_, log)
    ensures BySeq(log + [row])
  {}

  lemma AppendLinear(log: seq<Row>, row: Row)
    requires Linear(log) && Above(row.seq_, log) && row.prevHash == PrevAt(log, None, |log|)
    ensures Linear(log + [row])
  {
    AppendBySeq(log, row);
    hide BySeq, Above;
    forall i | 0 <= i <= |log| ensures Linked(log + [row], i) {
      assert i < |log| ==> Linked(log, i);
    }
  }

  /** The log a committed row extends is exactly the one its writer read. */
  lemma CommitExtendsHead(lib: Library, g: Guards, s: System, w: WriterId)
    requires Inv(lib, g, s) && (g.advisoryLock || g.uniqueIndexes)
    requires w in s.writers && s.writers[w].phase.Inserted?
    ensures s.writers[w].phase.seen == s.log && Linear(s.log + [s.writers[w].phase.row])
  {
    hide Records, Taken, DistinctHashes, Linear, Above;
    var p := s.writers[w].phase;
    WriterGood(lib, g, s, w);
    if !g.advisoryLock {
      UnclaimedHeadIsCurrent(s.log, p.seen, p.row);
    }
    AppendLinear(s.log, p.row);
  }

  lemma CommittedRowTakesItsKeys(s: System, t: System, w: WriterId, v: WriterId)
    requires w in s.writers && v in s.writers && v != w && s.writers[w].phase.Inserted? && s.writers[v].phase.Inserted?
    requires t.log == s.log + [s.writers[w].phase.row]
    requires !Taken(s.log, s.writers[v].phase.row) && !Pending(s, v, s.writers[v].phase.row)
    ensures !Taken(t.log, s.writers[v].phase.row)
  {
    assert !Clash(s.writers[w].phase, s.writers[v].phase.row);
  }

  lemma CommitKeepsWriters(lib: Library, g: Guards, s: System, w: WriterId, acknowledged: bool)
    requires Inv(lib, g, s) && w in s.writers && s.writers[w].phase.Inserted?
    ensures GoodWriters(lib, g, DoCommit(s, w, acknowledged))
  {
    hide Records, Linear, Above, Taken, SeqAt, DistinctHashes, GoodLog;
    var t := DoCommit(s, w, acknowledged);
    forall v | v in t.writers ensures GoodPhase(lib, g, t, v, t.writers[v]) {
      assert GoodPhase(lib, g, s, v, s.writers[v]) && GoodPhase(lib, g, s, w, s.writers[w]);
      if v != w && g.uniqueIndexes && s.writers[v].phase.Inserted? {
        CommittedRowTakesItsKeys(s, t, w, v);
      }
    }
    if g.uniqueIndexes {
      forall v | v in t.writers && t.writers[v].phase.Inserted? ensures !Pending(t, v, t.writers[v].phase.row) {
        assert !Pending(s, v, s.writers[v].phase.row);
      }
    }
  }

  lemma CommitKeepsLog(lib: Library, g: Guards, s: System, w: WriterId, acknowledged: bool)
    requires Inv(lib, g, s) && (g.advisoryLock || g.uniqueIndexes) && w in s.writers && s.writers[w].phase.Inserted?
    ensures GoodLog(lib, DoCommit(s, w, acknowledged))
  {
    hide Records, Linear, Above, GoodWriters, Taken, DistinctHashes, GoodScan;
    var t := DoCommit(s, w, acknowledged);
    CommitExtendsHead(lib, g, s, w);
    WriterGood(lib, g, s, w);
    forall i | 0 <= i < |t.log| ensures RecordsAuthor(lib, t, i) {
      if i < |s.log| {
        assert RecordsAuthor(lib, s, i);
      }
    }
    assert forall i :: 0 <= i < |s.authors| ==> RecordsAuthor(lib, s, i) && s.authors[i] != w;
    assert t.authors[|s.authors|] == w;
    forall v | v in t.writers && Stored(t.writers[v].phase) ensures v in t.authors {
      assert v != w ==> v in s.authors;
    }
  }

  lemma CommitKeepsInv(lib: Library, g: Guards, s: System, w: WriterId, acknowledged: bool)
    requires Inv(lib, g, s) && (g.advisoryLock || g.uniqueIndexes)
    ensures Inv(lib, g, DoCommit(s, w, acknowledged))
  {
    hide Records, Linear, Above, GoodWriters, GoodLog;
    var t := DoCommit(s, w, acknowledged);
    if t != s {
      CommitKeepsLog(lib, g, s, w, acknowledged);
      CommitKeepsWriters(lib, g, s, w, acknowledged);
      WriterGood(lib, g, s, w);
      ScanUnmoved(s, t);
    }
  }

  lemma WriterGood(lib: Library, g: Guards, s: System, w: WriterId)
    requires GoodWriters(lib, g, s) && w in s.writers
    ensures GoodPhase(lib, g, s, w, s.writers[w])
  {}

  lemma ScanUnmoved(s: System, t: System)
    requires GoodScan(s) && s.log <= t.log && t.scan == s.scan
    ensures GoodScan(t)
  {}

  // ---- the writer and the verifier agree ----

  /** A row read back after any re-layout of its metadata re-hashes to its stored hash. */
  lemma ReadBackIsGood(lib: Library, stored: Row, e: Event, read: Row)
    requires lib.Lawful() && Records(lib, stored, e) && ReadsAs(lib, stored, read)
    ensures GoodRow(lib, read, stored.prevHash)
  {
    hide CanonicalizeEventMetadata, IsObjectText, CanonicalizeMetadata, Preimage;
    RelayoutKeepsCanonicalForm(lib.nf, e.metadata, read.metadata);
    assert Rehashed(lib, read) == RowEntry(stored, stored.metadata);
  }

  /** The page's own links are those of the stretch of the log it was read from. */
  lemma PageLinks(lib: Library, log: seq<Row>, k: nat, n: nat, page: seq<Row>, i: nat)
    requires k <= n <= |log| && PageReadsAs(lib, log[k..n], page) && i < |page|
    ensures ReadsAs(lib, log[k + i], page[i])
    ensures PrevAt(page, PrevAt(log, None, k), i) == PrevAt(log, None, k + i)
  {
    hide Relayout;
    assert ReadsAs(lib, log[k..n][i], page[i]);
    assert i > 0 ==> ReadsAs(lib, log[k..n][i - 1], page[i - 1]);
  }

  lemma PageIsAccepted(lib: Library, s: System, k: nat, n: nat, page: seq<Row>)
    requires lib.Lawful() && GoodLog(lib, s) && k <= n <= |s.log| && PageReadsAs(lib, s.log[k..n], page)
    ensures Accepted(lib, page, PrevAt(s.log, None, k))
  {
    hide Records, GoodRow, ReadsAs, BySeq;
    forall i | 0 <= i < |page| ensures GoodAt(lib, page, PrevAt(s.log, None, k), i) {
      PageLinks(lib, s.log, k, n, page, i);
      assert Linked(s.log, k + i);
      assert RecordsAuthor(lib, s, k + i);
      ReadBackIsGood(lib, s.log[k + i], s.writers[s.authors[k + i]].event, page[i]);
    }
  }

  lemma ReadPageKeepsInv(lib: Library, g: Guards, s: System, limit: nat, page: seq<Row>)
    requires lib.Lawful() && Inv(lib, g, s)
    ensures Inv(lib, g, DoReadPage(lib, s, limit, page))
  {
    hide GoodLog, GoodWriters, Accepted, DistinctHashes, Relayout;
    var t := DoReadPage(lib, s, limit, page);
    if t != s {
      ReadPageAdvances(lib, s, limit, page);
      SameButScan(lib, g, s, t);
    }
  }

  lemma SameButScan(lib: Library, g: Guards, s: System, t: System)
    requires GoodLog(lib, s) && GoodWriters(lib, g, s) && t == s.(scan := t.scan)
    ensures GoodLog(lib, t) && GoodWriters(lib, g, t)
  {
    hide Records, Linear, Above, Taken;
    forall i | 0 <= i < |t.log| ensures RecordsAuthor(lib, t, i) {
      assert RecordsAuthor(lib, s, i);
    }
    forall w | w in t.writers ensures GoodPhase(lib, g, t, w, t.writers[w]) {
      assert GoodPhase(lib, g, s, w, s.writers[w]);
    }
    forall w | w in t.writers && t.writers[w].phase.Inserted? && g.uniqueIndexes
      ensures !Pending(t, w, t.writers[w].phase.row)
    {
      assert !Pending(s, w, s.writers[w].phase.row);
    }
  }

  /** The page a scan reads is the next stretch of the log. */
  lemma PageOfLog(lib: Library, log: seq<Row>, k: nat, limit: nat, page: seq<Row>) returns (n: nat)
    requires Linear(log) && k <= |log| && PageReadsAs(lib, ListFromSeq(SortedBySeq(log), SeqAt(log, k), limit), page)
    ensures n == Min(k + limit, |log|) && |page| == n - k && PageReadsAs(lib, log[k..n], page)
    ensures |page| > 0 ==> page[|page| - 1].seq_ == log[n - 1].seq_ && page[|page| - 1].hash == log[n - 1].hash
  {
    hide Relayout, ListFromSeq, SortedBySeq, BySeq;
    n := Min(k + limit, |log|);
    SortedIsIdentity(log);
    PageOf(log, k, limit);
    if |page| > 0 {
      PageLinks(lib, log, k, n, page, |page| - 1);
    }
  }

  lemma ReadPageAdvances(lib: Library, s: System, limit: nat, page: seq<Row>)
    requires lib.Lawful() && GoodLog(lib, s) && GoodScan(s) && DoReadPage(lib, s, limit, page) != s
    ensures GoodScan(DoReadPage(lib, s, limit, page))
  {
    hide Accepted, PageReadsAs, Linear, RecordsAuthor, ListFromSeq, SortedBySeq;
    var n := PageOfLog(lib, s.log, s.scan.checked, limit, page);
    PageIsAccepted(lib, s, s.scan.checked, n, page);
  }

  lemma StepKeepsInv(lib: Library, g: Guards, s: System, a: Action)
    requires lib.Lawful() && Inv(lib, g, s) && (g.advisoryLock || g.uniqueIndexes)
    ensures Inv(lib, g, Step(lib, g, s, a))
  {
    hide Inv, DoStart, DoLock, DoReadHead, DoNextSeq, DoInsert, DoCommit, DoFail, DoReadPage;
    match a
    case Start(w, e) => StartKeepsInv(lib, g, s, w, e);
    case Lock(w) => LockKeepsInv(lib, g, s, w);
    case ReadHead(w) => ReadHeadKeepsInv(lib, g, s, w);
    case NextSeq(w) => NextSeqKeepsInv(lib, g, s, w);
    case Insert(w, id, timestamp) => InsertKeepsInv(lib, g, s, w, id, timestamp);
    case Commit(w, acknowledged) => CommitKeepsInv(lib, g, s, w, acknowledged);
    case Fail(w) => FailKeepsInv(lib, g, s, w);
    case ReadPage(limit, page) => ReadPageKeepsInv(lib, g, s, limit, page);
  }

  lemma {:induction false} RunKeepsInv(lib: Library, g: Guards, actions: seq<Action>)
    requires lib.Lawful() && (g.advisoryLock || g.uniqueIndexes)
    ensures Inv(lib, g, Run(lib, g, actions))
  {
    hide Step;
    if |actions| > 0 {
      hide Inv;
      RunKeepsInv(lib, g, actions[..|actions| - 1]);
      StepKeepsInv(lib, g, Run(lib, g, actions[..|actions| - 1]), actions[|actions| - 1]);
    }
  }

  // ---- theorems over all runs ----

  /** The log never forks, whatever the interleaving, exactly when at least one defence is in place. */
  lemma NoForkIffGuarded(lib: Library, g: Guards)
    requires lib.Lawful()
    ensures (forall actions :: Linear(Run(lib, g, actions).log)) <==> (g.advisoryLock || g.uniqueIndexes)
  {
    hide Linear, Run;
    if g.advisoryLock || g.uniqueIndexes {
      forall actions ensures Linear(Run(lib, g, actions).log) {
        RunKeepsInv(lib, g, actions);
      }
    } else {
      TwoGenesisRows(lib, g);
    }
  }

  function Silent(): Event {
    Event(None, "", "", "", None, None, None)
  }

  /** Two transactions that read the empty log before either commits. */
  function Race(id: Uuid, timestamp: Timestamp): seq<Action> {
    [Start(0, Silent()), Start(1, Silent()), Lock(0), Lock(1), ReadHead(0), ReadHead(1), NextSeq(0), NextSeq(1),
     Insert(0, id, timestamp), Insert(1, id, timestamp), Commit(0, true), Commit(1, true)]
  }

  lemma RunStep(lib: Library, g: Guards, actions: seq<Action>, k: nat)
    requires k < |actions|
    ensures Run(lib, g, actions[..k + 1]) == Step(lib, g, Run(lib, g, actions[..k]), actions[k])
  {
    assert actions[..k + 1][..k] == actions[..k];
  }

  /** Both writers of the race in these phases, over this log. */
  ghost predicate Racing(s: System, p: Phase, q: Phase, log: seq<Row>, next: nat) {
    && s.writers == map[0 := Writer(Silent(), 0, p), 1 := Writer(Silent(), 0, q)]
    && s.log == log && s.lock.None? && s.nextSeq == next
  }

  lemma BothLocked(lib: Library, g: Guards, id: Uuid, timestamp: Timestamp)
    requires lib.Lawful() && !g.advisoryLock
    ensures Racing(Run(lib, g, Race(id, timestamp)[..4]), Locked, Locked, [], 1)
  {
    hide CanonicalizeEventMetadata, DoInsert, DoCommit, DoReadPage, DoNextSeq, DoFail;
    EventMetadataAlwaysCanonicalizes(lib.nf, None);
    var a := Race(id, timestamp);
    assert Run(lib, g, a[..0]) == Initial();
    hide Run;
    RunStep(lib, g, a, 0);
    RunStep(lib, g, a, 1);
    assert Racing(Run(lib, g, a[..2]), Open, Open, [], 1);
    RunStep(lib, g, a, 2);
    RunStep(lib, g, a, 3);
  }

  lemma BothReadEmptyLog(lib: Library, g: Guards, id: Uuid, timestamp: Timestamp)
    requires lib.Lawful() && !g.advisoryLock
    ensures Racing(Run(lib, g, Race(id, timestamp)[..8]), Numbered([], 1), Numbered([], 2), [], 3)
  {
    hide Run, DoStart, DoLock, DoInsert, DoCommit, DoReadPage, DoFail;
    var a := Race(id, timestamp);
    BothLocked(lib, g, id, timestamp);
    RunStep(lib, g, a, 4);
    RunStep(lib, g, a, 5);
    assert Racing(Run(lib, g, a[..6]), HeadRead([]), HeadRead([]), [], 1);
    RunStep(lib, g, a, 6);
    RunStep(lib, g, a, 7);
  }

  lemma TwoGenesisRows(lib: Library, g: Guards)
    requires lib.Lawful() && !g.advisoryLock && !g.uniqueIndexes
    ensures exists actions :: !Linear(Run(lib, g, actions).log)
  {
    hide CanonicalizeEventMetadata, Run, NewRow, DoStart, DoLock, DoReadHead, DoNextSeq, DoReadPage;
    var id: Uuid := seq(16, _ => 0);
    var timestamp: Timestamp := CalendarTime(1970, 1, 1, 0, 0, 0, 0);
    EventMetadataAlwaysCanonicalizes(lib.nf, None);
    var a := Race(id, timestamp);
    BothReadEmptyLog(lib, g, id, timestamp);
    var first := PendingRow(lib, Writer(Silent(), 0, Numbered([], 1)), id, timestamp).value;
    var second := PendingRow(lib, Writer(Silent(), 0, Numbered([], 2)), id, timestamp).value;
    RunStep(lib, g, a, 8);
    RunStep(lib, g, a, 9);
    assert Racing(Run(lib, g, a[..10]), Inserted([], first), Inserted([], second), [], 3);
    RunStep(lib, g, a, 10);
    RunStep(lib, g, a, 11);
    assert a[..12] == a;
    assert Run(lib, g, a).log == [first, second];
    SecondRowHasNoPredecessor(lib, id, timestamp, first, second);
  }

  lemma SecondRowHasNoPredecessor(lib: Library, id: Uuid, timestamp: Timestamp, first: Row, second: Row)
    requires PendingRow(lib, Writer(Silent(), 0, Numbered([], 2)), id, timestamp) == Ok(second)
    ensures !Linear([first, second])
  {
    assert second.prevHash == None;
    assert !Linked([first, second], 1);
  }

  /** Every row of every reachable log is accepted, however the database lays its metadata out. Each call has at most
      one row; it has one, which records its event, exactly when it returned without an error or only the reply to its
      COMMIT was lost. */
  lemma RecordedExactlyOnce(lib: Library, g: Guards, actions: seq<Action>, read: seq<Row>)
    requires lib.Lawful() && (g.advisoryLock || g.uniqueIndexes)
    ensures var s := Run(lib, g, actions);
      && (PageReadsAs(lib, s.log, read) ==> Accepted(lib, read, None))
      && |s.authors| == |s.log|
      && (forall w :: w in s.authors <==> w in s.writers && Stored(s.writers[w].phase))
      && (forall i, j :: 0 <= i < j < |s.authors| ==> s.authors[i] != s.authors[j])
      && (forall i :: 0 <= i < |s.log| ==> Records(lib, s.log[i], s.writers[s.authors[i]].event))
  {
    hide Records, Run, Accepted, Linear, GoodWriters, GoodScan;
    var s := Run(lib, g, actions);
    RunKeepsInv(lib, g, actions);
    forall i | 0 <= i < |s.log|
      ensures s.authors[i] in s.writers && Stored(s.writers[s.authors[i]].phase)
      ensures Records(lib, s.log[i], s.writers[s.authors[i]].event)
    {
      assert RecordsAuthor(lib, s, i);
    }
    assert s.log[0..|s.log|] == s.log;
    if PageReadsAs(lib, s.log, read) {
      PageIsAccepted(lib, s, 0, |s.log|, read);
    }
  }

  ghost predicate AtMostThreeAttempts(s: System) {
    forall w :: w in s.writers ==> s.writers[w].attempt <= 3 && (InTransaction(s.writers[w].phase) ==> s.writers[w].attempt < 3)
  }

  lemma StepKeepsAttempts(lib: Library, g: Guards, s: System, a: Action)
    requires AtMostThreeAttempts(s)
    ensures AtMostThreeAttempts(Step(lib, g, s, a))
  {
    hide PendingRow, Pending, Taken, CanonicalizeEventMetadata, PageReadsAs, Accepted, ListFromSeq;
  }

  lemma {:induction false} AttemptsAreBounded(lib: Library, g: Guards, actions: seq<Action>)
    ensures AtMostThreeAttempts(Run(lib, g, actions))
  {
    hide Step;
    if |actions| > 0 {
      AttemptsAreBounded(lib, g, actions[..|actions| - 1]);
      StepKeepsAttempts(lib, g, Run(lib, g, actions[..|actions| - 1]), actions[|actions| - 1]);
    }
  }

  /** Over every run: an insert that an index refuses ends its transaction, gives up the lock and leaves the log alone; the
      call starts over unless that was its third attempt, and no call makes a fourth. */
  lemma RefusedInsertStartsOver(lib: Library, g: Guards, actions: seq<Action>, w: WriterId, id: Uuid, timestamp: Timestamp)
    requires var s := Run(lib, g, actions);
      && g.uniqueIndexes && w in s.writers && s.writers[w].phase.Numbered?
      && var row := PendingRow(lib, s.writers[w], id, timestamp);
         row.Ok? && !Pending(s, w, row.value) && Taken(s.log, row.value)
    ensures var s := Run(lib, g, actions); var t := Step(lib, g, s, Insert(w, id, timestamp)); var me := s.writers[w];
      && t.log == s.log && t.authors == s.authors && t.lock != Some(w)
      && t.writers == s.writers[w := Writer(me.event, me.attempt + 1, if me.attempt < 2 then Open else Lost)]
      && me.attempt < 3
  {
    AttemptsAreBounded(lib, g, actions);
    hide Run, PendingRow, Pending, Taken;
  }

  /** A scan interleaved with the writers never reports a failure, and when it ends it has checked every row
      committed before its last page was read. */
  lemma FinishedScanCoversLog(lib: Library, g: Guards, actions: seq<Action>)
    requires lib.Lawful() && (g.advisoryLock || g.uniqueIndexes)
    ensures var s := Run(lib, g, actions);
      s.scan.finished ==> s.scan.verified && s.scan.checked == |s.scan.covered| && s.scan.covered <= s.log
  {
    hide Run, GoodLog, GoodWriters;
    RunKeepsInv(lib, g, actions);
  }

  /** With both defences an insert can only be refused for a repeated digest, never for its predecessor. */
  lemma LockLeavesOnlyHashConflicts(lib: Library, actions: seq<Action>, w: WriterId, id: Uuid, timestamp: Timestamp)
    requires lib.Lawful()
    ensures var g := Guards(true, true); var s := Run(lib, g, actions);
      w in s.writers && s.writers[w].phase.Numbered? && PendingRow(lib, s.writers[w], id, timestamp).Ok? ==>
        var row := PendingRow(lib, s.writers[w], id, timestamp).value;
        && !Pending(s, w, row)
        && (Taken(s.log, row) <==> exists i :: 0 <= i < |s.log| && s.log[i].hash == row.hash)
  {
    hide Run, Records, PendingRow;
    var g := Guards(true, true);
    var s := Run(lib, g, actions);
    RunKeepsInv(lib, g, actions);
    if w in s.writers && s.writers[w].phase.Numbered? && PendingRow(lib, s.writers[w], id, timestamp).Ok? {
      var row := PendingRow(lib, s.writers[w], id, timestamp).value;
      assert GoodPhase(lib, g, s, w, s.writers[w]);
      PendingRowRecords(lib, s.log, s.writers[w], id, timestamp);
      forall v | v in s.writers && v != w ensures !Clash(s.writers[v].phase, row) {
        assert GoodPhase(lib, g, s, v, s.writers[v]);
      }
      forall i | 0 <= i < |s.log| ensures s.log[i].prevHash != row.prevHash {
        assert Linked(s.log, i);
      }
    }
  }
}
