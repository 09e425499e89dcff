/** The chain protocol makes progress: whenever the lock is free a call can record its event, and whenever a scan is
    given the rest of the log it finishes. */
module ChainProgress {
  import opened Outcomes
  import opened Canonical
  import opened EntryText
  import opened AuditChain
  import opened ChainProtocol

  const BOTH := Guards(true, true)

  lemma RunOneMore(lib: Library, actions: seq<Action>, a: Action)
    ensures Run(lib, BOTH, actions + [a]) == Step(lib, BOTH, Run(lib, BOTH, actions), a)
  {
    assert (actions + [a])[..|actions|] == actions;
  }

  /** One call that meets no conflict, from its start to the reply to its COMMIT. */
  function WholeCall(w: WriterId, e: Event, id: Uuid, timestamp: Timestamp): seq<Action> {
    [Start(w, e), Lock(w), ReadHead(w), NextSeq(w)] + [Insert(w, id, timestamp), Commit(w, true)]
  }

  lemma FourSteps(lib: Library, actions: seq<Action>, a: Action, b: Action, c: Action, d: Action)
    ensures Run(lib, BOTH, actions + [a, b, c, d]) ==
      Step(lib, BOTH, Step(lib, BOTH, Step(lib, BOTH, Step(lib, BOTH, Run(lib, BOTH, actions), a), b), c), d)
  {
    hide Run, Step;
    RunOneMore(lib, actions, a);
    RunOneMore(lib, actions + [a], b);
    RunOneMore(lib, actions + [a] + [b], c);
    RunOneMore(lib, actions + [a] + [b] + [c], d);
    assert actions + [a] + [b] + [c] + [d] == actions + [a, b, c, d];
  }

  /** Under a free lock a new call gets as far as its number. */
  lemma GetsItsNumber(lib: Library, actions: seq<Action>, w: WriterId, e: Event)
    requires lib.Lawful()
    requires var s := Run(lib, BOTH, actions); s.lock.None? && w !in s.writers
    ensures var s, t := Run(lib, BOTH, actions), Run(lib, BOTH, actions + [Start(w, e), Lock(w), ReadHead(w), NextSeq(w)]);
      t == s.(lock := Some(w), nextSeq := s.nextSeq + 1, writers := s.writers[w := Writer(e, 0, Numbered(s.log, s.nextSeq))])
  {
    FourSteps(lib, actions, Start(w, e), Lock(w), ReadHead(w), NextSeq(w));
    EventMetadataAlwaysCanonicalizes(lib.nf, e.metadata);
    hide Run, CanonicalizeEventMetadata, DoInsert, DoCommit, DoFail, DoReadPage;
  }

  /** An insert that meets neither a pending nor a committed rival is committed as it is. */
  lemma InsertCommits(lib: Library, s: System, w: WriterId, id: Uuid, timestamp: Timestamp, row: Row)
    requires w in s.writers && s.writers[w].phase.Numbered? && s.lock == Some(w)
    requires PendingRow(lib, s.writers[w], id, timestamp) == Ok(row) && !Pending(s, w, row) && !Taken(s.log, row)
    ensures var t := Step(lib, BOTH, Step(lib, BOTH, s, Insert(w, id, timestamp)), Commit(w, true));
      t == s.(log := s.log + [row], authors := s.authors + [w], lock := None, writers := s.writers[w := s.writers[w].(phase := Recorded)])
  {
    hide PendingRow, Pending, Taken, DoStart, DoLock, DoReadHead, DoNextSeq, DoFail, DoReadPage;
  }

  lemma TwoSteps(lib: Library, actions: seq<Action>, a: Action, b: Action)
    ensures Run(lib, BOTH, actions + [a, b]) == Step(lib, BOTH, Step(lib, BOTH, Run(lib, BOTH, actions), a), b)
  {
    hide Run, Step;
    RunOneMore(lib, actions, a);
    RunOneMore(lib, actions + [a], b);
    assert actions + [a] + [b] == actions + [a, b];
  }

  lemma SplitCall(actions: seq<Action>, w: WriterId, e: Event, id: Uuid, timestamp: Timestamp)
    ensures actions + WholeCall(w, e, id, timestamp) ==
      (actions + [Start(w, e), Lock(w), ReadHead(w), NextSeq(w)]) + [Insert(w, id, timestamp), Commit(w, true)]
  {}

  /** The row the call will insert. */
  lemma RowToInsert(lib: Library, s: System, e: Event, id: Uuid, timestamp: Timestamp) returns (row: Row)
    requires lib.Lawful() && Linear(s.log)
    ensures PendingRow(lib, Writer(e, 0, Numbered(s.log, s.nextSeq)), id, timestamp) == Ok(row)
    ensures Records(lib, row, e) && row.id == id && row.timestamp == timestamp
    ensures row.seq_ == s.nextSeq && row.prevHash == PrevAt(s.log, None, |s.log|)
  {
    EventMetadataAlwaysCanonicalizes(lib.nf, e.metadata);
    var me := Writer(e, 0, Numbered(s.log, s.nextSeq));
    hide Linear, CanonicalizeEventMetadata, HeadHash;
    row := PendingRow(lib, me, id, timestamp).value;
    PendingRowRecords(lib, s.log, me, id, timestamp);
  }

  /** From every reachable state with a free lock, a new call for any event can record it: exactly one row is added behind
      the head, with the event's fields and the next sequence number, and the lock is free again. The one condition is
      that the row's digest is not in the log yet. */
  lemma CallRecordsItsEvent(lib: Library, actions: seq<Action>, w: WriterId, e: Event, id: Uuid, timestamp: Timestamp) returns (row: Row)
    requires lib.Lawful()
    requires var s := Run(lib, BOTH, actions); s.lock.None? && w !in s.writers
    ensures var s, t := Run(lib, BOTH, actions), Run(lib, BOTH, actions + WholeCall(w, e, id, timestamp));
      && Records(lib, row, e) && row.id == id && row.timestamp == timestamp
      && row.seq_ == s.nextSeq && row.prevHash == (if |s.log| == 0 then None else Some(s.log[|s.log| - 1].hash))
      && ((forall i :: 0 <= i < |s.log| ==> s.log[i].hash != row.hash) ==>
            && t.log == s.log + [row] && t.authors == s.authors + [w] && t.lock == None
            && t.writers == s.writers[w := Writer(e, 0, Recorded)])
  {
    var s := Run(lib, BOTH, actions);
    LogIsLinear(lib, actions);
    hide Run, Linear, Step, PendingRow, Records, WholeCall;
    row := RowToInsert(lib, s, e, id, timestamp);
    if forall i :: 0 <= i < |s.log| ==> s.log[i].hash != row.hash {
      NewDigestIsRecorded(lib, actions, w, e, id, timestamp, row);
    }
  }

  lemma NewDigestIsRecorded(lib: Library, actions: seq<Action>, w: WriterId, e: Event, id: Uuid, timestamp: Timestamp, row: Row)
    requires lib.Lawful()
    requires var s := Run(lib, BOTH, actions);
      && s.lock.None? && w !in s.writers && PendingRow(lib, Writer(e, 0, Numbered(s.log, s.nextSeq)), id, timestamp) == Ok(row)
      && forall i :: 0 <= i < |s.log| ==> s.log[i].hash != row.hash
    ensures var s, t := Run(lib, BOTH, actions), Run(lib, BOTH, actions + WholeCall(w, e, id, timestamp));
      && t.log == s.log + [row] && t.authors == s.authors + [w] && t.lock == None
      && t.writers == s.writers[w := Writer(e, 0, Recorded)]
  {
    hide Run, Step, PendingRow;
    GetsItsNumber(lib, actions, w, e);
    NumberedCommits(lib, actions + [Start(w, e), Lock(w), ReadHead(w), NextSeq(w)], w, id, timestamp, row);
    SplitCall(actions, w, e, id, timestamp);
    hide WholeCall;
  }

  lemma LogIsLinear(lib: Library, actions: seq<Action>)
    requires lib.Lawful()
    ensures Linear(Run(lib, BOTH, actions).log)
  {
    hide Run, Linear, GoodWriters, GoodScan, DistinctHashes, RecordsAuthor;
    RunKeepsInv(lib, BOTH, actions);
  }

  lemma NumberedCommits(lib: Library, numbered: seq<Action>, w: WriterId, id: Uuid, timestamp: Timestamp, row: Row)
    requires lib.Lawful()
    requires var s := Run(lib, BOTH, numbered); w in s.writers && s.writers[w].phase.Numbered? && s.lock == Some(w)
    requires var s := Run(lib, BOTH, numbered);
      PendingRow(lib, s.writers[w], id, timestamp) == Ok(row) && forall i :: 0 <= i < |s.log| ==> s.log[i].hash != row.hash
    ensures var s, t := Run(lib, BOTH, numbered), Run(lib, BOTH, numbered + [Insert(w, id, timestamp), Commit(w, true)]);
      t == s.(log := s.log + [row], authors := s.authors + [w], lock := None, writers := s.writers[w := s.writers[w].(phase := Recorded)])
  {
    hide Run, PendingRow, Pending, Taken, Step;
    LockLeavesOnlyHashConflicts(lib, numbered, w, id, timestamp);
    TwoSteps(lib, numbered, Insert(w, id, timestamp), Commit(w, true));
    InsertCommits(lib, Run(lib, BOTH, numbered), w, id, timestamp, row);
  }

  /** The advisory lock belongs to exactly the transactions that have taken it and not ended. */
  ghost predicate LockMatches(s: System) {
    forall w :: s.lock == Some(w) <==> w in s.writers && HoldsLock(s.writers[w].phase)
  }

  lemma StepKeepsLock(lib: Library, s: System, a: Action)
    requires LockMatches(s)
    ensures LockMatches(Step(lib, BOTH, s, a))
  {
    hide PendingRow, Pending, Taken, CanonicalizeEventMetadata, PageReadsAs, Accepted, ListFromSeq, SortedBySeq;
  }

  /** In every run the lock is held by exactly the open transaction that took it: it is released by COMMIT, by a refused
      insert and by every error, and by nothing else. */
  lemma {:induction false} LockIsReleased(lib: Library, actions: seq<Action>)
    ensures LockMatches(Run(lib, BOTH, actions))
  {
    hide Step;
    if |actions| > 0 {
      LockIsReleased(lib, actions[..|actions| - 1]);
      StepKeepsLock(lib, Run(lib, BOTH, actions[..|actions| - 1]), actions[|actions| - 1]);
    }
  }

  lemma RestOfLog(log: seq<Row>, k: nat, limit: nat)
    requires Linear(log) && k <= |log| < k + limit
    ensures ListFromSeq(SortedBySeq(log), SeqAt(log, k), limit) == log[k..]
  {
    SortedIsIdentity(log);
    PageOf(log, k, limit);
    assert log[k..|log|] == log[k..];
  }

  lemma LastPageFinishes(lib: Library, s: System, limit: nat, page: seq<Row>)
    requires lib.Lawful() && GoodLog(lib, s) && GoodScan(s) && !s.scan.finished
    requires |page| < limit && PageReadsAs(lib, s.log[s.scan.checked..], page)
    ensures var t := DoReadPage(lib, s, limit, page);
      t.scan.finished && t.scan.verified && t.scan.checked == |s.log| && t.scan.covered == s.log && t.log == s.log
  {
    RestIsAccepted(lib, s, page);
    RestOfLog(s.log, s.scan.checked, limit);
    hide Accepted, Linear, RecordsAuthor, ListFromSeq, SortedBySeq, PageReadsAs;
  }

  lemma RestIsAccepted(lib: Library, s: System, page: seq<Row>)
    requires lib.Lawful() && GoodLog(lib, s) && s.scan.checked <= |s.log| && PageReadsAs(lib, s.log[s.scan.checked..], page)
    ensures |page| == |s.log| - s.scan.checked && Accepted(lib, page, PrevAt(s.log, None, s.scan.checked))
  {
    assert s.log[s.scan.checked..|s.log|] == s.log[s.scan.checked..];
    hide Accepted, GoodLog, ReadsAs;
    PageIsAccepted(lib, s, s.scan.checked, |s.log|, page);
  }

  /** From every reachable state a scan that is not finished, once it is given the rest of the log in one page, finishes
      and has verified every committed row. */
  lemma ScanFinishes(lib: Library, actions: seq<Action>, limit: nat, page: seq<Row>)
    requires lib.Lawful()
    requires var s := Run(lib, BOTH, actions);
      !s.scan.finished && s.scan.checked <= |s.log| && |page| < limit && PageReadsAs(lib, s.log[s.scan.checked..], page)
    ensures var s, t := Run(lib, BOTH, actions), Run(lib, BOTH, actions + [ReadPage(limit, page)]);
      t.scan.finished && t.scan.verified && t.scan.checked == |s.log| && t.scan.covered == s.log && t.log == s.log
  {
    hide Run, DoReadPage, GoodLog, GoodScan, GoodWriters, DistinctHashes, PageReadsAs;
    RunKeepsInv(lib, BOTH, actions);
    RunOneMore(lib, actions, ReadPage(limit, page));
    LastPageFinishes(lib, Run(lib, BOTH, actions), limit, page);
  }
}
