/** What verification jobs store, statement by statement, and who may declare one failed. */
module VerificationResults {
  import opened Outcomes
  import opened AuditChain
  import opened VerificationJobs

  // ---- the error handler acts only after the last retry ----

  /** A delivery of this job carries the retry count of the third and last retry. */
  ghost predicate LastRetryDelivered(s: System, id: JobId) {
    exists d :: d in s.deliveries && s.deliveries[d].id == id && s.deliveries[d].retried >= 3
  }

  /** The row holds what only the error handler writes. */
  predicate OperationallyFailed(j: Job) {
    j.failureType == Some("DATABASE_ERROR") || j.failureType == Some("TIMEOUT")
  }

  ghost predicate OnlyAfterLastRetry(s: System) {
    && (forall id :: id in s.table && OperationallyFailed(s.table[id]) ==> LastRetryDelivered(s, id))
    && (forall d :: d in s.deliveries && s.deliveries[d].phase.SawActive? ==> s.deliveries[d].retried >= 3)
  }

  /** Deliveries stay, with their job and retry count. */
  predicate KeepsDeliveries(s: System, t: System) {
    forall d :: d in s.deliveries ==>
      d in t.deliveries && t.deliveries[d].id == s.deliveries[d].id && t.deliveries[d].retried == s.deliveries[d].retried
  }

  lemma QuietKeepsDeliveries(s: System, a: Action)
    ensures KeepsDeliveries(s, DoQuiet(s, a))
  {
    hide Due, Verdict;
  }

  lemma StepKeepsDeliveries(s: System, a: Action)
    ensures KeepsDeliveries(s, Step(s, a))
  {
    hide DoQuiet, DoBegin, DoProgress, DoPersist, DoHandlerRead, DoHandlerComplete, DoRead, DoRequest, KeepsDeliveries;
    match a
    case Tick(_) => SameDeliveries(s, Step(s, a));
    case Begin(_) => ScanKeepsDeliveries(s, a);
    case Progress(_, _, _) => ScanKeepsDeliveries(s, a);
    case Persist(_) => ScanKeepsDeliveries(s, a);
    case HandlerRead(_) => HandlerKeepsDeliveries(s, a);
    case HandlerComplete(_, _) => HandlerKeepsDeliveries(s, a);
    case _ =>
      QuietKeepsDeliveries(s, a);
      TableKeepsDeliveries(s, a);
  }

  lemma SameDeliveries(s: System, t: System)
    requires t.deliveries == s.deliveries
    ensures KeepsDeliveries(s, t)
  {}

  lemma ScanKeepsDeliveries(s: System, a: Action)
    requires a.Begin? || a.Progress? || a.Persist?
    ensures KeepsDeliveries(s, Step(s, a))
  {
    hide MarkRunning, UpdateProgress, Complete, DoQuiet, DoHandlerRead, DoHandlerComplete, DoRead, DoRequest;
  }

  lemma HandlerKeepsDeliveries(s: System, a: Action)
    requires a.HandlerRead? || a.HandlerComplete?
    ensures KeepsDeliveries(s, Step(s, a))
  {
    hide Complete, DoQuiet, DoBegin, DoProgress, DoPersist, DoRead, DoRequest;
  }

  lemma TableKeepsDeliveries(s: System, a: Action)
    ensures KeepsDeliveries(s, DoRead(s, a)) && KeepsDeliveries(s, DoRequest(s, a))
  {
    hide MarkStale, Create, AnyActive, Current;
  }

  lemma VerdictsAreNotOperational(f: string)
    requires f in FAILURE_TYPES || f == "STALE_TIMEOUT"
    ensures f != "DATABASE_ERROR" && f != "TIMEOUT"
  {
    assert "DATABASE_ERROR"[0] == 'D' && "TIMEOUT"[0] == 'T' && "GENESIS_INVALID"[0] == 'G' && "PREVIOUS_HASH_MISMATCH"[0] == 'P';
    assert "CANONICALIZATION_ERROR"[0] == 'C' && "ENTRY_HASH_MISMATCH"[0] == 'E' && "STALE_TIMEOUT"[0] == 'S';
  }

  lemma PersistedIsVerdict(s: System, d: nat, id: JobId)
    requires Inv(s) && var t := Step(s, Persist(d)); id in t.table && OperationallyFailed(t.table[id])
    ensures id in s.table && OperationallyFailed(s.table[id])
  {
    hide Checks, OtherActive, Sound, GoodReader, DoBegin, DoProgress, DoRead, DoQuiet, DoHandlerRead, DoHandlerComplete, DoRequest;
    if d in s.deliveries && s.deliveries[d].phase.Scanned? && s.deliveries[d].phase.failure.Some? {
      assert GoodDelivery(s.table, s.deliveries[d]);
      VerdictsAreNotOperational(s.deliveries[d].phase.failure.value.failureType);
    }
  }

  lemma OthersAreNotOperational(s: System, a: Action, id: JobId)
    requires !a.Persist? && !a.HandlerComplete? && var t := Step(s, a); id in t.table && OperationallyFailed(t.table[id])
    ensures id in s.table && OperationallyFailed(s.table[id])
  {
    VerdictsAreNotOperational("STALE_TIMEOUT");
    hide Checks, OtherActive, DoPersist, DoHandlerComplete, Current, Due;
  }

  lemma HandlerWritesItsJob(s: System, d: nat, timedOut: bool, id: JobId)
    requires var t := Step(s, HandlerComplete(d, timedOut)); id in t.table && OperationallyFailed(t.table[id])
    ensures (id in s.table && OperationallyFailed(s.table[id])) || (d in s.deliveries && s.deliveries[d].id == id && s.deliveries[d].phase.SawActive?)
  {
    hide Checks, OtherActive, DoBegin, DoProgress, DoRead, DoQuiet, DoHandlerRead, DoPersist, DoRequest;
  }

  /** Only the error handler's write makes a row operationally failed that was not. */
  lemma NewlyFailed(s: System, a: Action, id: JobId)
    requires Inv(s) && var t := Step(s, a); id in t.table && OperationallyFailed(t.table[id])
    ensures (id in s.table && OperationallyFailed(s.table[id])) ||
      (a.HandlerComplete? && a.d in s.deliveries && s.deliveries[a.d].id == id && s.deliveries[a.d].phase.SawActive?)
  {
    hide Step, Inv, OperationallyFailed;
    match a
    case Persist(d) => PersistedIsVerdict(s, d, id);
    case HandlerComplete(d, timedOut) => HandlerWritesItsJob(s, d, timedOut, id);
    case _ => OthersAreNotOperational(s, a, id);
  }

  lemma NewlyArmed(s: System, a: Action, d: nat)
    requires var t := Step(s, a); d in t.deliveries && t.deliveries[d].phase.SawActive?
    ensures d in s.deliveries && (s.deliveries[d].phase.SawActive? || s.deliveries[d].retried >= 3)
  {
    if a.HandlerRead? {
      hide DoBegin, DoProgress, DoPersist, DoHandlerComplete, DoRead, DoRequest, DoQuiet;
    } else {
      OthersArmNothing(s, a, d);
    }
  }

  lemma OthersArmNothing(s: System, a: Action, d: nat)
    requires !a.HandlerRead? && var t := Step(s, a); d in t.deliveries && t.deliveries[d].phase.SawActive?
    ensures d in s.deliveries && s.deliveries[d].phase.SawActive?
  {
    hide MarkRunning, UpdateProgress, Complete, MarkStale, Create, DoHandlerRead, Due, Verdict;
  }

  lemma StepKeepsOnlyAfterLastRetry(s: System, a: Action)
    requires Inv(s) && OnlyAfterLastRetry(s)
    ensures OnlyAfterLastRetry(Step(s, a))
  {
    var t := Step(s, a);
    StepKeepsDeliveries(s, a);
    forall id | id in t.table && OperationallyFailed(t.table[id]) ensures LastRetryDelivered(t, id) {
      NewlyFailed(s, a, id);
      hide Step, Inv, OperationallyFailed;
      var d :| d in s.deliveries && s.deliveries[d].id == id && s.deliveries[d].retried >= 3;
      assert t.deliveries[d].id == id;
    }
    forall d | d in t.deliveries && t.deliveries[d].phase.SawActive? ensures t.deliveries[d].retried >= 3 {
      NewlyArmed(s, a, d);
      hide Step, Inv, OperationallyFailed;
    }
  }

  /** Over every run: a job is declared operationally failed, or about to be, only once the last of its three retries
      has been delivered. */
  lemma {:induction false} FailedOnlyAfterLastRetry(actions: seq<Action>)
    ensures OnlyAfterLastRetry(RunFrom(Initial(), actions))
  {
    hide Step, Inv;
    if |actions| > 0 {
      var init := actions[..|actions| - 1];
      FailedOnlyAfterLastRetry(init);
      InitialInv();
      RunKeepsInv(Initial(), init);
      StepKeepsOnlyAfterLastRetry(RunFrom(Initial(), init), actions[|actions| - 1]);
    }
  }

  /** From any state of any run, the handler of a failed delivery arms exactly if this was the last retry and the job is
      still queued or running; before the last retry it changes nothing, so the job stays as it is for the next one. */
  lemma HandlerArmsIff(before: seq<Action>, d: nat)
    requires var s := RunFrom(Initial(), before); d in s.deliveries && s.deliveries[d].phase.Erred?
    ensures var s := RunFrom(Initial(), before); var t := Step(s, HandlerRead(d)); var me := s.deliveries[d];
      && me.id in s.table && d in t.deliveries && t.table == s.table
      && (me.retried < 3 ==> t == s)
      && (me.retried >= 3 && (s.table[me.id].status == QUEUED || s.table[me.id].status == RUNNING) ==>
            t.deliveries[d] == me.(phase := SawActive(s.table[me.id].entriesChecked)))
      && (me.retried >= 3 && s.table[me.id].status != QUEUED && s.table[me.id].status != RUNNING ==>
            t.deliveries[d] == me.(phase := Done))
  {
    InitialInv();
    RunKeepsInv(Initial(), before);
    hide RunFrom, Sound, GoodReader, ScannedOnce, DoBegin, DoProgress, DoPersist, DoHandlerComplete, DoRead, DoQuiet, DoRequest;
    assert GoodDelivery(RunFrom(Initial(), before).table, RunFrom(Initial(), before).deliveries[d]);
  }

  // ---- what the statements store ----

  /** What a finished scan stores, in every run: the verdict with the rows it counted, and of a failure the entry, the
      sequence number and the type that the report names. Everything else in the row stays. */
  lemma ScanStores(before: seq<Action>, d: nat)
    requires var s := RunFrom(Initial(), before); d in s.deliveries && s.deliveries[d].phase.Scanned?
    ensures var s := RunFrom(Initial(), before); var t := Step(s, Persist(d)); var id := s.deliveries[d].id;
      var failure := s.deliveries[d].phase.failure;
      && id in s.table && t.table.Keys == s.table.Keys && (forall other :: other in s.table && other != id ==> t.table[other] == s.table[other])
      && t.table[id].status == (if failure.None? then VERIFIED else INTEGRITY_FAILURE)
      && t.table[id].entriesChecked == s.deliveries[d].phase.checked
      && (failure.None? ==> t.table[id].failedEntryID == None && t.table[id].failedSeq == None && t.table[id].failureType == None)
      && (failure.Some? ==>
            && t.table[id].failedEntryID == failure.value.failedEntryID && t.table[id].failedSeq == failure.value.failedSeq
            && t.table[id].failureType == Some(failure.value.failureType))
      && t.table[id].completedAt == Some(s.now) && t.table[id].updatedAt == s.now && SameStart(s.table[id], t.table[id])
      && t.table[id].lastSeqChecked == s.table[id].lastSeqChecked
  {
    InitialInv();
    RunKeepsInv(Initial(), before);
    var s := RunFrom(Initial(), before);
    hide RunFrom, DoBegin, DoProgress, DoHandlerRead, DoHandlerComplete, DoRead, DoQuiet, DoRequest;
    assert GoodDelivery(s.table, s.deliveries[d]);
    ScanCompletionAccepted(s, d);
    hide Inv;
  }

  /** Neither the job's creation nor its start is rewritten. */
  predicate SameStart(a: Job, b: Job) {
    a.createdAt == b.createdAt && a.startedAt == b.startedAt && a.totalEntries == b.totalEntries
  }

  /** What a page's progress stores: the rows counted so far and the last sequence number read, while the job is running;
      over a job that is not, nothing. */
  lemma ProgressStores(before: seq<Action>, d: nat, checked: nat, lastSeq: nat)
    requires var s := RunFrom(Initial(), before); d in s.deliveries && s.deliveries[d].phase.Scanning?
    ensures var s := RunFrom(Initial(), before); var t := Step(s, Progress(d, checked, lastSeq)); var id := s.deliveries[d].id;
      && id in s.table && t.deliveries[d] == s.deliveries[d].(phase := Scanning(checked))
      && t.table == if s.table[id].status != RUNNING then s.table
                    else s.table[id := s.table[id].(entriesChecked := checked, lastSeqChecked := Some(lastSeq), updatedAt := s.now)]
  {
    InitialInv();
    RunKeepsInv(Initial(), before);
    var s := RunFrom(Initial(), before);
    hide RunFrom, DoBegin, DoPersist, DoHandlerRead, DoHandlerComplete, DoRead, DoQuiet, DoRequest;
    assert GoodDelivery(s.table, s.deliveries[d]);
    ProgressAccepted(s.table, s.deliveries[d].id, checked, lastSeq, s.now);
    hide Inv;
  }

  /** What a delivery's start stores: RUNNING with the number of entries it counted, on a queued job only; otherwise the
      delivery ends without touching the table. */
  lemma BeginStores(before: seq<Action>, d: nat)
    requires var s := RunFrom(Initial(), before); d in s.deliveries && s.deliveries[d].phase.Counted?
    ensures var s := RunFrom(Initial(), before); var t := Step(s, Begin(d)); var me := s.deliveries[d];
      && me.id in s.table
      && (s.table[me.id].status == QUEUED ==>
            && t.table == s.table[me.id := s.table[me.id].(
                 status := RUNNING, startedAt := Some(s.now), totalEntries := Some(me.phase.total), updatedAt := s.now)]
            && t.deliveries[d] == me.(ran := true, phase := Scanning(0)))
      && (s.table[me.id].status != QUEUED ==> t.table == s.table && t.deliveries[d] == me.(phase := Done))
  {
    InitialInv();
    RunKeepsInv(Initial(), before);
    var s := RunFrom(Initial(), before);
    hide RunFrom, DoProgress, DoPersist, DoHandlerRead, DoHandlerComplete, DoRead, DoQuiet, DoRequest;
    assert GoodDelivery(s.table, s.deliveries[d]);
    RunningAccepted(s.table, s.deliveries[d].id, s.deliveries[d].phase.total, s.now);
    hide Inv;
  }

  /** What an armed handler stores: FAILED with its class of error and the count it had seen, over whatever the row holds. */
  lemma HandlerStores(before: seq<Action>, d: nat, timedOut: bool)
    requires var s := RunFrom(Initial(), before); d in s.deliveries && s.deliveries[d].phase.SawActive?
    ensures var s := RunFrom(Initial(), before); var t := Step(s, HandlerComplete(d, timedOut)); var id := s.deliveries[d].id;
      && id in s.table && t.table.Keys == s.table.Keys && (forall other :: other in s.table && other != id ==> t.table[other] == s.table[other])
      && t.table[id].status == FAILED && t.table[id].entriesChecked == s.deliveries[d].phase.checked
      && t.table[id].failureType == Some(if timedOut then "TIMEOUT" else "DATABASE_ERROR")
      && t.table[id].failedEntryID == None && t.table[id].failedSeq == None
      && t.table[id].completedAt == Some(s.now) && t.table[id].updatedAt == s.now && SameStart(s.table[id], t.table[id])
  {
    InitialInv();
    RunKeepsInv(Initial(), before);
    var s := RunFrom(Initial(), before);
    hide RunFrom, DoBegin, DoProgress, DoPersist, DoHandlerRead, DoRead, DoQuiet, DoRequest;
    assert GoodDelivery(s.table, s.deliveries[d]);
    HandlerCompletionAccepted(s, d, timedOut);
    hide Inv;
  }

  /** What readers return, in every run: a queued row was updated less than five minutes before, a running one less than
      two; and a reader goes on to mark a row stale only when it was not. */
  lemma ReturnedRowsAreFresh(actions: seq<Action>, r: nat)
    ensures var s := RunFrom(Initial(), actions); r in s.readers && s.readers[r].Returned? ==>
      && (s.readers[r].row.status == QUEUED ==> s.readers[r].at < s.readers[r].row.updatedAt + 300)
      && (s.readers[r].row.status == RUNNING ==> s.readers[r].at < s.readers[r].row.updatedAt + 120)
    ensures var s := RunFrom(Initial(), actions); r in s.readers && s.readers[r].HasRow? ==>
      var row := s.readers[r].row;
      Step(s, Age(r)).readers[r].Stale? <==>
        (row.status == QUEUED && s.now >= row.updatedAt + 300) || (row.status == RUNNING && s.now >= row.updatedAt + 120)
  {
    JobsAreSafe(actions);
    hide RunFrom, DoBegin, DoProgress, DoPersist, DoHandlerRead, DoHandlerComplete, DoQuiet, DoRequest;
  }
}
