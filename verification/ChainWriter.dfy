/** ChainWriter.append as one call sees it: a retry loop around lock, head read and insert, while other
    transactions commit in between. */
module ChainWriter {
  import opened Outcomes
  import opened Text
  import opened Json
  import opened Canonical
  import opened EntryText
  import opened AuditChain
  import opened ChainProtocol

  /** What one attempt meets: the values it draws, the rows others commit between its head read and its insert, and
      whether some other database error ends it. */
  datatype Attempt = Attempt(id: Uuid, timestamp: Timestamp, seq_: nat, others: seq<Row>, fails: bool)

  datatype AppendError = BadMetadata | DatabaseError | Exhausted

  /** The log after what others committed during the first `k` attempts. */
  function WithOthers(log: seq<Row>, attempts: seq<Attempt>, k: nat): seq<Row>
    requires k <= |attempts|
  {
    if k == 0 then log else WithOthers(log, attempts, k - 1) + attempts[k - 1].others
  }

  /** Other writers keep the log linear, and the identity column draws a value above all it has drawn. */
  predicate FairAt(log: seq<Row>, attempts: seq<Attempt>, k: nat)
    requires k < |attempts|
  {
    && Linear(WithOthers(log, attempts, k)) && Linear(WithOthers(log, attempts, k + 1))
    && Above(attempts[k].seq_, WithOthers(log, attempts, k))
  }

  predicate Fair(log: seq<Row>, attempts: seq<Attempt>) {
    forall k :: 0 <= k < |attempts| ==> FairAt(log, attempts, k)
  }

  class AuditLog {
    var rows: seq<Row>

    constructor ()
      ensures rows == []
    {
      rows := [];
    }

    /** The INSERT, checked against the unique indexes. */
    method InsertAuditEntry(row: Row) returns (conflict: bool)
      modifies this
      ensures conflict <==> Taken(old(rows), row)
      ensures rows == if conflict then old(rows) else old(rows) + [row]
    {
      conflict := false;
      for i := 0 to |rows|
        invariant !conflict && rows == old(rows)
        invariant forall j :: 0 <= j < i ==> rows[j].prevHash != row.prevHash && rows[j].hash != row.hash
      {
        if rows[i].prevHash == row.prevHash || rows[i].hash == row.hash {
          return true;
        }
      }
      rows := rows + [row];
    }

    /** Rows of other transactions become visible. */
    method Commit(others: seq<Row>)
      modifies this
      ensures rows == old(rows) + others
    {
      rows := rows + others;
    }
  }

  /** The row attempt `k` tries to insert. */
  function RowOfAttempt(lib: Library, e: Event, a: Attempt, metadata: string, seen: seq<Row>): Row {
    NewRow(lib, e, a.id, a.timestamp, metadata, HeadHash(seen), a.seq_)
  }

  predicate ConflictAt(lib: Library, e: Event, metadata: string, log: seq<Row>, attempts: seq<Attempt>, k: nat)
    requires k < |attempts|
  {
    Taken(WithOthers(log, attempts, k + 1), RowOfAttempt(lib, e, attempts[k], metadata, WithOthers(log, attempts, k)))
  }

  lemma OthersStep(log: seq<Row>, attempts: seq<Attempt>, k: nat)
    requires k < |attempts|
    ensures WithOthers(log, attempts, k + 1) == WithOthers(log, attempts, k) + attempts[k].others
  {}

  /** Attempt `k` succeeded: the event is the new last row, directly behind the log that the attempt read. */
  predicate Recorded(lib: Library, e: Event, log: seq<Row>, attempts: seq<Attempt>, k: nat, rows: seq<Row>) {
    && k < |attempts| && |rows| > 0
    && rows[..|rows| - 1] == WithOthers(log, attempts, k) && Records(lib, rows[|rows| - 1], e)
  }

  predicate FailedAt(log: seq<Row>, attempts: seq<Attempt>, k: nat, rows: seq<Row>) {
    k < |attempts| && attempts[k].fails && rows == WithOthers(log, attempts, k + 1)
  }

  datatype Outcome = Committed | Conflicted | Broken

  /** One transaction: lock, head read, hash, insert. */
  method RunAttempt(lib: Library, log: AuditLog, e: Event, metadata: string, a: Attempt) returns (outcome: Outcome)
    requires CanonicalizeEventMetadata(lib.nf, e.metadata) == Ok(metadata)
    requires Linear(log.rows) && Linear(log.rows + a.others) && Above(a.seq_, log.rows)
    modifies log
    ensures Attempted(lib, e, metadata, a, old(log.rows), outcome, log.rows)
  {
    hide Linear, Above, Records, CanonicalizeEventMetadata, NewRow, HeadHash, Taken;
    var prevHash := HeadHash(log.rows);
    var row := NewRow(lib, e, a.id, a.timestamp, metadata, prevHash, a.seq_);
    log.Commit(a.others);
    if a.fails {
      return Broken;
    }
    var conflict := log.InsertAuditEntry(row);
    if conflict {
      return Conflicted;
    }
    Appended(lib, e, a, metadata, old(log.rows), old(log.rows) + a.others);
    outcome := Committed;
  }

  /** Every attempt was refused by an index. */
  predicate AllConflict(lib: Library, e: Event, metadata: string, log: seq<Row>, attempts: seq<Attempt>) {
    forall k :: 0 <= k < |attempts| ==> ConflictAt(lib, e, metadata, log, attempts, k)
  }

  /** Where the loop stands after `k` attempts, the latest of which came to `outcome`. */
  predicate Progress(lib: Library, e: Event, metadata: string, log: seq<Row>, attempts: seq<Attempt>, k: nat, outcome: Outcome,
                     rows: seq<Row>) {
    && k <= |attempts| && Linear(rows)
    && match outcome
       case Conflicted => rows == WithOthers(log, attempts, k) && forall j :: 0 <= j < k ==> ConflictAt(lib, e, metadata, log, attempts, j)
       case Committed => k > 0 && Recorded(lib, e, log, attempts, k - 1, rows)
       case Broken => k > 0 && FailedAt(log, attempts, k - 1, rows)
  }

  /** What RunAttempt ensures about one transaction. */
  predicate Attempted(lib: Library, e: Event, metadata: string, a: Attempt, seen: seq<Row>, outcome: Outcome, rows: seq<Row>) {
    var row := RowOfAttempt(lib, e, a, metadata, seen);
    && Linear(rows)
    && (outcome == Broken <==> a.fails)
    && (outcome == Conflicted ==> Taken(seen + a.others, row))
    && (outcome == Committed ==> rows == seen + [row] && Records(lib, row, e))
    && (outcome != Committed ==> rows == seen + a.others)
  }

  lemma ProgressStep(lib: Library, e: Event, metadata: string, log: seq<Row>, attempts: seq<Attempt>, k: nat, outcome: Outcome,
                     seen: seq<Row>, rows: seq<Row>)
    requires k < |attempts| && Progress(lib, e, metadata, log, attempts, k, Conflicted, seen)
    requires Attempted(lib, e, metadata, attempts[k], seen, outcome, rows)
    ensures Progress(lib, e, metadata, log, attempts, k + 1, outcome, rows)
  {
    hide Records, Taken, RowOfAttempt, Linear;
    OthersStep(log, attempts, k);
  }

  lemma AttemptIsFair(log: seq<Row>, attempts: seq<Attempt>, k: nat)
    requires Fair(log, attempts) && k < |attempts|
    ensures var seen := WithOthers(log, attempts, k);
      Linear(seen) && Linear(seen + attempts[k].others) && Above(attempts[k].seq_, seen)
  {
    hide Linear, Above;
    assert FairAt(log, attempts, k);
    OthersStep(log, attempts, k);
  }

  lemma ProgressBegins(lib: Library, e: Event, metadata: string, log: seq<Row>, attempts: seq<Attempt>)
    requires |attempts| > 0 && Fair(log, attempts)
    ensures Progress(lib, e, metadata, log, attempts, 0, Conflicted, log)
  {
    AttemptIsFair(log, attempts, 0);
  }

  lemma NextAttempt(lib: Library, e: Event, metadata: string, log: seq<Row>, attempts: seq<Attempt>, k: nat, rows: seq<Row>)
    requires Fair(log, attempts) && k < |attempts| && Progress(lib, e, metadata, log, attempts, k, Conflicted, rows)
    ensures Linear(rows) && Linear(rows + attempts[k].others) && Above(attempts[k].seq_, rows)
  {
    AttemptIsFair(log, attempts, k);
  }

  /** The retry loop: it ends with the first attempt that does not conflict, or after all of them. */
  method RunAttempts(lib: Library, log: AuditLog, e: Event, metadata: string, attempts: seq<Attempt>) returns (outcome: Outcome, k: nat)
    requires CanonicalizeEventMetadata(lib.nf, e.metadata) == Ok(metadata)
    requires |attempts| > 0 && Fair(log.rows, attempts)
    modifies log
    ensures Progress(lib, e, metadata, old(log.rows), attempts, k, outcome, log.rows)
    ensures outcome == Conflicted ==> k == |attempts|
  {
    hide Linear, Above, CanonicalizeEventMetadata, Progress, Attempted, Fair;
    ProgressBegins(lib, e, metadata, log.rows, attempts);
    ghost var before := log.rows;
    outcome, k := Conflicted, 0;
    while k < |attempts| && outcome == Conflicted
      invariant k <= |attempts| && Progress(lib, e, metadata, before, attempts, k, outcome, log.rows)
    {
      NextAttempt(lib, e, metadata, before, attempts, k, log.rows);
      ghost var seen := log.rows;
      outcome := RunAttempt(lib, log, e, metadata, attempts[k]);
      ProgressStep(lib, e, metadata, before, attempts, k, outcome, seen, log.rows);
      k := k + 1;
    }
  }

  /** Gives up only after every attempt has conflicted; without success nothing of the event is in the log, and
      whatever happens the log stays linear. */
  method Append(lib: Library, log: AuditLog, e: Event, attempts: seq<Attempt>) returns (result: Result<nat, AppendError>)
    requires |attempts| == MAX_CHAIN_WRITE_ATTEMPTS && Fair(log.rows, attempts)
    modifies log
    ensures Linear(log.rows)
    ensures result.Ok? ==> Recorded(lib, e, old(log.rows), attempts, result.value, log.rows)
    ensures result == Err(DatabaseError) ==> exists k: nat :: FailedAt(old(log.rows), attempts, k, log.rows)
    ensures result == Err(BadMetadata) ==> log.rows == old(log.rows) && CanonicalizeEventMetadata(lib.nf, e.metadata).Err?
    ensures result == Err(Exhausted) ==> log.rows == WithOthers(old(log.rows), attempts, |attempts|)
    ensures result == Err(Exhausted) ==>
      exists metadata ::
        CanonicalizeEventMetadata(lib.nf, e.metadata) == Ok(metadata) && AllConflict(lib, e, metadata, old(log.rows), attempts)
  {
    AttemptIsFair(log.rows, attempts, 0);
    hide Linear, CanonicalizeEventMetadata, Recorded, FailedAt, Fair;
    var canonical := CanonicalizeEventMetadata(lib.nf, e.metadata);
    if canonical.Err? {
      return Err(BadMetadata);
    }
    var outcome, k := RunAttempts(lib, log, e, canonical.value, attempts);
    if outcome == Committed {
      return Ok(k - 1);
    }
    if outcome == Broken {
      return Err(DatabaseError);
    }
    assert AllConflict(lib, e, canonical.value, old(log.rows), attempts);
    result := Err(Exhausted);
  }

  /** An insert that meets no conflict extends the very log its attempt read. */
  lemma Appended(lib: Library, e: Event, a: Attempt, metadata: string, seen: seq<Row>, log: seq<Row>)
    requires Linear(seen) && Linear(log) && seen <= log && Above(a.seq_, seen)
    requires CanonicalizeEventMetadata(lib.nf, e.metadata) == Ok(metadata)
    requires !Taken(log, RowOfAttempt(lib, e, a, metadata, seen))
    ensures var row := RowOfAttempt(lib, e, a, metadata, seen);
      seen == log && Records(lib, row, e) && Linear(log + [row])
  {
    hide CanonicalizeEventMetadata, Preimage, Linear, Taken, HeadHash, Above;
    var row := RowOfAttempt(lib, e, a, metadata, seen);
    HeadOfLinear(log, seen);
    assert RowEntry(row, metadata) == EventEntry(e, a.id, a.timestamp, metadata, row.prevHash);
    UnclaimedHeadIsCurrent(log, seen, row);
    AppendLinear(log, row);
  }
}
