/** The hash chain over audit rows: page-wise verification, its independence of the page size,
    and tamper evidence. */
module AuditChain {
  import opened Outcomes
  import opened Text
  import opened Json
  import opened Canonical
  import opened EntryText

  /** One row of audit_log; `metadata` is whatever text the database hands back. */
  datatype Row = Row(
    seq_: nat,
    id: Uuid,
    timestamp: Timestamp,
    userID: Option<Uuid>,
    role: Option<string>,
    action: string,
    resourceType: string,
    resourceID: Option<Uuid>,
    caseID: Option<Uuid>,
    metadata: string,
    prevHash: Option<Digest>,
    hash: Digest)

  /** The parts of Go's standard library that are not modelled further: number formatting and SHA-256. */
  datatype Library = Library(nf: NumberFormat, sha256: string -> Digest) {
    /** Nothing is assumed of SHA-256 except the length of its digests. */
    ghost predicate Lawful() {
      nf.Lawful() && forall s :: |sha256(s)| == 32
    }
  }

  // ---- verifying one row ----

  function RowEntry(row: Row, metadata: string): Entry {
    Entry(row.id, row.timestamp, row.userID, if row.role.Some? then row.role.value else "", row.action,
          row.resourceType, row.resourceID, row.caseID, metadata, row.prevHash)
  }

  function ComputeEntryHash(lib: Library, e: Entry): Digest {
    lib.sha256(Preimage(e))
  }

  /** The entry a row re-hashes as; meaningful when the metadata canonicalizes. */
  function Rehashed(lib: Library, row: Row): Entry
    requires CanonicalizeMetadata(lib.nf, row.metadata).Ok?
  {
    RowEntry(row, CanonicalizeMetadata(lib.nf, row.metadata).value)
  }

  /** A row follows `prev` in the chain and its stored hash is the hash of its contents. */
  predicate GoodRow(lib: Library, row: Row, prev: Option<Digest>) {
    && Raw(row.prevHash) == Raw(prev)
    && CanonicalizeMetadata(lib.nf, row.metadata).Ok?
    && ComputeEntryHash(lib, Rehashed(lib, row)) == row.hash
  }

  /** The hash the row at index `i` must name as its predecessor. */
  function PrevAt(rows: seq<Row>, prev: Option<Digest>, i: nat): Option<Digest>
    requires i <= |rows|
  {
    if i == 0 then prev else Some(rows[i - 1].hash)
  }

  /** Every row is good with respect to the row before it. */
  predicate Accepted(lib: Library, rows: seq<Row>, prev: Option<Digest>) {
    forall i :: 0 <= i < |rows| ==> GoodAt(lib, rows, prev, i)
  }

  predicate GoodAt(lib: Library, rows: seq<Row>, prev: Option<Digest>, i: nat)
    requires i < |rows|
  {
    GoodRow(lib, rows[i], PrevAt(rows, prev, i))
  }

  // ---- VerifyBatch ----

  datatype BatchResult = BatchResult(
    ok: bool,
    entriesChecked: nat,
    lastHash: Option<Digest>,
    failedEntryID: Option<Uuid>,
    failedSeq: Option<nat>,
    failureType: string,
    expectedPrevHash: Option<Digest>,
    actualPrevHash: Option<Digest>,
    expectedHash: Option<Digest>,
    actualHash: Option<Digest>)

  function Passed(checked: nat, last: Option<Digest>): BatchResult {
    BatchResult(true, checked, last, None, None, "", None, None, None, None)
  }

  /** What is reported for a row that is not good. */
  function FailureOf(lib: Library, row: Row, prev: Option<Digest>): (r: BatchResult)
    requires !GoodRow(lib, row, prev)
    ensures !r.ok && r.failedSeq == Some(row.seq_)
  {
    var r := BatchResult(false, 0, None, Some(row.id), Some(row.seq_), "", None, None, None, None);
    if Raw(row.prevHash) != Raw(prev) then
      r.(failureType := if prev.None? || row.prevHash.None? then "GENESIS_INVALID" else "PREVIOUS_HASH_MISMATCH",
         expectedPrevHash := prev, actualPrevHash := row.prevHash)
    else if CanonicalizeMetadata(lib.nf, row.metadata).Err? then
      r.(failureType := "CANONICALIZATION_ERROR")
    else
      r.(failureType := "ENTRY_HASH_MISMATCH",
         expectedHash := Some(ComputeEntryHash(lib, Rehashed(lib, row))), actualHash := Some(row.hash),
         expectedPrevHash := prev, actualPrevHash := row.prevHash)
  }

  /** The same report after `checked` rows have passed. */
  function Failure(lib: Library, row: Row, prev: Option<Digest>, checked: nat): BatchResult
    requires !GoodRow(lib, row, prev)
  {
    FailureOf(lib, row, prev).(entriesChecked := checked)
  }

  /** `r` reports on `rows` after `prev`: success exactly when all are accepted, otherwise the first bad row. */
  ghost predicate Reports(lib: Library, rows: seq<Row>, prev: Option<Digest>, r: BatchResult) {
    && r.entriesChecked <= |rows|
    && Accepted(lib, rows[..r.entriesChecked], prev)
    && if r.ok then r == Passed(|rows|, PrevAt(rows, prev, |rows|))
       else
         var k := r.entriesChecked;
         && k < |rows| && !GoodAt(lib, rows, prev, k)
         && r == Failure(lib, rows[k], PrevAt(rows, prev, k), k)
  }

  method VerifyBatch(lib: Library, entries: seq<Row>, expectedPrevHash: Option<Digest>) returns (r: BatchResult)
    ensures Reports(lib, entries, expectedPrevHash, r)
  {
    hide GoodRow, FailureOf;
    var prev := expectedPrevHash;
    for i := 0 to |entries|
      invariant prev == PrevAt(entries, expectedPrevHash, i)
      invariant forall j :: 0 <= j < i ==> GoodAt(lib, entries, expectedPrevHash, j)
    {
      var failure := VerifyRow(lib, entries[i], prev, i);
      if failure.Some? {
        AcceptedPrefix(lib, entries, expectedPrevHash, i);
        return failure.value;
      }
      prev := Some(entries[i].hash);
    }
    AcceptedPrefix(lib, entries, expectedPrevHash, |entries|);
    r := Passed(|entries|, prev);
  }

  /** The body of the original's loop: the early return it takes, or None to go on. */
  method VerifyRow(lib: Library, e: Row, prev: Option<Digest>, i: nat) returns (failure: Option<BatchResult>)
    ensures failure.None? <==> GoodRow(lib, e, prev)
    ensures failure.Some? ==> failure.value == Failure(lib, e, prev, i)
  {
    var r := BatchResult(false, i, None, Some(e.id), Some(e.seq_), "", None, None, None, None);
    if Raw(e.prevHash) != Raw(prev) {
      var failureType := "PREVIOUS_HASH_MISMATCH";
      if prev.None? || e.prevHash.None? {
        failureType := "GENESIS_INVALID";
      }
      return Some(r.(failureType := failureType, expectedPrevHash := prev, actualPrevHash := e.prevHash));
    }
    var canonical := CanonicalizeMetadata(lib.nf, e.metadata);
    if canonical.Err? {
      return Some(r.(failureType := "CANONICALIZATION_ERROR"));
    }
    var expectedHash := ComputeEntryHash(lib, RowEntry(e, canonical.value));
    if expectedHash != e.hash {
      return Some(r.(failureType := "ENTRY_HASH_MISMATCH", expectedHash := Some(expectedHash),
                     actualHash := Some(e.hash), expectedPrevHash := prev, actualPrevHash := e.prevHash));
    }
    failure := None;
  }

  /** The text a row is re-hashed as, with its metadata as canonicalized: each column behind its own label. */
  function RowText(row: Row, metadata: string): string {
    JoinLines([
      "evidentia-audit-entry", "id=" + UuidText(row.id), "timestamp=" + TimeText(row.timestamp), "user_id=" + UuidOrEmpty(row.userID),
      "role=" + (if row.role.Some? then row.role.value else ""), "action=" + row.action, "resource_type=" + row.resourceType,
      "resource_id=" + UuidOrEmpty(row.resourceID), "case_id=" + UuidOrEmpty(row.caseID), "metadata=" + metadata,
      "prev_hash=" + PrevHashOrGenesis(row.prevHash)])
  }

  lemma RehashedText(row: Row, metadata: string)
    ensures Preimage(RowEntry(row, metadata)) == RowText(row, metadata)
  {
    hide Preimage, JoinLines, UuidText, TimeText, UuidOrEmpty, PrevHashOrGenesis;
    LabelledLines(RowEntry(row, metadata));
  }

  /** What a report of a failure says, for all rows: which of the four types it names and which hashes it carries are
      decided by the first bad row, its predecessor's hash, and what its columns hash to. */
  lemma ReportNames(lib: Library, rows: seq<Row>, prev: Option<Digest>, r: BatchResult)
    requires Reports(lib, rows, prev, r) && !r.ok
    ensures r.entriesChecked < |rows|
    ensures var row := rows[r.entriesChecked]; r.failedEntryID == Some(row.id) && r.failedSeq == Some(row.seq_) && r.lastHash == None
    ensures var row, p := rows[r.entriesChecked], PrevAt(rows, prev, r.entriesChecked);
      var linked := (if row.prevHash.Some? then row.prevHash.value else []) == (if p.Some? then p.value else []);
      var metadata := CanonicalizeMetadata(lib.nf, row.metadata);
      && (r.failureType == "GENESIS_INVALID" <==> !linked && (p.None? || row.prevHash.None?))
      && (r.failureType == "PREVIOUS_HASH_MISMATCH" <==> p.Some? && row.prevHash.Some? && p != row.prevHash)
      && (r.failureType == "CANONICALIZATION_ERROR" <==> linked && metadata.Err?)
      && (r.failureType == "ENTRY_HASH_MISMATCH" <==> linked && metadata.Ok? && lib.sha256(RowText(row, metadata.value)) != row.hash)
      && (!linked ==> r.expectedPrevHash == p && r.actualPrevHash == row.prevHash && r.expectedHash == r.actualHash == None)
      && (linked && metadata.Err? ==> r.expectedPrevHash == r.actualPrevHash == r.expectedHash == r.actualHash == None)
      && (linked && metadata.Ok? ==>
            && r.expectedPrevHash == p && r.actualPrevHash == row.prevHash
            && r.expectedHash == Some(lib.sha256(RowText(row, metadata.value))) && r.actualHash == Some(row.hash))
  {
    hide CanonicalizeMetadata, Preimage, RowText;
    var row := rows[r.entriesChecked];
    var metadata := CanonicalizeMetadata(lib.nf, row.metadata);
    if metadata.Ok? {
      RehashedText(row, metadata.value);
    }
    FailureNames();
  }

  lemma FailureNames()
    ensures "GENESIS_INVALID" != "PREVIOUS_HASH_MISMATCH" && "GENESIS_INVALID" != "CANONICALIZATION_ERROR"
    ensures "GENESIS_INVALID" != "ENTRY_HASH_MISMATCH" && "PREVIOUS_HASH_MISMATCH" != "CANONICALIZATION_ERROR"
    ensures "PREVIOUS_HASH_MISMATCH" != "ENTRY_HASH_MISMATCH" && "CANONICALIZATION_ERROR" != "ENTRY_HASH_MISMATCH"
  {
    assert "GENESIS_INVALID"[0] == 'G' && "PREVIOUS_HASH_MISMATCH"[0] == 'P' && "CANONICALIZATION_ERROR"[0] == 'C';
  }

  /** A report of success counts every row and hands on the last one's hash. */
  lemma SuccessNames(lib: Library, rows: seq<Row>, prev: Option<Digest>, r: BatchResult)
    requires Reports(lib, rows, prev, r) && r.ok
    ensures r.entriesChecked == |rows| && r.lastHash == (if |rows| == 0 then prev else Some(rows[|rows| - 1].hash))
    ensures r.failedEntryID == None && r.failedSeq == None && r.failureType == ""
    ensures forall i :: 0 <= i < |rows| ==> FollowsAndHashes(lib, rows[i], if i == 0 then prev else Some(rows[i - 1].hash))
  {
    hide CanonicalizeMetadata, Preimage, RowText;
    assert rows[..|rows|] == rows;
    forall i | 0 <= i < |rows| ensures FollowsAndHashes(lib, rows[i], if i == 0 then prev else Some(rows[i - 1].hash)) {
      assert GoodAt(lib, rows, prev, i);
      RehashedText(rows[i], CanonicalizeMetadata(lib.nf, rows[i].metadata).value);
    }
  }

  /** The row names `p` and its stored hash is that of its columns. */
  predicate FollowsAndHashes(lib: Library, row: Row, p: Option<Digest>) {
    && (if row.prevHash.Some? then row.prevHash.value else []) == (if p.Some? then p.value else [])
    && var metadata := CanonicalizeMetadata(lib.nf, row.metadata);
       metadata.Ok? && row.hash == lib.sha256(RowText(row, metadata.value))
  }

  lemma AcceptedPrefix(lib: Library, rows: seq<Row>, prev: Option<Digest>, k: nat)
    requires k <= |rows|
    requires forall j :: 0 <= j < k ==> GoodAt(lib, rows, prev, j)
    ensures Accepted(lib, rows[..k], prev)
  {
    hide GoodRow;
    forall i | 0 <= i < k ensures GoodAt(lib, rows[..k], prev, i) {
      assert GoodAt(lib, rows, prev, i);
      assert PrevAt(rows[..k], prev, i) == PrevAt(rows, prev, i);
    }
  }

  /** A report is unique: verdict, failing row, failure type and count are determined by the rows. */
  lemma ReportUnique(lib: Library, rows: seq<Row>, prev: Option<Digest>, r: BatchResult, s: BatchResult)
    requires Reports(lib, rows, prev, r) && Reports(lib, rows, prev, s)
    ensures r == s
    ensures r.ok <==> Accepted(lib, rows, prev)
  {
    hide GoodRow, FailureOf;
    if r.ok {
      assert rows[..|rows|] == rows;
    } else {
      assert !GoodAt(lib, rows, prev, r.entriesChecked);
    }
    NotAcceptedPast(lib, rows, prev, r, s.entriesChecked);
    NotAcceptedPast(lib, rows, prev, s, r.entriesChecked);
  }

  lemma NotAcceptedPast(lib: Library, rows: seq<Row>, prev: Option<Digest>, r: BatchResult, k: nat)
    requires Reports(lib, rows, prev, r) && k <= |rows| && Accepted(lib, rows[..k], prev)
    ensures k <= r.entriesChecked
  {
    hide GoodRow, FailureOf;
    AcceptedAt(lib, rows, prev, k);
    assert r.entriesChecked < |rows| ==> !GoodAt(lib, rows, prev, r.entriesChecked);
  }

  lemma AcceptedAt(lib: Library, rows: seq<Row>, prev: Option<Digest>, k: nat)
    requires k <= |rows| && Accepted(lib, rows[..k], prev)
    ensures forall i :: 0 <= i < k ==> GoodAt(lib, rows, prev, i)
  {
    hide GoodRow;
    forall i | 0 <= i < k ensures GoodAt(lib, rows, prev, i) {
      assert GoodAt(lib, rows[..k], prev, i);
      assert PrevAt(rows[..k], prev, i) == PrevAt(rows, prev, i) && rows[..k][i] == rows[i];
    }
  }

  lemma PrevAtAppend(page: seq<Row>, rest: seq<Row>, prev: Option<Digest>, last: Option<Digest>, i: nat)
    requires last == PrevAt(page, prev, |page|) && i <= |rest|
    ensures PrevAt(page + rest, prev, |page| + i) == PrevAt(rest, last, i)
  {}

  lemma AcceptedAppend(lib: Library, page: seq<Row>, rest: seq<Row>, prev: Option<Digest>, last: Option<Digest>, c: nat)
    requires Accepted(lib, page, prev) && last == PrevAt(page, prev, |page|)
    requires c <= |rest| && Accepted(lib, rest[..c], last)
    ensures Accepted(lib, (page + rest)[..|page| + c], prev)
  {
    hide GoodRow;
    AcceptedAt(lib, rest, last, c);
    forall j | 0 <= j < |page| + c ensures GoodAt(lib, page + rest, prev, j) {
      if j < |page| {
        assert GoodAt(lib, page, prev, j);
        assert PrevAt(page + rest, prev, j) == PrevAt(page, prev, j);
      } else {
        assert GoodAt(lib, rest, last, j - |page|);
        PrevAtAppend(page, rest, prev, last, j - |page|);
      }
    }
    AcceptedPrefix(lib, page + rest, prev, |page| + c);
  }

  /** A report on the rest after a passed page is a report on the whole. */
  lemma ReportsCompose(lib: Library, page: seq<Row>, rest: seq<Row>, prev: Option<Digest>, last: Option<Digest>, r: BatchResult)
    requires Reports(lib, page, prev, Passed(|page|, last)) && Reports(lib, rest, last, r)
    ensures Reports(lib, page + rest, prev, r.(entriesChecked := |page| + r.entriesChecked))
  {
    hide GoodRow, FailureOf, Accepted;
    assert page[..|page|] == page;
    AcceptedAppend(lib, page, rest, prev, last, r.entriesChecked);
    PrevAtAppend(page, rest, prev, last, r.entriesChecked);
  }

  /** A failure in a prefix is the report on the whole. */
  lemma FailureStands(lib: Library, page: seq<Row>, rest: seq<Row>, prev: Option<Digest>, r: BatchResult)
    requires Reports(lib, page, prev, r) && !r.ok
    ensures Reports(lib, page + rest, prev, r)
  {
    hide GoodRow, FailureOf;
    var k := r.entriesChecked;
    assert (page + rest)[..k] == page[..k];
    assert PrevAt(page + rest, prev, k) == PrevAt(page, prev, k);
  }

  // ---- keyset paging over a table ----

  /** Rows in ascending seq order; identity values start at 1. */
  predicate BySeq(table: seq<Row>) {
    && (forall i :: 0 <= i < |table| ==> table[i].seq_ > 0)
    && (forall i, j :: 0 <= i < j < |table| ==> table[i].seq_ < table[j].seq_)
  }

  /** How many rows have been passed once `s` is the last seq read. */
  function Position(table: seq<Row>, s: nat): (k: nat)
    ensures k <= |table|
    ensures BySeq(table) ==> forall i :: 0 <= i < |table| ==> (i < k <==> table[i].seq_ <= s)
  {
    if |table| == 0 then 0
    else
      var k := Position(table[..|table| - 1], s);
      if table[|table| - 1].seq_ <= s then |table| else k
  }

  function Min(a: nat, b: nat): nat {
    if a < b then a else b
  }

  /** SELECT ... WHERE seq > $1 ORDER BY seq LIMIT $2, on a table kept in seq order. */
  function ListFromSeq(table: seq<Row>, s: nat, limit: nat): seq<Row> {
    var k := Position(table, s);
    table[k..Min(k + limit, |table|)]
  }

  /** The last seq read after `k` rows. */
  function SeqAt(table: seq<Row>, k: nat): nat
    requires k <= |table|
  {
    if k == 0 then 0 else table[k - 1].seq_
  }

  lemma PositionOfSeqAt(table: seq<Row>, k: nat)
    requires BySeq(table) && k <= |table|
    ensures Position(table, SeqAt(table, k)) == k
  {
    var p := Position(table, SeqAt(table, k));
    assert k < |table| ==> (k < p <==> table[k].seq_ <= SeqAt(table, k));
    assert k > 0 ==> (k - 1 < p <==> table[k - 1].seq_ <= SeqAt(table, k));
    assert p < |table| ==> table[p].seq_ > SeqAt(table, k);
  }

  /** A page starts at the first row not yet read and is full unless it reaches the end. */
  lemma PageOf(table: seq<Row>, k: nat, limit: nat)
    requires BySeq(table) && k <= |table|
    ensures ListFromSeq(table, SeqAt(table, k), limit) == table[k..Min(k + limit, |table|)]
  {
    PositionOfSeqAt(table, k);
  }

  /** What paging returns when one call on the whole table reports `whole`. */
  predicate SameOutcome(table: seq<Row>, whole: BatchResult, checked: nat, lastSeq: nat, failure: Option<BatchResult>) {
    && checked == whole.entriesChecked
    && (failure.None? <==> whole.ok)
    && (failure.Some? ==> failure.value.(entriesChecked := checked) == whole && Some(lastSeq) == whole.failedSeq)
    && (whole.ok ==> lastSeq == SeqAt(table, |table|))
  }

  /** Reading page by page ends with the report that one call on the whole table gives. */
  method VerifyBatches(lib: Library, table: seq<Row>, batchSize: nat)
    returns (checked: nat, lastSeq: nat, failure: Option<BatchResult>)
    requires BySeq(table) && batchSize > 0
    ensures exists whole :: Reports(lib, table, None, whole) && SameOutcome(table, whole, checked, lastSeq, failure)
  {
    hide Reports, BySeq, ListFromSeq;
    var expectedPrev: Option<Digest> := None;
    var seq_ := 0;
    checked := 0;
    EmptyReport(lib);
    while true
      invariant checked <= |table| && seq_ == SeqAt(table, checked)
      invariant Reports(lib, table[..checked], None, Passed(checked, expectedPrev))
      decreases |table| - checked
    {
      var rows := ListFromSeq(table, seq_, batchSize);
      PageOf(table, checked, batchSize);
      ghost var n := checked + |rows|;
      if |rows| == 0 {
        assert table[..checked] == table;
        assert SameOutcome(table, Passed(checked, expectedPrev), checked, seq_, None);
        return checked, seq_, None;
      }
      var result := VerifyBatch(lib, rows, expectedPrev);
      assert table[..checked] + rows == table[..n] && table[..n] + table[n..] == table;
      NextPage(lib, table[..checked], rows, table[n..], expectedPrev, result);
      checked := checked + result.entriesChecked;
      ghost var whole := result.(entriesChecked := checked);
      if result.ok {
        seq_ := rows[|rows| - 1].seq_;
      } else {
        seq_ := result.failedSeq.value;
        assert SameOutcome(table, whole, checked, seq_, Some(result));
        return checked, seq_, Some(result);
      }
      expectedPrev := result.lastHash;
      if |rows| < batchSize {
        assert table[..n] == table;
        assert SameOutcome(table, whole, checked, seq_, None);
        return checked, seq_, None;
      }
    }
  }

  lemma EmptyReport(lib: Library)
    ensures Reports(lib, [], None, Passed(0, None))
  {}

  lemma ReportShape(lib: Library, rows: seq<Row>, prev: Option<Digest>, r: BatchResult)
    requires Reports(lib, rows, prev, r)
    ensures if r.ok then r == Passed(|rows|, r.lastHash) else r.failedSeq.Some?
  {
    hide GoodRow, Accepted;
  }

  /** One more page after the rows that have passed: either they all have passed or the whole report is known. */
  lemma NextPage(lib: Library, before: seq<Row>, page: seq<Row>, rest: seq<Row>, last: Option<Digest>, r: BatchResult)
    requires Reports(lib, before, None, Passed(|before|, last)) && Reports(lib, page, last, r)
    ensures r.ok ==> r == Passed(|page|, r.lastHash) && Reports(lib, before + page, None, Passed(|before| + |page|, r.lastHash))
    ensures !r.ok ==> r.failedSeq.Some? && Reports(lib, (before + page) + rest, None, r.(entriesChecked := |before| + r.entriesChecked))
  {
    ReportShape(lib, page, last, r);
    hide Reports, FailureOf;
    ReportsCompose(lib, before, page, None, last, r);
    if !r.ok {
      FailureStands(lib, before + page, rest, None, r.(entriesChecked := |before| + r.entriesChecked));
    }
  }

  // ---- tamper evidence ----

  /** Two rows agree on every hashed field, metadata up to its canonical form. */
  predicate SameRow(lib: Library, a: Row, b: Row) {
    && CanonicalizeMetadata(lib.nf, a.metadata).Ok?
    && CanonicalizeMetadata(lib.nf, b.metadata).Ok?
    && SameEntry(Rehashed(lib, a), Rehashed(lib, b)) && a.hash == b.hash
  }

  /** The two rows hash different texts to the same digest. */
  predicate Collide(lib: Library, a: Row, b: Row) {
    && CanonicalizeMetadata(lib.nf, a.metadata).Ok?
    && CanonicalizeMetadata(lib.nf, b.metadata).Ok?
    && Preimage(Rehashed(lib, a)) != Preimage(Rehashed(lib, b))
    && lib.sha256(Preimage(Rehashed(lib, a))) == lib.sha256(Preimage(Rehashed(lib, b)))
  }

  ghost predicate SmugglesNothing(row: Row) {
    !Smuggles(if row.role.Some? then row.role.value else "", row.action, row.resourceType)
  }

  ghost predicate SameLog(lib: Library, a: seq<Row>, b: seq<Row>) {
    |a| == |b| && forall i :: 0 <= i < |a| ==> SameRow(lib, a[i], b[i])
  }

  ghost predicate CollisionBetween(lib: Library, a: seq<Row>, b: seq<Row>) {
    exists i, j :: 0 <= i < |a| && 0 <= j < |b| && Collide(lib, a[i], b[j])
  }

  /** Two accepted logs ending in the same hash are the same log, or they exhibit a SHA-256 collision.
      Only one of them has to be free of smuggled labels. */
  lemma {:induction false} TamperEvidence(lib: Library, a: seq<Row>, b: seq<Row>)
    requires lib.Lawful()
    requires Accepted(lib, a, None) && Accepted(lib, b, None)
    requires Raw(PrevAt(a, None, |a|)) == Raw(PrevAt(b, None, |b|))
    requires forall i :: 0 <= i < |a| ==> SmugglesNothing(a[i])
    ensures SameLog(lib, a, b) || CollisionBetween(lib, a, b)
    decreases |a|
  {
    hide GoodRow, SameRow, Collide, SmugglesNothing;
    BothNonEmpty(lib, a, b);
    if |a| > 0 {
      var m, n := |a| - 1, |b| - 1;
      assert a[..|a|] == a && b[..|b|] == b;
      AcceptedAt(lib, a, None, |a|);
      AcceptedAt(lib, b, None, |b|);
      AcceptedPrefix(lib, a, None, m);
      AcceptedPrefix(lib, b, None, n);
      assert GoodAt(lib, a, None, m) && GoodAt(lib, b, None, n);
      LastRows(lib, a[m], PrevAt(a, None, m), b[n], PrevAt(b, None, n));
      if !Collide(lib, a[m], b[n]) {
        assert PrevAt(a[..m], None, m) == PrevAt(a, None, m) && PrevAt(b[..n], None, n) == PrevAt(b, None, n);
        TamperEvidence(lib, a[..m], b[..n]);
        ExtendComparison(lib, a, b);
      }
    }
  }

  lemma ExtendComparison(lib: Library, a: seq<Row>, b: seq<Row>)
    requires |a| > 0 && |b| > 0 && SameRow(lib, a[|a| - 1], b[|b| - 1])
    requires SameLog(lib, a[..|a| - 1], b[..|b| - 1]) || CollisionBetween(lib, a[..|a| - 1], b[..|b| - 1])
    ensures SameLog(lib, a, b) || CollisionBetween(lib, a, b)
  {
    hide SameRow, Collide;
    var a', b' := a[..|a| - 1], b[..|b| - 1];
    if SameLog(lib, a', b') {
      forall i | 0 <= i < |a| ensures SameRow(lib, a[i], b[i]) {
        if i < |a'| {
          assert SameRow(lib, a'[i], b'[i]);
        }
      }
    } else {
      var i, j :| 0 <= i < |a'| && 0 <= j < |b'| && Collide(lib, a'[i], b'[j]);
      assert Collide(lib, a[i], b[j]);
    }
  }

  lemma BothNonEmpty(lib: Library, a: seq<Row>, b: seq<Row>)
    requires lib.Lawful() && Accepted(lib, a, None) && Accepted(lib, b, None)
    requires Raw(PrevAt(a, None, |a|)) == Raw(PrevAt(b, None, |b|))
    ensures |a| > 0 <==> |b| > 0
  {
    hide CanonicalizeMetadata, Preimage;
    assert |a| > 0 ==> GoodAt(lib, a, None, |a| - 1);
    assert |b| > 0 ==> GoodAt(lib, b, None, |b| - 1);
  }

  /** Two good rows with the same hash agree, and so do their predecessors' hashes, unless they collide. */
  lemma LastRows(lib: Library, x: Row, xPrev: Option<Digest>, y: Row, yPrev: Option<Digest>)
    requires lib.Lawful() && GoodRow(lib, x, xPrev) && GoodRow(lib, y, yPrev)
    requires x.hash == y.hash && SmugglesNothing(x)
    ensures Collide(lib, x, y) || (SameRow(lib, x, y) && Raw(xPrev) == Raw(yPrev))
  {
    hide CanonicalizeMetadata, Preimage, Smuggles;
    if Preimage(Rehashed(lib, x)) == Preimage(Rehashed(lib, y)) {
      CanonicalFormIsOneLine(lib.nf, x.metadata);
      CanonicalFormIsOneLine(lib.nf, y.metadata);
      PreimageIdentifiesEntry(Rehashed(lib, x));
    }
  }

  /** The row with its free-text fields divided differently. */
  function Redivided(row: Row, role: string, action: string, resourceType: string): Row {
    row.(role := if role == "" then None else Some(role), action := action, resourceType := resourceType)
  }

  /** A good row that smuggles a label has a second reading that hashes the same text. */
  lemma SecondRow(lib: Library, row: Row, prev: Option<Digest>) returns (other: Row)
    requires GoodRow(lib, row, prev) && !SmugglesNothing(row)
    ensures GoodRow(lib, other, prev) && other.hash == row.hash && other.metadata == row.metadata
    ensures Preimage(Rehashed(lib, other)) == Preimage(Rehashed(lib, row)) && !SameRow(lib, row, other)
  {
    hide CanonicalizeMetadata, Smuggles, Middle;
    var e := Rehashed(lib, row);
    var r, a, t := SecondReading(e.role, e.action, e.resourceType);
    other := Redivided(row, r, a, t);
    assert Rehashed(lib, other) == e.(role := r, action := a, resourceType := t);
  }

  /** The condition of TamperEvidence is needed: an accepted log with a smuggled label in any row has a different log
      of the same length that is accepted too, ends in the same hash, and hashes the same texts row by row, so it
      needs no collision. */
  lemma SmuggledLabelHidesTampering(lib: Library, a: seq<Row>, k: nat) returns (b: seq<Row>)
    requires Accepted(lib, a, None) && k < |a| && !SmugglesNothing(a[k])
    ensures |b| == |a| && Accepted(lib, b, None) && PrevAt(b, None, |b|) == PrevAt(a, None, |a|)
    ensures !SameRow(lib, a[k], b[k]) && !SameLog(lib, a, b)
    ensures forall i :: 0 <= i < |a| ==> GoodAt(lib, a, None, i) && GoodAt(lib, b, None, i) && SameText(lib, a[i], b[i])
  {
    hide GoodRow, SameRow, SmugglesNothing, CanonicalizeMetadata, Preimage;
    assert GoodAt(lib, a, None, k);
    var other := SecondRow(lib, a[k], PrevAt(a, None, k));
    b := a[k := other];
    forall i | 0 <= i < |b| ensures GoodAt(lib, b, None, i) && SameText(lib, a[i], b[i]) {
      assert GoodAt(lib, a, None, i);
      GoodRowCanonicalizes(lib, a[i], PrevAt(a, None, i));
      GoodRowCanonicalizes(lib, b[k], PrevAt(a, None, k));
      assert PrevAt(b, None, i) == PrevAt(a, None, i);
    }
  }

  /** Both rows canonicalize and hash the same text. */
  predicate SameText(lib: Library, a: Row, b: Row) {
    && CanonicalizeMetadata(lib.nf, a.metadata).Ok?
    && CanonicalizeMetadata(lib.nf, b.metadata).Ok?
    && Preimage(Rehashed(lib, a)) == Preimage(Rehashed(lib, b))
  }

  lemma GoodRowCanonicalizes(lib: Library, row: Row, prev: Option<Digest>)
    requires GoodRow(lib, row, prev)
    ensures SameText(lib, row, row)
  {}
}
