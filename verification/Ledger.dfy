/** The evidence chaincode over Fabric's ordered key-value state: write-once records, and scans whose
    lexicographic key order is meant to be version order. */
module Ledger {
  import opened Outcomes
  import opened Text

  datatype Record = Record(
    evidenceID: string, version: int, hash: string, eventType: string, caseReference: string,
    actorOrg: string, appRecordID: string, txID: string, anchoredAt: string)

  datatype Entry = Entry(key: string, record: Record)

  datatype LedgerError = MissingField | InvalidVersion | InvalidKey | HashMismatch(stored: string, submitted: string) | NotFound

  type State = seq<Entry>

  // ---- composite keys ----

  /** fmt's %010d: ten places, one of which a minus sign takes. */
  function VersionText(version: int): string {
    if version < 0 then "-" + Pad(-version, 9) else Pad(version, 10)
  }

  /** CreateCompositeKey rejects these two characters in an attribute. */
  predicate ValidAttribute(s: string) {
    '\0' !in s && '\U{10FFFF}' !in s
  }

  function KeyPrefix(evidenceID: string): string {
    "\0evidence\0" + (evidenceID + "\0")
  }

  function CompositeKey(evidenceID: string, version: int): string {
    KeyPrefix(evidenceID) + (VersionText(version) + "\0")
  }

  predicate IsPrefix(p: string, s: string) {
    |p| <= |s| && s[..|p|] == p
  }

  // ---- the state database ----

  /** Keys are kept in strictly ascending order. */
  predicate Ordered(state: State) {
    forall i, j :: 0 <= i < j < |state| ==> StringLess(state[i].key, state[j].key)
  }

  /** Every key is the composite key of the record under it. */
  predicate WellKeyed(state: State) {
    forall i :: 0 <= i < |state| ==>
      ValidAttribute(state[i].record.evidenceID)
      && state[i].key == CompositeKey(state[i].record.evidenceID, state[i].record.version)
  }

  predicate Valid(state: State) {
    Ordered(state) && WellKeyed(state)
  }

  function GetState(state: State, key: string): (r: Option<Record>)
    ensures r.None? <==> forall i :: 0 <= i < |state| ==> state[i].key != key
    ensures r.Some? ==> exists i :: 0 <= i < |state| && state[i] == Entry(key, r.value)
  {
    if |state| == 0 then None
    else if state[|state| - 1].key == key then Some(state[|state| - 1].record)
    else GetState(state[..|state| - 1], key)
  }

  /** Writes a key that is not present yet. */
  function PutState(state: State, key: string, record: Record): State {
    if |state| == 0 || StringLess(state[|state| - 1].key, key) then state + [Entry(key, record)]
    else PutState(state[..|state| - 1], key, record) + [state[|state| - 1]]
  }

  predicate Of(r: Record, evidenceID: string, version: Option<int>) {
    r.evidenceID == evidenceID && Some(r.version) == version
  }

  /** GetStateByPartialCompositeKey: the records under a prefix, in key order. */
  function Scan(state: State, prefix: string): seq<Record> {
    if |state| == 0 then []
    else
      var last := state[|state| - 1];
      Scan(state[..|state| - 1], prefix) + if IsPrefix(prefix, last.key) then [last.record] else []
  }

  // ---- transactions ----

  datatype Request = Request(
    evidenceID: string, version: Option<int>, hash: string, eventType: string, caseReference: string,
    actorOrg: string, appRecordID: string)

  datatype Reply = Reply(state: State, result: Result<string, LedgerError>)

  /** The ledger holds this hash for the version, written by this transaction. */
  predicate Holds(state: State, evidenceID: string, version: int, hash: string, txID: string) {
    var stored := GetState(state, CompositeKey(evidenceID, version));
    stored.Some? && stored.value.hash == hash && stored.value.txID == txID
  }

  /** AnchorEvidence as one serial transaction. `version` is None when the argument is not an integer. */
  function Anchored(state: State, r: Request, txID: string, anchoredAt: string): Reply {
    if r.evidenceID == "" || r.hash == "" || r.eventType == "" then Reply(state, Err(MissingField))
    else if r.version.None? then Reply(state, Err(InvalidVersion))
    else if !ValidAttribute(r.evidenceID) then Reply(state, Err(InvalidKey))
    else
      var key := CompositeKey(r.evidenceID, r.version.value);
      match GetState(state, key)
      case Some(existing) => Reply(state, if existing.hash != r.hash then Err(HashMismatch(existing.hash, r.hash)) else Ok(existing.txID))
      case None =>
        Reply(PutState(state, key, Record(r.evidenceID, r.version.value, r.hash, r.eventType, r.caseReference,
                                          r.actorOrg, r.appRecordID, txID, anchoredAt)), Ok(txID))
  }

  /** The contract; Fabric orders its transactions, so each method runs alone. */
  class Contract {
    var state: State

    constructor ()
      ensures state == [] && Valid(state)
    {
      state := [];
    }

    /** Writes once: a record that is there is never touched, and success means the ledger holds this hash. */
    method AnchorEvidence(r: Request, txID: string, anchoredAt: string) returns (result: Result<string, LedgerError>)
      requires Valid(state)
      modifies this
      ensures Valid(state)
      ensures Reply(state, result) == Anchored(old(state), r, txID, anchoredAt)
      ensures forall k :: GetState(old(state), k).Some? ==> GetState(state, k) == GetState(old(state), k)
      ensures result.Err? ==> state == old(state)
      ensures result.Ok? ==> r.version.Some? && Holds(state, r.evidenceID, r.version.value, r.hash, result.value)
    {
      if r.evidenceID == "" || r.hash == "" || r.eventType == "" {
        return Err(MissingField);
      }
      if r.version.None? {
        return Err(InvalidVersion);
      }
      if !ValidAttribute(r.evidenceID) {
        return Err(InvalidKey);
      }
      AnchoredKeepsRecords(state, r, txID, anchoredAt);
      var key := CompositeKey(r.evidenceID, r.version.value);
      var existing := GetState(state, key);
      if existing.Some? {
        if existing.value.hash != r.hash {
          return Err(HashMismatch(existing.value.hash, r.hash));
        }
        return Ok(existing.value.txID);
      }
      state := PutState(state, key, Record(r.evidenceID, r.version.value, r.hash, r.eventType, r.caseReference,
                                           r.actorOrg, r.appRecordID, txID, anchoredAt));
      result := Ok(txID);
    }

    method GetEvidence(evidenceID: string, version: Option<int>) returns (result: Result<Record, LedgerError>)
      requires Valid(state)
      ensures result.Ok? <==> exists i :: 0 <= i < |state| && Of(state[i].record, evidenceID, version)
      ensures result.Ok? ==> result.value.evidenceID == evidenceID && Some(result.value.version) == version
      ensures result.Ok? ==> exists i :: 0 <= i < |state| && state[i].record == result.value
    {
      if version.None? {
        return Err(InvalidVersion);
      }
      if !ValidAttribute(evidenceID) {
        return Err(InvalidKey);
      }
      var stored := GetState(state, CompositeKey(evidenceID, version.value));
      if stored.None? {
        assert forall i :: 0 <= i < |state| ==> state[i].key != CompositeKey(evidenceID, version.value);
        return Err(NotFound);
      }
      var i :| 0 <= i < |state| && state[i] == Entry(CompositeKey(evidenceID, version.value), stored.value);
      KeyIdentifies(evidenceID, version.value, stored.value.evidenceID, stored.value.version);
      result := Ok(stored.value);
    }

    /** The record with the highest version, whatever the key order. */
    method GetEvidenceLatest(evidenceID: string) returns (result: Result<Record, LedgerError>)
      requires Valid(state)
      ensures ValidAttribute(evidenceID) ==> (result.Ok? <==> exists i :: 0 <= i < |state| && state[i].record.evidenceID == evidenceID)
      ensures result.Ok? ==> result.value.evidenceID == evidenceID && exists i :: 0 <= i < |state| && state[i].record == result.value
      ensures result.Ok? ==> forall i :: 0 <= i < |state| && state[i].record.evidenceID == evidenceID ==>
        state[i].record.version <= result.value.version
    {
      hide StringLess, CompositeKey, KeyPrefix, IsPrefix;
      if !ValidAttribute(evidenceID) {
        return Err(InvalidKey);
      }
      var latest: Option<Record> := None;
      ghost var at := 0;
      for k := 0 to |state|
        invariant latest.None? ==> forall i :: 0 <= i < k ==> state[i].record.evidenceID != evidenceID
        invariant latest.Some? ==> at < k && state[at].record == latest.value && latest.value.evidenceID == evidenceID
        invariant latest.Some? ==> forall i :: 0 <= i < k && state[i].record.evidenceID == evidenceID ==>
          state[i].record.version <= latest.value.version
      {
        EntryUnderPrefix(state, k, evidenceID);
        if IsPrefix(KeyPrefix(evidenceID), state[k].key) {
          var rec := state[k].record;
          if latest.None? || rec.version > latest.value.version {
            latest := Some(rec);
            at := k;
          }
        }
      }
      if latest.None? {
        return Err(NotFound);
      }
      result := Ok(latest.value);
    }

    /** Every version of the evidence, in key order. */
    method GetEvidenceHistory(evidenceID: string) returns (result: Result<seq<Record>, LedgerError>)
      requires Valid(state)
      ensures result == if ValidAttribute(evidenceID) then Ok(Scan(state, KeyPrefix(evidenceID))) else Err(InvalidKey)
      ensures result.Ok? ==> forall r :: r in result.value <==> r.evidenceID == evidenceID && exists i :: 0 <= i < |state| && state[i].record == r
      ensures result.Ok? ==> KeysAscend(result.value)
    {
      if !ValidAttribute(evidenceID) {
        return Err(InvalidKey);
      }
      var records: seq<Record> := [];
      for k := 0 to |state|
        invariant records == Scan(state[..k], KeyPrefix(evidenceID))
      {
        assert state[..k + 1][..k] == state[..k];
        if IsPrefix(KeyPrefix(evidenceID), state[k].key) {
          records := records + [state[k].record];
        }
      }
      assert state[..|state|] == state;
      HistoryIsComplete(state, evidenceID);
      ScanKeepsKeyOrder(state, evidenceID);
      result := Ok(records);
    }
  }

  // ---- keys identify records ----

  /** The attribute before the next separator can be read back. */
  lemma FirstAttribute(a: string, s: string, b: string, t: string)
    requires '\0' !in a && '\0' !in b && a + "\0" + s == b + "\0" + t
    ensures a == b && s == t
  {
    var x := a + "\0" + s;
    assert x[|a|] == '\0' && x[|b|] == '\0';
    assert forall i :: 0 <= i < |a| ==> x[i] == a[i];
    assert forall i :: 0 <= i < |b| ==> x[i] == b[i];
    assert a == x[..|a|] && b == x[..|b|];
    assert s == x[|a| + 1..] && t == x[|b| + 1..];
  }

  lemma PrefixIdentifies(id: string, other: string, rest: string)
    requires ValidAttribute(id) && ValidAttribute(other)
    ensures IsPrefix(KeyPrefix(id), KeyPrefix(other) + rest) <==> id == other
  {
    var h := "\0evidence\0";
    var key := KeyPrefix(other) + rest;
    assert key == h + (other + "\0" + rest);
    if IsPrefix(KeyPrefix(id), key) {
      var t := key[|KeyPrefix(id)|..];
      assert key == h + (id + "\0" + t);
      CancelPrefix(h, other + "\0" + rest, id + "\0" + t);
      FirstAttribute(other, rest, id, t);
    }
    if id == other {
      assert key[..|KeyPrefix(id)|] == KeyPrefix(id);
    }
  }

  /** A key lies under an evidence's prefix exactly when its record is of that evidence. */
  lemma EntryUnderPrefix(state: State, k: nat, id: string)
    requires Valid(state) && k < |state| && ValidAttribute(id)
    ensures IsPrefix(KeyPrefix(id), state[k].key) <==> state[k].record.evidenceID == id
  {
    hide StringLess, IsPrefix, KeyPrefix, VersionText;
    var rec := state[k].record;
    PrefixIdentifies(id, rec.evidenceID, VersionText(rec.version) + "\0");
  }

  lemma VersionTextInjective(v: int, w: int)
    requires VersionText(v) == VersionText(w)
    ensures v == w
  {
    assert v < 0 ==> VersionText(v)[0] == '-';
    assert w < 0 ==> VersionText(w)[0] == '-';
    assert v >= 0 ==> IsDigit(VersionText(v)[0]);
    assert w >= 0 ==> IsDigit(VersionText(w)[0]);
    if v < 0 {
      CancelPrefix("-", Pad(-v, 9), Pad(-w, 9));
      PadInjective(-v, -w, 9);
    } else {
      PadInjective(v, w, 10);
    }
  }

  lemma KeyIdentifies(id: string, v: int, other: string, w: int)
    requires ValidAttribute(id) && ValidAttribute(other) && CompositeKey(id, v) == CompositeKey(other, w)
    ensures id == other && v == w
  {
    var a, b := VersionText(v) + "\0", VersionText(w) + "\0";
    assert CompositeKey(id, v)[..|KeyPrefix(id)|] == KeyPrefix(id);
    PrefixIdentifies(id, other, b);
    CancelPrefix(KeyPrefix(id), a, b);
    assert VersionText(v) == a[..|a| - 1] && VersionText(w) == b[..|b| - 1];
    VersionTextInjective(v, w);
  }

  // ---- writes keep what is there ----

  lemma {:induction false} PutKeepsOthers(state: State, key: string, record: Record, k: string)
    requires GetState(state, key).None?
    ensures GetState(PutState(state, key, record), k) == if k == key then Some(record) else GetState(state, k)
  {
    if |state| > 0 && !StringLess(state[|state| - 1].key, key) {
      var init, last := state[..|state| - 1], state[|state| - 1];
      PutKeepsOthers(init, key, record, k);
      var rest := PutState(init, key, record);
      assert (rest + [last])[..|rest|] == rest;
    } else {
      assert (state + [Entry(key, record)])[..|state|] == state;
    }
  }

  lemma {:induction false} PutKeepsOrder(state: State, key: string, record: Record)
    requires Ordered(state) && GetState(state, key).None?
    ensures Ordered(PutState(state, key, record))
    ensures forall e :: e in PutState(state, key, record) ==> e in state || e == Entry(key, record)
  {
    if |state| > 0 {
      var init, last := state[..|state| - 1], state[|state| - 1];
      assert state == init + [last];
      if StringLess(last.key, key) {
        forall i | 0 <= i < |state| ensures StringLess(state[i].key, key) {
          if i < |init| { StringLessTransitive(state[i].key, last.key, key); }
        }
      } else {
        StringLessTotal(last.key, key);
        PutKeepsOrder(init, key, record);
        var rest := PutState(init, key, record);
        forall i | 0 <= i < |rest| ensures StringLess(rest[i].key, last.key) {
          assert rest[i] in init || rest[i] == Entry(key, record);
        }
      }
    }
  }

  /** Every transaction keeps the state valid and leaves every existing record alone. */
  lemma AnchoredKeepsRecords(state: State, r: Request, txID: string, anchoredAt: string)
    requires Valid(state)
    ensures var t := Anchored(state, r, txID, anchoredAt).state;
      && Valid(t)
      && forall k :: GetState(state, k).Some? ==> GetState(t, k) == GetState(state, k)
    ensures var reply := Anchored(state, r, txID, anchoredAt);
      reply.result.Ok? ==> r.version.Some? && Holds(reply.state, r.evidenceID, r.version.value, r.hash, reply.result.value)
  {
    hide GetState, PutState, StringLess, CompositeKey;
    var t := Anchored(state, r, txID, anchoredAt).state;
    if r.evidenceID != "" && r.hash != "" && r.eventType != "" && r.version.Some? && ValidAttribute(r.evidenceID)
       && GetState(state, CompositeKey(r.evidenceID, r.version.value)).None?
    {
      var key := CompositeKey(r.evidenceID, r.version.value);
      var rec := Record(r.evidenceID, r.version.value, r.hash, r.eventType, r.caseReference, r.actorOrg, r.appRecordID, txID, anchoredAt);
      assert t == PutState(state, key, rec);
      PutKeepsOrder(state, key, rec);
      forall i | 0 <= i < |t|
        ensures ValidAttribute(t[i].record.evidenceID) && t[i].key == CompositeKey(t[i].record.evidenceID, t[i].record.version)
      {
        assert t[i] in t;
      }
      forall k ensures GetState(t, k) == if k == key then Some(rec) else GetState(state, k) {
        PutKeepsOthers(state, key, rec, k);
      }
    }
  }

  /** A transaction changes at most the record under its own key, which it creates. */
  lemma AnchoredWrites(state: State, r: Request, txID: string, anchoredAt: string, k: string)
    ensures var t := Anchored(state, r, txID, anchoredAt).state;
      || GetState(t, k) == GetState(state, k)
      || (r.version.Some? && ValidAttribute(r.evidenceID) && k == CompositeKey(r.evidenceID, r.version.value)
          && GetState(t, k).Some? && GetState(t, k).value.hash == r.hash && GetState(t, k).value.txID == txID)
  {
    hide GetState, PutState, CompositeKey;
    if r.version.Some? && GetState(state, CompositeKey(r.evidenceID, r.version.value)).None? {
      PutKeepsOthers(state, CompositeKey(r.evidenceID, r.version.value),
                     Record(r.evidenceID, r.version.value, r.hash, r.eventType, r.caseReference, r.actorOrg,
                            r.appRecordID, txID, anchoredAt), k);
    }
  }

  lemma {:induction false} PutElements(state: State, key: string, record: Record)
    ensures forall e :: e in PutState(state, key, record) <==> e in state || e == Entry(key, record)
  {
    if |state| > 0 && !StringLess(state[|state| - 1].key, key) {
      assert state == state[..|state| - 1] + [state[|state| - 1]];
      PutElements(state[..|state| - 1], key, record);
    }
  }

  /** What one submission comes to, in terms of the records alone: malformed arguments are refused in this order; a record
      of the same evidence and version decides between its own transaction id and a mismatch, and nothing changes; and
      without one exactly the submitted record is added, under the submitting transaction. */
  lemma SubmissionDecides(state: State, r: Request, txID: string, anchoredAt: string)
    requires Valid(state)
    ensures var reply := Anchored(state, r, txID, anchoredAt);
      var missing := r.evidenceID == "" || r.hash == "" || r.eventType == "";
      var malformed := missing || r.version.None? || '\0' in r.evidenceID || '\U{10FFFF}' in r.evidenceID;
      && (missing ==> reply == Reply(state, Err(MissingField)))
      && (!missing && r.version.None? ==> reply == Reply(state, Err(InvalidVersion)))
      && (malformed && !missing && r.version.Some? ==> reply == Reply(state, Err(InvalidKey)))
      && (!malformed ==> forall e :: e in state && e.record.evidenceID == r.evidenceID && e.record.version == r.version.value ==>
            reply == Reply(state, if e.record.hash == r.hash then Ok(e.record.txID) else Err(HashMismatch(e.record.hash, r.hash))))
      && (!malformed && (forall e :: e in state ==> e.record.evidenceID != r.evidenceID || e.record.version != r.version.value) ==>
            && reply.result == Ok(txID)
            && forall e :: e in reply.state <==> e in state || e == Entry(CompositeKey(r.evidenceID, r.version.value), Record(
                 r.evidenceID, r.version.value, r.hash, r.eventType, r.caseReference, r.actorOrg, r.appRecordID, txID, anchoredAt)))
  {
    hide PutState, StringLess, CompositeKey, GetState;
    if ValidAttribute(r.evidenceID) && r.version.Some? {
      var key := CompositeKey(r.evidenceID, r.version.value);
      forall e | e in state && e.record.evidenceID == r.evidenceID && e.record.version == r.version.value
        ensures GetState(state, key) == Some(e.record)
      {
        OnlyUnderItsKey(state, e);
      }
      if forall e :: e in state ==> e.record.evidenceID != r.evidenceID || e.record.version != r.version.value {
        NoneUnderKey(state, r.evidenceID, r.version.value);
        PutElements(state, key, Record(r.evidenceID, r.version.value, r.hash, r.eventType, r.caseReference, r.actorOrg,
                                       r.appRecordID, txID, anchoredAt));
      }
    }
  }

  lemma OnlyUnderItsKey(state: State, e: Entry)
    requires Valid(state) && e in state
    ensures GetState(state, CompositeKey(e.record.evidenceID, e.record.version)) == Some(e.record)
  {
    hide StringLess, CompositeKey;
    var i :| 0 <= i < |state| && state[i] == e;
    var found := GetState(state, e.key);
    var j :| 0 <= j < |state| && state[j] == Entry(e.key, found.value);
    if i < j { StringLessAsymmetric(state[i].key, state[j].key); }
    if j < i { StringLessAsymmetric(state[j].key, state[i].key); }
  }

  lemma NoneUnderKey(state: State, id: string, version: int)
    requires Valid(state) && ValidAttribute(id)
    requires forall e :: e in state ==> e.record.evidenceID != id || e.record.version != version
    ensures GetState(state, CompositeKey(id, version)) == None
  {
    hide StringLess, CompositeKey;
    forall i | 0 <= i < |state| ensures state[i].key != CompositeKey(id, version) {
      var rec := state[i].record;
      assert state[i] in state;
      if state[i].key == CompositeKey(id, version) {
        KeyIdentifies(id, version, rec.evidenceID, rec.version);
      }
    }
  }

  // ---- key order and version order ----

  lemma {:induction false} LessBehindPrefix(p: string, a: string, b: string)
    ensures StringLess(p + a, p + b) <==> StringLess(a, b)
  {
    if |p| > 0 {
      LessBehindPrefix(p[1..], a, b);
      assert (p + a)[1..] == p[1..] + a && (p + b)[1..] == p[1..] + b;
    } else {
      assert p + a == a && p + b == b;
    }
  }

  lemma {:induction false} LessBeforeSuffix(a: string, b: string, s: string, t: string)
    requires |a| == |b| && StringLess(a, b)
    ensures StringLess(a + s, b + t)
  {
    assert (a + s)[0] == a[0] && (b + t)[0] == b[0];
    if a[0] == b[0] {
      LessBeforeSuffix(a[1..], b[1..], s, t);
      assert (a + s)[1..] == a[1..] + s && (b + t)[1..] == b[1..] + t;
    }
  }

  lemma PadStep(n: nat, width: nat)
    requires n < Pow10(width) && width >= 2
    ensures Pad(n, width) == Pad(n / 10, width - 1) + [DigitChar(n % 10)]
    ensures n / 10 < Pow10(width - 1) && |Pad(n / 10, width - 1)| == width - 1
  {
    PadWidth(n / 10, width - 1);
  }

  lemma {:induction false} PadOrder(m: nat, n: nat, width: nat)
    requires m < n < Pow10(width) && width >= 1
    ensures StringLess(Pad(m, width), Pad(n, width))
    decreases width
  {
    if width == 1 {
      assert Pow10(1) == 10 * Pow10(0);
    } else {
      PadOrderStep(m, n, width);
      if m / 10 < n / 10 {
        PadStep(n, width);
        PadOrder(m / 10, n / 10, width - 1);
      }
    }
  }

  lemma PadOrderStep(m: nat, n: nat, width: nat)
    requires m < n < Pow10(width) && width >= 2
    ensures m / 10 == n / 10 || StringLess(Pad(m / 10, width - 1), Pad(n / 10, width - 1)) ==>
      StringLess(Pad(m, width), Pad(n, width))
  {
    PadStep(m, width);
    PadStep(n, width);
    hide Pad, StringLess, Pow10;
    var a, b := Pad(m / 10, width - 1), Pad(n / 10, width - 1);
    var c, d := [DigitChar(m % 10)], [DigitChar(n % 10)];
    if m / 10 == n / 10 {
      LessBehindPrefix(a, c, d);
      LastDigitOrder(m, n);
    } else if StringLess(a, b) {
      LessBeforeSuffix(a, b, c, d);
    }
  }

  lemma LastDigitOrder(m: nat, n: nat)
    requires m < n && m / 10 == n / 10
    ensures StringLess([DigitChar(m % 10)], [DigitChar(n % 10)])
  {}

  lemma KeyOrder(id: string, v: int, w: int)
    requires 0 <= v < w < Pow10(10)
    ensures StringLess(CompositeKey(id, v), CompositeKey(id, w))
  {
    hide Pad, StringLess, Pow10;
    PadOrder(v, w, 10);
    PadWidth(v, 10);
    PadWidth(w, 10);
    LessBeforeSuffix(VersionText(v), VersionText(w), "\0", "\0");
    LessBehindPrefix(KeyPrefix(id), VersionText(v) + "\0", VersionText(w) + "\0");
  }

  // ---- history ----

  /** The versions the application can submit for this evidence. */
  predicate TenDigitVersions(state: State, id: string) {
    forall i :: 0 <= i < |state| && state[i].record.evidenceID == id ==> 0 <= state[i].record.version < Pow10(10)
  }

  predicate Ascending(rs: seq<Record>) {
    forall i, j :: 0 <= i < j < |rs| ==> rs[i].version < rs[j].version
  }

  /** Where an element of a scan comes from. */
  lemma {:induction false} ScanOrigin(state: State, prefix: string, k: nat) returns (i: nat)
    requires k < |Scan(state, prefix)|
    ensures i < |state| && IsPrefix(prefix, state[i].key) && Scan(state, prefix)[k] == state[i].record
  {
    var n := |state| - 1;
    if k < |Scan(state[..n], prefix)| {
      i := ScanOrigin(state[..n], prefix, k);
    } else {
      i := n;
    }
  }

  /** A scan drops nothing under its prefix. */
  lemma {:induction false} ScanKeeps(state: State, prefix: string, i: nat)
    requires i < |state| && IsPrefix(prefix, state[i].key)
    ensures state[i].record in Scan(state, prefix)
  {
    if i < |state| - 1 {
      ScanKeeps(state[..|state| - 1], prefix, i);
    }
  }

  /** In the order of their keys, so that no record is listed twice. */
  predicate KeysAscend(rs: seq<Record>) {
    forall i, j :: 0 <= i < j < |rs| ==>
      StringLess(CompositeKey(rs[i].evidenceID, rs[i].version), CompositeKey(rs[j].evidenceID, rs[j].version))
  }

  lemma HistoryIsComplete(state: State, id: string)
    requires Valid(state) && ValidAttribute(id)
    ensures forall r :: r in Scan(state, KeyPrefix(id)) <==> r.evidenceID == id && exists i :: 0 <= i < |state| && state[i].record == r
  {
    hide StringLess, CompositeKey, KeyPrefix, IsPrefix, Scan, Valid;
    var h := Scan(state, KeyPrefix(id));
    forall k | 0 <= k < |h| ensures h[k].evidenceID == id && exists i :: 0 <= i < |state| && state[i].record == h[k] {
      var i := ScanOrigin(state, KeyPrefix(id), k);
      EntryUnderPrefix(state, i, id);
    }
    forall i | 0 <= i < |state| && state[i].record.evidenceID == id ensures state[i].record in h {
      EntryUnderPrefix(state, i, id);
      ScanKeeps(state, KeyPrefix(id), i);
    }
  }

  lemma {:induction false} ScanKeepsKeyOrder(state: State, id: string)
    requires Valid(state) && ValidAttribute(id)
    ensures KeysAscend(Scan(state, KeyPrefix(id)))
  {
    hide StringLess, CompositeKey, KeyPrefix, IsPrefix;
    if |state| > 0 {
      var n := |state| - 1;
      ScanKeepsKeyOrder(state[..n], id);
      var h := Scan(state[..n], KeyPrefix(id));
      forall k | 0 <= k < |h| ensures StringLess(CompositeKey(h[k].evidenceID, h[k].version), state[n].key) {
        var i := ScanOrigin(state[..n], KeyPrefix(id), k);
        assert state[..n][i] == state[i];
      }
    }
  }

  /** History lists exactly the records of the evidence, in strictly ascending version order, and the latest
      record is its last element. */
  lemma HistoryAscends(state: State, id: string)
    requires Valid(state) && ValidAttribute(id) && TenDigitVersions(state, id)
    ensures var h := Scan(state, KeyPrefix(id));
      && Ascending(h)
      && (forall r :: r in h <==> exists i :: 0 <= i < |state| && state[i].record == r && r.evidenceID == id)
      && (forall i :: 0 <= i < |state| && state[i].record.evidenceID == id ==>
            |h| > 0 && state[i].record.version <= h[|h| - 1].version)
  {
    hide StringLess, CompositeKey, KeyPrefix, IsPrefix, Scan, Pow10, Valid;
    HistoryIsComplete(state, id);
    ScanAscends(state, id);
  }

  lemma {:induction false} ScanAscends(state: State, id: string)
    requires Valid(state) && ValidAttribute(id) && TenDigitVersions(state, id)
    ensures Ascending(Scan(state, KeyPrefix(id)))
  {
    hide StringLess, CompositeKey, KeyPrefix, IsPrefix, Pow10;
    if |state| > 0 {
      var n := |state| - 1;
      ScanAscends(state[..n], id);
      var h := Scan(state[..n], KeyPrefix(id));
      if IsPrefix(KeyPrefix(id), state[n].key) {
        forall k | 0 <= k < |h| ensures h[k].version < state[n].record.version {
          var i := ScanOrigin(state[..n], KeyPrefix(id), k);
          EarlierIsLower(state, i, n, id);
        }
      }
    }
  }

  lemma EarlierIsLower(state: State, i: nat, n: nat, id: string)
    requires Valid(state) && ValidAttribute(id) && TenDigitVersions(state, id) && i < n < |state|
    requires IsPrefix(KeyPrefix(id), state[i].key) && IsPrefix(KeyPrefix(id), state[n].key)
    ensures state[i].record.version < state[n].record.version
  {
    hide StringLess, CompositeKey, KeyPrefix, IsPrefix, Pow10;
    EntryUnderPrefix(state, i, id);
    EntryUnderPrefix(state, n, id);
    var v, w := state[i].record.version, state[n].record.version;
    StringLessAsymmetric(state[i].key, state[n].key);
    if w < v {
      KeyOrder(id, w, v);
    }
  }

  // ---- over all runs ----

  datatype Submission = Submission(request: Request, txID: string, anchoredAt: string)

  function Submit(state: State, log: seq<Submission>): State {
    if |log| == 0 then state
    else
      var last := log[|log| - 1];
      Anchored(Submit(state, log[..|log| - 1]), last.request, last.txID, last.anchoredAt).state
  }

  /** Whatever else is submitted, a record once written stays as it is: each key is written at most once. */
  lemma {:induction false} WrittenOnce(state: State, log: seq<Submission>)
    requires Valid(state)
    ensures Valid(Submit(state, log))
    ensures forall k :: GetState(state, k).Some? ==> GetState(Submit(state, log), k) == GetState(state, k)
  {
    hide Valid, GetState, Anchored;
    if |log| > 0 {
      var last := log[|log| - 1];
      WrittenOnce(state, log[..|log| - 1]);
      AnchoredKeepsRecords(Submit(state, log[..|log| - 1]), last.request, last.txID, last.anchoredAt);
    }
  }
}
