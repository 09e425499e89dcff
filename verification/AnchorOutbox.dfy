/** The anchor outbox: PENDING rows are submitted to the write-once ledger under crashes, lost replies,
    redelivery and retries, and a three-way check reads both sides. */
module AnchorOutbox {
  import opened Outcomes
  import opened Text
  import opened EntryText
  import Fabric
  import Ledger

  datatype Status = PENDING | CONFIRMED | FAILED

  /** One row of blockchain_anchors; channel, chaincode name, error text and timestamps are not modelled. */
  datatype Anchor = Anchor(
    documentID: Uuid, documentVersion: int, eventType: string, documentHash: Digest,
    status: Status, fabricTxID: Option<string>, organization: Option<string>, retryCount: int)

  datatype Document = Document(caseID: Uuid, content: seq<Byte>)

  type Anchors = map<Uuid, Anchor>

  // ---- blockchain_anchors: constraints and statements ----

  const EVENT_TYPES := {"DOCUMENT_UPLOADED", "DOCUMENT_REDACTED", "CERTIFICATE_ISSUED"}

  /** The CHECK constraints of the table. */
  predicate Checks(a: Anchor) {
    && |a.documentHash| == 32
    && a.eventType in EVENT_TYPES
    && (a.status == CONFIRMED <==> a.fabricTxID.Some?)
    && a.documentVersion >= 1
    && a.retryCount >= 0
  }

  datatype DbError = NoRows | CheckViolation | DuplicateKey

  datatype Write = Write(anchors: Anchors, result: Result<Anchor, DbError>)

  function Store(t: Anchors, id: Uuid, a: Anchor): Write {
    if Checks(a) then Write(t[id := a], Ok(a)) else Write(t, Err(CheckViolation))
  }

  function CreateBlockchainAnchor(t: Anchors, id: Uuid, documentID: Uuid, eventType: string, hash: Digest, org: string): Write {
    if id in t then Write(t, Err(DuplicateKey))
    else Store(t, id, Anchor(documentID, 1, eventType, hash, PENDING, None, Some(org), 0))
  }

  function ConfirmBlockchainAnchor(t: Anchors, id: Uuid, txID: string, org: string): Write {
    if id !in t || t[id].status != PENDING then Write(t, Err(NoRows))
    else Store(t, id, t[id].(status := CONFIRMED, fabricTxID := Some(txID), organization := Some(org)))
  }

  function FailBlockchainAnchor(t: Anchors, id: Uuid, retryCount: int): Write {
    if id !in t || t[id].status != PENDING then Write(t, Err(NoRows))
    else Store(t, id, t[id].(status := FAILED, retryCount := retryCount))
  }

  function IncrementRetry(t: Anchors, id: Uuid): Write {
    if id !in t || t[id].status != PENDING then Write(t, Err(NoRows))
    else Store(t, id, t[id].(retryCount := t[id].retryCount + 1))
  }

  /** Rows never disappear, only PENDING rows change, and what was to be anchored never does. */
  predicate Progresses(t: Anchors, u: Anchors) {
    forall id :: id in t ==>
      && id in u
      && (t[id].status != PENDING ==> u[id] == t[id])
      && u[id].documentID == t[id].documentID && u[id].documentVersion == t[id].documentVersion
      && u[id].eventType == t[id].eventType && u[id].documentHash == t[id].documentHash
  }

  // ---- the system ----

  const BLOCKCHAIN_ANCHOR_MAX_RETRY: nat := 5

  /** One delivery of a task: RunAnchor, then the error handler if it returned an error. */
  datatype Phase =
    | Loading
    | Loaded(anchor: Anchor)
    | Accepted(txID: string)
    | Unavailable
    | Rejected(anchor: Anchor)
    | Erred
    | Done

  datatype Delivery = Delivery(anchorID: Uuid, retried: nat, phase: Phase)

  /** What came back: the chaincode's own reply or rejection, or an error text of the gateway, whether or not the
      transaction was executed. */
  datatype Answer = Replied | GatewayError(text: string)

  datatype System = System(
    documents: map<Uuid, Document>, anchors: Anchors, ledger: Ledger.State, enabled: bool, deliveries: map<nat, Delivery>)

  datatype Action =
    | Upload(documentID: Uuid, caseID: Uuid, content: seq<Byte>)
    | AnchorUpload(id: Uuid, documentID: Uuid)
    | AnchorExport(id: Uuid, documentID: Uuid, exportHash: Digest)
    | Configure(enabled: bool)
    | Deliver(d: nat, anchorID: Uuid, retried: nat)
    | Load(d: nat)
    | Submit(d: nat, txID: string, at: string, executed: bool, answer: Answer)
    | Record(d: nat, stored: bool)
    | Handle(d: nat)
    | Crash(d: nat)

  datatype Config = Config(sha256: seq<Byte> -> Digest, mspID: string) {
    ghost predicate Lawful() {
      forall s :: |sha256(s)| == 32
    }
  }

  function HashOf(c: Config, d: Document): Digest {
    c.sha256(d.content)
  }

  function AnchorRequest(c: Config, id: Uuid, a: Anchor, caseID: Uuid): Ledger.Request {
    Ledger.Request(UuidText(a.documentID), Some(a.documentVersion), Hex(a.documentHash), a.eventType, UuidText(caseID),
                   c.mspID, UuidText(id))
  }

  /** The transaction id FabricService reports for the chaincode's reply. */
  function ReportedTxID(txID: string): string {
    if txID == "" then "unknown" else txID
  }

  /** An error is "not found" by its wording alone, and otherwise an availability failure. */
  function Failed(a: Anchor, text: string): Phase {
    if Fabric.Worded(text) then Rejected(a) else Unavailable
  }

  function Outcome(a: Anchor, answer: Answer, reply: Result<string, Ledger.LedgerError>): Phase {
    match answer
    case GatewayError(text) => Failed(a, text)
    case Replied => if reply.Ok? then Accepted(ReportedTxID(reply.value)) else Failed(a, Fabric.ChaincodeText(reply.error))
  }

  function SetPhase(s: System, d: nat, p: Phase): System
    requires d in s.deliveries
  {
    s.(deliveries := s.deliveries[d := s.deliveries[d].(phase := p)])
  }

  function DoAnchor(c: Config, s: System, id: Uuid, documentID: Uuid, eventType: string, hash: Digest): System {
    if !s.enabled || documentID !in s.documents then s
    else s.(anchors := CreateBlockchainAnchor(s.anchors, id, documentID, eventType, hash, c.mspID).anchors)
  }

  function DoLoad(s: System, d: nat): System {
    if d !in s.deliveries || !s.deliveries[d].phase.Loading? then s
    else
      var id := s.deliveries[d].anchorID;
      if id !in s.anchors || s.anchors[id].status != PENDING then SetPhase(s, d, Done) else SetPhase(s, d, Loaded(s.anchors[id]))
  }

  /** Fabric transaction ids are never empty. Without Fabric every call is unavailable. */
  function DoSubmit(c: Config, s: System, d: nat, txID: string, at: string, executed: bool, answer: Answer): System {
    if d !in s.deliveries || !s.deliveries[d].phase.Loaded? || txID == "" || (answer.Replied? && !executed) then s
    else
      var me := s.deliveries[d];
      var a := me.phase.anchor;
      if a.documentID !in s.documents then SetPhase(s, d, Erred)
      else if !s.enabled then SetPhase(s, d, Unavailable)
      else
        var reply := Ledger.Anchored(s.ledger, AnchorRequest(c, me.anchorID, a, s.documents[a.documentID].caseID), txID, at);
        SetPhase(if executed then s.(ledger := reply.state) else s, d, Outcome(a, answer, reply.result))
  }

  /** The UPDATE that ends RunAnchor; if the database fails, the error is only logged. */
  function DoRecord(c: Config, s: System, d: nat, stored: bool): System {
    if d !in s.deliveries then s
    else
      var me := s.deliveries[d];
      match me.phase
      case Accepted(txID) =>
        SetPhase(if stored then s.(anchors := ConfirmBlockchainAnchor(s.anchors, me.anchorID, txID, c.mspID).anchors) else s, d, Done)
      case Rejected(a) =>
        SetPhase(if stored then s.(anchors := FailBlockchainAnchor(s.anchors, me.anchorID, a.retryCount + 1).anchors) else s, d, Done)
      case Unavailable =>
        SetPhase(if stored then s.(anchors := IncrementRetry(s.anchors, me.anchorID).anchors) else s, d, Erred)
      case _ => s
  }

  /** MarkAnchorOperationallyFailed passes -1 as the retry count. */
  function DoHandle(s: System, d: nat): System {
    if d !in s.deliveries || !s.deliveries[d].phase.Erred? || s.deliveries[d].retried < BLOCKCHAIN_ANCHOR_MAX_RETRY then s
    else SetPhase(s.(anchors := FailBlockchainAnchor(s.anchors, s.deliveries[d].anchorID, -1).anchors), d, Done)
  }

  function Step(c: Config, s: System, a: Action): System {
    match a
    case Upload(documentID, caseID, content) =>
      if documentID in s.documents then s else s.(documents := s.documents[documentID := Document(caseID, content)])
    case AnchorUpload(id, documentID) =>
      if documentID !in s.documents then s
      else DoAnchor(c, s, id, documentID, "DOCUMENT_UPLOADED", HashOf(c, s.documents[documentID]))
    case AnchorExport(id, documentID, exportHash) => DoAnchor(c, s, id, documentID, "EVIDENCE_EXPORTED", exportHash)
    case Configure(enabled) => s.(enabled := enabled)
    case Deliver(d, anchorID, retried) =>
      if d in s.deliveries || anchorID !in s.anchors then s else s.(deliveries := s.deliveries[d := Delivery(anchorID, retried, Loading)])
    case Load(d) => DoLoad(s, d)
    case Submit(d, txID, at, executed, answer) => DoSubmit(c, s, d, txID, at, executed, answer)
    case Record(d, stored) => DoRecord(c, s, d, stored)
    case Handle(d) => DoHandle(s, d)
    case Crash(d) => if d in s.deliveries then SetPhase(s, d, Done) else s
  }

  function Initial(): System {
    System(map[], map[], [], false, map[])
  }

  function RunFrom(c: Config, s: System, actions: seq<Action>): System {
    if |actions| == 0 then s
    else Step(c, RunFrom(c, s, actions[..|actions| - 1]), actions[|actions| - 1])
  }

  // ---- the invariant ----

  function DocumentKey(documentID: Uuid): string {
    Ledger.CompositeKey(UuidText(documentID), 1)
  }

  /** The ledger holds the anchor's hash under its document, written by this transaction. */
  predicate OnLedger(ledger: Ledger.State, a: Anchor, txID: string) {
    Ledger.Holds(ledger, UuidText(a.documentID), a.documentVersion, Hex(a.documentHash), txID)
  }

  predicate GoodAnchor(c: Config, s: System, a: Anchor) {
    && a.documentID in s.documents
    && a.documentHash == HashOf(c, s.documents[a.documentID])
    && a.documentVersion == 1 && a.eventType == "DOCUMENT_UPLOADED" && a.retryCount >= 0
    && (a.status == CONFIRMED <==> a.fabricTxID.Some?)
    && (a.status == CONFIRMED ==> OnLedger(s.ledger, a, a.fabricTxID.value))
  }

  /** Whatever the ledger holds for a document is the hash of what was uploaded. */
  ghost predicate GoodLedger(c: Config, s: System) {
    && Ledger.Valid(s.ledger)
    && (forall id: Uuid :: var r := Ledger.GetState(s.ledger, DocumentKey(id)); r.Some? ==>
          id in s.documents && r.value.hash == Hex(HashOf(c, s.documents[id])) && r.value.txID != "")
  }

  predicate SameTarget(a: Anchor, b: Anchor) {
    a.documentID == b.documentID && a.documentVersion == b.documentVersion && a.eventType == b.eventType && a.documentHash == b.documentHash
  }

  predicate GoodDelivery(s: System, d: Delivery) {
    && d.anchorID in s.anchors
    && (d.phase.Loaded? || d.phase.Rejected? ==> SameTarget(d.phase.anchor, s.anchors[d.anchorID]) && d.phase.anchor.retryCount >= 0)
    && (d.phase.Accepted? ==> OnLedger(s.ledger, s.anchors[d.anchorID], d.phase.txID))
  }

  ghost predicate Inv(c: Config, s: System) {
    && GoodLedger(c, s)
    && (forall id :: id in s.anchors ==> GoodAnchor(c, s, s.anchors[id]))
    && (forall d :: d in s.deliveries ==> GoodDelivery(s, s.deliveries[d]))
  }

  /** Documents and ledger records are never changed, and anchors only progress. */
  ghost predicate Later(s: System, t: System) {
    && (forall id :: id in s.documents ==> id in t.documents && t.documents[id] == s.documents[id])
    && (forall k :: Ledger.GetState(s.ledger, k).Some? ==> Ledger.GetState(t.ledger, k) == Ledger.GetState(s.ledger, k))
    && Progresses(s.anchors, t.anchors)
  }

  lemma OnLedgerLater(s: System, t: System, a: Anchor, txID: string)
    requires Later(s, t) && OnLedger(s.ledger, a, txID)
    ensures OnLedger(t.ledger, a, txID)
  {
    hide Ledger.GetState, Progresses;
  }

  /** A step that adds to documents, ledger or anchors keeps what was good. */
  lemma StaysGood(c: Config, s: System, t: System)
    requires Inv(c, s) && Later(s, t)
    ensures forall id :: id in s.anchors && t.anchors[id] == s.anchors[id] ==> GoodAnchor(c, t, t.anchors[id])
    ensures forall d :: d in s.deliveries ==> GoodDelivery(t, s.deliveries[d])
  {
    hide Ledger.GetState, OnLedger, GoodLedger;
    forall id | id in s.anchors && t.anchors[id] == s.anchors[id] ensures GoodAnchor(c, t, t.anchors[id]) {
      assert GoodAnchor(c, s, s.anchors[id]);
      if s.anchors[id].status == CONFIRMED {
        OnLedgerLater(s, t, s.anchors[id], s.anchors[id].fabricTxID.value);
      }
    }
    forall d | d in s.deliveries ensures GoodDelivery(t, s.deliveries[d]) {
      var me := s.deliveries[d];
      assert GoodDelivery(s, me);
      if me.phase.Accepted? {
        OnLedgerLater(s, t, s.anchors[me.anchorID], me.phase.txID);
        SameOnLedger(t.ledger, s.anchors[me.anchorID], t.anchors[me.anchorID], me.phase.txID);
      }
    }
  }

  lemma SameOnLedger(ledger: Ledger.State, a: Anchor, b: Anchor, txID: string)
    requires OnLedger(ledger, a, txID) && SameTarget(a, b)
    ensures OnLedger(ledger, b, txID)
  {}

  // ---- every step keeps the invariant ----

  /** One delivery moves and at most its own anchor changes. */
  lemma DeliveryStep(c: Config, s: System, t: System, d: nat, id: Uuid, a: Anchor, next: Delivery)
    requires Inv(c, s) && Later(s, t) && t.documents == s.documents && GoodLedger(c, t)
    requires d in s.deliveries && id == s.deliveries[d].anchorID && t.deliveries == s.deliveries[d := next]
    requires t.anchors == s.anchors[id := a] && GoodAnchor(c, t, a) && GoodDelivery(t, next)
    ensures Inv(c, t)
  {
    hide Ledger.GetState, OnLedger, GoodLedger, GoodAnchor, GoodDelivery, Later;
    StaysGood(c, s, t);
  }

  lemma SameButDeliveries(c: Config, s: System, t: System)
    requires GoodLedger(c, s) && t == s.(deliveries := t.deliveries)
    ensures GoodLedger(c, t) && Later(s, t)
    ensures forall a :: GoodAnchor(c, s, a) ==> GoodAnchor(c, t, a)
  {
    hide Ledger.GetState, OnLedger, Ledger.Valid;
  }

  lemma LoadKeepsInv(c: Config, s: System, d: nat)
    requires Inv(c, s)
    ensures Inv(c, DoLoad(s, d)) && Later(s, DoLoad(s, d))
  {
    hide Ledger.GetState, OnLedger, Ledger.Valid, Ledger.CompositeKey, GoodLedger, Later;
    var t := DoLoad(s, d);
    SameButDeliveries(c, s, t);
    if t != s {
      var id := s.deliveries[d].anchorID;
      assert GoodDelivery(s, s.deliveries[d]) && GoodAnchor(c, s, s.anchors[id]);
      DeliveryStep(c, s, t, d, id, s.anchors[id], t.deliveries[d]);
    }
  }

  lemma CrashKeepsInv(c: Config, s: System, d: nat)
    requires Inv(c, s)
    ensures Inv(c, Step(c, s, Crash(d))) && Later(s, Step(c, s, Crash(d)))
  {
    hide Ledger.GetState, OnLedger, Ledger.Valid, Ledger.CompositeKey, GoodLedger, Later;
    var t := Step(c, s, Crash(d));
    SameButDeliveries(c, s, t);
    if t != s {
      var id := s.deliveries[d].anchorID;
      assert GoodDelivery(s, s.deliveries[d]) && GoodAnchor(c, s, s.anchors[id]);
      DeliveryStep(c, s, t, d, id, s.anchors[id], t.deliveries[d]);
    }
  }

  lemma DeliverKeepsInv(c: Config, s: System, d: nat, anchorID: Uuid, retried: nat)
    requires Inv(c, s)
    ensures Inv(c, Step(c, s, Deliver(d, anchorID, retried))) && Later(s, Step(c, s, Deliver(d, anchorID, retried)))
  {
    hide Ledger.GetState, OnLedger, Ledger.Valid, GoodLedger, Later, GoodAnchor;
    var t := Step(c, s, Deliver(d, anchorID, retried));
    SameButDeliveries(c, s, t);
    StaysGood(c, s, t);
  }

  lemma MoreDocuments(c: Config, s: System, t: System, documentID: Uuid, doc: Document)
    requires GoodLedger(c, s) && documentID !in s.documents && t == s.(documents := s.documents[documentID := doc])
    ensures GoodLedger(c, t) && Later(s, t)
  {
    hide Ledger.GetState, Ledger.Valid, DocumentKey, HashOf, Hex;
    forall id: Uuid | Ledger.GetState(t.ledger, DocumentKey(id)).Some?
      ensures id in t.documents && Ledger.GetState(t.ledger, DocumentKey(id)).value.hash == Hex(HashOf(c, t.documents[id]))
    {
      assert id in s.documents;
    }
  }

  lemma UploadKeepsInv(c: Config, s: System, documentID: Uuid, caseID: Uuid, content: seq<Byte>)
    requires Inv(c, s)
    ensures Inv(c, Step(c, s, Upload(documentID, caseID, content))) && Later(s, Step(c, s, Upload(documentID, caseID, content)))
  {
    hide GoodLedger, GoodAnchor, Later, GoodDelivery;
    var t := Step(c, s, Upload(documentID, caseID, content));
    if documentID in s.documents {
      SameButDeliveries(c, s, s);
    } else {
      MoreDocuments(c, s, t, documentID, Document(caseID, content));
      StaysGood(c, s, t);
    }
  }

  lemma ConfigureKeepsInv(c: Config, s: System, enabled: bool)
    requires Inv(c, s)
    ensures Inv(c, s.(enabled := enabled)) && Later(s, s.(enabled := enabled))
  {
    hide Ledger.GetState, OnLedger, Ledger.Valid, Ledger.CompositeKey, GoodAnchor;
    StaysGood(c, s, s.(enabled := enabled));
  }

  lemma CreateEffect(t: Anchors, id: Uuid, documentID: Uuid, eventType: string, hash: Digest, org: string)
    requires |hash| == 32
    ensures var w := CreateBlockchainAnchor(t, id, documentID, eventType, hash, org);
      && Progresses(t, w.anchors)
      && w.anchors == if id !in t && eventType in EVENT_TYPES then
                        t[id := Anchor(documentID, 1, eventType, hash, PENDING, None, Some(org), 0)]
                      else t
  {}

  /** The event type an export passes is refused by the CHECK constraint, so only uploads are ever anchored. */
  lemma ExportsAreNeverAnchored(c: Config, s: System, id: Uuid, documentID: Uuid, hash: Digest)
    ensures DoAnchor(c, s, id, documentID, "EVIDENCE_EXPORTED", hash) == s
  {}

  lemma AnchorUploadKeepsInv(c: Config, s: System, id: Uuid, documentID: Uuid)
    requires c.Lawful() && Inv(c, s)
    ensures var t := Step(c, s, AnchorUpload(id, documentID)); Inv(c, t) && Later(s, t)
  {
    hide GoodLedger, CreateBlockchainAnchor, GoodDelivery, Progresses, OnLedger;
    var t := Step(c, s, AnchorUpload(id, documentID));
    SameButDeliveries(c, s, s);
    if documentID in s.documents {
      CreateEffect(s.anchors, id, documentID, "DOCUMENT_UPLOADED", HashOf(c, s.documents[documentID]), c.mspID);
      SameLedgerIsGood(c, s, t);
      StaysGood(c, s, t);
      forall i | i in t.anchors ensures GoodAnchor(c, t, t.anchors[i]) {
        assert i in s.anchors ==> t.anchors[i] == s.anchors[i];
      }
    }
  }

  // ---- submitting ----

  lemma UuidTextIsAttribute(u: Uuid)
    ensures Ledger.ValidAttribute(UuidText(u)) && UuidText(u) != ""
  {
    forall i | 0 <= i < |UuidText(u)| ensures IsHexChar(UuidText(u)[i]) || UuidText(u)[i] == '-' {}
  }

  lemma DocumentKeyIdentifies(a: Uuid, b: Uuid)
    requires DocumentKey(a) == DocumentKey(b)
    ensures a == b
  {
    hide UuidText;
    UuidTextIsAttribute(a);
    UuidTextIsAttribute(b);
    Ledger.KeyIdentifies(UuidText(a), 1, UuidText(b), 1);
    UuidTextInjective(a, b);
  }

  /** Submitting a good anchor keeps the ledger good; an accepted submission is on it under the reported id. */
  lemma SubmissionIsGood(c: Config, s: System, id: Uuid, a: Anchor, caseID: Uuid, txID: string, at: string)
    requires GoodLedger(c, s) && txID != "" && GoodTarget(c, s, a)
    ensures var reply := Ledger.Anchored(s.ledger, AnchorRequest(c, id, a, caseID), txID, at);
      && GoodLedger(c, s.(ledger := reply.state))
      && (forall k :: Ledger.GetState(s.ledger, k).Some? ==> Ledger.GetState(reply.state, k) == Ledger.GetState(s.ledger, k))
      && (reply.result.Ok? ==> OnLedger(reply.state, a, ReportedTxID(reply.result.value)))
  {
    hide Ledger.GetState, Ledger.Anchored, Ledger.Valid, UuidText, Hex, Ledger.CompositeKey;
    var r := AnchorRequest(c, id, a, caseID);
    var reply := Ledger.Anchored(s.ledger, r, txID, at);
    Ledger.AnchoredKeepsRecords(s.ledger, r, txID, at);
    forall doc: Uuid | Ledger.GetState(reply.state, DocumentKey(doc)).Some?
      ensures doc in s.documents
      ensures Ledger.GetState(reply.state, DocumentKey(doc)).value.hash == Hex(HashOf(c, s.documents[doc]))
      ensures Ledger.GetState(reply.state, DocumentKey(doc)).value.txID != ""
    {
      Ledger.AnchoredWrites(s.ledger, r, txID, at, DocumentKey(doc));
      if Ledger.GetState(reply.state, DocumentKey(doc)) != Ledger.GetState(s.ledger, DocumentKey(doc)) {
        DocumentKeyIdentifies(doc, a.documentID);
      }
    }
    if reply.result.Ok? {
      assert DocumentKey(a.documentID) == Ledger.CompositeKey(UuidText(a.documentID), a.documentVersion);
    }
  }

  predicate GoodTarget(c: Config, s: System, a: Anchor) {
    a.documentID in s.documents && a.documentHash == HashOf(c, s.documents[a.documentID]) && a.documentVersion == 1
  }

  lemma SubmitKeepsInv(c: Config, s: System, d: nat, txID: string, at: string, executed: bool, answer: Answer)
    requires Inv(c, s)
    ensures var t := DoSubmit(c, s, d, txID, at, executed, answer); Inv(c, t) && Later(s, t)
  {
    hide Ledger.GetState, Ledger.Anchored, Ledger.Valid, Ledger.Holds, GoodLedger, UuidText, Hex;
    var t := DoSubmit(c, s, d, txID, at, executed, answer);
    SameButDeliveries(c, s, s);
    if t != s {
      var me := s.deliveries[d];
      assert GoodDelivery(s, me) && GoodAnchor(c, s, s.anchors[me.anchorID]);
      SubmissionIsGood(c, s, me.anchorID, me.phase.anchor, s.documents[me.phase.anchor.documentID].caseID, txID, at);
      SameLedgerIsGood(c, t.(deliveries := s.deliveries), t);
      StaysGood(c, s, t);
      DeliveryStep(c, s, t, d, me.anchorID, s.anchors[me.anchorID], t.deliveries[d]);
    }
  }

  lemma SameLedgerIsGood(c: Config, s: System, t: System)
    requires GoodLedger(c, s) && t.ledger == s.ledger && t.documents == s.documents
    ensures GoodLedger(c, t)
  {
    hide Ledger.GetState, Ledger.Valid, Ledger.CompositeKey;
  }

  // ---- recording the outcome ----

  lemma RecordKeepsInv(c: Config, s: System, d: nat, stored: bool)
    requires c.Lawful() && Inv(c, s)
    ensures Inv(c, DoRecord(c, s, d, stored)) && Later(s, DoRecord(c, s, d, stored))
  {
    hide Ledger.GetState, Ledger.Valid, Ledger.CompositeKey, GoodLedger, OnLedger;
    hide ConfirmBlockchainAnchor, FailBlockchainAnchor, IncrementRetry, Checks;
    var t := DoRecord(c, s, d, stored);
    SameButDeliveries(c, s, s);
    if t != s {
      var me := s.deliveries[d];
      assert GoodDelivery(s, me) && GoodAnchor(c, s, s.anchors[me.anchorID]);
      GoodAnchorChecks(c, s, s.anchors[me.anchorID]);
      RecordedAnchor(c, s, d, stored);
      UpdatedIsGood(c, s, t, s.anchors[me.anchorID], t.anchors[me.anchorID]);
      SameLedgerIsGood(c, s, t);
      DeliveryStep(c, s, t, d, me.anchorID, t.anchors[me.anchorID], t.deliveries[d]);
    }
  }

  /** What an update of RunAnchor can make of a row. */
  predicate Updated(a: Anchor, b: Anchor, ledger: Ledger.State) {
    && SameTarget(a, b) && b.retryCount >= 0
    && (b.status == CONFIRMED <==> b.fabricTxID.Some?)
    && (b.status == CONFIRMED ==> OnLedger(ledger, b, b.fabricTxID.value))
  }

  /** At most this row changed, and only as it may. */
  predicate UpdatedRow(t: Anchors, u: Anchors, id: Uuid, ledger: Ledger.State)
    requires id in t
  {
    id in u && u == t[id := u[id]] && Progresses(t, u) && Updated(t[id], u[id], ledger)
  }

  lemma ConfirmEffect(t: Anchors, id: Uuid, txID: string, org: string, ledger: Ledger.State)
    requires id in t && Checks(t[id]) && Updated(t[id], t[id], ledger) && OnLedger(ledger, t[id], txID)
    ensures UpdatedRow(t, ConfirmBlockchainAnchor(t, id, txID, org).anchors, id, ledger)
  {
    SameOnLedger(ledger, t[id], t[id].(status := CONFIRMED, fabricTxID := Some(txID), organization := Some(org)), txID);
    hide OnLedger;
  }

  lemma FailEffect(t: Anchors, id: Uuid, retryCount: int, ledger: Ledger.State)
    requires id in t && Checks(t[id]) && Updated(t[id], t[id], ledger) && retryCount >= 0
    ensures UpdatedRow(t, FailBlockchainAnchor(t, id, retryCount).anchors, id, ledger)
  {
    hide OnLedger;
  }

  lemma RetryEffect(t: Anchors, id: Uuid, ledger: Ledger.State)
    requires id in t && Checks(t[id]) && Updated(t[id], t[id], ledger)
    ensures UpdatedRow(t, IncrementRetry(t, id).anchors, id, ledger)
  {
    hide OnLedger;
  }

  lemma NoEffect(t: Anchors, id: Uuid, ledger: Ledger.State)
    requires id in t && Updated(t[id], t[id], ledger)
    ensures UpdatedRow(t, t, id, ledger)
  {}

  lemma UpdatedIsGood(c: Config, s: System, t: System, a: Anchor, b: Anchor)
    requires GoodAnchor(c, s, a) && Updated(a, b, s.ledger) && t.documents == s.documents && t.ledger == s.ledger
    ensures GoodAnchor(c, t, b)
  {
    hide OnLedger;
  }

  /** The anchors after RunAnchor's last statement. */
  lemma RecordedAnchor(c: Config, s: System, d: nat, stored: bool)
    requires d in s.deliveries && s.deliveries[d].anchorID in s.anchors && GoodDelivery(s, s.deliveries[d])
    requires var a := s.anchors[s.deliveries[d].anchorID]; Checks(a) && Updated(a, a, s.ledger)
    ensures UpdatedRow(s.anchors, DoRecord(c, s, d, stored).anchors, s.deliveries[d].anchorID, s.ledger)
  {
    hide OnLedger, ConfirmBlockchainAnchor, FailBlockchainAnchor, IncrementRetry, Checks, Updated, UpdatedRow, SameTarget;
    var me := s.deliveries[d];
    NoEffect(s.anchors, me.anchorID, s.ledger);
    match me.phase
    case Accepted(txID) => ConfirmEffect(s.anchors, me.anchorID, txID, c.mspID, s.ledger);
    case Rejected(a) => FailEffect(s.anchors, me.anchorID, a.retryCount + 1, s.ledger);
    case Unavailable => RetryEffect(s.anchors, me.anchorID, s.ledger);
    case _ =>
  }

  lemma GoodAnchorChecks(c: Config, s: System, a: Anchor)
    requires c.Lawful() && GoodAnchor(c, s, a)
    ensures Checks(a) && Updated(a, a, s.ledger)
  {
    hide OnLedger;
  }

  /** The error handler's retry count violates a CHECK constraint, so it never changes a row. */
  lemma HandlerChangesNoAnchor(s: System, d: nat)
    ensures DoHandle(s, d).anchors == s.anchors
  {}

  lemma HandleKeepsInv(c: Config, s: System, d: nat)
    requires Inv(c, s)
    ensures Inv(c, DoHandle(s, d)) && Later(s, DoHandle(s, d))
  {
    hide Ledger.GetState, Ledger.Valid, Ledger.CompositeKey, GoodLedger, OnLedger, Later;
    var t := DoHandle(s, d);
    HandlerChangesNoAnchor(s, d);
    SameButDeliveries(c, s, t);
    if t != s {
      var id := s.deliveries[d].anchorID;
      assert GoodDelivery(s, s.deliveries[d]) && GoodAnchor(c, s, s.anchors[id]);
      DeliveryStep(c, s, t, d, id, s.anchors[id], t.deliveries[d]);
    }
  }

  lemma StepKeepsInv(c: Config, s: System, a: Action)
    requires c.Lawful() && Inv(c, s)
    ensures Inv(c, Step(c, s, a)) && Later(s, Step(c, s, a))
  {
    hide Inv, Later, DoAnchor, DoLoad, DoSubmit, DoRecord, DoHandle;
    match a
    case Upload(documentID, caseID, content) => UploadKeepsInv(c, s, documentID, caseID, content);
    case AnchorUpload(id, documentID) => AnchorUploadKeepsInv(c, s, id, documentID);
    case AnchorExport(id, documentID, exportHash) =>
      ConfigureKeepsInv(c, s, s.enabled);
      ExportsAreNeverAnchored(c, s, id, documentID, exportHash);
    case Configure(enabled) => ConfigureKeepsInv(c, s, enabled);
    case Deliver(d, anchorID, retried) => DeliverKeepsInv(c, s, d, anchorID, retried);
    case Load(d) => LoadKeepsInv(c, s, d);
    case Submit(d, txID, at, executed, answer) => SubmitKeepsInv(c, s, d, txID, at, executed, answer);
    case Record(d, stored) => RecordKeepsInv(c, s, d, stored);
    case Handle(d) => HandleKeepsInv(c, s, d);
    case Crash(d) => CrashKeepsInv(c, s, d);
  }

  // ---- theorems over all runs ----

  lemma InitialInv(c: Config)
    ensures Inv(c, Initial())
  {}

  lemma {:induction false} LaterTransitive(s: System, t: System, u: System)
    requires Later(s, t) && Later(t, u)
    ensures Later(s, u)
  {
    hide Ledger.GetState;
  }

  lemma {:induction false} RunKeepsInv(c: Config, s: System, actions: seq<Action>)
    requires c.Lawful() && Inv(c, s)
    ensures Inv(c, RunFrom(c, s, actions)) && Later(s, RunFrom(c, s, actions))
  {
    hide Step, Inv, Later;
    if |actions| > 0 {
      var t := RunFrom(c, s, actions[..|actions| - 1]);
      RunKeepsInv(c, s, actions[..|actions| - 1]);
      StepKeepsInv(c, t, actions[|actions| - 1]);
      LaterTransitive(s, t, RunFrom(c, s, actions));
    } else {
      LaterReflexive(s);
    }
  }

  lemma LaterReflexive(s: System)
    ensures Later(s, s)
  {}

  /** Over every run, whatever has crashed, been redelivered or retried: a ledger record never changes, a row that
      left PENDING never changes, and what a row is to anchor never changes. */
  lemma OutboxOnlyProgresses(c: Config, before: seq<Action>, actions: seq<Action>)
    requires c.Lawful()
    ensures Later(RunFrom(c, Initial(), before), RunFrom(c, RunFrom(c, Initial(), before), actions))
  {
    hide RunFrom, Later, Inv;
    InitialInv(c);
    RunKeepsInv(c, Initial(), before);
    RunKeepsInv(c, RunFrom(c, Initial(), before), actions);
  }

  /** A CONFIRMED row carries the hash and the transaction id that the ledger holds, and that hash is the upload's. */
  lemma ConfirmedIsOnLedger(c: Config, actions: seq<Action>, id: Uuid)
    requires c.Lawful()
    ensures var s := RunFrom(c, Initial(), actions);
      id in s.anchors && s.anchors[id].status == CONFIRMED ==>
        var a := s.anchors[id];
        && a.fabricTxID.Some? && OnLedger(s.ledger, a, a.fabricTxID.value)
        && a.documentID in s.documents && a.documentHash == HashOf(c, s.documents[a.documentID])
  {
    hide RunFrom, OnLedger, GoodLedger;
    InitialInv(c);
    RunKeepsInv(c, Initial(), actions);
  }

  /** Two CONFIRMED rows for one document version hold the same hash and the same transaction id. */
  lemma ConfirmedAgree(c: Config, actions: seq<Action>, x: Uuid, y: Uuid)
    requires c.Lawful()
    ensures var s := RunFrom(c, Initial(), actions);
      x in s.anchors && y in s.anchors && s.anchors[x].status == CONFIRMED && s.anchors[y].status == CONFIRMED
      && s.anchors[x].documentID == s.anchors[y].documentID && s.anchors[x].documentVersion == s.anchors[y].documentVersion ==>
        s.anchors[x].documentHash == s.anchors[y].documentHash && s.anchors[x].fabricTxID == s.anchors[y].fabricTxID
  {
    hide RunFrom;
    ConfirmedIsOnLedger(c, actions, x);
    ConfirmedIsOnLedger(c, actions, y);
  }

  // ---- when rows fail ----

  /** No error text of the gateway contains either wording. */
  predicate PlainAnswer(a: Action) {
    a.Submit? && a.answer.GatewayError? ==> !Fabric.Worded(a.answer.text)
  }

  predicate PlainAnswers(actions: seq<Action>) {
    forall i :: 0 <= i < |actions| ==> PlainAnswer(actions[i])
  }

  predicate NothingFailed(s: System) {
    && (forall id :: id in s.anchors ==> s.anchors[id].status != FAILED)
    && (forall d :: d in s.deliveries ==> !s.deliveries[d].phase.Rejected?)
    && (forall e :: e in s.ledger ==> Fabric.HexText(e.record.hash))
  }

  lemma LedgerStaysHex(ledger: Ledger.State, r: Ledger.Request, txID: string, at: string)
    requires Fabric.HexText(r.hash) && forall e :: e in ledger ==> Fabric.HexText(e.record.hash)
    ensures forall e :: e in Ledger.Anchored(ledger, r, txID, at).state ==> Fabric.HexText(e.record.hash)
  {
    hide Ledger.GetState, Ledger.PutState, Ledger.CompositeKey, Fabric.HexText;
    if r.version.Some? {
      Ledger.PutElements(ledger, Ledger.CompositeKey(r.evidenceID, r.version.value),
                         Ledger.Record(r.evidenceID, r.version.value, r.hash, r.eventType, r.caseReference, r.actorOrg,
                                       r.appRecordID, txID, at));
    }
  }

  lemma NothingFailedSubmit(c: Config, s: System, a: Action)
    requires NothingFailed(s) && a.Submit? && PlainAnswer(a)
    ensures NothingFailed(Step(c, s, a))
  {
    if a.d in s.deliveries && s.deliveries[a.d].phase.Loaded? && s.deliveries[a.d].phase.anchor.documentID in s.documents {
      var me := s.deliveries[a.d];
      var r := AnchorRequest(c, me.anchorID, me.phase.anchor, s.documents[me.phase.anchor.documentID].caseID);
      LedgerStaysHex(s.ledger, r, a.txID, a.at);
      Fabric.RejectionIsUnavailable(s.ledger, r, a.txID, a.at);
    }
    hide Ledger.Anchored, AnchorRequest, Fabric.Worded, Fabric.ChaincodeText, Fabric.HexText;
  }

  lemma NothingFailedRecord(c: Config, s: System, d: nat, stored: bool)
    requires NothingFailed(s)
    ensures NothingFailed(DoRecord(c, s, d, stored))
  {
    hide Checks;
  }

  lemma NothingFailedStep(c: Config, s: System, a: Action)
    requires NothingFailed(s) && PlainAnswer(a)
    ensures NothingFailed(Step(c, s, a))
  {
    hide DoSubmit, DoRecord, Checks, Fabric.HexText, PlainAnswer;
    match a
    case Submit(_, _, _, _, _) => NothingFailedSubmit(c, s, a);
    case Record(d, stored) => NothingFailedRecord(c, s, d, stored);
    case Handle(d) => HandlerChangesNoAnchor(s, d);
    case _ =>
  }

  /** However many retries are exhausted and whatever the chaincode rejects, no row ever becomes FAILED unless some error
      text of the gateway itself contained the "not found" wording: such rows stay PENDING. */
  lemma {:induction false} ExhaustedRowsStayPending(c: Config, actions: seq<Action>)
    requires PlainAnswers(actions)
    ensures NothingFailed(RunFrom(c, Initial(), actions))
  {
    hide Step, PlainAnswer;
    if |actions| > 0 {
      assert PlainAnswer(actions[|actions| - 1]);
      ExhaustedRowsStayPending(c, actions[..|actions| - 1]);
      NothingFailedStep(c, RunFrom(c, Initial(), actions[..|actions| - 1]), actions[|actions| - 1]);
    }
  }

  ghost predicate Reachable(c: Config, s: System) {
    exists actions :: RunFrom(c, Initial(), actions) == s
  }

  lemma ReachStep(c: Config, s: System, a: Action)
    requires Reachable(c, s)
    ensures Reachable(c, Step(c, s, a))
  {
    hide Step;
    var actions :| RunFrom(c, Initial(), actions) == s;
    assert (actions + [a])[..|actions|] == actions;
    assert RunFrom(c, Initial(), actions + [a]) == Step(c, s, a);
  }

  lemma LoadedAnchor(c: Config, u: Uuid) returns (s: System)
    requires c.Lawful()
    ensures Reachable(c, s) && u in s.anchors && u in s.documents && s.enabled && Checks(s.anchors[u]) && s.anchors[u].documentID == u
    ensures s.anchors[u].status == PENDING && s.deliveries == map[0 := Delivery(u, 0, Loaded(s.anchors[u]))]
  {
    hide DoSubmit, DoRecord, DoHandle;
    s := Initial();
    assert RunFrom(c, s, []) == s;
    ReachStep(c, s, Upload(u, u, []));
    s := s.(documents := map[u := Document(u, [])]);
    ReachStep(c, s, Configure(true));
    s := s.(enabled := true);
    CreateEffect(s.anchors, u, u, "DOCUMENT_UPLOADED", HashOf(c, s.documents[u]), c.mspID);
    ReachStep(c, s, AnchorUpload(u, u));
    s := Step(c, s, AnchorUpload(u, u));
    ReachStep(c, s, Deliver(0, u, 0));
    s := s.(deliveries := map[0 := Delivery(u, 0, Loading)]);
    ReachStep(c, s, Load(0));
    s := Step(c, s, Load(0));
  }

  /** Any gateway error with the wording does fail a row, although the ledger knows nothing of it. */
  lemma WordingFailsARow(c: Config, u: Uuid, text: string) returns (s: System)
    requires c.Lawful() && Fabric.Worded(text)
    ensures Reachable(c, s) && u in s.anchors && s.anchors[u].status == FAILED
  {
    hide Ledger.Anchored, DoLoad, DoHandle, DoAnchor, AnchorRequest, Fabric.Worded;
    s := LoadedAnchor(c, u);
    var a := s.anchors[u];
    ReachStep(c, s, Submit(0, "tx", "", false, GatewayError(text)));
    s := Step(c, s, Submit(0, "tx", "", false, GatewayError(text)));
    assert s.anchors[u] == a && s.deliveries[0] == Delivery(u, 0, Rejected(a));
    assert Checks(a.(status := FAILED, retryCount := a.retryCount + 1));
    ReachStep(c, s, Record(0, true));
    s := Step(c, s, Record(0, true));
  }

  // ---- the service, one call at a time ----

  /** Delivery 0 loads, submits and records without interruption. */
  function ThreeSteps(c: Config, s: System, txID: string, at: string, executed: bool, answer: Answer, stored: bool): System {
    DoRecord(c, DoSubmit(c, DoLoad(s, 0), 0, txID, at, executed, answer), 0, stored)
  }

  lemma NothingToSubmit(c: Config, s: System, id: Uuid, txID: string, at: string, executed: bool, answer: Answer, stored: bool)
    requires s.deliveries == map[0 := Delivery(id, 0, Loading)] && txID != "" && (answer.Replied? ==> executed)
    requires id !in s.anchors || s.anchors[id].status != PENDING || s.anchors[id].documentID !in s.documents
    ensures var t := ThreeSteps(c, s, txID, at, executed, answer, stored);
      && t.anchors == s.anchors && t.ledger == s.ledger && 0 in t.deliveries
      && t.deliveries[0].phase == if id !in s.anchors || s.anchors[id].status != PENDING then Done else Erred
  {}

  /** The three steps of a pending anchor whose submission came to `o`. */
  lemma SubmittedSteps(c: Config, s: System, id: Uuid, txID: string, at: string, executed: bool, answer: Answer, stored: bool, o: Phase)
    requires s.deliveries == map[0 := Delivery(id, 0, Loading)] && txID != "" && (answer.Replied? ==> executed)
    requires id in s.anchors && s.anchors[id].status == PENDING && s.anchors[id].documentID in s.documents
    requires var a := s.anchors[id];
      o == if s.enabled then
             Outcome(a, answer, Ledger.Anchored(s.ledger, AnchorRequest(c, id, a, s.documents[a.documentID].caseID), txID, at).result)
           else Unavailable
    ensures var a := s.anchors[id];
      var t := ThreeSteps(c, s, txID, at, executed, answer, stored);
      && 0 in t.deliveries && t.deliveries[0].phase == (if o.Unavailable? then Erred else Done)
      && t.ledger == (if s.enabled && executed then
                        Ledger.Anchored(s.ledger, AnchorRequest(c, id, a, s.documents[a.documentID].caseID), txID, at).state
                      else s.ledger)
      && t.anchors == if !stored then s.anchors
                      else if o.Accepted? then ConfirmBlockchainAnchor(s.anchors, id, o.txID, c.mspID).anchors
                      else if o.Rejected? then FailBlockchainAnchor(s.anchors, id, a.retryCount + 1).anchors
                      else IncrementRetry(s.anchors, id).anchors
  {
    hide Ledger.Anchored, ConfirmBlockchainAnchor, FailBlockchainAnchor, IncrementRetry, AnchorRequest;
  }

  class Service {
    const config: Config
    const contract: Ledger.Contract
    var documents: map<Uuid, Document>
    var anchors: Anchors
    var enabled: bool

    constructor (config: Config, contract: Ledger.Contract)
      ensures this.config == config && this.contract == contract
      ensures documents == map[] && anchors == map[] && !enabled
    {
      this.config, this.contract := config, contract;
      documents, anchors, enabled := map[], map[], false;
    }

    /** The service and the ledger as a system with one delivery of this anchor. */
    ghost function AsSystem(id: Uuid, phase: Phase): System
      reads this, contract
    {
      System(documents, anchors, contract.state, enabled, map[0 := Delivery(id, 0, phase)])
    }

    method MarkConfirmed(id: Uuid, txID: string, stored: bool)
      modifies this`anchors
      ensures anchors == if stored then ConfirmBlockchainAnchor(old(anchors), id, txID, config.mspID).anchors else old(anchors)
    {
      if stored && id in anchors && anchors[id].status == PENDING {
        var a := anchors[id].(status := CONFIRMED, fabricTxID := Some(txID), organization := Some(config.mspID));
        if Checks(a) {
          anchors := anchors[id := a];
        }
      }
    }

    method MarkFailed(id: Uuid, retryCount: int, stored: bool)
      modifies this`anchors
      ensures anchors == if stored then FailBlockchainAnchor(old(anchors), id, retryCount).anchors else old(anchors)
    {
      if stored && id in anchors && anchors[id].status == PENDING {
        var a := anchors[id].(status := FAILED, retryCount := retryCount);
        if Checks(a) {
          anchors := anchors[id := a];
        }
      }
    }

    method IncrementRetryCount(id: Uuid, stored: bool)
      modifies this`anchors
      ensures anchors == if stored then IncrementRetry(old(anchors), id).anchors else old(anchors)
    {
      if stored && id in anchors && anchors[id].status == PENDING {
        var a := anchors[id].(retryCount := anchors[id].retryCount + 1);
        if Checks(a) {
          anchors := anchors[id := a];
        }
      }
    }

    /** What the gateway makes of one submission. */
    method SubmitAnchor(id: Uuid, anchor: Anchor, caseID: Uuid, txID: string, at: string, executed: bool, answer: Answer)
      returns (outcome: Phase)
      requires Ledger.Valid(contract.state) && (answer.Replied? ==> executed)
      modifies contract
      ensures Ledger.Valid(contract.state) && (outcome.Accepted? || outcome.Rejected? || outcome.Unavailable?)
      ensures var reply := Ledger.Anchored(old(contract.state), AnchorRequest(config, id, anchor, caseID), txID, at);
        outcome == Outcome(anchor, answer, reply.result) && contract.state == if executed then reply.state else old(contract.state)
    {
      var result: Result<string, Ledger.LedgerError> := Err(Ledger.NotFound);
      if executed {
        result := contract.AnchorEvidence(AnchorRequest(config, id, anchor, caseID), txID, at);
      }
      var text := "";
      match answer {
        case GatewayError(message) =>
          text := message;
        case Replied =>
          if result.Ok? {
            return Accepted(ReportedTxID(result.value));
          }
          text := Fabric.ChaincodeText(result.error);
      }
      var notFound := Fabric.WrapFabricError(text);
      outcome := if notFound then Rejected(anchor) else Unavailable;
    }

    /** One undisturbed call does exactly what its three steps do, and asks for a retry when they end in an error. */
    method RunAnchor(id: Uuid, txID: string, at: string, executed: bool, answer: Answer, stored: bool) returns (retry: bool)
      requires Ledger.Valid(contract.state) && txID != "" && (answer.Replied? ==> executed)
      modifies this`anchors, contract
      ensures Ledger.Valid(contract.state)
      ensures var t := ThreeSteps(config, old(AsSystem(id, Loading)), txID, at, executed, answer, stored);
        anchors == t.anchors && contract.state == t.ledger && retry == (0 in t.deliveries && t.deliveries[0].phase.Erred?)
    {
      hide Ledger.Anchored, ConfirmBlockchainAnchor, FailBlockchainAnchor, IncrementRetry, AnchorRequest, Ledger.Valid, ThreeSteps, Outcome;
      ghost var s := AsSystem(id, Loading);
      if id !in anchors || anchors[id].status != PENDING {
        NothingToSubmit(config, s, id, txID, at, executed, answer, stored);
        return false;
      }
      var anchor := anchors[id];
      if anchor.documentID !in documents {
        NothingToSubmit(config, s, id, txID, at, executed, answer, stored);
        return true;
      }
      var outcome := Unavailable;
      if enabled {
        outcome := SubmitAnchor(id, anchor, documents[anchor.documentID].caseID, txID, at, executed, answer);
      }
      SubmittedSteps(config, s, id, txID, at, executed, answer, stored, outcome);
      if outcome.Unavailable? {
        IncrementRetryCount(id, stored);
        return true;
      }
      if outcome.Rejected? {
        MarkFailed(id, anchor.retryCount + 1, stored);
        return false;
      }
      MarkConfirmed(id, outcome.txID, stored);
      retry := false;
    }
  }

  // ---- verifying a candidate ----

  datatype Verdict = Verified | IntegrityFailure | HashMismatch | ChainMismatch | NotAnchored | ChainUnavailable | Match

  /** How a query of the ledger went. */
  datatype Reach = Reached | Unreachable | WordedMissing

  datatype LedgerAnswer = Agrees(record: Ledger.Record) | Differs(record: Ledger.Record) | Missing | Down

  function VerifyEvidence(ledger: Ledger.State, reach: Reach, documentID: Uuid, version: int, hash: string): LedgerAnswer {
    match reach
    case Unreachable => Down
    case WordedMissing => Missing
    case Reached =>
      match Ledger.GetState(ledger, Ledger.CompositeKey(UuidText(documentID), version))
      case None => Missing
      case Some(record) => if record.hash == hash then Agrees(record) else Differs(record)
  }

  datatype Report = Report(
    status: Verdict, blockchainStatus: Verdict, databaseMatch: bool, blockchainMatch: bool, version: int,
    chainHash: Option<string>, txID: Option<string>)

  /** The stored object, or a submitted file with the limit on its size. */
  datatype Candidate = StoredObject(bytes: seq<Byte>) | Submitted(bytes: seq<Byte>, maxSize: int)

  datatype VerifyError = TooLarge

  const DEFAULT_MAX_CANDIDATE_SIZE := 52428800

  function SizeLimit(maxSize: int): int {
    if maxSize <= 0 then DEFAULT_MAX_CANDIDATE_SIZE else maxSize
  }

  /** What the database and the ledger say, independently of each other. */
  predicate Judges(c: Config, s: System, documentID: Uuid, latest: Option<Anchor>, reach: Reach, candidate: Candidate, r: Report)
    requires documentID in s.documents
  {
    var stored := HashOf(c, s.documents[documentID]);
    && r.databaseMatch == (c.sha256(candidate.bytes) == stored)
    && r.version == (if latest.Some? then latest.value.documentVersion else 1)
    && (if !s.enabled then r.blockchainStatus == ChainUnavailable && r.chainHash.None? && r.txID.None?
        else if latest.None? || latest.value.status != CONFIRMED then r.blockchainStatus == NotAnchored && r.chainHash.None? && r.txID.None?
        else
          match VerifyEvidence(s.ledger, reach, documentID, latest.value.documentVersion, Hex(stored))
          case Down => r.blockchainStatus == ChainUnavailable && r.chainHash.None? && r.txID.None?
          case Missing => r.blockchainStatus == NotAnchored && r.chainHash.None? && r.txID.None?
          case Differs(record) => r.blockchainStatus == ChainMismatch && r.chainHash == Some(record.hash) && r.txID == Some(record.txID)
          case Agrees(record) => r.blockchainStatus == Match && r.chainHash == Some(record.hash) && r.txID == Some(record.txID))
    && (r.blockchainMatch <==> r.chainHash == Some(Hex(c.sha256(candidate.bytes))))
    && r.status == (if !r.databaseMatch then (if candidate.StoredObject? then HashMismatch else IntegrityFailure)
                    else if r.blockchainStatus == ChainMismatch then ChainMismatch else Verified)
  }

  method VerifyCandidate(c: Config, s: System, documentID: Uuid, latest: Option<Anchor>, reach: Reach, candidate: Candidate)
    returns (result: Result<Report, VerifyError>)
    requires documentID in s.documents
    ensures result.Err? <==> candidate.Submitted? && |candidate.bytes| > SizeLimit(candidate.maxSize)
    ensures result.Ok? ==> Judges(c, s, documentID, latest, reach, candidate, result.value)
  {
    hide Ledger.GetState, Ledger.CompositeKey, UuidText;
    var storedHex := Hex(HashOf(c, s.documents[documentID]));
    var computed: Digest;
    match candidate {
      case StoredObject(bytes) =>
        computed := c.sha256(bytes);
      case Submitted(bytes, size) =>
        var maxSize := size;
        if maxSize <= 0 {
          maxSize := DEFAULT_MAX_CANDIDATE_SIZE;
        }
        var n := if |bytes| <= maxSize + 1 then |bytes| else maxSize + 1;
        if n > maxSize {
          return Err(TooLarge);
        }
        computed := c.sha256(bytes[..n]);
        assert bytes[..n] == bytes;
    }
    var computedHex := Hex(computed);
    var databaseMatch := computedHex == storedHex;
    HexDecides(computed, HashOf(c, s.documents[documentID]));
    var version := if latest.Some? then latest.value.documentVersion else 1;
    var chainHash: Option<string>, txID: Option<string> := None, None;
    var blockchainStatus := NotAnchored;
    var blockchainMatch := false;
    var finalStatus := Verified;
    if !s.enabled {
      blockchainStatus := ChainUnavailable;
    } else if latest.None? || latest.value.status != CONFIRMED {
      blockchainStatus := NotAnchored;
    } else {
      match VerifyEvidence(s.ledger, reach, documentID, version, storedHex) {
        case Down => blockchainStatus := ChainUnavailable;
        case Missing => blockchainStatus := NotAnchored;
        case Differs(record) => blockchainStatus, chainHash, txID := ChainMismatch, Some(record.hash), Some(record.txID);
        case Agrees(record) => blockchainStatus, chainHash, txID := Match, Some(record.hash), Some(record.txID);
      }
    }
    if chainHash.Some? && chainHash.value == computedHex {
      blockchainMatch := true;
    }
    if !databaseMatch {
      if candidate.Submitted? {
        finalStatus := IntegrityFailure;
      } else {
        finalStatus := HashMismatch;
      }
    } else if blockchainStatus == ChainMismatch {
      finalStatus := ChainMismatch;
    }
    result := Ok(Report(finalStatus, blockchainStatus, databaseMatch, blockchainMatch, version, chainHash, txID));
  }

  lemma HexDecides(a: Digest, b: Digest)
    ensures Hex(a) == Hex(b) <==> a == b
  {
    if Hex(a) == Hex(b) {
      HexInjective(a, b);
    }
  }

  /** VerifyDocumentBlockchain's status for the callers that expect one. */
  function TopStatus(r: Report): Verdict {
    if r.databaseMatch && (r.blockchainStatus == ChainUnavailable || r.blockchainStatus == NotAnchored) then r.blockchainStatus
    else r.status
  }

  predicate Accuses(v: Verdict) {
    v == IntegrityFailure || v == HashMismatch || v == ChainMismatch
  }

  /** After any run, a check accuses a candidate of having been changed exactly when its hash is not the upload's:
      genuine evidence is never called tampered, however Fabric behaves, and nothing else passes. The ledger never
      contradicts the database, and a confirmed, reachable anchor always matches. */
  lemma AccusedIffDifferent(c: Config, actions: seq<Action>, documentID: Uuid, id: Option<Uuid>, reach: Reach,
                            candidate: Candidate, r: Report)
    requires c.Lawful() && documentID in RunFrom(c, Initial(), actions).documents
    requires var s := RunFrom(c, Initial(), actions);
      id.Some? ==> id.value in s.anchors && s.anchors[id.value].documentID == documentID
    requires var s := RunFrom(c, Initial(), actions);
      Judges(c, s, documentID, if id.Some? then Some(s.anchors[id.value]) else None, reach, candidate, r)
    ensures var s := RunFrom(c, Initial(), actions); var genuine := c.sha256(candidate.bytes) == HashOf(c, s.documents[documentID]);
      && (Accuses(r.status) <==> !genuine) && (Accuses(TopStatus(r)) <==> !genuine)
      && r.blockchainStatus != ChainMismatch
      && (r.blockchainStatus == Match <==> s.enabled && id.Some? && s.anchors[id.value].status == CONFIRMED && reach == Reached)
      && (r.blockchainMatch <==> r.blockchainStatus == Match && genuine)
      && r.databaseMatch == genuine
      && r.status == (if genuine then Verified else if candidate.StoredObject? then HashMismatch else IntegrityFailure)
      && var confirmed := id.Some? && s.anchors[id.value].status == CONFIRMED;
         && (r.blockchainStatus == ChainUnavailable <==> !s.enabled || (confirmed && reach == Unreachable))
         && (r.blockchainStatus == NotAnchored <==> s.enabled && (!confirmed || reach == WordedMissing))
         && r.chainHash == (if r.blockchainStatus == Match then Some(Hex(s.anchors[id.value].documentHash)) else None)
         && r.txID == (if r.blockchainStatus == Match then s.anchors[id.value].fabricTxID else None)
         && TopStatus(r) == (if !genuine then r.status
                             else if !s.enabled || (confirmed && reach == Unreachable) then ChainUnavailable
                             else if !confirmed || reach == WordedMissing then NotAnchored
                             else Verified)
  {
    hide RunFrom, Ledger.CompositeKey, UuidText, Hex, Ledger.Valid;
    var s := RunFrom(c, Initial(), actions);
    InitialInv(c);
    RunKeepsInv(c, Initial(), actions);
    HexDecides(c.sha256(candidate.bytes), HashOf(c, s.documents[documentID]));
    if id.Some? {
      assert GoodAnchor(c, s, s.anchors[id.value]);
    }
  }
}
