/** What anchoring leaves behind: the fields of every ledger record, and how one call of RunAnchor settles its row. */
module AnchorResults {
  import opened Outcomes
  import opened Text
  import opened EntryText
  import opened AnchorOutbox
  import Fabric
  import Ledger

  // ---- what the ledger says about each upload ----

  /** The record names the document, its hash, its case, this organization and an anchor row of this document. */
  ghost predicate Describes(c: Config, s: System, r: Ledger.Record, documentID: Uuid, anchorID: Uuid) {
    && documentID in s.documents && anchorID in s.anchors && s.anchors[anchorID].documentID == documentID
    && r.evidenceID == UuidText(documentID) && r.version == 1
    && r.hash == Hex(c.sha256(s.documents[documentID].content)) && r.eventType == "DOCUMENT_UPLOADED"
    && r.caseReference == UuidText(s.documents[documentID].caseID) && r.actorOrg == c.mspID
    && r.appRecordID == UuidText(anchorID) && r.txID != ""
  }

  ghost predicate Described(c: Config, s: System, r: Ledger.Record) {
    exists documentID, anchorID :: Describes(c, s, r, documentID, anchorID)
  }

  ghost predicate AllDescribed(c: Config, s: System) {
    forall e :: e in s.ledger ==> Described(c, s, e.record)
  }

  lemma StaysDescribed(c: Config, s: System, t: System)
    requires AllDescribed(c, s) && Later(s, t)
    ensures forall e :: e in s.ledger ==> Described(c, t, e.record)
  {
    hide Ledger.GetState;
    forall e | e in s.ledger ensures Described(c, t, e.record) {
      var documentID, anchorID :| Describes(c, s, e.record, documentID, anchorID);
      assert Describes(c, t, e.record, documentID, anchorID);
    }
  }

  /** Only a submission adds to the ledger, and at most one record. */
  lemma OnlySubmissionsWrite(c: Config, s: System, a: Action)
    requires !a.Submit?
    ensures Step(c, s, a).ledger == s.ledger
  {
    hide Checks, Outcome, DoSubmit;
  }

  lemma SubmissionAddsItsRecord(c: Config, s: System, a: Action, e: Ledger.Entry)
    requires a.Submit? && e in Step(c, s, a).ledger && e !in s.ledger
    ensures a.d in s.deliveries && s.deliveries[a.d].phase.Loaded? && a.txID != ""
    ensures var row := s.deliveries[a.d].phase.anchor; row.documentID in s.documents && e.record == Ledger.Record(
      UuidText(row.documentID), row.documentVersion, Hex(row.documentHash), row.eventType,
      UuidText(s.documents[row.documentID].caseID), c.mspID, UuidText(s.deliveries[a.d].anchorID), a.txID, a.at)
  {
    hide Ledger.GetState, Ledger.PutState, Ledger.CompositeKey, Outcome, UuidText, Hex;
    var me := s.deliveries[a.d];
    var r := AnchorRequest(c, me.anchorID, me.phase.anchor, s.documents[me.phase.anchor.documentID].caseID);
    Ledger.PutElements(s.ledger, Ledger.CompositeKey(r.evidenceID, r.version.value),
                       Ledger.Record(r.evidenceID, r.version.value, r.hash, r.eventType, r.caseReference, r.actorOrg,
                                     r.appRecordID, a.txID, a.at));
  }

  lemma StepKeepsDescribed(c: Config, s: System, a: Action)
    requires c.Lawful() && Inv(c, s) && AllDescribed(c, s)
    ensures AllDescribed(c, Step(c, s, a))
  {
    var t := Step(c, s, a);
    StepKeepsInv(c, s, a);
    hide Later, Inv;
    StaysDescribed(c, s, t);
    forall e | e in t.ledger ensures Described(c, t, e.record) {
      if e !in s.ledger {
        NewRecordDescribed(c, s, a, e);
      }
    }
  }

  lemma NewRecordDescribed(c: Config, s: System, a: Action, e: Ledger.Entry)
    requires c.Lawful() && Inv(c, s) && e in Step(c, s, a).ledger && e !in s.ledger
    ensures Described(c, Step(c, s, a), e.record)
  {
    hide GoodLedger, OnLedger, UuidText, Hex;
    if !a.Submit? {
      OnlySubmissionsWrite(c, s, a);
    }
    SubmissionAddsItsRecord(c, s, a, e);
    var me := s.deliveries[a.d];
    assert GoodDelivery(s, me) && GoodAnchor(c, s, s.anchors[me.anchorID]);
    hide GoodDelivery, GoodAnchor, Outcome, Ledger.Anchored;
    assert Describes(c, Step(c, s, a), e.record, me.phase.anchor.documentID, me.anchorID);
  }

  /** In every run, every record of the ledger describes an upload: version 1 of a known document, with the hash of its
      content, its case, this organization, and the id of an anchor row of that document. */
  lemma {:induction false} LedgerDescribesUploads(c: Config, actions: seq<Action>)
    requires c.Lawful()
    ensures AllDescribed(c, RunFrom(c, Initial(), actions))
  {
    hide Step, Inv, Described;
    if |actions| > 0 {
      var init := actions[..|actions| - 1];
      LedgerDescribesUploads(c, init);
      InitialInv(c);
      RunKeepsInv(c, Initial(), init);
      StepKeepsDescribed(c, RunFrom(c, Initial(), init), actions[|actions| - 1]);
    }
  }

  /** Anchoring an upload adds one pending row with the hash of the document's content, if Fabric is enabled, the document
      known and the id new; otherwise it adds none. */
  lemma AnchorUploadCreates(c: Config, s: System, id: Uuid, documentID: Uuid)
    requires c.Lawful()
    ensures var t := Step(c, s, AnchorUpload(id, documentID));
      t == if s.enabled && documentID in s.documents && id !in s.anchors then
             s.(anchors := s.anchors[id := Anchor(documentID, 1, "DOCUMENT_UPLOADED", c.sha256(s.documents[documentID].content),
                                                  PENDING, None, Some(c.mspID), 0)])
           else s
  {
    if documentID in s.documents {
      CreateEffect(s.anchors, id, documentID, "DOCUMENT_UPLOADED", HashOf(c, s.documents[documentID]), c.mspID);
    }
  }

  // ---- how one call settles its row ----

  /** One undisturbed call for a pending row of a known document: the row is confirmed with the reported transaction exactly
      if the chaincode's own reply accepts it; it fails exactly if an error text contains the wording; in every other
      case only its retry count grows and the call asks for a retry. */
  lemma RunAnchorSettles(c: Config, s: System, id: Uuid, txID: string, at: string, executed: bool, answer: Answer, stored: bool)
    requires s.deliveries == map[0 := Delivery(id, 0, Loading)] && txID != "" && (answer.Replied? ==> executed)
    requires id in s.anchors && s.anchors[id].status == PENDING && Checks(s.anchors[id]) && s.anchors[id].documentID in s.documents
    ensures var a, t := s.anchors[id], ThreeSteps(c, s, txID, at, executed, answer, stored);
      var request := Ledger.Request(UuidText(a.documentID), Some(a.documentVersion), Hex(a.documentHash), a.eventType,
                                    UuidText(s.documents[a.documentID].caseID), c.mspID, UuidText(id));
      var reply := Ledger.Anchored(s.ledger, request, txID, at);
      var accepted := s.enabled && answer.Replied? && reply.result.Ok?;
      var rejected := s.enabled && (answer.GatewayError? || reply.result.Err?) &&
        Fabric.Worded(if answer.GatewayError? then answer.text else Fabric.ChaincodeText(reply.result.error));
      && t.ledger == (if s.enabled && executed then reply.state else s.ledger)
      && 0 in t.deliveries && (t.deliveries[0].phase.Erred? <==> !accepted && !rejected)
      && t.anchors == if !stored then s.anchors
                      else s.anchors[id :=
                        if accepted then a.(status := CONFIRMED, organization := Some(c.mspID),
                                            fabricTxID := Some(if reply.result.value == "" then "unknown" else reply.result.value))
                        else if rejected then a.(status := FAILED, retryCount := a.retryCount + 1)
                        else a.(retryCount := a.retryCount + 1)]
  {
    var a := s.anchors[id];
    var reply := Ledger.Anchored(s.ledger, AnchorRequest(c, id, a, s.documents[a.documentID].caseID), txID, at);
    var o := if s.enabled then Outcome(a, answer, reply.result) else Unavailable;
    SubmittedSteps(c, s, id, txID, at, executed, answer, stored, o);
    hide Ledger.Anchored, UuidText, Hex, Fabric.Worded, Fabric.ChaincodeText, ThreeSteps;
  }
}
