/** How the service classifies Fabric's errors: by their wording alone. */
module Fabric {
  import opened Outcomes
  import opened Text
  import opened Ledger

  const EVIDENCE_NOT_FOUND := "evidence not found"

  const NO_EVIDENCE := "no evidence"

  predicate HasText(s: string, sub: string) {
    exists k :: 0 <= k <= |s| - |sub| && OccursAt(sub, s, k)
  }

  /** The index loop over the text. */
  method Contains(s: string, sub: string) returns (found: bool)
    ensures found <==> HasText(s, sub)
  {
    if |s| < |sub| {
      return false;
    }
    for i := 0 to |s| - |sub| + 1
      invariant forall k :: 0 <= k < i ==> !OccursAt(sub, s, k)
    {
      if s[i..i + |sub|] == sub {
        assert OccursAt(sub, s, i);
        return true;
      }
    }
    found := false;
  }

  /** wrapFabricError: these texts mean "not found", every other error an availability failure. */
  predicate Worded(text: string) {
    HasText(text, EVIDENCE_NOT_FOUND) || HasText(text, NO_EVIDENCE)
  }

  method WrapFabricError(text: string) returns (notFound: bool)
    ensures notFound <==> Worded(text)
    ensures notFound <==> HasText(text, "evidence not found") || HasText(text, "no evidence")
  {
    var first := Contains(text, EVIDENCE_NOT_FOUND);
    if first {
      return true;
    }
    notFound := Contains(text, NO_EVIDENCE);
  }

  // ---- what the chaincode's AnchorEvidence says ----

  const MISSING_HEAD := "AnchorEvidence: evidenceID, hash"

  const MISSING_TAIL := ", and eventType are required"

  const MISMATCH_HEAD := "AnchorEvidence: hash mismatch \U{2014} stored="

  const MISMATCH_MIDDLE := " submitted="

  /** The error texts of AnchorEvidence. A malformed version argument and the shim's own words about a malformed key are
      cut off: the service never sends either. */
  function ChaincodeText(e: LedgerError): string {
    match e
    case MissingField => MISSING_HEAD + MISSING_TAIL
    case InvalidVersion => "AnchorEvidence: invalid version"
    case InvalidKey => "create composite key:"
    case HashMismatch(stored, submitted) => MISMATCH_HEAD + stored + MISMATCH_MIDDLE + submitted
    case NotFound => "evidence not found:"
  }

  /** What either wording contains: a blank between o and e, or between e and n. */
  predicate HasBlank(s: string) {
    exists i :: 0 <= i < |s| - 2 && BlankAt(s, i)
  }

  predicate BlankAt(s: string, i: nat)
    requires i + 2 < |s|
  {
    s[i + 1] == ' ' && ((s[i] == 'o' && s[i + 2] == 'e') || (s[i] == 'e' && s[i + 2] == 'n'))
  }

  lemma WordingHasBlank(text: string)
    requires Worded(text)
    ensures HasBlank(text)
  {
    if HasText(text, NO_EVIDENCE) {
      var k :| 0 <= k <= |text| - |NO_EVIDENCE| && OccursAt(NO_EVIDENCE, text, k);
      assert text[k..k + |NO_EVIDENCE|][1] == 'o' && text[k..k + |NO_EVIDENCE|][2] == ' ' && text[k..k + |NO_EVIDENCE|][3] == 'e';
      assert BlankAt(text, k + 1);
    } else {
      var k :| 0 <= k <= |text| - |EVIDENCE_NOT_FOUND| && OccursAt(EVIDENCE_NOT_FOUND, text, k);
      var t := text[k..k + |EVIDENCE_NOT_FOUND|];
      assert t[7] == 'e' && t[8] == ' ' && t[9] == 'n';
      assert BlankAt(text, k + 7);
    }
  }

  predicate HexText(s: string) {
    forall i :: 0 <= i < |s| ==> IsHexChar(s[i])
  }

  /** Hashes hold no blank, and every blank of the message's own words stands before another letter. */
  lemma MismatchHasNoBlank(stored: string, submitted: string)
    requires HexText(stored) && HexText(submitted)
    ensures !HasBlank(ChaincodeText(HashMismatch(stored, submitted)))
  {
    var h, m := MISMATCH_HEAD, MISMATCH_MIDDLE;
    var text := h + stored + m + submitted;
    HeadBlanks();
    forall i | 0 <= i < |text| - 2 ensures !BlankAt(text, i) {
      if i + 1 < |h| {
        assert text[i + 1] == h[i + 1];
      } else if i + 1 < |h| + |stored| {
        assert text[i + 1] == stored[i + 1 - |h|];
      } else if i + 1 < |h| + |stored| + |m| {
        assert text[i + 1] == m[i + 1 - |h| - |stored|];
      } else {
        assert text[i + 1] == submitted[i + 1 - |h| - |stored| - |m|];
      }
    }
  }

  lemma HeadBlanks()
    ensures forall i :: 0 <= i < |MISMATCH_HEAD| && MISMATCH_HEAD[i] == ' ' ==>
      i + 1 < |MISMATCH_HEAD| && MISMATCH_HEAD[i + 1] != 'e' && MISMATCH_HEAD[i + 1] != 'n'
    ensures forall i :: 0 < i < |MISMATCH_MIDDLE| ==> MISMATCH_MIDDLE[i] != ' '
    ensures MISMATCH_MIDDLE[1] == 's'
  {}

  lemma OtherTextsHaveNoBlank()
    ensures !HasBlank(ChaincodeText(MissingField)) && !HasBlank(ChaincodeText(InvalidVersion)) && !HasBlank(ChaincodeText(InvalidKey))
  {
    var t := ChaincodeText(MissingField);
    assert |t| == 60;
    forall i | 0 <= i < |t| - 2 ensures !BlankAt(t, i) {
      MissingFieldBlanks(i + 1);
    }
    var u := ChaincodeText(InvalidVersion);
    assert |u| == 31;
    assert forall i :: 0 <= i < |u| && u[i] == ' ' ==> i == 15 || i == 23;
    var v := ChaincodeText(InvalidKey);
    assert |v| == 21;
    assert forall i :: 0 <= i < |v| && v[i] == ' ' ==> i == 6 || i == 16;
  }

  /** The blanks of `s` are at these places. */
  predicate BlanksAt(s: string, places: set<nat>) {
    forall i :: 0 <= i < |s| && s[i] == ' ' ==> i in places
  }

  lemma MissingHeadBlanks()
    ensures BlanksAt(MISSING_HEAD, {15, 27})
  {}

  lemma MissingTailBlanks()
    ensures BlanksAt(MISSING_TAIL, {1, 5, 15, 19})
  {}

  lemma MissingFieldBlanks(i: nat)
    requires 0 < i < 59
    ensures var t := ChaincodeText(MissingField); t[i] == ' ' ==> t[i - 1] != 'o' && (t[i - 1] != 'e' || t[i + 1] != 'n')
  {
    var a, b := MISSING_HEAD, MISSING_TAIL;
    MissingHeadBlanks();
    MissingTailBlanks();
    if i < 32 {
      assert (a + b)[i] == a[i];
    } else {
      assert (a + b)[i] == b[i - 32];
    }
  }

  /** Every rejection by AnchorEvidence of hexadecimal hashes counts as unavailable. */
  lemma RejectionIsUnavailable(state: State, r: Request, txID: string, anchoredAt: string)
    requires HexText(r.hash) && forall e :: e in state ==> HexText(e.record.hash)
    ensures var result := Anchored(state, r, txID, anchoredAt).result; result.Err? ==> !Worded(ChaincodeText(result.error))
  {
    hide GetState, PutState, CompositeKey, Worded;
    OtherTextsHaveNoBlank();
    var result := Anchored(state, r, txID, anchoredAt).result;
    if result.Err? {
      if result.error.HashMismatch? {
        var existing := GetState(state, CompositeKey(r.evidenceID, r.version.value)).value;
        var i :| 0 <= i < |state| && state[i] == Entry(CompositeKey(r.evidenceID, r.version.value), existing);
        MismatchHasNoBlank(existing.hash, r.hash);
      }
      if Worded(ChaincodeText(result.error)) {
        WordingHasBlank(ChaincodeText(result.error));
      }
    }
  }
}
