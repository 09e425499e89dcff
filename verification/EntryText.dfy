/** The text an audit entry is hashed as, and exactly when that text identifies the entry. */
module EntryText {
  import opened Outcomes
  import opened Text

  type Digest = seq<Byte>

  type Uuid = u: seq<Byte> | |u| == 16 witness [0, 0, 0, 0, 0, 0, 0, 0, 0, 0, 0, 0, 0, 0, 0, 0]

  /** A UTC instant as its calendar fields. */
  datatype CalendarTime = CalendarTime(year: nat, month: nat, day: nat, hour: nat, minute: nat, second: nat, nano: nat)

  predicate ValidTime(t: CalendarTime) {
    t.year < 10000 && t.month < 100 && t.day < 100 && t.hour < 100 && t.minute < 100 && t.second < 100
    && t.nano < 1_000_000_000
  }

  type Timestamp = t: CalendarTime | ValidTime(t) witness CalendarTime(1970, 1, 1, 0, 0, 0, 0)

  /** `prevHash` is None for Go's nil. */
  datatype Entry = Entry(
    id: Uuid,
    timestamp: Timestamp,
    userID: Option<Uuid>,
    role: string,
    action: string,
    resourceType: string,
    resourceID: Option<Uuid>,
    caseID: Option<Uuid>,
    metadata: string,
    prevHash: Option<Digest>)

  /** The bytes of a Go slice that may be nil. */
  function Raw(d: Option<Digest>): Digest {
    if d.Some? then d.value else []
  }

  // ---- field formats ----

  /** Puts the four hyphens of a UUID between its 32 digits. */
  function Hyphenate(h: string): (s: string)
    requires |h| == 32
    ensures |s| == 36
    ensures forall i :: 0 <= i < 36 ==>
      s[i] == if i < 8 then h[i] else if i == 8 || i == 13 || i == 18 || i == 23 then '-'
              else if i < 13 then h[i - 1] else if i < 18 then h[i - 2] else if i < 23 then h[i - 3] else h[i - 4]
  {
    h[..8] + "-" + h[8..12] + "-" + h[12..16] + "-" + h[16..20] + "-" + h[20..]
  }

  function UuidText(u: Uuid): (s: string)
    ensures |s| == 36 && OneLine(s)
  {
    Hyphenate(Hex(u))
  }

  function UuidOrEmpty(u: Option<Uuid>): (s: string)
    ensures OneLine(s)
  {
    if u.Some? then UuidText(u.value) else ""
  }

  function TrimZeros(s: string): (r: string)
    ensures |r| <= |s| && r == s[..|r|]
  {
    if |s| > 0 && s[|s| - 1] == '0' then TrimZeros(s[..|s| - 1]) else s
  }

  function FractionText(nano: nat): (s: string)
    ensures OneLine(s)
  {
    if nano == 0 then "" else "." + TrimZeros(Pad(nano, 9))
  }

  /** The first nineteen characters of a time in RFC 3339 form. */
  function ClockText(t: Timestamp): (s: string)
    ensures OneLine(s)
  {
    Pad(t.year, 4) + "-" + Pad(t.month, 2) + "-" + Pad(t.day, 2) + "T"
    + Pad(t.hour, 2) + ":" + Pad(t.minute, 2) + ":" + Pad(t.second, 2)
  }

  /** time.RFC3339Nano of a UTC time. */
  function TimeText(t: Timestamp): (s: string)
    ensures OneLine(s)
  {
    ClockText(t) + (FractionText(t.nano) + "Z")
  }

  function PrevHashOrGenesis(d: Option<Digest>): (s: string)
    ensures OneLine(s)
  {
    if |Raw(d)| == 0 then "genesis" else Hex(Raw(d))
  }

  // ---- the preimage ----

  const ACTION := "\naction="
  const RESOURCE_TYPE := "\nresource_type="

  /** The three free-text fields with the labels between them. */
  function Middle(role: string, action: string, resourceType: string): string {
    role + (ACTION + (action + (RESOURCE_TYPE + resourceType)))
  }

  function Tail(e: Entry): string {
    "role=" + Middle(e.role, e.action, e.resourceType)
    + "\n" + ("resource_id=" + UuidOrEmpty(e.resourceID))
    + "\n" + ("case_id=" + UuidOrEmpty(e.caseID))
    + "\n" + ("metadata=" + e.metadata)
    + "\n" + ("prev_hash=" + PrevHashOrGenesis(e.prevHash))
  }

  /** The canonical string of an entry, one labelled line per field. */
  function Preimage(e: Entry): string {
    "evidentia-audit-entry" + "\n" +
    (("id=" + UuidText(e.id)) + "\n" +
     (("timestamp=" + TimeText(e.timestamp)) + "\n" +
      (("user_id=" + UuidOrEmpty(e.userID)) + "\n" + Tail(e))))
  }

  /** The builder of the original: ten writes, each appending one field. */
  method WriteEntry(e: Entry) returns (b: string)
    ensures b == Preimage(e)
  {
    b := WriteFront(e);
    b := WriteTail(b, e);
    FrontThen(UuidText(e.id), TimeText(e.timestamp), UuidOrEmpty(e.userID), Tail(e));
  }

  function Front(id: string, timestamp: string, userID: string): string {
    "evidentia-audit-entry\n" + "id=" + id + "\n" + "timestamp=" + timestamp + "\n" + "user_id=" + userID + "\n"
  }

  method WriteFront(e: Entry) returns (b: string)
    ensures b == Front(UuidText(e.id), TimeText(e.timestamp), UuidOrEmpty(e.userID))
  {
    b := "evidentia-audit-entry\n";
    b := b + "id=" + UuidText(e.id) + "\n";
    b := b + "timestamp=" + TimeText(e.timestamp) + "\n";
    b := b + "user_id=" + UuidOrEmpty(e.userID) + "\n";
  }

  method WriteTail(front: string, e: Entry) returns (b: string)
    ensures b == front + Tail(e)
  {
    b := front + "role=" + e.role + "\n";
    b := b + "action=" + e.action + "\n";
    b := b + "resource_type=" + e.resourceType + "\n";
    ghost var t := "role=" + Middle(e.role, e.action, e.resourceType);
    MiddleLines(front, e.role, e.action, e.resourceType);
    NextLine(front, t, "resource_id=", UuidOrEmpty(e.resourceID));
    b := b + "resource_id=" + UuidOrEmpty(e.resourceID) + "\n";
    t := t + "\n" + ("resource_id=" + UuidOrEmpty(e.resourceID));
    NextLine(front, t, "case_id=", UuidOrEmpty(e.caseID));
    b := b + "case_id=" + UuidOrEmpty(e.caseID) + "\n";
    t := t + "\n" + ("case_id=" + UuidOrEmpty(e.caseID));
    NextLine(front, t, "metadata=", e.metadata);
    b := b + "metadata=" + e.metadata + "\n";
    t := t + "\n" + ("metadata=" + e.metadata);
    NextLine(front, t, "prev_hash=", PrevHashOrGenesis(e.prevHash));
    b := b + "prev_hash=" + PrevHashOrGenesis(e.prevHash);
  }

  lemma MiddleLines(f: string, r: string, a: string, t: string)
    ensures f + "role=" + r + "\n" + "action=" + a + "\n" + "resource_type=" + t + "\n" == f + ("role=" + Middle(r, a, t)) + "\n"
  {}

  lemma NextLine(f: string, t: string, name: string, value: string)
    ensures f + t + "\n" + name + value == f + (t + "\n" + (name + value))
  {}

  lemma FrontThen(id: string, timestamp: string, userID: string, k: string)
    ensures Front(id, timestamp, userID) + k ==
      "evidentia-audit-entry" + "\n" + (("id=" + id) + "\n" + (("timestamp=" + timestamp) + "\n" + (("user_id=" + userID) + "\n" + k)))
  {}

  // ---- which field stands where ----

  /** strings.Join with newlines. */
  function JoinLines(lines: seq<string>): string {
    if |lines| == 0 then ""
    else if |lines| == 1 then lines[0]
    else lines[0] + "\n" + JoinLines(lines[1..])
  }

  /** strings.Split at newlines. */
  function SplitLines(s: string): (lines: seq<string>)
    ensures |lines| > 0
  {
    if |s| == 0 then [""]
    else
      var rest := SplitLines(s[1..]);
      if s[0] == '\n' then [""] + rest else [[s[0]] + rest[0]] + rest[1..]
  }

  lemma {:induction false} SplitFirst(a: string, s: string)
    requires OneLine(a)
    ensures SplitLines(a) == [a] && SplitLines(a + "\n" + s) == [a] + SplitLines(s)
  {
    var t := a + "\n" + s;
    if |a| == 0 {
      assert t[1..] == s;
    } else {
      SplitFirst(a[1..], s);
      assert t[1..] == a[1..] + "\n" + s && a == [a[0]] + a[1..];
    }
  }

  /** Lines without newlines in them can be read back. */
  lemma {:induction false} SplitJoin(lines: seq<string>)
    requires |lines| > 0 && forall i :: 0 <= i < |lines| ==> OneLine(lines[i])
    ensures SplitLines(JoinLines(lines)) == lines
  {
    if |lines| == 1 {
      SplitFirst(lines[0], "");
    } else {
      SplitJoin(lines[1..]);
      SplitFirst(lines[0], JoinLines(lines[1..]));
    }
  }

  lemma JoinNext(a: string, rest: seq<string>)
    requires |rest| > 0
    ensures JoinLines([a] + rest) == a + "\n" + JoinLines(rest)
  {
    assert ([a] + rest)[1..] == rest;
  }

  lemma JoinPair(a: string, b: string, rest: seq<string>)
    requires |rest| > 0
    ensures JoinLines([a, b] + rest) == a + "\n" + (b + "\n" + JoinLines(rest))
  {
    hide JoinLines;
    JoinNext(b, rest);
    JoinNext(a, [b] + rest);
    assert [a, b] + rest == [a] + ([b] + rest);
  }

  lemma TwoPairs(a: string, b: string, c: string, d: string, rest: seq<string>)
    ensures [a, b, c, d] + rest == [a, b] + ([c, d] + rest)
  {}

  lemma JoinFour(a: string, b: string, c: string, d: string, rest: seq<string>)
    requires |rest| > 0
    ensures JoinLines([a, b, c, d] + rest) == a + "\n" + (b + "\n" + (c + "\n" + (d + "\n" + JoinLines(rest))))
  {
    hide JoinLines;
    JoinPair(c, d, rest);
    JoinPair(a, b, [c, d] + rest);
    TwoPairs(a, b, c, d, rest);
  }

  /** The text of an entry is these eleven lines in this order, each field behind its own label; if no text in it holds
      a newline, splitting the hashed text gives exactly these lines back. */
  lemma LabelledLines(e: Entry)
    ensures var lines := [
        "evidentia-audit-entry", "id=" + UuidText(e.id), "timestamp=" + TimeText(e.timestamp), "user_id=" + UuidOrEmpty(e.userID),
        "role=" + e.role, "action=" + e.action, "resource_type=" + e.resourceType, "resource_id=" + UuidOrEmpty(e.resourceID),
        "case_id=" + UuidOrEmpty(e.caseID), "metadata=" + e.metadata, "prev_hash=" + PrevHashOrGenesis(e.prevHash)];
      && Preimage(e) == JoinLines(lines)
      && (OneLine(e.role) && OneLine(e.action) && OneLine(e.resourceType) && OneLine(e.metadata) ==> SplitLines(Preimage(e)) == lines)
  {
    var id, timestamp, user := "id=" + UuidText(e.id), "timestamp=" + TimeText(e.timestamp), "user_id=" + UuidOrEmpty(e.userID);
    var role, action, kind := "role=" + e.role, "action=" + e.action, "resource_type=" + e.resourceType;
    var resource, case_, metadata := "resource_id=" + UuidOrEmpty(e.resourceID), "case_id=" + UuidOrEmpty(e.caseID), "metadata=" + e.metadata;
    var prev := "prev_hash=" + PrevHashOrGenesis(e.prevHash);
    var lines := ["evidentia-audit-entry", id, timestamp, user, role, action, kind, resource, case_, metadata, prev];
    hide JoinLines, UuidText, TimeText, UuidOrEmpty, PrevHashOrGenesis;
    var late := [case_, metadata, prev];
    var tail := [role, action, kind, resource] + late;
    JoinNext(metadata, [prev]);
    JoinNext(case_, [metadata] + [prev]);
    JoinOne(prev);
    assert late == [case_] + ([metadata] + [prev]);
    JoinFour(role, action, kind, resource, late);
    TailInLines(e.role, e.action, e.resourceType, resource, case_, metadata, prev);
    assert JoinLines(tail) == Tail(e);
    JoinFour("evidentia-audit-entry", id, timestamp, user, tail);
    assert lines == ["evidentia-audit-entry", id, timestamp, user] + tail;
    if OneLine(e.role) && OneLine(e.action) && OneLine(e.resourceType) && OneLine(e.metadata) {
      SplitJoin(lines);
    }
  }

  lemma JoinOne(a: string)
    ensures JoinLines([a]) == a
  {}

  lemma TailInLines(role: string, action: string, kind: string, resource: string, case_: string, metadata: string, prev: string)
    ensures "role=" + Middle(role, action, kind) + "\n" + resource + "\n" + case_ + "\n" + metadata + "\n" + prev ==
      ("role=" + role) + "\n" + (("action=" + action) + "\n" + (("resource_type=" + kind) + "\n" + (resource + "\n" +
        (case_ + "\n" + (metadata + "\n" + prev)))))
  {}

  // ---- the formats are injective ----

  lemma UuidTextInjective(a: Uuid, b: Uuid)
    requires UuidText(a) == UuidText(b)
    ensures a == b
  {
    var s, t := UuidText(a), UuidText(b);
    forall i | 0 <= i < 32 ensures Hex(a)[i] == Hex(b)[i] {
      var k := if i < 8 then i else if i < 12 then i + 1 else if i < 16 then i + 2 else if i < 20 then i + 3 else i + 4;
      assert s[k] == Hex(a)[i] && t[k] == Hex(b)[i];
    }
    HexInjective(a, b);
  }

  lemma UuidOrEmptyInjective(a: Option<Uuid>, b: Option<Uuid>)
    requires UuidOrEmpty(a) == UuidOrEmpty(b)
    ensures a == b
  {
    if a.Some? && b.Some? {
      UuidTextInjective(a.value, b.value);
    }
  }

  lemma {:induction false} TrimZerosInjective(s: string, t: string)
    requires |s| == |t| && TrimZeros(s) == TrimZeros(t)
    ensures s == t
  {
    if |s| > 0 {
      assert s == s[..|s| - 1] + [s[|s| - 1]] && t == t[..|t| - 1] + [t[|t| - 1]];
      if s[|s| - 1] == '0' && t[|t| - 1] == '0' {
        TrimZerosInjective(s[..|s| - 1], t[..|t| - 1]);
      }
    }
  }

  lemma FractionTextInjective(m: nat, n: nat)
    requires m < 1_000_000_000 && n < 1_000_000_000 && FractionText(m) == FractionText(n)
    ensures m == n
  {
    if m != 0 && n != 0 {
      CancelPrefix(".", TrimZeros(Pad(m, 9)), TrimZeros(Pad(n, 9)));
      assert Pow10(9) == 1_000_000_000 by { Pow10Nine(); }
      PadWidth(m, 9);
      PadWidth(n, 9);
      TrimZerosInjective(Pad(m, 9), Pad(n, 9));
      PadInjective(m, n, 9);
    }
  }

  lemma Pow10Nine()
    ensures Pow10(9) == 1_000_000_000 && Pow10(2) == 100 && Pow10(4) == 10_000
  {
    assert Pow10(3) == 10 * Pow10(2) && Pow10(2) == 10 * Pow10(1);
    assert Pow10(5) == 10 * Pow10(4) && Pow10(4) == 10 * Pow10(3);
    assert Pow10(7) == 10 * Pow10(6) && Pow10(6) == 10 * Pow10(5);
    assert Pow10(9) == 10 * Pow10(8) && Pow10(8) == 10 * Pow10(7);
  }

  lemma ClockTextParts(t: Timestamp)
    ensures |ClockText(t)| == 19
    ensures ClockText(t)[..4] == Pad(t.year, 4) && ClockText(t)[5..7] == Pad(t.month, 2)
    ensures ClockText(t)[8..10] == Pad(t.day, 2) && ClockText(t)[11..13] == Pad(t.hour, 2)
    ensures ClockText(t)[14..16] == Pad(t.minute, 2) && ClockText(t)[17..] == Pad(t.second, 2)
    ensures var s := ClockText(t); s[4] == '-' && s[7] == '-' && s[10] == 'T' && s[13] == ':' && s[16] == ':'
  {
    Pow10Nine();
    PadWidth(t.year, 4);
    PadWidth(t.month, 2);
    PadWidth(t.day, 2);
    PadWidth(t.hour, 2);
    PadWidth(t.minute, 2);
    PadWidth(t.second, 2);
    hide Pad, Pow10;
    ClockParts(Pad(t.year, 4), Pad(t.month, 2), Pad(t.day, 2), Pad(t.hour, 2), Pad(t.minute, 2), Pad(t.second, 2));
    ClockMarks(Pad(t.year, 4), Pad(t.month, 2), Pad(t.day, 2), Pad(t.hour, 2), Pad(t.minute, 2), Pad(t.second, 2));
  }

  lemma ClockParts(year: string, month: string, day: string, hour: string, minute: string, second: string)
    requires |year| == 4 && |month| == 2 && |day| == 2 && |hour| == 2 && |minute| == 2 && |second| == 2
    ensures var s := year + "-" + month + "-" + day + "T" + hour + ":" + minute + ":" + second;
      && |s| == 19 && s[..4] == year && s[5..7] == month && s[8..10] == day
      && s[11..13] == hour && s[14..16] == minute && s[17..] == second
  {}

  lemma ClockMarks(year: string, month: string, day: string, hour: string, minute: string, second: string)
    requires |year| == 4 && |month| == 2 && |day| == 2 && |hour| == 2 && |minute| == 2 && |second| == 2
    ensures var s := year + "-" + month + "-" + day + "T" + hour + ":" + minute + ":" + second;
      |s| == 19 && s[4] == '-' && s[7] == '-' && s[10] == 'T' && s[13] == ':' && s[16] == ':'
  {}

  lemma TimeTextInjective(a: Timestamp, b: Timestamp)
    requires TimeText(a) == TimeText(b)
    ensures a == b
  {
    var s := TimeText(a);
    ClockTextParts(a);
    ClockTextParts(b);
    assert s[..19] == ClockText(a) && s[..19] == ClockText(b);
    assert s[19..] == FractionText(a.nano) + "Z" && s[19..] == FractionText(b.nano) + "Z";
    assert FractionText(a.nano) == s[19..][..|s| - 20] && FractionText(b.nano) == s[19..][..|s| - 20];
    FractionTextInjective(a.nano, b.nano);
    PadInjective(a.year, b.year, 4);
    PadInjective(a.month, b.month, 2);
    PadInjective(a.day, b.day, 2);
    PadInjective(a.hour, b.hour, 2);
    PadInjective(a.minute, b.minute, 2);
    PadInjective(a.second, b.second, 2);
  }

  lemma {:induction false} TrimmedValue(s: string)
    ensures Decimal(TrimZeros(s)) * Pow10(|s| - |TrimZeros(s)|) == Decimal(s)
    ensures |TrimZeros(s)| > 0 ==> TrimZeros(s)[|TrimZeros(s)| - 1] != '0'
  {
    if |s| > 0 && s[|s| - 1] == '0' {
      var r := TrimZeros(s[..|s| - 1]);
      TrimmedValue(s[..|s| - 1]);
      Tenfold(Decimal(r), Pow10(|s| - 1 - |r|));
    }
  }

  lemma Tenfold(a: nat, b: nat)
    ensures a * (10 * b) == 10 * (a * b)
  {}

  lemma FractionReads(nano: nat)
    requires 0 < nano < 1_000_000_000
    ensures var s := FractionText(nano);
      && 2 <= |s| <= 10 && s[0] == '.' && s[|s| - 1] != '0' && Decimal(s[1..]) * Pow10(10 - |s|) == nano
  {
    Pow10Nine();
    PadWidth(nano, 9);
    DecimalOfPad(nano, 9);
    TrimmedValue(Pad(nano, 9));
    var r := TrimZeros(Pad(nano, 9));
    assert Decimal("") == 0;
    assert FractionText(nano)[1..] == r;
  }

  /** The text of an instant is read back field by field, in the order of RFC 3339, and its fraction is written with as
      many digits as it needs. */
  lemma TimeTextReads(t: Timestamp)
    ensures var s := TimeText(t); var n := |s|;
      && 20 <= n <= 30 && s[4] == '-' && s[7] == '-' && s[10] == 'T' && s[13] == ':' && s[16] == ':' && s[n - 1] == 'Z'
      && Decimal(s[..4]) == t.year && Decimal(s[5..7]) == t.month && Decimal(s[8..10]) == t.day
      && Decimal(s[11..13]) == t.hour && Decimal(s[14..16]) == t.minute && Decimal(s[17..19]) == t.second
      && (n == 20 <==> t.nano == 0)
      && (n > 20 ==> s[19] == '.' && s[n - 2] != '0' && Decimal(s[20..n - 1]) * Pow10(30 - n) == t.nano)
  {
    ClockTextParts(t);
    DecimalOfPad(t.year, 4);
    DecimalOfPad(t.month, 2);
    DecimalOfPad(t.day, 2);
    DecimalOfPad(t.hour, 2);
    DecimalOfPad(t.minute, 2);
    DecimalOfPad(t.second, 2);
    if t.nano > 0 {
      FractionReads(t.nano);
    }
    hide ClockText, Pad, Decimal, Pow10;
    var c, f := ClockText(t), FractionText(t.nano);
    TimeParts(c, f);
  }

  lemma TimeParts(c: string, f: string)
    requires |c| == 19
    ensures var s := c + (f + "Z");
      && |s| == 20 + |f| && s[|s| - 1] == 'Z'
      && s[..4] == c[..4] && s[5..7] == c[5..7] && s[8..10] == c[8..10] && s[11..13] == c[11..13] && s[14..16] == c[14..16]
      && s[17..19] == c[17..] && (forall i :: 0 <= i < 19 ==> s[i] == c[i])
      && (|f| > 0 ==> s[19] == f[0] && s[|s| - 2] == f[|f| - 1] && s[20..|s| - 1] == f[1..])
  {}

  /** "genesis" is never the hexadecimal form of a digest. */
  lemma PrevHashOrGenesisInjective(a: Option<Digest>, b: Option<Digest>)
    requires PrevHashOrGenesis(a) == PrevHashOrGenesis(b)
    ensures Raw(a) == Raw(b)
  {
    assert "genesis"[0] == 'g' && !IsHexChar('g');
    assert |Raw(a)| > 0 ==> IsHexChar(PrevHashOrGenesis(a)[0]);
    assert |Raw(b)| > 0 ==> IsHexChar(PrevHashOrGenesis(b)[0]);
    if |Raw(a)| > 0 && |Raw(b)| > 0 {
      HexInjective(Raw(a), Raw(b));
    }
  }

  // ---- what the preimage determines ----

  /** Equal in every hashed field; a nil and an empty previous hash are the same to Go's hashing. */
  predicate SameEntry(a: Entry, b: Entry) {
    && a.id == b.id && a.timestamp == b.timestamp && a.userID == b.userID
    && a.role == b.role && a.action == b.action && a.resourceType == b.resourceType
    && a.resourceID == b.resourceID && a.caseID == b.caseID
    && a.metadata == b.metadata && Raw(a.prevHash) == Raw(b.prevHash)
  }

  lemma FrontLines(a: Entry, b: Entry)
    requires Preimage(a) == Preimage(b)
    ensures a.id == b.id && a.timestamp == b.timestamp && a.userID == b.userID && Tail(a) == Tail(b)
  {
    var a3, b3 := ("user_id=" + UuidOrEmpty(a.userID)) + "\n" + Tail(a), ("user_id=" + UuidOrEmpty(b.userID)) + "\n" + Tail(b);
    var a2, b2 := ("timestamp=" + TimeText(a.timestamp)) + "\n" + a3, ("timestamp=" + TimeText(b.timestamp)) + "\n" + b3;
    var a1, b1 := ("id=" + UuidText(a.id)) + "\n" + a2, ("id=" + UuidText(b.id)) + "\n" + b2;
    FirstLine("evidentia-audit-entry", a1, "evidentia-audit-entry", b1);
    PeelFirst("id=", UuidText(a.id), a2, UuidText(b.id), b2);
    PeelFirst("timestamp=", TimeText(a.timestamp), a3, TimeText(b.timestamp), b3);
    PeelFirst("user_id=", UuidOrEmpty(a.userID), Tail(a), UuidOrEmpty(b.userID), Tail(b));
    UuidTextInjective(a.id, b.id);
    TimeTextInjective(a.timestamp, b.timestamp);
    UuidOrEmptyInjective(a.userID, b.userID);
  }

  lemma TailLines(a: Entry, b: Entry)
    requires Tail(a) == Tail(b) && OneLine(a.metadata) && OneLine(b.metadata)
    ensures a.resourceID == b.resourceID && a.caseID == b.caseID && a.metadata == b.metadata
    ensures Raw(a.prevHash) == Raw(b.prevHash)
    ensures Middle(a.role, a.action, a.resourceType) == Middle(b.role, b.action, b.resourceType)
  {
    var a1, b1 := "role=" + Middle(a.role, a.action, a.resourceType), "role=" + Middle(b.role, b.action, b.resourceType);
    var a2, b2 := a1 + "\n" + ("resource_id=" + UuidOrEmpty(a.resourceID)), b1 + "\n" + ("resource_id=" + UuidOrEmpty(b.resourceID));
    var a3, b3 := a2 + "\n" + ("case_id=" + UuidOrEmpty(a.caseID)), b2 + "\n" + ("case_id=" + UuidOrEmpty(b.caseID));
    var a4, b4 := a3 + "\n" + ("metadata=" + a.metadata), b3 + "\n" + ("metadata=" + b.metadata);
    PeelLast("prev_hash=", a4, PrevHashOrGenesis(a.prevHash), b4, PrevHashOrGenesis(b.prevHash));
    PeelLast("metadata=", a3, a.metadata, b3, b.metadata);
    PeelLast("case_id=", a2, UuidOrEmpty(a.caseID), b2, UuidOrEmpty(b.caseID));
    PeelLast("resource_id=", a1, UuidOrEmpty(a.resourceID), b1, UuidOrEmpty(b.resourceID));
    CancelPrefix("role=", Middle(a.role, a.action, a.resourceType), Middle(b.role, b.action, b.resourceType));
    UuidOrEmptyInjective(a.resourceID, b.resourceID);
    UuidOrEmptyInjective(a.caseID, b.caseID);
    PrevHashOrGenesisInjective(a.prevHash, b.prevHash);
  }

  /** A free-text field carries another field's label at the start of a line. */
  ghost predicate Smuggles(role: string, action: string, resourceType: string) {
    || Occurs(ACTION, role)
    || Occurs(ACTION, action)
    || Occurs(RESOURCE_TYPE, action)
    || Occurs(RESOURCE_TYPE, resourceType)
  }

  /** Two labels cannot overlap: each starts with a newline and contains no other. */
  lemma LabelsDoNotOverlap(m: string, p: string, j: int, q: string, k: int)
    requires (p == ACTION || p == RESOURCE_TYPE) && (q == ACTION || q == RESOURCE_TYPE)
    requires OccursAt(p, m, j) && OccursAt(q, m, k)
    ensures j + |p| <= k || k + |q| <= j || (j == k && p == q)
  {
    assert m[j] == m[j..j + |p|][0] == '\n' && m[k] == m[k..k + |q|][0] == '\n';
    assert forall i :: j < i < j + |p| ==> m[i] == p[i - j] && p[i - j] != '\n';
    assert forall i :: k < i < k + |q| ==> m[i] == q[i - k] && q[i - k] != '\n';
    if j == k {
      assert m[j + 1] == m[j..j + |p|][1] && m[k + 1] == m[k..k + |q|][1];
    }
  }

  lemma LabelInside(m: string, field: string, start: nat, name: string, k: int)
    requires start + |field| <= |m| && m[start..start + |field|] == field
    requires OccursAt(name, m, k) && start <= k && k + |name| <= start + |field|
    ensures Occurs(name, field)
  {
    var at := field[k - start..k - start + |name|];
    assert at == m[k..k + |name|] by {
      assert forall i :: 0 <= i < |name| ==> at[i] == field[k - start + i] == m[k + i];
    }
    assert OccursAt(name, field, k - start);
  }

  lemma MiddleParts(role: string, action: string, resourceType: string)
    ensures var m := Middle(role, action, resourceType); var i := |role|; var j := i + |ACTION| + |action|;
      && OccursAt(ACTION, m, i) && OccursAt(RESOURCE_TYPE, m, j) && |m| == j + |RESOURCE_TYPE| + |resourceType|
      && m[..i] == role && m[i + |ACTION|..j] == action && m[j + |RESOURCE_TYPE|..] == resourceType
  {}

  /** Without smuggled labels every reading of the text puts the labels in the same places. */
  lemma LabelPositions(r: string, a: string, t: string, m: string, i': int, j': int)
    requires m == Middle(r, a, t) && !Smuggles(r, a, t)
    requires OccursAt(ACTION, m, i') && OccursAt(RESOURCE_TYPE, m, j') && i' + |ACTION| <= j'
    ensures i' == |r| && j' == |r| + |ACTION| + |a|
  {
    MiddleParts(r, a, t);
    var i, j := |r|, |r| + |ACTION| + |a|;
    LabelsDoNotOverlap(m, ACTION, i, ACTION, i');
    LabelsDoNotOverlap(m, RESOURCE_TYPE, j, ACTION, i');
    LabelsDoNotOverlap(m, ACTION, i, RESOURCE_TYPE, j');
    LabelsDoNotOverlap(m, RESOURCE_TYPE, j, RESOURCE_TYPE, j');
    if i' < i {
      LabelInside(m, r, 0, ACTION, i');
    } else if i < i' < j {
      LabelInside(m, a, i + |ACTION|, ACTION, i');
    } else if j < j' {
      LabelInside(m, t, j + |RESOURCE_TYPE|, RESOURCE_TYPE, j');
    } else if j' < j {
      LabelInside(m, a, i + |ACTION|, RESOURCE_TYPE, j');
    }
  }

  /** Without smuggled labels the free-text fields can be read back from the text. */
  lemma MiddleDetermines(r: string, a: string, t: string, r': string, a': string, t': string)
    requires Middle(r, a, t) == Middle(r', a', t') && !Smuggles(r, a, t)
    ensures r == r' && a == a' && t == t'
  {
    MiddleParts(r, a, t);
    MiddleParts(r', a', t');
    LabelPositions(r, a, t, Middle(r, a, t), |r'|, |r'| + |ACTION| + |a'|);
  }

  lemma MoveActionLeft(r: string, x: string, y: string, t: string)
    ensures Middle(r, x + ACTION + y, t) == Middle(r + ACTION + x, y, t)
  {}

  lemma MoveActionRight(x: string, y: string, a: string, t: string)
    ensures Middle(x + ACTION + y, a, t) == Middle(x, y + ACTION + a, t)
  {}

  lemma MoveType(r: string, x: string, y: string, t: string)
    ensures Middle(r, x + RESOURCE_TYPE + y, t) == Middle(r, x, y + RESOURCE_TYPE + t)
  {}

  lemma SplitAt(name: string, s: string) returns (x: string, y: string)
    requires Occurs(name, s)
    ensures s == x + name + y
  {
    var k :| OccursAt(name, s, k);
    x, y := s[..k], s[k + |name|..];
  }

  /** With a smuggled label a second reading of the same text exists. */
  lemma SecondReading(r: string, a: string, t: string) returns (r': string, a': string, t': string)
    requires Smuggles(r, a, t)
    ensures Middle(r', a', t') == Middle(r, a, t) && (r', a', t') != (r, a, t)
  {
    if Occurs(ACTION, r) {
      var x, y := SplitAt(ACTION, r);
      MoveActionRight(x, y, a, t);
      r', a', t' := x, y + ACTION + a, t;
    } else if Occurs(ACTION, a) {
      var x, y := SplitAt(ACTION, a);
      MoveActionLeft(r, x, y, t);
      r', a', t' := r + ACTION + x, y, t;
    } else if Occurs(RESOURCE_TYPE, a) {
      var x, y := SplitAt(RESOURCE_TYPE, a);
      MoveType(r, x, y, t);
      r', a', t' := r, x, y + RESOURCE_TYPE + t;
    } else {
      var x, y := SplitAt(RESOURCE_TYPE, t);
      MoveType(r, a, x, y);
      r', a', t' := r, a + RESOURCE_TYPE + x, y;
    }
  }

  /** Hashing the text commits to the whole entry exactly when no free-text field smuggles a label. */
  lemma PreimageIdentifiesEntry(e: Entry)
    requires OneLine(e.metadata)
    ensures (forall f: Entry :: OneLine(f.metadata) && Preimage(f) == Preimage(e) ==> SameEntry(e, f))
      <==> !Smuggles(e.role, e.action, e.resourceType)
  {
    if Smuggles(e.role, e.action, e.resourceType) {
      var r, a, t := SecondReading(e.role, e.action, e.resourceType);
      var f := e.(role := r, action := a, resourceType := t);
      assert Preimage(f) == Preimage(e) && !SameEntry(e, f);
    } else {
      forall f: Entry | OneLine(f.metadata) && Preimage(f) == Preimage(e) ensures SameEntry(e, f) {
        FrontLines(e, f);
        TailLines(e, f);
        MiddleDetermines(e.role, e.action, e.resourceType, f.role, f.action, f.resourceType);
      }
    }
  }
}
