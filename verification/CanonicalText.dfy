/** The canonical form spelled out character by character, and what is canonicalized at all. */
module CanonicalText {
  import opened Outcomes
  import opened Text
  import opened Json
  import opened JsonLayout
  import opened Canonical

  // ---- compact JSON as a text ----

  /** One character inside a string literal. */
  function CharText(c: char): string {
    if c == '\"' then "\\\""
    else if c == '\\' then "\\\\"
    else if c == '\U{0008}' then "\\b"
    else if c == '\U{000C}' then "\\f"
    else if c == '\n' then "\\n"
    else if c == '\r' then "\\r"
    else if c == '\t' then "\\t"
    else if c == '<' then "\\u003c"
    else if c == '>' then "\\u003e"
    else if c == '&' then "\\u0026"
    else if c == '\U{2028}' then "\\u2028"
    else if c == '\U{2029}' then "\\u2029"
    else if c < ' ' then "\\u00" + Hex([c as Byte])
    else [c]
  }

  function EscapedText(s: string): string {
    if |s| == 0 then "" else CharText(s[0]) + EscapedText(s[1..])
  }

  function Quoted(s: string): string {
    "\"" + EscapedText(s) + "\""
  }

  /** No white space; members in the order given. */
  function JsonText(nf: NumberFormat, v: Json): string
    decreases v, 1
  {
    match v
    case Null => "null"
    case Bool(b) => if b then "true" else "false"
    case Num(f) => nf.show(f)
    case Str(s) => Quoted(s)
    case Arr(items) => "[" + ItemsText(nf, items) + "]"
    case Obj(ms) => "{" + MembersText(nf, ms) + "}"
  }

  function ItemsText(nf: NumberFormat, items: seq<Json>): string
    decreases items, 0
  {
    if |items| == 0 then ""
    else if |items| == 1 then JsonText(nf, items[0])
    else JsonText(nf, items[0]) + "," + ItemsText(nf, items[1..])
  }

  function MembersText(nf: NumberFormat, ms: Members): string
    decreases ms, 0
  {
    if |ms| == 0 then ""
    else
      var first := Quoted(ms[0].key) + ":" + JsonText(nf, ms[0].value);
      if |ms| == 1 then first else first + "," + MembersText(nf, ms[1..])
  }

  // ---- the encoder writes it ----

  lemma PieceIsCharText(c: char, k: string)
    ensures PieceThen(PieceFor(c), k) == CharText(c) + k
  {
    if PieceFor(c).Unicode? {
      UnicodeIsCharText(c);
      assert PieceThen(PieceFor(c), k) == ("\\u" + Hex4(c as nat)) + k;
    }
    hide Hex4, Hex;
  }

  lemma UnicodeIsCharText(c: char)
    requires PieceFor(c).Unicode?
    ensures "\\u" + Hex4(c as nat) == CharText(c)
  {
    if c < ' ' {
      ControlDigits(c as nat);
      ControlText(Hex([c as nat]));
      hide Hex4, Hex;
    } else {
      SpecialIsCharText(c);
    }
  }

  lemma ControlText(digits: string)
    ensures "\\u" + ("00" + digits) == "\\u00" + digits
  {}

  lemma SpecialIsCharText(c: char)
    requires c == '<' || c == '>' || c == '&' || c == '\U{2028}' || c == '\U{2029}'
    ensures "\\u" + Hex4(c as nat) == CharText(c)
  {
    FixedDigits();
    hide Hex4, Hex;
  }

  lemma ControlDigits(n: nat)
    requires n < 32
    ensures Hex4(n) == "00" + Hex([n])
  {
    assert Hex([n]) == [HexChar(n / 16), HexChar(n % 16)];
    assert n / 256 == 0 && n % 256 == n && HexChar(0) == '0';
  }

  lemma FixedDigits()
    ensures Hex4(0x3c) == "003c" && Hex4(0x3e) == "003e" && Hex4(0x26) == "0026" && Hex4(0x2028) == "2028" && Hex4(0x2029) == "2029"
  {}

  lemma {:induction false} PiecesAreEscaped(s: string, k: string)
    ensures PiecesThen(PiecesFor(s), k) == EscapedText(s) + "\"" + k
  {
    hide PieceThen, PieceFor, CharText;
    if |s| > 0 {
      PiecesAreEscaped(s[1..], k);
      PieceIsCharText(s[0], PiecesThen(PiecesFor(s[1..]), k));
      assert PiecesFor(s)[1..] == PiecesFor(s[1..]);
      assert CharText(s[0]) + (EscapedText(s[1..]) + "\"" + k) == (CharText(s[0]) + EscapedText(s[1..])) + "\"" + k;
    }
  }

  lemma QuotedThen(s: string, k: string)
    ensures "\"" + PiecesThen(PiecesFor(s), k) == Quoted(s) + k
  {
    PiecesAreEscaped(s, k);
    assert "\"" + (EscapedText(s) + "\"" + k) == ("\"" + EscapedText(s) + "\"") + k;
  }

  lemma {:induction false} CompactIsText(nf: NumberFormat, v: Json, k: string)
    ensures Then(Compact(nf, v), k) == JsonText(nf, v) + k
    decreases v, 1
  {
    hide PiecesThen, PiecesFor, Quoted;
    assert "" + k == k;
    match v
    case Str(s) => QuotedThen(s, k);
    case Arr(items) =>
      if |items| > 0 {
        CompactItemsAreText(nf, items, k);
      }
    case Obj(ms) =>
      if |ms| > 0 {
        CompactMembersAreText(nf, ms, k);
      }
    case _ =>
  }

  lemma {:induction false} CompactItemsAreText(nf: NumberFormat, items: seq<Json>, k: string)
    requires |items| > 0
    ensures |CompactItems(nf, items)| == |items| && ItemsThen(CompactItems(nf, items), k) == ItemsText(nf, items) + "]" + k
    decreases items, 0
  {
    var rest := CompactItems(nf, items[1..]);
    assert CompactItems(nf, items)[1..] == rest;
    if |items| == 1 {
      CompactIsText(nf, items[0], "]" + k);
      assert items[1..] == [];
    } else {
      CompactItemsAreText(nf, items[1..], k);
      CompactIsText(nf, items[0], "," + ItemsThen(rest, k));
      Regroup(JsonText(nf, items[0]), ItemsText(nf, items[1..]), "]", k);
    }
  }

  lemma Regroup(a: string, b: string, end: string, k: string)
    ensures a + ("," + (b + end + k)) == (a + "," + b) + end + k
  {}

  lemma MemberIsText(nf: NumberFormat, m: Field, k: string)
    requires forall j :: Then(Compact(nf, m.value), j) == JsonText(nf, m.value) + j
    ensures MemberThen(Member("", PiecesFor(m.key), "", Compact(nf, m.value)), k) == (Quoted(m.key) + ":" + JsonText(nf, m.value)) + k
  {
    hide PiecesThen, PiecesFor, Quoted, Compact, JsonText;
    var tail := ":" + Then(Compact(nf, m.value), k);
    QuotedThen(m.key, tail);
    assert "" + tail == tail;
    assert Quoted(m.key) + (":" + (JsonText(nf, m.value) + k)) == (Quoted(m.key) + ":" + JsonText(nf, m.value)) + k;
  }

  lemma {:induction false} CompactMembersAreText(nf: NumberFormat, ms: Members, k: string)
    requires |ms| > 0
    ensures |CompactMembers(nf, ms)| == |ms| && MembersThen(CompactMembers(nf, ms), k) == MembersText(nf, ms) + "}" + k
    decreases ms, 0
  {
    hide PiecesThen, PiecesFor, Quoted, MemberThen;
    var rest := CompactMembers(nf, ms[1..]);
    assert CompactMembers(nf, ms)[1..] == rest;
    forall j ensures Then(Compact(nf, ms[0].value), j) == JsonText(nf, ms[0].value) + j {
      CompactIsText(nf, ms[0].value, j);
    }
    var first := Quoted(ms[0].key) + ":" + JsonText(nf, ms[0].value);
    if |ms| == 1 {
      MemberIsText(nf, ms[0], "}" + k);
      assert ms[1..] == [];
      assert first + ("}" + k) == first + "}" + k;
    } else {
      CompactMembersAreText(nf, ms[1..], k);
      MemberIsText(nf, ms[0], "," + MembersThen(rest, k));
      Regroup(first, MembersText(nf, ms[1..]), "}", k);
    }
  }

  // ---- keys in order at every depth ----

  predicate SortedDeep(v: Json)
    decreases v
  {
    match v
    case Arr(items) => forall i :: 0 <= i < |items| ==> SortedDeep(items[i])
    case Obj(ms) => Sorted(ms) && forall i :: 0 <= i < |ms| ==> SortedDeep(ms[i].value)
    case _ => true
  }

  lemma {:induction false} NormalFormIsSorted(v: Json)
    ensures SortedDeep(Normalize(v))
    decreases v, 1
  {
    match v
    case Arr(items) =>
      forall i | 0 <= i < |items| ensures SortedDeep(Normalize(items[i])) {
        NormalFormIsSorted(items[i]);
      }
    case Obj(ms) =>
      ToMapSorted(ms);
      MapValuesAreSorted(ms);
    case _ =>
  }

  lemma {:induction false} MapValuesAreSorted(ms: Members)
    ensures forall i :: 0 <= i < |ToMap(ms)| ==> SortedDeep(ToMap(ms)[i].value)
    decreases ms, 0
  {
    hide Put, SortedDeep;
    if |ms| > 0 {
      var init, last := ms[..|ms| - 1], ms[|ms| - 1];
      MapValuesAreSorted(init);
      NormalFormIsSorted(last.value);
      ToMapSorted(init);
      PutSorted(ToMap(init), last.key, Normalize(last.value));
      var p := ToMap(ms);
      forall i | 0 <= i < |p| ensures SortedDeep(p[i].value) {
        assert p[i] in p;
      }
    }
  }

  /** What is sorted at every depth is its own normal form. */
  lemma {:induction false} SortedIsNormal(v: Json)
    requires SortedDeep(v)
    ensures Normalize(v) == v
    decreases v, 1
  {
    match v
    case Arr(items) =>
      forall i | 0 <= i < |items| ensures Normalize(items[i]) == items[i] {
        SortedIsNormal(items[i]);
      }
      assert NormalizeAll(items) == items;
    case Obj(ms) => SortedMembersAreNormal(ms);
    case _ =>
  }

  lemma {:induction false} SortedMembersAreNormal(ms: Members)
    requires Sorted(ms) && forall i :: 0 <= i < |ms| ==> SortedDeep(ms[i].value)
    ensures ToMap(ms) == ms
    decreases ms, 0
  {
    if |ms| > 0 {
      var init, last := ms[..|ms| - 1], ms[|ms| - 1];
      SortedMembersAreNormal(init);
      SortedIsNormal(last.value);
      assert ms == init + [last];
      if |init| > 0 {
        assert StringLess(ms[|ms| - 2].key, last.key);
        StringLessAsymmetric(init[|init| - 1].key, last.key);
      }
    }
  }

  /** The canonical form of an object text is the compact text of the one value that holds the same data with the members
      of every object in ascending key order. */
  lemma CanonicalFormSpelledOut(nf: NumberFormat, s: string, n: Json)
    requires nf.Lawful() && IsObjectText(nf, s) && SortedDeep(n) && Same(n, ParseText(nf, s).value)
    ensures CanonicalizeMetadata(nf, s) == Ok(JsonText(nf, n))
  {
    var v := ParseText(nf, s).value;
    CanonicalFormOfObject(nf, s);
    NormalizeDecidesContent(n, v);
    SortedIsNormal(n);
    CompactIsText(nf, n, "");
    assert JsonText(nf, n) + "" == JsonText(nf, n);
  }

  lemma CanonicalValueExists(nf: NumberFormat, s: string)
    requires nf.Lawful() && IsObjectText(nf, s)
    ensures exists n :: SortedDeep(n) && Same(n, ParseText(nf, s).value)
  {
    var v := ParseText(nf, s).value;
    NormalFormIsSorted(v);
    NormalizeIdempotent(v);
    NormalizeDecidesContent(Normalize(v), v);
    assert SortedDeep(Normalize(v)) && Same(Normalize(v), v);
  }

  /** Exactly the empty text, null and objects are canonicalized, the first two as the empty object. */
  lemma CanonicalizesIff(nf: NumberFormat, raw: string)
    requires nf.Lawful()
    ensures CanonicalizeMetadata(nf, raw).Ok? <==> raw == "" || ParseText(nf, raw) == Some(Null) || IsObjectText(nf, raw)
    ensures raw == "" || ParseText(nf, raw) == Some(Null) ==> CanonicalizeMetadata(nf, raw) == Ok("{}")
    ensures IsObjectText(nf, raw) ==>
      exists n :: SortedDeep(n) && Same(n, ParseText(nf, raw).value) && CanonicalizeMetadata(nf, raw) == Ok(JsonText(nf, n))
  {
    if IsObjectText(nf, raw) {
      CanonicalValueExists(nf, raw);
      var n :| SortedDeep(n) && Same(n, ParseText(nf, raw).value);
      CanonicalFormSpelledOut(nf, raw, n);
    }
  }
}
