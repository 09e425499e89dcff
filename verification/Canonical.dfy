/** The canonical form of audit metadata: decode into Go maps, encode with sorted keys. */
module Canonical {
  import opened Outcomes
  import opened Text
  import opened Json
  import opened JsonLayout

  type Members = seq<Field>

  // ---- objects as Go maps ----

  /** The value a map holds for `k` after the members were stored in order. */
  function Last(ms: Members, k: string): (r: Option<Json>)
    ensures r.Some? ==> exists i :: 0 <= i < |ms| && ms[i] == Field(k, r.value)
  {
    if |ms| == 0 then None
    else if ms[|ms| - 1].key == k then Some(ms[|ms| - 1].value)
    else Last(ms[..|ms| - 1], k)
  }

  predicate Sorted(ms: Members) {
    forall i, j :: 0 <= i < j < |ms| ==> StringLess(ms[i].key, ms[j].key)
  }

  /** Stores `v` under `k` in a map kept in ascending key order. */
  function Put(ms: Members, k: string, v: Json): Members {
    if |ms| == 0 then [Field(k, v)]
    else
      var init, last := ms[..|ms| - 1], ms[|ms| - 1];
      if last.key == k then init + [Field(k, v)]
      else if StringLess(last.key, k) then ms + [Field(k, v)]
      else Put(init, k, v) + [last]
  }

  /** What decoding into `map[string]any` and encoding again makes of a value. */
  function Normalize(v: Json): Json
    decreases v, 1
  {
    match v
    case Arr(items) => Arr(NormalizeAll(items))
    case Obj(ms) => Obj(ToMap(ms))
    case _ => v
  }

  function NormalizeAll(items: seq<Json>): (r: seq<Json>)
    ensures |r| == |items|
    ensures forall i :: 0 <= i < |r| ==> r[i] == Normalize(items[i])
    decreases items, 0
  {
    if |items| == 0 then [] else [Normalize(items[0])] + NormalizeAll(items[1..])
  }

  function ToMap(ms: Members): Members
    decreases ms, 0
  {
    if |ms| == 0 then []
    else
      var last := ms[|ms| - 1];
      Put(ToMap(ms[..|ms| - 1]), last.key, Normalize(last.value))
  }

  lemma {:induction false} PutSorted(ms: Members, k: string, v: Json)
    requires Sorted(ms)
    ensures Sorted(Put(ms, k, v))
    ensures forall x :: x in Put(ms, k, v) ==> x == Field(k, v) || x in ms
  {
    if |ms| > 0 {
      var init, last := ms[..|ms| - 1], ms[|ms| - 1];
      if last.key == k {
      } else if StringLess(last.key, k) {
        forall i | 0 <= i < |ms| - 1 ensures StringLess(ms[i].key, k) {
          StringLessTransitive(ms[i].key, last.key, k);
        }
      } else {
        PutSorted(init, k, v);
        StringLessTotal(last.key, k);
        var p := Put(init, k, v);
        assert forall i :: 0 <= i < |p| ==> p[i] in p;
      }
    }
  }

  lemma {:induction false} LastOfPut(ms: Members, k: string, v: Json, j: string)
    ensures Last(Put(ms, k, v), j) == if j == k then Some(v) else Last(ms, j)
  {
    var p := Put(ms, k, v);
    if |ms| > 0 {
      var init, last := ms[..|ms| - 1], ms[|ms| - 1];
      LastOfPut(init, k, v, j);
      assert p[..|p| - 1] ==
        if last.key == k then init else if StringLess(last.key, k) then ms else Put(init, k, v);
    } else {
      assert p[..0] == [];
    }
  }

  function NormalizeOption(r: Option<Json>): Option<Json> {
    if r.Some? then Some(Normalize(r.value)) else None
  }

  lemma {:induction false} ToMapSorted(ms: Members)
    ensures Sorted(ToMap(ms))
  {
    if |ms| > 0 {
      var last := ms[|ms| - 1];
      ToMapSorted(ms[..|ms| - 1]);
      PutSorted(ToMap(ms[..|ms| - 1]), last.key, Normalize(last.value));
    }
  }

  lemma {:induction false} LastOfToMap(ms: Members, k: string)
    ensures Last(ToMap(ms), k) == NormalizeOption(Last(ms, k))
  {
    if |ms| > 0 {
      var init, last := ms[..|ms| - 1], ms[|ms| - 1];
      LastOfToMap(init, k);
      LastOfPut(ToMap(init), last.key, Normalize(last.value), k);
    }
  }

  /** A key-sorted member list is determined by its lookups. */
  lemma {:induction false} SortedUnique(a: Members, b: Members)
    requires Sorted(a) && Sorted(b)
    requires forall k :: Last(a, k) == Last(b, k)
    ensures a == b
  {
    assert |a| > 0 ==> Last(b, a[|a| - 1].key).Some?;
    assert |b| > 0 ==> Last(a, b[|b| - 1].key).Some?;
    if |a| > 0 && |b| > 0 {
      var x, y := a[|a| - 1], b[|b| - 1];
      assert Last(a, x.key) == Last(b, x.key) == Some(x.value);
      assert Last(b, y.key) == Last(a, y.key) == Some(y.value);
      if x.key != y.key {
        StringLessAsymmetric(x.key, y.key);
      }
      var a', b' := a[..|a| - 1], b[..|b| - 1];
      forall k ensures Last(a', k) == Last(b', k) {
        assert Last(a, k) == Last(b, k);
        if k == x.key {
          AbsentBelow(a', k);
          AbsentBelow(b', k);
        }
      }
      SortedUnique(a', b');
      assert a == a' + [x] && b == b' + [y];
    }
  }

  lemma AbsentBelow(ms: Members, k: string)
    requires forall i :: 0 <= i < |ms| ==> StringLess(ms[i].key, k)
    ensures Last(ms, k).None?
  {
    if Last(ms, k).Some? {
      StringLessAsymmetric(k, k);
    }
  }

  // ---- equal content ----

  /** Two values hold the same data: objects by key lookup, whatever the order of their members. */
  ghost predicate Same(v: Json, w: Json)
    decreases v
  {
    if v.Arr? && w.Arr? then
      && |v.items| == |w.items|
      && forall i :: 0 <= i < |v.items| ==> Same(v.items[i], w.items[i])
    else if v.Obj? && w.Obj? then
      forall k ::
        && (Last(v.members, k).Some? <==> Last(w.members, k).Some?)
        && (Last(v.members, k).Some? ==> Same(Last(v.members, k).value, Last(w.members, k).value))
    else v == w
  }

  lemma {:induction false} NormalizeDecidesContent(v: Json, w: Json)
    ensures Normalize(v) == Normalize(w) <==> Same(v, w)
    decreases v
  {
    if v.Arr? && w.Arr? {
      forall i | 0 <= i < |v.items| && i < |w.items|
        ensures Normalize(v.items[i]) == Normalize(w.items[i]) <==> Same(v.items[i], w.items[i])
      {
        NormalizeDecidesContent(v.items[i], w.items[i]);
      }
      assert Normalize(v) == Normalize(w) <==> NormalizeAll(v.items) == NormalizeAll(w.items);
    } else if v.Obj? && w.Obj? {
      MembersDecideContent(v.members, w.members);
    }
  }

  lemma MembersDecideContent(ms: Members, ns: Members)
    ensures ToMap(ms) == ToMap(ns) <==> Same(Obj(ms), Obj(ns))
    decreases Obj(ms), 0
  {
    ToMapSorted(ms);
    ToMapSorted(ns);
    forall k
      ensures Last(ToMap(ms), k) == Last(ToMap(ns), k) <==>
        && (Last(ms, k).Some? <==> Last(ns, k).Some?)
        && (Last(ms, k).Some? ==> Same(Last(ms, k).value, Last(ns, k).value))
    {
      LastOfToMap(ms, k);
      LastOfToMap(ns, k);
      if Last(ms, k).Some? && Last(ns, k).Some? {
        NormalizeDecidesContent(Last(ms, k).value, Last(ns, k).value);
      }
    }
    if Same(Obj(ms), Obj(ns)) {
      SortedUnique(ToMap(ms), ToMap(ns));
    }
  }

  lemma {:induction false} NormalizeIdempotent(v: Json)
    ensures Normalize(Normalize(v)) == Normalize(v)
    decreases v
  {
    match v
    case Arr(items) =>
      forall i | 0 <= i < |items| ensures Normalize(Normalize(items[i])) == Normalize(items[i]) {
        NormalizeIdempotent(items[i]);
      }
      assert NormalizeAll(NormalizeAll(items)) == NormalizeAll(items);
    case Obj(ms) =>
      ToMapSorted(ms);
      ToMapSorted(ToMap(ms));
      forall k ensures Last(ToMap(ToMap(ms)), k) == Last(ToMap(ms), k) {
        LastOfToMap(ToMap(ms), k);
        LastOfToMap(ms, k);
        if Last(ms, k).Some? {
          NormalizeIdempotent(Last(ms, k).value);
        }
      }
      SortedUnique(ToMap(ToMap(ms)), ToMap(ms));
    case _ =>
  }

  // ---- json.Marshal ----

  function Hex4(n: nat): string
    requires n < 0x10000
  {
    var h, l := n / 256, n % 256;
    [HexChar(h / 16), HexChar(h % 16), HexChar(l / 16), HexChar(l % 16)]
  }

  /** How Go's encoder writes one character (HTML escaping is on by default). */
  function PieceFor(c: char): Piece {
    if c == '\"' || c == '\\' then Escape(c)
    else if c == '\U{0008}' then Escape('b')
    else if c == '\U{000C}' then Escape('f')
    else if c == '\n' then Escape('n')
    else if c == '\r' then Escape('r')
    else if c == '\t' then Escape('t')
    else if c < ' ' || c == '<' || c == '>' || c == '&' || c == '\U{2028}' || c == '\U{2029}' then Unicode(Hex4(c as nat))
    else Raw(c)
  }

  function PiecesFor(s: string): seq<Piece> {
    if |s| == 0 then [] else [PieceFor(s[0])] + PiecesFor(s[1..])
  }

  /** The layout Go's encoder chooses: no white space, members in the order given. */
  function Compact(nf: NumberFormat, v: Json): Layout
    decreases v, 1
  {
    Layout("",
      match v
      case Null => NullNode
      case Bool(b) => if b then TrueNode else FalseNode
      case Num(f) => NumberNode(nf.show(f))
      case Str(s) => StringNode(PiecesFor(s))
      case Arr(items) => ArrayNode("", CompactItems(nf, items))
      case Obj(ms) => ObjectNode("", CompactMembers(nf, ms)),
      "")
  }

  function CompactItems(nf: NumberFormat, items: seq<Json>): seq<Layout>
    decreases items, 0
  {
    if |items| == 0 then [] else [Compact(nf, items[0])] + CompactItems(nf, items[1..])
  }

  function CompactMembers(nf: NumberFormat, ms: Members): seq<Member>
    decreases ms, 0
  {
    if |ms| == 0 then []
    else [Member("", PiecesFor(ms[0].key), "", Compact(nf, ms[0].value))] + CompactMembers(nf, ms[1..])
  }

  function Marshal(nf: NumberFormat, v: Json): string {
    Render(Compact(nf, v))
  }

  lemma CodeUnitOfHex4(n: nat)
    requires n < 0x10000
    ensures CodeUnit(Hex4(n)) == Some(n)
  {
    var h, l := n / 256, n % 256;
    HexValueOfChar(h / 16);
    HexValueOfChar(h % 16);
    HexValueOfChar(l / 16);
    HexValueOfChar(l % 16);
    assert h == 16 * (h / 16) + h % 16 && l == 16 * (l / 16) + l % 16;
  }

  lemma HexValueOfChar(d: nat)
    requires d < 16
    ensures HexValue(HexChar(d)) == Some(d)
  {}

  lemma PieceForRoundTrip(c: char)
    ensures ValidPiece(PieceFor(c)) && PieceChar(PieceFor(c)) == c && !PieceFor(c).Pair?
    ensures PieceFor(c).Unicode? ==> !IsHigh(CodeUnit(PieceFor(c).digits))
  {
    if PieceFor(c).Unicode? {
      CodeUnitOfHex4(c as nat);
    }
    hide CodeUnit, Hex4;
  }

  lemma {:induction false} PiecesForRoundTrip(s: string)
    ensures ValidPieces(PiecesFor(s)) && PiecesText(PiecesFor(s)) == s
  {
    hide PieceFor, ValidPiece, PieceChar, CodeUnit;
    if |s| > 0 {
      PiecesForRoundTrip(s[1..]);
      PieceForRoundTrip(s[0]);
      assert PiecesFor(s)[1..] == PiecesFor(s[1..]);
      assert s == [s[0]] + s[1..];
    }
  }

  lemma {:induction false} CompactRoundTrip(nf: NumberFormat, v: Json)
    requires nf.Lawful()
    ensures Valid(nf, Compact(nf, v)) && Tree(nf, Compact(nf, v)) == v
    decreases v, 1
  {
    hide PiecesFor, ValidPieces, PiecesText, IsNumber, CompactItems, CompactMembers;
    match v
    case Num(f) => assert IsNumber(nf.show(f)) && nf.read(nf.show(f)) == Some(f);
    case Str(s) => PiecesForRoundTrip(s);
    case Arr(items) => CompactItemsRoundTrip(nf, items);
    case Obj(ms) => CompactMembersRoundTrip(nf, ms);
    case _ =>
  }

  lemma {:induction false} CompactItemsRoundTrip(nf: NumberFormat, items: seq<Json>)
    requires nf.Lawful()
    ensures ValidItems(nf, CompactItems(nf, items)) && Trees(nf, CompactItems(nf, items)) == items
    decreases items, 0
  {
    if |items| > 0 {
      CompactRoundTrip(nf, items[0]);
      CompactItemsRoundTrip(nf, items[1..]);
      assert CompactItems(nf, items)[1..] == CompactItems(nf, items[1..]);
      assert items == [items[0]] + items[1..];
    }
  }

  lemma {:induction false} CompactMembersRoundTrip(nf: NumberFormat, ms: Members)
    requires nf.Lawful()
    ensures ValidMembers(nf, CompactMembers(nf, ms)) && MemberTrees(nf, CompactMembers(nf, ms)) == ms
    decreases ms, 0
  {
    if |ms| > 0 {
      PiecesForRoundTrip(ms[0].key);
      CompactRoundTrip(nf, ms[0].value);
      CompactMembersRoundTrip(nf, ms[1..]);
      var c := CompactMembers(nf, ms);
      assert c[1..] == CompactMembers(nf, ms[1..]);
      assert ValidMember(nf, c[0]) && MemberTree(nf, c[0]) == ms[0];
      assert ms == [ms[0]] + ms[1..];
    }
  }

  /** Decoding what was encoded gives the value back, so the encoding is injective. */
  lemma MarshalRoundTrip(nf: NumberFormat, v: Json)
    requires nf.Lawful()
    ensures ParseText(nf, Marshal(nf, v)) == Some(v)
  {
    CompactRoundTrip(nf, v);
    ParseRender(nf, Compact(nf, v));
  }

  // ---- audit.CanonicalizeMetadata ----

  function CanonicalizeMetadata(nf: NumberFormat, raw: string): Result<string, string> {
    if |raw| == 0 then Ok("{}")
    else
      match ParseText(nf, raw)
      case Some(Null) => Ok("{}")
      case Some(Obj(ms)) => Ok(Marshal(nf, Normalize(Obj(ms))))
      case _ => Err("audit: canonicalize metadata")
  }

  /** The writer's side: an event's metadata map (None is Go's nil map) is marshalled first. */
  function CanonicalizeEventMetadata(nf: NumberFormat, m: Option<Members>): Result<string, string> {
    CanonicalizeMetadata(nf, if m.Some? then Marshal(nf, Normalize(Obj(m.value))) else "null")
  }

  lemma EmptyObjectText(nf: NumberFormat)
    ensures Marshal(nf, Normalize(Obj([]))) == "{}"
  {}

  /** Canonicalizing any text a second time changes nothing. */
  lemma CanonicalizeIdempotent(nf: NumberFormat, raw: string)
    requires nf.Lawful() && CanonicalizeMetadata(nf, raw).Ok?
    ensures CanonicalizeMetadata(nf, CanonicalizeMetadata(nf, raw).value) == CanonicalizeMetadata(nf, raw)
  {
    var ms := match ParseText(nf, raw) { case Some(Obj(ms)) => if |raw| == 0 then [] else ms case _ => [] };
    EmptyObjectText(nf);
    assert CanonicalizeMetadata(nf, raw).value == Marshal(nf, Normalize(Obj(ms)));
    MarshalRoundTrip(nf, Normalize(Obj(ms)));
    NormalizeIdempotent(Obj(ms));
    assert |Marshal(nf, Normalize(Obj(ms)))| > 0;
  }

  predicate IsObjectText(nf: NumberFormat, s: string) {
    match ParseText(nf, s)
    case Some(Obj(_)) => true
    case _ => false
  }

  lemma ObjectTextIsNotEmpty(nf: NumberFormat, s: string)
    requires IsObjectText(nf, s)
    ensures |s| > 0
  {}

  lemma CanonicalFormOfObject(nf: NumberFormat, s: string)
    requires nf.Lawful() && IsObjectText(nf, s)
    ensures CanonicalizeMetadata(nf, s) == Ok(Marshal(nf, Normalize(ParseText(nf, s).value)))
  {
    ObjectTextIsNotEmpty(nf, s);
  }

  /** Two object texts, however written, have the same canonical form exactly when they hold the same data: white space,
      escapes, member order and overwritten duplicates never matter, anything else does. */
  lemma CanonicalFormDecidesContent(nf: NumberFormat, x: string, y: string)
    requires nf.Lawful() && IsObjectText(nf, x) && IsObjectText(nf, y)
    ensures CanonicalizeMetadata(nf, x).Ok? && CanonicalizeMetadata(nf, y).Ok?
    ensures CanonicalizeMetadata(nf, x) == CanonicalizeMetadata(nf, y) <==> Same(ParseText(nf, x).value, ParseText(nf, y).value)
  {
    var v, w := ParseText(nf, x).value, ParseText(nf, y).value;
    CanonicalFormOfObject(nf, x);
    CanonicalFormOfObject(nf, y);
    MarshalRoundTrip(nf, Normalize(v));
    MarshalRoundTrip(nf, Normalize(w));
    NormalizeDecidesContent(v, w);
  }

  /** The text read back is an object text that holds the same data as the one stored. */
  ghost predicate Relayout(nf: NumberFormat, stored: string, read: string) {
    IsObjectText(nf, stored) && IsObjectText(nf, read) && Same(ParseText(nf, stored).value, ParseText(nf, read).value)
  }

  /** What an event stores is always an object text. */
  lemma StoredIsObject(nf: NumberFormat, m: Option<Members>)
    requires nf.Lawful() && CanonicalizeEventMetadata(nf, m).Ok?
    ensures IsObjectText(nf, CanonicalizeEventMetadata(nf, m).value)
  {
    var ms := if m.Some? then m.value else [];
    EmptyObjectText(nf);
    if m.Some? {
      MarshalRoundTrip(nf, Normalize(Obj(ms)));
      CanonicalFormOfObject(nf, Marshal(nf, Normalize(Obj(ms))));
      NormalizeIdempotent(Obj(ms));
    } else {
      MarshalRoundTrip(nf, Normalize(Obj(ms)));
      assert SkipSpace("null") == "null" && "null"[..4] == "null" && "null"[4..] == "";
    }
  }

  /** Whatever object text the database hands back for a row's metadata, it re-canonicalizes to what was hashed when
      the row was written if and only if it holds the same data. */
  lemma RelayoutKeepsCanonicalForm(nf: NumberFormat, m: Option<Members>, read: string)
    requires nf.Lawful() && CanonicalizeEventMetadata(nf, m).Ok? && IsObjectText(nf, read)
    ensures CanonicalizeMetadata(nf, read) == CanonicalizeEventMetadata(nf, m)
      <==> Relayout(nf, CanonicalizeEventMetadata(nf, m).value, read)
  {
    var stored := CanonicalizeEventMetadata(nf, m).value;
    StoredIsObject(nf, m);
    CanonicalizeIdempotent(nf, if m.Some? then Marshal(nf, Normalize(Obj(m.value))) else "null");
    CanonicalFormDecidesContent(nf, stored, read);
  }

  /** The text of an object with one number. */
  function OneNumber(key: string, literal: string): Layout {
    Layout("", ObjectNode("", [Member("", PiecesFor(key), "", Layout("", NumberNode(literal), ""))]), "")
  }

  /** jsonb reads -0 and hands back 0. If the number format tells the two apart, as Go's does, a genuine row that
      holds a negative zero no longer re-canonicalizes to what was hashed. */
  lemma NegativeZeroIsLost(nf: NumberFormat, key: string, minus: Float, zero: Float)
    requires nf.Lawful() && nf.show(minus) == "-0" && nf.read("0") == Some(zero) && minus != zero
    ensures var stored := CanonicalizeEventMetadata(nf, Some([Field(key, Num(minus))]));
      && stored == Ok(Render(OneNumber(key, "-0")))
      && IsObjectText(nf, Render(OneNumber(key, "0")))
      && CanonicalizeMetadata(nf, Render(OneNumber(key, "0"))) != stored
  {
    var ms := [Field(key, Num(minus))];
    var v := Obj(ms);
    SingleMember(key, minus);
    var stored := Marshal(nf, v);
    SingleText(nf, key, minus);
    MarshalRoundTrip(nf, v);
    CanonicalFormOfObject(nf, stored);
    OneNumberParses(nf, key, "0", zero);
    CanonicalFormDecidesContent(nf, stored, Render(OneNumber(key, "0")));
    SingleMember(key, zero);
    NormalizeDecidesContent(v, Obj([Field(key, Num(zero))]));
    assert ms[0] != [Field(key, Num(zero))][0];
  }

  lemma SingleMember(key: string, f: Float)
    ensures Normalize(Obj([Field(key, Num(f))])) == Obj([Field(key, Num(f))])
  {
    var ms := [Field(key, Num(f))];
    assert ms[..0] == [];
    assert ToMap(ms) == Put(ToMap(ms[..0]), key, Normalize(Num(f)));
    assert Put([], key, Num(f)) == ms;
  }

  lemma SingleText(nf: NumberFormat, key: string, f: Float)
    ensures Marshal(nf, Obj([Field(key, Num(f))])) == Render(OneNumber(key, nf.show(f)))
  {
    var ms := [Field(key, Num(f))];
    assert ms[1..] == [];
    assert CompactMembers(nf, ms) == [Member("", PiecesFor(key), "", Compact(nf, Num(f)))];
  }

  lemma OneNumberParses(nf: NumberFormat, key: string, literal: string, f: Float)
    requires IsNumber(literal) && nf.read(literal) == Some(f)
    ensures ParseText(nf, Render(OneNumber(key, literal))) == Some(Obj([Field(key, Num(f))]))
  {
    hide IsNumber;
    var value := Layout("", NumberNode(literal), "");
    NumberLayout(nf, literal, f);
    OneMemberParses(nf, key, value);
    ParseRender(nf, OneNumber(key, literal));
  }

  lemma NumberLayout(nf: NumberFormat, literal: string, f: Float)
    requires IsNumber(literal) && nf.read(literal) == Some(f)
    ensures var l := Layout("", NumberNode(literal), ""); Valid(nf, l) && Tree(nf, l) == Num(f)
  {
    hide IsNumber;
    assert AllSpace("") && ValidNode(nf, NumberNode(literal));
  }

  lemma OneMemberParses(nf: NumberFormat, key: string, value: Layout)
    requires Valid(nf, value)
    ensures var l := Layout("", ObjectNode("", [Member("", PiecesFor(key), "", value)]), "");
      Valid(nf, l) && Tree(nf, l) == Obj([Field(key, Tree(nf, value))])
  {
    PiecesForRoundTrip(key);
    hide PiecesFor, ValidPieces, PiecesText;
    var m := Member("", PiecesFor(key), "", value);
    var members := [m];
    assert ValidMember(nf, m) && MemberTree(nf, m) == Field(key, Tree(nf, value));
    assert members[1..] == [] && members[0] == m;
    assert ValidMembers(nf, members[1..]) && MemberTrees(nf, members[1..]) == [];
    assert ValidMembers(nf, members) && MemberTrees(nf, members) == [MemberTree(nf, m)] + [];
  }

  /** Every event's metadata can be canonicalized: only stored rows can fail to be. */
  lemma EventMetadataAlwaysCanonicalizes(nf: NumberFormat, m: Option<Members>)
    requires nf.Lawful()
    ensures CanonicalizeEventMetadata(nf, m).Ok?
  {
    if m.Some? {
      MarshalRoundTrip(nf, Normalize(Obj(m.value)));
    } else {
      assert SkipSpace("null") == "null" && "null"[..4] == "null" && "null"[4..] == "";
    }
  }

  // ---- canonical forms are single lines ----

  predicate NoControl(s: string) {
    forall i :: 0 <= i < |s| ==> s[i] >= ' '
  }

  lemma NumberTextNoControl(nf: NumberFormat, f: Float)
    requires nf.Lawful()
    ensures NoControl(nf.show(f))
  {
    assert IsNumber(nf.show(f));
    NumberChars(nf.show(f));
  }

  lemma {:induction false} PiecesNoControl(s: string, k: string)
    requires NoControl(k)
    ensures NoControl(PiecesThen(PiecesFor(s), k))
  {
    if |s| > 0 {
      PiecesNoControl(s[1..], k);
      assert PiecesFor(s)[1..] == PiecesFor(s[1..]);
      PieceNoControl(s[0], PiecesThen(PiecesFor(s[1..]), k));
    }
  }

  lemma Concatenation(a: string, b: string)
    requires NoControl(a) && NoControl(b)
    ensures NoControl(a + b)
  {}

  lemma Hex4NoControl(n: nat)
    requires n < 0x10000
    ensures NoControl(Hex4(n))
  {}

  lemma PieceNoControl(c: char, k: string)
    requires NoControl(k)
    ensures NoControl(PieceThen(PieceFor(c), k))
  {
    hide Hex4;
    var p := PieceFor(c);
    match p
    case Raw(d) => Concatenation([d], k);
    case Escape(d) => Concatenation(['\\', d], k);
    case Unicode(digits) =>
      Hex4NoControl(c as nat);
      Concatenation("\\u", digits);
      Concatenation("\\u" + digits, k);
  }

  lemma {:induction false} CompactNoControl(nf: NumberFormat, v: Json, k: string)
    requires nf.Lawful() && NoControl(k)
    ensures NoControl(Then(Compact(nf, v), k))
    decreases v, 1
  {
    var n := Compact(nf, v).node;
    assert "" + NodeThen(n, "" + k) == NodeThen(n, k) by { assert "" + k == k; }
    NodeNoControl(nf, v, k);
  }

  lemma {:induction false} NodeNoControl(nf: NumberFormat, v: Json, k: string)
    requires nf.Lawful() && NoControl(k)
    ensures NoControl(NodeThen(Compact(nf, v).node, k))
    decreases v, 0
  {
    match v
    case Null => Concatenation("null", k);
    case Bool(b) => Concatenation(if b then "true" else "false", k);
    case Num(f) =>
      NumberTextNoControl(nf, f);
      Concatenation(nf.show(f), k);
    case Str(s) =>
      PiecesNoControl(s, k);
      Concatenation("\"", PiecesThen(PiecesFor(s), k));
    case Arr(items) =>
      if |items| > 0 {
        ItemsNoControl(nf, items, k);
        Concatenation("[", ItemsThen(CompactItems(nf, items), k));
      } else {
        Concatenation("[" + ("" + "]"), k);
      }
    case Obj(ms) =>
      if |ms| > 0 {
        MembersNoControl(nf, ms, k);
        Concatenation("{", MembersThen(CompactMembers(nf, ms), k));
      } else {
        Concatenation("{" + ("" + "}"), k);
      }
  }

  lemma {:induction false} ItemsNoControl(nf: NumberFormat, items: seq<Json>, k: string)
    requires nf.Lawful() && NoControl(k) && |items| > 0
    ensures NoControl(ItemsThen(CompactItems(nf, items), k))
    decreases items, 0
  {
    var c := CompactItems(nf, items);
    assert c[1..] == CompactItems(nf, items[1..]);
    if |items| == 1 {
      Concatenation("]", k);
      CompactNoControl(nf, items[0], "]" + k);
    } else {
      ItemsNoControl(nf, items[1..], k);
      Concatenation(",", ItemsThen(c[1..], k));
      CompactNoControl(nf, items[0], "," + ItemsThen(c[1..], k));
    }
    hide NoControl, Then;
  }

  lemma {:induction false} MembersNoControl(nf: NumberFormat, ms: Members, k: string)
    requires nf.Lawful() && NoControl(k) && |ms| > 0
    ensures NoControl(MembersThen(CompactMembers(nf, ms), k))
    decreases ms, 0
  {
    var c := CompactMembers(nf, ms);
    assert c[1..] == CompactMembers(nf, ms[1..]);
    if |ms| == 1 {
      Concatenation("}", k);
      MemberNoControl(nf, ms[0], "}" + k);
    } else {
      MembersNoControl(nf, ms[1..], k);
      Concatenation(",", MembersThen(c[1..], k));
      MemberNoControl(nf, ms[0], "," + MembersThen(c[1..], k));
    }
    hide NoControl, MemberThen;
  }

  lemma {:induction false} MemberNoControl(nf: NumberFormat, m: Field, k: string)
    requires nf.Lawful() && NoControl(k)
    ensures NoControl(MemberThen(Member("", PiecesFor(m.key), "", Compact(nf, m.value)), k))
    decreases m, 2
  {
    hide NoControl, Compact;
    var value := Then(Compact(nf, m.value), k);
    CompactNoControl(nf, m.value, k);
    Colon();
    Concatenation(":", value);
    PiecesNoControl(m.key, ":" + value);
    Concatenation("\"", PiecesThen(PiecesFor(m.key), ":" + value));
    assert "" + (":" + value) == ":" + value;
    var text := "\"" + PiecesThen(PiecesFor(m.key), ":" + value);
    assert "" + text == text;
  }

  lemma Colon()
    ensures NoControl(":") && NoControl("\"")
  {}

  /** A canonical form never contains a newline, so it occupies one line of the hash preimage. */
  lemma CanonicalFormIsOneLine(nf: NumberFormat, raw: string)
    requires nf.Lawful() && CanonicalizeMetadata(nf, raw).Ok?
    ensures OneLine(CanonicalizeMetadata(nf, raw).value)
  {
    match ParseText(nf, raw)
    case Some(Obj(ms)) => CompactNoControl(nf, Normalize(Obj(ms)), "");
    case _ =>
  }
}
