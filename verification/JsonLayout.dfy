/** Every way of laying a JSON value out as text, and the proof that parsing recovers the value
    whatever layout was chosen. */
module JsonLayout {
  import opened Outcomes
  import opened Text
  import opened Json

  /** One character of a string literal: as itself, as a two-character escape, as `\uXXXX`, or as two of those that
      form a surrogate pair. A surrogate that is not part of a pair stands for the replacement character. */
  datatype Piece = Raw(c: char) | Escape(c: char) | Unicode(digits: string) | Pair(high: string, low: string)

  /** A value with the white space around it. */
  datatype Layout = Layout(before: string, node: Node, after: string)

  datatype Node =
    | NullNode
    | TrueNode
    | FalseNode
    | NumberNode(lit: string)
    | StringNode(pieces: seq<Piece>)
    | ArrayNode(inner: string, items: seq<Layout>)
    | ObjectNode(inner: string, members: seq<Member>)

  /** An object member; `inner` above is the white space inside an empty array or object. */
  datatype Member = Member(before: string, key: seq<Piece>, colon: string, value: Layout)

  predicate ValidPiece(p: Piece) {
    match p
    case Raw(c) => c >= ' ' && c != '\"' && c != '\\'
    case Escape(c) => Unescape(c).Some?
    case Unicode(d) => |d| == 4 && CodeUnit(d).Some?
    case Pair(h, l) => |h| == 4 && |l| == 4 && IsHigh(CodeUnit(h)) && IsLow(CodeUnit(l))
  }

  predicate IsHigh(unit: Option<nat>) {
    unit.Some? && 0xD800 <= unit.value < 0xDC00
  }

  predicate IsLow(unit: Option<nat>) {
    unit.Some? && 0xDC00 <= unit.value < 0xE000
  }

  /** Written one after the other, the two would be read as a pair. */
  predicate Merge(p: Piece, q: Piece) {
    p.Unicode? && q.Unicode? && IsHigh(CodeUnit(p.digits)) && IsLow(CodeUnit(q.digits))
  }

  predicate ValidPieces(ps: seq<Piece>) {
    |ps| > 0 ==> ValidPiece(ps[0]) && ValidPieces(ps[1..]) && (|ps| > 1 ==> !Merge(ps[0], ps[1]))
  }

  predicate Valid(nf: NumberFormat, l: Layout)
    decreases l, 1
  {
    AllSpace(l.before) && AllSpace(l.after) && ValidNode(nf, l.node)
  }

  predicate ValidNode(nf: NumberFormat, n: Node)
    decreases n, 1
  {
    match n
    case NumberNode(lit) => IsNumber(lit) && nf.read(lit).Some?
    case StringNode(ps) => ValidPieces(ps)
    case ArrayNode(inner, items) => AllSpace(inner) && ValidItems(nf, items)
    case ObjectNode(inner, members) => AllSpace(inner) && ValidMembers(nf, members)
    case _ => true
  }

  predicate ValidItems(nf: NumberFormat, items: seq<Layout>)
    decreases items, 0
  {
    |items| > 0 ==> Valid(nf, items[0]) && ValidItems(nf, items[1..])
  }

  predicate ValidMembers(nf: NumberFormat, members: seq<Member>)
    decreases members, 0
  {
    |members| > 0 ==>
      ValidMember(nf, members[0]) && ValidMembers(nf, members[1..])
  }

  predicate ValidMember(nf: NumberFormat, m: Member)
    decreases m, 1
  {
    AllSpace(m.before) && AllSpace(m.colon) && ValidPieces(m.key) && Valid(nf, m.value)
  }

  // ---- the value a layout writes down ----

  function PieceChar(p: Piece): char
    requires ValidPiece(p)
  {
    match p
    case Raw(c) => c
    case Escape(c) => Unescape(c).value
    case Unicode(d) => if IsSurrogate(CodeUnit(d).value) then '\U{FFFD}' else CodeUnit(d).value as char
    case Pair(h, l) => (0x10000 + 1024 * (CodeUnit(h).value - 0xD800) + (CodeUnit(l).value - 0xDC00)) as char
  }

  function PiecesText(ps: seq<Piece>): string
    requires ValidPieces(ps)
  {
    if |ps| == 0 then "" else [PieceChar(ps[0])] + PiecesText(ps[1..])
  }

  function Tree(nf: NumberFormat, l: Layout): Json
    requires Valid(nf, l)
    decreases l, 1
  {
    NodeTree(nf, l.node)
  }

  function NodeTree(nf: NumberFormat, n: Node): Json
    requires ValidNode(nf, n)
    decreases n, 1
  {
    match n
    case NullNode => Null
    case TrueNode => Bool(true)
    case FalseNode => Bool(false)
    case NumberNode(lit) => Num(nf.read(lit).value)
    case StringNode(ps) => Str(PiecesText(ps))
    case ArrayNode(_, items) => Arr(Trees(nf, items))
    case ObjectNode(_, members) => Obj(MemberTrees(nf, members))
  }

  function Trees(nf: NumberFormat, items: seq<Layout>): (r: seq<Json>)
    requires ValidItems(nf, items)
    decreases items, 0
  {
    if |items| == 0 then [] else [Tree(nf, items[0])] + Trees(nf, items[1..])
  }

  function MemberTrees(nf: NumberFormat, members: seq<Member>): (r: seq<Field>)
    requires ValidMembers(nf, members)
    decreases members, 0
  {
    if |members| == 0 then []
    else [MemberTree(nf, members[0])] + MemberTrees(nf, members[1..])
  }

  function MemberTree(nf: NumberFormat, m: Member): Field
    requires ValidMember(nf, m)
    decreases m, 1
  {
    Field(PiecesText(m.key), Tree(nf, m.value))
  }

  // ---- the text a layout stands for, followed by `k` ----

  function PieceThen(p: Piece, k: string): string {
    match p
    case Raw(c) => [c] + k
    case Escape(c) => ['\\', c] + k
    case Unicode(d) => "\\u" + d + k
    case Pair(h, l) => "\\u" + h + ("\\u" + l + k)
  }

  function PiecesThen(ps: seq<Piece>, k: string): string {
    if |ps| == 0 then "\"" + k else PieceThen(ps[0], PiecesThen(ps[1..], k))
  }

  function Then(l: Layout, k: string): string
    decreases l, 1
  {
    l.before + NodeThen(l.node, l.after + k)
  }

  function NodeThen(n: Node, k: string): string
    decreases n, 1
  {
    match n
    case NullNode => "null" + k
    case TrueNode => "true" + k
    case FalseNode => "false" + k
    case NumberNode(lit) => lit + k
    case StringNode(ps) => "\"" + PiecesThen(ps, k)
    case ArrayNode(inner, items) => "[" + (if |items| == 0 then inner + "]" + k else ItemsThen(items, k))
    case ObjectNode(inner, members) => "{" + (if |members| == 0 then inner + "}" + k else MembersThen(members, k))
  }

  function ItemsThen(items: seq<Layout>, k: string): string
    requires |items| > 0
    decreases items, 0
  {
    Then(items[0], if |items| == 1 then "]" + k else "," + ItemsThen(items[1..], k))
  }

  function MembersThen(members: seq<Member>, k: string): string
    requires |members| > 0
    decreases members, 0
  {
    MemberThen(members[0], if |members| == 1 then "}" + k else "," + MembersThen(members[1..], k))
  }

  function MemberThen(m: Member, k: string): string
    decreases m, 1
  {
    m.before + ("\"" + PiecesThen(m.key, m.colon + (":" + Then(m.value, k))))
  }

  function Render(l: Layout): string {
    Then(l, "")
  }

  // ---- lexical lemmas ----

  lemma {:induction false} SkipSpaceOver(w: string, s: string)
    requires AllSpace(w)
    ensures SkipSpace(w + s) == SkipSpace(s)
  {
    if |w| == 0 {
      assert w + s == s;
    } else {
      assert (w + s)[1..] == w[1..] + s;
      SkipSpaceOver(w[1..], s);
    }
  }

  lemma {:induction false} NumberRunOver(lit: string, k: string)
    requires AllNumberChars(lit)
    requires |k| > 0 ==> !IsNumberChar(k[0])
    ensures NumberRun(lit + k) == |lit|
  {
    if |lit| == 0 {
      assert lit + k == k;
    } else {
      assert (lit + k)[1..] == lit[1..] + k;
      NumberRunOver(lit[1..], k);
    }
  }

  predicate AllNumberChars(s: string) {
    forall i :: 0 <= i < |s| ==> IsNumberChar(s[i])
  }

  lemma NumberCharsSplit(s: string, k: nat)
    requires k <= |s| && AllNumberChars(s[..k]) && AllNumberChars(s[k..])
    ensures AllNumberChars(s)
  {
    assert forall i :: 0 <= i < k ==> s[i] == s[..k][i];
    assert forall i :: k <= i < |s| ==> s[i] == s[k..][i - k];
  }

  lemma ExponentChars(s: string)
    requires IsExponent(s)
    ensures AllNumberChars(s)
  {
    if |s| > 1 && (s[1] == '+' || s[1] == '-') {
      NumberCharsSplit(s, 2);
    } else if |s| > 0 {
      NumberCharsSplit(s, 1);
    }
  }

  lemma DigitsThen(s: string)
    requires AllNumberChars(s[DigitRun(s)..])
    ensures AllNumberChars(s)
  {
    NumberCharsSplit(s, DigitRun(s));
  }

  lemma FractionChars(s: string)
    requires IsFraction(s)
    ensures AllNumberChars(s)
  {
    if |s| > 0 && s[0] == '.' {
      var t := s[1..];
      var k := DigitRun(t);
      assert s[1 + k..] == t[k..];
      ExponentChars(t[k..]);
      DigitsThen(t);
      NumberCharsSplit(s, 1);
    } else {
      ExponentChars(s);
    }
  }

  /** A JSON number consists of number characters and starts with a digit or a minus sign. */
  lemma NumberChars(s: string)
    requires IsNumber(s)
    ensures |s| > 0 && (IsDigit(s[0]) || s[0] == '-')
    ensures AllNumberChars(s)
  {
    var t := if |s| > 0 && s[0] == '-' then s[1..] else s;
    FractionChars(t[DigitRun(t)..]);
    DigitsThen(t);
    if t != s {
      NumberCharsSplit(s, 1);
    }
  }

  lemma {:induction false} ParsePieces(ps: seq<Piece>, k: string)
    requires ValidPieces(ps)
    ensures ParseString(PiecesThen(ps, k)) == Some((PiecesText(ps), k))
  {
    hide ValidPiece, PieceChar, PieceThen, Merge;
    if |ps| == 0 {
      assert ("\"" + k)[1..] == k;
    } else {
      ParsePieces(ps[1..], k);
      NextUnitIsNotLow(ps, k);
      ParsePiece(ps[0], PiecesThen(ps[1..], k));
    }
  }

  /** The code unit that a text begins with, written as an escape. */
  function LeadingUnit(s: string): Option<nat> {
    if |s| >= 2 && s[..2] == "\\u" then CodeUnit(s[2..]) else None
  }

  /** A piece is read as a unit with what follows only if the two merge. */
  predicate StandsBefore(p: Piece, rest: string) {
    p.Unicode? && IsHigh(CodeUnit(p.digits)) ==> !IsLow(LeadingUnit(rest))
  }

  lemma NextUnitIsNotLow(ps: seq<Piece>, k: string)
    requires |ps| > 0 && ValidPieces(ps)
    ensures StandsBefore(ps[0], PiecesThen(ps[1..], k))
  {
    var rest := PiecesThen(ps[1..], k);
    if |ps| > 1 {
      var after := PiecesThen(ps[1..][1..], k);
      assert ps[1] == ps[1..][0] && rest == PieceThen(ps[1], after);
      LeadingUnitOfPiece(ps[1], after);
    } else {
      assert rest == "\"" + k && rest[0] != "\\u"[0];
      assert |rest| >= 2 ==> rest[..2][0] == rest[0];
    }
  }

  lemma LeadingUnitOfPiece(p: Piece, k: string)
    requires ValidPiece(p)
    ensures LeadingUnit(PieceThen(p, k)) ==
      match p { case Unicode(d) => CodeUnit(d) case Pair(h, _) => CodeUnit(h) case _ => None }
  {
    var s := PieceThen(p, k);
    match p
    case Raw(c) => assert s[0] == c;
    case Escape(c) =>
      assert Unescape('u').None? && s[1] == c;
    case Unicode(d) => LeadingUnitOf(d, k);
    case Pair(h, l) => LeadingUnitOf(h, "\\u" + l + k);
  }

  lemma LeadingUnitOf(d: string, k: string)
    requires |d| == 4
    ensures LeadingUnit("\\u" + d + k) == CodeUnit(d)
  {
    var s := "\\u" + d + k;
    assert s[..2] == "\\u" && s[2..] == d + k;
    CodeUnitOfPrefix(d, k);
  }

  lemma ParsePiece(p: Piece, rest: string)
    requires ValidPiece(p) && StandsBefore(p, rest)
    ensures ParseString(PieceThen(p, rest)) == Cons(PieceChar(p), ParseString(rest))
  {
    var s := PieceThen(p, rest);
    match p
    case Raw(c) =>
      hide CodeUnit, Unescape;
      assert s[1..] == rest;
    case Escape(c) =>
      hide CodeUnit;
      assert s[2..] == rest && Unescape('u').None?;
    case Unicode(d) => ParseUnicode(d, rest);
    case Pair(h, l) => ParsePair(h, l, rest);
  }

  lemma ParseUnicode(d: string, rest: string)
    requires ValidPiece(Unicode(d)) && StandsBefore(Unicode(d), rest)
    ensures ParseString("\\u" + d + rest) == Cons(PieceChar(Unicode(d)), ParseString(rest))
  {
    var s := "\\u" + d + rest;
    assert s[6..] == rest && s[2..] == d + rest;
    CodeUnitOfPrefix(d, rest);
    if |rest| >= 2 {
      assert s[6..8] == rest[..2] && s[8..] == rest[2..];
    }
    hide CodeUnit, Unescape;
  }

  lemma ParsePair(h: string, l: string, rest: string)
    requires ValidPiece(Pair(h, l))
    ensures ParseString("\\u" + h + ("\\u" + l + rest)) == Cons(PieceChar(Pair(h, l)), ParseString(rest))
  {
    var s := "\\u" + h + ("\\u" + l + rest);
    assert s[2..] == h + ("\\u" + l + rest) && s[6..8] == "\\u" && s[8..] == l + rest && s[12..] == rest;
    CodeUnitOfPrefix(h, "\\u" + l + rest);
    CodeUnitOfPrefix(l, rest);
    hide CodeUnit, Unescape;
  }

  lemma CodeUnitOfPrefix(d: string, rest: string)
    requires |d| == 4
    ensures CodeUnit(d + rest) == CodeUnit(d)
  {}

  // ---- the parser recovers the value from any layout ----

  predicate Delimited(k: string) {
    |k| > 0 ==> !IsNumberChar(k[0])
  }

  lemma {:induction false} ParseLayout(nf: NumberFormat, l: Layout, k: string)
    requires Valid(nf, l) && Delimited(k)
    ensures ParseValue(nf, Then(l, k)) == Some((Tree(nf, l), l.after + k))
    decreases l, 1
  {
    var body := NodeThen(l.node, l.after + k);
    SkipSpaceOver(l.before, body);
    FirstOfNode(nf, l.node, l.after + k);
    ParseNode(nf, l.node, l.after + k);
  }

  /** A value starts with neither white space nor a closing bracket. */
  lemma FirstOfNode(nf: NumberFormat, n: Node, k: string)
    requires ValidNode(nf, n)
    ensures |NodeThen(n, k)| > 0
    ensures !IsSpace(NodeThen(n, k)[0]) && NodeThen(n, k)[0] != ']' && NodeThen(n, k)[0] != '}'
  {
    if n.NumberNode? {
      NumberChars(n.lit);
      assert NodeThen(n, k)[0] == n.lit[0];
    }
  }

  lemma ParseNode(nf: NumberFormat, n: Node, k: string)
    requires ValidNode(nf, n) && Delimited(k)
    ensures ParseToken(nf, NodeThen(n, k)) == Some((NodeTree(nf, n), k))
    decreases n, 1
  {
    match n
    case NumberNode(lit) => ParseNumberNode(nf, lit, k);
    case StringNode(ps) =>
      ParsePieces(ps, k);
      assert NodeThen(n, k)[1..] == PiecesThen(ps, k);
    case ArrayNode(inner, items) => ParseArrayNode(nf, inner, items, k);
    case ObjectNode(inner, members) => ParseObjectNode(nf, inner, members, k);
    case _ => ParseWord(nf, n, k);
  }

  lemma ParseWord(nf: NumberFormat, n: Node, k: string)
    requires n.NullNode? || n.TrueNode? || n.FalseNode?
    ensures ParseToken(nf, NodeThen(n, k)) == Some((NodeTree(nf, n), k))
  {
    var body := NodeThen(n, k);
    if n.NullNode? {
      assert body[..4] == "null" && body[4..] == k;
    } else if n.TrueNode? {
      assert body[..4] == "true" && body[4..] == k;
    } else {
      assert body[..5] == "false" && body[5..] == k;
    }
  }

  lemma ParseArrayNode(nf: NumberFormat, inner: string, items: seq<Layout>, k: string)
    requires AllSpace(inner) && ValidItems(nf, items)
    ensures ParseToken(nf, NodeThen(ArrayNode(inner, items), k)) == Some((Arr(Trees(nf, items)), k))
    decreases items, 1
  {
    var body := NodeThen(ArrayNode(inner, items), k);
    if |items| == 0 {
      assert body[1..] == inner + ("]" + k);
      SkipSpaceOver(inner, "]" + k);
      assert ("]" + k)[1..] == k;
    } else {
      assert body[1..] == ItemsThen(items, k);
      ParseItemsLayout(nf, items, k);
    }
  }

  lemma ParseObjectNode(nf: NumberFormat, inner: string, members: seq<Member>, k: string)
    requires AllSpace(inner) && ValidMembers(nf, members)
    ensures ParseToken(nf, NodeThen(ObjectNode(inner, members), k)) == Some((Obj(MemberTrees(nf, members)), k))
    decreases members, 1
  {
    var body := NodeThen(ObjectNode(inner, members), k);
    if |members| == 0 {
      assert body[1..] == inner + ("}" + k);
      SkipSpaceOver(inner, "}" + k);
      assert ("}" + k)[1..] == k;
    } else {
      assert body[1..] == MembersThen(members, k);
      ParseMembersLayout(nf, members, k);
    }
  }

  lemma ParseNumberNode(nf: NumberFormat, lit: string, k: string)
    requires ValidNode(nf, NumberNode(lit)) && Delimited(k)
    ensures ParseToken(nf, lit + k) == Some((Num(nf.read(lit).value), k))
  {
    var body := lit + k;
    NumberChars(lit);
    NumberRunOver(lit, k);
    assert body[..|lit|] == lit && body[|lit|..] == k;
    hide IsNumber, NumberRun, ParseToken;
    NumberToken(nf, body, |lit|);
  }

  /** A token that starts like a number is one, if the run of number characters is. */
  lemma NumberToken(nf: NumberFormat, t: string, k: nat)
    requires 0 < k <= |t| && (IsDigit(t[0]) || t[0] == '-') && NumberRun(t) == k && IsNumber(t[..k]) && nf.read(t[..k]).Some?
    ensures ParseToken(nf, t) == Some((Num(nf.read(t[..k]).value), t[k..]))
  {
    hide IsNumber, NumberRun, ParseString, ParseItems, ParseMembers, SkipSpace, StartsWith;
    assert !StartsWith(t, "null") && !StartsWith(t, "true") && !StartsWith(t, "false");
  }

  lemma {:induction false} ParseItemsLayout(nf: NumberFormat, items: seq<Layout>, k: string)
    requires |items| > 0 && ValidItems(nf, items)
    ensures ParseItems(nf, ItemsThen(items, k)) == Some((Trees(nf, items), k))
    ensures !Begins(SkipSpace(ItemsThen(items, k)), ']')
    decreases items, 0
  {
    var l := items[0];
    var tail := if |items| == 1 then "]" + k else "," + ItemsThen(items[1..], k);
    ParseLayout(nf, l, tail);
    SkipSpaceOver(l.before, NodeThen(l.node, l.after + tail));
    FirstOfNode(nf, l.node, l.after + tail);
    SkipSpaceOver(l.after, tail);
    assert SkipSpace(tail) == tail;
    if |items| == 1 {
      assert tail[1..] == k;
      assert Trees(nf, items) == [Tree(nf, l)] + Trees(nf, items[1..]) == [Tree(nf, l)];
    } else {
      ParseItemsLayout(nf, items[1..], k);
      assert tail[1..] == ItemsThen(items[1..], k);
    }
  }

  lemma ParseMemberLayout(nf: NumberFormat, m: Member, k: string)
    requires ValidMember(nf, m) && Delimited(k)
    ensures ParseMember(nf, MemberThen(m, k)) == Some((MemberTree(nf, m), m.value.after + k))
    ensures AllSpace(m.value.after)
    ensures Begins(SkipSpace(MemberThen(m, k)), '\"')
    decreases m, 1
  {
    var colon := ":" + Then(m.value, k);
    var q := "\"" + PiecesThen(m.key, m.colon + colon);
    SkipSpaceOver(m.before, q);
    assert q[1..] == PiecesThen(m.key, m.colon + colon) && SkipSpace(q) == q;
    ParsePieces(m.key, m.colon + colon);
    SkipSpaceOver(m.colon, colon);
    assert colon[1..] == Then(m.value, k) && SkipSpace(colon) == colon;
    ParseLayout(nf, m.value, k);
  }

  lemma {:induction false} ParseMembersLayout(nf: NumberFormat, members: seq<Member>, k: string)
    requires |members| > 0 && ValidMembers(nf, members)
    ensures ParseMembers(nf, MembersThen(members, k)) == Some((MemberTrees(nf, members), k))
    ensures !Begins(SkipSpace(MembersThen(members, k)), '}')
    decreases members, 0
  {
    var m := members[0];
    var tail := if |members| == 1 then "}" + k else "," + MembersThen(members[1..], k);
    ParseMemberLayout(nf, m, tail);
    SkipSpaceOver(m.value.after, tail);
    assert SkipSpace(tail) == tail;
    var one := MemberTree(nf, m);
    if |members| == 1 {
      assert tail[1..] == k;
      assert MemberTrees(nf, members) == [one] + MemberTrees(nf, members[1..]) == [one];
    } else {
      ParseMembersLayout(nf, members[1..], k);
      assert tail[1..] == MembersThen(members[1..], k);
    }
  }

  /** Parsing recovers the value from every layout of it. */
  lemma ParseRender(nf: NumberFormat, l: Layout)
    requires Valid(nf, l)
    ensures ParseText(nf, Render(l)) == Some(Tree(nf, l))
  {
    ParseLayout(nf, l, "");
    SkipSpaceOver(l.after, "");
  }
}
