/** The parser accepts nothing but layouts: every text that parses is one way of writing its value down. */
module JsonGrammar {
  import opened Outcomes
  import opened Text
  import opened Json
  import opened JsonLayout

  lemma {:induction false} SpaceBefore(s: string) returns (w: string)
    ensures AllSpace(w) && s == w + SkipSpace(s)
  {
    if |s| > 0 && IsSpace(s[0]) {
      var v := SpaceBefore(s[1..]);
      w := [s[0]] + v;
    } else {
      w := "";
    }
  }

  // ---- string literals ----

  /** `ps` writes down the literal that the parser reads from `s`. */
  predicate Writes(ps: seq<Piece>, s: string) {
    var r := ParseString(s);
    r.Some? && ValidPieces(ps) && PiecesText(ps) == r.value.0 && PiecesThen(ps, r.value.1) == s
  }

  lemma PrependPiece(p: Piece, ps: seq<Piece>, rest: string)
    requires ValidPiece(p) && StandsBefore(p, rest) && Writes(ps, rest)
    ensures Writes([p] + ps, PieceThen(p, rest))
  {
    ParsePiece(p, rest);
    var all := [p] + ps;
    assert all[1..] == ps;
    if |ps| > 0 {
      LeadingUnitOfPiece(ps[0], PiecesThen(ps[1..], ParseString(rest).value.1));
    }
    hide ValidPiece, PieceChar, PieceThen, ParseString;
  }

  lemma {:induction false} ParsedString(s: string) returns (ps: seq<Piece>)
    requires ParseString(s).Some?
    ensures Writes(ps, s)
    decreases |s|
  {
    if s[0] == '\"' {
      ps := [];
      assert s == "\"" + s[1..];
    } else if s[0] != '\\' {
      var qs := ParsedString(s[1..]);
      PrependPiece(Raw(s[0]), qs, s[1..]);
      assert PieceThen(Raw(s[0]), s[1..]) == s;
      ps := [Raw(s[0])] + qs;
    } else if s[1] != 'u' {
      var qs := ParsedString(s[2..]);
      PrependPiece(Escape(s[1]), qs, s[2..]);
      assert PieceThen(Escape(s[1]), s[2..]) == s;
      ps := [Escape(s[1])] + qs;
    } else {
      ps := ParsedUnicode(s);
    }
  }

  lemma ParsedUnicode(s: string) returns (ps: seq<Piece>)
    requires ParseString(s).Some? && |s| >= 2 && s[0] == '\\' && s[1] == 'u'
    ensures Writes(ps, s)
    decreases |s|, 0
  {
    var d, rest := s[2..6], s[6..];
    assert s[2..] == d + rest;
    CodeUnitOfPrefix(d, rest);
    assert s == "\\u" + d + rest;
    if IsHigh(CodeUnit(d)) && IsLow(LeadingUnit(rest)) {
      var l, more := rest[2..6], rest[6..];
      assert rest[2..] == l + more && rest == "\\u" + l + more;
      CodeUnitOfPrefix(l, more);
      ParsePair(d, l, more);
      assert PieceThen(Pair(d, l), more) == s;
      var qs := ParsedString(more);
      PrependPiece(Pair(d, l), qs, more);
      ps := [Pair(d, l)] + qs;
    } else {
      assert StandsBefore(Unicode(d), rest) && ValidPiece(Unicode(d));
      ParseUnicode(d, rest);
      var qs := ParsedString(rest);
      PrependPiece(Unicode(d), qs, rest);
      ps := [Unicode(d)] + qs;
    }
  }

  // ---- values ----

  /** The white space behind a layout, moved into it. */
  lemma SpaceBehind(nf: NumberFormat, l: Layout, w: string, k: string)
    requires Valid(nf, l) && l.after == "" && AllSpace(w)
    ensures var m := l.(after := w); Valid(nf, m) && Tree(nf, m) == Tree(nf, l) && Then(m, k) == Then(l, w + k)
  {
    assert "" + (w + k) == w + k;
  }

  lemma {:induction false} ParsedValue(nf: NumberFormat, s: string) returns (l: Layout)
    requires ParseValue(nf, s).Some?
    ensures var r := ParseValue(nf, s).value; Valid(nf, l) && l.after == "" && Tree(nf, l) == r.0 && Then(l, r.1) == s
    decreases |s|, 3
  {
    var w := SpaceBefore(s);
    var n := ParsedToken(nf, SkipSpace(s));
    var r := ParseValue(nf, s).value;
    l := Layout(w, n, "");
    assert AllSpace("") && "" + r.1 == r.1;
  }

  lemma {:induction false} ParsedToken(nf: NumberFormat, t: string) returns (n: Node)
    requires ParseToken(nf, t).Some?
    ensures var r := ParseToken(nf, t).value; ValidNode(nf, n) && NodeTree(nf, n) == r.0 && NodeThen(n, r.1) == t
    decreases |t|, 2
  {
    if t[0] == '{' {
      n := ParsedObject(nf, t);
    } else if t[0] == '[' {
      n := ParsedArray(nf, t);
    } else if t[0] == '\"' {
      var ps := ParsedString(t[1..]);
      n := StringNode(ps);
      assert t == "\"" + t[1..];
    } else {
      n := ParsedWord(nf, t);
    }
  }

  lemma ParsedWord(nf: NumberFormat, t: string) returns (n: Node)
    requires ParseToken(nf, t).Some? && t[0] != '{' && t[0] != '[' && t[0] != '\"'
    ensures var r := ParseToken(nf, t).value; ValidNode(nf, n) && NodeTree(nf, n) == r.0 && NodeThen(n, r.1) == t
  {
    if StartsWith(t, "null") {
      n := NullNode;
      assert t == t[..4] + t[4..];
    } else if StartsWith(t, "true") {
      n := TrueNode;
      assert t == t[..4] + t[4..];
    } else if StartsWith(t, "false") {
      n := FalseNode;
      assert t == t[..5] + t[5..];
    } else {
      var k := NumberRun(t);
      n := NumberNode(t[..k]);
      assert t == t[..k] + t[k..];
    }
  }

  lemma {:induction false} ParsedObject(nf: NumberFormat, t: string) returns (n: Node)
    requires ParseToken(nf, t).Some? && t[0] == '{'
    ensures var r := ParseToken(nf, t).value; ValidNode(nf, n) && NodeTree(nf, n) == r.0 && NodeThen(n, r.1) == t
    decreases |t|, 1
  {
    var u := SkipSpace(t[1..]);
    assert t == "{" + t[1..];
    if Begins(u, '}') {
      var w := SpaceBefore(t[1..]);
      n := ObjectNode(w, []);
      assert u == "}" + u[1..] && w + "}" + u[1..] == w + u;
    } else {
      var members := ParsedMembers(nf, t[1..]);
      n := ObjectNode("", members);
      assert AllSpace("");
    }
  }

  lemma {:induction false} ParsedArray(nf: NumberFormat, t: string) returns (n: Node)
    requires ParseToken(nf, t).Some? && t[0] == '['
    ensures var r := ParseToken(nf, t).value; ValidNode(nf, n) && NodeTree(nf, n) == r.0 && NodeThen(n, r.1) == t
    decreases |t|, 1
  {
    var u := SkipSpace(t[1..]);
    assert t == "[" + t[1..];
    if Begins(u, ']') {
      var w := SpaceBefore(t[1..]);
      n := ArrayNode(w, []);
      assert u == "]" + u[1..] && w + "]" + u[1..] == w + u;
    } else {
      var items := ParsedItems(nf, t[1..]);
      n := ArrayNode("", items);
      assert AllSpace("");
    }
  }

  lemma {:induction false} ParsedItems(nf: NumberFormat, s: string) returns (items: seq<Layout>)
    requires ParseItems(nf, s).Some?
    ensures var r := ParseItems(nf, s).value;
      |items| > 0 && ValidItems(nf, items) && Trees(nf, items) == r.0 && ItemsThen(items, r.1) == s
    decreases |s|, 4
  {
    var v := ParseValue(nf, s).value;
    var first := ParsedValue(nf, s);
    var w := SpaceBefore(v.1);
    var t := SkipSpace(v.1);
    SpaceBehind(nf, first, w, t);
    first := first.(after := w);
    hide ParseString, ParseValue, SkipSpace, Tree, Valid;
    if Begins(t, ']') {
      items := [first];
      assert t == "]" + t[1..] && items[1..] == [];
    } else {
      var rest := ParsedItems(nf, t[1..]);
      items := [first] + rest;
      assert t == "," + t[1..] && items[1..] == rest;
    }
  }

  /** What a member that parses consists of. */
  lemma MemberParts(nf: NumberFormat, s: string)
    requires ParseMember(nf, s).Some?
    ensures var q := SkipSpace(s);
      && Begins(q, '\"') && ParseString(q[1..]).Some?
      && var key := ParseString(q[1..]).value; var colon := SkipSpace(key.1);
         && Begins(colon, ':') && ParseValue(nf, colon[1..]).Some?
         && var v := ParseValue(nf, colon[1..]).value; ParseMember(nf, s).value == (Field(key.0, v.0), v.1)
  {
    hide ParseString, ParseValue, SkipSpace;
  }

  lemma MemberText(before: string, q: string, ps: seq<Piece>, space: string, colon: string, l: Layout, k: string)
    requires |q| > 0 && q[0] == '\"' && |colon| > 0 && colon[0] == ':'
    requires PiecesThen(ps, space + colon) == q[1..] && Then(l, k) == colon[1..]
    ensures MemberThen(Member(before, ps, space, l), k) == before + q
  {
    hide PiecesThen, Then;
    assert q == "\"" + q[1..] && colon == ":" + colon[1..];
  }

  lemma {:induction false} ParsedMember(nf: NumberFormat, s: string) returns (m: Member)
    requires ParseMember(nf, s).Some?
    ensures var r := ParseMember(nf, s).value;
      ValidMember(nf, m) && m.value.after == "" && MemberTree(nf, m) == r.0 && MemberThen(m, r.1) == s
    decreases |s|, 3
  {
    MemberParts(nf, s);
    hide ParseMember, ParseString, ParseValue, PiecesThen, PiecesText, ValidPieces, SkipSpace, MemberThen, Then, Tree, Valid;
    var before := SpaceBefore(s);
    var q := SkipSpace(s);
    var ps := ParsedString(q[1..]);
    var key := ParseString(q[1..]).value;
    var space := SpaceBefore(key.1);
    var colon := SkipSpace(key.1);
    var l := ParsedValue(nf, colon[1..]);
    m := Member(before, ps, space, l);
    MemberText(before, q, ps, space, colon, l, ParseMember(nf, s).value.1);
  }

  lemma {:induction false} ParsedMembers(nf: NumberFormat, s: string) returns (members: seq<Member>)
    requires ParseMembers(nf, s).Some?
    ensures var r := ParseMembers(nf, s).value;
      |members| > 0 && ValidMembers(nf, members) && MemberTrees(nf, members) == r.0 && MembersThen(members, r.1) == s
    decreases |s|, 4
  {
    var v := ParseMember(nf, s).value;
    var first := ParsedMember(nf, s);
    var w := SpaceBefore(v.1);
    var t := SkipSpace(v.1);
    SpaceBehind(nf, first.value, w, t);
    first := first.(value := first.value.(after := w));
    hide ParseString, ParseValue, ParseMember, PiecesThen, PiecesText, ValidPieces, SkipSpace, Tree, Valid;
    if Begins(t, '}') {
      members := [first];
      assert t == "}" + t[1..] && members[1..] == [];
    } else {
      var rest := ParsedMembers(nf, t[1..]);
      members := [first] + rest;
      assert t == "," + t[1..] && members[1..] == rest;
    }
  }

  /** A text parses as a value exactly if it is one of the layouts of that value. */
  lemma ParsesExactlyLayouts(nf: NumberFormat, s: string, v: Json)
    ensures ParseText(nf, s) == Some(v) <==> exists l :: Valid(nf, l) && Render(l) == s && Tree(nf, l) == v
  {
    if ParseText(nf, s) == Some(v) {
      var l := ParsedValue(nf, s);
      var rest := ParseValue(nf, s).value.1;
      var w := SpaceBefore(rest);
      SpaceBehind(nf, l, w, "");
      assert w + "" == rest;
      var m := l.(after := w);
      assert Valid(nf, m) && Render(m) == s && Tree(nf, m) == v;
    }
    if exists l :: Valid(nf, l) && Render(l) == s && Tree(nf, l) == v {
      var l :| Valid(nf, l) && Render(l) == s && Tree(nf, l) == v;
      ParseRender(nf, l);
    }
  }
}
