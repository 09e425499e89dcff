/** JSON texts, Go's encoding/json on them, and the canonical form of audit metadata.

    A JSON value keeps an object's members as they were written.  `Normalize` is what decoding
    into Go maps does to it (a later duplicate key wins, `Marshal` writes keys in ascending order).
    A `Layout` is one way to write a value down: any white space, any escapes, any member order. */
module Json {
  import opened Outcomes
  import opened Text

  /** A finite float64; only its identity matters here. */
  datatype Float = Float(bits: nat)

  /** strconv's reading and shortest printing of float64, which are not modelled further. */
  datatype NumberFormat = NumberFormat(read: string -> Option<Float>, show: Float -> string) {
    /** The shortest decimal that strconv prints is a JSON number and reads back as the same float. */
    ghost predicate Lawful() {
      forall f: Float :: IsNumber(show(f)) && read(show(f)) == Some(f)
    }
  }

  datatype Json =
    | Null
    | Bool(b: bool)
    | Num(f: Float)
    | Str(s: string)
    | Arr(items: seq<Json>)
    | Obj(members: seq<Field>)

  datatype Field = Field(key: string, value: Json)

  // ---- lexical grammar ----

  predicate IsSpace(c: char) {
    c == ' ' || c == '\t' || c == '\n' || c == '\r'
  }

  predicate AllSpace(s: string) {
    forall i :: 0 <= i < |s| ==> IsSpace(s[i])
  }

  function SkipSpace(s: string): (r: string)
    ensures |r| <= |s|
  {
    if |s| > 0 && IsSpace(s[0]) then SkipSpace(s[1..]) else s
  }

  predicate IsNumberChar(c: char) {
    IsDigit(c) || c == '+' || c == '-' || c == '.' || c == 'e' || c == 'E'
  }

  function NumberRun(s: string): (n: nat)
    ensures n <= |s|
  {
    if |s| > 0 && IsNumberChar(s[0]) then 1 + NumberRun(s[1..]) else 0
  }

  function DigitRun(s: string): (n: nat)
    ensures n <= |s|
    ensures forall i :: 0 <= i < n ==> IsDigit(s[i])
  {
    if |s| > 0 && IsDigit(s[0]) then 1 + DigitRun(s[1..]) else 0
  }

  /** The number grammar of RFC 8259, section 6. */
  predicate IsNumber(s: string) {
    var t := if |s| > 0 && s[0] == '-' then s[1..] else s;
    var k := DigitRun(t);
    k > 0 && (t[0] == '0' ==> k == 1) && IsFraction(t[k..])
  }

  predicate IsFraction(s: string) {
    if |s| > 0 && s[0] == '.' then
      var k := DigitRun(s[1..]);
      k > 0 && IsExponent(s[1 + k..])
    else IsExponent(s)
  }

  predicate IsExponent(s: string) {
    |s| > 0 ==>
      && (s[0] == 'e' || s[0] == 'E')
      && var t := if |s| > 1 && (s[1] == '+' || s[1] == '-') then s[2..] else s[1..];
         |t| > 0 && DigitRun(t) == |t|
  }

  function HexValue(c: char): Option<nat> {
    if '0' <= c <= '9' then Some(c as nat - '0' as nat)
    else if 'a' <= c <= 'f' then Some(c as nat - 'a' as nat + 10)
    else if 'A' <= c <= 'F' then Some(c as nat - 'A' as nat + 10)
    else None
  }

  /** The code unit written by the first four characters, if they are hexadecimal. */
  function CodeUnit(s: string): (r: Option<nat>)
    ensures r.Some? ==> |s| >= 4 && r.value < 0x10000
  {
    if |s| < 4 then None
    else
      match (HexValue(s[0]), HexValue(s[1]), HexValue(s[2]), HexValue(s[3]))
      case (Some(a), Some(b), Some(c), Some(d)) =>
        if a < 16 && b < 16 && c < 16 && d < 16 then Some(4096 * a + 256 * b + 16 * c + d) else None
      case _ => None
  }

  predicate IsSurrogate(v: nat) {
    0xD800 <= v < 0xE000
  }

  function Unescape(c: char): Option<char> {
    if c == '\"' then Some('\"')
    else if c == '\\' then Some('\\')
    else if c == '/' then Some('/')
    else if c == 'b' then Some('\U{0008}')
    else if c == 'f' then Some('\U{000C}')
    else if c == 'n' then Some('\n')
    else if c == 'r' then Some('\r')
    else if c == 't' then Some('\t')
    else None
  }

  // ---- json.Unmarshal: text to value ----

  function Cons(c: char, r: Option<(string, string)>): Option<(string, string)> {
    if r.Some? then Some(([c] + r.value.0, r.value.1)) else None
  }

  /** A string literal, its opening quote already read. */
  function ParseString(s: string): (r: Option<(string, string)>)
    ensures r.Some? ==> |r.value.1| < |s|
  {
    if |s| == 0 then None
    else if s[0] == '\"' then Some(("", s[1..]))
    else if s[0] == '\\' then
      if |s| < 2 then None
      else if s[1] == 'u' then
        var unit := CodeUnit(s[2..]);
        if unit.None? then None
        else if !IsSurrogate(unit.value) then Cons(unit.value as char, ParseString(s[6..]))
        else
          var low := if unit.value < 0xDC00 && |s| >= 8 && s[6..8] == "\\u" then CodeUnit(s[8..]) else None;
          if low.Some? && 0xDC00 <= low.value < 0xE000
          then Cons((0x10000 + 1024 * (unit.value - 0xD800) + (low.value - 0xDC00)) as char, ParseString(s[12..]))
          else Cons('\U{FFFD}', ParseString(s[6..]))
      else if Unescape(s[1]).Some? then Cons(Unescape(s[1]).value, ParseString(s[2..]))
      else None
    else if s[0] < ' ' then None
    else Cons(s[0], ParseString(s[1..]))
  }

  predicate StartsWith(s: string, p: string)
    ensures StartsWith(s, p) && |p| > 0 ==> |s| > 0 && s[0] == p[0]
  {
    |s| >= |p| && s[..|p|] == p
  }

  predicate Begins(s: string, c: char) {
    |s| > 0 && s[0] == c
  }

  function ParseValue(nf: NumberFormat, s: string): (r: Option<(Json, string)>)
    ensures r.Some? ==> |r.value.1| < |s|
    decreases |s|, 1
  {
    ParseToken(nf, SkipSpace(s))
  }

  /** A value whose first character is not white space. */
  function ParseToken(nf: NumberFormat, t: string): (r: Option<(Json, string)>)
    ensures r.Some? ==> |r.value.1| < |t|
    decreases |t|, 0
  {
    if |t| == 0 then None
    else if t[0] == '{' then
      var u := SkipSpace(t[1..]);
      if Begins(u, '}') then Some((Obj([]), u[1..]))
      else
        var r := ParseMembers(nf, t[1..]);
        if r.Some? then Some((Obj(r.value.0), r.value.1)) else None
    else if t[0] == '[' then
      var u := SkipSpace(t[1..]);
      if Begins(u, ']') then Some((Arr([]), u[1..]))
      else
        var r := ParseItems(nf, t[1..]);
        if r.Some? then Some((Arr(r.value.0), r.value.1)) else None
    else if t[0] == '\"' then
      var r := ParseString(t[1..]);
      if r.Some? then Some((Str(r.value.0), r.value.1)) else None
    else if StartsWith(t, "null") then Some((Null, t[4..]))
    else if StartsWith(t, "true") then Some((Bool(true), t[4..]))
    else if StartsWith(t, "false") then Some((Bool(false), t[5..]))
    else
      var k := NumberRun(t);
      if k > 0 && IsNumber(t[..k]) && nf.read(t[..k]).Some?
      then Some((Num(nf.read(t[..k]).value), t[k..]))
      else None
  }

  function ParseItems(nf: NumberFormat, s: string): (r: Option<(seq<Json>, string)>)
    ensures r.Some? ==> |r.value.1| < |s|
    decreases |s|, 2
  {
    var v := ParseValue(nf, s);
    if v.None? then None
    else
      var t := SkipSpace(v.value.1);
      if Begins(t, ']') then Some(([v.value.0], t[1..]))
      else if Begins(t, ',') then
        var r := ParseItems(nf, t[1..]);
        if r.Some? then Some(([v.value.0] + r.value.0, r.value.1)) else None
      else None
  }

  function ParseMembers(nf: NumberFormat, s: string): (r: Option<(seq<Field>, string)>)
    ensures r.Some? ==> |r.value.1| < |s|
    decreases |s|, 2
  {
    var m := ParseMember(nf, s);
    if m.None? then None
    else
      var t := SkipSpace(m.value.1);
      if Begins(t, '}') then Some(([m.value.0], t[1..]))
      else if Begins(t, ',') then
        var r := ParseMembers(nf, t[1..]);
        if r.Some? then Some(([m.value.0] + r.value.0, r.value.1)) else None
      else None
  }

  function ParseMember(nf: NumberFormat, s: string): (r: Option<(Field, string)>)
    ensures r.Some? ==> |r.value.1| < |s|
    decreases |s|, 1
  {
    var q := SkipSpace(s);
    if !Begins(q, '\"') then None
    else
      var key := ParseString(q[1..]);
      if key.None? then None
      else
        var colon := SkipSpace(key.value.1);
        if !Begins(colon, ':') then None
        else
          var v := ParseValue(nf, colon[1..]);
          if v.None? then None else Some((Field(key.value.0, v.value.0), v.value.1))
  }

  function ParseText(nf: NumberFormat, s: string): Option<Json> {
    var r := ParseValue(nf, s);
    if r.Some? && SkipSpace(r.value.1) == "" then Some(r.value.0) else None
  }
}
