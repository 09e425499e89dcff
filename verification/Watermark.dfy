/** Watermark blocks: building, embedding behind a format's end marker, extracting, and embedding again. */
module Watermark {
  import opened Outcomes
  import opened Text

  type Bytes = seq<Byte>

  const MAGIC: Bytes := [0xE7, 0x1D, 0xA0, 0xF0, 0x1C, 0xE7, 0x1D, 0xA0]

  /** The part of the magic that, followed by another magic, completes a magic too early. */
  const FALSE_START: Bytes := [0xE7, 0x1D, 0xA0, 0xF0, 0x1C]

  // ---- searching ----

  predicate At(pattern: Bytes, s: Bytes, k: int) {
    0 <= k <= k + |pattern| <= |s| && s[k..k + |pattern|] == pattern
  }

  ghost predicate Contains(s: Bytes, pattern: Bytes) {
    exists k :: At(pattern, s, k)
  }

  /** bytes.Index from position `i` on. */
  function IndexFrom(s: Bytes, pattern: Bytes, i: nat): (k: int)
    requires i <= |s|
    ensures k == -1 || (i <= k && At(pattern, s, k))
    ensures forall j :: i <= j && At(pattern, s, j) ==> 0 <= k <= j
    decreases |s| - i
  {
    if At(pattern, s, i) then i
    else if i == |s| then -1
    else IndexFrom(s, pattern, i + 1)
  }

  function Index(s: Bytes, pattern: Bytes): int {
    IndexFrom(s, pattern, 0)
  }

  /** bytes.LastIndex up to position `i`. */
  function LastIndexFrom(s: Bytes, pattern: Bytes, i: nat): (k: int)
    requires i <= |s|
    ensures k == -1 || (k <= i && At(pattern, s, k))
    ensures forall j :: j <= i && At(pattern, s, j) ==> j <= k
  {
    if At(pattern, s, i) then i
    else if i == 0 then -1
    else LastIndexFrom(s, pattern, i - 1)
  }

  function LastIndex(s: Bytes, pattern: Bytes): int {
    LastIndexFrom(s, pattern, |s|)
  }

  // ---- the block ----

  /** binary.BigEndian.PutUint32 of a truncated length. */
  function BigEndian(n: nat): (b: Bytes)
    ensures |b| == 4
  {
    [n / 256 / 256 / 256 % 256, n / 256 / 256 % 256, n / 256 % 256, n % 256]
  }

  function Uint32(b: Bytes): nat
    requires |b| == 4
  {
    256 * (256 * (256 * (b[0] as int) + b[1] as int) + b[2] as int) + b[3] as int
  }

  lemma Uint32OfBigEndian(n: nat)
    requires n < 0x1_0000_0000
    ensures Uint32(BigEndian(n)) == n
  {
    var n1 := n / 256;
    var n2 := n1 / 256;
    var n3 := n2 / 256;
    assert n == 256 * n1 + n % 256 && n1 == 256 * n2 + n1 % 256 && n2 == 256 * n3 + n2 % 256;
    assert n3 < 256;
  }

  function Block(enc: Bytes): (b: Bytes)
    ensures |b| == 20 + |enc|
  {
    MAGIC + (BigEndian(|enc|) + (enc + MAGIC))
  }

  /** Copies `src` into the buffer at `off`. */
  method Copy(buf: array<Byte>, off: nat, src: Bytes)
    requires off + |src| <= buf.Length
    modifies buf
    ensures buf[..off + |src|] == old(buf[..off]) + src
    ensures buf[off + |src|..] == old(buf[off + |src|..])
  {
    for i := 0 to |src|
      invariant buf[..off] == old(buf[..off]) && buf[off..off + i] == src[..i] && buf[off + i..] == old(buf[off + i..])
    {
      buf[off + i] := src[i];
      assert buf[off..off + (i + 1)] == buf[off..off + i] + [src[i]];
      assert src[..i + 1] == src[..i] + [src[i]];
    }
    assert buf[..off + |src|] == buf[..off] + buf[off..off + |src|];
    assert src[..|src|] == src;
  }

  method BuildBlock(enc: Bytes) returns (b: Bytes)
    ensures b == Block(enc)
    ensures |b| == 20 + |enc| && b[..8] == MAGIC && b[12..12 + |enc|] == enc && b[12 + |enc|..] == MAGIC
    ensures |enc| < 0x1_0000_0000 ==>
      0x1_00_00_00 * (b[8] as int) + 0x1_00_00 * (b[9] as int) + 0x1_00 * (b[10] as int) + b[11] as int == |enc|
  {
    BlockBytes(enc);
    hide BigEndian;
    var buf := new Byte[|MAGIC| + 4 + |enc| + |MAGIC|];
    var off := 0;
    off := CopyNext(buf, off, MAGIC, []);
    off := CopyNext(buf, off, BigEndian(|enc|), MAGIC);
    off := CopyNext(buf, off, enc, MAGIC + BigEndian(|enc|));
    off := CopyNext(buf, off, MAGIC, (MAGIC + BigEndian(|enc|)) + enc);
    Concatenated(MAGIC, BigEndian(|enc|), enc, MAGIC);
    b := buf[..];
    assert b == buf[..off];
  }

  lemma BlockBytes(enc: Bytes)
    ensures var b := Block(enc); b[..8] == MAGIC && b[12..12 + |enc|] == enc && b[12 + |enc|..] == MAGIC
    ensures var b := Block(enc); |enc| < 0x1_0000_0000 ==>
      0x1_00_00_00 * (b[8] as int) + 0x1_00_00 * (b[9] as int) + 0x1_00 * (b[10] as int) + b[11] as int == |enc|
  {
    if |enc| < 0x1_0000_0000 {
      Uint32OfBigEndian(|enc|);
    }
    hide BigEndian;
    var b := Block(enc);
    assert b[8..12] == BigEndian(|enc|);
    assert forall i :: 0 <= i < 4 ==> b[8..12][i] == b[8 + i];
  }

  /** Copies the next part and moves the offset behind it. */
  method CopyNext(buf: array<Byte>, off: nat, src: Bytes, ghost done: Bytes) returns (next: nat)
    requires off + |src| <= buf.Length && buf[..off] == done
    modifies buf
    ensures next == off + |src| && buf[..next] == done + src
  {
    Copy(buf, off, src);
    next := off + |src|;
  }

  lemma Concatenated(a: Bytes, b: Bytes, c: Bytes, d: Bytes)
    ensures ((a + b) + c) + d == a + (b + (c + d))
  {}

  /** What follows the first magic, if it is a length, that many bytes, and another magic. */
  function Framed(rest: Bytes): Option<Bytes> {
    if |rest| < 4 then None
    else
      var n := Uint32(rest[..4]);
      if |rest| < 4 + n + |MAGIC| || rest[4 + n..4 + n + |MAGIC|] != MAGIC then None else Some(rest[4..4 + n])
  }

  function ExtractBlock(data: Bytes): Option<Bytes> {
    var start := Index(data, MAGIC);
    if start < 0 then None else Framed(data[start + |MAGIC|..])
  }

  /** A well-formed block of this payload stands at the first magic of the file. */
  ghost predicate FirstBlockIs(data: Bytes, enc: Bytes, k: int) {
    At(Block(enc), data, k) && forall j :: At(MAGIC, data, j) ==> k <= j
  }

  /** Extraction finds exactly the payload of a well-formed block at the first magic of the file, and otherwise nothing. */
  lemma ExtractsFirstBlock(data: Bytes, enc: Bytes)
    requires |enc| < 0x1_0000_0000
    ensures ExtractBlock(data) == Some(enc) <==> exists k :: FirstBlockIs(data, enc, k)
  {
    hide BigEndian, Uint32, Framed, FirstBlockIs;
    var k := Index(data, MAGIC);
    if ExtractBlock(data) == Some(enc) {
      FrameIsBlock(data, k, enc);
    }
    if exists i :: FirstBlockIs(data, enc, i) {
      var i :| FirstBlockIs(data, enc, i);
      BlockIsFrame(data, i, enc);
    }
  }

  lemma FrameIsBlock(data: Bytes, k: nat, enc: Bytes)
    requires At(MAGIC, data, k) && Framed(data[k + 8..]) == Some(enc) && forall j :: At(MAGIC, data, j) ==> k <= j
    ensures FirstBlockIs(data, enc, k)
  {
    hide BigEndian, Uint32;
    var rest := data[k + 8..];
    BigEndianOfUint32(rest[..4]);
    BlockBehind(data, k, rest[..4], enc, MAGIC);
  }

  lemma BlockBehind(data: Bytes, k: nat, b: Bytes, enc: Bytes, m: Bytes)
    requires |b| == 4 && |m| == 8 && At(MAGIC, data, k) && |data| >= k + 20 + |enc|
    requires var rest := data[k + 8..]; rest[..4] == b && rest[4..4 + |enc|] == enc && rest[4 + |enc|..4 + |enc| + 8] == m
    ensures data[k..k + 20 + |enc|] == MAGIC + (b + (enc + m))
  {
    var rest := data[k + 8..];
    assert data[k + 8..k + 20 + |enc|] == rest[..12 + |enc|];
    assert rest[..12 + |enc|] == rest[..4] + (rest[4..4 + |enc|] + rest[4 + |enc|..4 + |enc| + 8]);
    assert data[k..k + 20 + |enc|] == data[k..k + 8] + data[k + 8..k + 20 + |enc|];
  }

  lemma BlockIsFrame(data: Bytes, i: int, enc: Bytes)
    requires |enc| < 0x1_0000_0000 && FirstBlockIs(data, enc, i)
    ensures At(MAGIC, data, i) && Index(data, MAGIC) == i && Framed(data[i + 8..]) == Some(enc)
  {
    hide BigEndian, Uint32, Framed;
    var b := data[i..i + 20 + |enc|];
    assert b == Block(enc);
    assert data[i..i + 8] == b[..8];
    assert At(MAGIC, data, i);
    var rest := data[i + 8..];
    assert rest[..12 + |enc|] == b[8..];
    FramedPrefix(rest, enc);
  }

  lemma BigEndianOfUint32(b: Bytes)
    requires |b| == 4
    ensures BigEndian(Uint32(b)) == b && Uint32(b) < 0x1_0000_0000
  {
    var n1 := 256 * (256 * (b[0] as int) + b[1] as int) + b[2] as int;
    var n2 := 256 * (b[0] as int) + b[1] as int;
    assert Uint32(b) == 256 * n1 + b[3] as int && n1 == 256 * n2 + b[2] as int;
    assert Uint32(b) / 256 == n1 && n1 / 256 == n2 && n2 / 256 == b[0] as int;
  }

  lemma FramedPrefix(rest: Bytes, enc: Bytes)
    requires |enc| < 0x1_0000_0000 && |rest| >= 12 + |enc|
    requires rest[..12 + |enc|] == BigEndian(|enc|) + (enc + MAGIC)
    ensures Framed(rest) == Some(enc)
  {
    hide BigEndian, Uint32;
    var r := rest[..12 + |enc|];
    Uint32OfBigEndian(|enc|);
    assert rest[..4] == r[..4] == BigEndian(|enc|);
    assert rest[4..4 + |enc|] == r[4..4 + |enc|] == enc;
    assert rest[4 + |enc|..12 + |enc|] == r[4 + |enc|..] == MAGIC;
  }

  // ---- embedding ----

  datatype Format = JPEG | PNG | PDF | Generic

  const EOI: Bytes := [0xFF, 0xD9]
  const IEND: Bytes := [0x49, 0x45, 0x4E, 0x44]
  const EOF: Bytes := [0x25, 0x25, 0x45, 0x4F, 0x46]
  const NEWLINE: Byte := 0x0A

  /** The pattern occurs at `k` and nowhere behind. */
  ghost predicate IsLast(pattern: Bytes, s: Bytes, k: int) {
    At(pattern, s, k) && forall j :: At(pattern, s, j) ==> j <= k
  }

  /** What is kept of a file, up to its last end marker; None if the marker is missing. */
  function Kept(f: Format, data: Bytes): Option<Bytes> {
    match f
    case JPEG =>
      var k := LastIndex(data, EOI);
      if k < 0 then None else Some(data[..k + 2])
    case PNG =>
      var k := LastIndex(data, IEND);
      if k < 0 then None else Some(data[..if k + 8 > |data| then |data| else k + 8])
    case PDF =>
      var k := LastIndex(data, EOF);
      if k < 0 then None else Some(data[..k + 5] + [NEWLINE])
    case Generic => Some(data)
  }

  function Embedded(f: Format, data: Bytes, block: Bytes): Option<Bytes> {
    var p := Kept(f, data);
    if p.Some? then Some(p.value + block) else None
  }

  method EmbedAfterJPEGEOI(data: Bytes, wmBlock: Bytes) returns (out: Option<Bytes>)
    ensures out == Embedded(JPEG, data, wmBlock)
    ensures out.None? <==> !Contains(data, EOI)
    ensures out.Some? ==> exists k :: IsLast(EOI, data, k) && out.value == data[..k + 2] + wmBlock
  {
    var idx := LastIndex(data, EOI);
    if idx < 0 {
      return None;
    }
    assert IsLast(EOI, data, idx);
    var buf := data[..idx + 2];
    buf := buf + wmBlock;
    out := Some(buf);
  }

  method EmbedAfterPNGIEND(data: Bytes, wmBlock: Bytes) returns (out: Option<Bytes>)
    ensures out == Embedded(PNG, data, wmBlock)
    ensures out.None? <==> !Contains(data, IEND)
    ensures out.Some? ==> exists k :: IsLast(IEND, data, k) && out.value == data[..if k + 8 > |data| then |data| else k + 8] + wmBlock
  {
    var idx := LastIndex(data, IEND);
    if idx < 0 {
      return None;
    }
    assert IsLast(IEND, data, idx);
    var end := idx + 8;
    if end > |data| {
      end := |data|;
    }
    var buf := data[..end];
    buf := buf + wmBlock;
    out := Some(buf);
  }

  method EmbedAfterPDFEOF(data: Bytes, wmBlock: Bytes) returns (out: Option<Bytes>)
    ensures out == Embedded(PDF, data, wmBlock)
    ensures out.None? <==> !Contains(data, EOF)
    ensures out.Some? ==> exists k :: IsLast(EOF, data, k) && out.value == data[..k + 5] + [0x0A] + wmBlock
  {
    var idx := LastIndex(data, EOF);
    if idx < 0 {
      return None;
    }
    assert IsLast(EOF, data, idx);
    var end := idx + |EOF|;
    var buf := data[..end];
    buf := buf + [NEWLINE];
    buf := buf + wmBlock;
    out := Some(buf);
  }

  // ---- where the first magic is ----

  predicate EndsWith(s: Bytes, t: Bytes) {
    |t| <= |s| && s[|s| - |t|..] == t
  }

  lemma Bytewise(pattern: Bytes, s: Bytes, k: int)
    requires At(pattern, s, k)
    ensures forall j :: k <= j < k + |pattern| ==> s[j] == pattern[j - k]
  {
    forall j | k <= j < k + |pattern| ensures s[j] == pattern[j - k] {
      assert s[k..k + |pattern|][j - k] == s[j];
    }
  }

  /** A magic that begins in the prefix and ends in the magic behind it overlaps that one in E7 1D A0. */
  lemma OverlapIsFalseStart(p: Bytes, rest: Bytes, k: nat)
    requires At(MAGIC, p + (MAGIC + rest), k) && k < |p| < k + 8
    ensures k == |p| - 5 && EndsWith(p, FALSE_START)
  {
    var s := p + (MAGIC + rest);
    Bytewise(MAGIC, s, k);
    var m := |p| - k;
    assert forall i :: 0 <= i < 8 - m ==> s[k + (m + i)] == MAGIC[i];
    assert MAGIC[m] == MAGIC[0] && MAGIC[7] == MAGIC[7 - m];
    assert m == 5;
    assert p[k..] == s[k..k + 8][..5];
  }

  lemma FalseStartCompletes(p: Bytes, rest: Bytes)
    requires EndsWith(p, FALSE_START)
    ensures At(MAGIC, p + (MAGIC + rest), |p| - 5)
  {
    var s := p + (MAGIC + rest);
    assert s[|p| - 5..|p| + 3] == p[|p| - 5..] + MAGIC[..3];
  }

  /** Behind a prefix free of magics the first magic is the block's own, or five bytes earlier. */
  lemma FirstMagic(p: Bytes, rest: Bytes)
    requires !Contains(p, MAGIC)
    ensures Index(p + (MAGIC + rest), MAGIC) == if EndsWith(p, FALSE_START) then |p| - 5 else |p|
  {
    var s := p + (MAGIC + rest);
    assert s[|p|..|p| + 8] == MAGIC;
    assert At(MAGIC, s, |p|);
    var k := Index(s, MAGIC);
    if k + 8 <= |p| {
      assert p[k..k + 8] == s[k..k + 8];
      assert At(MAGIC, p, k);
    }
    if k < |p| {
      OverlapIsFalseStart(p, rest, k);
    }
    if EndsWith(p, FALSE_START) {
      FalseStartCompletes(p, rest);
    }
  }

  // ---- round trip ----

  /** The largest payload for which a false start cannot be mistaken for a frame. */
  const MAX_PAYLOAD := 0xF01CE718

  lemma FramedBlock(enc: Bytes)
    requires |enc| < 0x1_0000_0000
    ensures Framed(BigEndian(|enc|) + (enc + MAGIC)) == Some(enc)
  {
    hide Uint32, BigEndian;
    var rest := BigEndian(|enc|) + (enc + MAGIC);
    Uint32OfBigEndian(|enc|);
    assert rest[..4] == BigEndian(|enc|);
    assert rest[4..4 + |enc|] == enc;
    assert rest[4 + |enc|..4 + |enc| + 8] == MAGIC;
  }

  lemma FalseStartIsNoFrame(enc: Bytes)
    requires |enc| < MAX_PAYLOAD
    ensures Framed(MAGIC[3..] + (BigEndian(|enc|) + (enc + MAGIC))) == None
  {
    hide BigEndian;
    var rest := MAGIC[3..] + (BigEndian(|enc|) + (enc + MAGIC));
    assert rest[..4] == [0xF0, 0x1C, 0xE7, 0x1D];
    assert Uint32(rest[..4]) == 0xF01CE71D;
  }

  /** Behind a prefix free of magics, extraction returns exactly the payload if and only if the prefix does not
      end in E7 1D A0 F0 1C; otherwise it returns nothing. */
  lemma ExtractEmbedded(p: Bytes, enc: Bytes)
    requires !Contains(p, MAGIC) && |enc| < MAX_PAYLOAD
    ensures ExtractBlock(p + Block(enc)) == if EndsWith(p, FALSE_START) then None else Some(enc)
  {
    hide Framed, BigEndian;
    var tail := BigEndian(|enc|) + (enc + MAGIC);
    var data := p + (MAGIC + tail);
    FirstMagic(p, tail);
    if EndsWith(p, FALSE_START) {
      assert data[|p| + 3..] == MAGIC[3..] + tail;
      FalseStartIsNoFrame(enc);
    } else {
      assert data[|p| + 8..] == tail;
      FramedBlock(enc);
    }
  }

  /** The bytes before the seam of a JPEG, PNG or PDF can never be a false start. */
  lemma MarkerIsNoFalseStart(f: Format, data: Bytes)
    requires f != Generic && Kept(f, data).Some?
    ensures !EndsWith(Kept(f, data).value, FALSE_START)
  {
    var p := Kept(f, data).value;
    var n := |p|;
    match f
    case JPEG =>
      Bytewise(EOI, data, LastIndex(data, EOI));
      assert p[n - 1] == 0xD9;
      LastByte(p, FALSE_START);
    case PDF =>
      assert p[n - 1] == NEWLINE;
      LastByte(p, FALSE_START);
    case PNG =>
      var k := LastIndex(data, IEND);
      Bytewise(IEND, data, k);
      assert p[k + 3] == 0x44;
      EndsWithBytes(p, FALSE_START);
  }

  lemma EndsWithBytes(s: Bytes, t: Bytes)
    ensures EndsWith(s, t) ==> forall i :: |s| - |t| <= i < |s| ==> s[i] == t[i - (|s| - |t|)]
  {
    if EndsWith(s, t) {
      forall i | |s| - |t| <= i < |s| ensures s[i] == t[i - (|s| - |t|)] {
        assert s[|s| - |t|..][i - (|s| - |t|)] == s[i];
      }
    }
  }

  lemma LastByte(s: Bytes, t: Bytes)
    requires |s| > 0 && |t| > 0 && s[|s| - 1] != t[|t| - 1]
    ensures !EndsWith(s, t)
  {
    EndsWithBytes(s, t);
  }

  /** For files with an end marker the payload always comes back if the kept part holds no magic; for other files
      the file must also not end in E7 1D A0 F0 1C, and that is exactly the condition. */
  lemma RoundTrip(f: Format, data: Bytes, enc: Bytes)
    requires Kept(f, data).Some? && !Contains(Kept(f, data).value, MAGIC) && |enc| < MAX_PAYLOAD
    ensures Embedded(f, data, Block(enc)).Some?
    ensures ExtractBlock(Embedded(f, data, Block(enc)).value) == Some(enc) <==> (f == Generic ==> !EndsWith(data, FALSE_START))
  {
    ExtractEmbedded(Kept(f, data).value, enc);
    if f != Generic {
      MarkerIsNoFalseStart(f, data);
    }
  }

  // ---- embedding again ----

  /** Every block begins with a byte that no end marker contains. */
  predicate BlockLike(b: Bytes) {
    |b| >= 20 && b[0] == 0xE7
  }

  /** Behind a kept prefix the last marker is the prefix's own unless the block contains one. */
  lemma LastMarker(p: Bytes, b: Bytes, marker: Bytes)
    requires BlockLike(b) && |marker| > 0 && 0xE7 !in marker
    ensures Contains(b, marker) ==> LastIndex(p + b, marker) >= |p|
    ensures !Contains(b, marker) ==> LastIndex(p + b, marker) == LastIndex(p, marker)
  {
    var s := p + b;
    if Contains(b, marker) {
      var j :| At(marker, b, j);
      assert s[|p| + j..|p| + j + |marker|] == b[j..j + |marker|];
      assert At(marker, s, |p| + j);
    } else {
      var k := LastIndex(s, marker);
      if k >= 0 {
        InPrefix(p, b, marker, k);
      }
      var i := LastIndex(p, marker);
      if i >= 0 {
        assert s[i..i + |marker|] == p[i..i + |marker|];
        assert At(marker, s, i);
      }
    }
  }

  lemma InPrefix(p: Bytes, b: Bytes, marker: Bytes, k: int)
    requires BlockLike(b) && |marker| > 0 && 0xE7 !in marker && At(marker, p + b, k) && !Contains(b, marker)
    ensures At(marker, p, k)
  {
    var s := p + b;
    Bytewise(marker, s, k);
    if k >= |p| {
      assert b[k - |p|..k - |p| + |marker|] == s[k..k + |marker|];
      assert At(marker, b, k - |p|);
    }
    assert s[|p|] == 0xE7;
    assert forall i :: 0 <= i < |marker| ==> marker[i] != 0xE7;
    assert p[k..k + |marker|] == s[k..k + |marker|];
  }

  /** The last marker of a file is the last marker of what is kept of it. */
  lemma LastOfKept(data: Bytes, marker: Bytes, end: nat)
    requires |marker| > 0 && LastIndex(data, marker) >= 0 && LastIndex(data, marker) + |marker| <= end <= |data|
    ensures LastIndex(data[..end], marker) == LastIndex(data, marker)
  {
    var k := LastIndex(data, marker);
    assert data[..end][k..k + |marker|] == data[k..k + |marker|];
    assert At(marker, data[..end], k);
    var i := LastIndex(data[..end], marker);
    assert data[..end][i..i + |marker|] == data[i..i + |marker|];
    assert At(marker, data, i);
  }

  lemma LastBeforeNewline(p: Bytes)
    requires |p| >= 5 && LastIndex(p, EOF) == |p| - 5
    ensures LastIndex(p + [NEWLINE], EOF) == |p| - 5
  {
    var s := p + [NEWLINE];
    assert s[|p| - 5..|p|] == p[|p| - 5..|p|];
    assert At(EOF, s, |p| - 5);
    var k := LastIndex(s, EOF);
    Bytewise(EOF, s, k);
    assert s[|p|] == NEWLINE;
    assert forall i :: 0 <= i < 5 ==> EOF[i] != NEWLINE;
  }

  /** When a second block behind the same marker replaces the first one. */
  ghost predicate Replaceable(f: Format, data: Bytes, block: Bytes) {
    match f
    case JPEG => !Contains(block, EOI)
    case PNG => !Contains(block, IEND) && LastIndex(data, IEND) + 8 <= |data|
    case PDF => !Contains(block, EOF)
    case Generic => false
  }

  /** What is kept of an embedded file: the same part, or more of it. */
  ghost predicate KeepsMore(f: Format, data: Bytes, block: Bytes)
    requires Kept(f, data).Some?
  {
    var p := Kept(f, data).value;
    var again := Kept(f, p + block);
    && again.Some? && |again.value| >= |p|
    && (again.value == p <==> Replaceable(f, data, block)) && (|again.value| == |p| ==> again.value == p)
  }

  lemma PDFKeptAgain(data: Bytes, block: Bytes)
    requires Kept(PDF, data).Some? && BlockLike(block)
    ensures KeepsMore(PDF, data, block)
  {
    var p := Kept(PDF, data).value;
    var k := LastIndex(data, EOF);
    LastOfKept(data, EOF, k + 5);
    LastBeforeNewline(data[..k + 5]);
    LastMarker(p, block, EOF);
    assert (p + block)[..k + 5] == data[..k + 5];
  }

  lemma PNGKeptAgain(data: Bytes, block: Bytes)
    requires Kept(PNG, data).Some? && BlockLike(block)
    ensures KeepsMore(PNG, data, block)
  {
    var p := Kept(PNG, data).value;
    LastOfKept(data, IEND, |p|);
    LastMarker(p, block, IEND);
    assert (p + block)[..|p|] == p;
  }

  lemma KeptAgain(f: Format, data: Bytes, block: Bytes)
    requires Kept(f, data).Some? && BlockLike(block)
    ensures KeepsMore(f, data, block)
  {
    match f
    case JPEG =>
      var p := Kept(f, data).value;
      LastOfKept(data, EOI, |p|);
      LastMarker(p, block, EOI);
      assert (p + block)[..|p|] == p;
    case PNG => PNGKeptAgain(data, block);
    case PDF => PDFKeptAgain(data, block);
    case Generic =>
  }

  /** Watermarking an already watermarked file equals watermarking the original if and only if the first block is
      replaceable; otherwise the result is longer. */
  lemma WatermarkAgain(f: Format, data: Bytes, first: Bytes, second: Bytes)
    requires Kept(f, data).Some? && BlockLike(first)
    ensures Embedded(f, Embedded(f, data, first).value, second) == Embedded(f, data, second) <==> Replaceable(f, data, first)
  {
    KeptAgain(f, data, first);
    var p, again := Kept(f, data).value, Kept(f, Kept(f, data).value + first).value;
    assert Embedded(f, Embedded(f, data, first).value, second) == Some(again + second);
    assert |again| != |p| ==> |again + second| != |p + second|;
  }

  lemma BlockIsBlockLike(enc: Bytes)
    ensures BlockLike(Block(enc))
  {}

  /** A file without end markers keeps its first watermark: a second one is never read. */
  lemma GenericKeepsFirst(data: Bytes, first: Bytes, second: Bytes)
    requires !Contains(data, MAGIC) && !EndsWith(data, FALSE_START) && |first| < MAX_PAYLOAD
    ensures ExtractBlock(Embedded(Generic, Embedded(Generic, data, Block(first)).value, Block(second)).value) == Some(first)
  {
    hide BigEndian, Framed;
    var tail := BigEndian(|first|) + ((first + MAGIC) + Block(second));
    var out := (data + Block(first)) + Block(second);
    assert out == data + (MAGIC + tail);
    FirstMagic(data, tail);
    assert out[|data| + 8..] == tail;
    FramedThen(first, Block(second));
  }

  lemma FramedThen(enc: Bytes, more: Bytes)
    requires |enc| < 0x1_0000_0000
    ensures Framed(BigEndian(|enc|) + ((enc + MAGIC) + more)) == Some(enc)
  {
    hide Uint32, BigEndian;
    var rest := BigEndian(|enc|) + ((enc + MAGIC) + more);
    Uint32OfBigEndian(|enc|);
    assert rest[..4] == BigEndian(|enc|);
    assert rest[4..4 + |enc|] == enc;
    assert rest[4 + |enc|..4 + |enc| + 8] == MAGIC;
  }

  // ---- blocks around a Base64 payload (section 4 of RFC 4648) ----

  predicate Base64Byte(b: Byte) {
    65 <= b <= 90 || 97 <= b <= 122 || 48 <= b <= 57 || b == 43 || b == 47 || b == 61
  }

  /** What encrypt returns: padded Base64, so a multiple of four bytes. */
  predicate Base64(enc: Bytes) {
    |enc| % 4 == 0 && forall i :: 0 <= i < |enc| ==> Base64Byte(enc[i])
  }

  lemma BlockByte(enc: Bytes, i: nat)
    requires i < |Block(enc)|
    ensures Block(enc)[i] == if i < 8 then MAGIC[i] else if i < 12 then BigEndian(|enc|)[i - 8]
                             else if i < 12 + |enc| then enc[i - 12] else MAGIC[i - 12 - |enc|]
  {
    hide BigEndian;
  }

  /** An EOI marker can only appear inside the length field. */
  lemma EOIInLength(enc: Bytes, k: int)
    requires Base64(enc) && At(EOI, Block(enc), k)
    ensures 8 <= k <= 9 && BigEndian(|enc|)[k - 8] == 0xFF && BigEndian(|enc|)[k - 7] == 0xD9
  {
    Bytewise(EOI, Block(enc), k);
    BlockByte(enc, k);
    BlockByte(enc, k + 1);
    assert BigEndian(|enc|)[3] % 4 == 0 by { LastByteOfLength(|enc|); }
    hide BigEndian, Block;
    assert Block(enc)[k] == EOI[0] && Block(enc)[k + 1] == EOI[1];
  }

  lemma LastByteOfLength(n: nat)
    requires n % 4 == 0
    ensures BigEndian(n)[3] % 4 == 0
  {}

  /** The block around a Base64 payload contains an EOI marker exactly when its length field does. */
  lemma BlockContainsEOI(enc: Bytes)
    requires Base64(enc) && |enc| < 0x1_0000_0000
    ensures Contains(Block(enc), EOI) <==> |enc| / 0x10000 == 0xFFD9 || |enc| / 0x100 % 0x10000 == 0xFFD9
  {
    LengthPairs(|enc|);
    hide BigEndian;
    if Contains(Block(enc), EOI) {
      var k :| At(EOI, Block(enc), k);
      EOIInLength(enc, k);
    }
    if BigEndian(|enc|)[0] == 0xFF && BigEndian(|enc|)[1] == 0xD9 {
      assert At(EOI, Block(enc), 8);
    }
    if BigEndian(|enc|)[1] == 0xFF && BigEndian(|enc|)[2] == 0xD9 {
      assert At(EOI, Block(enc), 9);
    }
  }

  lemma LengthPairs(n: nat)
    requires n < 0x1_0000_0000
    ensures n / 0x10000 == 0xFFD9 <==> BigEndian(n)[0] == 0xFF && BigEndian(n)[1] == 0xD9
    ensures n / 0x100 % 0x10000 == 0xFFD9 <==> BigEndian(n)[1] == 0xFF && BigEndian(n)[2] == 0xD9
  {
    var n1 := n / 256;
    var n2 := n1 / 256;
    var n3 := n2 / 256;
    assert n == 256 * n1 + n % 256 && n1 == 256 * n2 + n1 % 256 && n2 == 256 * n3 + n2 % 256 && n3 < 256;
    assert n / 0x10000 == n2;
    assert n1 == 0x10000 * n3 + (256 * (n2 % 256) + n1 % 256);
    assert n1 % 0x10000 == 256 * (n2 % 256) + n1 % 256;
  }

  /** The shortest Base64 payload whose block contains an EOI marker has 0xFFD900 bytes. */
  lemma ShortBlocksHaveNoEOI(enc: Bytes)
    requires Base64(enc) && |enc| <= 0xFFD900
    ensures Contains(Block(enc), EOI) <==> |enc| == 0xFFD900
  {
    BlockContainsEOI(enc);
  }

  /** No block of a Base64 payload contains a PDF end marker: the length field would have to be odd. */
  lemma BlocksHaveNoEOF(enc: Bytes)
    requires Base64(enc)
    ensures !Contains(Block(enc), EOF)
  {
    hide Block, BigEndian;
    forall k ensures !At(EOF, Block(enc), k) {
      if At(EOF, Block(enc), k) {
        Bytewise(EOF, Block(enc), k);
        PercentInLength(enc, k);
        PercentInLength(enc, k + 1);
        LetterBehindPercent(enc, k);
      }
    }
  }

  lemma PercentInLength(enc: Bytes, i: nat)
    requires Base64(enc) && i < |Block(enc)| && Block(enc)[i] == 0x25
    ensures 8 <= i <= 11 && BigEndian(|enc|)[i - 8] == 0x25 && i != 11
  {
    BlockByte(enc, i);
    LastByteOfLength(|enc|);
    hide Block, BigEndian;
  }

  /** The bytes behind two percent signs of the length field. */
  lemma LetterBehindPercent(enc: Bytes, k: nat)
    requires Base64(enc) && 8 <= k <= 9 && k + 4 < |Block(enc)|
    ensures !(Block(enc)[k + 2] == 0x45 && Block(enc)[k + 3] == 0x4F && Block(enc)[k + 4] == 0x46)
      || (k == 9 && BigEndian(|enc|)[3] == 0x45)
    ensures BigEndian(|enc|)[3] % 4 == 0
  {
    BlockByte(enc, k + 2);
    BlockByte(enc, k + 3);
    LastByteOfLength(|enc|);
    hide Block, BigEndian;
  }

  /** Which re-watermarkings replace: always for PDF and JPEG; for PNG when the file has its whole IEND chunk and the
      old block does not contain IEND; never for other files. */
  ghost predicate Replaces(f: Format, data: Bytes, former: Bytes) {
    match f
    case JPEG => true
    case PNG => !Contains(Block(former), IEND) && LastIndex(data, IEND) + 8 <= |data|
    case PDF => true
    case Generic => false
  }

  /** For payloads as encrypt makes them, below 0xFFD900 bytes: embedding twice is embedding the second alone exactly
      when the format replaces, and then the second payload is the one that is extracted. */
  lemma Rewatermark(f: Format, data: Bytes, former: Bytes, latter: Bytes)
    requires Kept(f, data).Some? && Base64(former) && |former| < 0xFFD900
    ensures Embedded(f, Embedded(f, data, Block(former)).value, Block(latter)) == Embedded(f, data, Block(latter))
      <==> Replaces(f, data, former)
    ensures Replaces(f, data, former) && !Contains(Kept(f, data).value, MAGIC) && |latter| < MAX_PAYLOAD ==>
      ExtractBlock(Embedded(f, Embedded(f, data, Block(former)).value, Block(latter)).value) == Some(latter)
  {
    hide Block, ExtractBlock;
    BlockIsBlockLike(former);
    WatermarkAgain(f, data, Block(former), Block(latter));
    ShortBlocksHaveNoEOI(former);
    BlocksHaveNoEOF(former);
    if !Contains(Kept(f, data).value, MAGIC) && |latter| < MAX_PAYLOAD {
      RoundTrip(f, data, latter);
    }
  }

  /** Whenever a payload spells IEND anywhere, a second embedding into a PNG does not replace its block. */
  lemma PNGCounterexample(data: Bytes, former: Bytes, latter: Bytes)
    requires Kept(PNG, data).Some? && Contains(former, IEND)
    ensures Embedded(PNG, Embedded(PNG, data, Block(former)).value, Block(latter)) != Embedded(PNG, data, Block(latter))
  {
    hide BigEndian;
    var k :| At(IEND, former, k);
    var b := Block(former);
    assert b == (MAGIC + BigEndian(|former|)) + (former + MAGIC);
    assert b[12 + k..12 + k + |IEND|] == former[k..k + |IEND|];
    assert At(IEND, b, 12 + k);
    BlockIsBlockLike(former);
    hide Block;
    WatermarkAgain(PNG, data, Block(former), Block(latter));
  }
}
