/** Streaming an upload of unknown length: sniffing, limiting, hashing and storing in one pass, for every way
    the source may split its reads; and the two other size guards. */
module Upload {
  import opened Outcomes
  import opened Text

  type Bytes = seq<Byte>

  datatype ReadError = Fine | EndOfFile | TooLarge | Broken

  function Min(a: nat, b: nat): nat {
    if a < b then a else b
  }

  /** An io.Reader over some content. `script` fixes how many bytes each read returns (none is allowed), `eager`
      whether the last bytes come together with EOF, and `broken` whether the source ends in an error instead. */
  class Source {
    var pending: Bytes
    var script: seq<nat>
    const eager: bool
    const broken: bool

    constructor (content: Bytes, script: seq<nat>, eager: bool, broken: bool)
      ensures pending == content && this.script == script && this.eager == eager && this.broken == broken
    {
      pending, this.script := content, script;
      this.eager, this.broken := eager, broken;
    }

    function End(): ReadError {
      if broken then Broken else EndOfFile
    }

    /** Some of what is pending, in order, and never more than asked for. */
    method Read(size: nat) returns (data: Bytes, err: ReadError)
      modifies this
      ensures old(pending) == data + pending && |data| <= size
      ensures err == Fine || err == End()
      ensures err != Fine ==> pending == []
      ensures err == Fine && size > 0 ==> |pending| < |old(pending)| || (pending == old(pending) && |script| < |old(script)|)
      ensures |script| <= |old(script)|
    {
      if |pending| == 0 {
        return [], End();
      }
      var n := Min(size, |pending|);
      if |script| > 0 {
        n := Min(n, script[0]);
        script := script[1..];
      }
      data := pending[..n];
      pending := pending[n..];
      err := if |pending| == 0 && eager then End() else Fine;
    }
  }

  const SNIFF_LEN := 512

  /** io.ReadFull into the sniff buffer: the first SNIFF_LEN bytes, or everything. */
  method ReadFull(src: Source, size: nat) returns (head: Bytes, err: ReadError)
    modifies src
    ensures old(src.pending) == head + src.pending && |head| <= size
    ensures |head| < size ==> src.pending == [] && err == src.End()
    ensures |head| == size ==> err == Fine
  {
    head, err := [], Fine;
    while |head| < size && err == Fine
      invariant old(src.pending) == head + src.pending && |head| <= size
      invariant err == Fine || (err == src.End() && src.pending == [])
      decreases |src.pending| + |src.script|, err == Fine
    {
      var data, e := src.Read(size - |head|);
      head, err := head + data, e;
    }
    if |head| == size {
      err := Fine;
    }
  }

  /** io.MultiReader over the sniffed bytes and the rest of the source, limited as limitedReader does: the check comes
      after the read, which is not clamped. */
  class LimitedReader {
    const src: Source
    const limit: int
    var head: Bytes
    var n: nat
    var exceeded: bool

    constructor (head: Bytes, src: Source, limit: int)
      ensures this.src == src && this.limit == limit && this.head == head && n == 0 && !exceeded
    {
      this.src, this.limit := src, limit;
      this.head, n, exceeded := head, 0, false;
    }

    /** What is still to come. */
    function Rest(): Bytes
      reads this, src
    {
      head + src.pending
    }

    method Read(size: nat) returns (data: Bytes, err: ReadError)
      requires size > 0
      modifies this, src
      ensures old(Rest()) == data + Rest() && |data| <= size && n == old(n) + |data|
      ensures err == TooLarge <==> n > limit
      ensures exceeded <==> old(exceeded) || n > limit
      ensures err == Fine || err == TooLarge || err == src.End()
      ensures err != Fine && err != TooLarge ==> Rest() == []
      ensures err == Fine ==> |Rest()| < |old(Rest())| || (Rest() == old(Rest()) && |src.script| < |old(src.script)|)
      ensures |src.script| <= |old(src.script)|
      ensures |head| > 0 ==> |old(head)| > 0 && src.pending == old(src.pending)
    {
      if |head| > 0 {
        var k := Min(size, |head|);
        data, err := head[..k], Fine;
        head := head[k..];
        assert old(Rest()) == data + Rest();
      } else {
        data, err := src.Read(size);
        assert old(Rest()) == old(src.pending);
      }
      n := n + |data|;
      if n > limit {
        exceeded := true;
        err := TooLarge;
      }
    }
  }

  /** The storage never fails by itself, whatever number of reads it has done. */
  ghost predicate NoFault(fault: nat -> bool) {
    forall i: nat :: !fault(i)
  }

  /** Storage's Put reading through the tee: `size` gives the length of the buffer of each read, and `fault` whether the
      storage itself fails after so many reads. */
  method Put(r: LimitedReader, size: nat -> nat, fault: nat -> bool, ghost buffer: nat)
    returns (stored: Option<Bytes>, hashed: Bytes)
    requires forall i: nat :: 1 <= size(i) <= buffer
    requires r.n == 0 && !r.exceeded
    modifies r, r.src
    ensures var content := old(r.Rest());
      && content == hashed + r.Rest() && r.n == |hashed|
      && (r.exceeded ==> stored.None? && r.n > r.limit)
      && (stored.Some? ==> stored.value == content && r.Rest() == [] && !r.src.broken && r.n <= r.limit)
      && (NoFault(fault) && !r.exceeded ==> r.Rest() == [] && r.n <= r.limit && (stored.Some? <==> !r.src.broken))
      && (r.n <= buffer || r.n <= r.limit + buffer)
      && (|r.head| > 0 ==> r.src.pending == old(r.src.pending))
  {
    hashed := [];
    var err := Fine;
    var i: nat := 0;
    while err == Fine && !fault(i)
      invariant old(r.Rest()) == hashed + r.Rest() && r.n == |hashed|
      invariant r.exceeded <==> err == TooLarge
      invariant i > 0 ==> (r.exceeded <==> r.n > r.limit)
      invariant err == Fine || i > 0
      invariant |r.head| > 0 ==> |old(r.head)| > 0 && r.src.pending == old(r.src.pending)
      invariant err == Fine || err == TooLarge || (err == r.src.End() && r.Rest() == [])
      invariant i == 0 ==> r.n == 0
      invariant r.n <= buffer || r.n <= r.limit + buffer
      decreases |r.Rest()| + |r.src.script|, err == Fine
    {
      assert 1 <= size(i) <= buffer;
      var data, e := r.Read(size(i));
      hashed, err := hashed + data, e;
      i := i + 1;
    }
    stored := if err == EndOfFile && !fault(i) then Some(hashed) else None;
    assert r.Rest() == [] ==> hashed + r.Rest() == hashed;
  }

  datatype Uploaded = Uploaded(size: nat, digest: Bytes, stored: Bytes)

  /** For every splitting of the reads and every failure of the storage: only an input within the limit is stored, byte
      for byte with its size and digest; "too large" is only said of a longer one, after at most one buffer of overshoot;
      and unless source or storage fails, every input gets one of the two. */
  method StreamToStorage(src: Source, limit: int, sha256: Bytes -> Bytes, size: nat -> nat, fault: nat -> bool, ghost buffer: nat)
    returns (result: Result<Uploaded, ReadError>)
    requires forall i: nat :: 1 <= size(i) <= buffer
    modifies src
    ensures var content := old(src.pending);
      && (result.Ok? ==> |content| <= limit && !src.broken && result.value == Uploaded(|content|, sha256(content), content))
      && (result.Err? && result.error == TooLarge ==> |content| > limit)
      && (NoFault(fault) && !src.broken ==> if |content| <= limit then result.Ok? else result == Err(TooLarge))
    ensures var consumed := |old(src.pending)| - |src.pending|;
      consumed <= 512 || consumed <= limit + buffer || consumed <= buffer
  {
    var head, err := ReadFull(src, SNIFF_LEN);
    if err == Broken {
      return Err(Broken);
    }
    assert |head| < SNIFF_LEN ==> !src.broken;
    var limited := new LimitedReader(head, src, limit);
    var stored, hashed := Put(limited, size, fault, buffer);
    ConsumedIsRead(old(src.pending), head, hashed, limited.head, src.pending);
    assert |limited.head| > 0 ==> |old(src.pending)| - |src.pending| == |head|;
    if stored.None? {
      return Err(if limited.exceeded then TooLarge else Broken);
    }
    assert limited.Rest() == [] && old(src.pending) == hashed;
    result := Ok(Uploaded(limited.n, sha256(hashed), stored.value));
  }

  /** Bytes taken from the source are either handed on or still in the sniff buffer. */
  lemma ConsumedIsRead(content: Bytes, sniffed: Bytes, hashed: Bytes, head: Bytes, pending: Bytes)
    requires content == hashed + (head + pending) && |sniffed| <= SNIFF_LEN
    ensures |content| - |pending| == |hashed| + |head|
  {}

  // ---- the other two guards ----

  /** io.Copy or io.ReadAll from an io.LimitedReader: at most `cap` bytes. */
  method ReadAtMost(src: Source, cap: nat) returns (data: Bytes, err: ReadError)
    modifies src
    ensures old(src.pending) == data + src.pending && |data| <= cap
    ensures err == Fine ==> |data| == cap || (src.pending == [] && !src.broken)
    ensures err != Fine ==> err == Broken && src.broken && src.pending == []
    ensures src.broken && |old(src.pending)| < cap ==> err == Broken
  {
    data, err := [], Fine;
    while |data| < cap && err == Fine
      invariant old(src.pending) == data + src.pending && |data| <= cap
      invariant err == Fine || (err == src.End() && src.pending == [])
      decreases |src.pending| + |src.script|, err == Fine
    {
      var d, e := src.Read(cap - |data|);
      data, err := data + d, e;
    }
    if err == EndOfFile {
      err := Fine;
    }
  }

  const DEFAULT_MAX_CANDIDATE_SIZE := 52428800

  /** The candidate guard: a limit that is not positive stands for 50 MiB. */
  method ReadCandidate(src: Source, maxSize: int) returns (result: Result<Bytes, ReadError>)
    modifies src
    ensures var content := old(src.pending); var limit := if maxSize <= 0 then 50 * 1024 * 1024 else maxSize;
      && (!src.broken ==> (result.Ok? <==> |content| <= limit))
      && (result.Ok? ==> result.value == content)
      && |content| - |src.pending| <= limit + 1
  {
    var limit := maxSize;
    if limit <= 0 {
      limit := DEFAULT_MAX_CANDIDATE_SIZE;
    }
    var data, err := ReadAtMost(src, limit + 1);
    if err != Fine {
      return Err(err);
    }
    if |data| > limit {
      return Err(TooLarge);
    }
    assert src.pending == [] && data + src.pending == data;
    result := Ok(data);
  }

  /** readAllLimited: the same lengths as an upload. */
  method ReadAllLimited(src: Source, limit: int) returns (result: Result<Bytes, ReadError>)
    modifies src
    ensures var content := old(src.pending);
      && (!src.broken ==> (result.Ok? <==> |content| <= limit))
      && (result.Ok? ==> result.value == content)
      && (|content| - |src.pending| <= limit + 1 || src.pending == content)
  {
    var cap := if limit + 1 < 0 then 0 else limit + 1;
    var data, err := ReadAtMost(src, cap);
    if err != Fine {
      return Err(err);
    }
    if |data| > limit {
      return Err(TooLarge);
    }
    assert src.pending == [] && data + src.pending == data;
    result := Ok(data);
  }
}
