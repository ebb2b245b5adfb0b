/** One upload in the S3 backend: chunks collect in a buffer object and leave it as parts
    of a multipart upload. */
module S3Storage {
  import opened ByteStrings
  import opened PatchRules

  const MIN_PART: nat := 5 * 1024 * 1024

  /** Where the process dies inside a chunk write, if it does. */
  datatype Crash = Never | AmongParts(uploads: nat) | BeforeInfo

  datatype Part = Part(number: Id, size: nat)

  datatype Finish = Done | Already | Raised

  predicate HasParts(uploaded: Files, n: nat) {
    forall k :: 1 <= k <= n ==> k in uploaded
  }

  /** The first parts of a multipart upload, joined. */
  function PartBytes(uploaded: Files, n: nat): Bytes
    requires HasParts(uploaded, n)
  {
    if n == 0 then [] else PartBytes(uploaded, n - 1) + uploaded[n]
  }

  /** The listed parts are stored under their numbers and are all of one size. */
  predicate Parted(uploaded: Files, info: seq<Part>, size: nat) {
    && HasParts(uploaded, |info|)
    && (forall k :: 1 <= k <= |info| ==> |uploaded[k]| == size)
    && (forall i :: 0 <= i < |info| ==> info[i] == Part(i + 1, size))
  }

  /** S3 takes a multipart upload whose parts, but for the last, are large enough. */
  predicate Accepts(uploaded: Files, n: nat)
    requires HasParts(uploaded, n)
  {
    forall k :: 1 <= k < n ==> |uploaded[k]| >= MIN_PART
  }

  lemma {:induction false} PartsFrame(before: Files, after: Files, n: nat, changed: nat)
    requires HasParts(before, n) && changed > n && changed in after && after == before[changed := after[changed]]
    ensures HasParts(after, n) && PartBytes(after, n) == PartBytes(before, n)
  {
    if n > 0 {
      PartsFrame(before, after, n - 1, changed);
    }
  }

  /** Storing one more part extends the string, and leaves every shorter one as it was. */
  lemma NextPart(uploaded: Files, n: nat, shorter: nat, data: Bytes)
    requires HasParts(uploaded, n) && shorter <= n
    ensures var after := uploaded[n + 1 := data];
      && HasParts(after, n + 1) && PartBytes(after, n + 1) == PartBytes(uploaded, n) + data
      && PartBytes(after, shorter) == PartBytes(uploaded, shorter)
  {
    var after := uploaded[n + 1 := data];
    PartsFrame(uploaded, after, n, n + 1);
    PartsFrame(uploaded, after, shorter, n + 1);
  }

  /** Moving one part from the front of what is buffered into the upload. */
  lemma FlushStep(uploaded: Files, info: seq<Part>, shorter: seq<Part>, size: nat, rest: Bytes)
    requires Parted(uploaded, info, size) && Parted(uploaded, shorter, size) && |shorter| <= |info| && size <= |rest|
    ensures var after := uploaded[|info| + 1 := rest[..size]];
      && Parted(after, info + [Part(|info| + 1, size)], size) && Parted(after, shorter, size)
      && PartBytes(after, |info| + 1) + rest[size..] == PartBytes(uploaded, |info|) + rest
      && PartBytes(after, |shorter|) == PartBytes(uploaded, |shorter|)
  {
    NextPart(uploaded, |info|, |shorter|, rest[..size]);
    assert rest == rest[..size] + rest[size..];
  }

  /** How many of `n` buffered bytes leave as parts. */
  function Leaving(n: nat, size: nat, flush: nat): (m: nat)
    requires 1 <= size <= flush
    ensures m <= n && n - m < flush
  {
    if n >= flush then size + Leaving(n - size, size, flush) else 0
  }

  /** What stays in the buffer. */
  function Staying(data: Bytes, size: nat, flush: nat): Bytes
    requires 1 <= size <= flush
  {
    if |data| >= flush then Staying(data[size..], size, flush) else data
  }

  lemma {:induction false} StayingIs(data: Bytes, size: nat, flush: nat)
    requires 1 <= size <= flush
    ensures Staying(data, size, flush) == data[Leaving(|data|, size, flush)..]
  {
    if |data| >= flush {
      StayingIs(data[size..], size, flush);
    }
  }

  /** `m` bytes leave exactly if they are whole parts, leave less than a flush behind, and
      the last of them had to go. */
  lemma {:induction false} LeavingIs(n: nat, m: nat, size: nat, flush: nat)
    requires 1 <= size <= flush && m <= n && n - m < flush
    ensures Leaving(n, size, flush) == m <==> m % size == 0 && (m == 0 || n - m + size >= flush)
  {
    if n >= flush && m >= size {
      LeavingIs(n - size, m - size, size, flush);
      OnePartLess(m, size);
    } else if 0 < m < size {
      PartIsWhole(m, size);
    }
  }

  lemma {:induction false} AtLeast(q: nat, size: nat)
    requires q >= 1
    ensures q * size >= size
  {
    if q > 1 {
      AtLeast(q - 1, size);
      assert q * size == (q - 1) * size + size;
    }
  }

  lemma {:induction false} OneQuotient(q: nat, r: nat, q': nat, r': nat, size: nat)
    requires r < size && r' < size && q * size + r == q' * size + r'
    ensures q == q'
  {
    if q == 0 || q' == 0 {
      if q > 0 {
        AtLeast(q, size);
      }
      if q' > 0 {
        AtLeast(q', size);
      }
    } else {
      assert q * size == (q - 1) * size + size && q' * size == (q' - 1) * size + size;
      OneQuotient(q - 1, r, q' - 1, r', size);
    }
  }

  lemma OnePartLess(m: nat, size: nat)
    requires 1 <= size <= m
    ensures (m - size) % size == m % size
  {
    var q, r, q', r' := m / size, m % size, (m - size) / size, (m - size) % size;
    assert m == q * size + r && m - size == q' * size + r';
    assert (q' + 1) * size == q' * size + size;
    OneQuotient(q, r, q' + 1, r', size);
  }

  lemma PartIsWhole(m: nat, size: nat)
    requires 0 < m < size
    ensures m % size == m
  {
  }

  class Upload {
    const partSize: nat
    const flushSize: nat
    // The multipart upload, the buffer object and the final object.
    var uploaded: Files
    var buffer: Option<Bytes>
    var published: Option<Bytes>
    // The info object.
    var parts: seq<Part>
    var bufferSize: nat
    var offset: nat
    var completed: bool

    ghost predicate Valid()
      reads this
    {
      && 1 <= partSize <= flushSize && flushSize == (if partSize < MIN_PART then MIN_PART else partSize)
      && Parted(uploaded, parts, partSize)
      && |Buffered()| < flushSize
    }

    /** The info object agrees with the buffer, and there are parts exactly when enough
        bytes have come in for the first one. */
    ghost predicate Settled()
      requires Valid()
      reads this
    {
      bufferSize == |Buffered()| && (parts != [] ==> |Contents()| >= flushSize)
    }

    /** What the next reader of the buffer gets. */
    function Buffered(): Bytes
      reads this
    {
      if bufferSize > 0 && buffer.Some? then buffer.value else []
    }

    /** The bytes of the upload so far. */
    function Contents(): Bytes
      requires HasParts(uploaded, |parts|)
      reads this
    {
      PartBytes(uploaded, |parts|) + Buffered()
    }

    constructor (partSize: nat)
      requires partSize >= 1
      ensures Valid() && Settled() && Contents() == [] && offset == 0 && !completed && this.partSize == partSize
    {
      this.partSize, flushSize := partSize, if partSize < MIN_PART then MIN_PART else partSize;
      uploaded, buffer, published, parts, bufferSize, offset, completed := map[], None, None, [], 0, 0, false;
    }

    method UploadPart(info: seq<Part>, data: Bytes) returns (longer: seq<Part>)
      modifies this`uploaded
      ensures longer == info + [Part(|info| + 1, |data|)] && uploaded == old(uploaded)[|info| + 1 := data]
    {
      uploaded := uploaded[|info| + 1 := data];
      longer := info + [Part(|info| + 1, |data|)];
    }

    /** Flushes parts while enough is buffered, for a list of parts that is not yet
        written back. */
    method Flush(data: Bytes, crash: Crash) returns (info: seq<Part>, rest: Bytes)
      requires Valid()
      modifies this`uploaded
      ensures Parted(uploaded, parts, partSize) && PartBytes(uploaded, |parts|) == PartBytes(old(uploaded), |parts|)
      ensures !crash.AmongParts? ==>
        && Parted(uploaded, info, partSize) && |rest| < flushSize
        && PartBytes(uploaded, |info|) + rest == PartBytes(old(uploaded), |parts|) + data
        && rest == Staying(data, partSize, flushSize)
        && (|data| >= flushSize ==> info != [])
      ensures crash.AmongParts? ==> |info| - |parts| <= crash.uploads
    {
      info, rest := parts, data;
      while |rest| >= flushSize
        invariant |info| >= |parts| && Parted(uploaded, info, partSize)
        invariant Parted(uploaded, parts, partSize) && PartBytes(uploaded, |parts|) == PartBytes(old(uploaded), |parts|)
        invariant PartBytes(uploaded, |info|) + rest == PartBytes(old(uploaded), |parts|) + data
        invariant rest == data || info != []
        invariant crash.AmongParts? ==> |info| - |parts| <= crash.uploads
        invariant Staying(rest, partSize, flushSize) == Staying(data, partSize, flushSize)
        decreases |rest|
      {
        if crash == AmongParts(|info| - |parts|) {
          return;
        }
        FlushStep(uploaded, info, parts, partSize, rest);
        info := UploadPart(info, rest[..partSize]);
        rest := rest[partSize..];
      }
    }

    /** Appends a chunk; the offset it was meant for plays no part. A buffer that cannot be
        read counts as empty. A process that dies while it stores parts has changed nothing.
        One that dies between the buffer and the info object has replaced the buffer: the
        parts that left it are not listed, and a listed buffer is what stayed behind. */
    method WriteChunk(at: nat, data: Bytes, readable: bool, crash: Crash)
      requires Valid()
      modifies this`uploaded, this`buffer, this`parts, this`bufferSize
      ensures Valid()
      ensures crash.Never? ==> Contents() == old(if readable then Contents() else PartBytes(uploaded, |parts|)) + data
      ensures crash.Never? && readable && old(Settled()) ==> Settled()
      ensures !crash.Never? ==>
        && parts == old(parts) && bufferSize == old(bufferSize)
        && PartBytes(uploaded, |parts|) == old(PartBytes(uploaded, |parts|))
      ensures crash.AmongParts? ==> buffer == old(buffer) && Contents() == old(Contents())
      ensures !crash.AmongParts? ==>
        var rest := Staying(old(if readable then Buffered() else []) + data, partSize, flushSize);
        && Buffered() == (if crash.BeforeInfo? && old(bufferSize) == 0 then [] else rest)
        && buffer == if rest == [] then None else Some(rest)
    {
      var existing := if readable then Buffered() else [];
      ghost var flushed := PartBytes(uploaded, |parts|);
      assert flushed + (existing + data) == (flushed + existing) + data;
      assert flushed + [] == flushed;
      var info, rest := Flush(existing + data, crash);
      if crash.AmongParts? {
        return;
      }
      buffer := if rest != [] then Some(rest) else None;
      if crash.BeforeInfo? {
        return;
      }
      parts, bufferSize := info, |rest|;
    }

    method UpdateOffsetAtomic(expected: nat, to: nat) returns (won: bool)
      modifies this`offset
      ensures won == (old(offset) == expected) && offset == if won then to else old(offset)
    {
      won := offset == expected;
      if won {
        offset := to;
      }
    }

    /** A PATCH that nothing disturbs: the string grows by exactly the chunk. */
    method Append(data: Bytes)
      requires Valid() && Settled() && offset == |Contents()|
      modifies this`uploaded, this`buffer, this`parts, this`bufferSize, this`offset
      ensures Valid() && Settled() && offset == |Contents()|
      ensures Contents() == old(Contents()) + data && completed == old(completed)
      ensures Buffered() == Staying(old(Buffered()) + data, partSize, flushSize)
    {
      WriteChunk(offset, data, true, Never);
      var _ := UpdateOffsetAtomic(offset, offset + |data|);
    }

    /** Publishes the string. Once a listed buffer has been read, parts smaller than S3
        allows are the only thing that can stop it. */
    method CompleteUpload(readable: bool) returns (finish: Finish)
      requires Valid()
      modifies this
      ensures old(completed) ==> finish == Already && published == old(published)
      ensures finish == Already ==> old(completed)
      ensures !old(completed) ==> (finish == Done <==>
        (old(bufferSize) == 0 || (readable && old(buffer).Some?)) &&
        (partSize >= MIN_PART || |old(parts)| + (if old(Buffered()) != [] then 1 else 0) <= 1))
      ensures finish == Done ==> completed && published == Some(old(Contents())) && buffer.None?
      ensures finish == Raised ==> !completed && published == old(published) && Valid() && Contents() == old(Contents())
    {
      if completed {
        return Already;
      }
      if bufferSize > 0 && (!readable || buffer.None?) {
        return Raised;
      }
      var remaining := Buffered();
      assert PartBytes(uploaded, |parts|) + [] == PartBytes(uploaded, |parts|);
      assert [] + remaining == remaining;
      if parts != [] {
        var info := parts;
        assert |uploaded[1]| == partSize;
        if remaining != [] {
          NextPart(uploaded, |parts|, |parts|, remaining);
          info := UploadPart(parts, remaining);
        }
        if !Accepts(uploaded, |info|) {
          return Raised;
        }
        published := Some(PartBytes(uploaded, |info|));
        parts := info;
      } else {
        published := Some(remaining);
      }
      buffer := None;
      completed := true;
      finish := Done;
    }
  }

  lemma FirstPart(uploaded: Files, info: seq<Part>, size: nat)
    requires Parted(uploaded, info, size)
    ensures |info| == 1 ==> |PartBytes(uploaded, 1)| == size
  {
    assert PartBytes(uploaded, 0) == [];
  }

  /** A whole upload, chunk by chunk: it is published, and is exactly the chunks in order,
      if and only if the part size respects S3's minimum or the upload is smaller than it. */
  method StoreAll(partSize: nat, chunks: seq<Bytes>) returns (up: Upload, finish: Finish)
    requires partSize >= 1
    ensures finish == (if partSize >= MIN_PART || |Flatten(chunks)| < MIN_PART then Done else Raised)
    ensures finish == Done ==> up.published == Some(Flatten(chunks))
  {
    up := new Upload(partSize);
    for i := 0 to |chunks|
      invariant up.Valid() && up.Settled() && up.offset == |up.Contents()| && fresh(up) && !up.completed
      invariant up.Contents() == Flatten(chunks[..i]) && up.partSize == partSize
    {
      up.Append(chunks[i]);
      FlattenNext(chunks, i);
    }
    assert chunks[..|chunks|] == chunks;
    FirstPart(up.uploaded, up.parts, partSize);
    finish := up.CompleteUpload(true);
  }

  /** A process that dies between the buffer and the info object, and a client that sends
      the chunk again: the chunk is there twice. */
  method SentAgain(partSize: nat, a: Bytes, b: Bytes) returns (up: Upload)
    requires partSize >= 1 && a != [] && b != [] && |a| + 2 * |b| < MIN_PART
    ensures up.Valid() && up.Contents() == a + b + b
  {
    up := new Upload(partSize);
    up.Append(a);
    assert up.Contents() == a;
    up.WriteChunk(|a|, b, true, BeforeInfo);
    assert up.Contents() == a + b;
    up.WriteChunk(|a|, b, true, Never);
  }

  /** What stays of buffer and chunk is the buffer again exactly if the chunk is whole parts
      that all had to leave and ends with the bytes of the buffer. */
  predicate BufferRecurs(buffered: Bytes, data: Bytes, size: nat, flush: nat)
    requires size >= 1
  {
    && |data| % size == 0
    && (data == [] || |buffered| + size >= flush)
    && (buffered + data)[|data|..] == buffered
  }

  lemma StaysTheSame(buffered: Bytes, data: Bytes, size: nat, flush: nat)
    requires 1 <= size <= flush && |buffered| < flush
    ensures Staying(buffered + data, size, flush) == buffered <==> BufferRecurs(buffered, data, size, flush)
  {
    StayingIs(buffered + data, size, flush);
    LeavingIs(|buffered + data|, |data|, size, flush);
  }

  lemma MiddleCounts(front: Bytes, x: Bytes, y: Bytes, back: Bytes)
    ensures front + x + back == front + y + back <==> x == y
  {
    var a, b := front + x + back, front + y + back;
    if a == b {
      assert |x| == |y|;
      assert x == a[|front|..|front| + |x|] && y == b[|front|..|front| + |y|];
    }
  }

  /** A process that dies between the buffer and the info object, and a client that sends the
      chunk again. The chunks are stored once each exactly if nothing was buffered, or what
      the dead process left in the buffer is what it had found there. */
  method CrashThenRetry(up: Upload, data: Bytes)
    requires up.Valid() && up.Settled()
    modifies up
    ensures up.Valid()
    ensures up.Contents() == old(PartBytes(up.uploaded, |up.parts|)) +
      (if old(up.bufferSize) == 0 then [] else Staying(old(up.Buffered()) + data, up.partSize, up.flushSize)) + data
    ensures up.Contents() == old(up.Contents()) + data <==>
      old(up.Buffered()) == [] || BufferRecurs(old(up.Buffered()), data, up.partSize, up.flushSize)
  {
    ghost var flushed, buffered := PartBytes(up.uploaded, |up.parts|), up.Buffered();
    up.WriteChunk(up.offset, data, true, BeforeInfo);
    ghost var left := up.Buffered();
    up.WriteChunk(up.offset, data, true, Never);
    StaysTheSame(buffered, data, up.partSize, up.flushSize);
    MiddleCounts(flushed, left, buffered, data);
  }

  /** A process that dies when the chunk is stored but its offset is not, and a client that
      sends the chunk again: it is there twice, whatever was buffered, and the offset counts
      it once. Only a chunk without bytes does no harm. */
  method UncommittedThenRetry(up: Upload, data: Bytes)
    requires up.Valid() && up.Settled() && up.offset == |up.Contents()|
    modifies up
    ensures up.Valid() && up.Settled()
    ensures up.Contents() == old(up.Contents()) + data + data && up.offset == old(up.offset) + |data|
    ensures up.Contents() == old(up.Contents()) + data <==> data == []
    ensures up.offset == |up.Contents()| <==> data == []
  {
    up.WriteChunk(up.offset, data, true, Never);
    up.WriteChunk(up.offset, data, true, Never);
    var _ := up.UpdateOffsetAtomic(up.offset, up.offset + |data|);
  }

  /** Accepted bytes can be lost: when the chunk fills a part, the buffer is gone and the
      part is not listed. Sending the chunk again stores that chunk alone. */
  method LosesBuffered(partSize: nat, a: Bytes, b: Bytes) returns (up: Upload, ghost left: Bytes)
    requires partSize >= MIN_PART && a != [] && b != [] && |a| + |b| == partSize
    ensures left == []
    ensures up.Valid() && up.Contents() == b
  {
    up := new Upload(partSize);
    up.Append(a);
    assert up.Contents() == a;
    up.WriteChunk(|a|, b, true, BeforeInfo);
    left := up.Contents();
    up.WriteChunk(|a|, b, true, Never);
  }
}
