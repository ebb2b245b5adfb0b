/** A conforming sender of chunked bodies, and the proof that the reader inverts it. */
module ChunkedSender {
  import opened ByteStrings
  import opened ChunkedBody

  /** The line before a chunk: any hex spelling of the size, white space, an extension. */
  datatype Head = Head(size: string, pad: string, extension: string)

  datatype Chunk = Chunk(head: Head, data: string)

  datatype Field = Field(name: string, pad: string, value: string)

  predicate OnOneLine(s: string) {
    '\n' !in s
  }

  predicate Blank(s: string, text: bool) {
    forall i :: 0 <= i < |s| ==> IsSpace(s[i], text)
  }

  predicate Trimmed(s: string, text: bool) {
    s == "" || (!IsSpace(s[0], text) && !IsSpace(s[|s| - 1], text))
  }

  function HeadText(head: Head): string {
    head.size + head.pad + head.extension + "\r"
  }

  predicate GoodHead(head: Head, n: nat) {
    && HexValue(head.size) == Some(n)
    && Blank(head.pad, false) && OnOneLine(head.pad)
    && (head.extension == "" || head.extension[0] == ';') && OnOneLine(head.extension)
    && |HeadText(head)| < MAX_SIZE_LINE + 2
  }

  predicate GoodChunk(chunk: Chunk) {
    chunk.data != "" && GoodHead(chunk.head, |chunk.data|)
  }

  /** The chunks on the wire, followed by `rest`. */
  function Encode(chunks: seq<Chunk>, rest: string): string {
    if chunks == [] then rest else EncodeChunk(chunks[0], Encode(chunks[1..], rest))
  }

  function EncodeChunk(chunk: Chunk, rest: string): string {
    HeadText(chunk.head) + "\n" + (chunk.data + (CRLF + rest))
  }

  function Data(chunks: seq<Chunk>): string {
    if chunks == [] then "" else chunks[0].data + Data(chunks[1..])
  }

  function FieldText(field: Field): string {
    field.name + ":" + field.pad + field.value + "\r"
  }

  predicate GoodField(field: Field) {
    && OnOneLine(field.name) && ':' !in field.name && Trimmed(field.name, true)
    && OnOneLine(field.pad) && Blank(field.pad, true)
    && OnOneLine(field.value) && Trimmed(field.value, true)
    && |FieldText(field)| < MAX_TRAILER_LINE + 2
  }

  /** The trailer lines on the wire, followed by `rest`. */
  function EncodeFields(fields: seq<Field>, rest: string): string {
    if fields == [] then rest else FieldText(fields[0]) + "\n" + EncodeFields(fields[1..], rest)
  }

  function FieldsLength(fields: seq<Field>): nat {
    if fields == [] then 0 else |FieldText(fields[0])| + 1 + FieldsLength(fields[1..])
  }

  /** Later fields of the same name win. */
  function Collected(trailers: Fields, fields: seq<Field>): Fields
    decreases |fields|
  {
    if fields == [] then trailers else Collected(trailers[fields[0].name := fields[0].value], fields[1..])
  }

  // ---- Lines ----

  /** Without a newline before `end`, the line goes on to `end`. */
  lemma {:induction false} LineGoesOn(wire: string, i: nat, end: nat, limit: nat)
    requires i <= end <= |wire| && end <= limit && forall k :: i <= k < end ==> wire[k] != '\n'
    ensures LineEnd(wire, i, limit) == LineEnd(wire, end, limit)
    decreases end - i
  {
    if i < end {
      LineGoesOn(wire, i + 1, end, limit);
    }
  }

  lemma LineReadBack(text: string, rest: string, limit: nat)
    requires OnOneLine(text) && |text| < limit
    ensures Line(text + "\n" + rest, limit) == text + "\n" && After(text + "\n" + rest, limit) == rest
  {
    var wire := text + "\n" + rest;
    assert forall k :: 0 <= k < |text| ==> wire[k] == text[k] && text[k] in text;
    LineGoesOn(wire, 0, |text|, limit);
    assert wire[|text|] == '\n';
    assert wire[..|text| + 1] == text + "\n";
  }

  lemma {:induction false} BeforeReadBack(a: string, b: string, c: char)
    requires c !in a && (b == "" || b[0] == c)
    ensures Before(a + b, c) == a
  {
    if a != "" {
      assert (a + b)[1..] == a[1..] + b && a[0] in a;
      BeforeReadBack(a[1..], b, c);
    } else {
      assert a + b == b;
    }
  }

  lemma {:induction false} TrimRightReadBack(core: string, pad: string, text: bool)
    requires Trimmed(core, text) && Blank(pad, text)
    ensures TrimRight(core + pad, text) == core
  {
    if pad != "" {
      assert (core + pad)[..|core + pad| - 1] == core + pad[..|pad| - 1];
      TrimRightReadBack(core, pad[..|pad| - 1], text);
    } else {
      assert core + pad == core;
    }
  }

  lemma {:induction false} TrimLeftReadBack(left: string, s: string, text: bool)
    requires Blank(left, text)
    ensures TrimLeft(left + s, text) == TrimLeft(s, text)
  {
    if left != "" {
      assert (left + s)[1..] == left[1..] + s;
      TrimLeftReadBack(left[1..], s, text);
    } else {
      assert left + s == s;
    }
  }

  lemma {:induction false} AllBlankTrims(pad: string, text: bool)
    requires Blank(pad, text)
    ensures TrimLeft(pad, text) == ""
  {
    if pad != "" {
      AllBlankTrims(pad[1..], text);
    }
  }

  lemma TrimReadBack(left: string, core: string, right: string, text: bool)
    requires Blank(left, text) && Trimmed(core, text) && Blank(right, text)
    ensures Trim(left + core + right, text) == core
  {
    assert left + core + right == left + (core + right);
    TrimLeftReadBack(left, core + right, text);
    if core == "" {
      assert core + right == right;
      AllBlankTrims(right, text);
    } else {
      TrimRightReadBack(core, right, text);
    }
  }

  // ---- Sizes ----

  lemma {:induction false} HexIsPlain(s: string)
    requires HexValue(s).Some?
    ensures s != "" && forall i :: 0 <= i < |s| ==> HexDigit(s[i]).Some?
  {
    if |s| > 1 {
      HexIsPlain(s[..|s| - 1]);
    }
  }

  function Digit(d: nat): (c: char)
    requires d < 16
    ensures HexDigit(c) == Some(d)
  {
    if d < 10 then '0' + d as char else 'a' + (d - 10) as char
  }

  function Hex(n: nat): string {
    if n < 16 then [Digit(n)] else Hex(n / 16) + [Digit(n % 16)]
  }

  /** Every size has a spelling. */
  lemma {:induction false} HexReadBack(n: nat)
    ensures HexValue(Hex(n)) == Some(n)
  {
    if n >= 16 {
      HexReadBack(n / 16);
      assert Hex(n)[..|Hex(n)| - 1] == Hex(n / 16);
    }
  }

  /** The size is what stands before white space and an extension, if there is one. */
  lemma SizeStandsFirst(size: string, pad: string, rest: string)
    requires HexValue(size).Some? && Blank(pad, false) && (rest == "" || rest[0] == ';')
    ensures SizeOf(size + pad + rest) == HexValue(size)
  {
    HexIsPlain(size);
    BeforeReadBack(size + pad, rest, ';');
    TrimReadBack("", size, pad, false);
    assert "" + size + pad == size + pad;
  }

  lemma SizeReadBack(head: Head, n: nat)
    requires GoodHead(head, n)
    ensures OnOneLine(HeadText(head)) && SizeOf(HeadText(head) + "\n") == Some(n)
  {
    var size, pad, ext := head.size, head.pad, head.extension;
    HexIsPlain(size);
    var line := HeadText(head) + "\n";
    if ext == "" {
      SizeStandsFirst(size, pad + CRLF, "");
      assert line == size + (pad + CRLF) + "";
    } else {
      SizeStandsFirst(size, pad, ext + CRLF);
      assert line == size + pad + (ext + CRLF);
    }
  }

  // ---- Chunks ----

  /** One chunk is read back, or turned away when it does not fit any more. */
  lemma ChunkReadBack(chunk: Chunk, rest: string, body: string, caps: Caps)
    requires GoodChunk(chunk)
    ensures var turn := ReadChunk(EncodeChunk(chunk, rest), body, caps);
      if Allows(caps, |body + chunk.data|) then turn == Turn(false, Read(None, body + chunk.data, rest))
      else turn.stop && turn.read.status == Some(413)
  {
    var after := chunk.data + (CRLF + rest);
    SizeReadBack(chunk.head, |chunk.data|);
    LineReadBack(HeadText(chunk.head), after, MAX_SIZE_LINE + 2);
    assert after[..|chunk.data|] == chunk.data;
    assert after[|chunk.data|..] == CRLF + rest;
  }

  lemma LastReadBack(head: Head, rest: string, body: string, caps: Caps)
    requires GoodHead(head, 0)
    ensures ReadChunk(HeadText(head) + "\n" + rest, body, caps) == Turn(true, Read(None, body, rest))
  {
    SizeReadBack(head, 0);
    LineReadBack(HeadText(head), rest, MAX_SIZE_LINE + 2);
  }

  /** The reader after a first chunk that fits, and after one that does not. */
  lemma FirstReadBack(chunk: Chunk, rest: string, body: string, caps: Caps)
    requires GoodChunk(chunk)
    ensures var read := ReadChunks(EncodeChunk(chunk, rest), body, caps);
      if Allows(caps, |body + chunk.data|) then read == ReadChunks(rest, body + chunk.data, caps)
      else read.status == Some(413)
  {
    ChunkReadBack(chunk, rest, body, caps);
  }

  lemma DataSplits(chunks: seq<Chunk>, body: string)
    requires chunks != []
    ensures body + Data(chunks) == (body + chunks[0].data) + Data(chunks[1..])
  {
  }

  /** All chunks are read back exactly when the whole body fits. */
  lemma {:induction false} ChunksReadBack(chunks: seq<Chunk>, last: Head, rest: string, body: string, caps: Caps)
    requires forall i :: 0 <= i < |chunks| ==> GoodChunk(chunks[i])
    requires GoodHead(last, 0) && Allows(caps, |body|)
    ensures var read := ReadChunks(Encode(chunks, HeadText(last) + "\n" + rest), body, caps);
      if Allows(caps, |body + Data(chunks)|) then read == Read(None, body + Data(chunks), rest)
      else read.status == Some(413)
  {
    if chunks == [] {
      assert body + Data(chunks) == body;
      LastReadBack(last, rest, body, caps);
    } else {
      var chunk, more := chunks[0], chunks[1..];
      FirstReadBack(chunk, Encode(more, HeadText(last) + "\n" + rest), body, caps);
      DataSplits(chunks, body);
      if Allows(caps, |body + chunk.data|) {
        ChunksReadBack(more, last, rest, body + chunk.data, caps);
      }
    }
  }

  // ---- Trailers ----

  lemma NameReadBack(name: string, after: string, trailers: Fields)
    requires ':' !in name && Trimmed(name, true)
    ensures WithField(trailers, name + (":" + after)) == trailers[name := Trim(after, true)]
  {
    BeforeReadBack(name, ":" + after, ':');
    TrimReadBack("", name, "", true);
    assert "" + name + "" == name;
    assert (name + (":" + after))[|name| + 1..] == after;
  }

  lemma FieldReadBack(field: Field, trailers: Fields)
    requires GoodField(field)
    ensures OnOneLine(FieldText(field))
    ensures WithField(trailers, FieldText(field) + "\n") == trailers[field.name := field.value]
  {
    var after := field.pad + field.value + CRLF;
    NameReadBack(field.name, after, trailers);
    TrimReadBack(field.pad, field.value, CRLF, true);
    assert FieldText(field) + "\n" == field.name + (":" + after);
  }

  lemma FieldIsNoEnd(field: Field)
    requires GoodField(field)
    ensures var line := FieldText(field) + "\n";
      line != CRLF && line != "\n" && line != "" && !TooLong(line, MAX_TRAILER_LINE)
  {
    var line := FieldText(field) + "\n";
    assert line[|field.name|] == ':' && line[|line| - 1] == '\n';
    assert ':' !in CRLF;
  }

  /** One trailer line is collected and counted. */
  lemma TrailerReadBack(field: Field, rest: string, seen: nat, trailers: Fields)
    requires GoodField(field) && seen + |FieldText(field)| + 1 <= MAX_TRAILER_SECTION
    ensures ReadTrailer(FieldText(field) + "\n" + rest, seen, trailers) ==
      TrailerTurn(false, seen + |FieldText(field)| + 1, Section(None, trailers[field.name := field.value], rest))
  {
    var text := FieldText(field);
    FieldReadBack(field, trailers);
    FieldIsNoEnd(field);
    LineReadBack(text, rest, MAX_TRAILER_LINE + 2);
  }

  lemma EndReadBack(rest: string, seen: nat, trailers: Fields)
    ensures ReadTrailer(CRLF + rest, seen, trailers) == TrailerTurn(true, seen, Section(None, trailers, rest))
  {
    LineReadBack("\r", rest, MAX_TRAILER_LINE + 2);
    assert "\r" + "\n" == CRLF;
  }

  predicate GoodFields(fields: seq<Field>) {
    fields == [] || (GoodField(fields[0]) && GoodFields(fields[1..]))
  }

  /** With a trailer line in front, the section ends as it does without, one field richer. */
  lemma FieldInFront(field: Field, rest: string, seen: nat, trailers: Fields, end: Section)
    requires GoodField(field) && seen + |FieldText(field)| + 1 <= MAX_TRAILER_SECTION
    requires ReadTrailers(rest, seen + |FieldText(field)| + 1, trailers[field.name := field.value]) == end
    ensures ReadTrailers(FieldText(field) + "\n" + rest, seen, trailers) == end
  {
    TrailerReadBack(field, rest, seen, trailers);
  }

  lemma {:induction false} FieldsReadBack(fields: seq<Field>, rest: string, seen: nat, trailers: Fields, end: Section)
    requires GoodFields(fields) && seen + FieldsLength(fields) <= MAX_TRAILER_SECTION
    requires end == Section(None, Collected(trailers, fields), rest)
    ensures ReadTrailers(EncodeFields(fields, CRLF + rest), seen, trailers) == end
    decreases |fields|
  {
    if fields == [] {
      EndReadBack(rest, seen, trailers);
    } else {
      var field, more := fields[0], EncodeFields(fields[1..], CRLF + rest);
      FieldsReadBack(fields[1..], rest, seen + |FieldText(field)| + 1, trailers[field.name := field.value], end);
      FieldInFront(field, more, seen, trailers, end);
    }
  }

  function EncodeBody(chunks: seq<Chunk>, last: Head, fields: seq<Field>, next: string): string {
    Encode(chunks, HeadText(last) + "\n" + EncodeFields(fields, CRLF + next))
  }

  /** Decoding inverts encoding: whatever the chunks, spellings, extensions and trailers,
      the reader gets the body and the trailers and stops at the next request, if the body
      is within the limits; and if it is not, it says 413. */
  lemma DecodingInverts(chunks: seq<Chunk>, last: Head, fields: seq<Field>, next: string, caps: Caps)
    requires forall i :: 0 <= i < |chunks| ==> GoodChunk(chunks[i])
    requires GoodHead(last, 0) && GoodFields(fields) && FieldsLength(fields) <= MAX_TRAILER_SECTION
    ensures var read := ReadChunks(EncodeBody(chunks, last, fields, next), "", caps);
      if Allows(caps, |Data(chunks)|)
      then read.status.None? && read.body == Data(chunks)
        && ReadTrailers(read.rest, 0, map[]) == Section(None, Collected(map[], fields), next)
      else read.status == Some(413)
  {
    assert "" + Data(chunks) == Data(chunks);
    ChunksReadBack(chunks, last, EncodeFields(fields, CRLF + next), "", caps);
    FieldsReadBack(fields, next, 0, map[], Section(None, Collected(map[], fields), next));
  }

  // ---- Streams that break off ----

  /** A stream without a newline is one line. */
  lemma WholeIsLine(wire: string, limit: nat)
    requires OnOneLine(wire) && |wire| <= limit
    ensures LineLength(wire, limit) == |wire|
  {
    assert forall k :: 0 <= k < |wire| ==> wire[k] in wire;
    LineGoesOn(wire, 0, |wire|, limit);
  }

  predicate AllZeros(s: string) {
    forall i :: 0 <= i < |s| ==> s[i] == '0'
  }

  /** A beginning of a number is a number, and is zero exactly if it is all zeros. */
  lemma {:induction false} Beginning(s: string, k: nat)
    requires HexValue(s).Some? && 1 <= k <= |s|
    ensures HexValue(s[..k]).Some? && (HexValue(s[..k]).value == 0 <==> AllZeros(s[..k]))
  {
    HexIsPlain(s);
    if k > 1 {
      Beginning(s, k - 1);
      assert s[..k][..k - 1] == s[..k - 1];
    } else {
      assert s[..1] == [s[0]];
    }
  }

  /** The cut leaves nothing of a line but leading zeros of its size. */
  predicate CutInZeros(head: Head, k: nat) {
    1 <= k <= |head.size| && AllZeros(head.size[..k])
  }

  /** A beginning of a size line reads as size zero exactly if it is nothing but zeros. */
  lemma CutHead(head: Head, n: nat, k: nat)
    requires GoodHead(head, n) && n > 0 && k <= |HeadText(head)|
    ensures OnOneLine(HeadText(head)[..k]) && (SizeOf(HeadText(head)[..k]) == Some(0) <==> CutInZeros(head, k))
  {
    var size, text := head.size, HeadText(head);
    SizeReadBack(head, n);
    if k == 0 {
      assert text[..k] == "";
    } else if k <= |size| {
      HexIsPlain(size);
      Beginning(size, k);
      SizeStandsFirst(size[..k], "", "");
      assert text[..k] == size[..k] + "" + "";
    } else {
      CutPastSize(head, n, k);
    }
  }

  lemma CutPastSize(head: Head, n: nat, k: nat)
    requires GoodHead(head, n) && |head.size| < k <= |HeadText(head)|
    ensures SizeOf(HeadText(head)[..k]) == Some(n)
  {
    var size, pad, text := head.size, head.pad, HeadText(head);
    var tail := head.extension + "\r";
    assert text == size + pad + tail;
    if k <= |size| + |pad| {
      SizeStandsFirst(size, pad[..k - |size|], "");
      assert text[..k] == size + pad[..k - |size|] + "";
    } else if head.extension == "" {
      SizeStandsFirst(size, pad + "\r", "");
      assert text[..k] == size + (pad + "\r") + "";
    } else {
      var rest := tail[..k - |size| - |pad|];
      SizeStandsFirst(size, pad, rest);
      assert text[..k] == size + pad + rest;
    }
  }

  lemma CutChunk(chunk: Chunk, rest: string, k: nat, body: string, caps: Caps)
    requires GoodChunk(chunk) && k < |EncodeChunk(chunk, "")|
    ensures var turn := ReadChunk(EncodeChunk(chunk, rest)[..k], body, caps);
      turn.stop && (turn.read.status.None? <==> CutInZeros(chunk.head, k))
  {
    var text, wire := HeadText(chunk.head), EncodeChunk(chunk, rest)[..k];
    if k <= |text| {
      CutHead(chunk.head, |chunk.data|, k);
      assert wire == text[..k];
      WholeIsLine(wire, MAX_SIZE_LINE + 2);
      assert Line(wire, MAX_SIZE_LINE + 2) == wire && After(wire, MAX_SIZE_LINE + 2) == "";
    } else {
      var after := (chunk.data + CRLF)[..k - |text| - 1];
      SizeReadBack(chunk.head, |chunk.data|);
      LineReadBack(text, after, MAX_SIZE_LINE + 2);
      assert wire == text + "\n" + after;
    }
  }

  lemma CutAfterChunk(chunk: Chunk, rest: string, k: nat)
    requires |EncodeChunk(chunk, "")| <= k <= |EncodeChunk(chunk, rest)|
    ensures k - |EncodeChunk(chunk, "")| <= |rest|
    ensures EncodeChunk(chunk, rest)[..k] == EncodeChunk(chunk, rest[..k - |EncodeChunk(chunk, "")|])
  {
  }

  predicate GoodChunks(chunks: seq<Chunk>) {
    forall i :: 0 <= i < |chunks| ==> GoodChunk(chunks[i])
  }

  function ChunkLength(chunk: Chunk): nat {
    |chunk.head.size| + |chunk.head.pad| + |chunk.head.extension| + |chunk.data| + 4
  }

  function WireLength(chunks: seq<Chunk>): nat {
    if chunks == [] then 0 else ChunkLength(chunks[0]) + WireLength(chunks[1..])
  }

  lemma ChunkLengthIs(chunk: Chunk, rest: string)
    ensures |EncodeChunk(chunk, rest)| == ChunkLength(chunk) + |rest|
  {
  }

  lemma {:induction false} WireLengthIs(chunks: seq<Chunk>)
    ensures |Encode(chunks, "")| == WireLength(chunks)
  {
    if chunks != [] {
      ChunkLengthIs(chunks[0], Encode(chunks[1..], ""));
      WireLengthIs(chunks[1..]);
    }
  }

  /** The cut falls right after leading zeros of some chunk's size. */
  predicate CutInASize(chunks: seq<Chunk>, k: nat) {
    chunks != [] &&
    var first := ChunkLength(chunks[0]);
    if k < first then CutInZeros(chunks[0].head, k) else CutInASize(chunks[1..], k - first)
  }

  /** The reader takes the first `k` octets of the chunks for a whole chunk section. */
  predicate Passes(chunks: seq<Chunk>, k: nat, body: string, caps: Caps) {
    k <= |Encode(chunks, "")| && ReadChunks(Encode(chunks, "")[..k], body, caps).status.None?
  }

  lemma NothingPasses(body: string, caps: Caps)
    ensures !Passes([], 0, body, caps)
  {
    assert Encode([], "")[..0] == "";
  }

  lemma BreaksInFirst(chunks: seq<Chunk>, k: nat, body: string, caps: Caps)
    requires chunks != [] && GoodChunk(chunks[0]) && k < ChunkLength(chunks[0])
    ensures Passes(chunks, k, body, caps) <==> CutInZeros(chunks[0].head, k)
  {
    ChunkLengthIs(chunks[0], "");
    ChunkLengthIs(chunks[0], Encode(chunks[1..], ""));
    CutChunk(chunks[0], Encode(chunks[1..], ""), k, body, caps);
  }

  lemma BreaksLater(chunks: seq<Chunk>, k: nat, body: string, caps: Caps)
    requires chunks != [] && GoodChunk(chunks[0]) && ChunkLength(chunks[0]) <= k <= WireLength(chunks)
    ensures Passes(chunks, k, body, caps) <==>
      Allows(caps, |body| + |chunks[0].data|) &&
      Passes(chunks[1..], k - ChunkLength(chunks[0]), body + chunks[0].data, caps)
  {
    var chunk, rest := chunks[0], Encode(chunks[1..], "");
    ChunkLengthIs(chunk, "");
    WireLengthIs(chunks);
    WireLengthIs(chunks[1..]);
    CutAfterChunk(chunk, rest, k);
    FirstReadBack(chunk, rest[..k - ChunkLength(chunk)], body, caps);
  }

  /** A body that breaks off before its last chunk passes for a whole one exactly where the
      cut leaves leading zeros of a size: those read as the last chunk. */
  lemma {:induction false} BrokenOff(chunks: seq<Chunk>, k: nat, body: string, caps: Caps)
    requires GoodChunks(chunks) && k <= WireLength(chunks)
    ensures Passes(chunks, k, body, caps) ==> CutInASize(chunks, k)
    ensures Allows(caps, |body| + |Data(chunks)|) && CutInASize(chunks, k) ==> Passes(chunks, k, body, caps)
  {
    if chunks == [] {
      NothingPasses(body, caps);
    } else if k < ChunkLength(chunks[0]) {
      BreaksInFirst(chunks, k, body, caps);
    } else {
      var longer := body + chunks[0].data;
      BrokenOff(chunks[1..], k - ChunkLength(chunks[0]), longer, caps);
      BreaksLater(chunks, k, body, caps);
      assert |longer| + |Data(chunks[1..])| == |body| + |Data(chunks)|;
    }
  }

  predicate LeadingZero(chunks: seq<Chunk>) {
    exists i :: 0 <= i < |chunks| && chunks[i].head.size != "" && chunks[i].head.size[0] == '0'
  }

  lemma {:induction false} CutNeedsZero(chunks: seq<Chunk>, k: nat)
    requires CutInASize(chunks, k)
    ensures LeadingZero(chunks)
  {
    var first := ChunkLength(chunks[0]);
    if k < first {
      assert chunks[0].head.size[..k][0] == '0';
    } else {
      CutNeedsZero(chunks[1..], k - first);
      var i :| 0 <= i < |chunks[1..]| && chunks[1..][i].head.size != "" && chunks[1..][i].head.size[0] == '0';
      assert chunks[i + 1] == chunks[1..][i];
    }
  }

  lemma {:induction false} ZeroGivesCut(chunks: seq<Chunk>) returns (k: nat)
    requires GoodChunks(chunks) && LeadingZero(chunks)
    ensures k <= WireLength(chunks) && CutInASize(chunks, k)
  {
    if chunks[0].head.size != "" && chunks[0].head.size[0] == '0' {
      k := 1;
    } else {
      ZeroIsLater(chunks);
      var more := ZeroGivesCut(chunks[1..]);
      k := ChunkLength(chunks[0]) + more;
    }
  }

  lemma ZeroIsLater(chunks: seq<Chunk>)
    requires LeadingZero(chunks) && (chunks[0].head.size == "" || chunks[0].head.size[0] != '0')
    ensures LeadingZero(chunks[1..])
  {
    var i :| 0 <= i < |chunks| && chunks[i].head.size != "" && chunks[i].head.size[0] == '0';
    assert chunks[1..][i - 1] == chunks[i];
  }

  /** Some truncation of a body within the limits passes for a whole body if and only if the
      sender spells some size with a leading zero. */
  lemma TruncationPassesIff(chunks: seq<Chunk>, caps: Caps)
    requires GoodChunks(chunks) && Allows(caps, |Data(chunks)|)
    ensures (exists k: nat :: Passes(chunks, k, "", caps)) <==> LeadingZero(chunks)
  {
    WireLengthIs(chunks);
    if k: nat :| Passes(chunks, k, "", caps) {
      BrokenOff(chunks, k, "", caps);
      CutNeedsZero(chunks, k);
    }
    if LeadingZero(chunks) {
      var k := ZeroGivesCut(chunks);
      BrokenOff(chunks, k, "", caps);
    }
  }
}
