/** The chunked request body: the reader of the HTTP front end against a conforming
    sender (sections 7.1 and 6.3 of RFC 9112). Octets are Latin-1 characters. */
module ChunkedBody {
  import opened ByteStrings

  const MAX_SIZE_LINE: nat := 8192
  const MAX_TRAILER_LINE: nat := 8192
  const MAX_TRAILER_SECTION: nat := 65536
  const READ_BLOCK: nat := 65536

  const CRLF: string := "\r\n"

  type Fields = map<string, string>

  /** The limits that apply to this body; zero means unlimited. */
  datatype Caps = Caps(maxSize: nat, maxChunk: nat)

  predicate Allows(caps: Caps, n: nat) {
    (caps.maxSize > 0 ==> n <= caps.maxSize) && (caps.maxChunk > 0 ==> n <= caps.maxChunk)
  }

  // ---- Lines, white space, numbers ----

  /** Where the line that goes on at `i` ends: after a newline, at the end, or at `limit`. */
  function LineEnd(wire: string, i: nat, limit: nat): (n: nat)
    requires i <= |wire| && i <= limit
    ensures i <= n <= |wire| && n <= limit
    decreases |wire| - i
  {
    if i == |wire| || i == limit then i
    else if wire[i] == '\n' then i + 1
    else LineEnd(wire, i + 1, limit)
  }

  /** How much readline takes: up to and including a newline, at most `limit`. */
  function LineLength(wire: string, limit: nat): (n: nat)
    ensures n <= |wire| && n <= limit
    ensures wire != "" && limit > 0 ==> n > 0
  {
    LineEnd(wire, 0, limit)
  }

  function Line(wire: string, limit: nat): string {
    wire[..LineLength(wire, limit)]
  }

  function After(wire: string, limit: nat): string {
    wire[LineLength(wire, limit)..]
  }

  predicate EndsLine(line: string) {
    line != "" && line[|line| - 1] == '\n'
  }

  /** A line that hits the cap without a newline. */
  predicate TooLong(line: string, cap: nat) {
    |line| > cap && !EndsLine(line)
  }

  /** What strip removes: from bytes, or from decoded text, where more counts as space. */
  predicate IsSpace(c: char, text: bool) {
    c == ' ' || '\t' <= c <= '\r' || (text && ('\U{1c}' <= c <= '\U{1f}' || c == '\U{85}' || c == '\U{a0}'))
  }

  function TrimLeft(s: string, text: bool): string {
    if s != "" && IsSpace(s[0], text) then TrimLeft(s[1..], text) else s
  }

  function TrimRight(s: string, text: bool): string {
    if s != "" && IsSpace(s[|s| - 1], text) then TrimRight(s[..|s| - 1], text) else s
  }

  function Trim(s: string, text: bool): string {
    TrimRight(TrimLeft(s, text), text)
  }

  /** The part before the first `c`, or everything. */
  function Before(s: string, c: char): (r: string)
    ensures |r| <= |s|
  {
    if s == "" || s[0] == c then "" else [s[0]] + Before(s[1..], c)
  }

  function HexDigit(c: char): Option<nat> {
    if '0' <= c <= '9' then Some(c as int - '0' as int)
    else if 'a' <= c <= 'f' then Some(c as int - 'a' as int + 10)
    else if 'A' <= c <= 'F' then Some(c as int - 'A' as int + 10)
    else None
  }

  const DIGITS: string := "0123456789abcdef"
  const CAPITALS: string := "0123456789ABCDEF"

  /** Hex digits of either case, and nothing else, have their values. */
  lemma HexDigitIs(c: char, value: nat)
    ensures HexDigit(c) == Some(value) <==> value < 16 && (c == DIGITS[value] || c == CAPITALS[value])
  {
  }

  function HexValue(s: string): Option<nat> {
    if s == "" then None
    else
      var digit := HexDigit(s[|s| - 1]);
      if digit.None? then None
      else if |s| == 1 then digit
      else
        var high := HexValue(s[..|s| - 1]);
        if high.None? then None else Some(16 * high.value + digit.value)
  }

  function SizeOf(line: string): Option<nat> {
    HexValue(Trim(Before(line, ';'), false))
  }

  // ---- What the reader computes ----

  /** `status` is the rejection, if any; `body` is what was buffered. */
  datatype Read = Read(status: Option<nat>, body: string, rest: string)

  /** Where the stream stands after one chunk, and whether the loop stops there. */
  datatype Turn = Turn(stop: bool, read: Read)

  function ReadChunk(wire: string, body: string, caps: Caps): (turn: Turn)
    ensures !turn.stop ==> |turn.read.rest| < |wire| && turn.read.status.None?
  {
    var line, rest := Line(wire, MAX_SIZE_LINE + 2), After(wire, MAX_SIZE_LINE + 2);
    if TooLong(line, MAX_SIZE_LINE) then Turn(true, Read(Some(400), body, rest))
    else
      match SizeOf(line)
      case None => Turn(true, Read(Some(400), body, rest))
      case Some(size) =>
        if size == 0 then Turn(true, Read(None, body, rest))
        else if !Allows(caps, |body| + size) then Turn(true, Read(Some(413), body, rest))
        else if |rest| < size then Turn(true, Read(Some(400), body + rest, ""))
        else
          var longer, left := body + rest[..size], rest[size..];
          if left[..Min(2, |left|)] == CRLF then Turn(false, Read(None, longer, left[2..]))
          else Turn(true, Read(Some(400), longer, left[Min(2, |left|)..]))
  }

  function ReadChunks(wire: string, body: string, caps: Caps): Read
    decreases |wire|
  {
    var turn := ReadChunk(wire, body, caps);
    if turn.stop then turn.read else ReadChunks(turn.read.rest, turn.read.body, caps)
  }

  datatype Section = Section(status: Option<nat>, trailers: Fields, rest: string)

  function WithField(trailers: Fields, line: string): Fields {
    var name := Before(line, ':');
    if |name| == |line| then trailers else trailers[Trim(name, true) := Trim(line[|name| + 1..], true)]
  }

  /** Where the stream stands after one trailer line, with the octets counted so far. */
  datatype TrailerTurn = TrailerTurn(stop: bool, seen: nat, section: Section)

  function ReadTrailer(wire: string, seen: nat, trailers: Fields): (turn: TrailerTurn)
    ensures !turn.stop ==> |turn.section.rest| < |wire| && turn.section.status.None?
  {
    var line, rest := Line(wire, MAX_TRAILER_LINE + 2), After(wire, MAX_TRAILER_LINE + 2);
    if line == CRLF || line == "\n" || line == "" then TrailerTurn(true, seen, Section(None, trailers, rest))
    else if TooLong(line, MAX_TRAILER_LINE) then TrailerTurn(true, seen, Section(Some(400), trailers, rest))
    else if seen + |line| > MAX_TRAILER_SECTION then
      TrailerTurn(true, seen + |line|, Section(Some(400), trailers, rest))
    else TrailerTurn(false, seen + |line|, Section(None, WithField(trailers, line), rest))
  }

  function ReadTrailers(wire: string, seen: nat, trailers: Fields): Section
    decreases |wire|
  {
    var turn := ReadTrailer(wire, seen, trailers);
    if turn.stop then turn.section else ReadTrailers(turn.section.rest, turn.seen, turn.section.trailers)
  }

  // ---- The reader ----

  class Stream {
    var wire: string

    constructor (wire: string)
      ensures this.wire == wire
    {
      this.wire := wire;
    }

    method ReadLine(limit: nat) returns (line: string)
      modifies this
      ensures line == Line(old(wire), limit) && wire == After(old(wire), limit)
    {
      var n := 0;
      while n < |wire| && n < limit && (n == 0 || wire[n - 1] != '\n')
        invariant n <= |wire| && n <= limit
        invariant LineLength(wire, limit) == if n > 0 && wire[n - 1] == '\n' then n else LineEnd(wire, n, limit)
      {
        n := n + 1;
      }
      line, wire := wire[..n], wire[n..];
    }

    /** Up to `n` octets; fewer only at the end of the stream. */
    method Take(n: nat) returns (data: string)
      modifies this
      ensures data == old(wire)[..Min(n, |old(wire)|)] && wire == old(wire)[Min(n, |old(wire)|)..]
    {
      var k := Min(n, |wire|);
      data, wire := wire[..k], wire[k..];
    }
  }

  /** One chunk's data, block by block. */
  method TakeData(stream: Stream, body: string, size: nat) returns (ok: bool, longer: string)
    modifies stream
    ensures ok == (|old(stream.wire)| >= size)
    ensures ok ==> longer == body + old(stream.wire)[..size] && stream.wire == old(stream.wire)[size..]
    ensures !ok ==> longer == body + old(stream.wire) && stream.wire == ""
  {
    longer := body;
    ghost var wire := stream.wire;
    var remaining: nat := size;
    while remaining > 0
      invariant remaining <= size && |wire| >= size - remaining
      invariant stream.wire == wire[size - remaining..]
      invariant longer == body + wire[..size - remaining]
    {
      var block := stream.Take(Min(remaining, READ_BLOCK));
      if block == "" {
        assert wire[..size - remaining] == wire;
        return false, longer;
      }
      assert wire[..size - remaining] + block == wire[..size - remaining + |block|];
      longer := longer + block;
      remaining := remaining - |block|;
    }
    assert remaining == 0;
    ok := true;
  }

  method TakeChunk(stream: Stream, body: string, caps: Caps) returns (stop: bool, status: Option<nat>, longer: string)
    modifies stream
    ensures Turn(stop, Read(status, longer, stream.wire)) == ReadChunk(old(stream.wire), body, caps)
    ensures Allows(caps, |body|) ==> Allows(caps, |longer|)
  {
    var line := stream.ReadLine(MAX_SIZE_LINE + 2);
    if TooLong(line, MAX_SIZE_LINE) {
      return true, Some(400), body;
    }
    var size := SizeOf(line);
    if size.None? {
      return true, Some(400), body;
    }
    if size.value == 0 {
      return true, None, body;
    }
    if !Allows(caps, |body| + size.value) {
      return true, Some(413), body;
    }
    var ok;
    ok, longer := TakeData(stream, body, size.value);
    if !ok {
      return true, Some(400), longer;
    }
    var end := stream.Take(2);
    if end != CRLF {
      return true, Some(400), longer;
    }
    return false, None, longer;
  }

  method TakeChunks(stream: Stream, caps: Caps) returns (status: Option<nat>, body: string)
    modifies stream
    ensures Read(status, body, stream.wire) == ReadChunks(old(stream.wire), "", caps)
    ensures Allows(caps, |body|)
  {
    status, body := None, "";
    var stop := false;
    while !stop
      invariant Allows(caps, |body|)
      invariant ReadChunks(old(stream.wire), "", caps) ==
        if stop then Read(status, body, stream.wire) else ReadChunks(stream.wire, body, caps)
      decreases !stop, |stream.wire|
    {
      stop, status, body := TakeChunk(stream, body, caps);
    }
  }

  method TakeTrailer(stream: Stream, seen: nat, trailers: Fields)
    returns (stop: bool, counted: nat, status: Option<nat>, longer: Fields)
    modifies stream
    ensures TrailerTurn(stop, counted, Section(status, longer, stream.wire)) ==
      ReadTrailer(old(stream.wire), seen, trailers)
  {
    var line := stream.ReadLine(MAX_TRAILER_LINE + 2);
    if line == CRLF || line == "\n" || line == "" {
      return true, seen, None, trailers;
    }
    if TooLong(line, MAX_TRAILER_LINE) {
      return true, seen, Some(400), trailers;
    }
    counted := seen + |line|;
    if counted > MAX_TRAILER_SECTION {
      return true, counted, Some(400), trailers;
    }
    return false, counted, None, WithField(trailers, line);
  }

  method TakeTrailers(stream: Stream) returns (status: Option<nat>, trailers: Fields)
    modifies stream
    ensures Section(status, trailers, stream.wire) == ReadTrailers(old(stream.wire), 0, map[])
  {
    status, trailers := None, map[];
    var stop, seen: nat := false, 0;
    while !stop
      invariant ReadTrailers(old(stream.wire), 0, map[]) ==
        if stop then Section(status, trailers, stream.wire) else ReadTrailers(stream.wire, seen, trailers)
      decreases !stop, |stream.wire|
    {
      stop, seen, status, trailers := TakeTrailer(stream, seen, trailers);
    }
  }

  /** Reads a chunked body and its trailers. Whatever comes over the wire, what is buffered
      stays within the limits. */
  method ReadChunkedBody(stream: Stream, caps: Caps) returns (status: Option<nat>, body: string, trailers: Fields)
    modifies stream
    ensures var read := ReadChunks(old(stream.wire), "", caps);
      && body == read.body
      && (read.status.Some? ==> status == read.status && stream.wire == read.rest)
      && (read.status.None? ==> Section(status, trailers, stream.wire) == ReadTrailers(read.rest, 0, map[]))
    ensures caps.maxSize > 0 ==> |body| <= caps.maxSize
    ensures caps.maxChunk > 0 ==> |body| <= caps.maxChunk
  {
    trailers := map[];
    status, body := TakeChunks(stream, caps);
    if status.None? {
      status, trailers := TakeTrailers(stream);
    }
  }
}
