/** Which chunked bodies the reader turns away, octet by octet: what it takes for a line, for
    a size and for a trailer field, and the status for everything else. */
module ChunkedRefusals {
  import opened ByteStrings
  import opened ChunkedBody
  import opened ChunkedSender

  // ---- Lines ----

  /** A line of at most `limit` octets: up to a newline, or to the end of the stream. */
  predicate FirstLine(wire: string, limit: nat, line: string, rest: string) {
    && wire == line + rest && |line| <= limit
    && (forall i :: 0 <= i < |line| - 1 ==> line[i] != '\n')
    && ((line != "" && line[|line| - 1] == '\n') || |line| == limit || rest == "")
  }

  lemma {:induction false} LineStops(wire: string, i: nat, limit: nat)
    requires i <= |wire| && i <= limit
    ensures var n := LineEnd(wire, i, limit);
      && i <= n && (forall k :: i <= k < n - 1 ==> wire[k] != '\n')
      && ((n > i && wire[n - 1] == '\n') || n == limit || n == |wire|)
    decreases |wire| - i
  {
    if i < |wire| && i < limit && wire[i] != '\n' {
      LineStops(wire, i + 1, limit);
    }
  }

  /** What readline takes is the first line, and there is only one. */
  lemma LineIs(wire: string, limit: nat, line: string, rest: string)
    ensures FirstLine(wire, limit, line, rest) <==> line == Line(wire, limit) && rest == ChunkedBody.After(wire, limit)
  {
    LineStops(wire, 0, limit);
    if FirstLine(wire, limit, line, rest) {
      assert forall i :: 0 <= i < |line| ==> wire[i] == line[i];
      var n := LineLength(wire, limit);
      assert wire[..n] == line && wire[n..] == rest;
    } else {
      assert wire == Line(wire, limit) + ChunkedBody.After(wire, limit);
    }
  }

  // ---- Sizes ----

  /** What counts as white space, in octets and in decoded text. */
  lemma SpaceIs(c: char)
    ensures IsSpace(c, false) <==> c in [' ', '\t', '\n', '\U{0b}', '\U{0c}', '\r']
    ensures IsSpace(c, true) <==>
      IsSpace(c, false) || c in ['\U{1c}', '\U{1d}', '\U{1e}', '\U{1f}', '\U{85}', '\U{a0}']
  {
  }

  lemma {:induction false} TrimLeftSplits(s: string, text: bool) returns (left: string)
    ensures s == left + TrimLeft(s, text) && Blank(left, text)
    ensures TrimLeft(s, text) == "" || !IsSpace(TrimLeft(s, text)[0], text)
  {
    if s != "" && IsSpace(s[0], text) {
      left := TrimLeftSplits(s[1..], text);
      assert s == [s[0]] + s[1..];
      left := [s[0]] + left;
    } else {
      left := "";
    }
  }

  lemma {:induction false} TrimRightSplits(s: string, text: bool) returns (right: string)
    ensures s == TrimRight(s, text) + right && Blank(right, text)
    ensures var core := TrimRight(s, text); core == "" || (core[0] == s[0] && !IsSpace(core[|core| - 1], text))
  {
    if s != "" && IsSpace(s[|s| - 1], text) {
      right := TrimRightSplits(s[..|s| - 1], text);
      assert s == s[..|s| - 1] + [s[|s| - 1]];
      right := right + [s[|s| - 1]];
    } else {
      right := "";
    }
  }

  /** Stripping takes white space from both ends and leaves none there. */
  lemma TrimSplits(s: string, text: bool) returns (left: string, right: string)
    ensures s == left + Trim(s, text) + right && Blank(left, text) && Blank(right, text)
    ensures Trimmed(Trim(s, text), text)
  {
    left := TrimLeftSplits(s, text);
    right := TrimRightSplits(TrimLeft(s, text), text);
  }

  lemma {:induction false} BeforeSplits(s: string, c: char) returns (rest: string)
    ensures s == Before(s, c) + rest && c !in Before(s, c) && (rest == "" || rest[0] == c)
  {
    if s == "" || s[0] == c {
      rest := s;
    } else {
      rest := BeforeSplits(s[1..], c);
      assert s == [s[0]] + s[1..];
    }
  }

  /** A size line: white space, the size in hex digits of either case, white space, and an
      extension behind a semicolon. */
  predicate SizeLine(line: string, left: string, size: string, right: string, extension: string, n: nat) {
    && line == left + size + right + extension && Blank(left, false) && Blank(right, false)
    && (extension == "" || extension[0] == ';')
    && HexValue(size) == Some(n)
  }

  /** Whatever has this form is read as its size. */
  lemma SizeIsRead(line: string, left: string, size: string, right: string, extension: string, n: nat)
    requires SizeLine(line, left, size, right, extension, n)
    ensures SizeOf(line) == Some(n)
  {
    HexIsPlain(size);
    assert forall i :: 0 <= i < |size| ==> size[i] != ';' && !IsSpace(size[i], false);
    var front := left + size + right;
    assert ';' !in front;
    BeforeReadBack(front, extension, ';');
    TrimReadBack(left, size, right, false);
    assert line == front + extension;
  }

  /** And nothing else is. */
  lemma ReadIsSize(line: string) returns (left: string, size: string, right: string, extension: string)
    requires SizeOf(line).Some?
    ensures SizeLine(line, left, size, right, extension, SizeOf(line).value)
  {
    extension := BeforeSplits(line, ';');
    left, right := TrimSplits(Before(line, ';'), false);
    size := Trim(Before(line, ';'), false);
  }

  // ---- The answer to one chunk ----

  /** Longer than a line may be, and not ended. */
  predicate Endless(line: string, cap: nat) {
    |line| > cap && line[|line| - 1] != '\n'
  }

  predicate OverLimit(caps: Caps, n: nat) {
    0 < caps.maxSize < n || 0 < caps.maxChunk < n
  }

  /** The data of a chunk is there, with a line end behind it. */
  predicate HasChunk(rest: string, size: nat) {
    |rest| >= size + 2 && rest[size] == '\r' && rest[size + 1] == '\n'
  }

  /** 400 for an endless line, for what is no size, and for data that is cut short or badly
      ended; 413 from the declared size alone; an end at size zero; and otherwise the data
      joins the body, and the next chunk follows. */
  lemma ChunkAnswer(wire: string, body: string, caps: Caps, line: string, rest: string)
    requires FirstLine(wire, MAX_SIZE_LINE + 2, line, rest)
    ensures var turn, size := ReadChunk(wire, body, caps), SizeOf(line);
      var sized := !Endless(line, MAX_SIZE_LINE) && size.Some?;
      && (turn.read.status == Some(400) <==>
            !sized || (size.value > 0 && !OverLimit(caps, |body| + size.value) && !HasChunk(rest, size.value)))
      && (turn.read.status == Some(413) <==> sized && size.value > 0 && OverLimit(caps, |body| + size.value))
      && (turn == Turn(true, Read(None, body, rest)) <==> sized && size.value == 0)
      && (!turn.stop <==>
            sized && size.value > 0 && !OverLimit(caps, |body| + size.value) && HasChunk(rest, size.value))
      && (!turn.stop ==> turn.read == Read(None, body + rest[..size.value], rest[size.value + 2..]))
  {
    LineIs(wire, MAX_SIZE_LINE + 2, line, rest);
    if SizeOf(line).Some? && |rest| >= SizeOf(line).value {
      var left := rest[SizeOf(line).value..];
      assert left[..Min(2, |left|)] == CRLF <==> |left| >= 2 && left[0] == '\r' && left[1] == '\n';
    }
  }

  // ---- The answer to one trailer line ----

  /** The section ends at an empty line or at the end of the stream; 400 for an endless line
      and for too many octets; a field is stripped on both sides and replaces an earlier one
      of its name, and a line that is no field is passed over. */
  lemma TrailerAnswer(wire: string, seen: nat, trailers: Fields, line: string, rest: string)
    requires FirstLine(wire, MAX_TRAILER_LINE + 2, line, rest)
    ensures var turn := ReadTrailer(wire, seen, trailers);
      var over := Endless(line, MAX_TRAILER_LINE) || seen + |line| > MAX_TRAILER_SECTION;
      var ends := line in ["\r\n", "\n", ""];
      && (turn.stop <==> ends || over)
      && (turn.section.status == Some(400) <==> !ends && over)
      && (ends ==> turn.section == Section(None, trailers, rest))
      && (!turn.stop ==> turn.seen == seen + |line| && turn.section.rest == rest && turn.section.status.None?)
      && (!turn.stop && ':' !in line ==> turn.section.trailers == trailers)
  {
    LineIs(wire, MAX_TRAILER_LINE + 2, line, rest);
    if ':' !in line {
      var _ := BeforeSplits(line, ':');
    }
  }

  /** Name and value of a field are what stands before and behind the first colon, without
      the white space around them. */
  lemma FieldIsRead(trailers: Fields, a: string, name: string, b: string, c: string, value: string, d: string)
    requires Blank(a, true) && Blank(b, true) && Blank(c, true) && Blank(d, true)
    requires Trimmed(name, true) && Trimmed(value, true) && ':' !in name
    ensures WithField(trailers, a + name + b + (":" + (c + value + d))) == trailers[name := value]
  {
    var before, after := a + name + b, c + value + d;
    assert ':' !in a && ':' !in b;
    BeforeReadBack(before, ":" + after, ':');
    assert (before + (":" + after))[|before| + 1..] == after;
    TrimReadBack(a, name, b, true);
    TrimReadBack(c, value, d, true);
  }

  lemma TooManyInFront(field: Field, rest: string, seen: nat, trailers: Fields)
    requires GoodField(field) && seen + |FieldText(field)| + 1 > MAX_TRAILER_SECTION
    ensures ReadTrailers(FieldText(field) + "\n" + rest, seen, trailers).status == Some(400)
  {
    var text := FieldText(field);
    FieldReadBack(field, trailers);
    FieldIsNoEnd(field);
    LineReadBack(text, rest, MAX_TRAILER_LINE + 2);
  }

  /** However well formed, trailers of more octets than allowed in all are refused. */
  lemma {:induction false} TooManyFields(fields: seq<Field>, rest: string, seen: nat, trailers: Fields)
    requires GoodFields(fields) && seen <= MAX_TRAILER_SECTION < seen + FieldsLength(fields)
    ensures ReadTrailers(EncodeFields(fields, rest), seen, trailers).status == Some(400)
    decreases |fields|
  {
    var field, more := fields[0], EncodeFields(fields[1..], rest);
    var next := seen + |FieldText(field)| + 1;
    if next > MAX_TRAILER_SECTION {
      TooManyInFront(field, more, seen, trailers);
    } else {
      TooManyFields(fields[1..], rest, next, trailers[field.name := field.value]);
      FieldInFront(field, more, seen, trailers, ReadTrailers(more, next, trailers[field.name := field.value]));
    }
  }
}
