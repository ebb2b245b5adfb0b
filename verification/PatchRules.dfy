/** Upload rows and the rules that turn a PATCH request into a plan. */
module PatchRules {
  import opened ByteStrings

  /** Upload ids are UUIDs; only equality matters. */
  type Id = int

  /** A database row. `length` is None for the deferred-length sentinel, `sources`
      holds the partial ids of a final upload and is empty for any other upload. */
  datatype Row = Row(
    length: Option<nat>, offset: nat, completed: bool, partial: bool, sources: seq<Id>, expires: Option<nat>)

  type Rows = map<Id, Row>

  type Files = map<Id, Bytes>

  /** An integer request header: missing, not a number (an empty one is not), or a number. */
  datatype Field = Absent | Malformed | Number(n: int)

  /** The Upload-Checksum header after hashing the body. */
  datatype Checksum = Unchecked | BadHeader | Matches | Differs

  datatype PatchRequest = PatchRequest(
    id: Id, streamType: bool, length: Field, offset: Field, checksum: Checksum, body: Bytes)

  /** Size limits; zero means unlimited. */
  datatype Limits = Limits(maxSize: nat, maxChunk: nat)

  datatype Plan = Plan(expected: nat, newOffset: nat, effective: nat, commit: Option<nat>)

  datatype Verdict = Go(plan: Plan) | Reject(status: nat)

  /** The length a PATCH works against: the stored one, or the one it commits. */
  function PlanLength(limits: Limits, row: Row, req: PatchRequest): Verdict {
    match row.length
    case None =>
      if req.length.Absent? || req.length.Malformed? || req.length.n < 0 then Reject(400)
      else if limits.maxSize > 0 && req.length.n > limits.maxSize then Reject(413)
      else Go(Plan(0, 0, req.length.n, Some(req.length.n)))
    case Some(length) =>
      if req.length.Malformed? || (req.length.Number? && req.length.n != length) then Reject(400)
      else Go(Plan(0, 0, length, None))
  }

  /** The PATCH rules, in the order the server applies them. */
  function PlanPatch(limits: Limits, now: nat, row: Row, req: PatchRequest): Verdict {
    if row.expires.Some? && row.expires.value < now then Reject(410)
    else if row.completed then Reject(403)
    else if row.sources != [] then Reject(403)
    else if !req.streamType then Reject(415)
    else
      var sized := PlanLength(limits, row, req);
      if sized.Reject? then sized
      else if !req.offset.Number? || req.offset.n < 0 then Reject(400)
      else if req.offset.n != row.offset then Reject(409)
      else if req.checksum.BadHeader? then Reject(400)
      else if req.checksum.Differs? then Reject(460)
      else
        var newOffset := row.offset + |req.body|;
        if newOffset > sized.plan.effective then Reject(400)
        else if limits.maxChunk > 0 && |req.body| > limits.maxChunk then Reject(413)
        else Go(Plan(row.offset, newOffset, sized.plan.effective, sized.plan.commit))
  }

  // ---- Which request gets which answer ----

  predicate Open(row: Row, now: nat) {
    (row.expires.None? || now <= row.expires.value) && !row.completed && row.sources == []
  }

  /** Whether the request leaves open or agrees with the length of the upload. */
  predicate LengthFits(limits: Limits, row: Row, length: Field) {
    if row.length.Some? then length.Absent? || length == Number(row.length.value)
    else length.Number? && length.n >= 0 && (limits.maxSize > 0 ==> length.n <= limits.maxSize)
  }

  /** An open upload, and a request that goes on where the upload ends. */
  predicate Continues(limits: Limits, now: nat, row: Row, req: PatchRequest) {
    Open(row, now) && req.streamType && LengthFits(limits, row, req.length) && req.offset == Number(row.offset)
  }

  /** Whether the upload ends within its length, the one it has or the one the request brings. */
  predicate EndsWithin(row: Row, req: PatchRequest) {
    if row.length.Some? then row.offset + |req.body| <= row.length.value
    else req.length.Number? && row.offset + |req.body| <= req.length.n
  }

  predicate Intact(req: PatchRequest) {
    req.checksum.Unchecked? || req.checksum.Matches?
  }

  /** The requests on an existing upload that are answered with this status. */
  predicate Deserves(limits: Limits, now: nat, row: Row, req: PatchRequest, status: nat) {
    var continues := Continues(limits, now, row, req);
    match status
    case 410 => row.expires.Some? && row.expires.value < now
    case 403 => (row.expires.Some? ==> now <= row.expires.value) && (row.completed || row.sources != [])
    case 415 => Open(row, now) && !req.streamType
    case 409 =>
      && Open(row, now) && req.streamType && LengthFits(limits, row, req.length)
      && req.offset.Number? && req.offset.n >= 0 && req.offset.n != row.offset
    case 460 => continues && req.checksum.Differs?
    case 413 =>
      || (Open(row, now) && req.streamType && row.length.None? && req.length.Number?
          && 0 < limits.maxSize < req.length.n)
      || (continues && Intact(req) && EndsWithin(row, req) && 0 < limits.maxChunk < |req.body|)
    case 400 =>
      || (Open(row, now) && req.streamType && row.length.None? && (req.length.Number? ==> req.length.n < 0))
      || (Open(row, now) && req.streamType && row.length.Some?
          && (req.length.Malformed? || (req.length.Number? && req.length.n != row.length.value)))
      || (Open(row, now) && req.streamType && LengthFits(limits, row, req.length)
          && (req.offset.Number? ==> req.offset.n < 0))
      || (continues && req.checksum.BadHeader?)
      || (continues && Intact(req) && !EndsWithin(row, req))
    case 204 =>
      continues && Intact(req) && EndsWithin(row, req) && (limits.maxChunk > 0 ==> |req.body| <= limits.maxChunk)
    case _ => false
  }

  /** Planning refuses with a status exactly the requests that deserve it, and goes on with
      those that fit, to the end of the body. */
  lemma PlanIsDeserved(limits: Limits, now: nat, row: Row, req: PatchRequest, status: nat)
    requires status != 204
    ensures PlanPatch(limits, now, row, req) == Reject(status) <==> Deserves(limits, now, row, req, status)
    ensures PlanPatch(limits, now, row, req).Go? <==> Deserves(limits, now, row, req, 204)
  {
  }
}
