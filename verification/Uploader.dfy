/** The client's upload loop over a lossy channel. */
module Uploader {
  import opened ByteStrings
  import opened PatchRules
  import opened Channel
  import opened FileSlice
  import Handlers
  import SqliteStorage

  /** How sending one chunk ends. */
  datatype Sent = Accepted | Mismatch | Raised(status: Option<nat>)

  /** Why a call raised: the failures of its chunk, attempt by attempt, or a HEAD that found no
      offset to go on from. */
  datatype Trouble = NoTrouble | GaveUp(failures: seq<Option<nat>>) | NoOffset(answer: HeadAnswer)

  /** Network errors, 5xx, 408, 423 and 429 are worth another attempt. */
  predicate IsRetriable(status: Option<nat>) {
    status.None? || status.value >= 500 || status.value in {408, 423, 429}
  }

  class Client {
    const remote: Remote
    const id: Id
    const file: Slice
    const chunkSize: nat
    const maxRetries: nat
    // The user's veto on another attempt, if there is one, by failure and attempt; and whether
    // the wait after an attempt is interrupted.
    const userDecides: bool
    const vetoes: (Option<nat>, nat) -> bool
    const stops: nat -> bool
    var offset: nat
    var lengthDeferred: bool
    var reused: bool
    ghost var trouble: Trouble
    // How many PATCH requests this client has sent.
    ghost var requests: nat

    ghost predicate Shape()
      reads this, file
    {
      chunkSize >= 1 && file.Valid() && file.Intact()
    }

    /** The server follows the file, and this client never runs ahead of it, for as long as
        the upload is there. */
    ghost predicate InStep()
      reads this, file, remote, remote.storage
    {
      && Shape()
      && remote.Follows(id, file.Content()) && offset <= file.length
      && (id in remote.storage.rows ==>
            && offset <= remote.storage.rows[id].offset
            && (!lengthDeferred ==> remote.storage.rows[id].length == Some(file.length)))
    }

    constructor (remote: Remote, id: Id, file: Slice, chunkSize: nat, maxRetries: nat, userDecides: bool)
      requires chunkSize >= 1
      ensures this.remote == remote && this.id == id && this.file == file && this.chunkSize == chunkSize
      ensures offset == 0 && !lengthDeferred
    {
      this.remote, this.id, this.file := remote, id, file;
      this.chunkSize, this.maxRetries, this.userDecides := chunkSize, maxRetries, userDecides;
      vetoes, stops := *, *;
      offset, lengthDeferred, reused := 0, false, false;
    }

    /** The upload is there and does not expire. */
    predicate Lasting()
      reads this, remote, remote.storage
    {
      remote.Lasting(id)
    }

    /** The client takes the length for deferred exactly when it is. */
    predicate LengthKnown()
      reads this, remote, remote.storage
    {
      id in remote.storage.rows && (lengthDeferred <==> remote.storage.rows[id].length.None?)
    }

    /** Nothing on the server has changed. */
    twostate predicate Undisturbed()
      reads remote, remote.storage
    {
      && remote.storage.Snapshot() == old(remote.storage.Snapshot())
      && remote.died == old(remote.died) && remote.between == old(remote.between)
    }

    /** A row that says so when it is complete. */
    predicate Marked()
      requires id in remote.storage.rows
      reads this, remote, remote.storage
    {
      remote.storage.rows[id].length == Some(remote.storage.rows[id].offset) ==> remote.storage.rows[id].completed
    }

    /** The upload takes more, and a length it does not have yet is within the limit. */
    predicate Takes()
      requires id in remote.storage.rows
      reads this, remote, remote.storage
    {
      var row := remote.storage.rows[id];
      !row.completed && (row.length.None? && remote.limits.maxSize > 0 ==> file.length <= remote.limits.maxSize)
    }

    predicate ChunkFits(n: nat)
    {
      remote.limits.maxChunk > 0 ==> n <= remote.limits.maxChunk
    }

    /** On a calm server a chunk is accepted exactly if it is taken where the server stands,
        and refused with 409 exactly if the server is ahead. */
    twostate predicate Answered(n: nat, sent: Sent)
      requires old(id in remote.storage.rows)
      reads this, remote, remote.storage
    {
      var row := old(remote.storage.rows)[id];
      && (sent.Accepted? <==> old(Takes()) && row.offset == old(offset) && ChunkFits(n))
      && (sent.Mismatch? <==> old(Takes()) && row.offset > old(offset))
      && (if sent.Accepted? then remote.storage.rows == old(remote.storage.rows)[id := Grown(row, n, file.length)]
          else Undisturbed())
    }

    /** HEAD: where the server stands, and whether it still needs the length. */
    method GetOffset() returns (answer: HeadAnswer)
      requires Shape() && remote.Follows(id, file.Content())
      modifies this`offset, this`lengthDeferred, this`reused, remote`died, remote`between, remote.storage
      ensures remote.Follows(id, file.Content()) && remote.Advances(id)
      ensures answer.Found? ==> InStep() && offset == answer.offset && lengthDeferred == answer.deferred
      ensures answer.Found? ==> id in old(remote.storage.rows) && offset >= old(remote.storage.rows)[id].offset
      ensures !answer.Found? ==> offset == old(offset) && lengthDeferred == old(lengthDeferred)
      ensures remote.calm ==> Undisturbed()
      ensures remote.calm && Lasting() ==>
        answer == Found(remote.storage.rows[id].offset, remote.storage.rows[id].length.None?)
      ensures remote.calm && id !in remote.storage.rows ==> answer == HeadRejected(404)
    {
      answer := remote.Head(id, file.Content());
      reused := answer.Found?;
      if answer.Found? {
        offset, lengthDeferred := answer.offset, answer.deferred;
      }
    }

    /** One request over the connection, which it drops if nothing comes back. `stale` says
        that the socket was closed on the server's side. */
    method Roundtrip(req: PatchRequest) returns (answer: Answer, stale: bool)
      requires Shape() && remote.Follows(id, file.Content()) && req.id == id && CarriesSlice(req, file.Content())
      requires id in remote.storage.rows ==> req.offset.n <= remote.storage.rows[id].offset
      modifies this`reused, this`requests, remote`died, remote`between, remote.storage
      ensures remote.Follows(id, file.Content()) && remote.Advances(id)
      ensures answer.Acked? ==> answer.offset == req.offset.n + |req.body|
      ensures answer.Acked? && id in remote.storage.rows ==>
        answer.offset <= remote.storage.rows[id].offset && remote.storage.rows[id].length == Some(file.length)
      ensures answer == Rejected(409) && id in remote.storage.rows ==> req.offset.n < remote.storage.rows[id].offset
      ensures remote.calm && old(Lasting()) ==> remote.Granted(req, file.length, answer)
      ensures requests == old(requests) + 1 && reused == !answer.Lost? && (stale ==> answer.Lost?)
    {
      requests := requests + 1;
      answer := remote.Patch(req, file.Content());
      reused := !answer.Lost?;
      var closed: bool := *;
      stale := closed && answer.Lost?;
    }

    /** One request over the persistent connection: when a reused socket turns out to be
        stale, the same request is sent once more, applied or not. */
    method Send(req: PatchRequest) returns (answer: Answer, ghost stale: bool)
      requires Shape() && remote.Follows(id, file.Content()) && req.id == id && CarriesSlice(req, file.Content())
      requires id in remote.storage.rows ==> req.offset.n <= remote.storage.rows[id].offset
      modifies this`reused, this`requests, remote`died, remote`between, remote.storage
      ensures remote.Follows(id, file.Content()) && remote.Advances(id)
      ensures answer.Acked? ==> answer.offset == req.offset.n + |req.body|
      ensures answer.Acked? && id in remote.storage.rows ==>
        answer.offset <= remote.storage.rows[id].offset && remote.storage.rows[id].length == Some(file.length)
      ensures answer == Rejected(409) && id in remote.storage.rows ==> req.offset.n < remote.storage.rows[id].offset
      ensures remote.calm && old(Lasting()) ==> remote.Granted(req, file.length, answer)
      ensures requests == old(requests) + (if old(reused) && stale then 2 else 1) && reused == !answer.Lost?
    {
      var known, first := reused, false;
      answer, first := Roundtrip(req);
      stale := first;
      if known && first {
        answer, first := Roundtrip(req);
      }
    }

    method UploadChunkOnce(data: Bytes) returns (sent: Sent)
      requires InStep() && offset + |data| <= file.length && data == file.Content()[offset..offset + |data|]
      modifies this`offset, this`lengthDeferred, this`reused, this`requests, remote`died, remote`between, remote.storage
      ensures InStep() && remote.Advances(id)
      ensures sent.Accepted? ==> offset == old(offset) + |data| && !lengthDeferred
      ensures !sent.Accepted? ==> offset == old(offset) && lengthDeferred == old(lengthDeferred)
      ensures sent.Mismatch? && id in remote.storage.rows ==> offset < remote.storage.rows[id].offset
      ensures remote.calm && old(Lasting()) ==> Answered(|data|, sent)
    {
      var req := PatchRequest(id, true, if lengthDeferred then Number(file.length) else Absent, Number(offset),
          Matches, data);
      var answer, _ := Send(req);
      match answer {
        case Acked(at) =>
          offset, lengthDeferred := at, false;
          sent := Accepted;
        case Rejected(status) => sent := if status == 409 then Mismatch else Raised(Some(status));
        case Lost => sent := Raised(None);
      }
    }

    /** Whether a failed attempt is followed by another one. */
    predicate Retries(attempt: nat, status: Option<nat>) {
      && attempt < maxRetries && !stops(attempt)
      && (if userDecides then !vetoes(status, attempt + 1)
          else status.Some? ==>
            status.value >= 500 || status.value == 408 || status.value == 423 || status.value == 429)
    }

    /** A call that raises has used up its attempts on a chunk, or was sent back by a 409 and
        found no offset to go on from. */
    ghost predicate Troubled()
      reads this
    {
      (trouble.GaveUp? && Exhausted(trouble.failures)) || (trouble.NoOffset? && !trouble.answer.Found?)
    }

    /** Every failure but the last was followed by another attempt, and the last one was not
        to be. */
    ghost predicate Exhausted(failures: seq<Option<nat>>) {
      && failures != [] && !Retries(|failures| - 1, failures[|failures| - 1])
      && forall k :: 0 <= k < |failures| - 1 ==> Retries(k, failures[k])
    }

    /** One attempt, and whether another one follows: never after a 409. */
    method Attempt(data: Bytes, attempt: nat) returns (sent: Sent, again: bool)
      requires InStep() && offset + |data| <= file.length && data == file.Content()[offset..offset + |data|]
      modifies this`offset, this`lengthDeferred, this`reused, this`requests, remote`died, remote`between, remote.storage
      ensures InStep() && remote.Advances(id)
      ensures sent.Accepted? ==> offset == old(offset) + |data| && !lengthDeferred
      ensures !sent.Accepted? ==> offset == old(offset) && lengthDeferred == old(lengthDeferred)
      ensures sent.Mismatch? && id in remote.storage.rows ==> offset < remote.storage.rows[id].offset
      ensures remote.calm && old(Lasting()) ==> Answered(|data|, sent)
      ensures again <==> sent.Raised? && Retries(attempt, sent.status)
    {
      sent := UploadChunkOnce(data);
      again := false;
      if sent.Raised? {
        if userDecides {
          if vetoes(sent.status, attempt + 1) {
            return;
          }
        } else if !IsRetriable(sent.status) {
          return;
        }
        if attempt >= maxRetries {
          return;
        }
        again := !stops(attempt);
      }
    }

    /** Retries what is retriable; a 409 goes straight back to the caller. */
    method UploadChunkWithRetry(data: Bytes) returns (sent: Sent)
      requires InStep() && offset + |data| <= file.length && data == file.Content()[offset..offset + |data|]
      modifies this`offset, this`lengthDeferred, this`reused, this`requests, this`trouble,
        remote`died, remote`between, remote.storage
      ensures InStep() && remote.Advances(id)
      ensures sent.Accepted? ==> offset == old(offset) + |data| && !lengthDeferred
      ensures !sent.Accepted? ==> offset == old(offset) && lengthDeferred == old(lengthDeferred)
      ensures sent.Mismatch? && id in remote.storage.rows ==> offset < remote.storage.rows[id].offset
      ensures remote.calm && old(Lasting()) ==> Answered(|data|, sent)
      ensures sent.Raised? ==> trouble.GaveUp? && Exhausted(trouble.failures)
    {
      ghost var failures: seq<Option<nat>> := [];
      for attempt := 0 to maxRetries + 1
        invariant InStep() && remote.Advances(id)
        invariant offset == old(offset) && lengthDeferred == old(lengthDeferred)
        invariant remote.calm && old(Lasting()) ==> Undisturbed()
        invariant attempt <= maxRetries && |failures| == attempt
        invariant forall k :: 0 <= k < attempt ==> Retries(k, failures[k])
      {
        var again;
        sent, again := Attempt(data, attempt);
        if sent.Raised? {
          failures := failures + [sent.status];
          trouble := GaveUp(failures);
        }
        if !again {
          return;
        }
      }
      assert false;
    }

    method UploadChunk(data: Bytes) returns (sent: Sent)
      requires InStep() && offset + |data| <= file.length && data == file.Content()[offset..offset + |data|]
      modifies this`offset, this`lengthDeferred, this`reused, this`requests, this`trouble,
        remote`died, remote`between, remote.storage
      ensures InStep() && remote.Advances(id)
      ensures sent.Accepted? ==> offset == old(offset) + |data| && !lengthDeferred
      ensures !sent.Accepted? ==> offset == old(offset) && lengthDeferred == old(lengthDeferred)
      ensures sent.Mismatch? && id in remote.storage.rows ==> offset < remote.storage.rows[id].offset
      ensures remote.calm && old(Lasting()) ==> Answered(|data|, sent)
      ensures sent.Raised? ==> trouble.GaveUp? && Exhausted(trouble.failures)
    {
      if maxRetries > 0 {
        sent := UploadChunkWithRetry(data);
      } else {
        sent := UploadChunkOnce(data);
        trouble := if sent.Raised? then GaveUp([sent.status]) else NoTrouble;
      }
    }

    /** A server that moves on leaves the client in step. */
    twostate lemma StaysInStep()
      requires old(InStep()) && Shape() && offset == old(offset) && lengthDeferred == old(lengthDeferred)
      requires remote.Onward(id) && remote.Follows(id, file.Content())
      ensures InStep()
    {
    }

    /** What a calm server asks of the rest of the file: there is nothing left to send, or the
        upload takes more, and the next chunk, the largest of those that remain, fits. */
    predicate CanFinish()
      requires id in remote.storage.rows
      reads this, remote, remote.storage
    {
      var at := remote.storage.rows[id].offset;
      || (offset >= file.length && !lengthDeferred)
      || (Takes() && (at < file.length ==> ChunkFits(Min(chunkSize, file.length - at))))
    }

    /** What a turn comes to on a calm server: it catches up with a server that is ahead, or
        sends one chunk. */
    twostate predicate Turned(n: nat, ok: bool)
      requires old(id in remote.storage.rows)
      reads this, remote, remote.storage
    {
      var row := old(remote.storage.rows)[id];
      && (ok <==> old(Takes()) && (row.offset > old(offset) || ChunkFits(n)))
      && (if ok && row.offset == old(offset)
          then remote.storage.rows == old(remote.storage.rows)[id := Grown(row, n, file.length)] else Undisturbed())
      && (ok ==> id in remote.storage.rows && offset == remote.storage.rows[id].offset)
    }

    /** The next bytes of the file. */
    method NextChunk(n: nat) returns (chunk: Bytes)
      requires Shape() && offset + n <= file.length
      modifies file
      ensures Shape() && chunk == file.Content()[offset..offset + n]
    {
      var _ := file.Seek(offset, Set);
      chunk := file.Read(n);
    }

    /** Sends a chunk; after a 409 the client catches up with the server. */
    method SendChunk(chunk: Bytes) returns (ok: bool)
      requires InStep() && chunk != [] && offset + |chunk| <= file.length
      requires chunk == file.Content()[offset..offset + |chunk|]
      modifies this`offset, this`lengthDeferred, this`reused, this`requests, this`trouble, file,
        remote`died, remote`between, remote.storage
      ensures InStep() && remote.Advances(id)
      ensures if ok then offset > old(offset) else Troubled()
      ensures remote.calm && ok && Lasting() ==> LengthKnown()
      ensures remote.calm && old(Lasting()) ==> Turned(|chunk|, ok)
    {
      var sent := UploadChunk(chunk);
      if sent.Mismatch? {
        var answer := GetOffset();
        ok := answer.Found?;
        trouble := NoOffset(answer);
        var _ := file.Seek(offset, Set);
      } else {
        ok := sent.Accepted?;
      }
    }

    /** One turn of the loop. A turn that does not raise gains ground: a chunk was
        accepted, or a 409 followed by a HEAD found the server strictly ahead. */
    method UploadNext(maxOffset: nat) returns (ok: bool)
      requires InStep() && offset < maxOffset <= file.length
      modifies this`offset, this`lengthDeferred, this`reused, this`requests, this`trouble, file,
        remote`died, remote`between, remote.storage
      ensures InStep() && remote.Advances(id)
      ensures if ok then offset > old(offset) else Troubled()
      ensures remote.calm && ok && Lasting() ==> LengthKnown()
      ensures remote.calm && old(Lasting()) ==> Turned(Min(chunkSize, maxOffset - old(offset)), ok)
    {
      var chunk := NextChunk(Min(chunkSize, maxOffset - offset));
      if chunk == [] {
        return false;
      }
      ok := SendChunk(chunk);
    }

    /** One chunk at a time, as a caller's own loop uses it. When nothing more remains the
        file is there exactly if its length has been committed: nothing here commits it once
        all bytes are sent. On a calm server that is what the client itself can tell. */
    method UploadOneChunk() returns (ok: bool, more: bool)
      requires InStep()
      modifies this`offset, this`lengthDeferred, this`reused, this`requests, this`trouble, file,
        remote`died, remote`between, remote.storage
      ensures InStep() && remote.Advances(id)
      ensures ok ==> more == (offset < file.length)
      ensures !ok ==> Troubled()
      ensures ok && old(offset) < file.length ==> offset > old(offset)
      ensures ok && !more && !lengthDeferred && id in remote.storage.rows ==> remote.Holds(id, file.Content())
      ensures ok && !more && id in remote.storage.rows ==>
        (remote.Holds(id, file.Content()) <==> remote.storage.rows[id].length.Some?)
      ensures remote.calm && ok && !more && Lasting() && old(LengthKnown()) ==>
        (remote.Holds(id, file.Content()) <==> !lengthDeferred)
      ensures old(offset) >= file.length ==>
        ok && lengthDeferred == old(lengthDeferred) && remote.storage.Snapshot() == old(remote.storage.Snapshot())
    {
      ok := true;
      if offset < file.length {
        ok := UploadNext(file.length);
      }
      more := offset < file.length;
      if ok && !more && id in remote.storage.rows {
        EndHolds(Handlers.Stored(remote.storage.rows[id], remote.storage.files[id]), file.Content(),
                 id in remote.Unmarked());
      }
    }

    /** At the end of the file, a length that is still deferred is committed by an empty PATCH. */
    method CommitLength() returns (ok: bool)
      requires InStep()
      modifies this`offset, this`lengthDeferred, this`reused, this`requests, this`trouble,
        remote`died, remote`between, remote.storage
      ensures InStep() && remote.Advances(id)
      ensures ok ==> offset == old(offset) && (offset >= file.length ==> !lengthDeferred)
      ensures !lengthDeferred || old(lengthDeferred)
      ensures !ok ==> Troubled()
      ensures !old(lengthDeferred) ==>
        && ok && offset == old(offset) && remote.storage.Snapshot() == old(remote.storage.Snapshot())
        && remote.died == old(remote.died) && remote.between == old(remote.between)
      ensures remote.calm && old(Lasting()) ==>
        var closes := old(lengthDeferred && offset >= file.length);
        && (ok <==> closes ==> old(Takes()))
        && (if ok && closes then remote.storage.rows ==
              old(remote.storage.rows)[id := Grown(old(remote.storage.rows)[id], 0, file.length)]
            else Undisturbed())
    {
      ok := true;
      if lengthDeferred && offset >= file.length {
        var sent := UploadChunk([]);
        ok := sent.Accepted?;
        trouble := if sent.Mismatch? then NoOffset(NoAnswer) else trouble;
      }
    }

    /** The loop: chunks up to `maxOffset`, and no byte beyond it. */
    method SendUpTo(maxOffset: int) returns (ok: bool)
      requires InStep() && maxOffset <= file.length
      modifies this`offset, this`lengthDeferred, this`reused, this`requests, this`trouble, file,
        remote`died, remote`between, remote.storage
      ensures InStep() && remote.Advances(id)
      ensures if ok then offset >= maxOffset else Troubled()
      ensures old(offset) >= maxOffset ==>
        ok && offset == old(offset) && lengthDeferred == old(lengthDeferred) && Undisturbed()
      ensures remote.calm && old(Lasting()) ==> Lasting() && SentUpTo(maxOffset, ok)
    {
      while offset < maxOffset
        invariant InStep() && remote.Advances(id)
        invariant old(offset) >= maxOffset ==>
          offset == old(offset) && lengthDeferred == old(lengthDeferred) && Undisturbed()
        invariant remote.calm && old(Lasting()) ==> Lasting() && SentUpTo(maxOffset, true)
        decreases maxOffset - offset
      {
        ok := UploadNext(maxOffset);
        if !ok {
          return;
        }
      }
      ok := true;
    }

    /** What the loop comes to on a calm server. */
    twostate predicate SentUpTo(maxOffset: int, ok: bool)
      requires old(id in remote.storage.rows) && id in remote.storage.rows
      reads this, remote, remote.storage
    {
      var before, row := old(remote.storage.rows)[id], remote.storage.rows[id];
      && row.offset <= (if before.offset < maxOffset then maxOffset else before.offset)
      && (maxOffset == file.length ==> if ok then CanFinish() <==> old(CanFinish()) else !old(CanFinish()))
      && (old(Marked()) ==> Marked())
    }

    /** The upload. When it returns normally without `stopAt`, the server has exactly
        the file, unless the upload has been deleted since; and the upload is marked
        completed unless some PATCH, dead or alive, is past its swap and has not marked it.
        On a calm server it returns normally exactly if the upload takes the file. */
    method Upload(stopAt: Option<int>) returns (ok: bool)
      requires InStep()
      modifies this`offset, this`lengthDeferred, this`reused, this`requests, this`trouble, file,
        remote`died, remote`between, remote.storage
      ensures InStep() && remote.Advances(id)
      ensures ok && stopAt.None? && id in remote.storage.rows ==>
        remote.Holds(id, file.Content()) && remote.storage.rows[id].completed == (id !in remote.Unmarked())
      ensures ok && stopAt.Some? ==> offset >= Min(stopAt.value, file.length)
      ensures !ok ==> Troubled()
      ensures stopAt.None? && old(offset) >= file.length && !old(lengthDeferred) ==> ok && Undisturbed()
      ensures remote.calm && old(Lasting()) ==> Lasting()
      ensures remote.calm && old(Lasting()) ==>
        var before, row := old(remote.storage.rows)[id], remote.storage.rows[id];
        && (stopAt.None? ==> (ok <==> old(CanFinish())) && (ok && old(Marked()) ==> row.completed))
        && (stopAt.Some? && stopAt.value >= before.offset ==> row.offset <= stopAt.value)
    {
      ok := SendUpTo(if stopAt.Some? then Min(stopAt.value, file.length) else file.length);
      if !ok {
        return false;
      }
      ok := CommitLength();
      if ok && stopAt.None? && id in remote.storage.rows {
        WholeIsHeld();
      }
    }

    /** A client at the end of the file, with the length committed, is done. */
    lemma WholeIsHeld()
      requires InStep() && offset >= file.length && !lengthDeferred && id in remote.storage.rows
      ensures remote.Holds(id, file.Content()) && remote.storage.rows[id].completed == (id !in remote.Unmarked())
    {
      EndHolds(Handlers.Stored(remote.storage.rows[id], remote.storage.files[id]), file.Content(),
          id in remote.Unmarked());
    }
  }

  /** A server that took the whole file in one PATCH and died right after the swap, or is
      still running the chunk hook. */
  method StopsAfterSwap(id: Id, content: Bytes, alive: bool) returns (remote: Remote)
    requires content != []
    ensures fresh(remote) && fresh(remote.storage)
    ensures remote.died == (if alive then {} else {id}) && remote.between == if alive then {id} else {}
    ensures remote.storage.rows == map[id := Row(Some(|content|), |content|, false, false, [], None)]
    ensures remote.storage.files == map[id := content]
  {
    var storage := new SqliteStorage.Storage();
    storage.CreateUpload(id, Row(Some(|content|), 0, false, false, [], None));
    remote := new Remote(storage, Limits(0, 0), false);
    var fate := if alive then Lingers else Channel.DiesAfterSwap;
    var _ := remote.Run(0, PatchRequest(id, true, Absent, Number(0), Matches, content), fate);
    WriteToEmpty(content);
  }

  /** Returning normally does not mean completed: while a PATCH that took the last chunk runs
      its hook, or after it died there, a client that resumes finds nothing left to send. */
  method ReturnsUnmarked(file: Slice, id: Id, alive: bool) returns (client: Client, ok: bool)
    requires file.Valid() && file.Intact() && file.length > 0
    modifies file
    ensures client.Shape() && client.id == id && client.file == file
    ensures ok && client.remote.Holds(id, file.Content()) && !client.remote.storage.rows[id].completed
    ensures client.remote.died == (if alive then {} else {id}) && client.remote.between == if alive then {id} else {}
  {
    var content := file.Content();
    var remote := StopsAfterSwap(id, content, alive);
    client := new Client(remote, id, file, 1, 0, false);
    client.offset := remote.storage.rows[id].offset;
    assert remote.Follows(id, content);
    ok := client.Upload(None);
  }

  /** An empty file under a deferred length: chunk by chunk there is nothing to do, and the
      length is never committed. */
  method StepwiseLeavesDeferred(file: Slice, id: Id) returns (client: Client, ok: bool, more: bool)
    requires file.Valid() && file.Intact() && file.length == 0
    modifies file
    ensures client.Shape() && client.id == id && client.file == file && client.InStep()
    ensures ok && !more && id in client.remote.storage.rows && client.remote.storage.rows[id].length.None?
  {
    var storage := new SqliteStorage.Storage();
    storage.CreateUpload(id, Row(None, 0, false, false, [], None));
    var remote := new Remote(storage, Limits(0, 0), false);
    client := new Client(remote, id, file, 1, 0, false);
    client.lengthDeferred := true;
    assert remote.Follows(id, file.Content());
    ok, more := client.UploadOneChunk();
  }
}
