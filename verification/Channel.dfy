/** The server as a client sees it: requests and answers get lost, a PATCH may die anywhere
    or linger between its swap and its mark, other writers of the same file get in between
    its storage calls, and an upload may be deleted at any time. */
module Channel {
  import opened ByteStrings
  import opened PatchRules
  import opened SqliteStorage
  import opened Handlers
  import TusServer

  /** How far a PATCH gets: to its end, to the point where the server dies, or past its swap,
      where the chunk hook still runs. */
  datatype Fate = Finishes | DiesAfterCommit | DiesMidWrite(landed: nat) | DiesAfterSwap | Lingers

  /** What comes back over the wire. */
  datatype Answer = Lost | Acked(offset: nat) | Rejected(status: nat)

  datatype HeadAnswer = NoAnswer | HeadRejected(status: nat) | Found(offset: nat, deferred: bool)

  /** What a client makes of an answer to HEAD: without an offset it has none. */
  function AnswerOf(reply: TusServer.HeadReply): (answer: HeadAnswer)
    ensures forall offset, deferred ::
      answer == Found(offset, deferred) <==>
      reply.Info? && reply == TusServer.Info(Some(offset), reply.length, deferred)
    ensures forall status :: answer == HeadRejected(status) <==> reply == TusServer.Failed(status)
  {
    match reply
    case Failed(status) => HeadRejected(status)
    case Info(offset, _, deferred) => if offset.Some? then Found(offset.value, deferred) else NoAnswer
  }

  /** The stored upload is a faithful part of `source`: what is committed is a prefix,
      and the length, once known, is right. `unmarked` says that a PATCH has made the upload
      complete and, dead or alive, has not marked it so. */
  ghost predicate Tracks(up: Stored, source: Bytes, unmarked: bool) {
    var row := up.row;
    && (row.sources != [] ==> row.completed)
    && row.offset <= |up.file| <= |source|
    && up.file[..row.offset] == source[..row.offset]
    && (row.length.None? ==> !row.completed && |up.file| == row.offset)
    && (row.length.Some? ==> row.length.value == |source|)
    && (row.completed ==> row.offset == |source|)
    && (row.length == Some(row.offset) ==> row.completed == !unmarked)
  }

  /** The request carries a slice of the source, and no length but the source's. */
  predicate CarriesSlice(req: PatchRequest, source: Bytes) {
    && req.offset.Number? && 0 <= req.offset.n && req.offset.n + |req.body| <= |source|
    && req.body == source[req.offset.n..req.offset.n + |req.body|]
    && (req.length.Number? ==> req.length.n == |source|)
  }

  /** The upload after as much of a PATCH as its fate allows. */
  function Cut(up: Stored, req: PatchRequest, plan: Plan, fate: Fate): Stored {
    var row := up.row.(length := Some(plan.effective));
    match fate
    case DiesAfterCommit => Stored(row, up.file)
    case DiesMidWrite(k) => Stored(row, WriteAt(up.file, plan.expected, req.body[..Min(k, |req.body|)]))
    case DiesAfterSwap => Stored(row.(offset := plan.newOffset), WriteAt(up.file, plan.expected, req.body))
    case Lingers => Stored(row.(offset := plan.newOffset), WriteAt(up.file, plan.expected, req.body))
    case Finishes => PatchedTo(up, req, plan)
  }

  /** The row of an upload with `n` more bytes of a source of this length. */
  function Grown(row: Row, n: nat, length: nat): Row {
    row.(length := Some(length), offset := row.offset + n, completed := row.offset + n == length)
  }

  /** This PATCH has made the upload complete and not marked it. */
  predicate LeavesUnmarked(req: PatchRequest, plan: Plan, fate: Fate) {
    plan.newOffset >= plan.effective && (fate.DiesAfterSwap? || fate.Lingers? || (req.body == [] && !fate.Finishes?))
  }

  predicate Marks(plan: Plan, fate: Fate) {
    plan.newOffset >= plan.effective && fate.Finishes?
  }

  /** The server dies before the swap. */
  lemma CutEarlyTracks(limits: Limits, now: nat, up: Stored, req: PatchRequest, plan: Plan, fate: Fate, source: Bytes,
      unmarked: bool)
    requires Tracks(up, source, unmarked) && CarriesSlice(req, source)
    requires PlanPatch(limits, now, up.row, req) == Go(plan) && (fate.DiesAfterCommit? || fate.DiesMidWrite?)
    ensures var after := Cut(up, req, plan, fate);
      && Tracks(after, source, LeavesUnmarked(req, plan, fate) || unmarked)
      && up.row.offset == after.row.offset
      && (LeavesUnmarked(req, plan, fate) ==> after.row.length == Some(after.row.offset))
  {
    if fate.DiesMidWrite? {
      var part := req.body[..Min(fate.landed, |req.body|)];
      WriteKeepsPrefix(up.file, plan.expected, part, plan.expected);
    }
  }

  /** The swap is won. */
  lemma CutLateTracks(limits: Limits, now: nat, up: Stored, req: PatchRequest, plan: Plan, fate: Fate, source: Bytes,
      unmarked: bool)
    requires Tracks(up, source, unmarked) && CarriesSlice(req, source)
    requires PlanPatch(limits, now, up.row, req) == Go(plan) && !fate.DiesAfterCommit? && !fate.DiesMidWrite?
    ensures var after := Cut(up, req, plan, fate);
      && Tracks(after, source, LeavesUnmarked(req, plan, fate))
      && after.row.offset == req.offset.n + |req.body| >= up.row.offset && after.row.length == Some(|source|)
      && (fate.Finishes? && after.row.offset == |source| ==> after.row.completed)
      && (LeavesUnmarked(req, plan, fate) ==> after.row.length == Some(after.row.offset))
  {
    CutLands(up.file, source, plan.expected, req.body);
  }

  /** A write of a PATCH that was planned long ago: at worst it writes again what is there. */
  lemma LateTracks(up: Stored, source: Bytes, unmarked: bool, at: nat, n: nat)
    requires Tracks(up, source, unmarked) && up.row.length.Some? && at <= |up.file| && at + n <= |source|
    ensures Tracks(Stored(up.row, WriteAt(up.file, at, source[at..at + n])), source, unmarked)
  {
    var data, offset := source[at..at + n], up.row.offset;
    var r := WriteAt(up.file, at, data);
    forall i | 0 <= i < offset
      ensures r[i] == source[i]
    {
      if at <= i < at + n {
        assert r[at..at + n][i - at] == data[i - at];
      } else {
        assert r[i] == up.file[i] && up.file[..offset][i] == source[..offset][i];
      }
    }
    assert r[..offset] == source[..offset];
  }

  lemma CutLands(file: Bytes, source: Bytes, at: nat, body: Bytes)
    requires at <= |file| <= |source| && file[..at] == source[..at]
    requires at + |body| <= |source| && body == source[at..at + |body|]
    ensures var r := WriteAt(file, at, body);
      at + |body| <= |r| <= |source| && r[..at + |body|] == source[..at + |body|]
  {
    var r := WriteAt(file, at, body);
    WriteKeepsPrefix(file, at, body, at);
    SliceJoin(r, at, at + |body|);
    SliceJoin(source, at, at + |body|);
  }

  /** An upload that has come to the end of the source holds the source. */
  lemma EndHolds(up: Stored, source: Bytes, unmarked: bool)
    requires Tracks(up, source, unmarked) && up.row.offset >= |source|
    ensures up.file == source
  {
    assert up.file[..|source|] == up.file && source[..|source|] == source;
  }

  /** A PATCH that finishes grows the row by its body. */
  lemma FinishGrows(limits: Limits, now: nat, up: Stored, req: PatchRequest, plan: Plan, source: Bytes, unmarked: bool)
    requires Tracks(up, source, unmarked) && CarriesSlice(req, source)
    requires PlanPatch(limits, now, up.row, req) == Go(plan)
    ensures Cut(up, req, plan, Finishes).row == Grown(up.row, |req.body|, |source|)
  {
  }

  /** Maps that agree apart from one key agree on every other. */
  lemma AgreeOn<V>(before: map<Id, V>, after: map<Id, V>, changed: Id, other: Id)
    requires after - {changed} == before - {changed} && other != changed
    ensures other in before <==> other in after
    ensures other in before ==> after[other] == before[other]
  {
    assert other in before <==> other in before - {changed};
    assert other in after <==> other in after - {changed};
  }

  class Remote {
    const storage: Storage
    const limits: Limits
    // On a calm network nothing is lost and nobody else is there.
    const calm: bool
    // Uploads that a dead PATCH made complete without marking them, and those that a live
    // one is about to mark.
    var died: set<Id>
    var between: set<Id>

    constructor (storage: Storage, limits: Limits, calm: bool)
      ensures this.storage == storage && this.limits == limits && this.calm == calm && died == {} && between == {}
    {
      this.storage, this.limits, this.calm, died, between := storage, limits, calm, {}, {};
    }

    /** Uploads that some PATCH, dead or alive, made complete and has not marked. */
    function Unmarked(): set<Id>
      reads this
    {
      died + between
    }

    ghost predicate Follows(id: Id, source: Bytes)
      reads this, storage
    {
      id in storage.rows ==>
        && id in storage.files
        && Tracks(Stored(storage.rows[id], storage.files[id]), source, id in Unmarked())
        && (id in between ==> storage.rows[id].length == Some(storage.rows[id].offset))
    }

    /** The server has the whole source under its right length. */
    ghost predicate Holds(id: Id, source: Bytes)
      reads this, storage
    {
      && id in storage.rows && id in storage.files
      && storage.files[id] == source
      && storage.rows[id].offset == |source|
      && storage.rows[id].length == Some(|source|)
    }

    /** The upload is there and does not expire. */
    predicate Lasting(id: Id)
      reads this, storage
    {
      id in storage.rows && storage.rows[id].expires.None?
    }

    /** Nothing but the upload `id` changes. */
    twostate predicate Apart(id: Id)
      reads this, storage
    {
      && storage.rows - {id} == old(storage.rows) - {id}
      && storage.files - {id} == old(storage.files) - {id}
      && died - {id} == old(died) - {id}
      && between - {id} == old(between) - {id}
    }

    /** As long as the upload is there, it never loses ground; it does not come back. */
    twostate predicate Onward(id: Id)
      reads this, storage
    {
      && (id in storage.rows ==>
            && id in old(storage.rows)
            && old(storage.rows)[id].offset <= storage.rows[id].offset
            && (old(storage.rows)[id].completed ==> storage.rows[id].completed)
            && (old(storage.rows)[id].length.Some? ==> storage.rows[id].length == old(storage.rows)[id].length)
            && storage.rows[id].partial == old(storage.rows)[id].partial
            && storage.rows[id].expires == old(storage.rows)[id].expires)
    }

    twostate predicate Advances(id: Id)
      reads this, storage
    {
      Apart(id) && Onward(id)
    }

    /** The storage calls of a planned PATCH, as far as it gets. */
    method StoreUntil(req: PatchRequest, plan: Plan, fate: Fate)
      requires req.id in storage.rows && req.id in storage.files
      requires storage.rows[req.id].offset == plan.expected
      requires if plan.commit.Some? then plan.commit.value == plan.effective
               else storage.rows[req.id].length == Some(plan.effective)
      requires !storage.rows[req.id].completed
      modifies storage
      ensures var after := Cut(Stored(old(storage.rows)[req.id], old(storage.files)[req.id]), req, plan, fate);
        && storage.rows == old(storage.rows)[req.id := after.row]
        && storage.files == old(storage.files)[req.id := after.file]
    {
      var id := req.id;
      if plan.commit.Some? {
        storage.SetUploadLength(id, plan.commit.value);
      }
      if fate.DiesAfterCommit? {
        return;
      }
      if fate.DiesMidWrite? {
        storage.WriteChunk(id, plan.expected, req.body[..Min(fate.landed, |req.body|)]);
        return;
      }
      storage.WriteChunk(id, plan.expected, req.body);
      var _ := storage.UpdateOffsetAtomic(id, plan.expected, plan.newOffset);
      if fate.Finishes? && plan.newOffset >= plan.effective {
        var _ := storage.CompleteUpload(id);
      }
    }

    /** The server runs a PATCH, as far as it gets. */
    method Run(now: nat, req: PatchRequest, fate: Fate) returns (answer: Answer)
      requires req.id in storage.rows && req.id in storage.files
      modifies this`died, this`between, storage
      ensures Apart(req.id)
      ensures match PlanPatch(limits, now, old(storage.rows)[req.id], req)
        case Reject(status) =>
          && answer == Rejected(status) && storage.Snapshot() == old(storage.Snapshot())
          && died == old(died) && between == old(between)
        case Go(plan) =>
          var after := Cut(Stored(old(storage.rows)[req.id], old(storage.files)[req.id]), req, plan, fate);
          && answer == (if fate.Finishes? then Acked(plan.newOffset) else Lost)
          && storage.rows == old(storage.rows)[req.id := after.row]
          && storage.files == old(storage.files)[req.id := after.file]
          && died == (if Marks(plan, fate) then old(died) - {req.id}
                      else if LeavesUnmarked(req, plan, fate) && !fate.Lingers? then old(died) + {req.id}
                      else old(died))
          && between == if Marks(plan, fate) then old(between) - {req.id}
                        else if LeavesUnmarked(req, plan, fate) && fate.Lingers? then old(between) + {req.id}
                        else old(between)
    {
      match PlanPatch(limits, now, storage.rows[req.id], req) {
        case Reject(status) => return Rejected(status);
        case Go(plan) =>
          if Marks(plan, fate) {
            died, between := died - {req.id}, between - {req.id};
          } else if LeavesUnmarked(req, plan, fate) {
            if fate.Lingers? {
              between := between + {req.id};
            } else {
              died := died + {req.id};
            }
          }
          StoreUntil(req, plan, fate);
          return if fate.Finishes? then Acked(plan.newOffset) else Lost;
      }
    }

    /** A request that carries a slice of the source, seen from the source. */
    method Serve(now: nat, req: PatchRequest, fate: Fate, ghost source: Bytes) returns (answer: Answer)
      requires Follows(req.id, source) && CarriesSlice(req, source)
      modifies this`died, this`between, storage
      ensures Follows(req.id, source) && Advances(req.id)
      ensures answer.Acked? ==>
        && req.id in storage.rows && answer.offset == storage.rows[req.id].offset == req.offset.n + |req.body|
        && storage.rows[req.id].length == Some(|source|)
        && (answer.offset == |source| ==> storage.rows[req.id].completed)
      ensures answer == Rejected(409) ==>
        req.id in storage.rows && req.offset.n != storage.rows[req.id].offset
      ensures fate.Finishes? && old(Lasting(req.id)) ==> Granted(req, |source|, answer)
    {
      if req.id !in storage.rows {
        return Rejected(404);
      }
      AnswerDeserved(now, req);
      var verdict := PlanPatch(limits, now, storage.rows[req.id], req);
      if verdict.Go? {
        answer := ServePlanned(now, req, fate, verdict.plan, source);
      } else {
        answer := Run(now, req, fate);
      }
    }

    method ServePlanned(now: nat, req: PatchRequest, fate: Fate, ghost plan: Plan, ghost source: Bytes)
      returns (answer: Answer)
      requires Follows(req.id, source) && CarriesSlice(req, source)
      requires req.id in storage.rows && PlanPatch(limits, now, storage.rows[req.id], req) == Go(plan)
      modifies this`died, this`between, storage
      ensures Follows(req.id, source) && Advances(req.id) && req.id in storage.rows
      ensures answer == if fate.Finishes? then Acked(plan.newOffset) else Lost
      ensures fate.Finishes? ==>
        && plan.newOffset == storage.rows[req.id].offset == req.offset.n + |req.body|
        && storage.rows[req.id].length == Some(|source|)
        && (plan.newOffset == |source| ==> storage.rows[req.id].completed)
        && storage.rows ==
           old(storage.rows)[req.id := Grown(old(storage.rows)[req.id], |req.body|, |source|)]
    {
      ghost var unmarked := req.id in Unmarked();
      ghost var up := Stored(storage.rows[req.id], storage.files[req.id]);
      if fate.DiesAfterCommit? || fate.DiesMidWrite? {
        CutEarlyTracks(limits, now, up, req, plan, fate, source, unmarked);
      } else {
        CutLateTracks(limits, now, up, req, plan, fate, source, unmarked);
      }
      FinishGrows(limits, now, up, req, plan, source, unmarked);
      answer := Run(now, req, fate);
      assert req.id in Unmarked() <==> LeavesUnmarked(req, plan, fate) || (unmarked && !Marks(plan, fate));
    }

    /** A lingering PATCH marks the upload, or its server dies first. */
    method Resume(id: Id, dies: bool, ghost source: Bytes)
      requires Follows(id, source)
      modifies this`died, this`between, storage
      ensures Follows(id, source) && Advances(id) && id !in between
      ensures old(id in between) && id in storage.rows ==> storage.rows[id].completed == !dies
    {
      if id in between {
        between := between - {id};
        if dies {
          died := died + {id};
        } else {
          died := died - {id};
          var _ := storage.CompleteUpload(id);
        }
      }
    }

    /** The write of a PATCH that was planned long ago. */
    method LateWrite(id: Id, at: nat, n: nat, source: Bytes)
      requires Follows(id, source)
      modifies storage
      ensures Follows(id, source) && Advances(id)
    {
      if id in storage.rows && storage.rows[id].length.Some? && at <= |storage.files[id]| && at + n <= |source| {
        LateTracks(Stored(storage.rows[id], storage.files[id]), source, id in Unmarked(), at, n);
        storage.WriteChunk(id, at, source[at..at + n]);
      }
    }

    method Delete(id: Id, ghost source: Bytes)
      requires Follows(id, source)
      modifies this`died, this`between, storage
      ensures Follows(id, source) && Advances(id)
    {
      storage.DeleteUpload(id);
      died, between := died - {id}, between - {id};
    }

    /** Time passes: other writers of the same file get on with requests of their own, whole
        or in part, late or lingering, and the upload may be deleted. */
    method Elapse(id: Id, source: Bytes)
      requires Follows(id, source)
      modifies this`died, this`between, storage
      ensures Follows(id, source) && Advances(id)
      ensures calm ==> storage.Snapshot() == old(storage.Snapshot()) && died == old(died) && between == old(between)
    {
      if calm {
        return;
      }
      var moves: nat := *;
      while moves > 0
        invariant Follows(id, source) && Advances(id)
      {
        var other: PatchRequest, now: nat, fate: Fate, at: nat, n: nat, dies: bool := *, *, *, *, *, *;
        moves := moves - 1;
        if {
          case true =>
            if other.id == id && CarriesSlice(other, source) {
              var _ := Serve(now, other, fate, source);
            }
          case true => Resume(id, dies, source);
          case true => LateWrite(id, at, n, source);
          case true => Delete(id, source);
        }
      }
    }

    /** One PATCH over the wire. The request or the answer may be lost, the server may be
        busy or failing, and its answer may be overtaken by other writers. On a calm network
        it does what the rules say, and the answer says which. */
    method Patch(req: PatchRequest, source: Bytes) returns (answer: Answer)
      requires Follows(req.id, source) && CarriesSlice(req, source)
      requires req.id in storage.rows ==> req.offset.n <= storage.rows[req.id].offset
      modifies this`died, this`between, storage
      ensures Follows(req.id, source) && Advances(req.id)
      ensures answer.Acked? ==> answer.offset == req.offset.n + |req.body|
      ensures answer.Acked? && req.id in storage.rows ==>
        && answer.offset <= storage.rows[req.id].offset && storage.rows[req.id].length == Some(|source|)
        && (answer.offset == |source| ==> storage.rows[req.id].completed)
      ensures answer == Rejected(409) && req.id in storage.rows ==> req.offset.n < storage.rows[req.id].offset
      ensures calm && old(Lasting(req.id)) ==> Granted(req, |source|, answer)
    {
      Elapse(req.id, source);
      var lost: bool, busy: bool, cut: bool, status: nat := *, *, *, *;
      if lost && !calm {
        return Lost;
      }
      if busy && !calm && (status == 423 || status >= 500) {
        return Rejected(status);
      }
      var now: nat, fate: Fate := *, *;
      answer := Serve(now, req, if calm then Finishes else fate, source);
      Elapse(req.id, source);
      if cut && !calm {
        return Lost;
      }
    }

    /** A PATCH that runs to its end and whose answer arrives: it is accepted exactly if it
        deserves it, and grows the upload by its body; otherwise nothing changes, and the
        answer is the one it deserves. */
    twostate predicate Granted(req: PatchRequest, length: nat, answer: Answer)
      requires old(req.id in storage.rows)
      reads this, storage
    {
      var row := old(storage.rows)[req.id];
      if Deserves(limits, 0, row, req, 204) then
        && answer == Acked(row.offset + |req.body|)
        && storage.rows == old(storage.rows)[req.id := Grown(row, |req.body|, length)]
      else
        && answer.Rejected? && Deserves(limits, 0, row, req, answer.status)
        && storage.Snapshot() == old(storage.Snapshot()) && died == old(died) && between == old(between)
    }

    /** The clock does not matter to an upload that does not expire. */
    lemma AnswerDeserved(now: nat, req: PatchRequest)
      requires req.id in storage.rows
      ensures var verdict, row := PlanPatch(limits, now, storage.rows[req.id], req), storage.rows[req.id];
        && (verdict.Go? <==> Deserves(limits, now, row, req, 204))
        && (verdict.Reject? ==> Deserves(limits, now, row, req, verdict.status))
        && (row.expires.None? ==> forall k :: Deserves(limits, now, row, req, k) == Deserves(limits, 0, row, req, k))
    {
      var verdict, row := PlanPatch(limits, now, storage.rows[req.id], req), storage.rows[req.id];
      PlanIsDeserved(limits, now, row, req, if verdict.Reject? then verdict.status else 400);
    }

    /** HEAD takes no lock: it reads the row wherever other requests stand. */
    method Head(id: Id, source: Bytes) returns (answer: HeadAnswer)
      requires Follows(id, source)
      modifies this`died, this`between, storage
      ensures Follows(id, source) && Advances(id)
      ensures answer.Found? ==> id in old(storage.rows) && old(storage.rows)[id].offset <= answer.offset <= |source|
      ensures answer.Found? && id in storage.rows ==>
        answer.offset <= storage.rows[id].offset && (!answer.deferred ==> storage.rows[id].length == Some(|source|))
      ensures calm ==> storage.Snapshot() == old(storage.Snapshot()) && died == old(died) && between == old(between)
      ensures calm && Lasting(id) ==> answer == Found(storage.rows[id].offset, storage.rows[id].length.None?)
      ensures calm && id !in storage.rows ==> answer == HeadRejected(404)
    {
      Elapse(id, source);
      var now: nat := *;
      answer := AnswerOf(TusServer.HeadOf(storage.Snapshot(), now, id));
      Elapse(id, source);
      var lost: bool := *;
      if lost && !calm {
        return NoAnswer;
      }
    }
  }
}
