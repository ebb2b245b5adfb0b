/** The handlers as methods over the storage object. */
module TusServer {
  import opened ByteStrings
  import opened PatchRules
  import opened SqliteStorage
  import opened Handlers

  /** A HEAD answer: no offset while a final is pending, no length while it is unknown. */
  datatype HeadReply = Failed(status: nat) | Info(offset: Option<nat>, length: Option<nat>, deferred: bool)

  /** The answer built from a row that was read, or from its absence. */
  function HeadOfRow(read: Option<Row>, now: nat): HeadReply {
    if read.None? then Failed(404)
    else
      var row := read.value;
      if row.expires.Some? && row.expires.value < now then Failed(410)
      else
        Info(if !row.completed && row.sources != [] then None else Some(row.offset), row.length,
             row.length.None? && row.sources == [])
  }

  function RowOf(db: Db, id: Id): Option<Row> {
    if id in db.rows then Some(db.rows[id]) else None
  }

  /** The answer from the current row. */
  function HeadOf(db: Db, now: nat, id: Id): HeadReply {
    HeadOfRow(RowOf(db, id), now)
  }

  /** The final was claimed before, by a process that died, and has not expired. */
  predicate ClaimedLive(db: Db, id: Id, now: nat) {
    && id in db.rows && db.rows[id].length.Some?
    && (db.rows[id].expires.Some? ==> now <= db.rows[id].expires.value)
  }

  class Server {
    const storage: Storage
    const limits: Limits

    constructor (limits: Limits)
      ensures this.limits == limits && fresh(storage)
      ensures storage.rows == map[] && storage.files == map[]
      ensures Sound(storage.Snapshot()) && NoStranded(storage.Snapshot(), limits)
    {
      this.limits := limits;
      storage := new Storage();
    }

    /** Plain creation, with or without a first body. The handler never compares the body
        with the declared length: the store stays sound exactly when the body fits. */
    method HandleCreate(id: Id, length: Option<nat>, body: Bytes, partial: bool, expires: Option<nat>)
      requires id !in storage.rows
      requires Sound(storage.Snapshot()) && Supplied(storage.Snapshot(), limits)
      modifies storage
      ensures storage.files == old(storage.files)[id := body]
      ensures storage.rows == old(storage.rows)[id :=
        Row(length, |body|, length.Some? && |body| >= length.value, partial, [], expires)]
      ensures Sound(storage.Snapshot()) == (length.None? || |body| <= length.value)
      ensures Supplied(storage.Snapshot(), limits)
      ensures forall g :: Due(storage.Snapshot(), g) == Due(old(storage.Snapshot()), g)
    {
      ghost var before := storage.Snapshot();
      storage.CreateUpload(id, Row(length, 0, false, partial, [], expires));
      if body != [] {
        storage.WriteChunk(id, 0, body);
        WriteToEmpty(body);
        storage.UpdateOffset(id, |body|);
      }
      if length.Some? && |body| >= length.value {
        var _ := storage.CompleteUpload(id);
      }
      assert RowSound(storage.rows[id], storage.files[id]) == (length.None? || |body| <= length.value);
      ArrivalKeeps(before, storage.Snapshot(), limits, id);
    }

    /** Every pending final that lists this partial. */
    method FindPendingFinals(partial: Id) returns (finals: seq<Id>)
      ensures forall f :: f in finals <==> storage.Snapshot().Pending(f) && partial in storage.rows[f].sources
    {
      finals := [];
      var todo := storage.rows.Keys;
      while todo != {}
        invariant todo <= storage.rows.Keys
        invariant forall f :: f in finals <==>
                    f !in todo && storage.Snapshot().Pending(f) && partial in storage.rows[f].sources
        decreases todo
      {
        assert (forall f :: f !in todo) ==> todo == {};
        var f :| f in todo;
        if !storage.rows[f].completed && partial in storage.rows[f].sources {
          finals := finals + [f];
        }
        todo := todo - {f};
      }
    }

    /** Assembles one pending final if it can be, claimed before or not. */
    method TryAssembleOne(f: Id, disk: Option<nat>) returns (total: Option<nat>)
      requires storage.Snapshot().Pending(f) ==> f !in storage.rows[f].sources
      modifies storage
      ensures if AttemptFails(old(storage.Snapshot()), f, SizeLimit(limits), disk)
              then total.None? && RolledBack(old(storage.Snapshot()), storage.Snapshot(), f)
              else Assembly(storage.Snapshot(), total) == Assemble(old(storage.Snapshot()), f, SizeLimit(limits))
    {
      total := storage.TryAssembleFinal(f, SizeLimit(limits), disk);
    }

    /** One final of a sound store: afterwards it is due only if its copy failed, and no other
        final has changed. */
    method SettleOne(f: Id, disk: Option<nat>)
      requires Sound(storage.Snapshot()) && Supplied(storage.Snapshot(), limits)
      modifies storage
      ensures Sound(storage.Snapshot()) && Supplied(storage.Snapshot(), limits)
      ensures Kept(old(storage.Snapshot()), storage.Snapshot())
      ensures forall g :: storage.Snapshot().Pending(g) ==>
                old(storage.Snapshot()).Pending(g) && storage.rows[g].sources == old(storage.rows)[g].sources
      ensures forall g :: Due(storage.Snapshot(), g) <==>
                Due(old(storage.Snapshot()), g) &&
                (g == f ==> CopyFails(old(storage.files), old(storage.rows)[f].sources, disk))
    {
      ghost var before := storage.Snapshot();
      AssembleSettles(before, f, limits);
      if storage.Snapshot().Pending(f) {
        SourcesPresent(before, limits, f);
      }
      var _ := TryAssembleOne(f, disk);
      if AttemptFails(before, f, SizeLimit(limits), disk) {
        RollbackSettles(before, storage.Snapshot(), f, limits);
      }
    }

    /** Assembles the listed finals one after the other. Those whose copy fails stay due;
        `disk` says how much the disk takes during the copy of each. */
    method AssemblePendingFinals(finals: seq<Id>, disk: Disks)
      requires Sound(storage.Snapshot()) && Supplied(storage.Snapshot(), limits)
      modifies storage
      ensures Sound(storage.Snapshot()) && Supplied(storage.Snapshot(), limits)
      ensures Kept(old(storage.Snapshot()), storage.Snapshot())
      ensures forall g :: Due(storage.Snapshot(), g) <==>
                Due(old(storage.Snapshot()), g) && (g in finals ==> StaysDue(old(storage.Snapshot()), g, disk))
    {
      ghost var before := storage.Snapshot();
      for i := 0 to |finals|
        invariant Sound(storage.Snapshot()) && Supplied(storage.Snapshot(), limits)
        invariant Kept(before, storage.Snapshot())
        invariant forall g :: storage.Snapshot().Pending(g) ==>
                    before.Pending(g) && storage.rows[g].sources == before.rows[g].sources
        invariant forall g :: Due(storage.Snapshot(), g) <==>
                    Due(before, g) && (g in finals[..i] ==> StaysDue(before, g, disk))
      {
        var f := finals[i];
        assert finals[..i + 1] == finals[..i] + [f];
        if storage.Snapshot().Pending(f) {
          CopyFailsKept(before, storage.Snapshot(), limits, f, disk(f));
        }
        SettleOne(f, disk(f));
      }
      assert finals[..|finals|] == finals;
    }

    /** Commit, write, swap: the three storage calls that carry the chunk. */
    method StoreChunk(req: PatchRequest, plan: Plan)
      requires req.id in storage.rows && req.id in storage.files
      requires storage.rows[req.id].offset == plan.expected
      requires storage.rows[req.id].length == (if plan.commit.Some? then None else Some(plan.effective))
      requires plan.commit.Some? ==> plan.commit.value == plan.effective
      modifies storage
      ensures storage.rows == old(storage.rows)[req.id :=
        old(storage.rows)[req.id].(length := Some(plan.effective), offset := plan.newOffset)]
      ensures storage.files ==
        old(storage.files)[req.id := WriteAt(old(storage.files)[req.id], plan.expected, req.body)]
    {
      if plan.commit.Some? {
        storage.SetUploadLength(req.id, plan.commit.value);
      }
      storage.WriteChunk(req.id, plan.expected, req.body);
      var won := storage.UpdateOffsetAtomic(req.id, plan.expected, plan.newOffset);
      assert won;
    }

    /** The completing half of a PATCH: mark the upload, then assemble what waited for it. */
    method FinishPatch(id: Id, complete: bool, disk: Disks)
      requires id in storage.rows && id in storage.files
      requires !storage.rows[id].completed && storage.rows[id].sources == []
      requires var marked := Db(storage.rows[id := storage.rows[id].(completed := complete)], storage.files);
        Sound(marked) && Supplied(marked, limits)
      modifies storage
      ensures Sound(storage.Snapshot()) && Supplied(storage.Snapshot(), limits)
      ensures var row := old(storage.rows)[id].(completed := complete);
        var marked := Db(old(storage.rows)[id := row], old(storage.files));
        && Kept(marked, storage.Snapshot())
        && forall g :: Due(storage.Snapshot(), g) <==>
             Due(marked, g) && (complete && id in marked.rows[g].sources ==> StaysDue(marked, g, disk))
    {
      assert !complete ==> storage.rows[id := storage.rows[id].(completed := complete)] == storage.rows;
      if complete {
        var first := storage.CompleteUpload(id);
        if storage.rows[id].partial {
          var finals := FindPendingFinals(id);
          AssemblePendingFinals(finals, disk);
        } else {
          NoneWaits(storage.Snapshot(), limits, id);
        }
      }
    }

    /** A planned PATCH whose hook lets it continue. */
    method CarryOut(now: nat, req: PatchRequest, plan: Plan, disk: Disks)
      requires Sound(storage.Snapshot()) && Supplied(storage.Snapshot(), limits) && req.id in storage.rows
      requires PlanPatch(limits, now, storage.rows[req.id], req) == Go(plan)
      modifies storage
      ensures Sound(storage.Snapshot()) && Supplied(storage.Snapshot(), limits)
      ensures Lookup(storage.Snapshot(), req.id) ==
        Some(PatchedTo(Stored(old(storage.rows)[req.id], old(storage.files)[req.id]), req, plan))
      ensures OthersKept(old(storage.Snapshot()), storage.Snapshot(), req.id)
      ensures Settles(old(storage.Snapshot()), storage.Snapshot(), req, plan, disk)
    {
      ghost var before := storage.Snapshot();
      ghost var marked := Patched(before, req, plan);
      PatchCore(before, limits, now, req);
      StoreChunk(req, plan);
      assert storage.rows[req.id := storage.rows[req.id].(completed := plan.newOffset >= plan.effective)] ==
             marked.rows;
      FinishPatch(req.id, plan.newOffset >= plan.effective, disk);
    }

    /** A planned PATCH whose hook stops it after the swap: the upload is deleted. */
    method CutShort(now: nat, req: PatchRequest, plan: Plan)
      requires Sound(storage.Snapshot()) && Supplied(storage.Snapshot(), limits) && req.id in storage.rows
      requires PlanPatch(limits, now, storage.rows[req.id], req) == Go(plan)
      modifies storage
      ensures storage.rows == old(storage.rows) - {req.id} && storage.files == old(storage.files) - {req.id}
      ensures Sound(storage.Snapshot())
      ensures Supplied(storage.Snapshot(), limits) == !Needed(old(storage.Snapshot()), req.id)
      ensures old(NoStranded(storage.Snapshot(), limits)) ==>
        NoStranded(storage.Snapshot(), limits) == !Needed(old(storage.Snapshot()), req.id)
    {
      RemovalStrands(storage.Snapshot(), limits, req.id);
      StoreChunk(req, plan);
      storage.DeleteUpload(req.id);
      assert storage.rows == old(storage.rows) - {req.id} && storage.files == old(storage.files) - {req.id};
    }

    method HandlePatch(now: nat, req: PatchRequest, stop: Option<nat>, disk: Disks) returns (status: nat, offset: nat)
      requires Sound(storage.Snapshot()) && Supplied(storage.Snapshot(), limits)
      modifies storage
      ensures var served := ServePatch(limits, now, Lookup(old(storage.Snapshot()), req.id), req, stop);
        && status == served.status
        && Lookup(storage.Snapshot(), req.id) == served.after
        && (status == 204 && stop.None? ==> served.after.Some? && offset == served.after.value.row.offset)
      ensures req.id !in old(storage.rows) ==> status == 404
      ensures req.id in old(storage.rows) ==>
        var row := old(storage.rows)[req.id];
        && (stop.Some? && Deserves(limits, now, row, req, 204) ==> status == stop.value)
        && (stop.None? || !Deserves(limits, now, row, req, 204) ==>
              && (forall k: nat :: status == k <==> Deserves(limits, now, row, req, k))
              && (status == 204 ==> offset == row.offset + |req.body|))
      ensures OthersKept(old(storage.Snapshot()), storage.Snapshot(), req.id)
      ensures Sound(storage.Snapshot())
      ensures var verdict := if req.id in old(storage.rows) then PlanPatch(limits, now, old(storage.rows)[req.id], req)
                             else Reject(404);
        && (Supplied(storage.Snapshot(), limits) <==>
              !(verdict.Go? && stop.Some? && Needed(old(storage.Snapshot()), req.id)))
        && (verdict.Reject? ==> storage.Snapshot() == old(storage.Snapshot()))
        && (verdict.Go? && stop.None? ==>
              Settles(old(storage.Snapshot()), storage.Snapshot(), req, verdict.plan, disk))
        && (verdict.Go? && old(NoStranded(storage.Snapshot(), limits)) ==>
              (NoStranded(storage.Snapshot(), limits) <==>
                 if stop.Some? then !Needed(old(storage.Snapshot()), req.id)
                 else forall g :: !StaysDue(Patched(old(storage.Snapshot()), req, verdict.plan), g, disk)))
    {
      if req.id !in storage.rows {
        return 404, 0;
      }
      forall k: nat | k != 204
        ensures PlanPatch(limits, now, storage.rows[req.id], req) == Reject(k) <==>
                Deserves(limits, now, storage.rows[req.id], req, k)
      {
        PlanIsDeserved(limits, now, storage.rows[req.id], req, k);
      }
      PlanIsDeserved(limits, now, storage.rows[req.id], req, 404);
      match PlanPatch(limits, now, storage.rows[req.id], req) {
        case Reject(s) => return s, 0;
        case Go(plan) =>
          if stop.Some? {
            CutShort(now, req, plan);
            return stop.value, 0;
          }
          PatchCore(storage.Snapshot(), limits, now, req);
          CarryOut(now, req, plan, disk);
          return 204, plan.newOffset;
      }
    }

    /** HEAD retries the assembly of a pending final before it answers. It reads the row
        again only when the attempt assembled the final, or took it away. So the answer is
        that of the current row exactly if no copy failed, or the final was unclaimed. */
    method HandleHead(now: nat, id: Id, disk: Option<nat>) returns (reply: HeadReply)
      requires storage.Snapshot().Pending(id) ==> id !in storage.rows[id].sources
      modifies storage
      ensures var failed := AttemptFails(old(storage.Snapshot()), id, SizeLimit(limits), disk);
        && (if failed then RolledBack(old(storage.Snapshot()), storage.Snapshot(), id)
            else storage.Snapshot() == Assemble(old(storage.Snapshot()), id, SizeLimit(limits)).db)
        && reply == HeadOf(if failed then old(storage.Snapshot()) else storage.Snapshot(), now, id)
        && (reply == HeadOf(storage.Snapshot(), now, id) <==> !failed || !ClaimedLive(old(storage.Snapshot()), id, now))
      ensures reply == Failed(404) <==> id !in storage.rows
      ensures reply == Failed(410) <==>
        id in storage.rows && storage.rows[id].expires.Some? && storage.rows[id].expires.value < now
      ensures reply.Failed? ==> reply.status == 404 || reply.status == 410
      ensures reply.Info? ==>
        var row, waits := storage.rows[id], storage.rows[id].sources != [] && !storage.rows[id].completed;
        && reply.offset == (if waits then None else Some(row.offset))
        && (reply.deferred <==> row.sources == [] && row.length.None?)
        && reply.length == if waits then old(storage.rows)[id].length else row.length
      ensures !old(storage.Snapshot()).Pending(id) ==> storage.Snapshot() == old(storage.Snapshot())
      ensures old(Sound(storage.Snapshot()) && Supplied(storage.Snapshot(), limits)) ==>
        Sound(storage.Snapshot()) && Supplied(storage.Snapshot(), limits)
      ensures old(NoStranded(storage.Snapshot(), limits)) ==> storage.Snapshot() == old(storage.Snapshot())
    {
      ghost var before := storage.Snapshot();
      var upload := RowOf(storage.Snapshot(), id);
      if storage.Snapshot().Pending(id) {
        var total := TryAssembleOne(id, disk);
        if total.Some? {
          upload := RowOf(storage.Snapshot(), id);
        } else if id !in storage.rows {
          upload := None;
        }
      }
      HeadSettles(before, storage.Snapshot(), id, disk);
      reply := HeadOfRow(upload, now);
    }

    /** What the attempt leaves of a sound store. */
    lemma HeadSettles(before: Db, after: Db, id: Id, disk: Option<nat>)
      requires if AttemptFails(before, id, SizeLimit(limits), disk) then RolledBack(before, after, id)
               else after == Assemble(before, id, SizeLimit(limits)).db
      ensures Sound(before) && Supplied(before, limits) ==> Sound(after) && Supplied(after, limits)
      ensures NoStranded(before, limits) ==> after == before
    {
      assert NoStranded(before, limits) ==> !Due(before, id);
      if Sound(before) && Supplied(before, limits) {
        AssembleSettles(before, id, limits);
        if AttemptFails(before, id, SizeLimit(limits), disk) {
          RollbackSettles(before, after, id, limits);
        }
      }
    }

    /** DELETE refuses a partial that a pending final still needs. */
    method HandleDelete(id: Id, disabled: bool, veto: Option<nat>) returns (status: nat)
      requires Sound(storage.Snapshot()) && Supplied(storage.Snapshot(), limits)
      modifies storage
      ensures status == if disabled then 405 else if id !in old(storage.rows) then 404
                        else if veto.Some? then veto.value
                        else if old(storage.rows)[id].partial && Needed(old(storage.Snapshot()), id) then 409 else 204
      ensures var deleted := !disabled && id in old(storage.rows) && veto.None? && status == 204;
        && storage.rows == (if deleted then old(storage.rows) - {id} else old(storage.rows))
        && storage.files == (if deleted then old(storage.files) - {id} else old(storage.files))
        && (forall g :: Due(storage.Snapshot(), g) <==> Due(old(storage.Snapshot()), g) && (deleted ==> g != id))
      ensures Sound(storage.Snapshot()) && Supplied(storage.Snapshot(), limits)
    {
      if disabled {
        return 405;
      }
      if id !in storage.rows {
        return 404;
      }
      if veto.Some? {
        return veto.value;
      }
      if storage.rows[id].partial {
        var pending := FindPendingFinals(id);
        if pending != [] {
          var f := pending[0];
          assert f in pending && storage.Snapshot().Pending(f) && id in storage.rows[f].sources;
          return 409;
        }
      } else {
        NoneWaits(storage.Snapshot(), limits, id);
      }
      RemovalKeeps(storage.Snapshot(), limits, id);
      storage.DeleteUpload(id);
      status := 204;
    }

    /** Termination by the operator, and expiry cleanup for one upload: nothing protects
        a partial that a pending final needs. */
    method TerminateUpload(id: Id) returns (existed: bool)
      requires Sound(storage.Snapshot()) && Supplied(storage.Snapshot(), limits)
      modifies storage
      ensures existed == (id in old(storage.rows))
      ensures storage.Snapshot() ==
        if existed then Db(old(storage.rows) - {id}, old(storage.files) - {id}) else old(storage.Snapshot())
      ensures Sound(storage.Snapshot())
      ensures Supplied(storage.Snapshot(), limits) == !Needed(old(storage.Snapshot()), id)
      ensures old(NoStranded(storage.Snapshot(), limits)) ==>
        NoStranded(storage.Snapshot(), limits) == !Needed(old(storage.Snapshot()), id)
    {
      RemovalStrands(storage.Snapshot(), limits, id);
      existed := id in storage.rows;
      if existed {
        storage.DeleteUpload(id);
      }
    }

    /** The size check of a final, before any row is created. Uploads that are not there are
        left to the check of the partials. */
    method CheckDeclared(sources: seq<Id>) returns (status: Option<nat>)
      ensures status.None? <==> Fits(storage.rows, sources, limits)
      ensures status == Some(400) <==> limits.maxSize > 0 && !LengthsKnown(storage.rows, sources)
      ensures status == Some(413) <==>
        && limits.maxSize > 0 && LengthsKnown(storage.rows, sources)
        && Declared(storage.rows, sources) > limits.maxSize
      ensures status.Some? ==> status.value == 400 || status.value == 413
    {
      if limits.maxSize > 0 {
        var declared := 0;
        for i := 0 to |sources|
          invariant LengthsKnown(storage.rows, sources[..i]) && declared == Declared(storage.rows, sources[..i])
        {
          if sources[i] in storage.rows {
            if storage.rows[sources[i]].length.None? {
              return Some(400);
            }
            declared := declared + storage.rows[sources[i]].length.value;
          }
          assert sources[..i + 1] == sources[..i] + [sources[i]];
        }
        assert sources[..|sources|] == sources;
        if declared > limits.maxSize {
          return Some(413);
        }
      }
      status := None;
    }

    /** Creation of a final: refused, pending, or assembled on the spot. A copy that fails is
        an unhandled exception, which leaves a claimed final for HEAD to assemble. */
    method HandleCreateFinal(id: Id, sources: seq<Id>, expires: Option<nat>, disk: Option<nat>) returns (status: nat)
      requires id !in storage.rows && sources != []
      requires Sound(storage.Snapshot()) && Supplied(storage.Snapshot(), limits)
      modifies storage
      ensures Sound(storage.Snapshot()) && Supplied(storage.Snapshot(), limits)
      ensures var accepted := AllPartials(old(storage.rows), sources) && Fits(old(storage.rows), sources, limits);
        var failed := old(storage.Snapshot()).AllReady(sources) && CopyFails(old(storage.files), sources, disk);
        && (status == 201 <==> accepted && !failed)
        && (status == 500 <==> accepted && failed)
        && (!accepted ==> storage.Snapshot() == old(storage.Snapshot()))
      ensures status == 413 <==>
        && limits.maxSize > 0 && LengthsKnown(old(storage.rows), sources)
        && Declared(old(storage.rows), sources) > limits.maxSize
      ensures status == 400 <==>
        || (limits.maxSize > 0 && !LengthsKnown(old(storage.rows), sources))
        || (Fits(old(storage.rows), sources, limits) && !AllPartials(old(storage.rows), sources))
      ensures status in {201, 400, 413, 500}
      ensures status == 201 ==>
        && (if old(storage.Snapshot()).AllReady(sources)
            then HasFiles(old(storage.files), sources) &&
                 storage.files == old(storage.files)[id := Joined(old(storage.files), sources)] &&
                 storage.rows == old(storage.rows)[id :=
                   FinalRow(Some(|storage.files[id]|), |storage.files[id]|, true, sources, expires)]
            else storage.files == old(storage.files)[id := []] &&
                 storage.rows == old(storage.rows)[id := FinalRow(None, 0, false, sources, expires)])
      ensures status == 500 ==>
        && old(storage.Snapshot()).AllReady(sources) && id in storage.files
        && storage.files == old(storage.files)[id := storage.files[id]]
        && storage.rows == old(storage.rows)[id :=
             FinalRow(Some(old(storage.Snapshot()).Total(sources)), 0, false, sources, expires)]
      ensures forall g :: Due(storage.Snapshot(), g) <==>
                Due(old(storage.Snapshot()), g) || (g == id && status == 500)
    {
      ghost var before := storage.Snapshot();
      var refused := CheckDeclared(sources);
      if refused.Some? {
        return refused.value;
      }
      forall i | 0 <= i < |sources| && sources[i] in storage.rows
        ensures sources[i] in storage.files
      {
        var src := sources[i];
        assert RowSound(storage.rows[src], storage.files[src]);
      }
      var merged := storage.ConcatenateUploads(id, sources, expires, true, disk);
      status := 201;
      match merged {
        case Refused => return 400;
        case Broken => status := 500;
        case Waiting =>
        case Whole(total) =>
          TotalIsDeclared(before, sources);
          JoinedLength(before, sources);
          if limits.maxSize > 0 && total > limits.maxSize {
            assert false;
          }
      }
      ArrivalKeeps(before, storage.Snapshot(), limits, id);
    }
  }

  /** A final over one complete partial, claimed by a process that died. */
  method ClaimedFinal(partial: Id, final: Id, content: Bytes) returns (server: Server)
    requires partial != final && content != []
    ensures fresh(server) && fresh(server.storage) && server.limits == Limits(0, 0)
    ensures server.storage.rows == map[partial := Row(Some(|content|), |content|, true, true, [], None),
                                       final := Row(Some(|content|), 0, false, false, [partial], None)]
    ensures server.storage.files == map[partial := content, final := []]
  {
    server := new Server(Limits(0, 0));
    server.HandleCreate(partial, Some(|content|), content, true, None);
    server.storage.CreateUpload(final, FinalRow(Some(|content|), 0, false, [partial], None));
  }

  /** The stale answer is real: the next copy fails, the claim is gone, and HEAD still gives
      the length of the claimed row. */
  method AnswersStale(partial: Id, final: Id, content: Bytes) returns (server: Server, reply: HeadReply)
    requires partial != final && content != []
    ensures reply == Info(None, Some(|content|), false)
    ensures HeadOf(server.storage.Snapshot(), 0, final) == Info(None, None, false)
  {
    server := ClaimedFinal(partial, final, content);
    ghost var db := server.storage.Snapshot();
    assert db.Ready(partial);
    TotalOfOne(db, partial);
    assert [partial][..0] == [];
    reply := server.HandleHead(0, final, Some(0));
  }

  lemma TotalOfOne(db: Db, id: Id)
    requires db.Ready(id)
    ensures db.AllReady([id]) && db.Total([id]) == db.rows[id].offset
  {
    assert [id][..0] == [];
  }

  predicate Needed(db: Db, id: Id) {
    exists f :: f in db.rows && db.Pending(f) && id in db.rows[f].sources
  }

  /** How many more buffers the disk takes during the copy of each final. */
  type Disks = Id -> Option<nat>

  /** A final whose partials are complete, and whose copy fails. */
  predicate StaysDue(db: Db, f: Id, disk: Disks) {
    Due(db, f) && CopyFails(db.files, db.rows[f].sources, disk(f))
  }

  /** After a PATCH, a final waits over complete partials exactly if it did before, or if the
      PATCH completed its last missing partial and the copy failed. */
  ghost predicate Settles(before: Db, after: Db, req: PatchRequest, plan: Plan, disk: Disks)
    requires req.id in before.rows && req.id in before.files
  {
    forall g :: Due(after, g) <==> Due(before, g) || StaysDue(Patched(before, req, plan), g, disk)
  }

  lemma CopyFailsKept(before: Db, after: Db, limits: Limits, f: Id, disk: Option<nat>)
    requires Sound(before) && Supplied(before, limits) && Kept(before, after) && before.Pending(f)
    ensures CopyFails(after.files, before.rows[f].sources, disk) ==
            CopyFails(before.files, before.rows[f].sources, disk)
  {
    var sources := before.rows[f].sources;
    SourcesPresent(before, limits, f);
    forall i | 0 <= i < |sources|
      ensures sources[i] in after.files && after.files[sources[i]] == before.files[sources[i]]
    {
      var src := sources[i];
      assert Provided(before, before.rows[f], limits) && before.rows[src].partial;
      assert RowSound(before.rows[src], before.files[src]) && !before.Pending(src);
    }
    CopyFailsSame(before.files, after.files, sources, disk);
  }

  /** Removing an upload that no pending final needs leaves the others as they are. */
  lemma RemovalKeeps(db: Db, limits: Limits, id: Id)
    requires Sound(db) && Supplied(db, limits) && !Needed(db, id)
    ensures var after := Db(db.rows - {id}, db.files - {id});
      && Sound(after) && Supplied(after, limits)
      && forall g :: Due(after, g) <==> Due(db, g) && g != id
  {
    var after := Db(db.rows - {id}, db.files - {id});
    forall g | db.Pending(g) && g != id
      ensures Provided(after, db.rows[g], limits)
      ensures after.AllReady(db.rows[g].sources) == db.AllReady(db.rows[g].sources)
    {
      assert Provided(db, db.rows[g], limits) && id !in db.rows[g].sources;
      ProvidedSame(db, after, db.rows[g], limits);
    }
  }

  /** Removing an upload strands a pending final exactly when one needs it. */
  lemma RemovalStrands(db: Db, limits: Limits, id: Id)
    requires Sound(db) && Supplied(db, limits)
    ensures var after := Db(db.rows - {id}, db.files - {id});
      && Sound(after) && Supplied(after, limits) == !Needed(db, id)
      && (NoStranded(db, limits) ==> NoStranded(after, limits) == !Needed(db, id))
    ensures id !in db.rows ==> !Needed(db, id)
  {
    var after := Db(db.rows - {id}, db.files - {id});
    if Needed(db, id) {
      var f :| f in db.rows && db.Pending(f) && id in db.rows[f].sources;
      SourcesPresent(db, limits, f);
      assert after.Pending(f) && !AllPartials(after.rows, after.rows[f].sources);
    } else {
      RemovalKeeps(db, limits, id);
    }
  }

  /** Finals only list partials. */
  lemma NoneWaits(db: Db, limits: Limits, id: Id)
    requires Supplied(db, limits) && id in db.rows && !db.rows[id].partial
    ensures forall f :: db.Pending(f) ==> id !in db.rows[f].sources
  {
  }

  /** A new upload changes nothing for the finals that are there. */
  lemma ArrivalKeeps(before: Db, after: Db, limits: Limits, id: Id)
    requires Sound(before) && Supplied(before, limits) && id !in before.rows && id in after.rows && id in after.files
    requires after.rows == before.rows[id := after.rows[id]] && after.files == before.files[id := after.files[id]]
    requires after.Pending(id) ==> Provided(before, after.rows[id], limits)
    ensures RowSound(after.rows[id], after.files[id]) == Sound(after)
    ensures Supplied(after, limits)
    ensures forall g :: Due(after, g) <==>
              Due(before, g) || (g == id && after.Pending(id) && before.AllReady(after.rows[id].sources))
  {
    forall g | after.Pending(g)
      ensures Provided(after, after.rows[g], limits)
      ensures after.AllReady(after.rows[g].sources) == before.AllReady(after.rows[g].sources)
    {
      assert g != id ==> before.Pending(g);
      assert Provided(before, after.rows[g], limits);
      ProvidedSame(before, after, after.rows[g], limits);
    }
  }

  lemma SourcesPresent(db: Db, limits: Limits, f: Id)
    requires Sound(db) && Supplied(db, limits) && db.Pending(f)
    ensures HasFiles(db.files, db.rows[f].sources) && f !in db.rows[f].sources
  {
    var sources := db.rows[f].sources;
    assert RowSound(db.rows[f], db.files[f]) && Provided(db, db.rows[f], limits);
    forall i | 0 <= i < |sources|
      ensures sources[i] in db.files
    {
      var src := sources[i];
      assert db.rows[src].partial;
    }
  }
}
