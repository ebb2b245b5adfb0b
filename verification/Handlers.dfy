/** The request handlers over the SQLite backend, one request at a time, and the
    invariants they keep: a pending final never loses a partial it needs, and it waits for
    an incomplete one, or for the next attempt after a failed copy. */
module Handlers {
  import opened ByteStrings
  import opened PatchRules
  import opened SqliteStorage

  function SizeLimit(limits: Limits): Option<nat> {
    if limits.maxSize > 0 then Some(limits.maxSize) else None
  }

  predicate RowSound(row: Row, file: Bytes) {
    if row.sources == [] then
      && row.offset == |file|
      && (row.length.Some? ==> row.offset <= row.length.value)
      && row.completed == (row.length == Some(row.offset))
    else
      && !row.partial
      && (row.completed ==> row.length == Some(row.offset) && row.offset == |file|)
  }

  ghost predicate Sound(db: Db) {
    forall id :: id in db.rows ==> id in db.files && RowSound(db.rows[id], db.files[id])
  }

  /** The declared lengths of the listed uploads, where there is one. */
  function Declared(rows: Rows, ids: seq<Id>): nat {
    if ids == [] then 0
    else
      var last := ids[|ids| - 1];
      Declared(rows, ids[..|ids| - 1]) + if last in rows && rows[last].length.Some? then rows[last].length.value else 0
  }

  predicate LengthsKnown(rows: Rows, ids: seq<Id>) {
    forall i :: 0 <= i < |ids| && ids[i] in rows ==> rows[ids[i]].length.Some?
  }

  predicate Fits(rows: Rows, ids: seq<Id>, limits: Limits) {
    limits.maxSize > 0 ==> LengthsKnown(rows, ids) && Declared(rows, ids) <= limits.maxSize
  }

  /** What a pending final needs: its partials, within the size limit, and if it has been
      claimed, all of them complete and as long as claimed. */
  predicate Provided(db: Db, row: Row, limits: Limits) {
    && AllPartials(db.rows, row.sources) && Fits(db.rows, row.sources, limits)
    && (row.length.Some? ==> db.AllReady(row.sources) && row.length.value == db.Total(row.sources))
  }

  ghost predicate Supplied(db: Db, limits: Limits) {
    forall f :: db.Pending(f) ==> Provided(db, db.rows[f], limits)
  }

  /** And at least one of its partials is incomplete, so its completion will assemble it. */
  ghost predicate NoStranded(db: Db, limits: Limits) {
    Supplied(db, limits) && forall f :: !Due(db, f)
  }

  lemma {:induction false} TotalIsDeclared(db: Db, ids: seq<Id>)
    requires db.AllReady(ids) && AllPartials(db.rows, ids)
    ensures db.Total(ids) == Declared(db.rows, ids)
  {
    if ids != [] {
      assert db.Ready(ids[|ids| - 1]);
      TotalIsDeclared(db, ids[..|ids| - 1]);
    }
  }

  lemma {:induction false} JoinedLength(db: Db, ids: seq<Id>)
    requires Sound(db) && db.AllReady(ids) && AllPartials(db.rows, ids)
    ensures HasFiles(db.files, ids) && |Joined(db.files, ids)| == db.Total(ids)
  {
    if ids != [] {
      assert db.Ready(ids[|ids| - 1]);
      JoinedLength(db, ids[..|ids| - 1]);
    }
  }

  /** Declared sums only look at the lengths of partials. */
  lemma {:induction false} DeclaredFrame(before: Rows, after: Rows, ids: seq<Id>)
    requires AllPartials(before, ids)
    requires forall i :: 0 <= i < |ids| ==>
               ids[i] in after && after[ids[i]].partial && after[ids[i]].length == before[ids[i]].length
    ensures AllPartials(after, ids) && Declared(after, ids) == Declared(before, ids)
  {
    if ids != [] {
      DeclaredFrame(before, after, ids[..|ids| - 1]);
    }
  }

  /** Whatever is not a pending final keeps its row and its file. */
  ghost predicate Kept(before: Db, after: Db) {
    && after.rows.Keys <= before.rows.Keys
    && forall i :: i in before.rows && i in before.files && !before.Pending(i) ==>
         i in after.rows && after.rows[i] == before.rows[i] && i in after.files && after.files[i] == before.files[i]
  }

  /** The same for everything but `id`. */
  ghost predicate OthersKept(before: Db, after: Db, id: Id) {
    forall i :: i in before.rows && i in before.files && i != id && !before.Pending(i) ==>
      i in after.rows && after.rows[i] == before.rows[i] && i in after.files && after.files[i] == before.files[i]
  }

  /** A final stands as before with respect to its sources if their rows are the same. */
  lemma {:induction false} SourcesSame(before: Db, after: Db, ids: seq<Id>)
    requires forall i :: 0 <= i < |ids| ==>
               ids[i] in before.rows && ids[i] in after.rows && after.rows[ids[i]] == before.rows[ids[i]]
    ensures AllPartials(after.rows, ids) == AllPartials(before.rows, ids) && after.AllReady(ids) == before.AllReady(ids)
    ensures AllPartials(before.rows, ids) ==> Declared(after.rows, ids) == Declared(before.rows, ids)
    ensures before.AllReady(ids) ==> after.Total(ids) == before.Total(ids)
  {
    assert forall i :: 0 <= i < |ids| ==> after.Ready(ids[i]) == before.Ready(ids[i]);
    if ids != [] {
      SourcesSame(before, after, ids[..|ids| - 1]);
      assert before.AllReady(ids) ==> before.Ready(ids[|ids| - 1]) && after.Ready(ids[|ids| - 1]);
    }
  }

  lemma ProvidedSame(before: Db, after: Db, row: Row, limits: Limits)
    requires forall i :: 0 <= i < |row.sources| ==>
               row.sources[i] in before.rows && row.sources[i] in after.rows &&
               after.rows[row.sources[i]] == before.rows[row.sources[i]]
    ensures Provided(after, row, limits) == Provided(before, row, limits)
    ensures after.AllReady(row.sources) == before.AllReady(row.sources)
  {
    SourcesSame(before, after, row.sources);
  }

  /** Only one pending final differs, and it is none that could be a source. */
  predicate FinalChanges(db: Db, after: Db, f: Id) {
    && db.Pending(f) && f in after.rows && f in after.files
    && after.rows == db.rows[f := after.rows[f]] && after.files - {f} == db.files - {f}
    && after.rows[f].sources == db.rows[f].sources && !after.rows[f].partial
    && RowSound(after.rows[f], after.files[f]) && (!after.rows[f].completed ==> after.rows[f].length.None?)
  }

  /** What happens to one pending final leaves the store sound and the other finals alone. */
  lemma FinalSettles(db: Db, after: Db, f: Id, limits: Limits)
    requires Sound(db) && Supplied(db, limits) && FinalChanges(db, after, f)
    ensures Sound(after) && Supplied(after, limits) && Kept(db, after)
    ensures forall g :: g != f ==> after.Pending(g) == db.Pending(g) && Due(after, g) == Due(db, g)
    ensures Due(after, f) <==> Due(db, f) && !after.rows[f].completed
  {
    forall id | id != f
      ensures id in after.files <==> id in db.files
      ensures id in db.files ==> after.files[id] == db.files[id]
    {
      assert id in db.files <==> id in db.files - {f};
      assert id in after.files <==> id in after.files - {f};
    }
    forall g | db.Pending(g)
      ensures Provided(after, db.rows[g], limits)
      ensures after.AllReady(db.rows[g].sources) == db.AllReady(db.rows[g].sources)
    {
      assert RowSound(db.rows[f], db.files[f]) && f !in db.rows[g].sources;
      ProvidedSame(db, after, db.rows[g], limits);
    }
  }

  /** Assembly without a failing copy completes a final whose partials are complete, and
      does nothing else; the branch that deletes an oversized final is unreachable. */
  lemma AssembleSettles(db: Db, f: Id, limits: Limits)
    requires Sound(db) && Supplied(db, limits)
    ensures var after := Assemble(db, f, SizeLimit(limits)).db;
      && Sound(after) && Supplied(after, limits) && Kept(db, after)
      && after.rows.Keys == db.rows.Keys && !Due(after, f)
      && (if Due(db, f) then FinalChanges(db, after, f) && after.rows[f].completed else after == db)
      && (forall g :: g != f ==> after.Pending(g) == db.Pending(g) && Due(after, g) == Due(db, g))
    ensures Due(db, f) ==>
      && HasFiles(db.files, db.rows[f].sources) && !TooBig(SizeLimit(limits), db.Total(db.rows[f].sources))
      && db.Claimable(f, db.Total(db.rows[f].sources))
  {
    if Due(db, f) {
      var after := Assemble(db, f, SizeLimit(limits)).db;
      TotalIsDeclared(db, db.rows[f].sources);
      JoinedLength(db, db.rows[f].sources);
      assert Provided(db, db.rows[f], limits) && RowSound(db.rows[f], db.files[f]);
      FinalSettles(db, after, f, limits);
    }
  }

  /** A copy that fails leaves everything but the half-built file as it was, except that the
      final is unclaimed. */
  lemma RollbackSettles(db: Db, after: Db, f: Id, limits: Limits)
    requires Sound(db) && Supplied(db, limits) && db.Pending(f) && RolledBack(db, after, f)
    ensures Sound(after) && Supplied(after, limits) && Kept(db, after)
    ensures FinalChanges(db, after, f) && Due(after, f) == Due(db, f)
    ensures forall g :: g != f ==> after.Pending(g) == db.Pending(g) && Due(after, g) == Due(db, g)
  {
    assert RowSound(db.rows[f], db.files[f]);
    FinalSettles(db, after, f, limits);
  }

  datatype Stored = Stored(row: Row, file: Bytes)

  datatype Served = Served(after: Option<Stored>, status: nat)

  /** What a PATCH does to its own upload. A hook that stops it, with its own status,
      deletes it. */
  function ServePatch(limits: Limits, now: nat, up: Option<Stored>, req: PatchRequest, stop: Option<nat>): Served {
    if up.None? then Served(None, 404)
    else
      match PlanPatch(limits, now, up.value.row, req)
      case Reject(status) => Served(up, status)
      case Go(plan) =>
        if stop.Some? then Served(None, stop.value)
        else Served(Some(PatchedTo(up.value, req, plan)), 204)
  }

  function PatchedTo(up: Stored, req: PatchRequest, plan: Plan): Stored {
    Stored(up.row.(length := Some(plan.effective), offset := plan.newOffset,
        completed := plan.newOffset >= plan.effective),
           WriteAt(up.file, plan.expected, req.body))
  }

  function Lookup(db: Db, id: Id): Option<Stored> {
    if id in db.rows && id in db.files then Some(Stored(db.rows[id], db.files[id])) else None
  }

  /** The store after a PATCH, short of its assembly step. */
  function Patched(db: Db, req: PatchRequest, plan: Plan): Db
    requires req.id in db.rows && req.id in db.files
  {
    var up := PatchedTo(Stored(db.rows[req.id], db.files[req.id]), req, plan);
    Db(db.rows[req.id := up.row], db.files[req.id := up.file])
  }

  /** A PATCH short of its assembly step: the store stays sound, and a final that has become
      due is one that lists this upload, which has just been completed. */
  lemma PatchCore(db: Db, limits: Limits, now: nat, req: PatchRequest)
    requires Sound(db) && Supplied(db, limits) && req.id in db.rows
    requires PlanPatch(limits, now, db.rows[req.id], req).Go?
    ensures var id, after := req.id, Patched(db, req, PlanPatch(limits, now, db.rows[req.id], req).plan);
      && Sound(after) && Supplied(after, limits)
      && (forall f :: after.Pending(f) == db.Pending(f))
      && (forall f :: Due(db, f) ==> Due(after, f) && id !in db.rows[f].sources)
      && (forall f :: Due(after, f) && !Due(db, f) ==> id in db.rows[f].sources && after.rows[id].completed)
  {
    var id, after := req.id, Patched(db, req, PlanPatch(limits, now, db.rows[req.id], req).plan);
    assert RowSound(db.rows[id], db.files[id]) && !db.Ready(id);
    forall f | db.Pending(f)
      ensures Provided(after, db.rows[f], limits)
      ensures db.AllReady(db.rows[f].sources) ==> after.AllReady(db.rows[f].sources) && id !in db.rows[f].sources
      ensures after.AllReady(db.rows[f].sources) && !db.AllReady(db.rows[f].sources) ==>
                id in db.rows[f].sources && after.rows[id].completed
    {
      PatchedFinal(db, after, db.rows[f], id, limits);
    }
  }

  /** What a PATCH on an open upload means to one pending final. */
  lemma PatchedFinal(db: Db, after: Db, row: Row, id: Id, limits: Limits)
    requires Provided(db, row, limits) && id in db.rows && !db.Ready(id)
    requires id in after.rows && after.rows == db.rows[id := after.rows[id]]
    requires after.rows[id].partial == db.rows[id].partial
    requires db.rows[id].length.Some? ==> after.rows[id].length == db.rows[id].length
    requires after.Ready(id) ==> after.rows[id].completed
    ensures Provided(after, row, limits)
    ensures db.AllReady(row.sources) ==> after.AllReady(row.sources) && id !in row.sources
    ensures after.AllReady(row.sources) && !db.AllReady(row.sources) ==> id in row.sources && after.rows[id].completed
  {
    if id in row.sources {
      var k :| 0 <= k < |row.sources| && row.sources[k] == id;
      assert !db.AllReady(row.sources);
      assert after.AllReady(row.sources) ==> after.Ready(row.sources[k]);
      if limits.maxSize > 0 {
        DeclaredFrame(db.rows, after.rows, row.sources);
      }
    } else {
      ProvidedSame(db, after, row, limits);
    }
  }

  /** A PATCH goes through exactly when the upload is open and the request fits it; then,
      and only then, the stored bytes grow by exactly its body. */
  lemma PatchAppends(limits: Limits, now: nat, up: Stored, req: PatchRequest)
    requires RowSound(up.row, up.file)
    ensures var served := ServePatch(limits, now, Some(up), req, None);
      var effective := if up.row.length.Some? then up.row.length.value
                       else if req.length.Number? && req.length.n >= 0 then req.length.n else 0;
      && (served.status == 204 <==>
            && !up.row.completed && up.row.sources == [] && (up.row.expires.None? || now <= up.row.expires.value)
            && req.streamType && (req.checksum.Unchecked? || req.checksum.Matches?)
            && req.offset == Number(|up.file|)
            && (req.length == Number(effective) || (req.length.Absent? && up.row.length.Some?))
            && |up.file + req.body| <= effective
            && (up.row.length.None? && limits.maxSize > 0 ==> effective <= limits.maxSize)
            && (limits.maxChunk > 0 ==> |req.body| <= limits.maxChunk))
      && (served.status != 204 ==> served.after == Some(up))
      && (served.status == 204 ==>
            && served.after.Some? && served.after.value.file == up.file + req.body
            && RowSound(served.after.value.row, served.after.value.file)
            && served.after.value.row.length == Some(effective)
            && served.after.value.row.completed == (|up.file + req.body| == effective))
  {
    var verdict := PlanPatch(limits, now, up.row, req);
    if verdict.Go? {
      var written := WriteAt(up.file, verdict.plan.expected, req.body);
      assert written == up.file + req.body;
    }
  }

  /** Sending an applied PATCH again changes nothing. The answer is 409, or 204 if it
      carried no bytes, unless the first one completed the upload: then it is 403, and the
      client cannot tell it went through. */
  lemma ReplayIsRefused(limits: Limits, now: nat, later: nat, up: Stored, req: PatchRequest, plan: Plan)
    requires PlanPatch(limits, now, up.row, req) == Go(plan)
    requires up.row.expires.Some? ==> later <= up.row.expires.value
    ensures var after := PatchedTo(up, req, plan);
      ServePatch(limits, later, Some(after), req, None) ==
        Served(Some(after), if plan.newOffset == plan.effective then 403 else if req.body == [] then 204 else 409)
  {
  }
}
