/** HEAD as the repair path: from every reachable state of a pending final, one HEAD over
    complete partials finishes the concatenation. */
module Repair {
  import opened ByteStrings
  import opened PatchRules
  import M = Machine
  import opened Serial
  import opened Safety
  import opened Finals
  import opened Reachable
  import SqliteStorage
  import Handlers
  import TusServer

  /** The database and the upload directory of a machine state. */
  function DbOf(s: M.Sys): SqliteStorage.Db {
    SqliteStorage.Db(map id | id in s.cells && s.cells[id].row.Some? :: s.cells[id].row.value,
                     map id | id in s.cells && s.cells[id].file.Some? :: s.cells[id].file.value)
  }

  /** The sources of a final whose rows are all complete. */
  lemma {:induction false} ReadySources(s: M.Sys, ids: seq<Id>)
    requires Ok(s) && DbOf(s).AllReady(ids)
    requires forall i :: 0 <= i < |ids| ==> s.Get(ids[i]).kind == M.Plain(true)
    ensures HasFiles(DbOf(s).files, ids)
    ensures Joined(DbOf(s).files, ids) == Expected(s, ids)
    ensures DbOf(s).Total(ids) == |Expected(s, ids)|
  {
    if ids != [] {
      var front, last := ids[..|ids| - 1], ids[|ids| - 1];
      assert DbOf(s).Ready(last);
      ReadySources(s, front);
      ReadySeals(s, last);
    }
  }

  /** A final that some run has left uncompleted over complete partials, not too large. */
  ghost predicate Repairable(cfg: M.Config, run: seq<M.Action>, fid: Id, limit: Option<nat>)
    requires M.Runs(cfg, M.INITIAL, run)
  {
    var s := M.After(cfg, M.INITIAL, run);
    var cell := s.Get(fid);
    && cell.kind.Final? && cell.row.Some? && !cell.row.value.completed
    && DbOf(s).AllReady(cell.kind.sources)
    && (limit.Some? ==> |Expected(s, cell.kind.sources)| <= limit.value)
  }

  /** Whatever happened before (a crash after the claim, mid-copy, or between the offset
      update and the completion, a rollback, another assembly under way): once all
      partials are complete, one more assembly leaves the final completed with the
      in-order concatenation of the accepted bytes. */
  lemma AssemblyRepairs(cfg: M.Config, run: seq<M.Action>, fid: Id, limit: Option<nat>)
    requires cfg.locking && cfg.timely && M.Runs(cfg, M.INITIAL, run) && Repairable(cfg, run, fid, limit)
    ensures var s := M.After(cfg, M.INITIAL, run);
      var sources, content := s.Get(fid).kind.sources, Expected(s, s.Get(fid).kind.sources);
      var row := s.Get(fid).row.value.(length := Some(|content|), offset := |content|, completed := true);
      && DbOf(s).Pending(fid) && DbOf(s).rows[fid].sources == sources
      && fid !in sources && HasFiles(DbOf(s).files, sources)
      && (s.Get(fid).row.value.length.None? || s.Get(fid).row.value.length == Some(|content|))
      && SqliteStorage.Assemble(DbOf(s), fid, limit) ==
         SqliteStorage.Assembly(SqliteStorage.Db(DbOf(s).rows[fid := row], DbOf(s).files[fid := content]),
             Some(|content|))
  {
    RunsKeep(cfg, M.INITIAL, run);
    var s := M.After(cfg, M.INITIAL, run);
    var cell := s.Get(fid);
    assert CellOk(cell) && SourcesOk(s, cell) && FinalOk(s, cell);
    ReadySources(s, cell.kind.sources);
  }

  /** HEAD on the server that finds such a state: the final is completed with the
      concatenation, and the answer carries its length as offset and length. A disk that
      fails under the copy leaves the final pending and unclaimed; the answer still has the
      length of the row as it was before, which is the total if the final had been claimed. */
  method HeadRepairs(server: TusServer.Server, ghost cfg: M.Config, ghost run: seq<M.Action>, fid: Id, now: nat,
      disk: Option<nat>) returns (reply: TusServer.HeadReply)
    requires cfg.locking && cfg.timely && M.Runs(cfg, M.INITIAL, run)
    requires Repairable(cfg, run, fid, Handlers.SizeLimit(server.limits))
    requires server.storage.Snapshot() == DbOf(M.After(cfg, M.INITIAL, run))
    modifies server.storage
    ensures var s := M.After(cfg, M.INITIAL, run);
      var content, db := Expected(s, s.Get(fid).kind.sources), server.storage.Snapshot();
      var row := s.Get(fid).row.value;
      var expired := row.expires.Some? && row.expires.value < now;
      && fid in db.rows && fid in db.files
      && (db.rows[fid].completed <==> !SqliteStorage.CopyFails(DbOf(s).files, s.Get(fid).kind.sources, disk))
      && (disk.None? ==> db.rows[fid].completed)
      && (db.rows[fid].completed ==>
            && db.files[fid] == content
            && db.rows[fid].length == Some(|content|) && db.rows[fid].offset == |content|
            && reply == if expired then TusServer.Failed(410)
                        else TusServer.Info(Some(|content|), Some(|content|), false))
      && (!db.rows[fid].completed ==>
            && db.Pending(fid) && db.rows[fid].length.None?
            && (row.length.None? || row.length == Some(|content|))
            && reply == if expired then TusServer.Failed(410) else TusServer.Info(None, row.length, false))
  {
    AssemblyRepairs(cfg, run, fid, Handlers.SizeLimit(server.limits));
    reply := server.HandleHead(now, fid, disk);
  }

  /** A failed copy leaves the final pending, and the next HEAD does the same assembly as
      if nothing had happened. */
  lemma FailedCopyIsRetriable(before: SqliteStorage.Db, after: SqliteStorage.Db, fid: Id, limit: Option<nat>)
    requires before.Pending(fid) && before.AllReady(before.rows[fid].sources)
    requires before.Claimable(fid, before.Total(before.rows[fid].sources))
    requires HasFiles(before.files, before.rows[fid].sources) && fid !in before.rows[fid].sources
    requires SqliteStorage.RolledBack(before, after, fid)
    ensures after.Pending(fid)
    ensures SqliteStorage.Assemble(after, fid, limit) == SqliteStorage.Assemble(before, fid, limit)
  {
    var sources := before.rows[fid].sources;
    SameSources(before, after, sources, fid);
    var content := Joined(before.files, sources);
    assert after.rows - {fid} == before.rows - {fid};
    assert after.files[fid := content] == (after.files - {fid})[fid := content];
    assert before.files[fid := content] == (before.files - {fid})[fid := content];
  }

  lemma {:induction false} SameSources(before: SqliteStorage.Db, after: SqliteStorage.Db, ids: seq<Id>, fid: Id)
    requires before.AllReady(ids) && HasFiles(before.files, ids) && fid !in ids
    requires SqliteStorage.RolledBack(before, after, fid)
    ensures after.AllReady(ids) && after.Total(ids) == before.Total(ids)
    ensures HasFiles(after.files, ids) && Joined(after.files, ids) == Joined(before.files, ids)
  {
    if ids != [] {
      var last := ids[|ids| - 1];
      assert before.Ready(last) && last != fid && last in before.files - {fid};
      assert last in after.files - {fid};
      SameSources(before, after, ids[..|ids| - 1], fid);
    }
  }
}
