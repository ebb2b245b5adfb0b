/** What holds after every run of the server under the TTL lock. */
module Reachable {
  import opened ByteStrings
  import opened PatchRules
  import opened TtlLock
  import opened Machine
  import opened Serial
  import opened Safety
  import opened Finals

  /** The file of the upload is what was accepted, all of it committed. */
  ghost predicate Settled(cell: Cell) {
    cell.row.Some? && cell.row.value.offset == |Flatten(cell.chunks)| && cell.Bytes() == Flatten(cell.chunks)
  }

  lemma {:induction false} SettledContents(s: Sys, ids: seq<Id>)
    requires forall i :: 0 <= i < |ids| ==> s.Get(ids[i]).row.Some? && Settled(s.Get(ids[i]))
    ensures Flatten(Contents(s, ids)) == Expected(s, ids) && |Expected(s, ids)| == Sum(Lengths(s, ids))
  {
    if ids != [] {
      var front, last := ids[..|ids| - 1], ids[|ids| - 1];
      assert forall i :: 0 <= i < |front| ==> front[i] == ids[i];
      SettledContents(s, front);
      FlattenSnoc(Contents(s, front), s.Get(last).Bytes());
    }
  }

  /** A final over complete partials is born as their concatenation. */
  lemma ReadyContents(s: Sys, ids: seq<Id>)
    requires Ok(s)
    requires forall i :: 0 <= i < |ids| ==>
               s.Get(ids[i]).row.Some? && s.Get(ids[i]).row.value.partial && s.Get(ids[i]).Ready()
    ensures AllSealed(s, ids)
    ensures Flatten(Contents(s, ids)) == Expected(s, ids) && |Expected(s, ids)| == Sum(Lengths(s, ids))
  {
    forall i | 0 <= i < |ids|
      ensures Sealed(s, ids[i]) && Settled(s.Get(ids[i]))
    {
      assert CellOk(s.Get(ids[i]));
      ReadySeals(s, ids[i]);
    }
    SettledContents(s, ids);
  }

  /** An id that was not born is nobody's sealed source. */
  lemma CreateKeepsCells(s: Sys, id: Id, cell: Cell)
    requires Ok(s) && s.Get(id).kind.Unborn?
    ensures CellsKept(s, Put(s, id, cell))
  {
    var t := Put(s, id, cell);
    assert id in s.cells ==> CellOk(s.cells[id]);
    forall i
      ensures SealKept(s, t, i) && (s.Get(i).kind == Plain(true) ==> t.Get(i).kind == Plain(true))
    {
      assert i != id ==> t.Get(i) == s.Get(i);
    }
  }

  lemma CreateKeepsContent(s: Sys, id: Id, cell: Cell)
    requires ContentOk(s) && Ok(s) && s.Get(id).kind.Unborn? && !cell.kind.Unborn?
    requires SourcesOk(s, cell) && FinalOk(s, cell)
    ensures ContentOk(Put(s, id, cell))
  {
    var t := Put(s, id, cell);
    CreateKeepsCells(s, id, cell);
    forall i | i in t.cells
      ensures SourcesOk(t, t.cells[i]) && FinalOk(t, t.cells[i])
    {
      FinalKept(s, t, t.cells[i]);
    }
    forall p | p in t.procs
      ensures DrawOk(t, t.procs[p])
    {
      assert ProcOk(s.now, p, s.Get(s.procs[p].Home()), s.procs[p]);
      DrawKept(s, t, p, s.procs[p]);
    }
  }

  lemma CreateFinalKeepsContent(cfg: Config, s: Sys, id: Id, sources: seq<Id>, expires: Option<nat>)
    requires Ok(s) && ContentOk(s) && Enabled(cfg, s, CreateFinal(id, sources, expires))
    ensures ContentOk(Next(cfg, s, CreateFinal(id, sources, expires)))
  {
    if forall i :: 0 <= i < |sources| ==> s.Get(sources[i]).Ready() {
      ReadyContents(s, sources);
    }
    CreateKeepsContent(s, id, NewFinal(s, s.Get(id), sources, expires));
  }

  lemma CrashKeepsContent(cfg: Config, s: Sys, keepLocks: bool)
    requires ContentOk(s)
    ensures ContentOk(Next(cfg, s, Crash(keepLocks)))
  {
    var t := Next(cfg, s, Crash(keepLocks));
    forall id | id in t.cells
      ensures SourcesOk(t, t.cells[id]) && FinalOk(t, t.cells[id])
    {
      assert SourcesOk(s, s.cells[id]) && FinalOk(s, s.cells[id]);
      FinalKept(s, t, s.cells[id]);
    }
  }

  /** Arrivals and the clock leave every cell alone. */
  lemma SameCellsKeepContent(s: Sys, t: Sys)
    requires Ok(s) && ContentOk(s) && t.cells == s.cells
    requires forall p :: p in t.procs ==>
               || (p in s.procs && t.procs[p] == s.procs[p])
               || (!t.procs[p].Patching? &&
                   (t.procs[p].Assembling? ==> t.procs[p].stage.Reading? && t.procs[p].lens == []))
    ensures ContentOk(t)
  {
    forall id
      ensures SealKept(s, t, id)
    {
      forall p | p in t.procs && t.procs[p].Home() == id && t.procs[p].InFlight()
        ensures p in s.procs && t.procs[p] == s.procs[p]
      {
      }
    }
    forall id | id in t.cells
      ensures SourcesOk(t, t.cells[id]) && FinalOk(t, t.cells[id])
    {
      FinalKept(s, t, t.cells[id]);
    }
    forall p | p in t.procs
      ensures DrawOk(t, t.procs[p])
    {
      if p in s.procs && t.procs[p] == s.procs[p] {
        assert ProcOk(s.now, p, s.Get(s.procs[p].Home()), s.procs[p]);
        DrawKept(s, t, p, s.procs[p]);
      }
    }
  }

  lemma NextKeepsContent(cfg: Config, s: Sys, a: Action)
    requires cfg.locking && Ok(s) && ContentOk(s) && Enabled(cfg, s, a)
    ensures ContentOk(Next(cfg, s, a))
  {
    match a
    case Create(id, length, body, partial, expires) =>
      CreateKeepsContent(s, id, NewPlain(s.Get(id), length, body, partial, expires));
    case CreateFinal(id, sources, expires) => CreateFinalKeepsContent(cfg, s, id, sources, expires);
    case Arrive(p, proc) => SameCellsKeepContent(s, Next(cfg, s, a));
    case Run(p, choice) => RunKeepsContent(cfg, s, p, choice);
    case Tick(now) => SameCellsKeepContent(s, Next(cfg, s, a));
    case Crash(keepLocks) => CrashKeepsContent(cfg, s, keepLocks);
  }

  lemma {:induction false} RunsKeep(cfg: Config, s: Sys, run: seq<Action>)
    requires cfg.locking && cfg.timely && Runs(cfg, s, run) && Ok(s) && ContentOk(s)
    ensures Ok(After(cfg, s, run)) && ContentOk(After(cfg, s, run))
    decreases |run|
  {
    if run != [] {
      NextKeeps(cfg, s, run[0]);
      NextKeepsContent(cfg, s, run[0]);
      RunsKeep(cfg, Next(cfg, s, run[0]), run[1..]);
    }
  }

  /** After any run with crashes and torn writes anywhere, the committed bytes of a live
      upload are the accepted chunks in order, nothing lies past the declared length,
      and a completed upload is exactly its accepted chunks with no leftover. */
  lemma CommittedBytesAreAcceptedChunks(cfg: Config, run: seq<Action>, id: Id)
    requires cfg.locking && cfg.timely && Runs(cfg, INITIAL, run)
    ensures var cell := After(cfg, INITIAL, run).Get(id);
      cell.kind.Plain? && cell.row.Some? ==>
        var row := cell.row.value;
        && cell.file.Some?
        && row.offset <= |cell.file.value|
        && cell.file.value[..row.offset] == Flatten(cell.chunks)
        && (row.length.Some? ==> |cell.file.value| <= row.length.value)
        && (row.completed ==> row.length == Some(row.offset) && cell.file.value == Flatten(cell.chunks))
  {
    RunsKeep(cfg, INITIAL, run);
    var cell := After(cfg, INITIAL, run).Get(id);
    assert CellOk(cell);
    if cell.kind.Plain? && cell.row.Some? && cell.row.value.completed {
      assert cell.file.value[..cell.row.value.offset] == cell.file.value;
    }
  }

  /** After any run, a completed final holds its partials' accepted bytes in order exactly
      if its offset is its length; and it does if no erasure of one of them overtook an
      in-flight PATCH. */
  lemma CompletedFinalIsConcatenation(cfg: Config, run: seq<Action>, fid: Id)
    requires cfg.locking && cfg.timely && Runs(cfg, INITIAL, run)
    ensures var s := After(cfg, INITIAL, run); var cell := s.Get(fid);
      cell.kind.Final? && cell.row.Some? && cell.row.value.completed ==>
        && cell.row.value.length == Some(|Expected(s, cell.kind.sources)|)
        && (cell.file == Some(Expected(s, cell.kind.sources)) <==> cell.row.value.length == Some(cell.row.value.offset))
        && (Clean(s, cell.kind.sources) ==> cell.file == Some(Expected(s, cell.kind.sources)))
  {
    RunsKeep(cfg, INITIAL, run);
    var cell := After(cfg, INITIAL, run).Get(fid);
    assert CellOk(cell);
  }

  /** After any run, no two requests hold the TTL lock of one upload, no two processes its
      file lock, and whoever holds the TTL lock is within its time. */
  lemma LocksExclude(cfg: Config, run: seq<Action>, p: Pid, q: Pid)
    requires cfg.locking && cfg.timely && Runs(cfg, INITIAL, run)
    requires var s := After(cfg, INITIAL, run);
      p in s.procs && q in s.procs && s.procs[p].Home() == s.procs[q].Home()
    ensures var s := After(cfg, INITIAL, run);
      && (s.procs[p].Locks() && s.procs[q].Locks() ==> p == q)
      && (s.procs[p].OwnsFile() && s.procs[q].OwnsFile() ==> p == q)
      && (s.procs[p].Locks() ==> !Free(s.Get(s.procs[p].Home()).lock, s.now))
  {
    RunsKeep(cfg, INITIAL, run);
    var s := After(cfg, INITIAL, run);
    assert ProcOk(s.now, p, s.Get(s.procs[p].Home()), s.procs[p]);
    assert ProcOk(s.now, q, s.Get(s.procs[q].Home()), s.procs[q]);
  }

  /** One step of an assembly past its reads, on a final whose length, if it has one, is the
      total that was read. */
  lemma StepEndsWhole(cfg: Config, view: View, p: Pid, cell: Cell, proc: Proc)
    requires proc.Assembling? && AssemblyOk(cell, proc) && |proc.lens| == |proc.sources|
    requires cell.row.Some? && cell.row.value.length.Some? && !cell.row.value.completed ==>
               cell.row.value.length == Some(Sum(proc.lens))
    ensures var o := StepAssembly(cfg, view, p, cell, proc);
      if o.next.None? then o.cell.row.None? || o.cell.row.value.completed
      else if o.next.value.Assembling? then
        && o.next.value.fid == proc.fid && o.next.value.sources == proc.sources && o.next.value.lens == proc.lens
      else cfg.limits.maxSize > 0 && Sum(proc.lens) > cfg.limits.maxSize
  {
  }

  /** An assembly that has read all its lengths goes on, unless the final is too large, until
      the final is completed or gone: whoever claims it first, and whoever waits for its file
      lock, there is nothing left for a HEAD to repair when such an assembly ends. */
  lemma AssemblyEndsWhole(cfg: Config, run: seq<Action>, p: Pid)
    requires cfg.locking && cfg.timely && Runs(cfg, INITIAL, run)
    requires var s := After(cfg, INITIAL, run);
      && p in s.procs && s.procs[p].Assembling? && |s.procs[p].lens| == |s.procs[p].sources|
      && Enabled(cfg, s, Run(p, Proceed))
    ensures var s := After(cfg, INITIAL, run);
      var fid, t := s.procs[p].fid, Next(cfg, s, Run(p, Proceed));
      if p !in t.procs then t.Get(fid).row.None? || t.Get(fid).row.value.completed
      else if t.procs[p].Assembling? then
        t.procs[p].fid == fid && t.procs[p].sources == s.procs[p].sources && t.procs[p].lens == s.procs[p].lens
      else cfg.limits.maxSize > 0 && |Expected(s, s.procs[p].sources)| > cfg.limits.maxSize
  {
    RunsKeep(cfg, INITIAL, run);
    var s := After(cfg, INITIAL, run);
    var proc, cell := s.procs[p], s.Get(s.procs[p].fid);
    assert ProcOk(s.now, p, cell, proc) && CellOk(cell) && FinalOk(s, cell) && DrawOk(s, proc);
    ExpectedLength(s, proc.sources, proc.lens);
    StepEndsWhole(cfg, ViewOf(s, proc), p, cell, proc);
    SelfNext(cfg, s, p, Proceed);
  }
}
