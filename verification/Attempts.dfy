/** Whole attempts to assemble a final on the state machine: left alone, each comes to what
    the storage's method does. */
module Attempts {
  import opened ByteStrings
  import opened PatchRules
  import opened Machine
  import opened Alone
  import opened Repair
  import opened SqliteStorage
  import opened Handlers
  import opened Requests

  /** The row offsets of the listed uploads. */
  function OffsetsOf(s: Sys, ids: seq<Id>): (lens: seq<nat>)
    requires forall i :: 0 <= i < |ids| ==> s.Get(ids[i]).Ready()
    ensures |lens| == |ids|
  {
    if ids == [] then []
    else
      assert s.Get(ids[|ids| - 1]).Ready();
      OffsetsOf(s, ids[..|ids| - 1]) + [s.Get(ids[|ids| - 1]).row.value.offset]
  }

  lemma {:induction false} OffsetsAreTotal(s: Sys, ids: seq<Id>)
    requires forall i :: 0 <= i < |ids| ==> s.Get(ids[i]).Ready()
    ensures DbOf(s).AllReady(ids) && Sum(OffsetsOf(s, ids)) == DbOf(s).Total(ids)
  {
    forall i | 0 <= i < |ids|
      ensures DbOf(s).Ready(ids[i])
    {
      assert s.Get(ids[i]).Ready();
    }
    if ids != [] {
      OffsetsAreTotal(s, ids[..|ids| - 1]);
    }
  }

  /** The first `k` partials are read one by one, as long as they are complete. */
  lemma {:induction false} ReadsUpTo(cfg: Config, s: Sys, p: Pid, fid: Id, sources: seq<Id>, k: nat) returns (t: Sys)
    requires p in s.procs && s.procs[p] == Assembling(fid, sources, [], Reading, 0, [])
    requires k <= |sources| && forall i :: 0 <= i < k ==> s.Get(sources[i]).Ready()
    ensures Gets(cfg, s, p, t) && Only(s, t, fid) && t.Get(fid) == s.Get(fid)
    ensures t.procs == s.procs[p := Assembling(fid, sources, OffsetsOf(s, sources[..k]), Reading, 0, [])]
  {
    if k == 0 {
      t := s;
      GetsThere(cfg, s, p);
      assert s.procs[p := s.procs[p]] == s.procs;
    } else {
      var before := ReadsUpTo(cfg, s, p, fid, sources, k - 1);
      assert before.Get(sources[k - 1]) == s.Get(sources[k - 1]);
      t := ReadsOne(cfg, before, p, fid, sources, OffsetsOf(s, sources[..k - 1]));
      assert sources[..k][..k - 1] == sources[..k - 1];
      GetsThen(cfg, s, p, before, t);
    }
  }

  lemma ReadsOne(cfg: Config, s: Sys, p: Pid, fid: Id, sources: seq<Id>, lens: seq<nat>) returns (t: Sys)
    requires p in s.procs && s.procs[p] == Assembling(fid, sources, lens, Reading, 0, [])
    requires |lens| < |sources| && s.Get(sources[|lens|]).Ready()
    ensures Gets(cfg, s, p, t) && Only(s, t, fid) && t.Get(fid) == s.Get(fid)
    ensures var longer := lens + [s.Get(sources[|lens|]).row.value.offset];
      t.procs == s.procs[p := Assembling(fid, sources, longer, Reading, 0, [])]
  {
    OneMove(cfg, s, p, Proceed);
    t := Next(cfg, s, Run(p, Proceed));
    GetsThere(cfg, t, p);
    StepGets(cfg, s, p, Proceed, t);
  }

  /** A partial that is not complete ends the attempt. */
  lemma WaitsAlone(cfg: Config, s: Sys, p: Pid, fid: Id, sources: seq<Id>) returns (t: Sys)
    requires p in s.procs && s.procs[p] == Assembling(fid, sources, [], Reading, 0, [])
    requires !DbOf(s).AllReady(sources)
    ensures Gets(cfg, s, p, t) && Only(s, t, fid) && t.Get(fid) == s.Get(fid) && t.procs == s.procs - {p}
  {
    var k := FirstOpen(s, sources);
    var read := ReadsUpTo(cfg, s, p, fid, sources, k);
    assert read.Get(sources[k]) == s.Get(sources[k]);
    OneMove(cfg, read, p, Proceed);
    t := Next(cfg, read, Run(p, Proceed));
    GetsThere(cfg, t, p);
    StepGets(cfg, read, p, Proceed, t);
    GetsThen(cfg, s, p, read, t);
  }

  lemma FirstOpen(s: Sys, ids: seq<Id>) returns (k: nat)
    requires !DbOf(s).AllReady(ids)
    ensures k < |ids| && !s.Get(ids[k]).Ready() && forall i :: 0 <= i < k ==> s.Get(ids[i]).Ready()
  {
    k := 0;
    while k < |ids| && s.Get(ids[k]).Ready()
      invariant k <= |ids| && forall i :: 0 <= i < k ==> s.Get(ids[i]).Ready()
    {
      k := k + 1;
    }
    if k == |ids| {
      assert forall i :: 0 <= i < |ids| ==> s.Get(ids[i]).Ready();
      OffsetsAreTotal(s, ids);
    }
  }

  /** All partials complete, but more bytes than the limit allows: the final is removed. */
  lemma TooBigAlone(cfg: Config, s: Sys, p: Pid, fid: Id, sources: seq<Id>) returns (t: Sys)
    requires p in s.procs && s.procs[p] == Assembling(fid, sources, [], Reading, 0, []) && s.Get(fid).mutex.None?
    requires DbOf(s).AllReady(sources) && TooBig(SizeLimit(cfg.limits), DbOf(s).Total(sources))
    ensures Gets(cfg, s, p, t) && Only(s, t, fid) && t.procs == s.procs - {p}
    ensures DbOf(t) == Db(DbOf(s).rows - {fid}, DbOf(s).files - {fid})
  {
    var read := ReadsAll(cfg, s, p, fid, sources);
    t := TooBigGoes(cfg, read, p, fid);
    GetsThen(cfg, s, p, read, t);
    DbKept(s, read, fid);
  }

  lemma TooBigGoes(cfg: Config, s: Sys, p: Pid, fid: Id) returns (t: Sys)
    requires p in s.procs && s.procs[p].Assembling? && s.procs[p].fid == fid && s.procs[p].stage.Reading?
    requires s.Get(fid).mutex.None? && |s.procs[p].lens| == |s.procs[p].sources|
    requires TooBig(SizeLimit(cfg.limits), Sum(s.procs[p].lens))
    ensures Gets(cfg, s, p, t) && Only(s, t, fid) && t.procs == s.procs - {p}
    ensures DbOf(t) == Db(DbOf(s).rows - {fid}, DbOf(s).files - {fid})
  {
    OneMove(cfg, s, p, Proceed);
    var erasing := Next(cfg, s, Run(p, Proceed));
    DbKept(s, erasing, fid);
    t := CleanupAlone(cfg, erasing, p, fid);
    StepGets(cfg, s, p, Proceed, t);
  }

  lemma ReadsAll(cfg: Config, s: Sys, p: Pid, fid: Id, sources: seq<Id>) returns (t: Sys)
    requires p in s.procs && s.procs[p] == Assembling(fid, sources, [], Reading, 0, [])
    requires DbOf(s).AllReady(sources)
    ensures Gets(cfg, s, p, t) && Only(s, t, fid) && t.Get(fid) == s.Get(fid)
    ensures p in t.procs && t.procs == s.procs[p := t.procs[p]]
    ensures t.procs[p].Assembling? && |t.procs[p].lens| == |sources| && Sum(t.procs[p].lens) == DbOf(s).Total(sources)
    ensures t.procs[p] == Assembling(fid, sources, t.procs[p].lens, Reading, 0, [])
  {
    forall i | 0 <= i < |sources|
      ensures s.Get(sources[i]).Ready()
    {
      assert DbOf(s).Ready(sources[i]);
    }
    assert sources[..|sources|] == sources;
    OffsetsAreTotal(s, sources);
    t := ReadsUpTo(cfg, s, p, fid, sources, |sources|);
  }

  /** A claim that is refused: the file lock is taken and given back. */
  lemma RefusedAlone(cfg: Config, s: Sys, p: Pid, fid: Id) returns (t: Sys)
    requires p in s.procs && s.procs[p].Assembling? && s.procs[p].fid == fid && s.procs[p].stage.Entering?
    requires s.Get(fid).mutex.None? && s.Get(fid).row.Some?
    requires s.Get(fid).row.value.length.Some? && s.Get(fid).row.value.length.value != Sum(s.procs[p].lens)
    ensures Gets(cfg, s, p, t) && Only(s, t, fid) && t.procs == s.procs - {p} && t.Get(fid) == s.Get(fid)
  {
    OneMove(cfg, s, p, Proceed);
    var claiming := Next(cfg, s, Run(p, Proceed));
    OneMove(cfg, claiming, p, Proceed);
    t := Next(cfg, claiming, Run(p, Proceed));
    GetsThere(cfg, t, p);
    StepGets(cfg, claiming, p, Proceed, t);
    StepGets(cfg, s, p, Proceed, t);
  }

  /** Somebody else's claim, with another total, stands: nothing changes. */
  lemma ClaimedAlone(cfg: Config, s: Sys, p: Pid, fid: Id, sources: seq<Id>) returns (t: Sys)
    requires p in s.procs && s.procs[p] == Assembling(fid, sources, [], Reading, 0, []) && s.Get(fid).mutex.None?
    requires DbOf(s).AllReady(sources) && !TooBig(SizeLimit(cfg.limits), DbOf(s).Total(sources))
    requires s.Get(fid).row.Some? && s.Get(fid).row.value.length.Some?
    requires s.Get(fid).row.value.length.value != DbOf(s).Total(sources)
    ensures Gets(cfg, s, p, t) && Only(s, t, fid) && t.procs == s.procs - {p} && t.Get(fid) == s.Get(fid)
  {
    var read := ReadsAll(cfg, s, p, fid, sources);
    OneMove(cfg, read, p, Proceed);
    t := RefusedAlone(cfg, Next(cfg, read, Run(p, Proceed)), p, fid);
    StepGets(cfg, read, p, Proceed, t);
    GetsThen(cfg, s, p, read, t);
  }

  /** What the assembly of a final sees while nothing but the final changes. */
  lemma SeesTheSame(s: Sys, t: Sys, fid: Id, sources: seq<Id>, proc: Proc)
    requires Only(s, t, fid) && fid !in sources && proc.Assembling? && proc.sources == sources
    ensures NextSource(t, proc) == Sees(s.now, PartialsOf(s, sources), proc).source
  {
    assert proc.stage.Reading? && |proc.lens| < |sources| ==> sources[|proc.lens|] in sources;
    assert !proc.stage.Reading? && proc.started < |sources| ==> sources[proc.started] in sources;
  }

  /** The steps of an assembly on its final are steps of the server. */
  lemma {:induction false} EndsGets(cfg: Config, first: Sys, s: Sys, p: Pid, fid: Id, sources: seq<Id>, end: Cell,
      n: nat) returns (t: Sys)
    requires Only(first, s, fid) && fid !in sources
    requires p in s.procs && s.procs[p].Assembling? && s.procs[p].fid == fid && s.procs[p].sources == sources
    requires EndsIn(cfg, s.now, p, PartialsOf(first, sources), s.Get(fid), s.procs[p], end, n)
    ensures Gets(cfg, s, p, t) && Only(first, t, fid) && t.procs == s.procs - {p} && t.Get(fid) == end
    decreases n
  {
    var proc := s.procs[p];
    SeesTheSame(first, s, fid, sources, proc);
    AssemblyViews(cfg, Sees(s.now, PartialsOf(first, sources), proc), ViewOf(s, proc), p, s.Get(fid), proc);
    OneMove(cfg, s, p, Proceed);
    t := Next(cfg, s, Run(p, Proceed));
    if p in t.procs {
      t := EndsGets(cfg, first, t, p, fid, sources, end, n - 1);
    } else {
      GetsThere(cfg, t, p);
    }
    StepGets(cfg, s, p, Proceed, t);
  }

  lemma AssemblyViews(cfg: Config, a: View, b: View, p: Pid, cell: Cell, proc: Proc)
    requires a.source == b.source && proc.Assembling? && Can(cfg, a, cell, proc, Proceed)
    ensures Can(cfg, b, cell, proc, Proceed)
    ensures Step(cfg, b, p, cell, proc, Proceed) == Step(cfg, a, p, cell, proc, Proceed)
    ensures var o := Step(cfg, a, p, cell, proc, Proceed);
      o.next.Some? && o.next.value.Assembling? ==>
        o.next.value.fid == proc.fid && o.next.value.sources == proc.sources
  {
  }

  /** An attempt to assemble that nobody interrupts does to the database and the directory
      what the storage's method does. */
  lemma AttemptAlone(cfg: Config, s: Sys, p: Pid, fid: Id) returns (t: Sys)
    requires s.Get(fid).row.Some? && s.Get(fid).file.Some? && s.Get(fid).mutex.None?
    requires var db := DbOf(s);
      && db.Pending(fid) && HasFiles(db.files, db.rows[fid].sources) && fid !in db.rows[fid].sources
      && p in s.procs && s.procs[p] == Assembling(fid, db.rows[fid].sources, [], Reading, 0, [])
    ensures Gets(cfg, s, p, t) && Only(s, t, fid) && t.procs == s.procs - {p}
    ensures DbOf(t) == Assemble(DbOf(s), fid, SizeLimit(cfg.limits)).db
  {
    var db := DbOf(s);
    var sources := db.rows[fid].sources;
    if !db.AllReady(sources) {
      t := WaitsAlone(cfg, s, p, fid, sources);
      DbKept(s, t, fid);
    } else if TooBig(SizeLimit(cfg.limits), db.Total(sources)) {
      t := TooBigAlone(cfg, s, p, fid, sources);
    } else if !db.Claimable(fid, db.Total(sources)) {
      t := ClaimedAlone(cfg, s, p, fid, sources);
      DbKept(s, t, fid);
    } else {
      t := WholeAlone(cfg, s, p, fid, sources);
    }
  }

  lemma WholeAlone(cfg: Config, s: Sys, p: Pid, fid: Id, sources: seq<Id>) returns (t: Sys)
    requires s.Get(fid).row.Some? && s.Get(fid).mutex.None?
    requires p in s.procs && s.procs[p] == Assembling(fid, sources, [], Reading, 0, []) && fid !in sources
    requires var db := DbOf(s);
      && db.Pending(fid) && sources == db.rows[fid].sources && db.AllReady(sources) && HasFiles(db.files, sources)
      && db.Claimable(fid, db.Total(sources)) && !TooBig(SizeLimit(cfg.limits), db.Total(sources))
    ensures Gets(cfg, s, p, t) && Only(s, t, fid) && t.procs == s.procs - {p}
    ensures DbOf(t) == Assemble(DbOf(s), fid, SizeLimit(cfg.limits)).db
  {
    AssemblyAlone(cfg, s, p, fid);
    var done := Assemble(DbOf(s), fid, SizeLimit(cfg.limits)).db;
    var cell := s.Get(fid);
    var end := cell.(row := Some(done.rows[fid]), file := Some(done.files[fid]), returned := cell.returned + 1);
    var n: nat :| EndsIn(cfg, s.now, p, PartialsOf(s, sources), cell, s.procs[p], end, n);
    t := EndsGets(cfg, s, s, p, fid, sources, end, n);
    RowsOfOnly(s, t, fid);
    FilesOfOnly(s, t, fid);
  }
}
