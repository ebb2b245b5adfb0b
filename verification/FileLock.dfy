/** What the in-process file lock alone guarantees: with or without a TTL lock, and however
    far requests outrun it, one holder at a time, and one assembly of a final. */
module FileLock {
  import opened ByteStrings
  import opened PatchRules
  import opened Machine

  /** A final is assembled once, and a row that has been assembled stays completed. */
  predicate CellOnce(cell: Cell) {
    && cell.returned <= 1
    && (cell.kind.Unborn? ==> cell.row.None? && cell.returned == 0)
    && (cell.row.Some? ==>
          && (cell.returned == 1 ==> cell.row.value.completed)
          && (cell.kind.Plain? ==> cell.row.value.sources == [])
          && (cell.kind.Final? ==> cell.row.value.sources == cell.kind.sources && cell.kind.sources != []))
  }

  /** Who works on the file holds its lock; who has claimed a final finds it unassembled. */
  predicate ProcOnce(p: Pid, cell: Cell, proc: Proc) {
    && (proc.OwnsFile() ==> cell.mutex == Some(p))
    && (proc.Patching? ==> cell.kind.Plain?)
    && (proc.Assembling? ==> cell.kind == Final(proc.sources))
    && (proc.Claims() ==>
          cell.returned == 0 && (cell.row.Some? ==> cell.row.value.completed == proc.stage.Published?))
  }

  predicate OutcomeOnce(p: Pid, home: Id, o: Outcome) {
    CellOnce(o.cell) && (o.next.Some? ==> o.next.value.Home() == home && ProcOnce(p, o.cell, o.next.value))
  }

  /** What a step does to a cell whose file lock another process holds. */
  predicate Respects(p: Pid, cell: Cell, after: Cell) {
    && after.kind == cell.kind
    && (cell.mutex.Some? && cell.mutex.value != p ==>
          && after.mutex == cell.mutex && after.returned == cell.returned
          && (cell.kind.Final? ==> after.row.None? || after.row == cell.row))
  }

  lemma PatchOnce(p: Pid, cell: Cell, proc: Proc, choice: Choice)
    requires CellOnce(cell) && proc.Patching? && ProcOnce(p, cell, proc)
    requires proc.at.Writing? && choice.Land? ==> choice.n <= |proc.req.body| - proc.landed
    requires proc.at.Committed? ==> cell.mutex.None?
    ensures OutcomeOnce(p, proc.Home(), StepPatch(p, cell, proc, choice))
    ensures Respects(p, cell, StepPatch(p, cell, proc, choice).cell)
  {
  }

  lemma AssemblyOnce(cfg: Config, view: View, p: Pid, cell: Cell, proc: Proc)
    requires CellOnce(cell) && proc.Assembling? && ProcOnce(p, cell, proc)
    requires proc.stage.Entering? ==> cell.mutex.None?
    ensures OutcomeOnce(p, proc.Home(), StepAssembly(cfg, view, p, cell, proc))
    ensures Respects(p, cell, StepAssembly(cfg, view, p, cell, proc).cell)
  {
  }

  lemma StepOnce(cfg: Config, view: View, p: Pid, cell: Cell, proc: Proc, choice: Choice)
    requires Can(cfg, view, cell, proc, choice) && CellOnce(cell) && ProcOnce(p, cell, proc)
    ensures OutcomeOnce(p, proc.Home(), Step(cfg, view, p, cell, proc, choice))
    ensures Respects(p, cell, Step(cfg, view, p, cell, proc, choice).cell)
  {
    if choice.Fail? {
    } else if proc.Patching? {
      PatchOnce(p, cell, proc, choice);
    } else if proc.Assembling? {
      AssemblyOnce(cfg, view, p, cell, proc);
    }
  }

  lemma OtherOnce(p: Pid, cell: Cell, after: Cell, q: Pid, other: Proc)
    requires Respects(p, cell, after) && ProcOnce(q, cell, other) && q != p
    ensures ProcOnce(q, after, other)
  {
  }

  ghost predicate Once(s: Sys) {
    && (forall id :: id in s.cells ==> CellOnce(s.cells[id]))
    && (forall p :: p in s.procs ==> ProcOnce(p, s.Get(s.procs[p].Home()), s.procs[p]))
  }

  lemma RunOnce(cfg: Config, s: Sys, p: Pid, choice: Choice)
    requires Once(s) && Enabled(cfg, s, Run(p, choice))
    ensures Once(Next(cfg, s, Run(p, choice)))
  {
    var proc, t := s.procs[p], Next(cfg, s, Run(p, choice));
    var cell := s.Get(proc.Home());
    StepOnce(cfg, ViewOf(s, proc), p, cell, proc, choice);
    forall q | q in t.procs && q != p
      ensures ProcOnce(q, t.Get(t.procs[q].Home()), t.procs[q])
    {
      if t.procs[q].Home() == proc.Home() {
        OtherOnce(p, cell, Step(cfg, ViewOf(s, proc), p, cell, proc, choice).cell, q, t.procs[q]);
      }
    }
  }

  /** Nobody works on an id that is not born yet. */
  lemma BirthOnce(s: Sys, id: Id, cell: Cell)
    requires Once(s) && s.Get(id).kind.Unborn? && CellOnce(cell) && cell.mutex == s.Get(id).mutex
    ensures Once(Put(s, id, cell))
  {
    var t := Put(s, id, cell);
    forall q | q in t.procs
      ensures ProcOnce(q, t.Get(t.procs[q].Home()), t.procs[q])
    {
      assert ProcOnce(q, s.Get(s.procs[q].Home()), s.procs[q]);
    }
  }

  lemma NextOnce(cfg: Config, s: Sys, a: Action)
    requires Once(s) && Enabled(cfg, s, a)
    ensures Once(Next(cfg, s, a))
  {
    match a
    case Create(id, length, body, partial, expires) =>
      BirthOnce(s, id, NewPlain(s.Get(id), length, body, partial, expires));
    case CreateFinal(id, sources, expires) => BirthOnce(s, id, NewFinal(s, s.Get(id), sources, expires));
    case Arrive(p, proc) =>
    case Run(p, choice) => RunOnce(cfg, s, p, choice);
    case Tick(_) =>
    case Crash(_) =>
  }

  lemma {:induction false} RunsOnce(cfg: Config, s: Sys, run: seq<Action>)
    requires Runs(cfg, s, run) && Once(s)
    ensures Once(After(cfg, s, run))
    decreases |run|
  {
    if run != [] {
      NextOnce(cfg, s, run[0]);
      RunsOnce(cfg, Next(cfg, s, run[0]), run[1..]);
    }
  }

  /** Over any run of one process, under any lock or none, at most one assembly of a final
      ever returns a total, so its completion fires at most once. */
  lemma AssembledAtMostOnce(cfg: Config, run: seq<Action>, fid: Id)
    requires Runs(cfg, INITIAL, run)
    ensures After(cfg, INITIAL, run).Get(fid).returned <= 1
  {
    RunsOnce(cfg, INITIAL, run);
  }

  /** After any run, no two processes hold the file lock of one upload. */
  lemma FileLocksExclude(cfg: Config, run: seq<Action>, p: Pid, q: Pid)
    requires Runs(cfg, INITIAL, run)
    requires var s := After(cfg, INITIAL, run);
      p in s.procs && q in s.procs && s.procs[p].Home() == s.procs[q].Home()
    ensures var s := After(cfg, INITIAL, run);
      s.procs[p].OwnsFile() && s.procs[q].OwnsFile() ==> p == q
  {
    RunsOnce(cfg, INITIAL, run);
    var s := After(cfg, INITIAL, run);
    assert ProcOnce(p, s.Get(s.procs[p].Home()), s.procs[p]);
    assert ProcOnce(q, s.Get(s.procs[q].Home()), s.procs[q]);
  }

  /** An assembly that has completed its final can do nothing but return the total. */
  lemma CompletionReturns(cfg: Config, s: Sys, p: Pid, choice: Choice)
    requires p in s.procs && s.procs[p].Assembling? && s.procs[p].stage.Published?
    ensures Enabled(cfg, s, Run(p, choice)) <==> choice.Proceed?
    ensures choice.Proceed? ==>
      var t, fid := Next(cfg, s, Run(p, choice)), s.procs[p].fid;
      p !in t.procs && t.Get(fid) == s.Get(fid).(mutex := None, returned := s.Get(fid).returned + 1)
  {
  }
}
