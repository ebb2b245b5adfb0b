/** Locks come back and nobody waits for nothing: under any lock or none, and however far
    requests outrun it. */
module Progress {
  import opened ByteStrings
  import opened PatchRules
  import opened TtlLock
  import opened Machine

  /** A process whose counters are within their bounds. */
  predicate Sane(proc: Proc) {
    && (proc.Patching? && proc.at.Writing? ==> proc.landed <= |proc.req.body|)
    && (proc.Assembling? ==> |proc.lens| <= |proc.sources|)
  }

  /** Who has a lock is there, works on this upload, and has not given it back. */
  ghost predicate Owned(s: Sys, id: Id) {
    var cell := s.Get(id);
    && (cell.lock.Some? ==>
          var p := cell.lock.value.token;
          p in s.procs && s.procs[p].Home() == id && s.procs[p].Locks())
    && (cell.mutex.Some? ==>
          var p := cell.mutex.value;
          p in s.procs && s.procs[p].Home() == id && s.procs[p].OwnsFile())
  }

  ghost predicate Orderly(s: Sys) {
    && (forall p :: p in s.procs ==> Sane(s.procs[p]))
    && (forall id :: Owned(s, id))
  }

  /** Nothing but its own locks is taken and given back, and nothing is kept past the end. */
  predicate Returns(p: Pid, cell: Cell, home: Id, o: Outcome) {
    && (o.next.Some? ==> o.next.value.Home() == home && Sane(o.next.value))
    && (o.cell.lock.Some? ==>
          if o.cell.lock.value.token == p then o.next.Some? && o.next.value.Locks() else o.cell.lock == cell.lock)
    && (o.cell.mutex.Some? ==>
          if o.cell.mutex.value == p then o.next.Some? && o.next.value.OwnsFile() else o.cell.mutex == cell.mutex)
  }

  /** The locks of this process are the ones it works under. */
  predicate Keeps(p: Pid, cell: Cell, proc: Proc) {
    && (cell.lock.Some? && cell.lock.value.token == p ==> proc.Locks())
    && (cell.mutex == Some(p) ==> proc.OwnsFile())
  }

  lemma PatchReturns(p: Pid, cell: Cell, proc: Proc, choice: Choice)
    requires proc.Patching? && Sane(proc) && Keeps(p, cell, proc)
    requires proc.at.Writing? && choice.Land? ==> choice.n <= |proc.req.body| - proc.landed
    ensures Returns(p, cell, proc.Home(), StepPatch(p, cell, proc, choice))
  {
  }

  lemma AssemblyReturns(cfg: Config, view: View, p: Pid, cell: Cell, proc: Proc)
    requires proc.Assembling? && Sane(proc) && Keeps(p, cell, proc)
    ensures Returns(p, cell, proc.Home(), StepAssembly(cfg, view, p, cell, proc))
  {
  }

  lemma StepReturns(cfg: Config, view: View, p: Pid, cell: Cell, proc: Proc, choice: Choice)
    requires Can(cfg, view, cell, proc, choice) && Sane(proc) && Keeps(p, cell, proc)
    ensures Returns(p, cell, proc.Home(), Step(cfg, view, p, cell, proc, choice))
  {
    if choice.Fail? {
    } else if proc.Patching? {
      PatchReturns(p, cell, proc, choice);
    } else if proc.Assembling? {
      AssemblyReturns(cfg, view, p, cell, proc);
    }
  }

  lemma RunReturns(cfg: Config, s: Sys, p: Pid, choice: Choice)
    requires Orderly(s) && Enabled(cfg, s, Run(p, choice))
    ensures Orderly(Next(cfg, s, Run(p, choice)))
  {
    var t, home := Next(cfg, s, Run(p, choice)), s.procs[p].Home();
    assert Owned(s, home);
    StepReturns(cfg, ViewOf(s, s.procs[p]), p, s.Get(home), s.procs[p], choice);
    forall id
      ensures Owned(t, id)
    {
      assert Owned(s, id);
      assert id != home ==> t.Get(id) == s.Get(id);
    }
  }

  predicate DropsLocks(a: Action) {
    a.Crash? ==> !a.keepLocks
  }

  lemma NextReturns(cfg: Config, s: Sys, a: Action)
    requires Orderly(s) && Enabled(cfg, s, a) && DropsLocks(a)
    ensures Orderly(Next(cfg, s, a))
  {
    var t := Next(cfg, s, a);
    if a.Run? {
      RunReturns(cfg, s, a.p, a.choice);
    } else {
      forall id
        ensures Owned(t, id)
      {
        assert Owned(s, id);
      }
    }
  }

  lemma {:induction false} RunsReturn(cfg: Config, s: Sys, run: seq<Action>)
    requires Runs(cfg, s, run) && Orderly(s) && forall i :: 0 <= i < |run| ==> DropsLocks(run[i])
    ensures Orderly(After(cfg, s, run))
    decreases |run|
  {
    if run != [] {
      NextReturns(cfg, s, run[0]);
      RunsReturn(cfg, Next(cfg, s, run[0]), run[1..]);
    }
  }

  /** After any run, an upload is locked only by a request or an assembly that is still at
      work on it. An entry without a live holder is left by a crash, and by nothing else. */
  lemma LocksComeBack(cfg: Config, run: seq<Action>, id: Id)
    requires Runs(cfg, INITIAL, run) && forall i :: 0 <= i < |run| ==> DropsLocks(run[i])
    ensures var s := After(cfg, INITIAL, run); var cell := s.Get(id);
      && (cell.lock.Some? ==>
            var p := cell.lock.value.token; p in s.procs && s.procs[p].Home() == id && s.procs[p].Locks())
      && (cell.mutex.Some? ==>
            var p := cell.mutex.value; p in s.procs && s.procs[p].Home() == id && s.procs[p].OwnsFile())
      && ((forall p :: p in s.procs ==> s.procs[p].Home() != id) ==> cell.lock.None? && cell.mutex.None?)
  {
    RunsReturn(cfg, INITIAL, run);
    assert Owned(After(cfg, INITIAL, run), id);
  }

  /** Some next step is enabled that is no failure. */
  ghost predicate Moves(cfg: Config, s: Sys, p: Pid) {
    exists choice: Choice :: !choice.Fail? && Enabled(cfg, s, Run(p, choice))
  }

  /** An assembly whose next partial has lost its file: only a failure takes it on. */
  predicate FileGone(s: Sys, p: Pid)
    requires p in s.procs
  {
    var proc := s.procs[p];
    && proc.Assembling? && proc.stage.Copying? && proc.left == [] && proc.started < |proc.sources|
    && s.Get(proc.sources[proc.started]).file.None?
  }

  /** Everyone moves but those that wait for a lock. */
  lemma MovesOrWaits(cfg: Config, s: Sys, p: Pid)
    requires p in s.procs && Sane(s.procs[p]) && (cfg.locking ==> cfg.ttl > 0)
    ensures var proc, cell := s.procs[p], s.Get(s.procs[p].Home());
      || Moves(cfg, s, p)
      || (FileGone(s, p) && Enabled(cfg, s, Run(p, Fail)))
      || (proc.Waiting? && cell.lock.Some? && s.now < cell.lock.value.expires)
      || (!proc.Waiting? && !proc.OwnsFile() && cell.mutex.Some?)
  {
    var proc := s.procs[p];
    if proc.Patching? && proc.at.Writing? && proc.landed < |proc.req.body| {
      assert Enabled(cfg, s, Run(p, Land(1)));
    } else if Enabled(cfg, s, Run(p, Proceed)) {
      assert !Proceed.Fail?;
    }
  }

  /** Whoever cannot move waits for a lock of somebody who is at work on the same upload, and
      at the end of that chain somebody moves: no deadlock. */
  lemma NobodyWaitsForNothing(cfg: Config, run: seq<Action>, p: Pid) returns (q: Pid)
    requires Runs(cfg, INITIAL, run) && forall i :: 0 <= i < |run| ==> DropsLocks(run[i])
    requires p in After(cfg, INITIAL, run).procs && (cfg.locking ==> cfg.ttl > 0)
    ensures var s := After(cfg, INITIAL, run);
      && q in s.procs && s.procs[q].Home() == s.procs[p].Home()
      && (Moves(cfg, s, q) || (FileGone(s, q) && Enabled(cfg, s, Run(q, Fail))))
      && (q != p ==> !Moves(cfg, s, p) && (s.procs[q].Locks() || s.procs[q].OwnsFile()))
  {
    RunsReturn(cfg, INITIAL, run);
    var s := After(cfg, INITIAL, run);
    var id := s.procs[p].Home();
    assert Owned(s, id);
    MovesOrWaits(cfg, s, p);
    if Moves(cfg, s, p) || (FileGone(s, p) && Enabled(cfg, s, Run(p, Fail))) {
      return p;
    }
    q := if s.procs[p].Waiting? then s.Get(id).lock.value.token else p;
    MovesOrWaits(cfg, s, q);
    if !Moves(cfg, s, q) {
      q := s.Get(id).mutex.value;
      MovesOrWaits(cfg, s, q);
    }
  }

  // ---- Every step comes closer to the end ----

  function Rank(proc: Proc): nat {
    match proc
    case Waiting(_) => 12
    case Holding(_) => 11
    case Patching(_, _, at, _) =>
      (match at case Planned => 10 case Committed => 9 case Writing => 8 case Written => 7 case Swapped => 6
       case Finishing => 5)
    case Assembling(_, _, _, stage, _, _) =>
      (match stage case Reading => 11 case Entering => 10 case Claiming => 9 case Claimed => 8 case Copying => 7
       case Sized => 6 case Published => 5)
    case Erasing(_, _, rowGone) => if rowGone then 3 else 4
    case Leaving(_) => 2
  }

  /** Partials still to read or to copy. */
  function Partials(proc: Proc): int {
    if !proc.Assembling? then 0
    else if proc.stage.Reading? then |proc.sources| - |proc.lens| else |proc.sources| - proc.started
  }

  /** Bytes still to write. */
  function Todo(proc: Proc): int {
    if proc.Patching? then |proc.req.body| - proc.landed else if proc.Assembling? then |proc.left| else 0
  }

  /** Nearer to the end: lexicographically, and bounded below. */
  predicate Closer(next: Proc, proc: Proc) {
    || Rank(next) < Rank(proc)
    || (Rank(next) == Rank(proc) && 0 <= Partials(next) < Partials(proc))
    || (Rank(next) == Rank(proc) && Partials(next) == Partials(proc) && 0 <= Todo(next) < Todo(proc))
  }

  /** Whatever happens in between, a process ends after finitely many steps of its own. */
  lemma StepsEnd(cfg: Config, view: View, p: Pid, cell: Cell, proc: Proc, choice: Choice)
    requires Can(cfg, view, cell, proc, choice) && Sane(proc)
    ensures var o := Step(cfg, view, p, cell, proc, choice); o.next.Some? ==> Closer(o.next.value, proc)
  {
  }
}
