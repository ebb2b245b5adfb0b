/** The serial invariant over whole runs of the server. */
module Safety {
  import opened ByteStrings
  import opened PatchRules
  import opened Machine
  import opened Serial

  ghost predicate Ok(s: Sys) {
    && (forall id :: id in s.cells ==> CellOk(s.cells[id]))
    && (forall p :: p in s.procs ==> ProcOk(s.now, p, s.Get(s.procs[p].Home()), s.procs[p]))
  }

  /** A step of `p` leaves every other process in order. */
  lemma OtherStaysOk(cfg: Config, s: Sys, p: Pid, choice: Choice, q: Pid)
    requires cfg.locking && Ok(s) && Enabled(cfg, s, Run(p, choice)) && q in s.procs && q != p
    ensures var t := Next(cfg, s, Run(p, choice)); ProcOk(t.now, q, t.Get(s.procs[q].Home()), s.procs[q])
  {
    var proc, other := s.procs[p], s.procs[q];
    var home, view := proc.Home(), ViewOf(s, proc);
    if other.Home() == home {
      StepGuarantees(cfg, view, p, s.Get(home), proc, choice);
      assert other.InFlight() ==> view.crowded;
      OthersKeep(s.now, p, s.Get(home), Step(cfg, view, p, s.Get(home), proc, choice).cell, q, other);
    }
  }

  lemma RunKeeps(cfg: Config, s: Sys, p: Pid, choice: Choice)
    requires cfg.locking && Ok(s) && Enabled(cfg, s, Run(p, choice))
    ensures Ok(Next(cfg, s, Run(p, choice)))
  {
    var proc := s.procs[p];
    var t := Next(cfg, s, Run(p, choice));
    StepKeeps(cfg, ViewOf(s, proc), p, s.Get(proc.Home()), proc, choice);
    forall q | q in t.procs && q != p
      ensures ProcOk(t.now, q, t.Get(t.procs[q].Home()), t.procs[q])
    {
      OtherStaysOk(cfg, s, p, choice, q);
    }
  }

  lemma CreateKeeps(cfg: Config, s: Sys, id: Id, cell: Cell)
    requires Ok(s) && s.Get(id).kind.Unborn? && CellOk(cell)
    requires cell.lock == s.Get(id).lock && cell.mutex == s.Get(id).mutex
    ensures Ok(Put(s, id, cell))
  {
    var t := Put(s, id, cell);
    forall q | q in t.procs
      ensures ProcOk(t.now, q, t.Get(t.procs[q].Home()), t.procs[q])
    {
      assert ProcOk(s.now, q, s.Get(s.procs[q].Home()), s.procs[q]);
    }
  }

  lemma TickKeeps(cfg: Config, s: Sys, now: nat)
    requires cfg.locking && cfg.timely && Ok(s) && Enabled(cfg, s, Tick(now))
    ensures Ok(Next(cfg, s, Tick(now)))
  {
    forall p | p in s.procs
      ensures ProcOk(now, p, s.Get(s.procs[p].Home()), s.procs[p])
    {
      assert InTime(s, s.procs[p], now);
    }
  }

  lemma NextKeeps(cfg: Config, s: Sys, a: Action)
    requires cfg.locking && cfg.timely && Ok(s) && Enabled(cfg, s, a)
    ensures Ok(Next(cfg, s, a))
  {
    match a
    case Create(id, length, body, partial, expires) =>
      assert Flatten([body]) == body by { FlattenSnoc([], body); }
      CreateKeeps(cfg, s, id, NewPlain(s.Get(id), length, body, partial, expires));
    case CreateFinal(id, sources, expires) =>
      CreateKeeps(cfg, s, id, NewFinal(s, s.Get(id), sources, expires));
    case Arrive(p, proc) =>
    case Run(p, choice) => RunKeeps(cfg, s, p, choice);
    case Tick(now) => TickKeeps(cfg, s, now);
    case Crash(_) =>
  }
}
