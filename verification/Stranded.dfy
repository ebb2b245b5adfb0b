/** A final that has lost a partial never completes, whatever happens later; and the check of
    DELETE does not rule it out, because a final may be created right after it. */
module Stranded {
  import opened ByteStrings
  import opened PatchRules
  import opened Machine

  /** Created once, and not there any more. */
  predicate Gone(cell: Cell) {
    cell.row.None? && !cell.kind.Unborn?
  }

  /** What may be at work on a final whose k-th partial is gone: nobody has read that far. */
  predicate Harmless(proc: Proc, sources: seq<Id>, k: nat) {
    && !proc.Patching?
    && (proc.Assembling? ==> proc.sources == sources && proc.stage.Reading? && |proc.lens| <= k)
  }

  predicate Waits(cell: Cell) {
    cell.kind.Final? && (cell.row.Some? ==> !cell.row.value.completed && cell.row.value.sources == cell.kind.sources)
  }

  /** The final is pending or gone, and its k-th partial is gone. */
  ghost predicate Stuck(s: Sys, fid: Id, k: nat) {
    var cell := s.Get(fid);
    && Waits(cell) && k < |cell.kind.sources| && Gone(s.Get(cell.kind.sources[k]))
    && forall p :: p in s.procs && s.procs[p].Home() == fid ==> Harmless(s.procs[p], cell.kind.sources, k)
  }

  /** A row that is gone does not come back. */
  lemma GoneStays(cfg: Config, view: View, p: Pid, cell: Cell, proc: Proc, choice: Choice)
    requires Can(cfg, view, cell, proc, choice) && Gone(cell)
    ensures Gone(Step(cfg, view, p, cell, proc, choice).cell)
  {
  }

  lemma StepStuck(cfg: Config, view: View, p: Pid, cell: Cell, proc: Proc, choice: Choice, k: nat)
    requires Can(cfg, view, cell, proc, choice) && Waits(cell) && k < |cell.kind.sources|
    requires Harmless(proc, cell.kind.sources, k)
    requires proc.Assembling? && |proc.lens| == k ==> view.source.row.None?
    ensures var o := Step(cfg, view, p, cell, proc, choice);
      && Waits(o.cell) && o.cell.kind == cell.kind
      && (o.next.Some? ==> o.next.value.Home() == proc.Home() && Harmless(o.next.value, cell.kind.sources, k))
  {
  }

  lemma RunStuck(cfg: Config, s: Sys, p: Pid, choice: Choice, fid: Id, k: nat)
    requires Enabled(cfg, s, Run(p, choice)) && Stuck(s, fid, k)
    ensures Stuck(Next(cfg, s, Run(p, choice)), fid, k)
  {
    var proc, t := s.procs[p], Next(cfg, s, Run(p, choice));
    var view, lost := ViewOf(s, proc), s.Get(fid).kind.sources[k];
    if proc.Home() == fid {
      StepStuck(cfg, view, p, s.Get(fid), proc, choice, k);
    } else {
      HomeStays(cfg, view, p, s.Get(proc.Home()), proc, choice);
    }
    if proc.Home() == lost {
      GoneStays(cfg, view, p, s.Get(lost), proc, choice);
    }
  }

  lemma HomeStays(cfg: Config, view: View, p: Pid, cell: Cell, proc: Proc, choice: Choice)
    requires Can(cfg, view, cell, proc, choice)
    ensures var next := Step(cfg, view, p, cell, proc, choice).next; next.Some? ==> next.value.Home() == proc.Home()
  {
  }

  lemma NextStuck(cfg: Config, s: Sys, a: Action, fid: Id, k: nat)
    requires Enabled(cfg, s, a) && Stuck(s, fid, k)
    ensures Stuck(Next(cfg, s, a), fid, k)
  {
    match a
    case Run(p, choice) => RunStuck(cfg, s, p, choice, fid, k);
    case Create(_, _, _, _, _) =>
    case CreateFinal(_, _, _) =>
    case Arrive(_, _) =>
    case Tick(_) =>
    case Crash(_) =>
  }

  /** Once a pending final has lost a partial, no run of the server, under any lock or none,
      completes it: it can only be removed. */
  lemma {:induction false} NeverCompletes(cfg: Config, s: Sys, run: seq<Action>, fid: Id, k: nat)
    requires Runs(cfg, s, run) && Stuck(s, fid, k)
    ensures Stuck(After(cfg, s, run), fid, k)
    ensures var row := After(cfg, s, run).Get(fid).row; row.Some? ==> !row.value.completed
    decreases |run|
  {
    if run != [] {
      NextStuck(cfg, s, run[0], fid, k);
      NeverCompletes(cfg, Next(cfg, s, run[0]), run[1..], fid, k);
    }
  }

  /** A DELETE that has looked for pending finals and found none goes on to erase, also when a
      final over its upload is created in between: that final is stuck. */
  lemma DeleteMisses(cfg: Config, s: Sys, p: Pid, id: Id, fid: Id, expires: Option<nat>) returns (run: seq<Action>)
    requires p in s.procs && s.procs[p] == Erasing(id, true, false)
    requires var cell := s.Get(id); cell.kind.Plain? && cell.row.Some? && cell.row.value.partial && !cell.Ready()
    requires s.Get(fid).kind.Unborn? && (forall q :: q in s.procs ==> s.procs[q].Home() != fid)
    ensures Runs(cfg, s, run) && |run| == 2 && run[0] == CreateFinal(fid, [id], expires)
    ensures var t := After(cfg, s, run); t.Get(fid).row.Some? && Stuck(t, fid, 0)
  {
    var create, erase := CreateFinal(fid, [id], expires), Run(p, Proceed);
    var born := Next(cfg, s, create);
    assert born.procs == s.procs && born.Get(id) == s.Get(id);
    var erased := Next(cfg, born, erase);
    run := [create, erase];
    assert run[1..] == [erase] && [erase][1..] == [];
    assert Runs(cfg, erased, []) && After(cfg, erased, []) == erased;
    assert Runs(cfg, born, [erase]) && After(cfg, born, [erase]) == erased;
  }
}
