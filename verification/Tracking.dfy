/** What a client relies on between two of its requests is what the state machine gives it:
    while all writers of an upload send slices of one source, and no length but its own,
    the upload stays a faithful part of the source and never loses ground, in every
    interleaving, under any lock or none. */
module Tracking {
  import opened ByteStrings
  import opened PatchRules
  import opened Machine
  import opened Racing
  import Channel
  import Handlers

  predicate Sized(req: PatchRequest, source: Bytes) {
    req.length.Number? ==> req.length.n == |source|
  }

  predicate BehavesSized(a: Action, id: Id, source: Bytes) {
    && Behaves(a, id, source)
    && match a
       case Create(i, length, _, _, _) => i == id && length.Some? ==> length.value == |source|
       case Arrive(_, proc) =>
         proc.Waiting? && proc.job.PatchJob? && proc.job.req.id == id ==> Sized(proc.job.req, source)
       case _ => true
  }

  predicate CellTracks(cell: Cell, source: Bytes) {
    && CellSafe(cell, source)
    && (cell.row.Some? ==>
          var row := cell.row.value;
          && (row.length.None? ==> !row.completed && |cell.Bytes()| == row.offset)
          && (row.length.Some? ==> row.length.value == |source|)
          && (row.completed ==> row.offset == |source|))
  }

  predicate ProcTracks(cell: Cell, proc: Proc, source: Bytes) {
    && ProcSafe(cell, proc, source)
    && match proc
       case Waiting(job) => job.PatchJob? ==> Sized(job.req, source)
       case Holding(job) => job.PatchJob? ==> Sized(job.req, source)
       case Patching(req, plan, at, _) =>
         && plan.newOffset <= plan.effective == |source|
         && (plan.commit.Some? ==> plan.commit.value == |source|)
         && (cell.row.Some? ==>
               && ((at.Planned? && plan.commit.Some?) || cell.row.value.length.Some?)
               && (at.Swapped? || at.Finishing? ==> cell.row.value.offset >= plan.newOffset))
       case _ => true
  }

  /** The row does not come back, and what it has gained it keeps. */
  predicate Onward(cell: Cell, after: Cell) {
    after.row.Some? ==>
      && cell.row.Some? && cell.row.value.offset <= after.row.value.offset
      && (cell.row.value.completed ==> after.row.value.completed)
      && (cell.row.value.length.Some? ==> after.row.value.length == cell.row.value.length)
  }

  predicate OutcomeTracks(cell: Cell, home: Id, o: Outcome, source: Bytes) {
    && CellTracks(o.cell, source) && Onward(cell, o.cell) && Benign(cell, o.cell) && o.cell.kind == cell.kind
    && (o.next.Some? ==> ProcTracks(o.cell, o.next.value, source) && o.next.value.Home() == home)
  }

  /** A planned PATCH takes its length from the source, and stays within it. */
  lemma PlanTracks(limits: Limits, now: nat, row: Row, req: PatchRequest, source: Bytes)
    requires Sized(req, source) && (row.length.Some? ==> row.length.value == |source|)
    ensures var verdict := PlanPatch(limits, now, row, req);
      verdict.Go? ==>
        && verdict.plan.newOffset <= verdict.plan.effective == |source|
        && (if verdict.plan.commit.Some? then verdict.plan.commit.value == |source| else row.length.Some?)
  {
  }

  /** Up to the write, and the write itself. */
  lemma WriteTracks(p: Pid, cell: Cell, proc: Proc, choice: Choice, source: Bytes)
    requires CellTracks(cell, source) && ProcTracks(cell, proc, source) && proc.Patching?
    requires proc.at.Planned? || proc.at.Committed? || proc.at.Writing?
    requires proc.at.Writing? ==>
               if choice.Land? then choice.n <= |proc.req.body| - proc.landed else proc.landed == |proc.req.body|
    ensures OutcomeTracks(cell, proc.Home(), StepPatch(p, cell, proc, choice), source)
  {
    RacingPatch(p, cell, proc, choice, source);
  }

  lemma PatchTracks(p: Pid, cell: Cell, proc: Proc, choice: Choice, source: Bytes)
    requires CellTracks(cell, source) && ProcTracks(cell, proc, source) && proc.Patching?
    requires proc.at.Writing? ==>
               if choice.Land? then choice.n <= |proc.req.body| - proc.landed else proc.landed == |proc.req.body|
    ensures OutcomeTracks(cell, proc.Home(), StepPatch(p, cell, proc, choice), source)
  {
    if proc.at.Planned? || proc.at.Committed? || proc.at.Writing? {
      WriteTracks(p, cell, proc, choice, source);
    } else {
      RacingPatch(p, cell, proc, choice, source);
    }
  }

  lemma StepTracks(cfg: Config, view: View, p: Pid, cell: Cell, proc: Proc, choice: Choice, source: Bytes)
    requires Can(cfg, view, cell, proc, choice) && CellTracks(cell, source) && ProcTracks(cell, proc, source)
    ensures OutcomeTracks(cell, proc.Home(), Step(cfg, view, p, cell, proc, choice), source)
  {
    RacingStep(cfg, view, p, cell, proc, choice, source);
    if proc.Patching? && !choice.Fail? {
      PatchTracks(p, cell, proc, choice, source);
    } else if proc.Holding? && proc.job.PatchJob? && cell.row.Some? {
      PlanTracks(cfg.limits, view.now, cell.row.value, proc.job.req, source);
    }
  }

  lemma OtherStaysTracking(cell: Cell, after: Cell, proc: Proc, source: Bytes)
    requires ProcTracks(cell, proc, source) && Onward(cell, after) && Benign(cell, after)
    requires proc.Patching? || proc.Erasing? ==> !cell.kind.Unborn?
    ensures ProcTracks(after, proc, source)
  {
    OtherStaysSafe(cell, after, proc, source);
  }

  ghost predicate AllTrack(s: Sys, id: Id, source: Bytes) {
    && Safe(s, id, source) && CellTracks(s.Get(id), source)
    && (forall p :: p in s.procs && s.procs[p].Home() == id ==> ProcTracks(s.Get(id), s.procs[p], source))
  }

  lemma RunTracks(cfg: Config, s: Sys, p: Pid, choice: Choice, id: Id, source: Bytes)
    requires Enabled(cfg, s, Run(p, choice)) && AllTrack(s, id, source)
    ensures AllTrack(Next(cfg, s, Run(p, choice)), id, source)
    ensures Onward(s.Get(id), Next(cfg, s, Run(p, choice)).Get(id))
  {
    var proc, t := s.procs[p], Next(cfg, s, Run(p, choice));
    RacingRun(cfg, s, p, choice, id, source);
    if proc.Home() == id {
      StepTracks(cfg, ViewOf(s, proc), p, s.Get(id), proc, choice, source);
      forall q | q in t.procs && t.procs[q].Home() == id && q != p
        ensures ProcTracks(t.Get(id), t.procs[q], source)
      {
        OtherStaysTracking(s.Get(id), t.Get(id), t.procs[q], source);
      }
    } else {
      HomeKept(cfg, ViewOf(s, proc), p, s.Get(proc.Home()), proc, choice);
    }
  }

  lemma NextTracks(cfg: Config, s: Sys, a: Action, id: Id, source: Bytes)
    requires Enabled(cfg, s, a) && AllTrack(s, id, source) && BehavesSized(a, id, source)
    ensures AllTrack(Next(cfg, s, a), id, source)
    ensures var t := Next(cfg, s, a);
      s.Get(id).kind.Unborn? || (!t.Get(id).kind.Unborn? && Onward(s.Get(id), t.Get(id)))
  {
    RacingNext(cfg, s, a, id, source);
    match a
    case Run(p, choice) => RunTracks(cfg, s, p, choice, id, source);
    case Create(_, _, _, _, _) =>
    case CreateFinal(_, _, _) =>
    case Arrive(_, _) =>
    case Tick(_) =>
    case Crash(_) =>
  }

  lemma {:induction false} RunsTrack(cfg: Config, s: Sys, run: seq<Action>, id: Id, source: Bytes)
    requires Runs(cfg, s, run) && AllTrack(s, id, source)
    requires forall i :: 0 <= i < |run| ==> BehavesSized(run[i], id, source)
    ensures AllTrack(After(cfg, s, run), id, source)
    ensures s.Get(id).kind.Unborn? || Onward(s.Get(id), After(cfg, s, run).Get(id))
    decreases |run|
  {
    if run != [] {
      assert BehavesSized(run[0], id, source);
      NextTracks(cfg, s, run[0], id, source);
      RunsTrack(cfg, Next(cfg, s, run[0]), run[1..], id, source);
    }
  }

  /** Whatever the server does between two requests of a client, from any state it can be in:
      the upload, while it is there, is a faithful part of the source, complete but unmarked
      exactly where its row says so, and it has not lost anything. */
  lemma ServerElapses(cfg: Config, run: seq<Action>, more: seq<Action>, id: Id, source: Bytes)
    requires Runs(cfg, INITIAL, run) && Runs(cfg, After(cfg, INITIAL, run), more)
    requires forall i :: 0 <= i < |run| ==> BehavesSized(run[i], id, source)
    requires forall i :: 0 <= i < |more| ==> BehavesSized(more[i], id, source)
    ensures var before, after := After(cfg, INITIAL, run).Get(id), After(cfg, After(cfg, INITIAL, run), more).Get(id);
      && (after.row.Some? ==>
            && after.file.Some?
            && Channel.Tracks(Handlers.Stored(after.row.value, after.file.value), source, !after.row.value.completed))
      && (!before.kind.Unborn? ==> Onward(before, after))
  {
    RunsTrack(cfg, INITIAL, run, id, source);
    RunsTrack(cfg, After(cfg, INITIAL, run), more, id, source);
    var after := After(cfg, After(cfg, INITIAL, run), more).Get(id);
    if after.row.Some? {
      var offset := after.row.value.offset;
      assert after.file.value[..offset] == source[..offset];
    }
  }
}
