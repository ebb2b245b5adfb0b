/** Writers without any lock: as long as all of them send slices of one common source,
    no interleaving, TTL overrun or crash can damage the file. */
module Racing {
  import opened ByteStrings
  import opened PatchRules
  import opened Machine

  predicate IsPrefix(file: Bytes, source: Bytes) {
    |file| <= |source| && file == source[..|file|]
  }

  /** The request carries the slice of the source that belongs at its offset. */
  predicate SendsSlice(req: PatchRequest, source: Bytes) {
    req.offset.Number? && req.offset.n >= 0 ==>
      req.offset.n + |req.body| <= |source| && req.body == source[req.offset.n..req.offset.n + |req.body|]
  }

  predicate Behaves(a: Action, id: Id, source: Bytes) {
    match a
    case Create(i, _, body, _, _) => i == id ==> IsPrefix(body, source)
    case CreateFinal(i, _, _) => i != id
    case Arrive(_, proc) =>
      proc.Waiting? && proc.job.PatchJob? && proc.job.req.id == id ==> SendsSlice(proc.job.req, source)
    case _ => true
  }

  predicate CellSafe(cell: Cell, source: Bytes) {
    && !cell.kind.Final?
    && (cell.row.Some? ==>
          cell.row.value.sources == [] && cell.file.Some? && IsPrefix(cell.file.value, source) &&
          cell.row.value.offset <= |cell.file.value|)
  }

  predicate ProcSafe(cell: Cell, proc: Proc, source: Bytes) {
    match proc
    case Waiting(job) => job.PatchJob? ==> SendsSlice(job.req, source)
    case Holding(job) => job.PatchJob? ==> SendsSlice(job.req, source)
    case Patching(req, plan, at, landed) =>
      && req.offset == Number(plan.expected) && SendsSlice(req, source)
      && plan.newOffset == plan.expected + |req.body|
      && landed <= |req.body|
      && (cell.row.Some? ==>
            plan.expected + (if at.Writing? then landed else if at.Written? then |req.body| else 0) <= |cell.Bytes()|)
    case Erasing(_, _, rowGone) => rowGone ==> cell.row.None?
    case Leaving(_) => true
    case Assembling(_, _, _, _, _, _) => false
  }

  /** What any step does to a cell, seen from the other writers. */
  predicate Benign(cell: Cell, after: Cell) {
    && (cell.row.None? && !cell.kind.Unborn? ==> after.row.None?)
    && (after.row.Some? ==> |after.Bytes()| >= |cell.Bytes()|)
  }

  lemma WriteSlice(file: Bytes, source: Bytes, at: nat, n: nat)
    requires IsPrefix(file, source) && at <= |file| && at + n <= |source|
    ensures IsPrefix(WriteAt(file, at, source[at..at + n]), source)
  {
    var r := WriteAt(file, at, source[at..at + n]);
    forall i | 0 <= i < |r|
      ensures r[i] == source[i]
    {
      if at <= i < at + n {
        assert r[at..at + n][i - at] == source[at..at + n][i - at];
      }
    }
  }

  lemma LandSlice(file: Bytes, source: Bytes, body: Bytes, at: nat, k: nat, n: nat)
    requires IsPrefix(file, source) && at + k <= |file| && k + n <= |body|
    requires at + |body| <= |source| && body == source[at..at + |body|]
    ensures IsPrefix(WriteAt(file, at + k, body[k..k + n]), source)
  {
    var sent, wanted := body[k..k + n], source[at + k..at + k + n];
    forall i | 0 <= i < n
      ensures sent[i] == wanted[i]
    {
      assert body[k + i] == source[at..at + |body|][k + i];
    }
    assert sent == wanted;
    WriteSlice(file, source, at + k, n);
  }

  ghost predicate OutcomeSafe(cell: Cell, home: Id, o: Outcome, source: Bytes) {
    && CellSafe(o.cell, source) && Benign(cell, o.cell) && o.cell.kind == cell.kind
    && (o.next.Some? ==> ProcSafe(o.cell, o.next.value, source) && o.next.value.Home() == home)
  }

  lemma RacingLand(p: Pid, cell: Cell, proc: Proc, n: nat, source: Bytes)
    requires CellSafe(cell, source) && ProcSafe(cell, proc, source) && proc.Patching? && proc.at.Writing?
    requires n <= |proc.req.body| - proc.landed
    ensures OutcomeSafe(cell, proc.Home(), StepPatch(p, cell, proc, Land(n)), source)
  {
    if cell.row.Some? {
      LandSlice(cell.file.value, source, proc.req.body, proc.plan.expected, proc.landed, n);
    }
  }

  lemma RacingOpen(p: Pid, cell: Cell, proc: Proc, choice: Choice, source: Bytes)
    requires CellSafe(cell, source) && ProcSafe(cell, proc, source) && proc.Patching?
    requires proc.at.Planned? || proc.at.Committed?
    ensures OutcomeSafe(cell, proc.Home(), StepPatch(p, cell, proc, choice), source)
  {
  }

  lemma RacingSwap(p: Pid, cell: Cell, proc: Proc, choice: Choice, source: Bytes)
    requires CellSafe(cell, source) && ProcSafe(cell, proc, source) && proc.Patching? && proc.at.Written?
    ensures OutcomeSafe(cell, proc.Home(), StepPatch(p, cell, proc, choice), source)
  {
  }

  lemma RacingPatch(p: Pid, cell: Cell, proc: Proc, choice: Choice, source: Bytes)
    requires CellSafe(cell, source) && ProcSafe(cell, proc, source) && proc.Patching?
    requires proc.at.Writing? ==>
               if choice.Land? then choice.n <= |proc.req.body| - proc.landed else proc.landed == |proc.req.body|
    ensures OutcomeSafe(cell, proc.Home(), StepPatch(p, cell, proc, choice), source)
  {
    if proc.at.Writing? && choice.Land? {
      RacingLand(p, cell, proc, choice.n, source);
    } else if proc.at.Planned? || proc.at.Committed? {
      RacingOpen(p, cell, proc, choice, source);
    } else if proc.at.Written? {
      RacingSwap(p, cell, proc, choice, source);
    }
  }

  lemma RacingStep(cfg: Config, view: View, p: Pid, cell: Cell, proc: Proc, choice: Choice, source: Bytes)
    requires Can(cfg, view, cell, proc, choice) && CellSafe(cell, source) && ProcSafe(cell, proc, source)
    ensures OutcomeSafe(cell, proc.Home(), Step(cfg, view, p, cell, proc, choice), source)
  {
    if proc.Patching? && !choice.Fail? {
      RacingPatch(p, cell, proc, choice, source);
    }
  }

  /** All that is stored about `id` and every process working on it is safe. */
  ghost predicate Safe(s: Sys, id: Id, source: Bytes) {
    && CellSafe(s.Get(id), source)
    && (s.Get(id).kind.Unborn? ==> s.Get(id).row.None?)
    && (forall p :: p in s.procs && s.procs[p].Home() == id ==>
          ProcSafe(s.Get(id), s.procs[p], source) &&
          (s.procs[p].Patching? || s.procs[p].Erasing? ==> !s.Get(id).kind.Unborn?))
  }

  lemma RacingRun(cfg: Config, s: Sys, p: Pid, choice: Choice, id: Id, source: Bytes)
    requires Enabled(cfg, s, Run(p, choice)) && Safe(s, id, source)
    ensures Safe(Next(cfg, s, Run(p, choice)), id, source)
  {
    var proc := s.procs[p];
    if proc.Home() == id {
      RacingHere(cfg, s, p, choice, id, source);
    } else {
      HomeKept(cfg, ViewOf(s, proc), p, s.Get(proc.Home()), proc, choice);
    }
  }

  /** A step on the upload itself: its other writers stay safe. */
  lemma RacingHere(cfg: Config, s: Sys, p: Pid, choice: Choice, id: Id, source: Bytes)
    requires Enabled(cfg, s, Run(p, choice)) && Safe(s, id, source) && s.procs[p].Home() == id
    ensures Safe(Next(cfg, s, Run(p, choice)), id, source)
  {
    var proc, t := s.procs[p], Next(cfg, s, Run(p, choice));
    RacingStep(cfg, ViewOf(s, proc), p, s.Get(id), proc, choice, source);
    var after := Step(cfg, ViewOf(s, proc), p, s.Get(id), proc, choice).cell;
    assert t.Get(id) == after;
    forall q | q in t.procs && t.procs[q].Home() == id && q != p
      ensures ProcSafe(after, t.procs[q], source)
    {
      OtherStaysSafe(s.Get(id), after, t.procs[q], source);
    }
  }

  lemma OtherStaysSafe(cell: Cell, after: Cell, proc: Proc, source: Bytes)
    requires ProcSafe(cell, proc, source) && Benign(cell, after)
    requires proc.Patching? || proc.Erasing? ==> !cell.kind.Unborn?
    ensures ProcSafe(after, proc, source)
  {
  }

  lemma HomeKept(cfg: Config, view: View, p: Pid, cell: Cell, proc: Proc, choice: Choice)
    requires Can(cfg, view, cell, proc, choice)
    ensures var o := Step(cfg, view, p, cell, proc, choice); o.next.Some? ==> o.next.value.Home() == proc.Home()
  {
  }

  lemma RacingNext(cfg: Config, s: Sys, a: Action, id: Id, source: Bytes)
    requires Enabled(cfg, s, a) && Safe(s, id, source) && Behaves(a, id, source)
    ensures Safe(Next(cfg, s, a), id, source)
  {
    match a
    case Run(p, choice) => RacingRun(cfg, s, p, choice, id, source);
    case Create(_, _, _, _, _) =>
    case CreateFinal(_, _, _) =>
    case Arrive(_, _) =>
    case Tick(_) =>
    case Crash(_) =>
  }

  lemma {:induction false} RacingRuns(cfg: Config, s: Sys, run: seq<Action>, id: Id, source: Bytes)
    requires Runs(cfg, s, run) && Safe(s, id, source)
    requires forall i :: 0 <= i < |run| ==> Behaves(run[i], id, source)
    ensures Safe(After(cfg, s, run), id, source)
    decreases |run|
  {
    if run != [] {
      assert Behaves(run[0], id, source);
      RacingNext(cfg, s, run[0], id, source);
      RacingRuns(cfg, Next(cfg, s, run[0]), run[1..], id, source);
    }
  }

  /** With or without the TTL lock, and however writers race: while the row lives, the
      file is a prefix of the common source and reaches at least to the offset. */
  lemma RacingWritersCannotDamage(cfg: Config, run: seq<Action>, id: Id, source: Bytes)
    requires Runs(cfg, INITIAL, run)
    requires forall i :: 0 <= i < |run| ==> Behaves(run[i], id, source)
    ensures var cell := After(cfg, INITIAL, run).Get(id);
      cell.row.Some? ==>
        cell.file.Some? && IsPrefix(cell.file.value, source) && cell.row.value.offset <= |cell.file.value|
  {
    RacingRuns(cfg, INITIAL, run, id, source);
  }
}
