/** Concatenation: what a completed final contains, through crashes, rollbacks,
    re-claims and concurrent assemblies. */
module Finals {
  import opened ByteStrings
  import opened PatchRules
  import opened Machine
  import opened Serial
  import opened Safety

  /** The accepted bytes of the listed uploads, in order. */
  function Expected(s: Sys, ids: seq<Id>): Bytes {
    if ids == [] then [] else Expected(s, ids[..|ids| - 1]) + Flatten(s.Get(ids[|ids| - 1]).chunks)
  }

  /** A partial that was once complete: it accepts nothing more. While its file exists, the
      file is what was accepted, or empty where a PATCH recreated it after an erasure. */
  ghost predicate Full(cell: Cell) {
    && cell.kind == Plain(true)
    && (cell.row.Some? ==> cell.Ready())
    && (cell.file.Some? ==> cell.file.value == Flatten(cell.chunks) || (cell.file.value == [] && cell.overtaken))
  }

  /** No PATCH in flight carries any bytes for this upload. */
  ghost predicate Idle(s: Sys, id: Id) {
    forall p :: p in s.procs && s.procs[p].Home() == id && s.procs[p].InFlight() ==> s.procs[p].req.body == []
  }

  ghost predicate Sealed(s: Sys, id: Id) {
    Full(s.Get(id)) && Idle(s, id)
  }

  ghost predicate AllSealed(s: Sys, ids: seq<Id>) {
    forall i :: 0 <= i < |ids| ==> Sealed(s, ids[i])
  }

  ghost predicate Clean(s: Sys, ids: seq<Id>) {
    forall i :: 0 <= i < |ids| ==> !s.Get(ids[i]).overtaken
  }

  /** No longer than the whole, and if as long, then the whole. */
  ghost predicate Within(part: Bytes, whole: Bytes) {
    |part| <= |whole| && (|part| == |whole| ==> part == whole)
  }

  /** A claimed final knows its total. A completed one holds its sources' bytes, all of them
      if its offset says so, and surely if no erasure overtook a PATCH on one of them. */
  ghost predicate FinalOk(s: Sys, cell: Cell) {
    cell.kind.Final? && cell.row.Some? && (cell.row.value.completed || cell.row.value.length.Some?) ==>
      && AllSealed(s, cell.kind.sources)
      && cell.row.value.length == Some(|Expected(s, cell.kind.sources)|)
      && (cell.row.value.completed ==>
            && cell.row.value.offset == |cell.Bytes()|
            && Within(cell.Bytes(), Expected(s, cell.kind.sources))
            && (Clean(s, cell.kind.sources) ==> cell.Bytes() == Expected(s, cell.kind.sources)))
  }

  /** What a copying assembly has put together so far. */
  function Draft(home: Cell, proc: Proc): Bytes
    requires proc.Assembling?
  {
    if proc.stage.Copying? then home.Bytes() + proc.left
    else if proc.stage.Sized? || proc.stage.Published? then home.Bytes() else []
  }

  ghost predicate Measured(home: Cell, proc: Proc)
    requires proc.Assembling?
  {
    (proc.stage.Sized? || proc.stage.Published?) && home.row.Some? ==> home.row.value.offset == |home.Bytes()|
  }

  function Reach(proc: Proc): nat
    requires proc.Assembling?
  {
    if proc.stage.Sized? || proc.stage.Published? then |proc.sources|
    else if proc.stage.Copying? then Min(proc.started, |proc.sources|) else 0
  }

  ghost predicate Drawn(draft: Bytes, whole: Bytes, clean: bool) {
    Within(draft, whole) && (clean ==> draft == whole)
  }

  ghost predicate DrawOk(s: Sys, proc: Proc) {
    proc.Assembling? && |proc.lens| <= |proc.sources| ==>
      && AllSealed(s, proc.sources[..|proc.lens|])
      && (forall i :: 0 <= i < |proc.lens| ==> proc.lens[i] == |Flatten(s.Get(proc.sources[i]).chunks)|)
      && Measured(s.Get(proc.fid), proc)
      && Drawn(Draft(s.Get(proc.fid), proc), Expected(s, proc.sources[..Reach(proc)]), Clean(s, proc.sources))
  }

  /** Finals list partials, also after those are gone. */
  ghost predicate SourcesOk(s: Sys, cell: Cell) {
    cell.kind.Final? ==>
      forall i :: 0 <= i < |cell.kind.sources| ==> s.Get(cell.kind.sources[i]).kind == Plain(true)
  }

  ghost predicate ContentOk(s: Sys) {
    && (forall id :: id in s.cells ==> SourcesOk(s, s.cells[id]) && FinalOk(s, s.cells[id]))
    && (forall p :: p in s.procs ==> DrawOk(s, s.procs[p]))
  }

  /** A sealed upload stays sealed with the same bytes. */
  ghost predicate SealKept(s: Sys, t: Sys, id: Id) {
    && (Sealed(s, id) ==> Sealed(t, id) && Flatten(t.Get(id).chunks) == Flatten(s.Get(id).chunks))
    && (s.Get(id).overtaken ==> t.Get(id).overtaken)
  }

  /** A process that leaves a full upload full, and starts nothing with bytes for it. */
  ghost predicate KeepsFull(cell: Cell, o: Outcome) {
    && Full(o.cell) && Flatten(o.cell.chunks) == Flatten(cell.chunks)
    && (o.next.Some? && o.next.value.InFlight() ==> o.next.value.req.body == [])
  }

  /** A swap without bytes. */
  lemma SwapKeepsFull(p: Pid, now: nat, cell: Cell, proc: Proc, choice: Choice)
    requires CellOk(cell) && proc.Patching? && proc.at.Written? && ProcOk(now, p, cell, proc) && Full(cell)
    requires proc.req.body == []
    ensures KeepsFull(cell, StepPatch(p, cell, proc, choice))
  {
    FlattenSnoc(cell.chunks, proc.req.body);
    assert Flatten(cell.chunks) + [] == Flatten(cell.chunks);
  }

  /** Up to the swap, and after it. */
  lemma RestKeepsFull(p: Pid, now: nat, cell: Cell, proc: Proc, choice: Choice)
    requires CellOk(cell) && proc.Patching? && !proc.at.Written? && ProcOk(now, p, cell, proc) && Full(cell)
    requires proc.InFlight() ==> proc.req.body == []
    requires proc.at.Writing? ==> !choice.Land?
    ensures KeepsFull(cell, StepPatch(p, cell, proc, choice))
  {
  }

  /** Nothing a PATCH without bytes opens or swaps changes the content, and nothing lands. */
  lemma PatchKeepsFull(p: Pid, now: nat, cell: Cell, proc: Proc, choice: Choice)
    requires CellOk(cell) && proc.Patching? && ProcOk(now, p, cell, proc) && Full(cell)
    requires proc.InFlight() ==> proc.req.body == []
    requires proc.at.Writing? && choice.Land? ==> 0 < choice.n <= |proc.req.body| - proc.landed
    ensures KeepsFull(cell, StepPatch(p, cell, proc, choice))
  {
    if proc.at.Written? {
      SwapKeepsFull(p, now, cell, proc, choice);
    } else {
      RestKeepsFull(p, now, cell, proc, choice);
    }
  }

  lemma StepKeepsFull(cfg: Config, view: View, p: Pid, cell: Cell, proc: Proc, choice: Choice)
    requires cfg.locking && Can(cfg, view, cell, proc, choice) && Full(cell)
    requires CellOk(cell) && ProcOk(view.now, p, cell, proc)
    requires proc.InFlight() ==> proc.req.body == []
    ensures KeepsFull(cell, Step(cfg, view, p, cell, proc, choice))
  {
    if proc.Patching? && !choice.Fail? {
      PatchKeepsFull(p, view.now, cell, proc, choice);
    }
  }

  lemma {:induction false} ExpectedKept(s: Sys, t: Sys, ids: seq<Id>)
    requires AllSealed(s, ids)
    requires forall i :: 0 <= i < |ids| ==> SealKept(s, t, ids[i])
    ensures AllSealed(t, ids) && Expected(t, ids) == Expected(s, ids)
    ensures Clean(t, ids) ==> Clean(s, ids)
  {
    if ids != [] {
      var front, last := ids[..|ids| - 1], ids[|ids| - 1];
      assert forall i :: 0 <= i < |front| ==> front[i] == ids[i];
      ExpectedKept(s, t, front);
      assert SealKept(s, t, last);
    }
  }

  lemma {:induction false} ExpectedLength(s: Sys, ids: seq<Id>, lens: seq<nat>)
    requires |lens| == |ids|
    requires forall i :: 0 <= i < |ids| ==> lens[i] == |Flatten(s.Get(ids[i]).chunks)|
    ensures |Expected(s, ids)| == Sum(lens)
  {
    if ids != [] {
      assert forall i :: 0 <= i < |ids| - 1 ==> ids[..|ids| - 1][i] == ids[i];
      ExpectedLength(s, ids[..|ids| - 1], lens[..|ids| - 1]);
    }
  }

  /** One assembly step extends the draft by the piece it opens, or starts it anew. */
  lemma StepDraws(cfg: Config, view: View, p: Pid, cell: Cell, proc: Proc)
    requires CellOk(cell) && proc.Assembling? && ProcOk(view.now, p, cell, proc) && Measured(cell, proc)
    ensures var o := StepAssembly(cfg, view, p, cell, proc);
      o.next.Some? && o.next.value.Assembling? ==>
        && Measured(o.cell, o.next.value)
        && Draft(o.cell, o.next.value) == Draft(cell, proc) + Opened(view, proc)
        && Reach(o.next.value) == Reach(proc) + if Opens(proc) then 1 else 0
  {
    var left := proc.left;
    var n := if |left| < COPY_BUFFER then |left| else COPY_BUFFER;
    assert cell.Bytes() + left == (cell.Bytes() + left[..n]) + left[n..];
    assert cell.Bytes() + [] == cell.Bytes();
  }

  predicate Opens(proc: Proc) {
    proc.Assembling? && proc.stage.Copying? && proc.left == [] && proc.started < |proc.sources|
  }

  function Opened(view: View, proc: Proc): Bytes {
    if Opens(proc) then view.source.Bytes() else []
  }

  /** A final becomes completed only where a copying assembly publishes it. */
  lemma OnlyPublishCompletes(cfg: Config, view: View, p: Pid, cell: Cell, proc: Proc, choice: Choice)
    requires cfg.locking && Can(cfg, view, cell, proc, choice) && cell.kind.Final?
    requires CellOk(cell) && ProcOk(view.now, p, cell, proc)
    ensures var o := Step(cfg, view, p, cell, proc, choice);
      o.cell.row.Some? && o.cell.row.value.completed ==>
        && cell.row.Some? && o.cell.file == cell.file
        && (o.cell.row == cell.row ||
            (proc.Assembling? && proc.stage.Sized? && o.cell.row == Some(cell.row.value.(completed := true))))
    ensures var o := Step(cfg, view, p, cell, proc, choice);
      o.cell.row.Some? && !o.cell.row.value.completed && o.cell.row.value.length.Some? ==>
        && cell.row.Some? && !cell.row.value.completed
        && (o.cell.row.value.length == cell.row.value.length ||
            (proc.Assembling? && proc.stage.Claiming? && o.cell.row.value.length == Some(Sum(proc.lens))))
  {
  }

  ghost predicate CellsKept(s: Sys, t: Sys) {
    forall id :: SealKept(s, t, id) && (s.Get(id).kind == Plain(true) ==> t.Get(id).kind == Plain(true))
  }

  /** A step elsewhere leaves what an assembly has drawn in place. */
  lemma DrawKept(s: Sys, t: Sys, p: Pid, proc: Proc)
    requires CellsKept(s, t) && DrawOk(s, proc)
    requires proc.Assembling? ==> AssemblyOk(s.Get(proc.fid), proc)
    requires proc.Assembling? && proc.OwnsFile() ==>
               t.Get(proc.fid).file == s.Get(proc.fid).file &&
               (t.Get(proc.fid).row.None? || t.Get(proc.fid).row == s.Get(proc.fid).row)
    ensures DrawOk(t, proc)
  {
    if proc.Assembling? && |proc.lens| <= |proc.sources| {
      var known := proc.sources[..|proc.lens|];
      ExpectedKept(s, t, known);
      forall i | 0 <= i < |proc.lens|
        ensures proc.lens[i] == |Flatten(t.Get(proc.sources[i]).chunks)|
      {
        assert Sealed(s, known[i]) && SealKept(s, t, known[i]);
      }
      if proc.OwnsFile() {
        var k := Reach(proc);
        assert known == proc.sources;
        ExpectedKept(s, t, proc.sources);
        ExpectedKept(s, t, proc.sources[..k]);
      }
    }
  }

  lemma FinalKept(s: Sys, t: Sys, cell: Cell)
    requires CellsKept(s, t) && SourcesOk(s, cell) && FinalOk(s, cell)
    ensures SourcesOk(t, cell) && FinalOk(t, cell)
  {
    if cell.kind.Final? && cell.row.Some? && (cell.row.value.completed || cell.row.value.length.Some?) {
      ExpectedKept(s, t, cell.kind.sources);
    }
  }

  /** Reading a complete source row seals that source for good: whatever PATCH is in flight
      fits into a length that is already reached, so it carries no bytes. */
  lemma ReadySeals(s: Sys, id: Id)
    requires Ok(s) && s.Get(id).kind == Plain(true) && s.Get(id).Ready()
    ensures Sealed(s, id)
    ensures s.Get(id).row.value.offset == |Flatten(s.Get(id).chunks)|
    ensures s.Get(id).Bytes() == Flatten(s.Get(id).chunks)
  {
    var cell := s.Get(id);
    assert CellOk(cell);
    var row, file := cell.row.value, cell.file.value;
    assert file[..row.offset] == file;
    forall p | p in s.procs && s.procs[p].Home() == id && s.procs[p].InFlight()
      ensures s.procs[p].req.body == []
    {
      assert ProcOk(s.now, p, cell, s.procs[p]);
    }
  }

  /** The lengths an assembly has read are those of sealed partials. */
  ghost predicate Known(s: Sys, sources: seq<Id>, lens: seq<nat>) {
    |lens| <= |sources| &&
    forall i :: 0 <= i < |lens| ==>
      Sealed(s, sources[i]) && lens[i] == |Flatten(s.Get(sources[i]).chunks)|
  }

  lemma KnownGrows(cfg: Config, s: Sys, p: Pid, proc: Proc)
    requires Ok(s) && proc.Assembling? && Known(s, proc.sources, proc.lens)
    requires SourcesOk(s, s.Get(proc.fid)) && AssemblyOk(s.Get(proc.fid), proc)
    ensures var o := StepAssembly(cfg, ViewOf(s, proc), p, s.Get(proc.fid), proc);
      o.next.Some? && o.next.value.Assembling? ==> Known(s, proc.sources, o.next.value.lens)
  {
    if proc.stage.Reading? && |proc.lens| < |proc.sources| && ViewOf(s, proc).source.Ready() {
      ReadySeals(s, proc.sources[|proc.lens|]);
    }
  }

  /** Opening one more source: all its bytes come in, or none. */
  lemma DrawnGrows(draft: Bytes, whole: Bytes, clean: bool, piece: Bytes, all: Bytes)
    requires Drawn(draft, whole, clean) && (piece == all || (piece == [] && !clean))
    ensures Drawn(draft + piece, whole + all, clean)
  {
  }

  /** The assembling process itself: its next point is as well founded as this one. */
  lemma SelfDraws(cfg: Config, s: Sys, p: Pid, proc: Proc)
    requires Ok(s) && SourcesOk(s, s.Get(proc.Home())) && proc.Assembling? && DrawOk(s, proc)
    requires ProcOk(s.now, p, s.Get(proc.fid), proc)
    requires Can(cfg, ViewOf(s, proc), s.Get(proc.fid), proc, Proceed)
    ensures var o := StepAssembly(cfg, ViewOf(s, proc), p, s.Get(proc.fid), proc);
      o.next.Some? && o.next.value.Assembling? ==>
        && Known(s, proc.sources, o.next.value.lens) && Measured(o.cell, o.next.value)
        && Drawn(Draft(o.cell, o.next.value), Expected(s, proc.sources[..Reach(o.next.value)]), Clean(s, proc.sources))
  {
    var sources, k := proc.sources, proc.started;
    var view, cell := ViewOf(s, proc), s.Get(proc.fid);
    KnownFromDraw(s, proc);
    KnownGrows(cfg, s, p, proc);
    StepDraws(cfg, view, p, cell, proc);
    if Opens(proc) {
      OpensSealed(s, cfg, p, proc);
      assert sources[..k + 1][..k] == sources[..k];
      DrawnGrows(Draft(cell, proc), Expected(s, sources[..k]), Clean(s, sources), view.source.Bytes(),
                 Flatten(s.Get(sources[k]).chunks));
    }
    assert Draft(cell, proc) + [] == Draft(cell, proc);
  }

  lemma KnownFromDraw(s: Sys, proc: Proc)
    requires proc.Assembling? && |proc.lens| <= |proc.sources| && DrawOk(s, proc)
    ensures Known(s, proc.sources, proc.lens)
  {
    forall i | 0 <= i < |proc.lens|
      ensures Sealed(s, proc.sources[i])
    {
      assert proc.sources[..|proc.lens|][i] == proc.sources[i];
    }
  }

  /** What is opened is a sealed source. */
  lemma OpensSealed(s: Sys, cfg: Config, p: Pid, proc: Proc)
    requires Opens(proc) && Known(s, proc.sources, proc.lens) && AssemblyOk(s.Get(proc.fid), proc)
    requires Can(cfg, ViewOf(s, proc), s.Get(proc.fid), proc, Proceed)
    ensures var source := s.Get(proc.sources[proc.started]);
      && ViewOf(s, proc).source == source && Full(source)
      && (source.Bytes() == Flatten(source.chunks) || (source.Bytes() == [] && !Clean(s, proc.sources)))
  {
    assert Sealed(s, proc.sources[proc.started]);
  }

  lemma {:induction false} ExpectedSame(s: Sys, t: Sys, ids: seq<Id>)
    requires forall i :: 0 <= i < |ids| ==> t.Get(ids[i]).chunks == s.Get(ids[i]).chunks
    ensures Expected(t, ids) == Expected(s, ids)
  {
    if ids != [] {
      ExpectedSame(s, t, ids[..|ids| - 1]);
    }
  }

  /** Publishing: every source is sealed and the file is their concatenation. */
  lemma PublishIsRight(s: Sys, p: Pid, proc: Proc)
    requires ProcOk(s.now, p, s.Get(proc.Home()), proc) && DrawOk(s, proc)
    requires proc.Assembling? && proc.stage.Sized? && s.Get(proc.fid).row.Some?
    ensures FinalOk(s, s.Get(proc.fid).(row := Some(s.Get(proc.fid).row.value.(completed := true))))
  {
    assert proc.sources[..|proc.lens|] == proc.sources;
    assert proc.sources[..Reach(proc)] == proc.sources;
    ExpectedLength(s, proc.sources, proc.lens);
  }

  /** Claiming: the total is the length of what will be copied. */
  lemma ClaimIsRight(s: Sys, p: Pid, proc: Proc)
    requires ProcOk(s.now, p, s.Get(proc.Home()), proc) && DrawOk(s, proc)
    requires proc.Assembling? && proc.stage.Claiming?
    ensures AllSealed(s, proc.sources) && Sum(proc.lens) == |Expected(s, proc.sources)|
  {
    assert proc.sources[..|proc.lens|] == proc.sources;
    ExpectedLength(s, proc.sources, proc.lens);
  }

  lemma HomeFinalOk(cfg: Config, s: Sys, p: Pid, choice: Choice)
    requires cfg.locking && Ok(s) && ContentOk(s) && Enabled(cfg, s, Run(p, choice))
    ensures var proc := s.procs[p];
      var cell := Step(cfg, ViewOf(s, proc), p, s.Get(proc.Home()), proc, choice).cell;
      SourcesOk(s, cell) && FinalOk(s, cell)
  {
    var proc := s.procs[p];
    var cell := s.Get(proc.Home());
    StepGuarantees(cfg, ViewOf(s, proc), p, cell, proc, choice);
    if cell.kind.Final? {
      OnlyPublishCompletes(cfg, ViewOf(s, proc), p, cell, proc, choice);
      if proc.Assembling? && proc.stage.Sized? && cell.row.Some? {
        PublishIsRight(s, p, proc);
      } else if proc.Assembling? && proc.stage.Claiming? {
        ClaimIsRight(s, p, proc);
      }
    }
  }

  lemma StepKeepsSeal(cfg: Config, s: Sys, p: Pid, choice: Choice, id: Id)
    requires cfg.locking && Ok(s) && Enabled(cfg, s, Run(p, choice)) && Sealed(s, id)
    ensures var t := Next(cfg, s, Run(p, choice));
      Sealed(t, id) && Flatten(t.Get(id).chunks) == Flatten(s.Get(id).chunks)
  {
    var proc, t := s.procs[p], Next(cfg, s, Run(p, choice));
    var home := proc.Home();
    StepKeeps(cfg, ViewOf(s, proc), p, s.Get(home), proc, choice);
    if home == id {
      StepKeepsFull(cfg, ViewOf(s, proc), p, s.Get(home), proc, choice);
    }
    forall q | q in t.procs && t.procs[q].Home() == id && t.procs[q].InFlight()
      ensures t.procs[q].req.body == []
    {
      assert q != p ==> q in s.procs && t.procs[q] == s.procs[q];
    }
  }

  lemma StepCellsKept(cfg: Config, s: Sys, p: Pid, choice: Choice)
    requires cfg.locking && Ok(s) && Enabled(cfg, s, Run(p, choice))
    ensures CellsKept(s, Next(cfg, s, Run(p, choice)))
  {
    var proc, t := s.procs[p], Next(cfg, s, Run(p, choice));
    StepGuarantees(cfg, ViewOf(s, proc), p, s.Get(proc.Home()), proc, choice);
    forall id
      ensures SealKept(s, t, id) && (s.Get(id).kind == Plain(true) ==> t.Get(id).kind == Plain(true))
    {
      if Sealed(s, id) {
        StepKeepsSeal(cfg, s, p, choice, id);
      }
    }
  }

  /** Where a step of an assembly leads. */
  lemma SelfNext(cfg: Config, s: Sys, p: Pid, choice: Choice)
    requires Enabled(cfg, s, Run(p, choice)) && s.procs[p].Assembling? && !choice.Fail?
    ensures var proc, t := s.procs[p], Next(cfg, s, Run(p, choice));
      var o := StepAssembly(cfg, ViewOf(s, proc), p, s.Get(proc.fid), proc);
      && choice.Proceed? && t.Get(proc.fid) == o.cell
      && (p in t.procs ==> o.next == Some(t.procs[p]))
      && (p in t.procs && t.procs[p].Assembling? ==> t.procs[p].fid == proc.fid && t.procs[p].sources == proc.sources)
  {
  }

  lemma SelfDrawsOn(cfg: Config, s: Sys, p: Pid, choice: Choice)
    requires cfg.locking && Ok(s) && ContentOk(s) && Enabled(cfg, s, Run(p, choice))
    requires s.procs[p].Assembling? && !choice.Fail?
    ensures var t := Next(cfg, s, Run(p, choice)); p in t.procs && t.procs[p].Assembling? ==> DrawOk(t, t.procs[p])
  {
    var proc, t := s.procs[p], Next(cfg, s, Run(p, choice));
    if p in t.procs && t.procs[p].Assembling? {
      assert SourcesOk(s, s.Get(proc.fid));
      SelfNext(cfg, s, p, choice);
      SelfDraws(cfg, s, p, proc);
      RunKeeps(cfg, s, p, choice);
      assert ProcOk(t.now, p, t.Get(proc.fid), t.procs[p]);
      StepCellsKept(cfg, s, p, choice);
      KnownDraws(s, t, t.procs[p]);
    }
  }

  lemma SelfDrawOk(cfg: Config, s: Sys, p: Pid, choice: Choice)
    requires cfg.locking && Ok(s) && ContentOk(s) && Enabled(cfg, s, Run(p, choice))
    ensures var t := Next(cfg, s, Run(p, choice)); p in t.procs ==> DrawOk(t, t.procs[p])
  {
    var t := Next(cfg, s, Run(p, choice));
    if p in t.procs && t.procs[p].Assembling? {
      SelfDrawsOn(cfg, s, p, choice);
    }
  }

  /** What is known and drawn before a step is so after it. */
  lemma KnownDraws(s: Sys, t: Sys, next: Proc)
    requires CellsKept(s, t) && next.Assembling? && Known(s, next.sources, next.lens)
    requires next.OwnsFile() ==> |next.lens| == |next.sources|
    requires Measured(t.Get(next.fid), next)
    requires Drawn(Draft(t.Get(next.fid), next), Expected(s, next.sources[..Reach(next)]), Clean(s, next.sources))
    ensures DrawOk(t, next)
  {
    var known := next.sources[..|next.lens|];
    forall i | 0 <= i < |next.lens|
      ensures Sealed(s, known[i]) && next.lens[i] == |Flatten(t.Get(next.sources[i]).chunks)|
    {
      assert Sealed(s, next.sources[i]) && SealKept(s, t, next.sources[i]);
    }
    ExpectedKept(s, t, known);
    if next.OwnsFile() {
      assert known == next.sources;
      ExpectedKept(s, t, next.sources[..Reach(next)]);
    } else {
      assert Reach(next) == 0;
    }
  }

  lemma RunKeepsFinals(cfg: Config, s: Sys, p: Pid, choice: Choice)
    requires cfg.locking && Ok(s) && ContentOk(s) && Enabled(cfg, s, Run(p, choice))
    requires CellsKept(s, Next(cfg, s, Run(p, choice)))
    ensures var t := Next(cfg, s, Run(p, choice));
      forall id :: id in t.cells ==> SourcesOk(t, t.cells[id]) && FinalOk(t, t.cells[id])
  {
    var t := Next(cfg, s, Run(p, choice));
    forall id | id in t.cells
      ensures SourcesOk(t, t.cells[id]) && FinalOk(t, t.cells[id])
    {
      if id == s.procs[p].Home() {
        HomeFinalOk(cfg, s, p, choice);
      }
      FinalKept(s, t, t.cells[id]);
    }
  }

  lemma OtherDrawOk(cfg: Config, s: Sys, p: Pid, choice: Choice, q: Pid)
    requires cfg.locking && Ok(s) && ContentOk(s) && Enabled(cfg, s, Run(p, choice)) && q in s.procs && q != p
    requires CellsKept(s, Next(cfg, s, Run(p, choice)))
    ensures DrawOk(Next(cfg, s, Run(p, choice)), s.procs[q])
  {
    var home := s.procs[p].Home();
    if s.procs[q].Home() == home {
      StepGuarantees(cfg, ViewOf(s, s.procs[p]), p, s.Get(home), s.procs[p], choice);
    }
    assert ProcOk(s.now, q, s.Get(s.procs[q].Home()), s.procs[q]);
    DrawKept(s, Next(cfg, s, Run(p, choice)), q, s.procs[q]);
  }

  lemma RunKeepsContent(cfg: Config, s: Sys, p: Pid, choice: Choice)
    requires cfg.locking && Ok(s) && ContentOk(s) && Enabled(cfg, s, Run(p, choice))
    ensures ContentOk(Next(cfg, s, Run(p, choice)))
  {
    var t := Next(cfg, s, Run(p, choice));
    StepCellsKept(cfg, s, p, choice);
    RunKeepsFinals(cfg, s, p, choice);
    SelfDrawOk(cfg, s, p, choice);
    forall q | q in t.procs && q != p
      ensures DrawOk(t, t.procs[q])
    {
      OtherDrawOk(cfg, s, p, choice, q);
    }
  }
}
