/** The state machine and the handlers describe one server: a request that nobody interrupts
    does step by step what its handler does at once. */
module Alone {
  import opened ByteStrings
  import opened PatchRules
  import opened Machine
  import opened Handlers
  import SqliteStorage
  import Repair

  /** The steps of one process on its upload, while nothing else happens. */
  predicate CanGo(cfg: Config, view: View, p: Pid, cell: Cell, proc: Proc, choices: seq<Choice>)
    decreases |choices|
  {
    choices == [] ||
    (Can(cfg, view, cell, proc, choices[0]) &&
     var o := Step(cfg, view, p, cell, proc, choices[0]);
     if o.next.Some? then CanGo(cfg, view, p, o.cell, o.next.value, choices[1..]) else |choices| == 1)
  }

  function Go(cfg: Config, view: View, p: Pid, cell: Cell, proc: Proc, choices: seq<Choice>): Outcome
    requires CanGo(cfg, view, p, cell, proc, choices)
    decreases |choices|
  {
    if choices == [] then Outcome(cell, Some(proc))
    else
      var o := Step(cfg, view, p, cell, proc, choices[0]);
      if o.next.Some? then Go(cfg, view, p, o.cell, o.next.value, choices[1..]) else o
  }

  lemma GoCons(cfg: Config, view: View, p: Pid, cell: Cell, proc: Proc, first: Choice, rest: seq<Choice>)
    requires Can(cfg, view, cell, proc, first)
    requires var o := Step(cfg, view, p, cell, proc, first);
      o.next.Some? && CanGo(cfg, view, p, o.cell, o.next.value, rest)
    ensures var o := Step(cfg, view, p, cell, proc, first);
      && CanGo(cfg, view, p, cell, proc, [first] + rest)
      && Go(cfg, view, p, cell, proc, [first] + rest) == Go(cfg, view, p, o.cell, o.next.value, rest)
  {
    assert ([first] + rest)[1..] == rest;
  }

  /** The end of a PATCH: swap, hook, mark, and the lock is next. */
  lemma SwapAlone(cfg: Config, view: View, p: Pid, cell: Cell, req: PatchRequest, plan: Plan)
    requires cell.row.Some? && cell.row.value.offset == plan.expected && !cell.row.value.completed
    ensures var proc := Patching(req, plan, Written, 0);
      && CanGo(cfg, view, p, cell, proc, [Proceed, Proceed, Proceed])
      && var row := cell.row.value.(offset := plan.newOffset, completed := plan.newOffset >= plan.effective);
         Go(cfg, view, p, cell, proc, [Proceed, Proceed, Proceed]) ==
         Outcome(cell.(row := Some(row), chunks := cell.chunks + [req.body]), Some(Leaving(req.id)))
  {
    var swapped := Step(cfg, view, p, cell, Patching(req, plan, Written, 0), Proceed).cell;
    var marked := Step(cfg, view, p, swapped, Patching(req, plan, Finishing, 0), Proceed).cell;
    assert CanGo(cfg, view, p, marked, Leaving(req.id), []);
    GoCons(cfg, view, p, swapped, Patching(req, plan, Finishing, 0), Proceed, []);
    GoCons(cfg, view, p, swapped, Patching(req, plan, Swapped, 0), Proceed, [Proceed]);
    GoCons(cfg, view, p, cell, Patching(req, plan, Written, 0), Proceed, [Proceed, Proceed]);
  }

  const LAST: seq<Choice> := [Proceed, Proceed, Proceed]

  /** How a write of the whole body goes; a body without bytes has nothing to land. */
  function Landing(body: Bytes): seq<Choice> {
    (if body == [] then [] else [Land(|body|)]) + ([Proceed] + LAST)
  }

  /** The write under the file lock, and what follows. */
  lemma WriteAlone(cfg: Config, view: View, p: Pid, cell: Cell, req: PatchRequest, plan: Plan)
    requires cell.row.Some? && cell.row.value.offset == plan.expected && !cell.row.value.completed
    requires cell.file.Some? && cell.mutex == Some(p)
    ensures var proc := Patching(req, plan, Writing, 0);
      && CanGo(cfg, view, p, cell, proc, Landing(req.body))
      && var row := cell.row.value.(offset := plan.newOffset, completed := plan.newOffset >= plan.effective);
         var file := WriteAt(cell.file.value, plan.expected, req.body);
         Go(cfg, view, p, cell, proc, Landing(req.body)) ==
         Outcome(cell.(row := Some(row), file := Some(file), mutex := None, chunks := cell.chunks + [req.body]),
                 Some(Leaving(req.id)))
  {
    var n, file := |req.body|, WriteAt(cell.file.value, plan.expected, req.body);
    var landed := cell.(file := Some(file));
    var closed := landed.(mutex := None);
    SwapAlone(cfg, view, p, closed, req, plan);
    assert Step(cfg, view, p, landed, Patching(req, plan, Writing, n), Proceed) ==
           Outcome(closed, Some(Patching(req, plan, Written, 0)));
    GoCons(cfg, view, p, landed, Patching(req, plan, Writing, n), Proceed, LAST);
    if req.body != [] {
      assert req.body[0..0 + n] == req.body;
      assert Step(cfg, view, p, cell, Patching(req, plan, Writing, 0), Land(n)) ==
             Outcome(landed, Some(Patching(req, plan, Writing, n)));
      GoCons(cfg, view, p, cell, Patching(req, plan, Writing, 0), Land(n), [Proceed] + LAST);
    } else {
      assert [] + ([Proceed] + LAST) == [Proceed] + LAST;
    }
  }

  /** A PATCH that has the lock to itself does to its upload exactly what the handler does. */
  lemma PatchAlone(cfg: Config, view: View, p: Pid, cell: Cell, req: PatchRequest)
    requires cell.row.Some? && cell.file.Some? && cell.mutex.None?
    requires PlanPatch(cfg.limits, view.now, cell.row.value, req).Go?
    ensures var choices := [Proceed] + ([Proceed] + ([Proceed] + Landing(req.body)));
      var plan := PlanPatch(cfg.limits, view.now, cell.row.value, req).plan;
      var after := PatchedTo(Stored(cell.row.value, cell.file.value), req, plan);
      && CanGo(cfg, view, p, cell, Holding(PatchJob(req)), choices)
      && Go(cfg, view, p, cell, Holding(PatchJob(req)), choices) ==
         Outcome(cell.(row := Some(after.row), file := Some(after.file), chunks := cell.chunks + [req.body]),
                 Some(Leaving(req.id)))
  {
    var plan := PlanPatch(cfg.limits, view.now, cell.row.value, req).plan;
    var committed := cell.(row := Some(cell.row.value.(length := Some(plan.effective))));
    var opening := committed.(mutex := Some(p));
    WriteAlone(cfg, view, p, opening, req, plan);
    assert Step(cfg, view, p, committed, Patching(req, plan, Committed, 0), Proceed) ==
           Outcome(opening, Some(Patching(req, plan, Writing, 0)));
    GoCons(cfg, view, p, committed, Patching(req, plan, Committed, 0), Proceed, Landing(req.body));
    assert Step(cfg, view, p, cell, Patching(req, plan, Planned, 0), Proceed) ==
           Outcome(committed, Some(Patching(req, plan, Committed, 0)));
    GoCons(cfg, view, p, cell, Patching(req, plan, Planned, 0), Proceed, [Proceed] + Landing(req.body));
    assert Step(cfg, view, p, cell, Holding(PatchJob(req)), Proceed) ==
           Outcome(cell, Some(Patching(req, plan, Planned, 0)));
    GoCons(cfg, view, p, cell, Holding(PatchJob(req)), Proceed, [Proceed] + ([Proceed] + Landing(req.body)));
  }

  // ---- Assembly ----

  /** What an assembly sees while its partials stay as they are. */
  function Sees(now: nat, partials: seq<Cell>, proc: Proc): View {
    View(now, false, false,
         if !proc.Assembling? then BLANK
         else if proc.stage.Reading? then if |proc.lens| < |partials| then partials[|proc.lens|] else BLANK
         else if proc.started < |partials| then partials[proc.started] else BLANK)
  }

  /** Left alone, the assembly comes to its end in `n` steps and leaves its final like this. */
  ghost predicate EndsIn(cfg: Config, now: nat, p: Pid, partials: seq<Cell>, cell: Cell, proc: Proc, end: Cell, n: nat)
    decreases n
  {
    && n > 0 && proc.Assembling? && Can(cfg, Sees(now, partials, proc), cell, proc, Proceed)
    && var o := Step(cfg, Sees(now, partials, proc), p, cell, proc, Proceed);
       if o.next.None? then o.cell == end else EndsIn(cfg, now, p, partials, o.cell, o.next.value, end, n - 1)
  }

  ghost predicate Ends(cfg: Config, now: nat, p: Pid, partials: seq<Cell>, cell: Cell, proc: Proc, end: Cell) {
    exists n: nat :: EndsIn(cfg, now, p, partials, cell, proc, end, n)
  }

  /** One step nearer to the end. */
  lemma Nearer(cfg: Config, now: nat, p: Pid, partials: seq<Cell>, cell: Cell, proc: Proc, after: Cell, next: Proc,
      end: Cell)
    requires proc.Assembling? && Can(cfg, Sees(now, partials, proc), cell, proc, Proceed)
    requires StepAssembly(cfg, Sees(now, partials, proc), p, cell, proc) == Outcome(after, Some(next))
    requires Ends(cfg, now, p, partials, after, next, end)
    ensures Ends(cfg, now, p, partials, cell, proc, end)
  {
    var n: nat :| EndsIn(cfg, now, p, partials, after, next, end, n);
    assert EndsIn(cfg, now, p, partials, cell, proc, end, n + 1);
  }

  /** The bytes of the partials from the k-th on. */
  function BytesFrom(partials: seq<Cell>, k: nat): Bytes
    requires k <= |partials|
    decreases |partials| - k
  {
    if k == |partials| then [] else partials[k].Bytes() + BytesFrom(partials, k + 1)
  }

  /** The final when `content` has been copied and published. */
  function Published(cell: Cell, content: Bytes): Cell
    requires cell.row.Some?
  {
    cell.(file := Some(content), row := Some(cell.row.value.(offset := |content|, completed := true)),
          mutex := None, returned := cell.returned + 1)
  }

  lemma PublishAlone(cfg: Config, now: nat, p: Pid, partials: seq<Cell>, cell: Cell, fid: Id, sources: seq<Id>,
      lens: seq<nat>)
    requires cell.row.Some? && !cell.row.value.completed && cell.file.Some?
    requires |partials| == |sources|
    ensures Ends(cfg, now, p, partials, cell, Assembling(fid, sources, lens, Copying, |sources|, []),
                 Published(cell, cell.Bytes()))
  {
    var sized := cell.(row := Some(cell.row.value.(offset := |cell.Bytes()|)));
    var marked := sized.(row := Some(sized.row.value.(completed := true)));
    var end := Published(cell, cell.Bytes());
    var publishing := Assembling(fid, sources, lens, AssemblyPoint.Published, 0, []);
    assert EndsIn(cfg, now, p, partials, marked, publishing, end, 1);
    Nearer(cfg, now, p, partials, sized, Assembling(fid, sources, lens, Sized, 0, []), marked, publishing, end);
    Nearer(cfg, now, p, partials, cell, Assembling(fid, sources, lens, Copying, |sources|, []), sized,
           Assembling(fid, sources, lens, Sized, 0, []), end);
  }

  lemma OneBuffer(file: Bytes, left: Bytes, rest: Bytes, n: nat)
    requires n <= |left|
    ensures file + left[..n] + left[n..] + rest == file + left + rest
  {
    assert left[..n] + left[n..] == left;
    assert file + left[..n] + left[n..] == file + left;
  }

  lemma OneFile(file: Bytes, bytes: Bytes, rest: Bytes)
    ensures file + bytes + rest == file + [] + (bytes + rest)
  {
  }

  /** The copy loops add exactly what is left of the open partial and all later partials. */
  lemma CopyAlone(cfg: Config, now: nat, p: Pid, partials: seq<Cell>, cell: Cell, fid: Id, sources: seq<Id>,
      lens: seq<nat>, started: nat, left: Bytes, whole: Bytes)
    requires cell.row.Some? && !cell.row.value.completed && cell.file.Some?
    requires |partials| == |sources| && started <= |sources|
    requires forall i :: 0 <= i < |partials| ==> partials[i].file.Some?
    requires whole == cell.file.value + left + BytesFrom(partials, started)
    ensures Ends(cfg, now, p, partials, cell, Assembling(fid, sources, lens, Copying, started, left),
                 Published(cell, whole))
    decreases |sources| - started, |left|
  {
    var proc := Assembling(fid, sources, lens, Copying, started, left);
    if left != [] {
      var n := if |left| < COPY_BUFFER then |left| else COPY_BUFFER;
      var after := cell.(file := Some(cell.file.value + left[..n]));
      OneBuffer(cell.file.value, left, BytesFrom(partials, started), n);
      CopyAlone(cfg, now, p, partials, after, fid, sources, lens, started, left[n..], whole);
      var next := Assembling(fid, sources, lens, Copying, started, left[n..]);
      Nearer(cfg, now, p, partials, cell, proc, after, next, Published(cell, whole));
    } else if started < |sources| {
      var bytes := partials[started].Bytes();
      OneFile(cell.file.value, bytes, BytesFrom(partials, started + 1));
      CopyAlone(cfg, now, p, partials, cell, fid, sources, lens, started + 1, bytes, whole);
      var next := Assembling(fid, sources, lens, Copying, started + 1, bytes);
      Nearer(cfg, now, p, partials, cell, proc, cell, next, Published(cell, whole));
    } else {
      PublishAlone(cfg, now, p, partials, cell, fid, sources, lens);
      assert whole == cell.Bytes();
    }
  }

  predicate Readable(partials: seq<Cell>, lens: seq<nat>) {
    && |lens| <= |partials|
    && (forall i :: 0 <= i < |partials| ==> partials[i].Ready() && partials[i].file.Some?)
    && (forall i :: 0 <= i < |lens| ==> lens[i] == partials[i].row.value.offset)
  }

  predicate Unlimited(cfg: Config, total: nat) {
    cfg.limits.maxSize > 0 ==> total <= cfg.limits.maxSize
  }

  /** The final with the claim on it. */
  function Claim(cell: Cell, total: nat): Cell
    requires cell.row.Some?
  {
    cell.(row := Some(cell.row.value.(length := Some(total))))
  }

  /** From the last length read: lock, claim, truncate, copy. */
  lemma ClaimAlone(cfg: Config, now: nat, p: Pid, partials: seq<Cell>, cell: Cell, fid: Id, sources: seq<Id>,
      lens: seq<nat>)
    requires |lens| == |partials| == |sources| && Readable(partials, lens) && Unlimited(cfg, Sum(lens))
    requires cell.mutex.None? && Machine.Claimable(cell, Sum(lens))
    ensures Ends(cfg, now, p, partials, cell, Assembling(fid, sources, lens, Reading, 0, []),
                 Published(Claim(cell, Sum(lens)), BytesFrom(partials, 0)))
  {
    var end := Published(Claim(cell, Sum(lens)), BytesFrom(partials, 0));
    var locked := cell.(mutex := Some(p));
    var claimed := Claim(locked, Sum(lens));
    var opening := claimed.(file := Some([]));
    assert [] + [] + BytesFrom(partials, 0) == BytesFrom(partials, 0);
    CopyAlone(cfg, now, p, partials, opening, fid, sources, lens, 0, [], BytesFrom(partials, 0));
    Nearer(cfg, now, p, partials, claimed, Assembling(fid, sources, lens, Claimed, 0, []), opening,
           Assembling(fid, sources, lens, Copying, 0, []), end);
    Nearer(cfg, now, p, partials, locked, Assembling(fid, sources, lens, Claiming, 0, []), claimed,
           Assembling(fid, sources, lens, Claimed, 0, []), end);
    Nearer(cfg, now, p, partials, cell, Assembling(fid, sources, lens, Entering, 0, []), locked,
           Assembling(fid, sources, lens, Claiming, 0, []), end);
    Nearer(cfg, now, p, partials, cell, Assembling(fid, sources, lens, Reading, 0, []), cell,
           Assembling(fid, sources, lens, Entering, 0, []), end);
  }

  function Offsets(partials: seq<Cell>): (lens: seq<nat>)
    requires forall i :: 0 <= i < |partials| ==> partials[i].row.Some?
    ensures |lens| == |partials| && forall i :: 0 <= i < |lens| ==> lens[i] == partials[i].row.value.offset
  {
    seq<nat>(|partials|, i requires 0 <= i < |partials| => partials[i].row.value.offset)
  }

  lemma {:induction false} ReadAlone(cfg: Config, now: nat, p: Pid, partials: seq<Cell>, cell: Cell, fid: Id,
      sources: seq<Id>, k: nat)
    requires k <= |partials| == |sources| && Readable(partials, [])
    requires cell.mutex.None? && Unlimited(cfg, Sum(Offsets(partials)))
    requires Machine.Claimable(cell, Sum(Offsets(partials)))
    ensures Ends(cfg, now, p, partials, cell, Assembling(fid, sources, Offsets(partials)[..k], Reading, 0, []),
                 Published(Claim(cell, Sum(Offsets(partials))), BytesFrom(partials, 0)))
    decreases |partials| - k
  {
    var lens := Offsets(partials);
    if k == |partials| {
      assert lens[..k] == lens;
      ClaimAlone(cfg, now, p, partials, cell, fid, sources, lens);
    } else {
      ReadAlone(cfg, now, p, partials, cell, fid, sources, k + 1);
      assert lens[..k + 1] == lens[..k] + [partials[k].row.value.offset];
      Nearer(cfg, now, p, partials, cell, Assembling(fid, sources, lens[..k], Reading, 0, []), cell,
             Assembling(fid, sources, lens[..k + 1], Reading, 0, []),
             Published(Claim(cell, Sum(lens)), BytesFrom(partials, 0)));
    }
  }

  function PartialsOf(s: Sys, ids: seq<Id>): (partials: seq<Cell>)
    ensures |partials| == |ids| && forall i :: 0 <= i < |ids| ==> partials[i] == s.Get(ids[i])
  {
    seq(|ids|, i requires 0 <= i < |ids| => s.Get(ids[i]))
  }

  lemma {:induction false} SumIsTotal(s: Sys, ids: seq<Id>)
    requires Repair.DbOf(s).AllReady(ids)
    ensures forall i :: 0 <= i < |ids| ==> PartialsOf(s, ids)[i].Ready()
    ensures Sum(Offsets(PartialsOf(s, ids))) == Repair.DbOf(s).Total(ids)
  {
    forall i | 0 <= i < |ids|
      ensures s.Get(ids[i]).Ready()
    {
      assert Repair.DbOf(s).Ready(ids[i]);
    }
    if ids != [] {
      var front := ids[..|ids| - 1];
      SumIsTotal(s, front);
      assert Offsets(PartialsOf(s, ids))[..|ids| - 1] == Offsets(PartialsOf(s, front));
    }
  }

  lemma {:induction false} BytesAreJoined(s: Sys, ids: seq<Id>, k: nat)
    requires HasFiles(Repair.DbOf(s).files, ids) && k <= |ids|
    ensures Joined(Repair.DbOf(s).files, ids[..k]) + BytesFrom(PartialsOf(s, ids), k) ==
            Joined(Repair.DbOf(s).files, ids)
    decreases |ids| - k
  {
    var files := Repair.DbOf(s).files;
    if k == |ids| {
      assert ids[..k] == ids;
    } else {
      BytesAreJoined(s, ids, k + 1);
      assert ids[..k + 1] == ids[..k] + [ids[k]];
      JoinedSnoc(files, ids[..k], ids[k]);
    }
  }

  /** An assembly that nobody interrupts does exactly what the storage's method does. */
  lemma AssemblyAlone(cfg: Config, s: Sys, p: Pid, fid: Id)
    requires var db := Repair.DbOf(s);
      && db.Pending(fid) && db.AllReady(db.rows[fid].sources) && HasFiles(db.files, db.rows[fid].sources)
      && db.Claimable(fid, db.Total(db.rows[fid].sources)) && Unlimited(cfg, db.Total(db.rows[fid].sources))
    requires s.Get(fid).mutex.None?
    ensures var db, cell := Repair.DbOf(s), s.Get(fid);
      var done := SqliteStorage.Assemble(db, fid, SizeLimit(cfg.limits));
      && done.total == Some(db.Total(db.rows[fid].sources)) && fid in done.db.rows && fid in done.db.files
      && Ends(cfg, s.now, p, PartialsOf(s, db.rows[fid].sources), cell,
              Assembling(fid, db.rows[fid].sources, [], Reading, 0, []),
              cell.(row := Some(done.db.rows[fid]), file := Some(done.db.files[fid]), returned := cell.returned + 1))
  {
    var db, cell := Repair.DbOf(s), s.Get(fid);
    var sources := db.rows[fid].sources;
    var partials := PartialsOf(s, sources);
    SumIsTotal(s, sources);
    BytesAreJoined(s, sources, 0);
    assert Joined(db.files, sources[..0]) + BytesFrom(partials, 0) == BytesFrom(partials, 0);
    ReadAlone(cfg, s.now, p, partials, cell, fid, sources, 0);
    assert Offsets(partials)[..0] == [];
  }
}
