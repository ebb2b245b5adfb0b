/** The server as a state machine: requests, expiry cleanup and assembly of pending
    finals interleave at every storage call, a chunk may land torn, and the process
    may crash between any two steps. Each step touches one upload only; what it reads
    elsewhere is handed to it in a `View`. */
module Machine {
  import opened ByteStrings
  import opened PatchRules
  import opened TtlLock

  type Pid = int

  const COPY_BUFFER: nat := 1024 * 1024

  /** Without `locking`, PATCH and DELETE run unguarded (`lock_backend=None`). Only a `timely`
      server lets no request outrun the TTL of its lock. */
  datatype Config = Config(locking: bool, timely: bool, ttl: nat, limits: Limits)

  /** What an id was created as. */
  datatype Kind = Unborn | Plain(partial: bool) | Final(sources: seq<Id>)

  /** Everything stored for one id. The last four fields are history that the program
      never reads: the kind of upload, every body whose offset swap succeeded, whether
      the row of a partial was erased under an in-flight PATCH, and how often an
      assembly of this id returned a total. */
  datatype Cell = Cell(
    row: Option<Row>, file: Option<Bytes>, lock: Option<Entry>, mutex: Option<Pid>,
    kind: Kind, chunks: seq<Bytes>, overtaken: bool, returned: nat)
  {
    function Bytes(): Bytes {
      if file.Some? then file.value else []
    }

    /** `offset == upload_length`, false while the length is deferred. */
    predicate Ready() {
      row.Some? && row.value.length == Some(row.value.offset)
    }
  }

  const BLANK := Cell(None, None, None, None, Unborn, [], false, 0)

  datatype Job = PatchJob(req: PatchRequest) | DeleteJob(target: Id) {
    function Target(): Id {
      if PatchJob? then req.id else target
    }
  }

  /** Where a planned PATCH stands: the last storage call it made. */
  datatype PatchPoint = Planned | Committed | Writing | Written | Swapped | Finishing

  /** Where an assembly of a pending final stands. */
  datatype AssemblyPoint = Reading | Entering | Claiming | Claimed | Copying | Sized | Published

  /** A request between two of its storage calls. */
  datatype Proc =
    | Waiting(job: Job)
    | Holding(job: Job)
    | Patching(req: PatchRequest, plan: Plan, at: PatchPoint, landed: nat)
    | Erasing(id: Id, locked: bool, rowGone: bool)
    | Leaving(id: Id)
    | Assembling(fid: Id, sources: seq<Id>, lens: seq<nat>, stage: AssemblyPoint, started: nat, left: Bytes)
  {
    /** The upload this process works on. */
    function Home(): Id {
      match this
      case Waiting(job) => job.Target()
      case Holding(job) => job.Target()
      case Patching(req, _, _, _) => req.id
      case Erasing(id, _, _) => id
      case Leaving(id) => id
      case Assembling(fid, _, _, _, _, _) => fid
    }

    /** Holds the TTL lock of its upload. */
    predicate Locks() {
      Holding? || Patching? || Leaving? || (Erasing? && locked)
    }

    /** Holds the in-process file lock of its upload. */
    predicate OwnsFile() {
      (Patching? && at.Writing?) || (Assembling? && !stage.Reading? && !stage.Entering?)
    }

    /** A PATCH that has read its row and not yet swapped the offset. */
    predicate InFlight() {
      Patching? && !at.Swapped? && !at.Finishing?
    }

    /** Assembly that owns the claim on its final. */
    predicate Claims() {
      Assembling? && !stage.Reading? && !stage.Entering? && !stage.Claiming?
    }
  }

  /** How the next step of a process goes: on, with `n` more bytes landing, with the
      chunk hook stopping the upload, or with an exception. */
  datatype Choice = Proceed | Land(n: nat) | Stop | Fail

  /** What a step reads outside its own cell. */
  datatype View = View(now: nat, referenced: bool, crowded: bool, source: Cell)

  datatype Outcome = Outcome(cell: Cell, next: Option<Proc>)

  function Sum(ns: seq<nat>): nat {
    if ns == [] then 0 else Sum(ns[..|ns| - 1]) + ns[|ns| - 1]
  }

  /** Whether process `p` can take a step. */
  predicate Can(cfg: Config, view: View, cell: Cell, proc: Proc, choice: Choice) {
    match proc
    case Waiting(_) =>
      choice.Fail? || (choice.Proceed? && (cfg.locking ==> cfg.ttl > 0 && Free(cell.lock, view.now)))
    case Holding(_) => choice.Fail? || choice.Proceed?
    case Patching(req, _, at, landed) =>
      choice.Fail?
      || (at.Committed? && choice.Proceed? && cell.mutex.None?)
      || (at.Writing? && choice.Land? && 0 < choice.n <= |req.body| - landed)
      || (at.Writing? && choice.Proceed? && landed == |req.body|)
      || (at.Swapped? && choice.Stop?)
      || (!at.Committed? && !at.Writing? && choice.Proceed?)
    case Erasing(_, _, rowGone) => choice.Fail? || (choice.Proceed? && (rowGone ==> cell.mutex.None?))
    case Leaving(_) => choice.Proceed?
    case Assembling(_, sources, _, stage, started, left) =>
      (choice.Fail? && !stage.Published?)
      || (choice.Proceed?
          && (stage.Entering? ==> cell.mutex.None?)
          && (stage.Copying? && left == [] && started < |sources| ==> view.source.file.Some?))
  }

  /** An exception gives both locks back on the way out. */
  function Abort(cell: Cell, proc: Proc): Outcome {
    Outcome(if proc.OwnsFile() then cell.(mutex := None) else cell,
            if proc.Locks() then Some(Leaving(proc.Home())) else None)
  }

  /** Reading the row under the lock: a PATCH plans, a DELETE looks for pending finals. */
  function Begin(cfg: Config, view: View, cell: Cell, job: Job): Proc {
    var id := job.Target();
    if cell.row.None? then Leaving(id)
    else if job.DeleteJob? then
      if cell.row.value.partial && view.referenced then Leaving(id) else Erasing(id, true, false)
    else
      match PlanPatch(cfg.limits, view.now, cell.row.value, job.req)
      case Go(plan) => Patching(job.req, plan, Planned, 0)
      case Reject(_) => Leaving(id)
  }

  /** An UPDATE statement: no effect when the row is gone. */
  function Update(cell: Cell, length: Option<nat>, offset: nat, completed: bool): Cell {
    if cell.row.None? then cell
    else cell.(row := Some(cell.row.value.(length := length, offset := offset, completed := completed)))
  }

  function StepPatch(p: Pid, cell: Cell, proc: Proc, choice: Choice): Outcome
    requires proc.Patching? && (proc.at.Writing? && choice.Land? ==> choice.n <= |proc.req.body| - proc.landed)
  {
    var Patching(req, plan, at, landed) := proc;
    match at
    case Planned =>
      Outcome(if plan.commit.Some? && cell.row.Some?
              then Update(cell, plan.commit, cell.row.value.offset, cell.row.value.completed) else cell,
              Some(Patching(req, plan, Committed, 0)))
    case Committed =>
      // Opening for writing creates a missing file.
      Outcome(cell.(mutex := Some(p), file := Some(cell.Bytes())), Some(Patching(req, plan, Writing, 0)))
    case Writing =>
      if choice.Land? then
        Outcome(cell.(file := Some(WriteAt(cell.Bytes(), plan.expected + landed, req.body[landed..landed + choice.n]))),
                Some(Patching(req, plan, Writing, landed + choice.n)))
      else Outcome(cell.(mutex := None), Some(Patching(req, plan, Written, 0)))
    case Written =>
      // The conditional UPDATE of the offset; a conflict answers 409.
      if cell.row.Some? && cell.row.value.offset == plan.expected then
        Outcome(Update(cell, cell.row.value.length, plan.newOffset, cell.row.value.completed)
                  .(chunks := cell.chunks + [req.body]),
                Some(Patching(req, plan, Swapped, 0)))
      else Outcome(cell, Some(Leaving(req.id)))
    case Swapped =>
      Outcome(cell, Some(if choice.Stop? then Erasing(req.id, true, false) else Patching(req, plan, Finishing, 0)))
    case Finishing =>
      Outcome(if plan.newOffset >= plan.effective && cell.row.Some?
              then Update(cell, cell.row.value.length, cell.row.value.offset, true) else cell,
              Some(Leaving(req.id)))
  }

  /** The claim flips the deferred sentinel to the total; it may be taken again after a
      crash as long as the final is not completed. */
  predicate Claimable(cell: Cell, total: nat) {
    cell.row.Some? && !cell.row.value.completed &&
    (cell.row.value.length.None? || cell.row.value.length == Some(total))
  }

  function StepAssembly(cfg: Config, view: View, p: Pid, cell: Cell, proc: Proc): Outcome
    requires proc.Assembling?
  {
    var Assembling(fid, sources, lens, stage, started, left) := proc;
    match stage
    case Reading =>
      if |lens| < |sources| then
        if view.source.Ready() then
          Outcome(cell, Some(Assembling(fid, sources, lens + [view.source.row.value.offset], Reading, 0, [])))
        else Outcome(cell, None)
      else if cfg.limits.maxSize > 0 && Sum(lens) > cfg.limits.maxSize then
        Outcome(cell, Some(Erasing(fid, false, false)))
      else Outcome(cell, Some(Assembling(fid, sources, lens, Entering, 0, [])))
    case Entering => Outcome(cell.(mutex := Some(p)), Some(Assembling(fid, sources, lens, Claiming, 0, [])))
    case Claiming =>
      if Claimable(cell, Sum(lens)) then
        Outcome(Update(cell, Some(Sum(lens)), cell.row.value.offset, false),
                Some(Assembling(fid, sources, lens, Claimed, 0, [])))
      else Outcome(cell.(mutex := None), None)
    case Claimed =>
      // Opening with "wb" truncates.
      Outcome(cell.(file := Some([])), Some(Assembling(fid, sources, lens, Copying, 0, [])))
    case Copying =>
      if left != [] then
        var n := if |left| < COPY_BUFFER then |left| else COPY_BUFFER;
        Outcome(cell.(file := Some(cell.Bytes() + left[..n])),
                Some(Assembling(fid, sources, lens, Copying, started, left[n..])))
      else if started < |sources| then
        Outcome(cell, Some(Assembling(fid, sources, lens, Copying, started + 1, view.source.Bytes())))
      else
        Outcome(if cell.row.Some?
                then Update(cell, cell.row.value.length, |cell.Bytes()|, cell.row.value.completed) else cell,
                Some(Assembling(fid, sources, lens, Sized, 0, [])))
    case Sized =>
      Outcome(if cell.row.Some? then Update(cell, cell.row.value.length, cell.row.value.offset, true) else cell,
              Some(Assembling(fid, sources, lens, Published, 0, [])))
    case Published => Outcome(cell.(mutex := None, returned := cell.returned + 1), None)
  }

  /** An exception while copying: the claim is rolled back. */
  function Rollback(cell: Cell): Outcome {
    Outcome((if cell.row.Some? && !cell.row.value.completed
             then Update(cell, None, cell.row.value.offset, false) else cell).(mutex := None), None)
  }

  /** One step of process `p` on its cell. */
  function Step(cfg: Config, view: View, p: Pid, cell: Cell, proc: Proc, choice: Choice): Outcome
    requires Can(cfg, view, cell, proc, choice)
  {
    if choice.Fail? then if proc.Claims() then Rollback(cell) else Abort(cell, proc)
    else
      match proc
      case Waiting(job) =>
        Outcome(if cfg.locking then cell.(lock := Some(Entry(p, view.now + cfg.ttl))) else cell, Some(Holding(job)))
      case Holding(job) => Outcome(cell, Some(Begin(cfg, view, cell, job)))
      case Patching(_, _, _, _) => StepPatch(p, cell, proc, choice)
      case Erasing(id, locked, rowGone) =>
        if rowGone then Outcome(cell.(file := None), if locked then Some(Leaving(id)) else None)
        else Outcome(cell.(row := None, overtaken := cell.overtaken ||
                       (cell.row.Some? && cell.row.value.partial && view.crowded)),
                     Some(Erasing(id, locked, true)))
      case Leaving(_) => Outcome(cell.(lock := Drop(cell.lock, p)), None)
      case Assembling(_, _, _, _, _, _) => StepAssembly(cfg, view, p, cell, proc)
  }

  datatype Sys = Sys(cells: map<Id, Cell>, procs: map<Pid, Proc>, now: nat) {
    function Get(id: Id): Cell {
      if id in cells then cells[id] else BLANK
    }
  }

  const INITIAL := Sys(map[], map[], 0)

  datatype Action =
    | Create(id: Id, length: Option<nat>, body: Bytes, partial: bool, expires: Option<nat>)
    | CreateFinal(id: Id, sources: seq<Id>, expires: Option<nat>)
    | Arrive(p: Pid, proc: Proc)
    | Run(p: Pid, choice: Choice)
    | Tick(now: nat)
    | Crash(keepLocks: bool)

  /** Some unassembled final lists this upload. */
  predicate Referenced(s: Sys, id: Id) {
    exists f :: f in s.cells && s.cells[f].row.Some? &&
      !s.cells[f].row.value.completed && id in s.cells[f].row.value.sources
  }

  /** Some PATCH on this upload is between its plan and its swap. */
  predicate Crowded(s: Sys, id: Id) {
    exists q :: q in s.procs && s.procs[q].Home() == id && s.procs[q].InFlight()
  }

  /** The cell an assembly reads next: the next row, or the next file to copy. */
  function NextSource(s: Sys, proc: Proc): Cell {
    if !proc.Assembling? then BLANK
    else if proc.stage.Reading? then if |proc.lens| < |proc.sources| then s.Get(proc.sources[|proc.lens|]) else BLANK
    else if proc.started < |proc.sources| then s.Get(proc.sources[proc.started]) else BLANK
  }

  function ViewOf(s: Sys, proc: Proc): View {
    View(s.now, Referenced(s, proc.Home()), Crowded(s, proc.Home()), NextSource(s, proc))
  }

  predicate CanArrive(s: Sys, p: Pid, proc: Proc) {
    var cell := s.Get(proc.Home());
    p !in s.procs && (forall k :: k in s.cells ==> s.cells[k].lock.None? || s.cells[k].lock.value.token != p) &&
    match proc
    case Waiting(_) => true
    case Erasing(_, locked, rowGone) => !locked && !rowGone && cell.row.Some?
    case Assembling(_, sources, lens, stage, started, left) =>
      stage.Reading? && lens == [] && started == 0 && left == [] &&
      cell.row.Some? && !cell.row.value.completed && sources != [] && sources == cell.row.value.sources
    case _ => false
  }

  predicate InTime(s: Sys, proc: Proc, now: nat) {
    proc.Locks() && s.Get(proc.Home()).lock.Some? ==> now < s.Get(proc.Home()).lock.value.expires
  }

  predicate CanCreateFinal(s: Sys, id: Id, sources: seq<Id>) {
    s.Get(id).kind.Unborn? && sources != [] &&
    forall i :: 0 <= i < |sources| ==> s.Get(sources[i]).row.Some? && s.Get(sources[i]).row.value.partial
  }

  /** Which actions the program or its environment can take next. */
  predicate Enabled(cfg: Config, s: Sys, a: Action) {
    match a
    // Plain creation is one step: the id is not published before it returns. The
    // body fits the declared length; the handler itself does not check that.
    case Create(id, length, body, _, _) => s.Get(id).kind.Unborn? && (length.Some? ==> |body| <= length.value)
    // Creation of a final is one step as well.
    case CreateFinal(id, sources, _) => CanCreateFinal(s, id, sources)
    case Arrive(p, proc) => CanArrive(s, p, proc)
    case Run(p, choice) =>
      p in s.procs && Can(cfg, ViewOf(s, s.procs[p]), s.Get(s.procs[p].Home()), s.procs[p], choice)
    // On a timely server no live holder outruns its TTL.
    case Tick(now) =>
      s.now <= now && (cfg.locking && cfg.timely ==> forall p :: p in s.procs ==> InTime(s, s.procs[p], now))
    case Crash(_) => true
  }

  function Lengths(s: Sys, ids: seq<Id>): (r: seq<nat>)
    requires forall i :: 0 <= i < |ids| ==> s.Get(ids[i]).row.Some?
  {
    if ids == [] then []
    else Lengths(s, ids[..|ids| - 1]) + [s.Get(ids[|ids| - 1]).row.value.offset]
  }

  function Contents(s: Sys, ids: seq<Id>): seq<Bytes> {
    if ids == [] then [] else Contents(s, ids[..|ids| - 1]) + [s.Get(ids[|ids| - 1]).Bytes()]
  }

  function NewPlain(cell: Cell, length: Option<nat>, body: Bytes, partial: bool, expires: Option<nat>): Cell {
    cell.(row := Some(Row(length, |body|, length == Some(|body|), partial, [], expires)),
           file := Some(body), kind := Plain(partial), chunks := [body])
  }

  /** A final over complete partials is assembled at once, otherwise it is born pending. */
  function NewFinal(s: Sys, cell: Cell, sources: seq<Id>, expires: Option<nat>): Cell
    requires forall i :: 0 <= i < |sources| ==> s.Get(sources[i]).row.Some?
  {
    if forall i :: 0 <= i < |sources| ==> s.Get(sources[i]).Ready() then
      var total := Sum(Lengths(s, sources));
      cell.(row := Some(Row(Some(total), total, true, false, sources, expires)),
             file := Some(Flatten(Contents(s, sources))), kind := Final(sources))
    else cell.(row := Some(Row(None, 0, false, false, sources, expires)), file := Some([]), kind := Final(sources))
  }

  function Put(s: Sys, id: Id, cell: Cell): Sys {
    s.(cells := s.cells[id := cell])
  }

  function Schedule(s: Sys, p: Pid, next: Option<Proc>): Sys {
    s.(procs := if next.Some? then s.procs[p := next.value] else s.procs - {p})
  }

  function Next(cfg: Config, s: Sys, a: Action): Sys
    requires Enabled(cfg, s, a)
  {
    match a
    case Create(id, length, body, partial, expires) => Put(s, id, NewPlain(s.Get(id), length, body, partial, expires))
    case CreateFinal(id, sources, expires) => Put(s, id, NewFinal(s, s.Get(id), sources, expires))
    case Arrive(p, proc) => Schedule(s, p, Some(proc))
    case Run(p, choice) =>
      var proc := s.procs[p];
      var o := Step(cfg, ViewOf(s, proc), p, s.Get(proc.Home()), proc, choice);
      Schedule(Put(s, proc.Home(), o.cell), p, o.next)
    case Tick(now) => s.(now := now)
    case Crash(keepLocks) =>
      Sys(map id | id in s.cells :: s.cells[id].(mutex := None, lock := if keepLocks then s.cells[id].lock else None),
          map[], s.now)
  }

  /** A run is a sequence of actions, each enabled where it is taken. */
  ghost predicate Runs(cfg: Config, s: Sys, run: seq<Action>)
    decreases |run|
  {
    run == [] || (Enabled(cfg, s, run[0]) && Runs(cfg, Next(cfg, s, run[0]), run[1..]))
  }

  function After(cfg: Config, s: Sys, run: seq<Action>): Sys
    requires Runs(cfg, s, run)
    decreases |run|
  {
    if run == [] then s else After(cfg, Next(cfg, s, run[0]), run[1..])
  }
}
