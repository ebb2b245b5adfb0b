/** What every step keeps when PATCH and DELETE run under the TTL lock. */
module Serial {
  import opened ByteStrings
  import opened PatchRules
  import opened Machine

  /** A live non-final upload: the committed bytes are exactly the accepted chunks, and
      torn leftovers past the offset never reach beyond the declared length. */
  ghost predicate PlainOk(row: Row, file: Bytes, chunks: seq<Bytes>) {
    && row.offset <= |file|
    && file[..row.offset] == Flatten(chunks)
    && (row.length.Some? ==> |file| <= row.length.value)
    && (row.length.None? ==> |file| == row.offset && !row.completed)
    && (row.completed ==> row.length == Some(row.offset))
  }

  ghost predicate CellOk(cell: Cell) {
    && cell.returned <= 1
    && (cell.kind.Unborn? ==> cell.returned == 0 && !cell.overtaken && cell.row.None?)
    && (cell.row.Some? ==>
          cell.file.Some? && !cell.overtaken &&
          (cell.returned == 1 ==> cell.row.value.completed) &&
          match cell.kind
          case Unborn => true
          case Plain(partial) =>
            cell.row.value.sources == [] && cell.row.value.partial == partial &&
            PlainOk(cell.row.value, cell.file.value, cell.chunks)
          case Final(sources) => cell.row.value.sources == sources && sources != [] && !cell.row.value.partial)
  }

  /** How much of the body this PATCH has put into the file. */
  function Landed(proc: Proc): nat
    requires proc.Patching?
  {
    if proc.at.Writing? then proc.landed
    else if proc.at.Planned? || proc.at.Committed? then 0 else |proc.req.body|
  }

  ghost predicate PatchOk(cell: Cell, proc: Proc)
    requires proc.Patching?
  {
    var Patching(req, plan, at, landed) := proc;
    && cell.kind.Plain? && req.offset == Number(plan.expected)
    && plan.newOffset == plan.expected + |req.body| <= plan.effective
    && (plan.commit.Some? ==> plan.commit.value == plan.effective)
    && Landed(proc) <= |req.body|
    && (cell.row.None? && proc.InFlight() ==> cell.overtaken || !cell.kind.partial)
    && (cell.row.Some? ==>
          && !cell.row.value.completed
          && (cell.row.value.length ==
                if at.Planned? && plan.commit.Some? then None else Some(plan.effective))
          && cell.row.value.offset == (if proc.InFlight() then plan.expected else plan.newOffset)
          && cell.file.Some?
          && plan.expected + Landed(proc) <= |cell.file.value|
          && cell.file.value[plan.expected..plan.expected + Landed(proc)] == req.body[..Landed(proc)])
  }

  ghost predicate AssemblyOk(cell: Cell, proc: Proc)
    requires proc.Assembling?
  {
    var Assembling(_, sources, lens, stage, started, _) := proc;
    && cell.kind == Final(sources)
    && |lens| <= |sources| && started <= |sources|
    && (!stage.Reading? ==> |lens| == |sources|)
    && (stage.Copying? || stage.Sized? || stage.Published? ==> cell.file.Some?)
    && (proc.Claims() ==> cell.returned == 0)
    && (proc.Claims() && cell.row.Some? ==>
          cell.row.value.length == Some(Sum(lens)) && cell.row.value.completed == stage.Published?)
  }

  ghost predicate ProcOk(now: nat, p: Pid, cell: Cell, proc: Proc) {
    && (proc.Locks() ==> cell.lock.Some? && cell.lock.value.token == p && now < cell.lock.value.expires)
    && (proc.OwnsFile() ==> cell.mutex == Some(p))
    && (proc.Patching? ==> PatchOk(cell, proc))
    && (proc.Assembling? ==> AssemblyOk(cell, proc))
    && (proc.Erasing? ==> !cell.kind.Unborn? && (proc.rowGone ==> cell.row.None?))
  }

  ghost predicate OutcomeOk(now: nat, p: Pid, home: Id, o: Outcome) {
    CellOk(o.cell) && (o.next.Some? ==> o.next.value.Home() == home && ProcOk(now, p, o.cell, o.next.value))
  }

  /** More bytes of the body land; the committed prefix stays. */
  lemma LandBytes(row: Row, file: Bytes, chunks: seq<Bytes>, body: Bytes, at: nat, k: nat, n: nat)
    requires PlainOk(row, file, chunks) && row.offset == at && row.length.Some? && at + |body| <= row.length.value
    requires at + k <= |file| && k + n <= |body| && file[at..at + k] == body[..k]
    ensures var after := WriteAt(file, at + k, body[k..k + n]);
      && PlainOk(row, after, chunks)
      && at + k + n <= |after| && after[at..at + k + n] == body[..k + n]
  {
    WriteKeepsPrefix(file, at + k, body[k..k + n], at);
    WriteExtends(file, at, body, k, n);
  }

  /** What a PATCH has put into the file after one more write. */
  function AfterWrite(file: Bytes, proc: Proc, n: nat): Bytes
    requires proc.Patching? && n <= |proc.req.body| - proc.landed
  {
    WriteAt(file, proc.plan.expected + proc.landed, proc.req.body[proc.landed..proc.landed + n])
  }

  lemma LandWritten(p: Pid, now: nat, cell: Cell, proc: Proc, n: nat)
    requires CellOk(cell) && proc.Patching? && proc.at.Writing? && ProcOk(now, p, cell, proc) && cell.row.Some?
    requires n <= |proc.req.body| - proc.landed
    ensures var at, landed, after := proc.plan.expected, proc.landed + n, AfterWrite(cell.file.value, proc, n);
      && PlainOk(cell.row.value, after, cell.chunks)
      && at + landed <= |after| && after[at..at + landed] == proc.req.body[..landed]
  {
    LandBytes(cell.row.value, cell.file.value, cell.chunks, proc.req.body, proc.plan.expected, proc.landed, n);
  }

  /** Where a landing write leads. */
  lemma LandNext(p: Pid, cell: Cell, proc: Proc, n: nat)
    requires proc.Patching? && proc.at.Writing? && n <= |proc.req.body| - proc.landed
    ensures StepPatch(p, cell, proc, Land(n)) ==
      Outcome(cell.(file := Some(AfterWrite(cell.Bytes(), proc, n))),
              Some(Patching(proc.req, proc.plan, Writing, proc.landed + n)))
  {
  }

  /** A write that lands after the upload is gone. */
  lemma LandGone(p: Pid, now: nat, cell: Cell, proc: Proc, choice: Choice)
    requires CellOk(cell) && proc.Patching? && proc.at.Writing? && ProcOk(now, p, cell, proc) && cell.row.None?
    requires choice.Land? && choice.n <= |proc.req.body| - proc.landed
    ensures OutcomeOk(now, p, proc.Home(), StepPatch(p, cell, proc, choice))
  {
  }

  /** The invariants after a write, from what they say about the bytes. */
  lemma LandOutcome(p: Pid, now: nat, cell: Cell, proc: Proc, after: Bytes, landed: nat)
    requires CellOk(cell) && proc.Patching? && proc.at.Writing? && ProcOk(now, p, cell, proc) && cell.row.Some?
    requires proc.landed <= landed <= |proc.req.body| && PlainOk(cell.row.value, after, cell.chunks)
    requires proc.plan.expected + landed <= |after|
    requires after[proc.plan.expected..proc.plan.expected + landed] == proc.req.body[..landed]
    ensures CellOk(cell.(file := Some(after)))
    ensures ProcOk(now, p, cell.(file := Some(after)), Patching(proc.req, proc.plan, Writing, landed))
  {
  }

  lemma LandAlive(p: Pid, now: nat, cell: Cell, proc: Proc, choice: Choice)
    requires CellOk(cell) && proc.Patching? && proc.at.Writing? && ProcOk(now, p, cell, proc) && cell.row.Some?
    requires choice.Land? && choice.n <= |proc.req.body| - proc.landed
    ensures OutcomeOk(now, p, proc.Home(), StepPatch(p, cell, proc, choice))
  {
    LandNext(p, cell, proc, choice.n);
    LandWritten(p, now, cell, proc, choice.n);
    LandOutcome(p, now, cell, proc, AfterWrite(cell.file.value, proc, choice.n), proc.landed + choice.n);
  }

  lemma LandKeeps(p: Pid, now: nat, cell: Cell, proc: Proc, choice: Choice)
    requires CellOk(cell) && proc.Patching? && proc.at.Writing? && ProcOk(now, p, cell, proc)
    requires choice.Land? && choice.n <= |proc.req.body| - proc.landed
    ensures OutcomeOk(now, p, proc.Home(), StepPatch(p, cell, proc, choice))
  {
    if cell.row.Some? {
      LandAlive(p, now, cell, proc, choice);
    } else {
      LandGone(p, now, cell, proc, choice);
    }
  }

  /** A won swap accepts the body: the committed bytes grow by exactly it. */
  lemma SwapKeeps(p: Pid, now: nat, cell: Cell, proc: Proc, choice: Choice)
    requires CellOk(cell) && proc.Patching? && proc.at.Written? && ProcOk(now, p, cell, proc)
    ensures OutcomeOk(now, p, proc.Home(), StepPatch(p, cell, proc, choice))
  {
    if cell.row.Some? {
      SliceJoin(cell.file.value, proc.plan.expected, proc.plan.newOffset);
      FlattenSnoc(cell.chunks, proc.req.body);
    }
  }

  /** Committing the length and opening the file change no committed byte. */
  lemma PrepareKeeps(p: Pid, now: nat, cell: Cell, proc: Proc, choice: Choice)
    requires CellOk(cell) && proc.Patching? && (proc.at.Planned? || proc.at.Committed?) && ProcOk(now, p, cell, proc)
    ensures OutcomeOk(now, p, proc.Home(), StepPatch(p, cell, proc, choice))
  {
  }

  lemma CloseKeeps(p: Pid, now: nat, cell: Cell, proc: Proc, choice: Choice)
    requires CellOk(cell) && proc.Patching? && proc.at.Writing? && ProcOk(now, p, cell, proc)
    requires !choice.Land? && proc.landed == |proc.req.body|
    ensures OutcomeOk(now, p, proc.Home(), StepPatch(p, cell, proc, choice))
  {
  }

  lemma FinishKeeps(p: Pid, now: nat, cell: Cell, proc: Proc, choice: Choice)
    requires CellOk(cell) && proc.Patching? && (proc.at.Swapped? || proc.at.Finishing?) && ProcOk(now, p, cell, proc)
    ensures OutcomeOk(now, p, proc.Home(), StepPatch(p, cell, proc, choice))
  {
  }

  lemma PatchKeeps(p: Pid, now: nat, cell: Cell, proc: Proc, choice: Choice)
    requires CellOk(cell) && proc.Patching? && ProcOk(now, p, cell, proc)
    requires proc.at.Writing? ==>
               if choice.Land? then choice.n <= |proc.req.body| - proc.landed else proc.landed == |proc.req.body|
    ensures OutcomeOk(now, p, proc.Home(), StepPatch(p, cell, proc, choice))
  {
    match proc.at
    case Planned => PrepareKeeps(p, now, cell, proc, choice);
    case Committed => PrepareKeeps(p, now, cell, proc, choice);
    case Writing =>
      if choice.Land? { LandKeeps(p, now, cell, proc, choice); } else { CloseKeeps(p, now, cell, proc, choice); }
    case Written => SwapKeeps(p, now, cell, proc, choice);
    case Swapped => FinishKeeps(p, now, cell, proc, choice);
    case Finishing => FinishKeeps(p, now, cell, proc, choice);
  }

  lemma CopyKeeps(cfg: Config, view: View, p: Pid, cell: Cell, proc: Proc)
    requires CellOk(cell) && proc.Assembling? && proc.stage.Copying? && ProcOk(view.now, p, cell, proc)
    ensures OutcomeOk(view.now, p, proc.Home(), StepAssembly(cfg, view, p, cell, proc))
  {
  }

  lemma AssemblyKeeps(cfg: Config, view: View, p: Pid, cell: Cell, proc: Proc)
    requires CellOk(cell) && proc.Assembling? && ProcOk(view.now, p, cell, proc)
    ensures OutcomeOk(view.now, p, proc.Home(), StepAssembly(cfg, view, p, cell, proc))
  {
    if proc.stage.Copying? {
      CopyKeeps(cfg, view, p, cell, proc);
    }
  }

  lemma StepKeeps(cfg: Config, view: View, p: Pid, cell: Cell, proc: Proc, choice: Choice)
    requires cfg.locking && Can(cfg, view, cell, proc, choice)
    requires CellOk(cell) && ProcOk(view.now, p, cell, proc)
    ensures OutcomeOk(view.now, p, proc.Home(), Step(cfg, view, p, cell, proc, choice))
  {
    if choice.Fail? {
    } else if proc.Patching? {
      PatchKeeps(p, view.now, cell, proc, choice);
    } else if proc.Assembling? {
      AssemblyKeeps(cfg, view, p, cell, proc);
    }
  }

  /** What a step may do to the cell behind the back of another process: it respects
      the other's locks, and a row never comes back. */
  ghost predicate Guarantee(now: nat, p: Pid, cell: Cell, after: Cell) {
    && after.kind == cell.kind
    && (cell.row.None? ==> after.row.None?)
    && (cell.overtaken ==> after.overtaken)
    // Somebody else's live lock stays, and under it the row can only vanish.
    && (cell.lock.Some? && now < cell.lock.value.expires && cell.lock.value.token != p ==>
          after.lock == cell.lock &&
          (cell.kind.Plain? ==> after.row.None? || (after.row == cell.row && after.file == cell.file)))
    // Somebody else's file lock stays, and under it a file cannot vanish.
    && (cell.mutex.Some? && cell.mutex.value != p ==>
          after.mutex == cell.mutex && (cell.file.Some? ==> after.file.Some?) && after.returned == cell.returned &&
          (cell.kind.Final? ==>
             after.file == cell.file && (after.row.None? || after.row == cell.row)))
  }

  lemma StepGuarantees(cfg: Config, view: View, p: Pid, cell: Cell, proc: Proc, choice: Choice)
    requires cfg.locking && Can(cfg, view, cell, proc, choice)
    requires CellOk(cell) && ProcOk(view.now, p, cell, proc)
    ensures Guarantee(view.now, p, cell, Step(cfg, view, p, cell, proc, choice).cell)
  {
  }

  lemma OthersKeep(now: nat, p: Pid, cell: Cell, after: Cell, q: Pid, other: Proc)
    requires CellOk(cell) && ProcOk(now, q, cell, other) && q != p && Guarantee(now, p, cell, after)
    requires cell.row.Some? && after.row.None? && cell.row.value.partial && other.InFlight() ==> after.overtaken
    ensures ProcOk(now, q, after, other)
  {
  }
}
