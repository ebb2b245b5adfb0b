/** The server refines an atomic append-only store: every sub-step of every request is
    either invisible or one atomic operation on one upload. */
module AtomicStore {
  import opened ByteStrings
  import opened PatchRules
  import opened Machine
  import opened Serial
  import opened Safety
  import opened Finals
  import opened Reachable

  /** `sources` are the partials of a final, and empty otherwise. */
  datatype Upload = Upload(bytes: Bytes, length: Option<nat>, done: bool, sources: seq<Id>)

  type Store = map<Id, Upload>

  /** Atomic operations on one upload. */
  datatype Event =
    | Skip
    | Fix(length: nat)
    | Append(body: Bytes)
    | Complete
    | Assemble(content: Bytes, total: Option<nat>)
    | Remove

  predicate Allowed(up: Upload, e: Event) {
    match e
    case Skip => true
    case Fix(length) => !up.done && up.length.None? && |up.bytes| <= length
    case Append(body) => !up.done && up.length.Some? && |up.bytes| + |body| <= up.length.value
    case Complete => !up.done && up.length == Some(|up.bytes|)
    case Assemble(_, _) => !up.done
    case Remove => true
  }

  function Apply(up: Upload, e: Event): Option<Upload> {
    match e
    case Skip => Some(up)
    case Fix(length) => Some(up.(length := Some(length)))
    case Append(body) => Some(up.(bytes := up.bytes + body))
    case Complete => Some(up.(done := true))
    case Assemble(content, total) => Some(Upload(content, total, true, up.sources))
    case Remove => None
  }

  /** The committed content: torn bytes past the offset and the half-built file of a
      pending final are not part of it. */
  function Committed(cell: Cell): Upload
    requires cell.row.Some?
  {
    var row := cell.row.value;
    if cell.kind.Final? then
      if row.completed then Upload(cell.Bytes(), row.length, true, row.sources)
      else Upload([], None, false, row.sources)
    else
      Upload(if row.offset <= |cell.Bytes()| then cell.Bytes()[..row.offset] else [], row.length, row.completed, [])
  }

  /** The atomic operation, if any, that a step performs. */
  function EventOf(cell: Cell, proc: Proc, choice: Choice): Event {
    if choice.Fail? || cell.row.None? then Skip
    else if proc.Patching? then
      if proc.at.Planned? && proc.plan.commit.Some? then Fix(proc.plan.commit.value)
      else if proc.at.Written? && cell.row.value.offset == proc.plan.expected then Append(proc.req.body)
      else if proc.at.Finishing? && proc.plan.newOffset >= proc.plan.effective then Complete
      else Skip
    else if proc.Erasing? && !proc.rowGone then Remove
    else if proc.Assembling? && proc.stage.Sized? then Assemble(cell.Bytes(), cell.row.value.length)
    else Skip
  }

  ghost predicate Refines(cell: Cell, after: Cell, e: Event) {
    if cell.row.None? then after.row.None?
    else
      && Allowed(Committed(cell), e)
      && Apply(Committed(cell), e) == if after.row.Some? then Some(Committed(after)) else None
  }

  /** Winning the swap is the atomic append. */
  lemma SwapRefines(p: Pid, now: nat, cell: Cell, proc: Proc)
    requires CellOk(cell) && proc.Patching? && proc.at.Written? && ProcOk(now, p, cell, proc)
    ensures Refines(cell, StepPatch(p, cell, proc, Proceed).cell, EventOf(cell, proc, Proceed))
  {
    if cell.row.Some? {
      SliceJoin(cell.file.value, proc.plan.expected, proc.plan.newOffset);
      assert proc.req.body[..|proc.req.body|] == proc.req.body;
    }
  }

  lemma PatchRefines(p: Pid, now: nat, cell: Cell, proc: Proc, choice: Choice)
    requires CellOk(cell) && proc.Patching? && ProcOk(now, p, cell, proc) && !choice.Fail?
    requires proc.at.Writing? && choice.Land? ==> choice.n <= |proc.req.body| - proc.landed
    ensures Refines(cell, StepPatch(p, cell, proc, choice).cell, EventOf(cell, proc, choice))
  {
    if proc.at.Written? {
      SwapRefines(p, now, cell, proc);
    } else if proc.at.Writing? && choice.Land? && cell.row.Some? {
      var k, at := proc.landed, proc.plan.expected;
      WriteKeepsPrefix(cell.file.value, at + k, proc.req.body[k..k + choice.n], at);
    }
  }

  /** Every step is invisible or one allowed atomic operation; a PATCH that appends
      appends its whole body, at the offset it was sent for. */
  lemma StepRefines(cfg: Config, view: View, p: Pid, cell: Cell, proc: Proc, choice: Choice)
    requires cfg.locking && Can(cfg, view, cell, proc, choice)
    requires CellOk(cell) && ProcOk(view.now, p, cell, proc)
    ensures Refines(cell, Step(cfg, view, p, cell, proc, choice).cell, EventOf(cell, proc, choice))
    ensures EventOf(cell, proc, choice).Append? ==>
      && proc.Patching? && proc.at.Written? && EventOf(cell, proc, choice).body == proc.req.body
      && proc.req.offset == Number(|Committed(cell).bytes|)
  {
    if proc.Patching? && !choice.Fail? {
      PatchRefines(p, view.now, cell, proc, choice);
    }
  }

  function Abstract(s: Sys): Store {
    map id | id in s.cells && s.cells[id].row.Some? :: Committed(s.cells[id])
  }

  datatype Operation = Born(id: Id, upload: Upload) | On(id: Id, event: Event) | Quiet

  predicate AllIn(store: Store, ids: seq<Id>) {
    forall i :: 0 <= i < |ids| ==> ids[i] in store
  }

  /** The bytes of the listed uploads, in order. */
  function BytesOf(store: Store, ids: seq<Id>): Bytes
    requires AllIn(store, ids)
  {
    if ids == [] then [] else BytesOf(store, ids[..|ids| - 1]) + store[ids[|ids| - 1]].bytes
  }

  /** What an assembled final may contain: as long as its sources are there, nothing but
      their bytes in order. */
  predicate Sourced(store: Store, up: Upload) {
    AllIn(store, up.sources) ==> up.bytes == BytesOf(store, up.sources) && up.length == Some(|up.bytes|)
  }

  predicate CanDo(store: Store, op: Operation) {
    match op
    case Born(id, up) => id !in store && (up.sources != [] && up.done ==> Sourced(store, up))
    case On(id, e) =>
      && id in store && Allowed(store[id], e)
      && (e.Assemble? ==> Sourced(store, Upload(e.content, e.total, true, store[id].sources)))
    case Quiet => true
  }

  function Do(store: Store, op: Operation): Store {
    match op
    case Born(id, upload) => store[id := upload]
    case On(id, e) =>
      if id !in store then store
      else if Apply(store[id], e).Some? then store[id := Apply(store[id], e).value]
      else store - {id}
    case Quiet => store
  }

  /** The atomic operation behind an action of the server. */
  function OperationOf(cfg: Config, s: Sys, a: Action): Operation
    requires Enabled(cfg, s, a)
  {
    match a
    case Create(id, length, body, partial, expires) => Born(id, Upload(body, length, length == Some(|body|), []))
    case CreateFinal(id, sources, expires) => Born(id, Committed(NewFinal(s, s.Get(id), sources, expires)))
    case Run(p, choice) =>
      var home := s.procs[p].Home();
      if s.Get(home).row.None? then Quiet else On(home, EventOf(s.Get(home), s.procs[p], choice))
    case _ => Quiet
  }

  lemma PutRefines(s: Sys, id: Id, cell: Cell)
    requires cell.row.Some?
    ensures Abstract(Put(s, id, cell)) == Abstract(s)[id := Committed(cell)]
  {
  }

  lemma CellRefines(s: Sys, home: Id, after: Cell, e: Event)
    requires Refines(s.Get(home), after, e)
    requires s.Get(home).row.Some? && e.Assemble? ==>
               Sourced(Abstract(s), Upload(e.content, e.total, true, Committed(s.Get(home)).sources))
    ensures var op := if s.Get(home).row.None? then Quiet else On(home, e);
      CanDo(Abstract(s), op) && Abstract(Put(s, home, after)) == Do(Abstract(s), op)
  {
  }

  /** A sealed upload whose row is there holds its accepted bytes in the store. */
  lemma SealedInStore(s: Sys, id: Id)
    requires Ok(s) && Sealed(s, id) && id in Abstract(s)
    ensures Abstract(s)[id].bytes == Flatten(s.Get(id).chunks) && !s.Get(id).overtaken
  {
    assert CellOk(s.Get(id));
    ReadySeals(s, id);
    assert s.Get(id).Bytes()[..s.Get(id).row.value.offset] == s.Get(id).Bytes();
  }

  lemma {:induction false} BytesAreExpected(s: Sys, ids: seq<Id>)
    requires Ok(s) && AllSealed(s, ids) && AllIn(Abstract(s), ids)
    ensures BytesOf(Abstract(s), ids) == Expected(s, ids) && Clean(s, ids)
  {
    forall i | 0 <= i < |ids|
      ensures !s.Get(ids[i]).overtaken
    {
      SealedInStore(s, ids[i]);
    }
    if ids != [] {
      var front := ids[..|ids| - 1];
      assert forall i :: 0 <= i < |front| ==> front[i] == ids[i];
      BytesAreExpected(s, front);
      SealedInStore(s, ids[|ids| - 1]);
    }
  }

  /** What an assembly publishes is what the store allows it to. */
  lemma PublishRefines(s: Sys, p: Pid, proc: Proc)
    requires Ok(s) && p in s.procs && s.procs[p] == proc && DrawOk(s, proc)
    requires proc.Assembling? && proc.stage.Sized? && s.Get(proc.fid).row.Some?
    ensures var cell := s.Get(proc.fid);
      Sourced(Abstract(s), Upload(cell.Bytes(), cell.row.value.length, true, cell.row.value.sources))
  {
    assert ProcOk(s.now, p, s.Get(proc.fid), proc);
    PublishIsRight(s, p, proc);
    var sources := s.Get(proc.fid).kind.sources;
    if AllIn(Abstract(s), sources) {
      BytesAreExpected(s, sources);
    }
  }

  lemma RunRefines(cfg: Config, s: Sys, p: Pid, choice: Choice)
    requires cfg.locking && Ok(s) && ContentOk(s) && Enabled(cfg, s, Run(p, choice))
    ensures CanDo(Abstract(s), OperationOf(cfg, s, Run(p, choice)))
    ensures Abstract(Next(cfg, s, Run(p, choice))) == Do(Abstract(s), OperationOf(cfg, s, Run(p, choice)))
  {
    var proc := s.procs[p];
    var home := proc.Home();
    var cell := Step(cfg, ViewOf(s, proc), p, s.Get(home), proc, choice).cell;
    var e := EventOf(s.Get(home), proc, choice);
    StepRefines(cfg, ViewOf(s, proc), p, s.Get(home), proc, choice);
    if e.Assemble? {
      PublishRefines(s, p, proc);
    }
    CellRefines(s, home, cell, e);
    assert Abstract(Next(cfg, s, Run(p, choice))) == Abstract(Put(s, home, cell));
  }

  lemma BirthRefines(cfg: Config, s: Sys, id: Id, sources: seq<Id>, expires: Option<nat>)
    requires cfg.locking && Ok(s) && Enabled(cfg, s, CreateFinal(id, sources, expires))
    ensures var up := Committed(NewFinal(s, s.Get(id), sources, expires)); up.done ==> Sourced(Abstract(s), up)
  {
    if forall i :: 0 <= i < |sources| ==> s.Get(sources[i]).Ready() {
      ReadyContents(s, sources);
      BytesAreExpected(s, sources);
    }
  }

  lemma CrashRefines(cfg: Config, s: Sys, keepLocks: bool)
    ensures Abstract(Next(cfg, s, Crash(keepLocks))) == Abstract(s)
  {
    var t := Next(cfg, s, Crash(keepLocks));
    forall id | id in s.cells && s.cells[id].row.Some?
      ensures id in t.cells && t.cells[id].row.Some? && Committed(t.cells[id]) == Committed(s.cells[id])
    {
    }
  }

  lemma NextRefines(cfg: Config, s: Sys, a: Action)
    requires cfg.locking && Ok(s) && ContentOk(s) && Enabled(cfg, s, a)
    ensures CanDo(Abstract(s), OperationOf(cfg, s, a))
    ensures Abstract(Next(cfg, s, a)) == Do(Abstract(s), OperationOf(cfg, s, a))
  {
    match a
    case Create(id, length, body, partial, expires) =>
      assert body[..|body|] == body;
      PutRefines(s, id, NewPlain(s.Get(id), length, body, partial, expires));
    case CreateFinal(id, sources, expires) =>
      BirthRefines(cfg, s, id, sources, expires);
      PutRefines(s, id, NewFinal(s, s.Get(id), sources, expires));
    case Run(p, choice) => RunRefines(cfg, s, p, choice);
    case Arrive(_, _) =>
    case Tick(_) =>
    case Crash(keepLocks) => CrashRefines(cfg, s, keepLocks);
  }

  function Operations(cfg: Config, s: Sys, run: seq<Action>): seq<Operation>
    requires Runs(cfg, s, run)
    decreases |run|
  {
    if run == [] then [] else [OperationOf(cfg, s, run[0])] + Operations(cfg, Next(cfg, s, run[0]), run[1..])
  }

  /** The operations are allowed one after the other and lead to this store. */
  ghost predicate Leads(store: Store, ops: seq<Operation>, end: Store)
    decreases |ops|
  {
    if ops == [] then store == end else CanDo(store, ops[0]) && Leads(Do(store, ops[0]), ops[1..], end)
  }

  /** Every run of the server, crashes and interleavings included, is a run of the
      atomic store. */
  lemma {:induction false} RunRefinesAtomicStore(cfg: Config, s: Sys, run: seq<Action>)
    requires cfg.locking && cfg.timely && Runs(cfg, s, run) && Ok(s) && ContentOk(s)
    ensures Leads(Abstract(s), Operations(cfg, s, run), Abstract(After(cfg, s, run)))
    decreases |run|
  {
    if run != [] {
      NextRefines(cfg, s, run[0]);
      NextKeeps(cfg, s, run[0]);
      NextKeepsContent(cfg, s, run[0]);
      RunRefinesAtomicStore(cfg, Next(cfg, s, run[0]), run[1..]);
    }
  }
}
