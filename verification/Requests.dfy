/** Whole requests on the state machine: what the server's database and upload directory are
    like when a request that nobody interrupts has come to its end, in the terms of the
    handlers. */
module Requests {
  import opened ByteStrings
  import opened PatchRules
  import opened TtlLock
  import opened Machine
  import opened Alone
  import opened Repair
  import opened SqliteStorage
  import opened Handlers

  /** These steps of one process, one after the other, lead from `s` to `t`. */
  ghost predicate Goes(cfg: Config, s: Sys, p: Pid, choices: seq<Choice>, t: Sys)
    decreases |choices|
  {
    if choices == [] then s == t
    else Enabled(cfg, s, Run(p, choices[0])) && Goes(cfg, Next(cfg, s, Run(p, choices[0])), p, choices[1..], t)
  }

  /** Nothing fails, and no hook stops the upload. */
  predicate Smooth(choices: seq<Choice>) {
    forall i :: 0 <= i < |choices| ==> choices[i].Proceed? || choices[i].Land?
  }

  /** Process `p`, left alone, gets the server from `s` to `t`. */
  ghost predicate Gets(cfg: Config, s: Sys, p: Pid, t: Sys) {
    exists choices :: Smooth(choices) && Goes(cfg, s, p, choices, t)
  }

  lemma GetsThere(cfg: Config, s: Sys, p: Pid)
    ensures Gets(cfg, s, p, s)
  {
    assert Smooth([]) && Goes(cfg, s, p, [], s);
  }

  /** One more step in front. */
  lemma StepGets(cfg: Config, s: Sys, p: Pid, choice: Choice, t: Sys)
    requires (choice.Proceed? || choice.Land?) && Enabled(cfg, s, Run(p, choice))
    requires Gets(cfg, Next(cfg, s, Run(p, choice)), p, t)
    ensures Gets(cfg, s, p, t)
  {
    var rest :| Smooth(rest) && Goes(cfg, Next(cfg, s, Run(p, choice)), p, rest, t);
    assert ([choice] + rest)[1..] == rest;
    assert Goes(cfg, s, p, [choice] + rest, t);
  }

  /** These steps are a run of the server. */
  lemma {:induction false} GoesIsRun(cfg: Config, s: Sys, p: Pid, choices: seq<Choice>, t: Sys)
      returns (run: seq<Action>)
    requires Goes(cfg, s, p, choices, t)
    ensures |run| == |choices| && (forall i :: 0 <= i < |run| ==> run[i] == Run(p, choices[i]))
    ensures Runs(cfg, s, run) && After(cfg, s, run) == t
    decreases |choices|
  {
    run := [];
    if choices != [] {
      var rest := GoesIsRun(cfg, Next(cfg, s, Run(p, choices[0])), p, choices[1..], t);
      run := [Run(p, choices[0])] + rest;
      assert run[1..] == rest;
    }
  }

  /** What one step changes, seen from the server. */
  lemma OneMove(cfg: Config, s: Sys, p: Pid, choice: Choice)
    requires Enabled(cfg, s, Run(p, choice))
    ensures var t, id := Next(cfg, s, Run(p, choice)), s.procs[p].Home();
      var o := Step(cfg, ViewOf(s, s.procs[p]), p, s.Get(id), s.procs[p], choice);
      && t.Get(id) == o.cell && t.now == s.now
      && t.procs == (if o.next.Some? then s.procs[p := o.next.value] else s.procs - {p})
      && forall other :: other != id ==> t.Get(other) == s.Get(other)
  {
  }

  /** Nothing but the upload `id` differs. */
  ghost predicate Only(s: Sys, t: Sys, id: Id) {
    t.now == s.now && forall other :: other != id ==> t.Get(other) == s.Get(other)
  }

  /** A table in which one row differs. */
  lemma RowsOfOnly(s: Sys, t: Sys, id: Id)
    requires Only(s, t, id)
    ensures DbOf(t).rows ==
      if t.Get(id).row.Some? then DbOf(s).rows[id := t.Get(id).row.value] else DbOf(s).rows - {id}
  {
    var want := if t.Get(id).row.Some? then DbOf(s).rows[id := t.Get(id).row.value] else DbOf(s).rows - {id};
    forall other
      ensures other in DbOf(t).rows <==> other in want
      ensures other in want ==> DbOf(t).rows[other] == want[other]
    {
      assert other != id ==> t.Get(other) == s.Get(other);
    }
  }

  lemma FilesOfOnly(s: Sys, t: Sys, id: Id)
    requires Only(s, t, id)
    ensures DbOf(t).files ==
      if t.Get(id).file.Some? then DbOf(s).files[id := t.Get(id).file.value] else DbOf(s).files - {id}
  {
    var want := if t.Get(id).file.Some? then DbOf(s).files[id := t.Get(id).file.value] else DbOf(s).files - {id};
    forall other
      ensures other in DbOf(t).files <==> other in want
      ensures other in want ==> DbOf(t).files[other] == want[other]
    {
      assert other != id ==> t.Get(other) == s.Get(other);
    }
  }

  /** An upload whose row and file are as they were. */
  lemma DbKept(s: Sys, t: Sys, id: Id)
    requires Only(s, t, id) && t.Get(id).row == s.Get(id).row && t.Get(id).file == s.Get(id).file
    ensures DbOf(t) == DbOf(s)
  {
    RowsOfOnly(s, t, id);
    FilesOfOnly(s, t, id);
    assert s.Get(id).row.Some? ==> id in DbOf(s).rows && DbOf(s).rows[id] == s.Get(id).row.value;
    assert s.Get(id).file.Some? ==> id in DbOf(s).files && DbOf(s).files[id] == s.Get(id).file.value;
  }

  lemma DbWithout(s: Sys, t: Sys, id: Id)
    requires Only(s, t, id) && t.Get(id).row.None? && t.Get(id).file.None?
    ensures DbOf(t) == Db(DbOf(s).rows - {id}, DbOf(s).files - {id})
  {
    RowsOfOnly(s, t, id);
    FilesOfOnly(s, t, id);
  }

  // ---- DELETE and cleanup ----

  /** A partial that some pending final lists. */
  predicate Kept(db: Db, id: Id) {
    && id in db.rows && db.rows[id].partial
    && exists f :: f in db.rows && db.Pending(f) && id in db.rows[f].sources
  }

  lemma KeptIsReferenced(s: Sys, id: Id)
    ensures Kept(DbOf(s), id) <==> s.Get(id).row.Some? && s.Get(id).row.value.partial && Referenced(s, id)
  {
    var db := DbOf(s);
    if Referenced(s, id) {
      var f :| f in s.cells && s.cells[f].row.Some? &&
        !s.cells[f].row.value.completed && id in s.cells[f].row.value.sources;
      assert db.Pending(f) && id in db.rows[f].sources;
    }
  }

  /** The request is over, its lock is back, and no other upload has changed. */
  ghost predicate Over(cfg: Config, s: Sys, p: Pid, id: Id, t: Sys) {
    && Only(s, t, id) && t.procs == s.procs - {p} && t.Get(id).mutex.None?
    && (cfg.locking ==> t.Get(id).lock.None?)
  }

  /** Nobody has the lock of the upload, or its time is up. */
  predicate LockFree(cfg: Config, s: Sys, id: Id) {
    cfg.locking ==> cfg.ttl > 0 && (s.Get(id).lock.Some? ==> s.Get(id).lock.value.expires <= s.now)
  }

  /** A request that has entered, and what it found. */
  ghost predicate Entered(cfg: Config, s: Sys, p: Pid, job: Job, t: Sys) {
    var id := job.Target();
    && Only(s, t, id) && t.procs == s.procs[p := Holding(job)] && t.Get(id) == s.Get(id).(lock := t.Get(id).lock)
    && (cfg.locking ==> t.Get(id).lock == Some(Entry(p, s.now + cfg.ttl)))
  }

  /** The first step of a request: with the lock, for as long as it lasts. */
  lemma EnterAlone(cfg: Config, s: Sys, p: Pid, job: Job)
    requires p in s.procs && s.procs[p] == Proc.Waiting(job) && LockFree(cfg, s, job.Target())
    ensures Enabled(cfg, s, Run(p, Proceed)) && Entered(cfg, s, p, job, Next(cfg, s, Run(p, Proceed)))
  {
    OneMove(cfg, s, p, Proceed);
  }

  /** The last step of a request. */
  lemma LeaveAlone(cfg: Config, s: Sys, p: Pid, id: Id) returns (t: Sys)
    requires p in s.procs && s.procs[p] == Leaving(id)
    ensures Gets(cfg, s, p, t) && Only(s, t, id) && t.procs == s.procs - {p}
    ensures t.Get(id) == s.Get(id).(lock := t.Get(id).lock)
    ensures s.Get(id).lock.Some? && s.Get(id).lock.value.token == p ==> t.Get(id).lock.None?
  {
    OneMove(cfg, s, p, Proceed);
    t := Next(cfg, s, Run(p, Proceed));
    GetsThere(cfg, t, p);
    StepGets(cfg, s, p, Proceed, t);
  }

  /** The steps that remove an upload. */
  lemma EraseAlone(cfg: Config, s: Sys, p: Pid, id: Id) returns (t: Sys)
    requires p in s.procs && s.procs[p] == Erasing(id, true, false) && s.Get(id).mutex.None?
    ensures Gets(cfg, s, p, t) && Only(s, t, id) && t.procs == s.procs - {p}
    ensures t.Get(id).row.None? && t.Get(id).file.None? && t.Get(id).mutex.None?
    ensures s.Get(id).lock.Some? && s.Get(id).lock.value.token == p ==> t.Get(id).lock.None?
  {
    OneMove(cfg, s, p, Proceed);
    var erased := Next(cfg, s, Run(p, Proceed));
    OneMove(cfg, erased, p, Proceed);
    var leaving := Next(cfg, erased, Run(p, Proceed));
    t := LeaveAlone(cfg, leaving, p, id);
    StepGets(cfg, erased, p, Proceed, t);
    StepGets(cfg, s, p, Proceed, t);
  }

  lemma SameReferenced(s: Sys, t: Sys, id: Id)
    requires Only(s, t, id) && t.Get(id).row == s.Get(id).row
    ensures Referenced(t, id) <==> Referenced(s, id)
  {
    forall f
      ensures f in s.cells && s.cells[f].row.Some? ==> f in t.cells && t.cells[f].row == s.cells[f].row
      ensures f in t.cells && t.cells[f].row.Some? ==> f in s.cells && t.cells[f].row == s.cells[f].row
    {
      assert t.Get(f).row == s.Get(f).row;
    }
  }

  /** Whatever else is under way, a DELETE goes on to erase exactly if its upload is there and
      at that moment no pending final lists it as a partial; otherwise it leaves. */
  lemma DeleteDecides(cfg: Config, s: Sys, p: Pid, id: Id)
    requires p in s.procs && s.procs[p] == Holding(DeleteJob(id))
    ensures Enabled(cfg, s, Run(p, Proceed))
    ensures var t, erases := Next(cfg, s, Run(p, Proceed)), id in DbOf(s).rows && !Kept(DbOf(s), id);
      && DbOf(t) == DbOf(s)
      && t.procs == s.procs[p := if erases then Erasing(id, true, false) else Leaving(id)]
  {
    KeptIsReferenced(s, id);
    OneMove(cfg, s, p, Proceed);
    DbKept(s, Next(cfg, s, Run(p, Proceed)), id);
  }

  /** What a DELETE under the lock comes to. */
  lemma DeleteHeld(cfg: Config, s: Sys, p: Pid, id: Id) returns (t: Sys)
    requires p in s.procs && s.procs[p] == Holding(DeleteJob(id)) && s.Get(id).mutex.None?
    requires cfg.locking ==> s.Get(id).lock.Some? && s.Get(id).lock.value.token == p
    ensures Gets(cfg, s, p, t) && Over(cfg, s, p, id, t)
    ensures if s.Get(id).row.None? || Kept(DbOf(s), id)
            then t.Get(id) == s.Get(id).(lock := t.Get(id).lock) else t.Get(id).row.None? && t.Get(id).file.None?
  {
    KeptIsReferenced(s, id);
    OneMove(cfg, s, p, Proceed);
    var begun := Next(cfg, s, Run(p, Proceed));
    if s.Get(id).row.None? || Kept(DbOf(s), id) {
      t := LeaveAlone(cfg, begun, p, id);
    } else {
      t := EraseAlone(cfg, begun, p, id);
    }
    StepGets(cfg, s, p, Proceed, t);
  }

  /** A DELETE that nobody interrupts refuses a partial that a pending final still lists, and
      otherwise leaves neither row nor file, as the handler does. */
  lemma DeleteAlone(cfg: Config, s: Sys, p: Pid, id: Id) returns (t: Sys)
    requires p in s.procs && s.procs[p] == Proc.Waiting(DeleteJob(id)) && LockFree(cfg, s, id) && s.Get(id).mutex.None?
    ensures Gets(cfg, s, p, t) && Over(cfg, s, p, id, t)
    ensures DbOf(t) == if id !in DbOf(s).rows || Kept(DbOf(s), id) then DbOf(s)
                       else Db(DbOf(s).rows - {id}, DbOf(s).files - {id})
  {
    EnterAlone(cfg, s, p, DeleteJob(id));
    var held := Next(cfg, s, Run(p, Proceed));
    KeptStays(s, held, id);
    t := DeleteHeld(cfg, held, p, id);
    StepGets(cfg, s, p, Proceed, t);
    if s.Get(id).row.None? || Kept(DbOf(s), id) {
      DbKept(s, t, id);
    } else {
      DbWithout(s, t, id);
    }
  }

  lemma KeptStays(s: Sys, t: Sys, id: Id)
    requires Only(s, t, id) && t.Get(id).row == s.Get(id).row
    ensures Kept(DbOf(t), id) <==> Kept(DbOf(s), id)
  {
    SameReferenced(s, t, id);
    KeptIsReferenced(s, id);
    KeptIsReferenced(t, id);
  }

  // ---- PATCH ----

  /** A request that reads nothing but its own upload. */
  predicate Blind(proc: Proc) {
    (proc.Holding? && proc.job.PatchJob?) || proc.Patching? || proc.Leaving?
  }

  lemma BlindStep(cfg: Config, a: View, b: View, p: Pid, cell: Cell, proc: Proc, choice: Choice)
    requires a.now == b.now && Blind(proc) && (choice.Proceed? || choice.Land?) && Can(cfg, a, cell, proc, choice)
    ensures Can(cfg, b, cell, proc, choice)
    ensures Step(cfg, a, p, cell, proc, choice) == Step(cfg, b, p, cell, proc, choice)
    ensures var o := Step(cfg, a, p, cell, proc, choice);
      o.next.Some? ==> Blind(o.next.value) && o.next.value.Home() == proc.Home()
  {
  }

  /** A step of such a request, seen from the server. */
  lemma BlindMove(cfg: Config, s: Sys, p: Pid, view: View, choice: Choice)
    requires p in s.procs && Blind(s.procs[p]) && view.now == s.now && (choice.Proceed? || choice.Land?)
    requires Can(cfg, view, s.Get(s.procs[p].Home()), s.procs[p], choice)
    ensures Enabled(cfg, s, Run(p, choice))
    ensures var t, id := Next(cfg, s, Run(p, choice)), s.procs[p].Home();
      var o := Step(cfg, view, p, s.Get(id), s.procs[p], choice);
      && Only(s, t, id) && t.Get(id) == o.cell
      && t.procs == (if o.next.Some? then s.procs[p := o.next.value] else s.procs - {p})
      && (o.next.Some? ==> Blind(o.next.value) && o.next.value.Home() == id)
  {
    BlindStep(cfg, view, ViewOf(s, s.procs[p]), p, s.Get(s.procs[p].Home()), s.procs[p], choice);
    OneMove(cfg, s, p, choice);
  }

  /** Where the steps of a request on its upload lead the server. */
  ghost predicate Arrives(s: Sys, p: Pid, id: Id, o: Outcome, t: Sys) {
    && Only(s, t, id) && t.Get(id) == o.cell
    && t.procs == if o.next.Some? then s.procs[p := o.next.value] else s.procs - {p}
  }

  /** The steps of a request on its upload are steps of the server. */
  lemma {:induction false} GoGets(cfg: Config, s: Sys, p: Pid, view: View, choices: seq<Choice>) returns (t: Sys)
    requires p in s.procs && Blind(s.procs[p]) && view.now == s.now && Smooth(choices)
    requires CanGo(cfg, view, p, s.Get(s.procs[p].Home()), s.procs[p], choices)
    ensures var proc := s.procs[p];
      Gets(cfg, s, p, t) &&
      Arrives(s, p, proc.Home(), Alone.Go(cfg, view, p, s.Get(proc.Home()), proc, choices), t)
    decreases |choices|
  {
    t := s;
    if choices == [] {
      GetsThere(cfg, s, p);
      assert s.procs[p := s.procs[p]] == s.procs;
    } else {
      BlindMove(cfg, s, p, view, choices[0]);
      t := Next(cfg, s, Run(p, choices[0]));
      if p in t.procs {
        t := GoGets(cfg, t, p, view, choices[1..]);
      } else {
        GetsThere(cfg, t, p);
      }
      StepGets(cfg, s, p, choices[0], t);
    }
  }

  /** The row of an upload once the body has been appended. */
  function Longer(row: Row, req: PatchRequest): Row {
    var declared := if req.length.Number? && req.length.n >= 0 then req.length.n else 0;
    var length := if row.length.Some? then row.length else Some(declared);
    row.(length := length, offset := row.offset + |req.body|, completed := length == Some(row.offset + |req.body|))
  }

  lemma {:induction false} GoesThen(cfg: Config, s: Sys, p: Pid, choices: seq<Choice>, t: Sys, u: Sys)
    requires Smooth(choices) && Goes(cfg, s, p, choices, t) && Gets(cfg, t, p, u)
    ensures Gets(cfg, s, p, u)
    decreases |choices|
  {
    if choices != [] {
      GoesThen(cfg, Next(cfg, s, Run(p, choices[0])), p, choices[1..], t, u);
      StepGets(cfg, s, p, choices[0], u);
    }
  }

  lemma GetsThen(cfg: Config, s: Sys, p: Pid, t: Sys, u: Sys)
    requires Gets(cfg, s, p, t) && Gets(cfg, t, p, u)
    ensures Gets(cfg, s, p, u)
  {
    var choices :| Smooth(choices) && Goes(cfg, s, p, choices, t);
    GoesThen(cfg, s, p, choices, t, u);
  }

  /** A PATCH under the lock that fits. */
  lemma PatchAccepted(cfg: Config, s: Sys, p: Pid, req: PatchRequest) returns (t: Sys)
    requires p in s.procs && s.procs[p] == Holding(PatchJob(req)) && s.Get(req.id).mutex.None?
    requires s.Get(req.id).row.Some? && s.Get(req.id).file.Some?
    requires Deserves(cfg.limits, s.now, s.Get(req.id).row.value, req, 204)
    ensures Gets(cfg, s, p, t) && Only(s, t, req.id) && t.procs == s.procs[p := Leaving(req.id)]
    ensures var cell, after := s.Get(req.id), t.Get(req.id);
      && after.row == Some(Longer(cell.row.value, req))
      && after.file == Some(WriteAt(cell.file.value, cell.row.value.offset, req.body))
      && after.lock == cell.lock && after.mutex.None?
  {
    var cell, view := s.Get(req.id), ViewOf(s, s.procs[p]);
    PlanIsDeserved(cfg.limits, s.now, cell.row.value, req, 400);
    PatchAlone(cfg, view, p, cell, req);
    t := GoGets(cfg, s, p, view, [Proceed] + ([Proceed] + ([Proceed] + Landing(req.body))));
  }

  /** A PATCH under the lock that does not. */
  lemma PatchRefused(cfg: Config, s: Sys, p: Pid, req: PatchRequest)
    requires p in s.procs && s.procs[p] == Holding(PatchJob(req))
    requires s.Get(req.id).row.None? || !Deserves(cfg.limits, s.now, s.Get(req.id).row.value, req, 204)
    ensures Enabled(cfg, s, Run(p, Proceed))
    ensures var t := Next(cfg, s, Run(p, Proceed));
      Only(s, t, req.id) && t.procs == s.procs[p := Leaving(req.id)] && t.Get(req.id) == s.Get(req.id)
  {
    if s.Get(req.id).row.Some? {
      PlanIsDeserved(cfg.limits, s.now, s.Get(req.id).row.value, req, 400);
    }
    OneMove(cfg, s, p, Proceed);
  }

  /** What a PATCH under the lock comes to. */
  lemma PatchHeld(cfg: Config, s: Sys, p: Pid, req: PatchRequest) returns (t: Sys)
    requires p in s.procs && s.procs[p] == Holding(PatchJob(req)) && s.Get(req.id).mutex.None?
    requires cfg.locking ==> s.Get(req.id).lock.Some? && s.Get(req.id).lock.value.token == p
    requires s.Get(req.id).row.Some? ==> s.Get(req.id).file.Some?
    ensures Gets(cfg, s, p, t) && Over(cfg, s, p, req.id, t)
    ensures var cell, after := s.Get(req.id), t.Get(req.id);
      if cell.row.Some? && Deserves(cfg.limits, s.now, cell.row.value, req, 204)
      then after.row == Some(Longer(cell.row.value, req)) &&
           after.file == Some(WriteAt(cell.file.value, cell.row.value.offset, req.body))
      else after.row == cell.row && after.file == cell.file
  {
    var cell, done := s.Get(req.id), s;
    if cell.row.Some? && Deserves(cfg.limits, s.now, cell.row.value, req, 204) {
      done := PatchAccepted(cfg, s, p, req);
      t := LeaveAlone(cfg, done, p, req.id);
      GetsThen(cfg, s, p, done, t);
    } else {
      PatchRefused(cfg, s, p, req);
      done := Next(cfg, s, Run(p, Proceed));
      t := LeaveAlone(cfg, done, p, req.id);
      StepGets(cfg, s, p, Proceed, t);
    }
  }

  /** A PATCH that nobody interrupts appends its body, and completes the upload exactly at its
      length, if it is one the handler answers with 204, and otherwise changes nothing. */
  lemma PatchAnswered(cfg: Config, s: Sys, p: Pid, req: PatchRequest) returns (t: Sys)
    requires p in s.procs && s.procs[p] == Proc.Waiting(PatchJob(req))
    requires LockFree(cfg, s, req.id) && s.Get(req.id).mutex.None?
    requires s.Get(req.id).row.Some? ==> s.Get(req.id).file.Some?
    ensures Gets(cfg, s, p, t) && Over(cfg, s, p, req.id, t)
    ensures var db, id := DbOf(s), req.id;
      DbOf(t) ==
        if id in db.rows && Deserves(cfg.limits, s.now, db.rows[id], req, 204)
        then Db(db.rows[id := Longer(db.rows[id], req)],
                db.files[id := WriteAt(db.files[id], db.rows[id].offset, req.body)])
        else db
  {
    EnterAlone(cfg, s, p, PatchJob(req));
    var held := Next(cfg, s, Run(p, Proceed));
    t := PatchHeld(cfg, held, p, req);
    StepGets(cfg, s, p, Proceed, t);
    if s.Get(req.id).row.Some? && Deserves(cfg.limits, s.now, s.Get(req.id).row.value, req, 204) {
      RowsOfOnly(s, t, req.id);
      FilesOfOnly(s, t, req.id);
    } else {
      DbKept(s, t, req.id);
    }
  }

  // ---- Stops, failures, cleanup ----

  /** A hook that stops a PATCH after its swap: neither row nor file is left. */
  lemma StopAlone(cfg: Config, s: Sys, p: Pid) returns (t: Sys)
    requires p in s.procs && s.procs[p].Patching? && s.procs[p].at.Swapped? && s.Get(s.procs[p].req.id).mutex.None?
    requires var lock := s.Get(s.procs[p].req.id).lock; cfg.locking ==> lock.Some? && lock.value.token == p
    ensures Enabled(cfg, s, Run(p, Stop)) && Gets(cfg, Next(cfg, s, Run(p, Stop)), p, t)
    ensures var id := s.procs[p].req.id;
      Over(cfg, s, p, id, t) && DbOf(t) == Db(DbOf(s).rows - {id}, DbOf(s).files - {id})
  {
    OneMove(cfg, s, p, Stop);
    t := EraseAlone(cfg, Next(cfg, s, Run(p, Stop)), p, s.procs[p].req.id);
    DbWithout(s, t, s.procs[p].req.id);
  }

  /** A request that fails anywhere leaves database and directory as they are at that moment,
      and gives back what it has locked. */
  lemma FailureAlone(cfg: Config, s: Sys, p: Pid) returns (t: Sys)
    requires p in s.procs && s.procs[p].Locks() && !s.procs[p].Leaving?
    requires var cell := s.Get(s.procs[p].Home()); cell.mutex.Some? ==> cell.mutex == Some(p) && s.procs[p].OwnsFile()
    requires var lock := s.Get(s.procs[p].Home()).lock; cfg.locking ==> lock.Some? && lock.value.token == p
    ensures Enabled(cfg, s, Run(p, Fail)) && Gets(cfg, Next(cfg, s, Run(p, Fail)), p, t)
    ensures Over(cfg, s, p, s.procs[p].Home(), t) && DbOf(t) == DbOf(s)
  {
    OneMove(cfg, s, p, Fail);
    t := LeaveAlone(cfg, Next(cfg, s, Run(p, Fail)), p, s.procs[p].Home());
    DbKept(s, t, s.procs[p].Home());
  }

  /** An assembly that fails once it has claimed its final takes the claim back, and gives
      back the file lock. */
  lemma RollbackAlone(cfg: Config, s: Sys, p: Pid)
    requires p in s.procs && s.procs[p].Claims() && !s.procs[p].stage.Published?
    requires var cell := s.Get(s.procs[p].fid); cell.row.Some? && cell.file.Some? && !cell.row.value.completed
    ensures Enabled(cfg, s, Run(p, Fail))
    ensures var t, fid := Next(cfg, s, Run(p, Fail)), s.procs[p].fid;
      && Only(s, t, fid) && t.procs == s.procs - {p} && t.Get(fid).mutex.None?
      && RolledBack(DbOf(s), DbOf(t), fid) && DbOf(t).files == DbOf(s).files
  {
    OneMove(cfg, s, p, Fail);
    var t, fid := Next(cfg, s, Run(p, Fail)), s.procs[p].fid;
    RowsOfOnly(s, t, fid);
    FilesOfOnly(s, t, fid);
    assert DbOf(s).files[fid := s.Get(fid).file.value] == DbOf(s).files;
  }

  /** Expiry cleanup takes no lock, and removes whatever it is sent for. */
  lemma CleanupAlone(cfg: Config, s: Sys, p: Pid, id: Id) returns (t: Sys)
    requires p in s.procs && s.procs[p] == Erasing(id, false, false) && s.Get(id).mutex.None?
    ensures Gets(cfg, s, p, t) && Only(s, t, id) && t.procs == s.procs - {p} && t.Get(id).lock == s.Get(id).lock
    ensures DbOf(t) == Db(DbOf(s).rows - {id}, DbOf(s).files - {id})
  {
    OneMove(cfg, s, p, Proceed);
    var erased := Next(cfg, s, Run(p, Proceed));
    OneMove(cfg, erased, p, Proceed);
    t := Next(cfg, erased, Run(p, Proceed));
    GetsThere(cfg, t, p);
    StepGets(cfg, erased, p, Proceed, t);
    StepGets(cfg, s, p, Proceed, t);
    DbWithout(s, t, id);
  }

  // ---- Creation ----

  /** Plain creation in one step is what the handler does. */
  lemma CreateAlone(cfg: Config, s: Sys, id: Id, length: Option<nat>, body: Bytes, partial: bool, expires: Option<nat>)
    requires s.Get(id).kind.Unborn? && (length.Some? ==> |body| <= length.value)
    ensures var a := Create(id, length, body, partial, expires);
      && Enabled(cfg, s, a) && Next(cfg, s, a).procs == s.procs && Only(s, Next(cfg, s, a), id)
      && DbOf(Next(cfg, s, a)) ==
         Db(DbOf(s).rows[id := Row(length, |body|, length.Some? && |body| >= length.value, partial, [], expires)],
            DbOf(s).files[id := body])
  {
    var t := Next(cfg, s, Create(id, length, body, partial, expires));
    RowsOfOnly(s, t, id);
    FilesOfOnly(s, t, id);
  }

  lemma {:induction false} ContentsAreJoined(s: Sys, ids: seq<Id>)
    requires HasFiles(DbOf(s).files, ids)
    ensures Flatten(Contents(s, ids)) == Joined(DbOf(s).files, ids)
  {
    if ids != [] {
      var front, last := ids[..|ids| - 1], ids[|ids| - 1];
      ContentsAreJoined(s, front);
      FlattenSnoc(Contents(s, front), s.Get(last).Bytes());
      assert last in DbOf(s).files;
    }
  }

  lemma {:induction false} LengthsAreTotal(s: Sys, ids: seq<Id>)
    requires DbOf(s).AllReady(ids) && forall i :: 0 <= i < |ids| ==> s.Get(ids[i]).row.Some?
    ensures Sum(Lengths(s, ids)) == DbOf(s).Total(ids)
  {
    if ids != [] {
      assert DbOf(s).Ready(ids[|ids| - 1]);
      LengthsAreTotal(s, ids[..|ids| - 1]);
    }
  }

  /** What the machine asks of the partials, in the terms of the database. */
  lemma PartialsInDb(s: Sys, sources: seq<Id>)
    requires AllPartials(DbOf(s).rows, sources)
    ensures forall i :: 0 <= i < |sources| ==> s.Get(sources[i]).row.Some? && s.Get(sources[i]).row.value.partial
    ensures DbOf(s).AllReady(sources) <==> forall i :: 0 <= i < |sources| ==> s.Get(sources[i]).Ready()
  {
    forall i | 0 <= i < |sources|
      ensures s.Get(sources[i]).row.Some? && s.Get(sources[i]).row.value.partial
      ensures DbOf(s).Ready(sources[i]) == s.Get(sources[i]).Ready()
    {
      assert sources[i] in DbOf(s).rows;
    }
  }

  /** The new cell of a final. */
  lemma FinalIsBorn(s: Sys, cell: Cell, sources: seq<Id>, expires: Option<nat>)
    requires AllPartials(DbOf(s).rows, sources) && HasFiles(DbOf(s).files, sources)
    ensures forall i :: 0 <= i < |sources| ==> s.Get(sources[i]).row.Some? && s.Get(sources[i]).row.value.partial
    ensures var db, after := DbOf(s), NewFinal(s, cell, sources, expires);
      if db.AllReady(sources)
      then after.row == Some(FinalRow(Some(db.Total(sources)), db.Total(sources), true, sources, expires)) &&
           after.file == Some(Joined(db.files, sources))
      else after.row == Some(FinalRow(None, 0, false, sources, expires)) && after.file == Some([])
  {
    PartialsInDb(s, sources);
    if DbOf(s).AllReady(sources) {
      LengthsAreTotal(s, sources);
    }
    ContentsAreJoined(s, sources);
  }

  /** So is the creation of a final: over complete partials it is their files joined,
      otherwise it waits. */
  lemma CreateFinalAlone(cfg: Config, s: Sys, id: Id, sources: seq<Id>, expires: Option<nat>)
    requires s.Get(id).kind.Unborn? && sources != [] && AllPartials(DbOf(s).rows, sources)
    requires HasFiles(DbOf(s).files, sources)
    ensures var a, db := CreateFinal(id, sources, expires), DbOf(s);
      && Enabled(cfg, s, a) && Next(cfg, s, a).procs == s.procs && Only(s, Next(cfg, s, a), id)
      && DbOf(Next(cfg, s, a)) ==
         if db.AllReady(sources)
         then Db(db.rows[id := FinalRow(Some(db.Total(sources)), db.Total(sources), true, sources, expires)],
                 db.files[id := Joined(db.files, sources)])
         else Db(db.rows[id := FinalRow(None, 0, false, sources, expires)], db.files[id := []])
  {
    FinalIsBorn(s, s.Get(id), sources, expires);
    var t := Next(cfg, s, CreateFinal(id, sources, expires));
    RowsOfOnly(s, t, id);
    FilesOfOnly(s, t, id);
  }
}
