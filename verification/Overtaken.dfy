/** Why the concatenation theorem needs its condition: expiry cleanup takes no lock, so
    it can erase a partial between the plan and the write of a PATCH; the write then
    recreates an empty file, and an assembly that is under way publishes that. */
module Overtaken {
  import opened ByteStrings
  import opened PatchRules
  import opened TtlLock
  import opened Machine
  import opened Finals

  const CFG := Config(true, true, 10, Limits(0, 0))

  /** An empty PATCH that commits the deferred length of a partial created with its data. */
  const REQUEST := PatchRequest(1, true, Number(1), Number(1), Unchecked, [])

  const PLAN := Plan(1, 1, 1, Some(1))

  const LOCK := Some(Entry(11, 10))

  const DEFERRED := Row(None, 1, false, true, [], Some(5))

  function Partial(row: Option<Row>, file: Option<Bytes>, lock: Option<Entry>, mutex: Option<Pid>,
      overtaken: bool): Cell {
    Cell(row, file, lock, mutex, Plain(true), [[7]], overtaken, 0)
  }

  function Pending(length: Option<nat>, offset: nat, completed: bool, mutex: Option<Pid>): Cell {
    Cell(Some(Row(length, offset, completed, false, [1], None)), Some([]), None, mutex, Final([1]), [], false, 0)
  }

  function Writer(at: PatchPoint): Proc {
    Patching(REQUEST, PLAN, at, 0)
  }

  function Joiner(lens: seq<nat>, stage: AssemblyPoint, started: nat): Proc {
    Assembling(2, [1], lens, stage, started, [])
  }

  function State(one: Cell, two: Cell, procs: map<Pid, Proc>, now: nat): Sys {
    Sys(map[1 := one, 2 := two], procs, now)
  }

  ghost predicate Reaches(t: Sys) {
    exists run :: Runs(CFG, INITIAL, run) && After(CFG, INITIAL, run) == t
  }

  lemma {:induction false} RunsSnoc(s: Sys, run: seq<Action>, a: Action)
    requires Runs(CFG, s, run) && Enabled(CFG, After(CFG, s, run), a)
    ensures Runs(CFG, s, run + [a]) && After(CFG, s, run + [a]) == Next(CFG, After(CFG, s, run), a)
    decreases |run|
  {
    if run == [] {
      assert [a][1..] == [];
    } else {
      RunsSnoc(Next(CFG, s, run[0]), run[1..], a);
      assert (run + [a])[1..] == run[1..] + [a];
    }
  }

  lemma Goes(s: Sys, a: Action, t: Sys)
    requires Reaches(s) && Enabled(CFG, s, a) && Next(CFG, s, a) == t
    ensures Reaches(t)
  {
    var run :| Runs(CFG, INITIAL, run) && After(CFG, INITIAL, run) == s;
    RunsSnoc(INITIAL, run, a);
  }

  /** A step on the partial (id 1). */
  lemma MovesOne(now: nat, one: Cell, two: Cell, procs: map<Pid, Proc>, p: Pid, after: Cell, procs': map<Pid, Proc>)
    requires Reaches(State(one, two, procs, now)) && p in procs && procs[p].Home() == 1
    requires var view := ViewOf(State(one, two, procs, now), procs[p]);
      Can(CFG, view, one, procs[p], Proceed) &&
      var o := Step(CFG, view, p, one, procs[p], Proceed);
      o.cell == after && procs' == if o.next.Some? then procs[p := o.next.value] else procs - {p}
    ensures Reaches(State(after, two, procs', now))
  {
    var s := State(one, two, procs, now);
    assert Next(CFG, s, Run(p, Proceed)).cells == State(after, two, procs', now).cells;
    Goes(s, Run(p, Proceed), State(after, two, procs', now));
  }

  function Both(at: PatchPoint, joiner: Proc): map<Pid, Proc> {
    map[11 := Writer(at), 12 := joiner]
  }

  /** What the joiner reads next: the one partial, while it is not past it. */
  function Source(one: Cell, lens: seq<nat>, stage: AssemblyPoint, started: nat): View {
    View(0, false, false, if (if stage.Reading? then |lens| == 0 else started == 0) then one else BLANK)
  }

  lemma SourceIsNext(now: nat, one: Cell, two: Cell, at: PatchPoint, lens: seq<nat>, stage: AssemblyPoint, started: nat)
    ensures NextSource(State(one, two, Both(at, Joiner(lens, stage, started)), now), Joiner(lens, stage, started)) ==
      Source(one, lens, stage, started).source
  {
  }

  /** A step of the joiner in the state is a step of the assembly on its view. */
  lemma JoinerSteps(now: nat, one: Cell, two: Cell, at: PatchPoint, lens: seq<nat>, stage: AssemblyPoint, started: nat)
    requires Can(CFG, Source(one, lens, stage, started), two, Joiner(lens, stage, started), Proceed)
    ensures var joiner := Joiner(lens, stage, started);
      var view := ViewOf(State(one, two, Both(at, joiner), now), joiner);
      && Can(CFG, view, two, joiner, Proceed)
      && Step(CFG, view, 12, two, joiner, Proceed) ==
         StepAssembly(CFG, Source(one, lens, stage, started), 12, two, joiner)
  {
    SourceIsNext(now, one, two, at, lens, stage, started);
  }

  /** A step on the final (id 2). */
  lemma Joins(now: nat, one: Cell, two: Cell, at: PatchPoint, lens: seq<nat>, stage: AssemblyPoint, started: nat,
              after: Cell, lens': seq<nat>, stage': AssemblyPoint, started': nat)
    requires Reaches(State(one, two, Both(at, Joiner(lens, stage, started)), now))
    requires Can(CFG, Source(one, lens, stage, started), two, Joiner(lens, stage, started), Proceed)
    requires StepAssembly(CFG, Source(one, lens, stage, started), 12, two, Joiner(lens, stage, started)) ==
             Outcome(after, Some(Joiner(lens', stage', started')))
    ensures Reaches(State(one, after, Both(at, Joiner(lens', stage', started')), now))
  {
    var joiner, next := Joiner(lens, stage, started), Joiner(lens', stage', started');
    var s := State(one, two, Both(at, joiner), now);
    JoinerSteps(now, one, two, at, lens, stage, started);
    assert Next(CFG, s, Run(12, Proceed)).cells == State(one, after, Both(at, next), now).cells;
    assert Next(CFG, s, Run(12, Proceed)).procs == Both(at, next);
    Goes(s, Run(12, Proceed), State(one, after, Both(at, next), now));
  }

  const FULL := DEFERRED.(length := Some(1))

  const UNOPENED := Pending(None, 0, false, None)

  /** The deferred partial with its data, the pending final over it, and a waiting PATCH. */
  lemma Arrives()
    ensures Reaches(State(Partial(Some(DEFERRED), Some([7]), None, None, false), UNOPENED,
                          map[11 := Waiting(PatchJob(REQUEST))], 0))
  {
    assert Reaches(INITIAL) by { assert Runs(CFG, INITIAL, []); }
    var deferred := Partial(Some(DEFERRED), Some([7]), None, None, false);
    Goes(INITIAL, Create(1, None, [7], true, Some(5)), Sys(map[1 := deferred], map[], 0));
    Goes(Sys(map[1 := deferred], map[], 0), CreateFinal(2, [1], None), State(deferred, UNOPENED, map[], 0));
    Goes(State(deferred, UNOPENED, map[], 0), Arrive(11, Waiting(PatchJob(REQUEST))),
         State(deferred, UNOPENED, map[11 := Waiting(PatchJob(REQUEST))], 0));
  }

  const HELD := Partial(Some(DEFERRED), Some([7]), LOCK, None, false)

  lemma Acquires()
    ensures Reaches(State(HELD, UNOPENED, map[11 := Holding(PatchJob(REQUEST))], 0))
  {
    Arrives();
    var one := Partial(Some(DEFERRED), Some([7]), None, None, false);
    var job := PatchJob(REQUEST);
    MovesOne(0, one, UNOPENED, map[11 := Waiting(job)], 11, HELD, map[11 := Holding(job)]);
  }

  lemma Plans()
    ensures Reaches(State(HELD, UNOPENED, map[11 := Writer(Planned)], 0))
  {
    Acquires();
    MovesOne(0, HELD, UNOPENED, map[11 := Holding(PatchJob(REQUEST))], 11, HELD, map[11 := Writer(Planned)]);
  }

  const ONE := Partial(Some(FULL), Some([7]), LOCK, None, false)

  lemma Commits()
    ensures Reaches(State(ONE, UNOPENED, map[11 := Writer(Committed)], 0))
  {
    Plans();
    MovesOne(0, HELD, UNOPENED, map[11 := Writer(Planned)], 11, ONE, map[11 := Writer(Committed)]);
  }

  /** The length is committed, so the row looks complete, and HEAD starts an assembly. */
  lemma Heads()
    ensures Reaches(State(ONE, UNOPENED, Both(Committed, Joiner([], Reading, 0)), 0))
  {
    Commits();
    Goes(State(ONE, UNOPENED, map[11 := Writer(Committed)], 0), Arrive(12, Joiner([], Reading, 0)),
         State(ONE, UNOPENED, Both(Committed, Joiner([], Reading, 0)), 0));
  }

  lemma Reads()
    ensures Reaches(State(ONE, UNOPENED, Both(Committed, Joiner([1], Reading, 0)), 0))
  {
    Heads();
    assert [] + [1] == [1];
    Joins(0, ONE, UNOPENED, Committed, [], Reading, 0, UNOPENED, [1], Reading, 0);
  }

  const CLAIMED := Pending(Some(1), 0, false, Some(12))

  lemma Claims()
    ensures Reaches(State(ONE, CLAIMED, Both(Committed, Joiner([1], Claimed, 0)), 0))
  {
    Reads();
    var entered := Pending(None, 0, false, Some(12));
    assert Sum([1]) == 1;
    Joins(0, ONE, UNOPENED, Committed, [1], Reading, 0, UNOPENED, [1], Entering, 0);
    Joins(0, ONE, UNOPENED, Committed, [1], Entering, 0, entered, [1], Claiming, 0);
    Joins(0, ONE, entered, Committed, [1], Claiming, 0, CLAIMED, [1], Claimed, 0);
  }

  /** The final's file is truncated, and the partial's time is up, though not its lock's. */
  lemma TimePasses()
    ensures Reaches(State(ONE, CLAIMED, Both(Committed, Joiner([1], Copying, 0)), 6))
  {
    Claims();
    Joins(0, ONE, CLAIMED, Committed, [1], Claimed, 0, CLAIMED, [1], Copying, 0);
    Goes(State(ONE, CLAIMED, Both(Committed, Joiner([1], Copying, 0)), 0), Tick(6),
         State(ONE, CLAIMED, Both(Committed, Joiner([1], Copying, 0)), 6));
  }

  /** Expiry cleanup arrives for the partial. */
  lemma Expires()
    ensures ONE.row.value.expires == Some(5)
    ensures Reaches(State(ONE, CLAIMED, Both(Committed, Joiner([1], Copying, 0))[13 := Erasing(1, false, false)], 6))
  {
    TimePasses();
    Goes(State(ONE, CLAIMED, Both(Committed, Joiner([1], Copying, 0)), 6), Arrive(13, Erasing(1, false, false)),
         State(ONE, CLAIMED, Both(Committed, Joiner([1], Copying, 0))[13 := Erasing(1, false, false)], 6));
  }

  /** Row and file of the partial go while the PATCH is about to open the file. */
  lemma Erases()
    ensures Reaches(State(Partial(None, None, LOCK, None, true), CLAIMED, Both(Committed, Joiner([1], Copying, 0)), 6))
  {
    Expires();
    var procs := Both(Committed, Joiner([1], Copying, 0))[13 := Erasing(1, false, false)];
    var erased := procs[13 := Erasing(1, false, true)];
    assert procs[11].Home() == 1 && procs[11].InFlight();
    MovesOne(6, ONE, CLAIMED, procs, 13, Partial(None, Some([7]), LOCK, None, true), erased);
    assert erased - {13} == Both(Committed, Joiner([1], Copying, 0));
    MovesOne(6, Partial(None, Some([7]), LOCK, None, true), CLAIMED, erased, 13, Partial(None, None, LOCK, None, true),
             Both(Committed, Joiner([1], Copying, 0)));
  }

  const RECREATED := Partial(None, Some([]), LOCK, Some(11), true)

  /** The PATCH recreates an empty file, and the assembly opens that. */
  lemma Recreates()
    ensures Reaches(State(RECREATED, CLAIMED, Both(Writing, Joiner([1], Copying, 0)), 6))
  {
    Erases();
    MovesOne(6, Partial(None, None, LOCK, None, true), CLAIMED, Both(Committed, Joiner([1], Copying, 0)), 11, RECREATED,
             Both(Writing, Joiner([1], Copying, 0)));
  }

  ghost predicate WrongFinal(s: Sys) {
    var final := s.Get(2);
    && final.kind == Final([1]) && final.row.Some? && final.row.value.completed
    && final.row.value.length == Some(1)
    && final.file == Some([]) && Expected(s, [1]) == [7]
  }

  const DONE := Pending(Some(1), 0, true, Some(12))

  lemma Publishes()
    ensures Reaches(State(RECREATED, DONE, Both(Writing, Joiner([1], Published, 0)), 6))
  {
    Recreates();
    Joins(6, RECREATED, CLAIMED, Writing, [1], Copying, 0, CLAIMED, [1], Copying, 1);
    Joins(6, RECREATED, CLAIMED, Writing, [1], Copying, 1, CLAIMED, [1], Sized, 0);
    Joins(6, RECREATED, CLAIMED, Writing, [1], Sized, 0, DONE, [1], Published, 0);
  }

  /** A run of the server under the lock that ends with a completed final whose file is
      empty, although its only partial was accepted as one byte. */
  lemma OvertakenFinalIsWrong()
    ensures exists run :: Runs(CFG, INITIAL, run) && WrongFinal(After(CFG, INITIAL, run))
  {
    Publishes();
    var s := State(RECREATED, DONE, Both(Writing, Joiner([1], Published, 0)), 6);
    assert s.Get(2) == DONE && s.Get(1) == RECREATED;
    assert [1][..0] == [];
    assert Flatten([[7]]) == [7] by { FlattenSnoc([], [7]); }
    assert Expected(s, [1]) == Expected(s, []) + Flatten([[7]]);
  }
}
