/** Closing idle keep-alive connections on shutdown: handler threads against the sweep. */
module Shutdown {
  type Conn = int

  /** A handler: about to wait for a request, registered as idle, waiting in readline,
      holding a request line, serving it, or finished. */
  datatype Spot = Ready | Registered | Parked | Arrived | Busy | Gone

  /** The closing thread: not yet, flag up, cutting what it listed, or finished. */
  datatype Sweep = NotYet | Flagged | Cutting(listed: set<Conn>, todo: set<Conn>) | Swept(listed: set<Conn>)

  datatype State = State(spots: map<Conn, Spot>, idle: set<Conn>, closing: bool, sweep: Sweep, cut: set<Conn>)

  datatype Step =
    | Accept(c: Conn)
    | Register(c: Conn)
    | CheckFlag(c: Conn)
    | ReadLine(c: Conn)
    | ReadEnd(c: Conn)
    | Parse(c: Conn)
    | Finish(c: Conn, keep: bool)
    | RaiseFlag
    | ListIdle
    | CutOne(c: Conn)
    | EndSweep

  predicate At(s: State, c: Conn, spot: Spot) {
    c in s.spots && s.spots[c] == spot
  }

  predicate Can(s: State, step: Step) {
    match step
    case Accept(c) => c !in s.spots && s.sweep.NotYet?
    case Register(c) => At(s, c, Ready)
    case CheckFlag(c) => At(s, c, Registered)
    case ReadLine(c) => At(s, c, Parked)
    case ReadEnd(c) => At(s, c, Parked)
    case Parse(c) => At(s, c, Arrived)
    case Finish(c, _) => At(s, c, Busy)
    case RaiseFlag => s.sweep.NotYet?
    case ListIdle => s.sweep.Flagged?
    case CutOne(c) => s.sweep.Cutting? && c in s.sweep.todo
    case EndSweep => s.sweep.Cutting? && s.sweep.todo == {}
  }

  function Do(s: State, step: Step): State
    requires Can(s, step)
  {
    match step
    case Accept(c) => State(s.spots[c := Ready], s.idle, s.closing, s.sweep, s.cut)
    case Register(c) => State(s.spots[c := Registered], s.idle + {c}, s.closing, s.sweep, s.cut)
    case CheckFlag(c) =>
      if s.closing then State(s.spots[c := Gone], s.idle - {c}, s.closing, s.sweep, s.cut)
      else State(s.spots[c := Parked], s.idle, s.closing, s.sweep, s.cut)
    case ReadLine(c) => State(s.spots[c := Arrived], s.idle, s.closing, s.sweep, s.cut)
    case ReadEnd(c) => State(s.spots[c := Gone], s.idle - {c}, s.closing, s.sweep, s.cut)
    case Parse(c) => State(s.spots[c := Busy], s.idle - {c}, s.closing, s.sweep, s.cut)
    case Finish(c, keep) => State(s.spots[c := if keep then Ready else Gone], s.idle - {c}, s.closing, s.sweep, s.cut)
    case RaiseFlag => State(s.spots, s.idle, true, Flagged, s.cut)
    case ListIdle => State(s.spots, s.idle, s.closing, Cutting(s.idle, s.idle), s.cut)
    case CutOne(c) => State(s.spots, s.idle, s.closing, Cutting(s.sweep.listed, s.sweep.todo - {c}), s.cut + {c})
    case EndSweep => State(s.spots, s.idle, s.closing, Swept(s.sweep.listed), s.cut)
  }

  const INITIAL: State := State(map[], {}, false, NotYet, {})

  predicate Runs(s: State, steps: seq<Step>)
    decreases |steps|
  {
    steps == [] || (Can(s, steps[0]) && Runs(Do(s, steps[0]), steps[1..]))
  }

  function After(s: State, steps: seq<Step>): State
    requires Runs(s, steps)
    decreases |steps|
  {
    if steps == [] then s else After(Do(s, steps[0]), steps[1..])
  }

  /** Whoever waits is registered; whoever waits once the sweep has its list is on it, or
      cut already; nobody is cut who was not on the list. */
  predicate Inv(s: State) {
    && s.closing == !s.sweep.NotYet?
    && (forall c :: c in s.spots && s.spots[c] in {Registered, Parked, Arrived} ==> c in s.idle)
    && (forall c :: c in s.idle ==> c in s.spots && s.spots[c] in {Registered, Parked, Arrived})
    && (s.sweep.NotYet? || s.sweep.Flagged? ==> s.cut == {})
    && (s.sweep.Cutting? ==>
          && (forall c :: c in s.spots && s.spots[c].Parked? ==> c in s.sweep.todo || c in s.cut)
          && s.sweep.todo + s.cut == s.sweep.listed)
    && (s.sweep.Swept? ==> (forall c :: c in s.spots && s.spots[c].Parked? ==> c in s.cut) && s.cut == s.sweep.listed)
  }

  lemma StepKeeps(s: State, step: Step)
    requires Inv(s) && Can(s, step)
    ensures Inv(Do(s, step))
  {
  }

  lemma {:induction false} RunKeeps(s: State, steps: seq<Step>)
    requires Inv(s) && Runs(s, steps)
    ensures Inv(After(s, steps))
    decreases |steps|
  {
    if steps != [] {
      StepKeeps(s, steps[0]);
      RunKeeps(Do(s, steps[0]), steps[1..]);
    }
  }

  /** In every interleaving: a connection parked after the flag went up has been cut or
      will be; after the sweep nobody parks uncut. What is cut, in the end, is exactly what
      was idle when the sweep made its list. */
  lemma NobodyParksUnseen(steps: seq<Step>, c: Conn)
    requires Runs(INITIAL, steps)
    ensures var s := After(INITIAL, steps);
      && (At(s, c, Parked) && s.sweep.Flagged? ==> c in s.idle)
      && (At(s, c, Parked) && s.sweep.Cutting? ==> c in s.sweep.todo || c in s.cut)
      && (At(s, c, Parked) && s.sweep.Swept? ==> c in s.cut)
      && (s.sweep.Swept? ==> (c in s.cut <==> c in s.sweep.listed))
      && (c in s.cut ==> (s.sweep.Cutting? || s.sweep.Swept?) && c in s.sweep.listed)
  {
    RunKeeps(INITIAL, steps);
  }

  /** Once the flag is up nobody parks any more. */
  lemma NobodyParksAgain(s: State, step: Step, c: Conn)
    requires Inv(s) && Can(s, step) && s.closing
    ensures At(Do(s, step), c, Parked) ==> At(s, c, Parked)
  {
  }

  /** A request in flight can be cut all the same: its line may arrive between the moment
      the sweep lists the connection and the moment it gets to it. */
  lemma BusyMayBeCut(c: Conn)
    ensures var steps := [Accept(c), Register(c), CheckFlag(c), RaiseFlag, ListIdle, ReadLine(c), Parse(c), CutOne(c)];
      Runs(INITIAL, steps) && At(After(INITIAL, steps), c, Busy) && c in After(INITIAL, steps).cut
  {
    var parked := Do(Do(Do(INITIAL, Accept(c)), Register(c)), CheckFlag(c));
    var listed := Do(Do(parked, RaiseFlag), ListIdle);
    RunCons(Do(Do(listed, ReadLine(c)), Parse(c)), CutOne(c), []);
    RunCons(Do(listed, ReadLine(c)), Parse(c), [CutOne(c)]);
    RunCons(listed, ReadLine(c), [Parse(c), CutOne(c)]);
    RunCons(Do(parked, RaiseFlag), ListIdle, [ReadLine(c), Parse(c), CutOne(c)]);
    RunCons(parked, RaiseFlag, [ListIdle, ReadLine(c), Parse(c), CutOne(c)]);
    RunCons(Do(Do(INITIAL, Accept(c)), Register(c)), CheckFlag(c),
            [RaiseFlag, ListIdle, ReadLine(c), Parse(c), CutOne(c)]);
    RunCons(Do(INITIAL, Accept(c)), Register(c), [CheckFlag(c), RaiseFlag, ListIdle, ReadLine(c), Parse(c), CutOne(c)]);
    RunCons(INITIAL, Accept(c), [Register(c), CheckFlag(c), RaiseFlag, ListIdle, ReadLine(c), Parse(c), CutOne(c)]);
  }

  lemma RunCons(s: State, step: Step, rest: seq<Step>)
    requires Can(s, step) && Runs(Do(s, step), rest)
    ensures Runs(s, [step] + rest) && After(s, [step] + rest) == After(Do(s, step), rest)
  {
    assert ([step] + rest)[1..] == rest;
  }

  /** A connection goes round: idle while it waits, not idle while it is served. */
  lemma GoesRound(s: State, c: Conn, keep: bool)
    requires At(s, c, Ready) && !s.closing && c !in s.idle
    ensures var waiting, serving := [Register(c), CheckFlag(c)], [ReadLine(c), Parse(c)];
      && Runs(s, waiting) && At(After(s, waiting), c, Parked) && After(s, waiting).idle == s.idle + {c}
      && Runs(After(s, waiting), serving)
      && At(After(After(s, waiting), serving), c, Busy) && After(After(s, waiting), serving).idle == s.idle
      && Can(After(After(s, waiting), serving), Finish(c, keep))
      && At(Do(After(After(s, waiting), serving), Finish(c, keep)), c, if keep then Ready else Gone)
  {
    RunCons(Do(s, Register(c)), CheckFlag(c), []);
    RunCons(s, Register(c), [CheckFlag(c)]);
    var parked := After(s, [Register(c), CheckFlag(c)]);
    RunCons(Do(parked, ReadLine(c)), Parse(c), []);
    RunCons(parked, ReadLine(c), [Parse(c)]);
  }

  /** Whoever is not finished can always go on, and under the flag nobody waits any more. */
  lemma HandlersGoOn(s: State, c: Conn)
    requires c in s.spots && s.spots[c] != Gone
    ensures At(s, c, Ready) ==> Can(s, Register(c))
    ensures At(s, c, Registered) ==>
      Can(s, CheckFlag(c)) && At(Do(s, CheckFlag(c)), c, if s.closing then Gone else Parked)
    ensures At(s, c, Parked) ==> Can(s, ReadLine(c)) && Can(s, ReadEnd(c)) && At(Do(s, ReadEnd(c)), c, Gone)
    ensures At(s, c, Arrived) ==> Can(s, Parse(c))
    ensures At(s, c, Busy) ==> Can(s, Finish(c, true)) && Can(s, Finish(c, false))
  {
  }

  /** Left alone, the sweep comes to its end, and cuts whatever was idle when it began. */
  lemma SweepEnds(s: State) returns (steps: seq<Step>)
    requires Inv(s) && s.sweep.NotYet?
    ensures Runs(s, steps) && After(s, steps).sweep == Swept(s.idle) && After(s, steps).cut == s.idle
    ensures After(s, steps).spots == s.spots
  {
    var listed := Do(Do(s, RaiseFlag), ListIdle);
    steps := CutsEnd(listed);
    RunCons(Do(s, RaiseFlag), ListIdle, steps);
    RunCons(s, RaiseFlag, [ListIdle] + steps);
    steps := [RaiseFlag] + ([ListIdle] + steps);
  }

  lemma {:induction false} CutsEnd(s: State) returns (steps: seq<Step>)
    requires Inv(s) && s.sweep.Cutting?
    ensures Runs(s, steps) && After(s, steps).sweep == Swept(s.sweep.listed)
    ensures After(s, steps).cut == s.sweep.listed && After(s, steps).spots == s.spots
    decreases s.sweep.todo
  {
    var todo := s.sweep.todo;
    if todo == {} {
      RunCons(s, EndSweep, []);
      steps := [EndSweep];
    } else {
      assert (forall c :: c !in todo) ==> todo == {};
      var c :| c in todo;
      StepKeeps(s, CutOne(c));
      steps := CutsEnd(Do(s, CutOne(c)));
      RunCons(s, CutOne(c), steps);
      steps := [CutOne(c)] + steps;
    }
  }
}
