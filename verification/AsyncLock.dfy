/** Asynchronous waiters competing for the locks of the backend, cancelled at any moment. */
module AsyncLock {
  import opened ByteStrings
  import opened TtlLock

  /** One asynchronous acquisition: its attempt runs in a worker thread and may outlive the
      waiter. A waiter that gave up, was refused, or has released is Over. */
  datatype Waiter =
    | Attempting(key: Key, cancelled: bool)
    | Settled(key: Key, won: Option<Entry>, cancelled: bool)
    | Holding(key: Key, entry: Entry)
    | Over

  /** `owners` lists, token by token, the waiter whose attempt drew it. */
  datatype World = World(holders: Holders, now: nat, waiters: seq<Waiter>, owners: seq<int>)

  datatype Step =
    | Begin(key: Key)
    | Attempt(w: int, ttl: nat)
    | Resume(w: int, again: bool)
    | Cancel(w: int)
    | Discard(w: int)
    | Leave(w: int)
    | Tick(passed: nat)

  predicate IsWaiter(s: World, w: int) {
    0 <= w < |s.waiters|
  }

  predicate Can(s: World, step: Step) {
    match step
    case Begin(_) => true
    case Attempt(w, _) => IsWaiter(s, w) && s.waiters[w].Attempting?
    case Resume(w, _) => IsWaiter(s, w) && s.waiters[w].Settled? && !s.waiters[w].cancelled
    case Cancel(w) =>
      IsWaiter(s, w) && (s.waiters[w].Attempting? || s.waiters[w].Settled?) && !s.waiters[w].cancelled
    case Discard(w) => IsWaiter(s, w) && s.waiters[w].Settled? && s.waiters[w].cancelled
    case Leave(w) => IsWaiter(s, w) && s.waiters[w].Holding?
    case Tick(_) => true
  }

  function Do(s: World, step: Step): World
    requires Can(s, step)
  {
    match step
    case Begin(key) => World(s.holders, s.now, s.waiters + [Attempting(key, false)], s.owners)
    case Attempt(w, ttl) =>
      var key, cancelled, entry := s.waiters[w].key, s.waiters[w].cancelled, Entry(|s.owners|, s.now + ttl);
      if Free(EntryOf(s.holders, key), s.now) then
        World(s.holders[key := entry], s.now, s.waiters[w := Settled(key, Some(entry), cancelled)], s.owners + [w])
      else
        World(s.holders, s.now, s.waiters[w := Settled(key, None, cancelled)], s.owners)
    case Resume(w, again) =>
      var key, won := s.waiters[w].key, s.waiters[w].won;
      var resumed := if won.Some? then Holding(key, won.value) else if again then Attempting(key, false) else Over;
      World(s.holders, s.now, s.waiters[w := resumed], s.owners)
    case Cancel(w) =>
      var waiter := s.waiters[w];
      var gone := if waiter.Attempting? then Attempting(waiter.key, true) else Settled(waiter.key, waiter.won, true);
      World(s.holders, s.now, s.waiters[w := gone], s.owners)
    case Discard(w) =>
      var key, won := s.waiters[w].key, s.waiters[w].won;
      World(if won.Some? then Released(s.holders, key, won.value.token) else s.holders, s.now, s.waiters[w := Over],
          s.owners)
    case Leave(w) =>
      World(Released(s.holders, s.waiters[w].key, s.waiters[w].entry.token), s.now, s.waiters[w := Over], s.owners)
    case Tick(passed) => World(s.holders, s.now + passed, s.waiters, s.owners)
  }

  /** The lock a waiter has won and not given back, if any. */
  function Carried(waiter: Waiter): Option<Entry> {
    match waiter
    case Settled(_, won, _) => won
    case Holding(_, entry) => Some(entry)
    case _ => None
  }

  predicate Drew(s: World, w: int, token: Token) {
    0 <= token < |s.owners| && s.owners[token] == w
  }

  /** A waiter with a lock drew its token, and has the key until time is up. */
  predicate Secure(s: World, w: int)
    requires IsWaiter(s, w)
  {
    var waiter := s.waiters[w];
    Carried(waiter).Some? ==>
      && Drew(s, w, Carried(waiter).value.token)
      && (Carried(waiter).value.expires > s.now ==> EntryOf(s.holders, waiter.key) == Carried(waiter))
  }

  /** An entry belongs to a waiter that still carries it. */
  predicate Owned(s: World, key: Key)
    requires key in s.holders
  {
    var entry := s.holders[key];
    && 0 <= entry.token < |s.owners| && IsWaiter(s, s.owners[entry.token])
    && Carried(s.waiters[s.owners[entry.token]]) == Some(entry) && s.waiters[s.owners[entry.token]].key == key
  }

  predicate Inv(s: World) {
    && (forall w :: 0 <= w < |s.waiters| ==> Secure(s, w))
    && (forall key :: key in s.holders ==> Owned(s, key))
  }

  lemma StepKeeps(s: World, step: Step)
    requires Inv(s) && Can(s, step)
    ensures Inv(Do(s, step))
  {
    var next := Do(s, step);
    forall w | 0 <= w < |next.waiters|
      ensures Secure(next, w)
    {
      assert w < |s.waiters| ==> Secure(s, w);
      assert step.Discard? || step.Leave? ==> Secure(s, step.w);
    }
    forall key | key in next.holders
      ensures Owned(next, key)
    {
      assert key in s.holders ==> Owned(s, key);
    }
  }

  predicate Runs(s: World, steps: seq<Step>)
    decreases |steps|
  {
    steps == [] || (Can(s, steps[0]) && Runs(Do(s, steps[0]), steps[1..]))
  }

  function After(s: World, steps: seq<Step>): World
    requires Runs(s, steps)
    decreases |steps|
  {
    if steps == [] then s else After(Do(s, steps[0]), steps[1..])
  }

  lemma {:induction false} RunKeeps(s: World, steps: seq<Step>)
    requires Inv(s) && Runs(s, steps)
    ensures Inv(After(s, steps))
    decreases |steps|
  {
    if steps != [] {
      StepKeeps(s, steps[0]);
      RunKeeps(Do(s, steps[0]), steps[1..]);
    }
  }

  const INITIAL: World := World(map[], 0, [], [])

  /** In every interleaving, with waiters cancelled at any moment: at most one waiter has
      an unexpired lock on a key, and once every waiter is over no lock is left behind. */
  lemma LocksExcludeAndReturn(steps: seq<Step>, u: nat, v: nat)
    requires Runs(INITIAL, steps)
    requires u < |After(INITIAL, steps).waiters| && v < |After(INITIAL, steps).waiters|
    ensures var s := After(INITIAL, steps);
      Live(s, u) && Live(s, v) && s.waiters[u].key == s.waiters[v].key ==> u == v
    ensures var s := After(INITIAL, steps);
      (forall w :: 0 <= w < |s.waiters| ==> s.waiters[w].Over?) ==> s.holders == map[]
  {
    RunKeeps(INITIAL, steps);
    var s := After(INITIAL, steps);
    assert Secure(s, u) && Secure(s, v);
    if forall w :: 0 <= w < |s.waiters| ==> s.waiters[w].Over? {
      assert forall key :: key !in s.holders;
    }
  }

  predicate Live(s: World, w: int)
    requires IsWaiter(s, w)
  {
    Carried(s.waiters[w]).Some? && Carried(s.waiters[w]).value.expires > s.now
  }

  /** A stale holder's release frees nothing: whoever is live stays so whatever another
      waiter does, until its own release or its time is up. */
  lemma LiveUntilOwnMove(s: World, step: Step, w: int)
    requires Inv(s) && Can(s, step) && IsWaiter(s, w) && Live(s, w)
    requires !(step.Discard? && step.w == w) && !(step.Leave? && step.w == w)
    ensures var next := Do(s, step);
      && IsWaiter(next, w) && next.waiters[w].key == s.waiters[w].key
          && Carried(next.waiters[w]) == Carried(s.waiters[w])
      && (Live(next, w) ==> EntryOf(next.holders, next.waiters[w].key) == Carried(s.waiters[w]))
      && (Live(next, w) || (step.Tick? && Carried(s.waiters[w]).value.expires <= s.now + step.passed))
  {
    StepKeeps(s, step);
    assert Secure(s, w) && Secure(Do(s, step), w);
  }

  /** An attempt in the worker thread is the backend's section under its mutex: from the same
      holders it gives the waiter the same answer, and leaves the same holders. */
  method AttemptIsTryAcquire(backend: Backend, s: World, w: int, ttl: nat) returns (token: Option<Token>)
    requires Can(s, Attempt(w, ttl)) && backend.holders == s.holders && backend.now == s.now
    requires backend.drawn == |s.owners|
    modifies backend
    ensures var next, waiter := Do(s, Attempt(w, ttl)), s.waiters[w];
      && backend.holders == next.holders && backend.drawn == |next.owners|
      && next.waiters == s.waiters[w := next.waiters[w]]
      && next.waiters[w].Settled? && next.waiters[w].key == waiter.key
      && next.waiters[w].cancelled == waiter.cancelled
      && (next.waiters[w].won.Some? <==> token.Some?)
      && (token.Some? ==> next.waiters[w].won == Some(Entry(token.value, s.now + ttl)))
  {
    token := backend.TryAcquire(s.waiters[w].key, ttl);
  }

  /** Giving back, after a cancellation or at the end, is the backend's release of the token
      that was won, if one was. */
  method GivesBack(backend: Backend, s: World, step: Step)
    requires step.Discard? || step.Leave?
    requires Can(s, step) && backend.holders == s.holders
    modifies backend
    ensures backend.holders == Do(s, step).holders && Do(s, step).waiters == s.waiters[step.w := Over]
  {
    var carried := Carried(s.waiters[step.w]);
    if carried.Some? {
      backend.Release(s.waiters[step.w].key, carried.value.token);
    }
  }

  /** Whoever comes to a key that nobody has, or whose time is up, and is left alone, holds it
      until it leaves, for the TTL from its attempt on. */
  lemma FreeKeyIsHeld(s: World, key: Key, ttl: nat)
    requires key in s.holders ==> s.holders[key].expires <= s.now
    ensures var w, entry := |s.waiters|, Entry(|s.owners|, s.now + ttl);
      var steps := [Begin(key), Attempt(w, ttl), Resume(w, false)];
      && Runs(s, steps) && After(s, steps).waiters == s.waiters + [Holding(key, entry)]
      && After(s, steps).holders == s.holders[key := entry]
  {
    var w := |s.waiters|;
    var begun := Do(s, Begin(key));
    var attempted := Do(begun, Attempt(w, ttl));
    assert [Begin(key), Attempt(w, ttl), Resume(w, false)][1..] == [Attempt(w, ttl), Resume(w, false)];
    assert [Attempt(w, ttl), Resume(w, false)][1..] == [Resume(w, false)];
    var held := Do(attempted, Resume(w, false));
    assert Runs(held, []) && After(held, []) == held;
    assert [Resume(w, false)][1..] == [];
    assert Runs(attempted, [Resume(w, false)]) && After(attempted, [Resume(w, false)]) == held;
    assert Runs(begun, [Attempt(w, ttl), Resume(w, false)]);
    assert held.waiters == s.waiters + [Holding(key, Entry(|s.owners|, s.now + ttl))];
  }

  /** A waiter that is cancelled never holds, and what it has won, it gives back. */
  lemma CancelledGivesBack(s: World, w: nat)
    requires Can(s, Cancel(w))
    ensures var next := Do(s, Cancel(w));
      && next.holders == s.holders && Carried(next.waiters[w]) == Carried(s.waiters[w])
      && (forall again :: !Can(next, Resume(w, again)))
      && (s.waiters[w].Settled? ==> Can(next, Discard(w)))
      && (s.waiters[w].Attempting? ==> next.waiters[w] == Attempting(s.waiters[w].key, true))
  {
  }

  /** A holder that stays away, dead or slow, blocks its key for no longer than its time: then
      the next attempt wins. */
  lemma TimeFreesKeys(s: World, w: nat, ttl: nat, passed: nat)
    requires Can(s, Attempt(w, ttl))
    requires s.waiters[w].key in s.holders ==> s.holders[s.waiters[w].key].expires <= s.now + passed
    ensures var later := Do(s, Tick(passed));
      && Can(later, Attempt(w, ttl))
      && Do(later, Attempt(w, ttl)).waiters[w].won == Some(Entry(|s.owners|, s.now + passed + ttl))
      && (forall key :: key != s.waiters[w].key ==>
            EntryOf(Do(later, Attempt(w, ttl)).holders, key) == EntryOf(s.holders, key))
  {
  }

  /** A waiter that is not over can always go on, or its next attempt is under way; and one
      that has won and is not cancelled goes on to hold. */
  lemma WaitersGoOn(s: World, w: nat)
    requires w < |s.waiters|
    ensures s.waiters[w].Attempting? ==> forall ttl :: Can(s, Attempt(w, ttl))
    ensures s.waiters[w].Settled? && s.waiters[w].cancelled ==> Can(s, Discard(w))
    ensures s.waiters[w].Settled? && !s.waiters[w].cancelled ==>
      forall again ::
        && Can(s, Resume(w, again))
        && var next := Do(s, Resume(w, again));
           && next.holders == s.holders
           && (if s.waiters[w].won.Some? then next.waiters[w] == Holding(s.waiters[w].key, s.waiters[w].won.value)
               else next.waiters[w] == if again then Attempting(s.waiters[w].key, false) else Over)
    ensures s.waiters[w].Holding? ==> Can(s, Leave(w))
  {
  }
}
