/** The refcounted per-upload lock of the SQLite backend, as threads see it. */
module UploadLock {
  import opened PatchRules

  /** A thread: outside, between its entry and the lock, holding it, or between the lock
      and its exit. Lock objects are numbered as they are made. */
  datatype Pc = Outside | Waits(id: Id, lock: int) | Holds(id: Id, lock: int) | Leaves(id: Id)

  /** `owner` says which lock objects are held; `made` counts them. */
  datatype State = State(locks: map<Id, int>, holders: map<Id, int>, owner: map<int, int>, made: int, pcs: seq<Pc>)

  datatype Step = Enter(id: Id) | Acquire | Release | Exit

  predicate Uses(pc: Pc, id: Id) {
    !pc.Outside? && pc.id == id
  }

  /** How many threads are between entry and exit on this upload. */
  function Users(pcs: seq<Pc>, id: Id): nat {
    if pcs == [] then 0 else Users(pcs[..|pcs| - 1], id) + if Uses(pcs[|pcs| - 1], id) then 1 else 0
  }

  predicate Can(s: State, t: nat, step: Step) {
    && t < |s.pcs|
    && match step
       case Enter(_) => s.pcs[t].Outside?
       case Acquire => s.pcs[t].Waits? && s.pcs[t].lock !in s.owner
       case Release => s.pcs[t].Holds?
       case Exit => s.pcs[t].Leaves?
  }

  /** The code under the dictionary mutex is one step. */
  function Do(s: State, t: nat, step: Step): State
    requires Can(s, t, step)
  {
    match step
    case Enter(id) =>
      var absent := id !in s.locks;
      var lock := if absent then s.made else s.locks[id];
      var count := if id in s.holders then s.holders[id] else 0;
      State(s.locks[id := lock], s.holders[id := count + 1], s.owner,
            if absent then s.made + 1 else s.made, s.pcs[t := Waits(id, lock)])
    case Acquire =>
      var pc := s.pcs[t];
      State(s.locks, s.holders, s.owner[pc.lock := t], s.made, s.pcs[t := Holds(pc.id, pc.lock)])
    case Release =>
      var pc := s.pcs[t];
      State(s.locks, s.holders, s.owner - {pc.lock}, s.made, s.pcs[t := Leaves(pc.id)])
    case Exit =>
      var id := s.pcs[t].id;
      var count := if id in s.holders then s.holders[id] - 1 else 0;
      if count != 0 then State(s.locks, s.holders[id := count], s.owner, s.made, s.pcs[t := Outside])
      else State(s.locks - {id}, s.holders - {id}, s.owner, s.made, s.pcs[t := Outside])
  }

  /** Both dictionaries hold exactly the uploads in use, counted right. */
  ghost predicate Counted(s: State) {
    && s.locks.Keys == s.holders.Keys
    && (forall id: Id :: Users(s.pcs, id) == if id in s.holders then s.holders[id] else 0)
    && (forall id :: id in s.holders ==> s.holders[id] > 0)
  }

  predicate HasLock(pc: Pc) {
    pc.Waits? || pc.Holds?
  }

  /** Whoever waits for or holds a lock has the one in the dictionary. */
  predicate Shared(s: State) {
    && (forall t :: 0 <= t < |s.pcs| && HasLock(s.pcs[t]) ==>
          s.pcs[t].id in s.locks && s.pcs[t].lock == s.locks[s.pcs[t].id])
    && (forall id :: id in s.locks ==> s.locks[id] < s.made)
    && (forall i, j :: i in s.locks && j in s.locks && s.locks[i] == s.locks[j] ==> i == j)
  }

  /** What is held has one holder. */
  predicate Owned(s: State) {
    && (forall t :: 0 <= t < |s.pcs| && s.pcs[t].Holds? ==>
          s.pcs[t].lock in s.owner && s.owner[s.pcs[t].lock] == t)
    && (forall lock :: lock in s.owner ==>
          0 <= s.owner[lock] < |s.pcs| && s.pcs[s.owner[lock]].Holds? && s.pcs[s.owner[lock]].lock == lock)
  }

  ghost predicate Inv(s: State) {
    Counted(s) && Shared(s) && Owned(s)
  }

  lemma {:induction false} UsersChange(pcs: seq<Pc>, t: nat, pc: Pc, id: Id)
    requires t < |pcs|
    ensures Users(pcs[t := pc], id) ==
      Users(pcs, id) - (if Uses(pcs[t], id) then 1 else 0) + (if Uses(pc, id) then 1 else 0)
  {
    var n := |pcs| - 1;
    if t < n {
      UsersChange(pcs[..n], t, pc, id);
      assert pcs[t := pc][..n] == pcs[..n][t := pc];
    } else {
      assert pcs[t := pc][..n] == pcs[..n];
    }
  }

  lemma {:induction false} UserCounts(pcs: seq<Pc>, t: nat, id: Id)
    requires t < |pcs| && Uses(pcs[t], id)
    ensures Users(pcs, id) > 0
  {
    if t < |pcs| - 1 {
      UserCounts(pcs[..|pcs| - 1], t, id);
    }
  }

  lemma {:induction false} NobodyCounts(pcs: seq<Pc>, id: Id)
    requires forall t :: 0 <= t < |pcs| ==> pcs[t].Outside?
    ensures Users(pcs, id) == 0
  {
    if pcs != [] {
      NobodyCounts(pcs[..|pcs| - 1], id);
    }
  }

  lemma CountsKept(s: State, t: nat, step: Step)
    requires Counted(s) && Can(s, t, step)
    ensures Counted(Do(s, t, step))
  {
    var next := Do(s, t, step);
    forall id: Id
      ensures Users(next.pcs, id) == if id in next.holders then next.holders[id] else 0
    {
      UsersChange(s.pcs, t, next.pcs[t], id);
      assert Users(s.pcs, id) == if id in s.holders then s.holders[id] else 0;
    }
    if step.Exit? {
      UserCounts(s.pcs, t, s.pcs[t].id);
    }
  }

  lemma LocksKept(s: State, t: nat, step: Step)
    requires Counted(s) && Shared(s) && Can(s, t, step)
    ensures Shared(Do(s, t, step))
  {
    var next := Do(s, t, step);
    CountsKept(s, t, step);
    forall u | 0 <= u < |next.pcs| && HasLock(next.pcs[u])
      ensures next.pcs[u].id in next.locks && next.pcs[u].lock == next.locks[next.pcs[u].id]
    {
      UserCounts(next.pcs, u, next.pcs[u].id);
      if u != t {
        assert HasLock(s.pcs[u]);
      }
    }
  }

  lemma OwnersKept(s: State, t: nat, step: Step)
    requires Owned(s) && Can(s, t, step)
    ensures Owned(Do(s, t, step))
  {
  }

  lemma StepKeeps(s: State, t: nat, step: Step)
    requires Inv(s) && Can(s, t, step)
    ensures Inv(Do(s, t, step))
  {
    CountsKept(s, t, step);
    LocksKept(s, t, step);
    OwnersKept(s, t, step);
  }

  ghost predicate Run(states: seq<State>) {
    && states != []
    && states[0].locks == map[] && states[0].holders == map[] && states[0].owner == map[]
    && (forall t :: 0 <= t < |states[0].pcs| ==> states[0].pcs[t].Outside?)
    && (forall k :: 0 <= k < |states| - 1 ==> Moves(states[k], states[k + 1]))
  }

  ghost predicate Moves(s: State, next: State) {
    exists t: nat, step :: Can(s, t, step) && next == Do(s, t, step)
  }

  lemma {:induction false} RunKeeps(states: seq<State>, n: nat)
    requires Run(states) && n < |states|
    ensures Inv(states[n])
  {
    if n == 0 {
      forall id: Id
        ensures Users(states[0].pcs, id) == 0
      {
        NobodyCounts(states[0].pcs, id);
      }
    } else {
      RunKeeps(states, n - 1);
      assert Moves(states[n - 1], states[n - 1 + 1]);
      var t: nat, step :| Can(states[n - 1], t, step) && states[n] == Do(states[n - 1], t, step);
      StepKeeps(states[n - 1], t, step);
    }
  }

  /** In every interleaving: two threads on one upload have the same lock object, at most
      one of them holds it, and once nobody is inside both dictionaries are empty. */
  lemma LockExcludes(states: seq<State>, n: nat, t: nat, u: nat)
    requires Run(states) && n < |states| && t < |states[n].pcs| && u < |states[n].pcs|
    ensures var s := states[n];
      && HasLock(s.pcs[t]) && HasLock(s.pcs[u]) && s.pcs[t].id == s.pcs[u].id ==>
        s.pcs[t].lock == s.pcs[u].lock
    ensures var s := states[n];
      s.pcs[t].Holds? && s.pcs[u].Holds? && s.pcs[t].id == s.pcs[u].id ==> t == u
    ensures var s := states[n];
      forall id: Id :: Users(s.pcs, id) == if id in s.holders then s.holders[id] else 0
    ensures var s := states[n];
      (forall v :: 0 <= v < |s.pcs| ==> s.pcs[v].Outside?) ==> s.locks == map[] && s.holders == map[]
  {
    RunKeeps(states, n);
    var s := states[n];
    if forall v :: 0 <= v < |s.pcs| ==> s.pcs[v].Outside? {
      forall id | id in s.holders
        ensures false
      {
        NobodyCounts(s.pcs, id);
      }
    }
  }

  ghost predicate Goes(s: State, t: nat) {
    exists step: Step :: !step.Enter? && Can(s, t, step)
  }

  /** Nobody inside is stuck: whoever cannot go on waits for a lock whose holder, on the same
      upload, can. */
  lemma NobodyIsStuck(states: seq<State>, n: nat, t: nat) returns (u: nat)
    requires Run(states) && n < |states| && t < |states[n].pcs| && !states[n].pcs[t].Outside?
    ensures u < |states[n].pcs| && Goes(states[n], u)
    ensures u != t ==>
      && states[n].pcs[t].Waits? && states[n].pcs[u].Holds? && states[n].pcs[u].id == states[n].pcs[t].id
      && states[n].pcs[u].lock == states[n].pcs[t].lock && !Goes(states[n], t)
  {
    RunKeeps(states, n);
    var s := states[n];
    u := t;
    if s.pcs[t].Waits? && s.pcs[t].lock in s.owner {
      u := s.owner[s.pcs[t].lock];
      assert Can(s, u, Release);
    } else if s.pcs[t].Waits? {
      assert Can(s, t, Acquire);
    } else if s.pcs[t].Holds? {
      assert Can(s, t, Release);
    } else {
      assert Can(s, t, Exit);
    }
  }
}
