/** The in-memory lock backend: per-key tokens that expire. */
module TtlLock {
  import opened ByteStrings

  type Token = int

  type Key = int

  datatype Entry = Entry(token: Token, expires: nat)

  /** A key is free when nobody holds it or the holder's time is up. */
  predicate Free(entry: Option<Entry>, now: nat) {
    entry.None? || entry.value.expires <= now
  }

  /** Releasing with a stale token is a no-op. */
  function Drop(entry: Option<Entry>, token: Token): Option<Entry> {
    if entry.Some? && entry.value.token == token then None else entry
  }

  type Holders = map<Key, Entry>

  function EntryOf(holders: Holders, key: Key): Option<Entry> {
    if key in holders then Some(holders[key]) else None
  }

  function Released(holders: Holders, key: Key, token: Token): (after: Holders)
    ensures EntryOf(after, key) == Drop(EntryOf(holders, key), token)
    ensures after - {key} == holders - {key}
  {
    if key in holders && holders[key].token == token then holders - {key} else holders
  }

  class Backend {
    var holders: Holders
    // The monotonic clock, and the tokens handed out so far.
    var now: nat
    var drawn: Token
    // The holders as the others last left them while this caller slept.
    ghost var seen: Holders

    constructor ()
      ensures holders == map[] && drawn == 0
    {
      holders, now, drawn := map[], 0, 0;
      seen := map[];
    }

    /** The section under the mutex. */
    method TryAcquire(key: Key, ttl: nat) returns (token: Option<Token>)
      modifies this`holders, this`drawn
      ensures token.Some? <==> (key in old(holders) ==> old(holders)[key].expires <= now)
      ensures token.Some? == Free(EntryOf(old(holders), key), now)
      ensures token.Some? ==> token.value == old(drawn) && drawn == old(drawn) + 1
      ensures token.None? ==> drawn == old(drawn)
      ensures holders == if token.Some? then old(holders)[key := Entry(token.value, now + ttl)] else old(holders)
    {
      if key !in holders || holders[key].expires <= now {
        token := Some(drawn);
        drawn := drawn + 1;
        holders := holders[key := Entry(token.value, now + ttl)];
      } else {
        token := None;
      }
    }

    method Release(key: Key, token: Token)
      modifies this`holders
      ensures holders == Released(old(holders), key, token)
    {
      if key in holders && holders[key].token == token {
        holders := holders - {key};
      }
    }

    /** Time passes, others acquire and release. */
    method Sleep()
      modifies this
      ensures now > old(now) && drawn >= old(drawn) && seen == holders
    {
      var slept: nat, taken: nat, others: Holders := *, *, *;
      now, drawn, holders := now + 1 + slept, drawn + taken, others;
      seen := others;
    }

    /** The holders as this caller found them at its last attempt: as they were at first if
        it never slept. */
    twostate function Found(): Holders
      reads this
    {
      if now == old(now) then old(holders) else seen
    }

    /** Polls until the key is free or the deadline has passed: the lock is taken from
        nobody, and refused only after the deadline. */
    method Acquire(key: Key, ttl: nat, waitFor: nat) returns (token: Option<Token>)
      modifies this
      ensures token.Some? ==>
        && (key in Found() ==> Found()[key].expires <= now)
        && holders == Found()[key := Entry(token.value, now + ttl)]
      ensures token.None? ==> holders == Found()
      ensures token.Some? ==> old(drawn) <= token.value < drawn
      ensures token.None? ==> now >= old(now) + waitFor && key in holders && now < holders[key].expires
      ensures old(key in holders ==> holders[key].expires <= now) ==> token.Some? && now == old(now)
      ensures waitFor == 0 ==> now == old(now)
    {
      var deadline := now + waitFor;
      while true
        invariant drawn >= old(drawn) && now >= old(now)
        invariant holders == Found()
        invariant (old(Free(EntryOf(holders, key), now)) || waitFor == 0) ==> now == old(now)
        decreases deadline - now
      {
        token := TryAcquire(key, ttl);
        if token.Some? {
          return;
        }
        if now >= deadline {
          return;
        }
        Sleep();
      }
    }
  }
}
