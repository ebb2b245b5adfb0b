/** Composing many blobs in a GCS bucket, where one call takes at most 32 of them. */
module GcsCompose {
  import opened ByteStrings

  const MAX_PER_CALL: nat := 32

  /** The blobs of one upload: what is to be composed, the temporaries named after round
      and position, and the destination. */
  datatype Key = Source(n: int) | Temporary(round: int, index: int) | Destination

  /** No blob of this or a later round, nor the destination. */
  predicate Before(keys: seq<Key>, round: int) {
    forall i :: 0 <= i < |keys| ==> keys[i].Source? || (keys[i].Temporary? && keys[i].round < round)
  }

  predicate Agree(was: map<Key, Bytes>, blobs: map<Key, Bytes>, keys: seq<Key>) {
    forall i :: 0 <= i < |keys| ==> keys[i] in was && keys[i] in blobs && blobs[keys[i]] == was[keys[i]]
  }

  /** Nothing but temporaries of this round changes, and those that appear are listed. */
  predicate OnlyMade(was: map<Key, Bytes>, blobs: map<Key, Bytes>, made: set<Key>, round: int) {
    && blobs - made == was - made
    && forall k :: k in made ==> k.Temporary? && k.round == round
  }

  /** The blobs of a round so far: those of earlier rounds, and this round's by position. */
  predicate Level(keys: seq<Key>, round: int) {
    && Before(keys, round + 1)
    && forall i :: 0 <= i < |keys| && keys[i].Temporary? && keys[i].round == round ==> keys[i].index < |keys|
  }

  lemma PartBefore(current: seq<Key>, i: nat, end: nat, round: int)
    requires i <= end <= |current| && Before(current, round)
    ensures Before(current[i..end], round)
  {
    assert forall j :: 0 <= j < end - i ==> current[i..end][j] == current[i + j];
  }

  lemma AgreeOnPart(was: map<Key, Bytes>, blobs: map<Key, Bytes>, current: seq<Key>, i: nat, end: nat)
    requires i <= end <= |current| && Agree(was, blobs, current)
    ensures Agree(was, blobs, current[i..end])
  {
    var part := current[i..end];
    assert forall j :: 0 <= j < |part| ==> part[j] == current[i + j];
  }

  lemma AgreeJoins(was: map<Key, Bytes>, blobs: map<Key, Bytes>, keys: seq<Key>)
    requires Agree(was, blobs, keys)
    ensures HasFiles(was, keys) && HasFiles(blobs, keys) && Joined(was, keys) == Joined(blobs, keys)
  {
    JoinedSame(was, blobs, keys);
  }

  /** A string grows by the next batch, which this round has not touched. */
  lemma PrefixGrows(was: map<Key, Bytes>, blobs: map<Key, Bytes>, current: seq<Key>, i: nat, end: nat)
    requires i <= end <= |current| && Agree(was, blobs, current)
    ensures HasFiles(was, current[..i]) && HasFiles(was, current[..end]) && HasFiles(blobs, current[i..end])
    ensures Joined(was, current[..end]) == Joined(was, current[..i]) + Joined(blobs, current[i..end])
  {
    var head, batch := current[..i], current[i..end];
    AgreeOnPart(was, blobs, current, 0, i);
    AgreeOnPart(was, blobs, current, i, end);
    assert current[0..i] == head && current[..end] == head + batch;
    AgreeJoins(was, blobs, head);
    AgreeJoins(was, blobs, batch);
    JoinedAppend(was, head, batch);
  }

  /** A new temporary takes the place of no blob of the level. */
  lemma LevelGrows(blobs: map<Key, Bytes>, next: seq<Key>, round: int, content: Bytes)
    requires HasFiles(blobs, next) && Level(next, round)
    ensures var key := Temporary(round, |next|);
      var after := blobs[key := content];
      && HasFiles(after, next + [key]) && Level(next + [key], round)
      && Joined(after, next + [key]) == Joined(blobs, next) + content
  {
    var key := Temporary(round, |next|);
    JoinedSame(blobs, blobs[key := content], next);
    JoinedSnoc(blobs[key := content], next, key);
  }

  lemma MadeGrows(was: map<Key, Bytes>, blobs: map<Key, Bytes>, made: set<Key>, round: int, index: int, content: Bytes)
    requires OnlyMade(was, blobs, made, round)
    ensures var key := Temporary(round, index); OnlyMade(was, blobs[key := content], made + {key}, round)
  {
    var key := Temporary(round, index);
    assert blobs[key := content] - (made + {key}) == (blobs - made) - {key};
    assert was - (made + {key}) == (was - made) - {key};
  }

  lemma MadeJoins(a: map<Key, Bytes>, b: map<Key, Bytes>, c: map<Key, Bytes>, made: set<Key>, added: set<Key>)
    requires b - made == a - made && c - added == b - added
    ensures c - (made + added) == a - (made + added)
  {
    assert c - (made + added) == (c - added) - made;
    assert a - (made + added) == (a - made) - added;
    assert (b - made) - added == (b - added) - made;
  }

  class Bucket {
    var blobs: map<Key, Bytes>

    constructor (blobs: map<Key, Bytes>)
      ensures this.blobs == blobs
    {
      this.blobs := blobs;
    }

    /** The service call, which rejects more than 32 sources. */
    method Compose(dest: Key, sources: seq<Key>)
      requires 1 <= |sources| <= MAX_PER_CALL && HasFiles(blobs, sources)
      modifies this
      ensures blobs == old(blobs)[dest := Joined(old(blobs), sources)]
    {
      blobs := blobs[dest := Joined(blobs, sources)];
    }

    /** The next batch becomes a temporary, a batch of one stays itself. */
    method ComposeBatch(batch: seq<Key>, round: nat, next: seq<Key>) returns (key: Key)
      requires 1 <= |batch| <= MAX_PER_CALL && HasFiles(blobs, batch) && Before(batch, round)
      requires HasFiles(blobs, next) && Level(next, round)
      modifies this
      ensures key == if |batch| == 1 then batch[0] else Temporary(round, |next|)
      ensures |batch| == 1 ==> blobs == old(blobs)
      ensures |batch| > 1 ==> blobs == old(blobs)[key := Joined(old(blobs), batch)]
      ensures HasFiles(blobs, next + [key]) && Level(next + [key], round)
      ensures Joined(blobs, next + [key]) == Joined(old(blobs), next) + Joined(old(blobs), batch)
    {
      if |batch| == 1 {
        JoinedSnoc(blobs, next, batch[0]);
        JoinedOne(blobs, batch[0]);
        assert [batch[0]] == batch;
        key := batch[0];
      } else {
        LevelGrows(blobs, next, round, Joined(blobs, batch));
        key := Temporary(round, |next|);
        Compose(key, batch);
      }
    }

    /** One round over all blobs. */
    method ComposeRound(current: seq<Key>, round: nat) returns (next: seq<Key>, made: set<Key>)
      requires HasFiles(blobs, current) && Before(current, round)
      modifies this
      ensures HasFiles(blobs, next) && Before(next, round + 1)
      ensures Joined(blobs, next) == Joined(old(blobs), current)
      ensures |next| == (|current| + MAX_PER_CALL - 1) / MAX_PER_CALL
      ensures OnlyMade(old(blobs), blobs, made, round)
    {
      next, made := [], {};
      var i := 0;
      while i < |current|
        invariant i == Min(MAX_PER_CALL * |next|, |current|) && |next| == (i + MAX_PER_CALL - 1) / MAX_PER_CALL
        invariant HasFiles(blobs, next) && Level(next, round)
        invariant Joined(blobs, next) == Joined(old(blobs), current[..i])
        invariant Agree(old(blobs), blobs, current) && OnlyMade(old(blobs), blobs, made, round)
      {
        var end := Min(i + MAX_PER_CALL, |current|);
        var batch := current[i..end];
        PrefixGrows(old(blobs), blobs, current, i, end);
        PartBefore(current, i, end, round);
        MadeGrows(old(blobs), blobs, made, round, |next|, Joined(blobs, batch));
        var key := ComposeBatch(batch, round, next);
        if |batch| > 1 {
          made := made + {key};
        }
        next, i := next + [key], end;
      }
      assert current[..i] == current;
    }

    /** Composes any number of blobs into the destination, level by level. */
    method ComposeBlobs(sources: seq<Key>)
      requires HasFiles(blobs, sources) && Before(sources, 0)
      modifies this
      ensures sources == [] ==> blobs == old(blobs)
      ensures sources != [] ==> Destination in blobs && blobs[Destination] == Joined(old(blobs), sources)
      ensures forall k :: k in old(blobs) && k.Source? ==> k in blobs && blobs[k] == old(blobs)[k]
      ensures forall k :: k in blobs && k != Destination ==> k in old(blobs)
    {
      if |sources| == 0 {
        return;
      }
      if |sources| == 1 {
        JoinedOne(blobs, sources[0]);
        assert [sources[0]] == sources;
        blobs := blobs[Destination := blobs[sources[0]]];
        return;
      }
      if |sources| <= MAX_PER_CALL {
        Compose(Destination, sources);
        return;
      }
      var made, current, round := {}, sources, 0;
      while |current| > MAX_PER_CALL
        invariant HasFiles(blobs, current) && Before(current, round) && |current| >= 2
        invariant Joined(blobs, current) == Joined(old(blobs), sources)
        invariant blobs - made == old(blobs) - made && forall k :: k in made ==> k.Temporary?
        decreases |current|
      {
        var added;
        ghost var before := blobs;
        current, added := ComposeRound(current, round);
        MadeJoins(old(blobs), before, blobs, made, added);
        made, round := made + added, round + 1;
      }
      if |current| == 1 {
        assert false;
      } else {
        Compose(Destination, current);
      }
      blobs := blobs - made;
      assert blobs == (old(blobs) - made)[Destination := Joined(old(blobs), sources)];
    }

    /** The same through a chain: the destination so far and up to 31 more. */
    method ComposeChain(sources: seq<Key>)
      requires sources != [] && HasFiles(blobs, sources) && Before(sources, 0)
      modifies this
      ensures blobs == old(blobs)[Destination := Joined(old(blobs), sources)]
    {
      if |sources| <= MAX_PER_CALL {
        Compose(Destination, sources);
        return;
      }
      Compose(Destination, sources[..MAX_PER_CALL]);
      var done := MAX_PER_CALL;
      while done < |sources|
        invariant done <= |sources|
        invariant blobs == old(blobs)[Destination := Joined(old(blobs), sources[..done])]
      {
        var end := Min(done + MAX_PER_CALL - 1, |sources|);
        PrefixGrows(old(blobs), blobs, sources, done, end);
        JoinedOne(blobs, Destination);
        JoinedAppend(blobs, [Destination], sources[done..end]);
        Compose(Destination, [Destination] + sources[done..end]);
        done := end;
      }
      assert sources[..done] == sources;
    }
  }
}
