/** Uploading one file, as a whole or in slices, across sessions: URLs are remembered,
    stale ones recreated, and slices merged on the server. */
module Parallel {
  import opened ByteStrings
  import opened PatchRules
  import opened SqliteStorage
  import opened Channel
  import opened FileSlice
  import opened Uploader
  import opened Split
  import opened Handlers

  /** What a remembered URL turns out to be. */
  datatype Lookup = Usable | Stale | Failed

  function LookupOf(answer: HeadAnswer): Lookup {
    match answer
    case Found(_, _) => Usable
    case HeadRejected(status) => if status == 404 || status == 410 then Stale else Failed
    case NoAnswer => Failed
  }

  /** The row of a new upload, complete at once when there is nothing to send. */
  function NewRow(source: Bytes, partial: bool): Row {
    Row(Some(|source|), 0, source == [], partial, [], None)
  }

  predicate Distinct(ids: seq<Id>) {
    forall i, j :: 0 <= i < j < |ids| ==> ids[i] != ids[j]
  }

  function Ids(ids: seq<Id>): set<Id> {
    set id | id in ids
  }

  lemma IdsSnoc(ids: seq<Id>, last: Id)
    ensures Ids(ids + [last]) == Ids(ids) + {last}
  {
  }

  datatype Progress = Going | Done | Failing

  /** Each of these is the remembered partial of its slice or a new one. */
  predicate Picked(stored: Option<seq<Id>>, uuids: seq<Id>, urls: seq<Id>) {
    && |urls| <= |uuids| && (stored.Some? ==> |urls| <= |stored.value|)
    && forall k :: 0 <= k < |urls| ==> urls[k] == uuids[k] || (stored.Some? && urls[k] == stored.value[k])
  }

  lemma PickedGrows(stored: Option<seq<Id>>, uuids: seq<Id>, urls: seq<Id>, url: Id)
    requires Picked(stored, uuids, urls) && |urls| < |uuids| && (stored.Some? ==> |urls| < |stored.value|)
    requires url == uuids[|urls|] || (stored.Some? && url == stored.value[|urls|])
    ensures Picked(stored, uuids, urls + [url])
  {
  }

  lemma PickedDistinct(stored: Option<seq<Id>>, uuids: seq<Id>, urls: seq<Id>)
    requires Picked(stored, uuids, urls) && Distinct(uuids)
    requires stored.Some? ==> Distinct(stored.value) && Ids(stored.value) !! Ids(uuids)
    ensures Distinct(urls)
  {
    forall i, j | 0 <= i < j < |urls|
      ensures urls[i] != urls[j]
    {
      assert uuids[i] in Ids(uuids) && uuids[j] in Ids(uuids);
      assert stored.Some? ==> stored.value[i] in Ids(stored.value) && stored.value[j] in Ids(stored.value);
    }
  }

  /** Remembered partials that were there are continued, and nothing was created but the
      others. */
  predicate Continued(had: set<Id>, has: set<Id>, stored: Option<seq<Id>>, uuids: seq<Id>, urls: seq<Id>) {
    && |urls| <= |uuids| && (stored.Some? ==> |urls| <= |stored.value|)
    && has == had + Ids(urls)
    && forall k :: 0 <= k < |urls| ==>
         urls[k] == if stored.Some? && stored.value[k] in had then stored.value[k] else uuids[k]
  }

  /** The k-th remembered partial, if it is there, or else a new upload. */
  predicate Chosen(has: set<Id>, after: set<Id>, stored: Option<seq<Id>>, k: nat, uuid: Id, url: Id)
    requires stored.Some? ==> k < |stored.value|
  {
    if stored.Some? && stored.value[k] in has then url == stored.value[k] && after == has
    else url == uuid && after == has + {url}
  }

  lemma ContinuedGrows(had: set<Id>, has: set<Id>, after: set<Id>, stored: Option<seq<Id>>, uuids: seq<Id>,
      urls: seq<Id>, url: Id)
    requires Continued(had, has, stored, uuids, urls)
    requires |urls| < |uuids| && (stored.Some? ==> |urls| < |stored.value| && Ids(stored.value) !! Ids(uuids))
    requires Chosen(has, after, stored, |urls|, uuids[|urls|], url)
    ensures Continued(had, after, stored, uuids, urls + [url])
  {
    IdsSnoc(urls, url);
    if stored.Some? && stored.value[|urls|] in Ids(urls) {
      var k :| 0 <= k < |urls| && urls[k] == stored.value[|urls|];
      assert uuids[k] in Ids(uuids) && stored.value[|urls|] in Ids(stored.value);
    }
  }

  /** With every remembered partial there, nothing was created. */
  lemma AllContinued(had: set<Id>, has: set<Id>, stored: Option<seq<Id>>, uuids: seq<Id>, urls: seq<Id>)
    requires Continued(had, has, stored, uuids, urls)
    ensures stored.Some? && |urls| == |stored.value| && Ids(stored.value) <= had ==> has == had
  {
    if stored.Some? && |urls| == |stored.value| && Ids(stored.value) <= had {
      forall id | id in Ids(urls)
        ensures id in had
      {
        var k :| 0 <= k < |urls| && urls[k] == id;
        assert stored.value[k] in Ids(stored.value);
      }
    }
  }

  predicate NoneFails(progress: seq<Progress>) {
    forall i :: 0 <= i < |progress| ==> !progress[i].Failing?
  }

  function Work(left: seq<nat>): nat {
    if left == [] then 0 else Work(left[..|left| - 1]) + left[|left| - 1]
  }

  lemma {:induction false} WorkDrops(left: seq<nat>, i: nat, fewer: nat)
    requires i < |left| && fewer < left[i]
    ensures Work(left[i := fewer]) < Work(left)
  {
    var n := |left| - 1;
    if i < n {
      WorkDrops(left[..n], i, fewer);
      assert left[i := fewer][..n] == left[..n][i := fewer];
    } else {
      assert left[i := fewer][..n] == left[..n];
    }
  }

  class Session {
    const remote: Remote
    const disk: Bytes
    const chunkSize: nat
    const maxRetries: nat
    const userDecides: bool
    const storeUrl: bool
    // The URL storage, under the fingerprint of this file.
    var finalUrl: Option<Id>
    var partialUrls: Option<seq<Id>>
    // What every upload this client ever created is a copy of.
    ghost var sources: map<Id, Bytes>
    // Those of them that are partials.
    ghost var partials: set<Id>

    ghost predicate Valid()
      reads this, remote, remote.storage
    {
      && chunkSize >= 1 && partials <= sources.Keys
      && (forall id :: id in sources ==> remote.Follows(id, sources[id]) && Created(id))
      && (finalUrl.Some? ==> finalUrl.value in sources && sources[finalUrl.value] == disk)
      && (partialUrls.Some? ==>
            Distinct(partialUrls.value) && AreSlices(partialUrls.value, Boundaries(|disk|, |partialUrls.value|)))
    }

    /** A row of an upload that this client created. */
    ghost predicate Created(id: Id)
      reads this, remote, remote.storage
    {
      id in remote.storage.rows ==>
        var row := remote.storage.rows[id];
        row.expires.None? && row.length.Some? && (id in partials ==> row.partial)
    }

    /** Uploads of the first of these slices. */
    ghost predicate AreSlices(ids: seq<Id>, ranges: seq<Range>)
      reads this
    {
      |ids| <= |ranges| && forall i :: 0 <= i < |ids| ==> ids[i] in partials && IsSlice(ids[i], ranges[i])
    }

    ghost predicate IsSlice(id: Id, range: Range)
      reads this
    {
      id in sources && range.lo <= range.hi <= |disk| && sources[id] == disk[range.lo..range.hi]
    }

    ghost predicate Unused(id: Id)
      reads this, remote, remote.storage
    {
      id !in remote.storage.rows && id !in remote.storage.files && id !in remote.Unmarked() && id !in sources
    }

    constructor (remote: Remote, disk: Bytes, chunkSize: nat, maxRetries: nat, userDecides: bool, storeUrl: bool)
      requires chunkSize >= 1
      ensures this.remote == remote && this.disk == disk && Valid() && sources == map[] && partials == {}
      ensures finalUrl.None? && partialUrls.None? && this.storeUrl == storeUrl
    {
      this.remote, this.disk, this.chunkSize := remote, disk, chunkSize;
      this.maxRetries, this.userDecides, this.storeUrl := maxRetries, userDecides, storeUrl;
      finalUrl, partialUrls, sources, partials := None, None, map[], {};
    }

    /** Known uploads keep their source and never lose ground. */
    twostate predicate Keeps()
      reads this, remote, remote.storage
    {
      && old(partials) <= partials
      && forall id :: id in old(sources) ==> id in sources && sources[id] == old(sources)[id] && remote.Onward(id)
    }

    /** Ids the client has not used yet, but for these, stay unused. */
    twostate predicate Spares(used: set<Id>)
      reads this, remote, remote.storage
    {
      forall id :: old(Unused(id)) && id !in used ==> Unused(id)
    }

    twostate lemma StaysValid(changed: Id)
      requires old(Valid()) && remote.Apart(changed)
      requires sources == old(sources) && partials == old(partials)
      requires finalUrl == old(finalUrl) && partialUrls == old(partialUrls)
      requires changed in sources ==> remote.Follows(changed, sources[changed]) && remote.Onward(changed)
      ensures Valid() && Keeps() && Spares({changed})
    {
      forall id | id != changed
        ensures id in sources ==> remote.Follows(id, sources[id]) && remote.Onward(id) && Created(id)
        ensures old(Unused(id)) ==> Unused(id)
      {
        AgreeOn(old(remote.storage.rows), remote.storage.rows, changed, id);
        AgreeOn(old(remote.storage.files), remote.storage.files, changed, id);
        assert id in remote.died <==> id in remote.died - {changed};
        assert id in old(remote.died) <==> id in old(remote.died) - {changed};
        assert id in remote.between <==> id in remote.between - {changed};
        assert id in old(remote.between) <==> id in old(remote.between) - {changed};
      }
    }

    /** The server takes an upload of this size. */
    predicate SizeFits(n: nat) {
      remote.limits.maxSize > 0 ==> n <= remote.limits.maxSize
    }

    /** Every chunk this client sends fits. */
    predicate ChunksFit() {
      remote.limits.maxChunk > 0 ==> chunkSize <= remote.limits.maxChunk
    }

    /** POST for a new upload. Request or answer may be lost, and the server refuses what is
        too large. */
    method Create(id: Id, source: Bytes, partial: bool) returns (ok: bool)
      requires Valid() && Unused(id)
      modifies this`sources, this`partials, remote.storage
      ensures Valid() && Keeps() && Spares({id}) && sources == old(sources)[id := source]
      ensures partials == if partial then old(partials) + {id} else old(partials)
      ensures remote.calm ==> ok == SizeFits(|source|)
      ensures remote.calm ==>
        remote.storage.rows ==
          if ok then old(remote.storage.rows)[id := NewRow(source, partial)] else old(remote.storage.rows)
    {
      ok := Post(id, source, partial);
      StaysValid(id);
      sources, partials := sources[id := source], if partial then partials + {id} else partials;
    }

    method Post(id: Id, source: Bytes, partial: bool) returns (ok: bool)
      requires id !in remote.storage.rows && id !in remote.storage.files && id !in remote.Unmarked()
      modifies remote.storage
      ensures remote.Apart(id) && remote.Follows(id, source)
      ensures id in remote.storage.rows ==> remote.storage.rows[id] == NewRow(source, partial)
      ensures remote.calm ==> ok == SizeFits(|source|)
      ensures remote.calm ==>
        remote.storage.rows ==
          if ok then old(remote.storage.rows)[id := NewRow(source, partial)] else old(remote.storage.rows)
    {
      var arrives: bool, answered: bool := *, *;
      var accepted := SizeFits(|source|) && (arrives || remote.calm);
      if accepted {
        remote.storage.CreateUpload(id, Row(Some(|source|), 0, false, partial, [], None));
        if |source| == 0 {
          var _ := remote.storage.CompleteUpload(id);
        }
      }
      ok := accepted && (answered || remote.calm);
    }

    method NewClient(url: Id, range: Range) returns (client: Client)
      requires Valid() && IsSlice(url, range)
      ensures fresh(client) && fresh(client.file) && client.remote == remote && client.id == url
      ensures client.chunkSize == chunkSize && client.Shape() && client.file.Content() == sources[url]
    {
      var slice := new Slice(disk, range.lo, range.hi - range.lo);
      client := new Client(remote, url, slice, chunkSize, maxRetries, userDecides);
    }

    /** A new uploader over a slice asks the server where it stands. */
    method Open(url: Id, range: Range) returns (client: Client, found: Lookup)
      requires Valid() && IsSlice(url, range)
      modifies remote`died, remote`between, remote.storage
      ensures Valid() && Keeps() && Spares({url})
      ensures fresh(client) && fresh(client.file) && client.remote == remote && client.id == url
      ensures client.chunkSize == chunkSize && client.Shape() && client.file.Content() == sources[url]
      ensures found.Usable? ==> client.InStep()
      ensures remote.calm ==> remote.storage.Snapshot() == old(remote.storage.Snapshot())
      ensures remote.calm ==>
        if url in remote.storage.rows then found.Usable? && Promising(client, url) else found.Stale?
    {
      client := NewClient(url, range);
      var answer := client.GetOffset();
      found := LookupOf(answer);
      StaysValid(url);
    }

    /** An uploader that stands where the server stands, and knows the length is there. */
    ghost predicate Promising(client: Client, url: Id)
      reads client, remote, remote.storage
    {
      url in remote.storage.rows && client.offset == remote.storage.rows[url].offset && !client.lengthDeferred
    }

    /** An uploader in step over the upload it should continue. */
    ghost predicate Opened(client: Client, url: Id)
      reads this, client, client.file, remote, remote.storage
    {
      && client.remote == remote && client.id == url && client.chunkSize == chunkSize
      && client.Shape() && client.InStep()
      && url in sources && client.file.Content() == sources[url]
    }

    /** On a calm network a remembered upload that is there is continued, and nothing else is
        created; otherwise a new one is, unless it is too large. */
    twostate predicate Reopened(remembered: Option<Id>, uuid: Id, range: Range, ok: bool, url: Id)
      requires range.lo <= range.hi <= |disk|
      reads this, remote, remote.storage
    {
      if remembered.Some? && remembered.value in old(remote.storage.rows) then
        ok && Some(url) == remembered && remote.storage.rows == old(remote.storage.rows) && sources == old(sources)
      else
        && url == uuid && ok == SizeFits(range.hi - range.lo)
        && (ok ==>
              remote.storage.rows == old(remote.storage.rows)[uuid := NewRow(disk[range.lo..range.hi], true)])
    }

    /** A new partial for a slice. */
    method OpenNew(uuid: Id, range: Range) returns (ok: bool, client: Client?)
      requires Valid() && range.lo <= range.hi <= |disk| && Unused(uuid)
      modifies this`sources, this`partials, remote`died, remote`between, remote.storage
      ensures Valid() && Keeps() && Spares({uuid})
      ensures ok ==> client != null && fresh(client) && fresh(client.file)
      ensures ok ==> Opened(client, uuid) && uuid in partials && IsSlice(uuid, range)
      ensures remote.calm ==> Reopened(None, uuid, range, ok, uuid) && (ok ==> Promising(client, uuid))
    {
      client := null;
      ok := Create(uuid, disk[range.lo..range.hi], true);
      if ok {
        var found;
        client, found := Open(uuid, range);
        ok := found.Usable?;
      }
    }

    /** Opens one slice: over its remembered partial if the server still knows it, over a
        new one otherwise. */
    method OpenSlice(remembered: Option<Id>, uuid: Id, range: Range) returns (ok: bool, url: Id, client: Client?)
      requires Valid() && range.lo <= range.hi <= |disk| && Unused(uuid)
      requires remembered.Some? ==> remembered.value in partials && IsSlice(remembered.value, range)
      modifies this`sources, this`partials, remote`died, remote`between, remote.storage
      ensures Valid() && Keeps() && Spares({uuid})
      ensures ok ==> client != null && fresh(client) && fresh(client.file)
      ensures ok ==> Opened(client, url) && url in partials && IsSlice(url, range)
      ensures url == uuid || Some(url) == remembered
      ensures remote.calm ==> Reopened(remembered, uuid, range, ok, url) && (ok ==> Promising(client, url))
    {
      if remembered.Some? {
        var found;
        url := remembered.value;
        client, found := Open(url, range);
        if !found.Stale? {
          return found.Usable?, url, client;
        }
      }
      url := uuid;
      ok, client := OpenNew(uuid, range);
    }

    /** Uploaders over their uploads, each with a file view of its own. */
    ghost predicate AllOpened(clients: seq<Client>, urls: seq<Id>)
      reads this, remote, remote.storage, clients, set c | c in clients :: c.file
    {
      && |clients| == |urls|
      && (forall i :: 0 <= i < |clients| ==> Opened(clients[i], urls[i]))
      && (forall i, j :: 0 <= i < j < |clients| ==> clients[i] != clients[j] && clients[i].file != clients[j].file)
    }

    ghost predicate AllPromising(clients: seq<Client>, urls: seq<Id>)
      reads remote, remote.storage, clients
    {
      |clients| == |urls| && forall i :: 0 <= i < |clients| ==> Promising(clients[i], urls[i])
    }

    /** One more slice next to those already open. */
    method OpenNext(stored: Option<seq<Id>>, uuid: Id, range: Range, ghost ranges: seq<Range>, urls: seq<Id>,
        clients: seq<Client>)
      returns (ok: bool, url: Id, client: Client?)
      requires Valid() && AllOpened(clients, urls) && Unused(uuid)
      requires |urls| < |ranges| && ranges[|urls|] == range && range.lo <= range.hi <= |disk| && AreSlices(urls, ranges)
      requires stored.Some? ==> |stored.value| == |ranges| && AreSlices(stored.value, ranges)
      modifies this`sources, this`partials, remote`died, remote`between, remote.storage
      ensures Valid() && Keeps() && Spares({uuid})
      ensures stored.Some? ==> AreSlices(stored.value, ranges)
      ensures ok ==> client != null && fresh(client) && fresh(client.file)
      ensures ok ==> AllOpened(clients + [client], urls + [url]) && AreSlices(urls + [url], ranges)
      ensures url == uuid || (stored.Some? && url == stored.value[|urls|])
      ensures remote.calm ==>
        && (SizeFits(range.hi - range.lo) ==> ok)
        && (ok && old(AllPromising(clients, urls)) ==> AllPromising(clients + [client], urls + [url]))
        && (ok ==> Chosen(old(remote.storage.rows.Keys), remote.storage.rows.Keys, stored, |urls|, uuid, url))
    {
      var remembered := if stored.Some? then Some(stored.value[|urls|]) else None;
      ok, url, client := OpenSlice(remembered, uuid, range);
      forall j | 0 <= j < |urls|
        ensures Opened(clients[j], urls[j])
        ensures remote.calm && ok && old(AllPromising(clients, urls)) ==> Promising(clients[j], urls[j])
      {
        assert old(Opened(clients[j], urls[j]));
        clients[j].StaysInStep();
      }
    }

    /** Opens every slice up front. */
    method OpenAll(ranges: seq<Range>, stored: Option<seq<Id>>, uuids: seq<Id>)
      returns (ok: bool, urls: seq<Id>, clients: seq<Client>)
      requires Valid() && forall i :: 0 <= i < |ranges| ==> ranges[i].lo <= ranges[i].hi <= |disk|
      requires AllUnused(uuids) && |uuids| == |ranges|
      requires stored.Some? ==> |stored.value| == |ranges| && AreSlices(stored.value, ranges)
      modifies this`sources, this`partials, remote`died, remote`between, remote.storage
      ensures Valid() && Spares(Ids(uuids))
      ensures ok ==> |urls| == |ranges| && AreSlices(urls, ranges) && AllOpened(clients, urls)
      ensures ok ==> Picked(stored, uuids, urls)
      ensures forall c :: c in clients ==> fresh(c) && fresh(c.file)
      ensures remote.calm && SizeFits(|disk|) ==> ok
      ensures remote.calm && ok ==> AllPromising(clients, urls)
      ensures remote.calm && ok ==>
        Continued(old(remote.storage.rows.Keys), remote.storage.rows.Keys, stored, uuids, urls)
    {
      ghost var had := remote.storage.rows.Keys;
      StoredAreUsed(stored, uuids, ranges);
      urls, clients := [], [];
      for i := 0 to |ranges|
        invariant Valid() && Spares(Ids(uuids[..i]))
        invariant stored.Some? ==> AreSlices(stored.value, ranges)
        invariant |urls| == i && AreSlices(urls, ranges) && AllOpened(clients, urls) && Picked(stored, uuids, urls)
        invariant forall c :: c in clients ==> fresh(c) && fresh(c.file)
        invariant remote.calm ==> AllPromising(clients, urls)
        invariant remote.calm ==> Continued(had, remote.storage.rows.Keys, stored, uuids, urls)
      {
        var url, client;
        ghost var has := remote.storage.rows.Keys;
        assert uuids[..i + 1] == uuids[..i] + [uuids[i]];
        IdsSnoc(uuids[..i], uuids[i]);
        ok, url, client := OpenNext(stored, uuids[i], ranges[i], ranges, urls, clients);
        if !ok {
          return false, [], [];
        }
        PickedGrows(stored, uuids, urls, url);
        if remote.calm {
          ContinuedGrows(had, has, remote.storage.rows.Keys, stored, uuids, urls, url);
        }
        var next: Client := client;
        urls, clients := urls + [url], clients + [next];
      }
      ok := true;
      assert uuids[..|ranges|] == uuids;
    }

    /** These uploads, where they are still there, are whole on the server. */
    ghost predicate AllHeld(urls: seq<Id>)
      reads this, remote, remote.storage
    {
      forall i :: 0 <= i < |urls| ==> IsHeld(urls[i])
    }

    ghost predicate IsHeld(url: Id)
      reads this, remote, remote.storage
    {
      url in sources && (url in remote.storage.rows ==> remote.Holds(url, sources[url]))
    }

    /** Every slice that is done is whole on the server. */
    ghost predicate DoneHeld(urls: seq<Id>, progress: seq<Progress>)
      reads this, remote, remote.storage
    {
      |progress| == |urls| && forall i :: 0 <= i < |urls| && progress[i].Done? ==> IsHeld(urls[i])
    }

    /** What is whole stays so while the server moves on. */
    twostate lemma StaysHeld(url: Id)
      requires old(IsHeld(url)) && Valid() && sources == old(sources) && remote.Onward(url)
      ensures IsHeld(url)
    {
      if url in remote.storage.rows {
        assert remote.Follows(url, sources[url]);
        EndHolds(Stored(remote.storage.rows[url], remote.storage.files[url]), sources[url], url in remote.Unmarked());
      }
    }

    /** One turn of one uploader of the pool: a chunk, or what closes its upload. */
    method Turn(client: Client, url: Id) returns (now: Progress)
      requires Valid() && Opened(client, url)
      modifies client`offset, client`lengthDeferred, client`reused, client`requests, client`trouble, client.file,
          remote`died, remote`between, remote.storage
      ensures Valid() && Keeps() && Opened(client, url) && Spares({}) && remote.Apart(url)
      ensures now.Going? ==> client.offset > old(client.offset)
      ensures now.Done? ==> IsHeld(url)
      ensures remote.calm && ChunksFit() && old(Promising(client, url)) ==>
        !now.Failing? && Promising(client, url) && remote.storage.rows.Keys == old(remote.storage.rows.Keys)
    {
      if client.offset < client.file.length {
        var ok := client.UploadNext(client.file.length);
        now := if ok then Going else Failing;
      } else {
        var ok := client.CommitLength();
        now := if ok then Done else Failing;
        if ok && url in remote.storage.rows {
          client.WholeIsHeld();
        }
      }
      StaysValid(url);
    }

    /** A turn leaves the other uploaders in step, and what was whole whole. On a calm network
        none of them fails. */
    method PoolTurn(urls: seq<Id>, clients: seq<Client>, ghost progress: seq<Progress>, i: nat)
      returns (now: Progress)
      requires Valid() && AllOpened(clients, urls) && i < |clients| == |progress|
      requires DoneHeld(urls, progress)
      modifies clients[i], clients[i].file, remote`died, remote`between, remote.storage
      ensures Valid() && AllOpened(clients, urls) && Spares({})
      ensures DoneHeld(urls, progress[i := now])
      ensures now.Going? ==> clients[i].offset > old(clients[i].offset)
      ensures Thrives(clients, urls, !now.Failing?)
    {
      assert Opened(clients[i], urls[i]);
      now := Turn(clients[i], urls[i]);
      forall j | 0 <= j < |urls|
        ensures Opened(clients[j], urls[j])
        ensures j != i && old(Promising(clients[j], urls[j])) && urls[j] != urls[i] ==> Promising(clients[j], urls[j])
      {
        assert old(Opened(clients[j], urls[j]));
        if j != i {
          clients[j].StaysInStep();
          if urls[j] != urls[i] {
            AgreeOn(old(remote.storage.rows), remote.storage.rows, urls[i], urls[j]);
          }
        }
      }
      forall j | 0 <= j < |urls| && progress[j].Done? && j != i
        ensures IsHeld(urls[j])
      {
        assert old(IsHeld(urls[j]));
        StaysHeld(urls[j]);
      }
    }

    /** On a calm network, uploaders of different uploads that stand where the server stands
        do not fail, and stay there. */
    twostate predicate Thrives(clients: seq<Client>, urls: seq<Id>, fine: bool)
      reads this, remote, remote.storage, clients
    {
      remote.calm && ChunksFit() && Distinct(urls) && old(AllPromising(clients, urls)) ==>
        fine && AllPromising(clients, urls) && remote.storage.rows.Keys == old(remote.storage.rows.Keys)
    }

    /** How many turns each uploader can still take, at most. */
    ghost predicate Bounds(left: seq<nat>, clients: seq<Client>, progress: seq<Progress>)
      reads clients, set c | c in clients :: c.file
    {
      && |left| == |clients| == |progress|
      && forall i :: 0 <= i < |clients| && progress[i].Going? ==>
           clients[i].offset <= clients[i].file.length && left[i] == clients[i].file.length - clients[i].offset + 1
    }

    /** A turn of the pool uses up some of the turns that are left. */
    method NextTurn(urls: seq<Id>, clients: seq<Client>, progress: seq<Progress>, i: nat, ghost left: seq<nat>)
      returns (next: seq<Progress>, ghost less: seq<nat>)
      requires Valid() && AllOpened(clients, urls) && i < |clients|
      requires Bounds(left, clients, progress) && progress[i].Going? && DoneHeld(urls, progress)
      modifies clients, set c | c in clients :: c.file, remote`died, remote`between, remote.storage
      ensures Valid() && AllOpened(clients, urls) && Spares({})
      ensures Bounds(less, clients, next) && DoneHeld(urls, next) && Work(less) < Work(left)
      ensures Thrives(clients, urls, NoneFails(progress) ==> NoneFails(next))
    {
      assert forall j :: 0 <= j < |clients| && j != i ==> clients[j] != clients[i];
      var now := PoolTurn(urls, clients, progress, i);
      assert Opened(clients[i], urls[i]);
      ghost var fewer: nat := if now.Going? then clients[i].file.length - clients[i].offset + 1 else 0;
      WorkDrops(left, i, fewer);
      next, less := progress[i := now], left[i := fewer];
    }

    ghost method StartTurns(clients: seq<Client>, urls: seq<Id>, progress: seq<Progress>) returns (left: seq<nat>)
      requires AllOpened(clients, urls) && |progress| == |clients|
      ensures Bounds(left, clients, progress)
    {
      left := [];
      for i := 0 to |clients|
        invariant |left| == i
        invariant forall k :: 0 <= k < i ==> clients[k].offset <= clients[k].file.length &&
                                             left[k] == clients[k].file.length - clients[k].offset + 1
      {
        assert Opened(clients[i], urls[i]);
        left := left + [clients[i].file.length - clients[i].offset + 1];
      }
    }

    /** The pool: the uploaders take turns in any order, and each goes on until it is done or
        fails, whether or not another one fails. */
    method RunAll(urls: seq<Id>, clients: seq<Client>) returns (ok: bool)
      requires Valid() && AllOpened(clients, urls)
      modifies clients, set c | c in clients :: c.file, remote`died, remote`between, remote.storage
      ensures Valid() && Spares({})
      ensures ok ==> AllHeld(urls)
      ensures Thrives(clients, urls, ok)
    {
      ghost var smooth := remote.calm && ChunksFit() && Distinct(urls) && AllPromising(clients, urls);
      var progress := seq(|clients|, _ => Going);
      ghost var left := StartTurns(clients, urls, progress);
      while exists i :: 0 <= i < |progress| && progress[i].Going?
        invariant Valid() && AllOpened(clients, urls) && Spares({})
        invariant Bounds(left, clients, progress) && DoneHeld(urls, progress)
        invariant smooth ==> AllPromising(clients, urls) && remote.storage.rows.Keys == old(remote.storage.rows.Keys)
        invariant smooth ==> NoneFails(progress)
        decreases Work(left)
      {
        var i :| 0 <= i < |progress| && progress[i].Going?;
        progress, left := NextTurn(urls, clients, progress, i, left);
      }
      ok := forall i :: 0 <= i < |progress| ==> progress[i].Done?;
    }

    lemma HeldSlice(urls: seq<Id>, ranges: seq<Range>, k: nat)
      requires k < |urls| == |ranges| && AreSlices(urls, ranges) && AllHeld(urls) && urls[k] in remote.storage.rows
      ensures var db, id, range := remote.storage.Snapshot(), urls[k], ranges[k];
        && range.lo <= range.hi <= |disk| && id in db.files && db.files[id] == disk[range.lo..range.hi]
        && db.Ready(id) && db.rows[id].offset == |db.files[id]|
    {
      assert IsSlice(urls[k], ranges[k]);
      assert IsHeld(urls[k]);
    }

    /** The slices on the server, when all are there, joined, are the file. */
    lemma HeldSlicesJoin(urls: seq<Id>, ranges: seq<Range>)
      requires Valid() && |urls| == |ranges| && Tiles(ranges, |disk|) && AreSlices(urls, ranges) && AllHeld(urls)
      requires AllPartials(remote.storage.rows, urls)
      ensures var db := remote.storage.Snapshot();
        HasFiles(db.files, urls) && Joined(db.files, urls) == disk && db.AllReady(urls) && db.Total(urls) == |disk|
    {
      var db := remote.storage.Snapshot();
      HeldFilesJoin(urls, ranges);
      forall k | 0 <= k < |urls|
        ensures db.Ready(urls[k]) && db.rows[urls[k]].offset == |db.files[urls[k]]|
      {
        HeldSlice(urls, ranges, k);
      }
      TotalIsLength(db, urls);
    }

    lemma HeldFilesJoin(urls: seq<Id>, ranges: seq<Range>)
      requires |urls| == |ranges| && Tiles(ranges, |disk|) && AreSlices(urls, ranges) && AllHeld(urls)
      requires AllPartials(remote.storage.rows, urls)
      ensures var files := remote.storage.files; HasFiles(files, urls) && Joined(files, urls) == disk
    {
      var files := remote.storage.files;
      forall k | 0 <= k < |urls|
        ensures ranges[k].lo <= ranges[k].hi <= |disk|
        ensures urls[k] in files && files[urls[k]] == disk[ranges[k].lo..ranges[k].hi]
      {
        HeldSlice(urls, ranges, k);
      }
      SlicesJoin(disk, ranges, files, urls, |urls|);
      assert urls[..|urls|] == urls && disk[..|disk|] == disk;
    }

    /** The server joins slices that are whole, unless its disk fails. */
    method JoinSlices(id: Id, urls: seq<Id>, ranges: seq<Range>, fault: Option<nat>) returns (joined: bool)
      requires Valid() && Unused(id) && urls != [] && |urls| == |ranges|
      requires Tiles(ranges, |disk|) && AreSlices(urls, ranges) && AllHeld(urls)
      modifies remote.storage
      ensures remote.Apart(id) && remote.storage.rows.Keys <= old(remote.storage.rows.Keys) + {id}
      ensures joined ==> Merged(id) && remote.storage.files[id] == disk
      ensures AllPartials(old(remote.storage.rows), urls) && fault.None? ==> joined
    {
      MergeFits(urls, ranges);
      var merged := remote.storage.ConcatenateUploads(id, urls, None, true, fault);
      joined := merged.Whole? || merged.Waiting?;
    }

    /** The final-creation POST. Its answer may be lost, the server may refuse it, and the
        disk may fail under the copy. On a calm network it goes through exactly if the file is
        not too large. */
    method Merge(id: Id, urls: seq<Id>, ranges: seq<Range>) returns (ok: bool)
      requires Valid() && Unused(id) && urls != [] && |urls| == |ranges|
      requires Tiles(ranges, |disk|) && AreSlices(urls, ranges) && AllHeld(urls)
      modifies remote.storage
      ensures Valid() && Spares({id})
      ensures ok ==> remote.Follows(id, disk) && Merged(id)
      ensures remote.calm && (forall url :: url in urls ==> url in old(remote.storage.rows)) ==>
        ok == SizeFits(|disk|) && remote.storage.rows.Keys <= old(remote.storage.rows.Keys) + {id}
    {
      var refused: bool, answered: bool, fault: Option<nat> := *, *, *;
      MergeFits(urls, ranges);
      if (refused && !remote.calm) || !Fits(remote.storage.rows, urls, remote.limits) {
        return false;
      }
      var joined := JoinSlices(id, urls, ranges, if remote.calm then None else fault);
      StaysValid(id);
      ok := (answered || remote.calm) && joined;
    }

    /** What the server checks before it merges slices that are whole. */
    lemma MergeFits(urls: seq<Id>, ranges: seq<Range>)
      requires Valid() && |urls| == |ranges| && Tiles(ranges, |disk|) && AreSlices(urls, ranges) && AllHeld(urls)
      ensures forall k :: 0 <= k < |urls| && urls[k] in remote.storage.rows ==> urls[k] in remote.storage.files
      ensures AllPartials(remote.storage.rows, urls) ==>
        var db := remote.storage.Snapshot();
        && HasFiles(db.files, urls) && Joined(db.files, urls) == disk && db.AllReady(urls) && db.Total(urls) == |disk|
        && Fits(db.rows, urls, remote.limits) == SizeFits(|disk|)
      ensures (forall url :: url in urls ==> url in remote.storage.rows) ==> AllPartials(remote.storage.rows, urls)
    {
      forall k | 0 <= k < |urls| && urls[k] in remote.storage.rows
        ensures urls[k] in remote.storage.files && remote.storage.rows[urls[k]].partial
      {
        var id := urls[k];
        assert remote.Follows(id, sources[id]) && Created(id);
      }
      if AllPartials(remote.storage.rows, urls) {
        HeldSlicesJoin(urls, ranges);
        TotalIsDeclared(remote.storage.Snapshot(), urls);
        assert forall k :: 0 <= k < |urls| ==> remote.storage.Snapshot().Ready(urls[k]);
      }
    }

    /** The final is there, completed, with the whole file. */
    ghost predicate Merged(id: Id)
      reads this, remote, remote.storage
    {
      && remote.Holds(id, disk) && remote.storage.rows[id].completed && remote.storage.rows[id].expires.None?
    }

    /** A new upload, remembered before its first byte moves. */
    method OpenNewFile(id: Id) returns (client: Client?)
      requires Valid() && Unused(id)
      modifies this`sources, this`partials, this`finalUrl, remote`died, remote`between, remote.storage
      ensures Valid() && Keeps() && Spares({id})
      ensures client != null ==> Opened(client, id) && sources[id] == disk && fresh(client) && fresh(client.file)
      ensures client != null ==> finalUrl == if storeUrl then Some(id) else old(finalUrl)
      ensures finalUrl == old(finalUrl) || (storeUrl && finalUrl == Some(id))
      ensures remote.calm ==>
        && (if SizeFits(|disk|) then client != null else client == null && finalUrl == old(finalUrl))
        && (client != null ==>
              && Promising(client, id)
              && remote.storage.rows == old(remote.storage.rows)[id := NewRow(disk, false)])
    {
      client := null;
      var ok := Create(id, disk, false);
      if ok {
        if storeUrl {
          finalUrl := Some(id);
        }
        assert disk[0..|disk|] == disk;
        var found;
        client, found := Open(id, Range(0, |disk|));
        client := if found.Usable? then client else null;
      }
    }

    /** The upload to continue: the remembered one if the server still knows it, a new one
        otherwise. */
    method OpenFile(uuid: Id) returns (id: Id, client: Client?)
      requires Valid() && Unused(uuid)
      modifies this`sources, this`partials, this`finalUrl, remote`died, remote`between, remote.storage
      ensures Valid() && Keeps() && Spares({uuid})
      ensures client != null ==> Opened(client, id) && sources[id] == disk && fresh(client) && fresh(client.file)
      ensures client != null && storeUrl ==> finalUrl == Some(id)
      ensures !storeUrl ==> finalUrl == old(finalUrl)
      ensures remote.calm && client == null && storeUrl ==> finalUrl.None?
      ensures remote.calm ==>
        && (client != null <==> old(Known()) || SizeFits(|disk|))
        && (client != null ==> Promising(client, id))
        && (old(Known()) ==> Some(id) == old(finalUrl) && remote.storage.rows == old(remote.storage.rows))
    {
      if storeUrl && finalUrl.Some? {
        id := finalUrl.value;
        assert disk[0..|disk|] == disk;
        var found;
        client, found := Open(id, Range(0, |disk|));
        if !found.Stale? {
          return id, if found.Usable? then client else null;
        }
        finalUrl := None;
      }
      id := uuid;
      client := OpenNewFile(id);
    }

    method Finish(id: Id, client: Client, stopAt: Option<int>) returns (ok: bool)
      requires Valid() && Opened(client, id)
      modifies client, client.file, remote`died, remote`between, remote.storage
      ensures Valid() && Keeps() && Spares({})
      ensures ok && stopAt.None? && id in remote.storage.rows ==>
        remote.Holds(id, sources[id]) && remote.storage.rows[id].completed == (id !in remote.Unmarked())
      ensures remote.calm && ChunksFit() && stopAt.None? && old(Promising(client, id)) ==>
        ok && id in remote.storage.rows
    {
      ok := client.Upload(stopAt);
      StaysValid(id);
    }

    /** One stream for the whole file. On a calm network whose server takes the chunks, it
        goes through exactly if there is an upload to continue, or the file is not too large. */
    method UploadFile(uuid: Id, stopAt: Option<int>) returns (url: Option<Id>)
      requires Valid() && Unused(uuid)
      modifies this`sources, this`partials, this`finalUrl, remote`died, remote`between, remote.storage
      ensures Valid() && Keeps() && Spares({uuid})
      ensures url.Some? && stopAt.None? && url.value in remote.storage.rows ==>
        remote.Holds(url.value, disk) && remote.storage.rows[url.value].completed == (url.value !in remote.Unmarked())
      ensures url.Some? && storeUrl ==> finalUrl == url
      ensures !storeUrl ==> finalUrl == old(finalUrl)
      ensures remote.calm && ChunksFit() && stopAt.None? && storeUrl && url.None? ==> finalUrl.None?
      ensures remote.calm && ChunksFit() && stopAt.None? ==>
        && (url.Some? <==> old(Known()) || SizeFits(|disk|))
        && (url.Some? ==> url.value in remote.storage.rows)
        && (old(Known()) ==> url == old(finalUrl))
    {
      var id, client := OpenFile(uuid);
      if client == null {
        return None;
      }
      var ok := Finish(id, client, stopAt);
      url := if ok then Some(id) else None;
    }

    ghost predicate AllUnused(uuids: seq<Id>)
      reads this, remote, remote.storage
    {
      (forall i :: 0 <= i < |uuids| ==> Unused(uuids[i])) && Distinct(uuids)
    }

    /** What earlier sessions left: a final the server still knows, or else the partials of
        a cut into as many slices. A final the server has forgotten is dropped. */
    method Recall(n: nat) returns (final: Lookup, answer: HeadAnswer, stored: Option<seq<Id>>)
      requires Valid()
      modifies this`finalUrl, remote`died, remote`between, remote.storage
      ensures Valid() && Keeps() && Spares({})
      ensures stored.Some? ==> |stored.value| == n && AreSlices(stored.value, Boundaries(|disk|, n))
      ensures final.Stale? ==>
        stored == if storeUrl && partialUrls.Some? && |partialUrls.value| == n then partialUrls else None
      ensures final.Usable? <==> storeUrl && old(finalUrl).Some? && answer.Found?
      ensures final.Stale? <==>
        !storeUrl || old(finalUrl).None? || answer == HeadRejected(404) || answer == HeadRejected(410)
      ensures final.Usable? ==> finalUrl == old(finalUrl) && finalUrl.value in sources
      ensures finalUrl == if final.Stale? && storeUrl then None else old(finalUrl)
      ensures remote.calm ==>
        && remote.storage.Snapshot() == old(remote.storage.Snapshot())
        && (if old(Known()) then final.Usable? else final.Stale?)
    {
      final, answer, stored := Stale, NoAnswer, None;
      if !storeUrl {
        return;
      }
      if finalUrl.Some? {
        answer := remote.Head(finalUrl.value, disk);
        StaysValid(finalUrl.value);
        final := LookupOf(answer);
        if !final.Stale? {
          return;
        }
        finalUrl := None;
      }
      if partialUrls.Some? && |partialUrls.value| == n {
        stored := partialUrls;
      }
    }

    /** The remembered upload is there and does not expire. */
    predicate Known()
      reads this, remote, remote.storage
    {
      && storeUrl && finalUrl.Some? && finalUrl.value in remote.storage.rows
      && remote.storage.rows[finalUrl.value].expires.None?
    }

    /** The pool, then the merge. */
    method UploadRemembered(urls: seq<Id>, clients: seq<Client>, ranges: seq<Range>, spare: Id) returns (ok: bool)
      requires Valid() && Unused(spare) && AllOpened(clients, urls) && Distinct(urls)
      requires urls != [] && |urls| == |ranges| && Tiles(ranges, |disk|) && AreSlices(urls, ranges)
      modifies clients, set c | c in clients :: c.file, remote`died, remote`between, remote.storage
      ensures Valid() && Spares({spare})
      ensures ok ==> remote.Follows(spare, disk) && Merged(spare)
      ensures remote.calm && ChunksFit() && old(AllPromising(clients, urls)) ==>
        ok == SizeFits(|disk|) && remote.storage.rows.Keys <= old(remote.storage.rows.Keys) + {spare}
    {
      ok := RunAll(urls, clients);
      if ok {
        assert remote.calm && ChunksFit() && old(AllPromising(clients, urls)) ==>
          forall i :: 0 <= i < |urls| ==> Promising(clients[i], urls[i]);
        ok := Merge(spare, urls, ranges);
      }
    }

    /** Remember what was opened, before any payload moves, upload it, then merge. */
    method UploadOpened(urls: seq<Id>, clients: seq<Client>, ranges: seq<Range>, spare: Id) returns (ok: bool)
      requires Valid() && Unused(spare) && AllOpened(clients, urls)
      requires urls != [] && |urls| == |ranges| && Tiles(ranges, |disk|) && AreSlices(urls, ranges)
      requires Distinct(urls) && ranges == Boundaries(|disk|, |ranges|)
      modifies this`partialUrls, clients, set c | c in clients :: c.file, remote`died, remote`between, remote.storage
      ensures Valid() && Spares({spare})
      ensures partialUrls == if storeUrl then Some(urls) else old(partialUrls)
      ensures ok ==> remote.Follows(spare, disk) && Merged(spare)
      ensures remote.calm && ChunksFit() && old(AllPromising(clients, urls)) ==>
        ok == SizeFits(|disk|) && remote.storage.rows.Keys <= old(remote.storage.rows.Keys) + {spare}
    {
      Remember(urls, ranges, clients);
      ok := UploadRemembered(urls, clients, ranges, spare);
    }

    /** Open every slice, remember the partials, upload, merge. `allOpen` says whether it came
        to the upload. */
    method UploadSlices(ranges: seq<Range>, stored: Option<seq<Id>>, uuids: seq<Id>, spare: Id)
      returns (ok: bool, allOpen: bool)
      requires Valid() && ranges != [] && Tiles(ranges, |disk|) && ranges == Boundaries(|disk|, |ranges|)
      requires AllUnused(uuids) && |uuids| == |ranges| && Unused(spare) && spare !in uuids
      requires stored.Some? ==> Distinct(stored.value) && |stored.value| == |ranges| && AreSlices(stored.value, ranges)
      modifies this`sources, this`partials, this`partialUrls, remote`died, remote`between, remote.storage
      ensures Valid() && Spares(Ids(uuids) + {spare})
      ensures ok ==> allOpen && remote.Follows(spare, disk) && Merged(spare)
      ensures if allOpen && storeUrl then partialUrls.Some? && |partialUrls.value| == |ranges|
              else partialUrls == old(partialUrls)
      ensures remote.calm && SizeFits(|disk|) ==> allOpen
      ensures remote.calm && ChunksFit() ==>
        && ok == SizeFits(|disk|)
        && (allOpen && stored.Some? && Ids(stored.value) <= old(remote.storage.rows.Keys) ==>
              remote.storage.rows.Keys <= old(remote.storage.rows.Keys) + {spare})
    {
      var urls, clients;
      ghost var had := remote.storage.rows.Keys;
      TilesFit(ranges, |disk|, |ranges|);
      StoredAreUsed(stored, uuids, ranges);
      allOpen, urls, clients := OpenAll(ranges, stored, uuids);
      ok := allOpen;
      if allOpen {
        PickedDistinct(stored, uuids, urls);
        if remote.calm {
          AllContinued(had, remote.storage.rows.Keys, stored, uuids, urls);
        }
        ok := UploadOpened(urls, clients, ranges, spare);
      }
    }

    lemma StoredAreUsed(stored: Option<seq<Id>>, uuids: seq<Id>, ranges: seq<Range>)
      requires Valid() && AllUnused(uuids) && (stored.Some? ==> AreSlices(stored.value, ranges))
      ensures stored.Some? ==> Ids(stored.value) !! Ids(uuids)
    {
      forall id | id in Ids(uuids)
        ensures id !in sources
      {
        var k :| 0 <= k < |uuids| && uuids[k] == id;
      }
    }

    /** The partials are remembered before any payload moves. */
    method Remember(urls: seq<Id>, ranges: seq<Range>, ghost clients: seq<Client>)
      requires Valid() && Distinct(urls) && |urls| == |ranges| && AreSlices(urls, ranges)
      requires ranges == Boundaries(|disk|, |ranges|) && AllOpened(clients, urls)
      modifies this`partialUrls
      ensures Valid() && AreSlices(urls, ranges) && AllOpened(clients, urls) && Spares({})
      ensures partialUrls == if storeUrl then Some(urls) else old(partialUrls)
    {
      if storeUrl {
        partialUrls := Some(urls);
      }
    }

    /** The partials of an earlier session are all there, and the cut is the same. */
    predicate Resumable(n: nat)
      reads this, remote, remote.storage
    {
      && storeUrl && partialUrls.Some? && |partialUrls.value| == n
      && Ids(partialUrls.value) <= remote.storage.rows.Keys
    }

    /** The upload of all slices; then the final takes the place of the partials. */
    method UploadNew(ranges: seq<Range>, stored: Option<seq<Id>>, uuids: seq<Id>, spare: Id) returns (ok: bool)
      requires Valid() && ranges != [] && Tiles(ranges, |disk|) && ranges == Boundaries(|disk|, |ranges|)
      requires AllUnused(uuids) && |uuids| == |ranges| && Unused(spare) && spare !in uuids
      requires stored.Some? ==> Distinct(stored.value) && |stored.value| == |ranges| && AreSlices(stored.value, ranges)
      modifies this`sources, this`partials, this`finalUrl, this`partialUrls, remote`died, remote`between, remote.storage
      ensures Valid() && Spares(Ids(uuids) + {spare})
      ensures ok ==> Merged(spare)
      ensures ok ==>
        finalUrl == (if storeUrl then Some(spare) else old(finalUrl)) &&
        partialUrls == if storeUrl then None else old(partialUrls)
      ensures !ok ==>
        && finalUrl == old(finalUrl)
        && (partialUrls == old(partialUrls) ||
            (storeUrl && partialUrls.Some? && |partialUrls.value| == |ranges|))
        && (remote.calm && storeUrl && SizeFits(|disk|) ==> partialUrls.Some? && |partialUrls.value| == |ranges|)
      ensures remote.calm && ChunksFit() ==>
        && ok == SizeFits(|disk|)
        && (ok && stored.Some? && Ids(stored.value) <= old(remote.storage.rows.Keys) ==>
              remote.storage.rows.Keys <= old(remote.storage.rows.Keys) + {spare})
    {
      var allOpen;
      ok, allOpen := UploadSlices(ranges, stored, uuids, spare);
      if ok && storeUrl {
        sources := sources[spare := disk];
        finalUrl, partialUrls := Some(spare), None;
      }
    }

    /** A remembered URL is handed back exactly if a HEAD finds its upload, on a calm network
        with nothing changed. */
    twostate predicate Recalled(new url: Option<Id>, remembered: bool, answer: HeadAnswer)
      reads this, remote, remote.storage
    {
      && (remembered <==> storeUrl && old(finalUrl).Some? && answer.Found?)
      && (remembered ==> url == old(finalUrl))
      && (remembered && old(remote.Holds(finalUrl.value, disk)) && url.value in remote.storage.rows ==>
            remote.Holds(url.value, disk))
      && (remote.calm && old(Known()) ==>
            remembered && remote.storage.Snapshot() == old(remote.storage.Snapshot()))
    }

    /** What the URL storage has afterwards: the final in place of the partials, or, after a
        failure, the `n` partials for the next session; nothing if no URLs are stored. A final
        is forgotten only if the server no longer knows it. */
    twostate predicate Noted(n: nat, new url: Option<Id>, remembered: bool, answer: HeadAnswer)
      reads this, remote, remote.storage
    {
      var kept := partialUrls == old(partialUrls);
      && (!storeUrl ==> finalUrl == old(finalUrl) && kept)
      && (storeUrl && url.Some? ==> finalUrl == url && if remembered then kept else partialUrls.None?)
      && (url.None? ==>
            && (finalUrl == old(finalUrl) || (finalUrl.None? && answer.HeadRejected?))
            && (kept || (partialUrls.Some? && |partialUrls.value| == n))
            && (remote.calm && storeUrl && SizeFits(|disk|) ==> partialUrls.Some? && |partialUrls.value| == n))
    }

    /** On a calm network, with a server that takes the chunks, the upload goes through exactly
        if it is known or not too large; and for partials that are there, nothing is created
        but the final. */
    twostate predicate GoesThrough(n: nat, new url: Option<Id>)
      reads this, remote, remote.storage
    {
      && (remote.calm && ChunksFit() ==> (url.Some? <==> old(Known()) || SizeFits(|disk|)))
      && (remote.calm && url.Some? && storeUrl ==> Known())
      && (remote.calm && ChunksFit() && url.Some? && old(Resumable(n)) ==>
            remote.storage.rows.Keys <= old(remote.storage.rows.Keys) + {url.value})
    }

    /** Parallel upload of a file that is not empty, cut into these ranges. */
    method UploadRanges(ranges: seq<Range>, uuids: seq<Id>, spare: Id)
      returns (url: Option<Id>, remembered: bool, answer: HeadAnswer)
      requires Valid() && ranges != [] && Tiles(ranges, |disk|) && ranges == Boundaries(|disk|, |ranges|)
      requires AllUnused(uuids) && |uuids| == |ranges| && Unused(spare) && spare !in uuids
      modifies this`sources, this`partials, this`finalUrl, this`partialUrls, remote`died, remote`between, remote.storage
      ensures Valid() && Spares(Ids(uuids) + {spare})
      ensures url.Some? && !remembered ==> Merged(url.value)
      ensures Recalled(url, remembered, answer) && Noted(|ranges|, url, remembered, answer)
      ensures GoesThrough(|ranges|, url)
    {
      var final, stored;
      final, answer, stored := Recall(|ranges|);
      if final.Usable? {
        if old(remote.Holds(finalUrl.value, disk)) && finalUrl.value in remote.storage.rows {
          var id := finalUrl.value;
          assert remote.Follows(id, disk) && remote.Onward(id);
          EndHolds(Stored(remote.storage.rows[id], remote.storage.files[id]), disk, id in remote.Unmarked());
        }
        return finalUrl, true, answer;
      }
      if final.Failed? {
        return None, false, answer;
      }
      var ok := UploadNew(ranges, stored, uuids, spare);
      url, remembered := if ok then Some(spare) else None, false;
    }

    /** How many slices a file of this size is cut into. */
    function Cut(parts: nat): nat {
      if |disk| < parts then 1 else parts
    }

    /** Parallel upload. What it returns is the whole file, completed, unless it is a
        remembered URL, which it hands back without asking whether that upload is whole. */
    method UploadParallel(parts: nat, uuids: seq<Id>) returns (url: Option<Id>, remembered: bool, answer: HeadAnswer)
      requires Valid() && 0 < parts < |uuids| && AllUnused(uuids)
      modifies this`sources, this`partials, this`finalUrl, this`partialUrls, remote`died, remote`between, remote.storage
      ensures Valid() && Spares(Ids(uuids))
      ensures url.Some? && !remembered && disk != [] ==>
        remote.Holds(url.value, disk) && remote.storage.rows[url.value].completed
      ensures url.Some? && !remembered && url.value in remote.storage.rows ==>
        && remote.Holds(url.value, disk)
        && (disk == [] ==> remote.storage.rows[url.value].completed == (url.value !in remote.Unmarked()))
      ensures if disk == [] then !remembered else Recalled(url, remembered, answer)
      ensures disk != [] ==> Noted(Cut(parts), url, remembered, answer)
      ensures disk == [] && storeUrl && url.Some? ==> finalUrl == url
      ensures disk != [] ==> GoesThrough(Cut(parts), url)
      ensures remote.calm && ChunksFit() ==> (url.Some? <==> old(Known()) || SizeFits(|disk|))
    {
      var spare := uuids[|uuids| - 1];
      if |disk| == 0 {
        url := UploadFile(spare, None);
        return url, false, NoAnswer;
      }
      var ranges := SplitBoundaries(|disk|, parts);
      assert spare !in uuids[..|ranges|] && Ids(uuids[..|ranges|]) + {spare} <= Ids(uuids);
      url, remembered, answer := UploadRanges(ranges, uuids[..|ranges|], spare);
    }
  }

  /** A second parallel upload of the same file, on a calm network: once one has gone through,
      any cut gives the same URL again, and the server is left as it is. */
  method UploadTwice(session: Session, parts: nat, uuids: seq<Id>, again: nat, more: seq<Id>)
    returns (first: Option<Id>, second: Option<Id>)
    requires session.Valid() && session.remote.calm && session.storeUrl && session.disk != []
    requires 0 < parts < |uuids| && 0 < again < |more| && session.AllUnused(uuids + more)
    modifies session, session.remote, session.remote.storage
    ensures session.Valid() && (first.Some? ==> second == first)
    ensures first.Some? ==>
      first.value in session.remote.storage.rows && session.finalUrl == first &&
      (old(session.Known()) ==> session.remote.storage.Snapshot() == old(session.remote.storage.Snapshot()))
  {
    SomeUnused(session, uuids, more);
    var remembered, answer;
    first, remembered, answer := session.UploadParallel(parts, uuids);
    ghost var db := session.remote.storage.Snapshot();
    second, remembered, answer := session.UploadParallel(again, more);
    assert first.Some? ==> session.remote.storage.Snapshot() == db;
  }

  lemma SomeUnused(session: Session, uuids: seq<Id>, more: seq<Id>)
    requires session.AllUnused(uuids + more)
    ensures session.AllUnused(uuids) && session.AllUnused(more) && Ids(uuids) !! Ids(more)
  {
    var all := uuids + more;
    assert forall i :: 0 <= i < |uuids| ==> uuids[i] == all[i];
    assert forall i :: 0 <= i < |more| ==> more[i] == all[|uuids| + i];
  }

  /** One stream remembers its upload at creation. When it stops there, a parallel upload of
      the same file returns that upload, without a byte of the file in it. */
  method ReturnsUnfinished(disk: Bytes, first: Id, uuids: seq<Id>)
    returns (session: Session, url: Option<Id>, remembered: bool, answer: HeadAnswer)
    requires disk != [] && |uuids| > 2 && first !in uuids
    requires forall i, j :: 0 <= i < j < |uuids| ==> uuids[i] != uuids[j]
    ensures session.Valid() && session.disk == disk
    ensures remembered && answer.Found? && url == Some(first) && first in session.remote.storage.rows
    ensures session.remote.storage.rows[first].offset == 0 && !session.remote.Holds(first, disk)
  {
    var storage := new Storage();
    var remote := new Remote(storage, Limits(0, 0), true);
    session := new Session(remote, disk, 1, 0, false, true);
    var client := session.OpenNewFile(first);
    url, remembered, answer := session.UploadParallel(2, uuids);
  }
}
