/** The SQLite backend: a table of rows and a directory of files, updated in place. Each
    SQL statement is one map update. */
module SqliteStorage {
  import opened ByteStrings
  import opened PatchRules

  datatype Db = Db(rows: Rows, files: Files) {
    /** `offset == upload_length`, false while the length is deferred. */
    predicate Ready(id: Id) {
      id in rows && rows[id].length == Some(rows[id].offset)
    }

    predicate AllReady(ids: seq<Id>) {
      forall i :: 0 <= i < |ids| ==> Ready(ids[i])
    }

    /** The lengths of complete uploads, added up. */
    function Total(ids: seq<Id>): nat
      requires AllReady(ids)
    {
      if ids == [] then 0
      else assert Ready(ids[|ids| - 1]); Total(ids[..|ids| - 1]) + rows[ids[|ids| - 1]].offset
    }

    predicate Pending(fid: Id) {
      fid in rows && !rows[fid].completed && rows[fid].sources != []
    }

    /** The claim's WHERE clause: never claimed, or claimed by a process that died. */
    predicate Claimable(fid: Id, total: nat) {
      Pending(fid) && (rows[fid].length.None? || rows[fid].length == Some(total))
    }
  }

  datatype Assembly = Assembly(db: Db, total: Option<nat>)

  predicate TooBig(limit: Option<nat>, total: nat) {
    limit.Some? && total > limit.value
  }

  /** What assembling a pending final does when no copy fails. */
  function Assemble(db: Db, fid: Id, limit: Option<nat>): Assembly {
    if !db.Pending(fid) || !db.AllReady(db.rows[fid].sources) then Assembly(db, None)
    else
      var sources := db.rows[fid].sources;
      var total := db.Total(sources);
      if TooBig(limit, total) then Assembly(Db(db.rows - {fid}, db.files - {fid}), None)
      else if !db.Claimable(fid, total) || !HasFiles(db.files, sources) then Assembly(db, None)
      else
        var content := Joined(db.files, sources);
        Assembly(Db(db.rows[fid := db.rows[fid].(length := Some(total), offset := |content|, completed := true)],
                    db.files[fid := content]), Some(total))
  }

  /** What a failed copy leaves: the final is pending again, only its own file differs. */
  predicate RolledBack(before: Db, after: Db, fid: Id) {
    && fid in before.rows && fid in after.files
    && after.rows == before.rows[fid := before.rows[fid].(length := None)]
    && after.files - {fid} == before.files - {fid}
  }

  /** How many buffers it takes to copy `n` bytes. */
  function Buffers(n: nat): nat {
    if n == 0 then 0 else if n < COPY_BUFFER then 1 else 1 + Buffers(n - COPY_BUFFER)
  }

  function AllBuffers(files: Files, ids: seq<Id>): nat
    requires HasFiles(files, ids)
  {
    if ids == [] then 0 else AllBuffers(files, ids[..|ids| - 1]) + Buffers(|files[ids[|ids| - 1]]|)
  }

  lemma {:induction false} FewerBuffers(files: Files, ids: seq<Id>, k: nat)
    requires HasFiles(files, ids) && k <= |ids|
    ensures HasFiles(files, ids[..k]) && AllBuffers(files, ids[..k]) <= AllBuffers(files, ids)
  {
    if k < |ids| {
      FewerBuffers(files, ids[..|ids| - 1], k);
      assert ids[..|ids| - 1][..k] == ids[..k];
    } else {
      assert ids[..k] == ids;
    }
  }

  /** A copy fails when a file of a partial is missing, or the disk takes fewer buffers than
      there are to write. */
  predicate CopyFails(files: Files, ids: seq<Id>, disk: Option<nat>) {
    !HasFiles(files, ids) || (disk.Some? && disk.value < AllBuffers(files, ids))
  }

  /** Whether a copy fails depends on the listed files only. */
  lemma CopyFailsSame(before: Files, after: Files, ids: seq<Id>, disk: Option<nat>)
    requires HasFiles(before, ids) && HasFiles(after, ids)
    requires forall i :: 0 <= i < |ids| ==> after[ids[i]] == before[ids[i]]
    ensures CopyFails(after, ids, disk) == CopyFails(before, ids, disk)
  {
    BuffersSame(before, after, ids);
  }

  lemma {:induction false} BuffersSame(before: Files, after: Files, ids: seq<Id>)
    requires HasFiles(before, ids) && HasFiles(after, ids)
    requires forall i :: 0 <= i < |ids| ==> after[ids[i]] == before[ids[i]]
    ensures AllBuffers(after, ids) == AllBuffers(before, ids)
  {
    if ids != [] {
      BuffersSame(before, after, ids[..|ids| - 1]);
    }
  }

  /** Every partial of this pending final is complete. */
  predicate Due(db: Db, fid: Id) {
    db.Pending(fid) && db.AllReady(db.rows[fid].sources)
  }

  /** The attempt claims the final, and its copy fails. */
  predicate AttemptFails(db: Db, fid: Id, limit: Option<nat>, disk: Option<nat>) {
    && Due(db, fid) && !TooBig(limit, db.Total(db.rows[fid].sources))
    && db.Claimable(fid, db.Total(db.rows[fid].sources)) && CopyFails(db.files, db.rows[fid].sources, disk)
  }

  datatype Merged = Refused | Waiting | Whole(total: nat) | Broken

  predicate AllPartials(rows: Rows, ids: seq<Id>) {
    forall i :: 0 <= i < |ids| ==> ids[i] in rows && rows[ids[i]].partial
  }

  function FinalRow(length: Option<nat>, offset: nat, completed: bool, ids: seq<Id>, expires: Option<nat>): Row {
    Row(length, offset, completed, false, ids, expires)
  }

  const COPY_BUFFER: nat := 1024 * 1024

  class Storage {
    var rows: Rows
    var files: Files

    function Snapshot(): Db
      reads this
    {
      Db(rows, files)
    }

    constructor ()
      ensures rows == map[] && files == map[]
    {
      rows, files := map[], map[];
    }

    method CreateUpload(id: Id, row: Row)
      modifies this
      ensures rows == old(rows)[id := row] && files == old(files)[id := []]
    {
      rows := rows[id := row];
      files := files[id := []];
    }

    method SetUploadLength(id: Id, length: nat)
      modifies this`rows
      ensures rows == if id in old(rows) then old(rows)[id := old(rows)[id].(length := Some(length))] else old(rows)
    {
      if id in rows {
        rows := rows[id := rows[id].(length := Some(length))];
      }
    }

    method WriteChunk(id: Id, offset: nat, data: Bytes)
      modifies this`files
      ensures files == old(files)[id := WriteAt(if id in old(files) then old(files)[id] else [], offset, data)]
    {
      if id !in files {
        files := files[id := []];
      }
      files := files[id := WriteAt(files[id], offset, data)];
    }

    method UpdateOffset(id: Id, offset: nat)
      modifies this`rows
      ensures rows == if id in old(rows) then old(rows)[id := old(rows)[id].(offset := offset)] else old(rows)
    {
      if id in rows {
        rows := rows[id := rows[id].(offset := offset)];
      }
    }

    method UpdateOffsetAtomic(id: Id, expected: nat, offset: nat) returns (won: bool)
      modifies this`rows
      ensures won == (id in old(rows) && old(rows)[id].offset == expected)
      ensures rows == if won then old(rows)[id := old(rows)[id].(offset := offset)] else old(rows)
    {
      won := id in rows && rows[id].offset == expected;
      if won {
        rows := rows[id := rows[id].(offset := offset)];
      }
    }

    /** True exactly for the call that moves the row to completed. */
    method CompleteUpload(id: Id) returns (first: bool)
      modifies this`rows
      ensures first == (id in old(rows) && !old(rows)[id].completed)
      ensures rows == if first then old(rows)[id := old(rows)[id].(completed := true)] else old(rows)
    {
      first := id in rows && !rows[id].completed;
      if first {
        rows := rows[id := rows[id].(completed := true)];
      }
    }

    method DeleteUpload(id: Id)
      modifies this
      ensures rows == old(rows) - {id} && files == old(files) - {id}
    {
      rows := rows - {id};
      files := files - {id};
    }

    /** The inner read-write loop: one source file goes into the final's file. */
    method CopyFile(fid: Id, src: Id, disk: Option<nat>, writes: nat) returns (ok: bool, written: nat, copied: nat)
      requires fid in files && src in files && src != fid && (disk.Some? ==> writes <= disk.value)
      modifies this`files
      ensures fid in files && files == old(files)[fid := files[fid]]
      ensures ok ==> files[fid] == old(files[fid] + files[src]) && copied == old(|files[src]|)
      ensures ok == (disk.None? || writes + old(Buffers(|files[src]|)) <= disk.value)
      ensures ok ==> written == writes + old(Buffers(|files[src]|))
    {
      var left := files[src];
      written, copied := writes, 0;
      while left != []
        invariant fid in files && files == old(files)[fid := files[fid]]
        invariant files[fid] + left == old(files[fid] + files[src]) && copied + |left| == old(|files[src]|)
        invariant written + Buffers(|left|) == writes + old(Buffers(|files[src]|))
        invariant disk.Some? ==> written <= disk.value
        decreases |left|
      {
        if disk == Some(written) {
          return false, written, copied;
        }
        var n := if |left| < COPY_BUFFER then |left| else COPY_BUFFER;
        assert files[fid] + left == (files[fid] + left[..n]) + left[n..];
        files := files[fid := files[fid] + left[..n]];
        left, written, copied := left[n..], written + 1, copied + n;
      }
      assert files[fid] + [] == files[fid];
      ok := true;
    }

    /** Streams each partial's file into the final's file. `disk` is how many buffers
        can still be written before the disk fails, if it does. */
    method CopyPartials(fid: Id, sources: seq<Id>, disk: Option<nat>) returns (total: Option<nat>)
      requires fid !in sources && fid in rows
      modifies this
      ensures total.Some? ==>
        && HasFiles(old(files), sources)
        && files == old(files)[fid := Joined(old(files), sources)]
        && total.value == |files[fid]|
        && rows == old(rows)[fid := old(rows)[fid].(offset := total.value, completed := true)]
      ensures total.None? ==> rows == old(rows) && fid in files && files == old(files)[fid := files[fid]]
      ensures total.None? == CopyFails(old(files), sources, disk)
    {
      ghost var before := Snapshot();
      files := files[fid := []];
      var writes, length := 0, 0;
      for i := 0 to |sources|
        invariant rows == before.rows && fid in files && files == before.files[fid := files[fid]]
        invariant forall k :: 0 <= k < i ==> sources[k] in before.files
        invariant files[fid] == Joined(before.files, sources[..i]) && length == |files[fid]|
        invariant writes == AllBuffers(before.files, sources[..i]) && (disk.Some? ==> writes <= disk.value)
      {
        assert sources[i] in sources;
        if sources[i] !in files {
          return None;
        }
        var ok, copied;
        ok, writes, copied := CopyFile(fid, sources[i], disk, writes);
        assert sources[..i + 1][..i] == sources[..i];
        if !ok {
          if HasFiles(before.files, sources) {
            FewerBuffers(before.files, sources, i + 1);
          }
          return None;
        }
        length := length + copied;
      }
      assert sources[..|sources|] == sources;
      UpdateOffset(fid, length);
      var _ := CompleteUpload(fid);
      total := Some(length);
    }

    /** Adds up the lengths of the partials, unless one is missing or incomplete. */
    method ReadLengths(sources: seq<Id>) returns (total: Option<nat>)
      ensures total.Some? == Snapshot().AllReady(sources)
      ensures total.Some? ==> total.value == Snapshot().Total(sources)
    {
      var sum := 0;
      for i := 0 to |sources|
        invariant Snapshot().AllReady(sources[..i]) && sum == Snapshot().Total(sources[..i])
      {
        var src := sources[i];
        if src !in rows || rows[src].length != Some(rows[src].offset) {
          assert !Snapshot().Ready(sources[i]);
          return None;
        }
        assert sources[..i + 1][..i] == sources[..i];
        sum := sum + rows[src].offset;
      }
      assert sources[..|sources|] == sources;
      total := Some(sum);
    }

    /** Assembles a pending final whose partials are all complete. The caller learns the
        total exactly when this call did the assembly. */
    method TryAssembleFinal(fid: Id, limit: Option<nat>, disk: Option<nat>) returns (total: Option<nat>)
      requires Snapshot().Pending(fid) ==> fid !in rows[fid].sources
      modifies this
      ensures if AttemptFails(old(Snapshot()), fid, limit, disk)
              then total.None? && RolledBack(old(Snapshot()), Snapshot(), fid)
              else Assembly(Snapshot(), total) == Assemble(old(Snapshot()), fid, limit)
    {
      if fid !in rows || rows[fid].completed || rows[fid].sources == [] {
        return None;
      }
      var sources := rows[fid].sources;
      var length := ReadLengths(sources);
      if length.None? {
        return None;
      }
      if TooBig(limit, length.value) {
        DeleteUpload(fid);
        return None;
      }
      if rows[fid].length.Some? && rows[fid].length != length {
        return None;
      }
      SetUploadLength(fid, length.value);
      var copied := CopyPartials(fid, sources, disk);
      if copied.None? {
        rows := rows[fid := rows[fid].(length := None)];
        return None;
      }
      total := length;
    }

    /** Checks every partial before anything is written; says whether all are complete. */
    method CheckPartials(ids: seq<Id>, allowUnfinished: bool) returns (valid: bool, complete: bool)
      ensures valid == (AllPartials(rows, ids) && (allowUnfinished || Snapshot().AllReady(ids)))
      ensures valid ==> complete == Snapshot().AllReady(ids)
    {
      complete := true;
      for i := 0 to |ids|
        invariant AllPartials(rows, ids[..i]) && complete == Snapshot().AllReady(ids[..i])
        invariant complete || allowUnfinished
      {
        var id := ids[i];
        if id !in rows || !rows[id].partial {
          return false, false;
        }
        assert Snapshot().AllReady(ids[..i + 1]) == (Snapshot().AllReady(ids[..i]) && Snapshot().Ready(id)) by {
          assert forall k :: 0 <= k < i ==> ids[..i + 1][k] == ids[..i][k];
          assert ids[..i + 1][i] == id;
        }
        if rows[id].length != Some(rows[id].offset) {
          if !allowUnfinished {
            assert !Snapshot().Ready(ids[i]);
            return false, false;
          }
          complete := false;
        }
      }
      assert ids[..|ids|] == ids;
      valid := true;
    }

    /** Creates a final: whole when every partial is complete, otherwise pending. A copy
        that fails leaves a final that a later claim can still assemble. */
    method ConcatenateUploads(fid: Id, ids: seq<Id>, expires: Option<nat>, allowUnfinished: bool, disk: Option<nat>)
      returns (merged: Merged)
      requires fid !in rows && ids != []
      requires forall i :: 0 <= i < |ids| && ids[i] in rows ==> ids[i] in files
      modifies this
      ensures merged.Refused? == !(AllPartials(old(rows), ids) && (allowUnfinished || old(Snapshot()).AllReady(ids)))
      ensures merged.Refused? ==> Snapshot() == old(Snapshot())
      ensures merged.Waiting? ==>
        && !old(Snapshot()).AllReady(ids)
        && rows == old(rows)[fid := FinalRow(None, 0, false, ids, expires)] && files == old(files)[fid := []]
      ensures merged.Whole? ==>
        && old(Snapshot()).AllReady(ids) && HasFiles(old(files), ids) && merged.total == old(Snapshot()).Total(ids)
        && files == old(files)[fid := Joined(old(files), ids)]
        && rows == old(rows)[fid := FinalRow(Some(merged.total), |files[fid]|, true, ids, expires)]
      ensures merged.Broken? ==>
        && old(Snapshot()).AllReady(ids)
        && rows == old(rows)[fid := FinalRow(Some(old(Snapshot()).Total(ids)), 0, false, ids, expires)]
        && fid in files && files == old(files)[fid := files[fid]]
      ensures merged.Broken? || merged.Whole? ==> merged.Broken? == CopyFails(old(files), ids, disk)
    {
      var valid, complete := CheckPartials(ids, allowUnfinished);
      if !valid {
        return Refused;
      }
      if !complete {
        CreateUpload(fid, FinalRow(None, 0, false, ids, expires));
        return Waiting;
      }
      var total := ReadLengths(ids);
      CreateUpload(fid, FinalRow(total, 0, false, ids, expires));
      assert fid !in ids;
      JoinedSame(old(files), files, ids);
      CopyFailsSame(old(files), files, ids, disk);
      var copied := CopyPartials(fid, ids, disk);
      merged := if copied.Some? then Whole(total.value) else Broken;
    }
  }
}
