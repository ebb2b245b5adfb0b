/** Byte strings, their concatenation, and writing into a file at an offset. */
module ByteStrings {
  type Bytes = seq<bv8>

  datatype Option<+T> = None | Some(value: T)

  function Min(a: int, b: int): int {
    if a < b then a else b
  }

  /** The parts joined in order. */
  function Flatten(parts: seq<Bytes>): Bytes {
    if parts == [] then [] else Flatten(parts[..|parts| - 1]) + parts[|parts| - 1]
  }

  lemma FlattenSnoc(parts: seq<Bytes>, last: Bytes)
    ensures Flatten(parts + [last]) == Flatten(parts) + last
  {
    assert (parts + [last])[..|parts|] == parts;
  }

  lemma FlattenNext(parts: seq<Bytes>, i: nat)
    requires i < |parts|
    ensures Flatten(parts[..i + 1]) == Flatten(parts[..i]) + parts[i]
  {
    assert parts[..i + 1] == parts[..i] + [parts[i]];
    FlattenSnoc(parts[..i], parts[i]);
  }

  lemma {:induction false} FlattenAppend(a: seq<Bytes>, b: seq<Bytes>)
    ensures Flatten(a + b) == Flatten(a) + Flatten(b)
  {
    if b == [] {
      assert a + b == a;
    } else {
      var front, last := b[..|b| - 1], b[|b| - 1];
      assert a + b == (a + front) + [last];
      FlattenSnoc(a + front, last);
      FlattenAppend(a, front);
    }
  }

  predicate HasFiles<K>(files: map<K, Bytes>, ids: seq<K>) {
    forall i :: 0 <= i < |ids| ==> ids[i] in files
  }

  /** The files of the listed ids, in order. */
  function Joined<K>(files: map<K, Bytes>, ids: seq<K>): Bytes
    requires HasFiles(files, ids)
  {
    if ids == [] then [] else Joined(files, ids[..|ids| - 1]) + files[ids[|ids| - 1]]
  }

  /** Joining only looks at the listed files. */
  lemma {:induction false} JoinedSame<K>(before: map<K, Bytes>, after: map<K, Bytes>, ids: seq<K>)
    requires HasFiles(before, ids) && HasFiles(after, ids)
    requires forall i :: 0 <= i < |ids| ==> after[ids[i]] == before[ids[i]]
    ensures Joined(after, ids) == Joined(before, ids)
  {
    if ids != [] {
      JoinedSame(before, after, ids[..|ids| - 1]);
    }
  }

  lemma JoinedSnoc<K>(files: map<K, Bytes>, ids: seq<K>, last: K)
    requires HasFiles(files, ids) && last in files
    ensures HasFiles(files, ids + [last]) && Joined(files, ids + [last]) == Joined(files, ids) + files[last]
  {
    assert (ids + [last])[..|ids|] == ids;
  }

  lemma JoinedOne<K>(files: map<K, Bytes>, id: K)
    requires id in files
    ensures HasFiles(files, [id]) && Joined(files, [id]) == files[id]
  {
    JoinedSnoc(files, [], id);
    assert [] + [id] == [id] && [] + files[id] == files[id];
  }

  lemma {:induction false} JoinedAppend<K>(files: map<K, Bytes>, a: seq<K>, b: seq<K>)
    requires HasFiles(files, a) && HasFiles(files, b)
    ensures HasFiles(files, a + b) && Joined(files, a + b) == Joined(files, a) + Joined(files, b)
  {
    if b == [] {
      assert a + b == a;
    } else {
      var front, last := b[..|b| - 1], b[|b| - 1];
      JoinedAppend(files, a, front);
      JoinedSnoc(files, front, last);
      JoinedSnoc(files, a + front, last);
      assert a + b == (a + front) + [last] && front + [last] == b;
    }
  }

  /** What a seek to `at` followed by a write leaves behind: writing past the end
      fills the gap with zeros, writing nothing changes nothing. */
  function WriteAt(file: Bytes, at: nat, data: Bytes): (r: Bytes)
    ensures |r| == if data == [] || at + |data| < |file| then |file| else at + |data|
    ensures forall i :: 0 <= i < at && i < |file| ==> r[i] == file[i]
    ensures data != [] ==> r[at..at + |data|] == data
    ensures forall i :: at + |data| <= i < |file| ==> r[i] == file[i]
  {
    if data == [] then file
    else
      var head := if at <= |file| then file[..at] else file + seq(at - |file|, _ => 0);
      head + data + if at + |data| < |file| then file[at + |data|..] else []
  }

  /** Between the end of the file and the write there are zeros. */
  lemma GapIsZero(file: Bytes, at: nat, data: Bytes, i: nat)
    requires data != [] && |file| <= i < at
    ensures i < |WriteAt(file, at, data)| && WriteAt(file, at, data)[i] == 0
  {
  }

  lemma WriteToEmpty(data: Bytes)
    ensures WriteAt([], 0, data) == data
  {
    assert data != [] ==> WriteAt([], 0, data)[0..|data|] == data;
  }

  lemma WriteKeepsPrefix(file: Bytes, at: nat, data: Bytes, n: nat)
    requires n <= at <= |file|
    ensures |WriteAt(file, at, data)| >= |file|
    ensures WriteAt(file, at, data)[..n] == file[..n]
  {
  }

  /** Two consecutive writes of a body land the same bytes as one. */
  lemma WriteExtends(file: Bytes, at: nat, body: Bytes, k: nat, n: nat)
    requires at + k <= |file| && k + n <= |body|
    requires file[at..at + k] == body[..k]
    ensures at + k + n <= |WriteAt(file, at + k, body[k..k + n])|
    ensures WriteAt(file, at + k, body[k..k + n])[at..at + k + n] == body[..k + n]
  {
    var r := WriteAt(file, at + k, body[k..k + n]);
    forall i | 0 <= i < k + n
      ensures r[at + i] == body[i]
    {
      if i < k {
        assert file[at..at + k][i] == body[..k][i];
      } else {
        assert r[at + k..at + k + n][i - k] == body[k..k + n][i - k];
      }
    }
  }

  lemma SliceJoin(file: Bytes, a: nat, b: nat)
    requires a <= b <= |file|
    ensures file[..b] == file[..a] + file[a..b]
  {
  }
}
