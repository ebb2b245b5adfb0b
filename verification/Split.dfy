/** Cutting a file into consecutive slices for a parallel upload. */
module Split {
  import opened ByteStrings
  import opened PatchRules
  import SqliteStorage

  datatype Range = Range(lo: nat, hi: nat)

  /** Consecutive non-empty ranges from 0 to `size`. */
  predicate Tiles(ranges: seq<Range>, size: nat) {
    && (forall i :: 0 <= i < |ranges| ==> ranges[i].lo < ranges[i].hi)
    && (forall i, j :: 0 <= i && j == i + 1 < |ranges| ==> ranges[i].hi == ranges[j].lo)
    && (if ranges == [] then size == 0 else ranges[0].lo == 0 && ranges[|ranges| - 1].hi == size)
  }

  /** The i-th of n slices of a file: all of the same size, the last takes the rest. */
  function Nth(size: nat, n: nat, i: nat): (r: Range)
    requires i < n
  {
    Range(i * (size / n), if i == n - 1 then size else (i + 1) * (size / n))
  }

  function Boundaries(size: nat, n: nat): (r: seq<Range>)
    ensures |r| == n
  {
    seq(n, i requires 0 <= i < n => Nth(size, n, i))
  }

  /** Even cutting. The ranges depend on the file only through its size and on the
      requested number only through how many ranges came out. */
  method SplitBoundaries(size: nat, parts: nat) returns (out: seq<Range>)
    ensures |out| == if size == 0 || parts == 0 then 0 else if size < parts then 1 else parts
    ensures out == Boundaries(size, |out|)
    ensures parts > 0 ==> Tiles(out, size)
  {
    if size == 0 || parts == 0 {
      return [];
    }
    var base := size / parts;
    out := [];
    var start := 0;
    for i := 0 to parts
      invariant start == if i == parts then size else i * base
      invariant base > 0 ==> |out| == i && forall k :: 0 <= k < i ==> out[k] == Nth(size, parts, k)
      invariant base == 0 ==> out == if i == parts then [Range(0, size)] else []
    {
      NthGrows(size, parts, i);
      var end := if i == parts - 1 then size else start + base;
      assert end == Nth(size, parts, i).hi;
      if end > start {
        out := out + [Range(start, end)];
      }
      start := end;
    }
    if base > 0 {
      NthTile(size, parts, out);
    } else {
      assert size < parts;
      assert size / 1 == size;
      assert out[0] == Nth(size, 1, 0);
    }
  }

  lemma {:induction false} TimesGrows(a: nat, b: nat, q: nat)
    requires a <= b
    ensures a * q <= b * q
  {
    if a < b {
      TimesGrows(a, b - 1, q);
      assert b * q == (b - 1) * q + q;
    }
  }

  lemma QuotientFits(size: nat, n: nat)
    requires n > 0
    ensures n * (size / n) <= size && (size >= n ==> size / n > 0) && (size < n ==> size / n == 0)
  {
    var q, r := size / n, size % n;
    assert size == q * n + r;
    if q > 0 {
      TimesGrows(1, q, n);
    }
  }

  lemma NthGrows(size: nat, n: nat, i: nat)
    requires i < n
    ensures i * (size / n) + size / n == (i + 1) * (size / n) <= size
    ensures size / n > 0 <==> size >= n
  {
    QuotientFits(size, n);
    TimesGrows(i + 1, n, size / n);
  }

  /** The ranges of one cut follow one another, none empty, and leave no gap. */
  lemma NthTile(size: nat, n: nat, out: seq<Range>)
    requires 0 < n == |out| && size >= n
    requires forall k :: 0 <= k < n ==> out[k] == Nth(size, n, k)
    ensures Tiles(out, size)
  {
    forall k | 0 <= k < n
      ensures out[k].lo < out[k].hi && (k > 0 ==> out[k - 1].hi == out[k].lo)
    {
      NthGrows(size, n, k);
    }
    assert out[0].lo == 0 * (size / n) == 0;
  }

  /** Files that hold the slices of a tiling, joined in order, are the file again. */
  lemma {:induction false} SlicesJoin(disk: Bytes, ranges: seq<Range>, files: Files, ids: seq<Id>, k: nat)
    requires Tiles(ranges, |disk|) && k <= |ids| == |ranges|
    requires forall i :: 0 <= i < |ids| ==> ranges[i].hi <= |disk|
    requires forall i :: 0 <= i < |ids| ==> ids[i] in files && files[ids[i]] == disk[ranges[i].lo..ranges[i].hi]
    ensures Joined(files, ids[..k]) == if k == 0 then [] else disk[..ranges[k - 1].hi]
  {
    if k > 0 {
      SlicesJoin(disk, ranges, files, ids, k - 1);
      assert ids[..k][..k - 1] == ids[..k - 1];
      SliceJoin(disk, ranges[k - 1].lo, ranges[k - 1].hi);
    }
  }

  /** A tiling stays within the file. */
  lemma {:induction false} TilesFit(ranges: seq<Range>, size: nat, k: nat)
    requires Tiles(ranges, size) && k <= |ranges|
    ensures forall i :: |ranges| - k <= i < |ranges| ==> ranges[i].hi <= size
  {
    if k > 0 {
      TilesFit(ranges, size, k - 1);
      var i := |ranges| - k;
      assert k > 1 ==> ranges[i].hi == ranges[i + 1].lo;
    }
  }

  /** Complete uploads add up to what their files hold together. */
  lemma {:induction false} TotalIsLength(db: SqliteStorage.Db, ids: seq<Id>)
    requires db.AllReady(ids) && HasFiles(db.files, ids)
    requires forall i :: 0 <= i < |ids| ==> ids[i] in db.rows && db.rows[ids[i]].offset == |db.files[ids[i]]|
    ensures db.Total(ids) == |Joined(db.files, ids)|
  {
    if ids != [] {
      assert db.Ready(ids[|ids| - 1]);
      TotalIsLength(db, ids[..|ids| - 1]);
    }
  }
}
