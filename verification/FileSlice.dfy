/** A read-only, seekable view over a byte range of a file. */
module FileSlice {
  import opened ByteStrings

  datatype Whence = Set | Current | End

  function Distance(a: int, b: int): nat {
    if a < b then b - a else a - b
  }

  /** The position within the bounds that is nearest to `n`. */
  function Clamp(n: int, length: nat): (r: nat)
    ensures r <= length
    ensures forall k :: 0 <= k <= length ==> Distance(n, r) <= Distance(n, k)
  {
    if n < 0 then 0 else if n > length then length else n
  }

  class Slice {
    const disk: Bytes
    const lo: nat
    const length: nat
    var pos: nat
    var diskPos: nat

    constructor (disk: Bytes, lo: nat, length: nat)
      ensures this.disk == disk && this.lo == lo && this.length == length && pos == 0 && Valid()
    {
      this.disk, this.lo, this.length, pos, diskPos := disk, lo, length, 0, lo;
    }

    /** The underlying file is positioned where the slice says. */
    predicate Valid()
      reads this
    {
      pos <= length && diskPos == lo + pos
    }

    /** Whether the file still reaches to the end of the slice. */
    predicate Intact() {
      lo + length <= |disk|
    }

    function Content(): (r: Bytes)
      requires Intact()
      ensures |r| == length
    {
      disk[lo..lo + length]
    }

    method Seek(offset: int, whence: Whence) returns (at: nat)
      requires Valid()
      modifies this
      ensures Valid() && at == pos
      ensures pos == Clamp(
        match whence case Set => offset case Current => old(pos) + offset case End => length + offset, length)
    {
      var target := match whence case Set => offset case Current => pos + offset case End => length + offset;
      pos := Clamp(target, length);
      diskPos := lo + pos;
      at := pos;
    }

    /** Reads at most `n` bytes and never past the slice. */
    method Read(n: nat) returns (data: Bytes)
      requires Valid()
      modifies this
      ensures |data| <= n && pos == old(pos) + |data|
      ensures Intact() ==> Valid() && data == Content()[old(pos)..Min(old(pos) + n, length)]
    {
      if length - pos <= 0 {
        return [];
      }
      var wanted := Min(n, length - pos);
      data := if diskPos <= |disk| then disk[diskPos..Min(diskPos + wanted, |disk|)] else [];
      diskPos := diskPos + |data|;
      pos := pos + |data|;
    }
  }
}
