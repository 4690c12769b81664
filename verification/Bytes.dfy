/** Bytes, fixed-width integers in the byte order of the modelled (little-endian) host, and splicing. */
module Bytes {

  type byte = x: int | 0 <= x < 256
  type uint16 = x: int | 0 <= x < 0x1_0000
  type uint32 = x: int | 0 <= x < 0x1_0000_0000

  /** How many 32-bit words it takes to hold `n` bytes. */
  function Words(n: int): (w: int)
    ensures n <= 4 * w < n + 4
  {
    (n + 3) / 4
  }

  /** RTA_ALIGN and NLMSG_ALIGN: the next multiple of four. */
  function Align(n: int): (r: int)
    ensures n <= r < n + 4
    ensures Words(n) * 4 == r
  {
    Words(n) * 4
  }

  /** Storing an int in a 16-bit field. */
  function Low16(v: int): (r: uint16)
    ensures 0 <= v < 0x1_0000 ==> r == v
  {
    v % 0x1_0000
  }

  function Put16(v: uint16): (s: seq<byte>)
    ensures |s| == 2
  {
    [v % 256, v / 256]
  }

  function Get16(s: seq<byte>, i: nat): (v: uint16)
    requires i + 2 <= |s|
  {
    s[i] as int + 256 * s[i + 1] as int
  }

  function Put32(v: uint32): (s: seq<byte>)
    ensures |s| == 4
  {
    Put16(v % 0x1_0000) + Put16(v / 0x1_0000)
  }

  function Get32(s: seq<byte>, i: nat): (v: uint32)
    requires i + 4 <= |s|
  {
    Get16(s, i) as int + 0x1_0000 * Get16(s, i + 2) as int
  }

  /** A word in memory, lowest byte first. */
  lemma WordOfBytes(a: byte, b: byte, c: byte, d: byte)
    ensures Get32([a, b, c, d], 0) == a + 256 * b + 0x1_0000 * c + 0x100_0000 * d
  {
  }

  lemma GetPut32(v: uint32)
    ensures Get32(Put32(v), 0) == v
  {
  }

  /** Where a field was written it is read. */
  lemma Get16At(s: seq<byte>, i: nat, front: seq<byte>, v: uint16, rest: seq<byte>)
    requires i == |front| && s == front + Put16(v) + rest
    ensures Get16(s, i) == v
  {
    assert s[i] == Put16(v)[0] && s[i + 1] == Put16(v)[1];
  }

  lemma Get32At(s: seq<byte>, i: nat, front: seq<byte>, v: uint32, rest: seq<byte>)
    requires i == |front| && s == front + Put32(v) + rest
    ensures Get32(s, i) == v
  {
    var low, high := Put16(v % 0x1_0000), Put16(v / 0x1_0000);
    Get16At(s, i, front, v % 0x1_0000, high + rest);
    Get16At(s, i + 2, front + low, v / 0x1_0000, rest);
  }

  lemma SliceOfSlice<T>(s: seq<T>, a: nat, b: nat, c: nat, d: nat)
    requires a <= b <= |s| && c <= d <= b - a
    ensures s[a..b][c..d] == s[a + c..a + d]
  {
    assert forall k | 0 <= k < d - c :: s[a..b][c..d][k] == s[a..b][c + k] == s[a + c + k] == s[a + c..a + d][k];
  }

  /** Two sequences that agree from `x` on hold the same bytes between `x` and `hi`, seen through a slice or not. */
  lemma SameFrom<T>(s: seq<T>, s': seq<T>, lo: nat, x: nat, hi: nat)
    requires lo <= x <= hi <= |s| == |s'| && s[x..] == s'[x..]
    ensures s'[x..hi] == s[lo..hi][x - lo..]
  {
    assert s'[x..hi] == s'[x..][..hi - x] && s[x..hi] == s[x..][..hi - x];
  }

  /** `s` with `piece` written over it from position `off` on. */
  function Splice(s: seq<byte>, off: nat, piece: seq<byte>): (r: seq<byte>)
    requires off + |piece| <= |s|
    ensures |r| == |s|
  {
    s[..off] + piece + s[off + |piece|..]
  }

  lemma SpliceNone(s: seq<byte>, off: nat)
    requires off <= |s|
    ensures Splice(s, off, []) == s
  {
  }

  lemma SpliceOne(s: seq<byte>, off: nat, x: byte)
    requires off < |s|
    ensures Splice(s, off, [x]) == s[off := x]
  {
  }

  lemma SpliceAdjacent(s: seq<byte>, off: nat, a: seq<byte>, b: seq<byte>)
    requires off + |a| + |b| <= |s|
    ensures Splice(Splice(s, off, a), off + |a|, b) == Splice(s, off, a + b)
  {
  }

  /** Overwriting the front of what was just written: back-patching. */
  lemma SplicePatch(s: seq<byte>, off: nat, a: seq<byte>, k: nat, b: seq<byte>)
    requires off + |a| <= |s| && k + |b| <= |a|
    ensures Splice(Splice(s, off, a), off + k, b) == Splice(s, off, Splice(a, k, b))
  {
  }

  lemma SpliceBefore(s: seq<byte>, off: nat, a: seq<byte>, b: seq<byte>)
    requires off + |a| + |b| <= |s|
    ensures Splice(Splice(s, off + |a|, b), off, a) == Splice(s, off, a + b)
  {
  }

  /** Writing a piece that leaves `k` bytes behind it alone is writing those bytes too. */
  lemma SplicePadded(s: seq<byte>, off: nat, a: seq<byte>, k: nat)
    requires off + |a| + k <= |s|
    ensures Splice(s, off, a) == Splice(s, off, a + s[off + |a|..off + |a| + k])
  {
  }
}
