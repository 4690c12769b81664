/** The Internet checksum of RFC 1071 as ping computes it. */
module Checksum {
  import opened Bytes

  /** The byte order of the host: which byte of a pair is the low half of a short in memory. */
  datatype Order = LittleEndian | BigEndian

  function Word(o: Order, first: byte, second: byte): uint16
  {
    match o
    case LittleEndian => first + 256 * second
    case BigEndian => 256 * first + second
  }

  /** The 16-bit words of a buffer; an odd last byte stands first in a word whose other byte is zero. */
  function WordsOf(o: Order, b: seq<byte>): (r: seq<uint16>)
  {
    if |b| >= 2 then [Word(o, b[0], b[1])] + WordsOf(o, b[2..])
    else if |b| == 1 then [Word(o, b[0], 0)]
    else []
  }

  function Sum(ws: seq<uint16>): nat
  {
    if ws == [] then 0 else ws[0] + Sum(ws[1..])
  }

  // ----- One's complement arithmetic ----------------------------------------------------------------

  /** Addition with end-around carry (section 1 of RFC 1071). */
  function OnesAdd(a: uint16, b: uint16): uint16
  {
    if a + b >= 0x1_0000 then a + b - 0xFFFF else a + b
  }

  function OnesSum(ws: seq<uint16>): uint16
  {
    if ws == [] then 0 else OnesAdd(ws[0], OnesSum(ws[1..]))
  }

  /** The one's complement number that a plain sum stands for: zero only for an empty sum. */
  function Residue(n: nat): uint16
  {
    if n == 0 then 0 else 1 + (n - 1) % 0xFFFF
  }

  lemma {:induction false} OnesSumIsResidue(ws: seq<uint16>)
    ensures OnesSum(ws) == Residue(Sum(ws))
  {
    if ws != [] {
      OnesSumIsResidue(ws[1..]);
      AddResidue(ws[0], Sum(ws[1..]));
    }
  }

  lemma AddResidue(w: uint16, n: nat)
    ensures OnesAdd(w, Residue(n)) == Residue(w + n)
  {
    if n > 0 {
      var q, r := (n - 1) / 0xFFFF, (n - 1) % 0xFFFF;
      assert w + n - 1 == 0xFFFF * q + (r + w);
      if r + w >= 0xFFFF {
        assert w + n - 1 == 0xFFFF * (q + 1) + (r + w - 0xFFFF);
        ModOf(w + n - 1, q + 1, if r + w - 0xFFFF < 0xFFFF then r + w - 0xFFFF else 0);
      } else {
        ModOf(w + n - 1, q, r + w);
      }
    }
  }

  lemma ModOf(n: nat, q: nat, r: nat)
    requires r < 0xFFFF && n == 0xFFFF * q + r
    ensures n % 0xFFFF == r
  {
  }

  /** One fold of the carries: the high half added to the low half. */
  function Fold(n: nat): nat
  {
    n / 0x1_0000 + n % 0x1_0000
  }

  /** Two folds suffice for every sum that fits a non-negative int. */
  lemma TwoFolds(n: nat)
    requires n <= 0x7FFF_FFFF
    ensures (Fold(n) + Fold(n) / 0x1_0000) % 0x1_0000 == Residue(n)
  {
    var h, l := n / 0x1_0000, n % 0x1_0000;
    if n > 0 {
      assert n == 0xFFFF * h + (h + l);
      if h + l <= 0xFFFF {
        assert h + l > 0;
        ModOf(n - 1, h, h + l - 1);
      } else {
        assert n - 1 == 0xFFFF * (h + 1) + (h + l - 1 - 0xFFFF);
        ModOf(n - 1, h + 1, h + l - 1 - 0xFFFF);
      }
    }
  }

  lemma FoldedSum(n: nat, ws: seq<uint16>)
    requires n == Sum(ws) <= 0x7FFF_FFFF
    ensures var f := n / 0x1_0000 + n % 0x1_0000;
      f + f / 0x1_0000 <= 0x7FFF_FFFF && (f + f / 0x1_0000) % 0x1_0000 == OnesSum(ws)
  {
    hide OnesSum, Sum, Residue;
    TwoFolds(n);
    OnesSumIsResidue(ws);
  }

  // ----- The loop --------------------------------------------------------------------------------------

  newtype int32 = x: int | -0x8000_0000 <= x < 0x8000_0000

  /** The sizes for which the running sum cannot exceed an int, whatever the bytes are. */
  predicate SizeIsSafe(o: Order, n: nat)
  {
    n <= 0x1_0000 || (n == 0x1_0001 && o == LittleEndian)
  }

  lemma {:induction false} SumBound(o: Order, b: seq<byte>)
    ensures Sum(WordsOf(o, b)) <= 0xFFFF * (|b| / 2) + if |b| % 2 == 0 then 0 else Word(o, 0xFF, 0)
  {
    if |b| >= 2 {
      SumBound(o, b[2..]);
      assert WordsOf(o, b)[1..] == WordsOf(o, b[2..]);
    } else if |b| == 1 {
      assert WordsOf(o, b)[1..] == [];
    }
  }

  lemma {:induction false} SumOfOnes(o: Order, n: nat)
    ensures Sum(WordsOf(o, seq(n, _ => 0xFF as byte))) == 0xFFFF * (n / 2) + if n % 2 == 0 then 0 else Word(o, 0xFF, 0)
  {
    var b := seq(n, _ => 0xFF as byte);
    if n >= 2 {
      SumOfOnes(o, n - 2);
      assert b[2..] == seq(n - 2, _ => 0xFF as byte);
      assert WordsOf(o, b)[1..] == WordsOf(o, b[2..]);
    } else if n == 1 {
      assert WordsOf(o, b)[1..] == [];
    }
  }

  /** The bound is exact: beyond it a buffer of ones overflows the sum. */
  lemma SafeSizes(o: Order, n: nat)
    ensures (forall b: seq<byte> | |b| == n :: Sum(WordsOf(o, b)) <= 0x7FFF_FFFF) <==> SizeIsSafe(o, n)
  {
    if SizeIsSafe(o, n) {
      forall b: seq<byte> | |b| == n
        ensures Sum(WordsOf(o, b)) <= 0x7FFF_FFFF
      {
        SumBound(o, b);
      }
    } else {
      SumOfOnes(o, n);
      assert |seq(n, _ => 0xFF as byte)| == n;
    }
  }

  lemma {:induction false} SumAppend(a: seq<uint16>, b: seq<uint16>)
    ensures Sum(a + b) == Sum(a) + Sum(b)
  {
    if a == [] {
      assert a + b == b;
    } else {
      assert (a + b)[1..] == a[1..] + b;
      SumAppend(a[1..], b);
    }
  }

  /** The sum of what is left, one word at a time. */
  lemma SumFirst(o: Order, buf: seq<byte>, w: nat)
    requires w + 2 <= |buf|
    ensures Sum(WordsOf(o, buf[w..])) == Word(o, buf[w], buf[w + 1]) + Sum(WordsOf(o, buf[w + 2..]))
  {
    hide Word;
    assert buf[w..][2..] == buf[w + 2..];
    assert WordsOf(o, buf[w..])[1..] == WordsOf(o, buf[w + 2..]);
  }

  lemma SumLast(o: Order, buf: seq<byte>, w: nat)
    requires w + 1 == |buf|
    ensures Sum(WordsOf(o, buf[w..])) == Word(o, buf[w], 0)
  {
    hide Word;
    assert WordsOf(o, buf[w..])[1..] == [];
  }

  lemma SumNone(o: Order, b: seq<byte>)
    requires b == []
    ensures Sum(WordsOf(o, b)) == 0
  {
  }

  /** _in_cksum: the complement of the one's complement sum, computed in 32-bit ints. */
  method InCksum(o: Order, buf: seq<byte>) returns (ans: uint16)
    requires SizeIsSafe(o, |buf|)
    ensures ans == 0xFFFF - OnesSum(WordsOf(o, buf))
  {
    var nleft: int, w: nat, sum: int32 := |buf|, 0, 0;
    ghost var total := Sum(WordsOf(o, buf));
    SumBound(o, buf);
    assert total <= 0x7FFF_FFFF;
    hide SizeIsSafe, OnesSum, WordsOf, Word, Sum, Residue, Fold;
    assert buf[0..] == buf;
    while nleft > 1
      invariant 0 <= nleft && w + nleft == |buf|
      invariant 0 <= sum && sum as int + Sum(WordsOf(o, buf[w..])) == total
      decreases nleft
    {
      SumFirst(o, buf, w);
      sum := sum + Word(o, buf[w], buf[w + 1]) as int32;
      w := w + 2;
      nleft := nleft - 2;
    }
    if nleft == 1 {
      SumLast(o, buf, w);
      sum := sum + Word(o, buf[w], 0) as int32;
    } else {
      SumNone(o, buf[w..]);
    }
    FoldedSum(sum as int, WordsOf(o, buf));
    sum := sum / 0x1_0000 + sum % 0x1_0000;
    sum := sum + sum / 0x1_0000;
    ans := 0xFFFF - (sum % 0x1_0000) as int;
  }

  // ----- What the checksum is for ---------------------------------------------------------------------------

  /** The two bytes of a short in memory. */
  function Stored(o: Order, w: uint16): (r: seq<byte>)
    ensures |r| == 2 && Word(o, r[0], r[1]) == w
  {
    match o
    case LittleEndian => [w % 256, w / 256]
    case BigEndian => [w / 256, w % 256]
  }

  lemma {:induction false} SumSplit(o: Order, a: seq<byte>, b: seq<byte>)
    requires |a| % 2 == 0
    ensures Sum(WordsOf(o, a + b)) == Sum(WordsOf(o, a)) + Sum(WordsOf(o, b))
    decreases |a|
  {
    if a == [] {
      assert a + b == b;
    } else {
      assert (a + b)[2..] == a[2..] + b;
      SumSplit(o, a[2..], b);
      assert WordsOf(o, a)[1..] == WordsOf(o, a[2..]) && WordsOf(o, a + b)[1..] == WordsOf(o, (a + b)[2..]);
    }
  }

  /** A buffer whose zeroed checksum word receives the checksum sums to all ones: its checksum is zero. */
  lemma StoredChecksumVerifies(o: Order, head: seq<byte>, tail: seq<byte>)
    requires |head| % 2 == 0
    ensures var ans := 0xFFFF - OnesSum(WordsOf(o, head + [0, 0] + tail));
      OnesSum(WordsOf(o, head + Stored(o, ans) + tail)) == 0xFFFF
  {
    hide WordsOf, Residue, OnesSum;
    var zeroed := head + [0, 0] + tail;
    var ans := 0xFFFF - OnesSum(WordsOf(o, zeroed));
    var filled := head + Stored(o, ans) + tail;
    assert zeroed == head + ([0, 0] + tail) && filled == head + (Stored(o, ans) + tail);
    SumSplit(o, head, [0, 0] + tail);
    SumSplit(o, [0, 0], tail);
    SumSplit(o, head, Stored(o, ans) + tail);
    SumSplit(o, Stored(o, ans), tail);
    SumOfPair(o, 0, 0);
    SumOfPair(o, Stored(o, ans)[0], Stored(o, ans)[1]);
    OnesSumIsResidue(WordsOf(o, zeroed));
    OnesSumIsResidue(WordsOf(o, filled));
    ComplementFills(Sum(WordsOf(o, zeroed)));
  }

  lemma SumOfPair(o: Order, a: byte, b: byte)
    ensures Sum(WordsOf(o, [a, b])) == Word(o, a, b)
  {
    assert WordsOf(o, [a, b])[1..] == WordsOf(o, [a, b][2..]) == [];
  }

  lemma ComplementFills(n: nat)
    ensures Residue(n + (0xFFFF - Residue(n))) == 0xFFFF
  {
    if n > 0 {
      var q, r := (n - 1) / 0xFFFF, (n - 1) % 0xFFFF;
      assert n + (0xFFFF - (1 + r)) - 1 == 0xFFFF * q + 0xFFFE;
      ModOf(n + (0xFFFF - (1 + r)) - 1, q, 0xFFFE);
    }
  }

  lemma WordsRest(o: Order, b: seq<byte>)
    requires |b| >= 2
    ensures Sum(WordsOf(o, b)) == Word(o, b[0], b[1]) + Sum(WordsOf(o, b[2..]))
  {
    assert WordsOf(o, b)[1..] == WordsOf(o, b[2..]);
  }

  lemma {:induction false} ZerosSum(o: Order, n: nat)
    ensures Sum(WordsOf(o, seq(n, _ => 0 as byte))) == 0
  {
    var z: seq<byte> := seq(n, _ => 0);
    if n >= 2 {
      WordsRest(o, z);
      assert z[2..] == seq(n - 2, _ => 0 as byte);
      ZerosSum(o, n - 2);
    } else if n == 1 {
      SumLast(o, z, 0);
      assert z[0..] == z;
    }
  }

  /** Trailing zero bytes, any number of them, do not change the sum. */
  lemma {:induction false} TrailingZeros(o: Order, b: seq<byte>, n: nat)
    ensures Sum(WordsOf(o, b + seq(n, _ => 0 as byte))) == Sum(WordsOf(o, b))
    decreases |b|
  {
    var z: seq<byte> := seq(n, _ => 0);
    ZerosSum(o, n);
    SumNone(o, []);
    hide WordsOf, Sum;
    if |b| >= 2 {
      TrailingZeros(o, b[2..], n);
      assert (b + z)[2..] == b[2..] + z;
      WordsRest(o, b);
      WordsRest(o, b + z);
    } else if b == [] {
      assert b + z == z;
    } else if n == 0 {
      assert b + z == b;
    } else {
      var z1: seq<byte> := seq(n - 1, _ => 0);
      ZerosSum(o, n - 1);
      WordsRest(o, b + z);
      assert (b + z)[2..] == z1;
      SumLast(o, b, 0);
      assert b[0..] == b;
    }
  }

  /** The other byte order gives the byte-swapped sum (section 2(B) of RFC 1071). */
  function Swap(w: uint16): uint16
  {
    w % 256 * 256 + w / 256
  }

  /** The sum of the bytes that stand second in their words. */
  function Seconds(b: seq<byte>): nat
  {
    if |b| >= 2 then b[1] + Seconds(b[2..]) else 0
  }

  lemma {:induction false} OrdersRelate(b: seq<byte>)
    ensures 256 * Sum(WordsOf(LittleEndian, b)) == Sum(WordsOf(BigEndian, b)) + 0xFFFF * Seconds(b)
  {
    if |b| >= 2 {
      OrdersRelate(b[2..]);
      assert WordsOf(BigEndian, b)[1..] == WordsOf(BigEndian, b[2..]);
      assert WordsOf(LittleEndian, b)[1..] == WordsOf(LittleEndian, b[2..]);
    } else if |b| == 1 {
      assert WordsOf(BigEndian, b)[1..] == [] && WordsOf(LittleEndian, b)[1..] == [];
    }
  }

  lemma ResidueOf(n: nat, q: int, r: nat)
    requires n > 0 && n == 0xFFFF * q + r && 0 < r <= 0xFFFF
    ensures Residue(n) == r
  {
    assert q >= 0;
    ModOf(n - 1, q, r - 1);
  }

  /** Multiplying by 256 swaps the bytes of a one's complement number. */
  lemma SwapIsShift(n: nat, m: nat, k: nat)
    requires 256 * n == m + 0xFFFF * k && (m == 0 ==> n == 0)
    ensures Residue(m) == Swap(Residue(n))
  {
    if n > 0 {
      var q, r := (n - 1) / 0xFFFF, Residue(n);
      assert n == 0xFFFF * q + r;
      var hi, lo := r / 256, r % 256;
      assert r == hi * 256 + lo && Swap(r) == lo * 256 + hi;
      assert m == 0xFFFF * (256 * q + hi - k) + Swap(r);
      ResidueOf(m, 256 * q + hi - k, Swap(r));
    }
  }

  lemma {:induction false} ZeroSums(b: seq<byte>)
    requires Sum(WordsOf(BigEndian, b)) == 0
    ensures Sum(WordsOf(LittleEndian, b)) == 0
  {
    if |b| >= 2 {
      assert WordsOf(BigEndian, b)[1..] == WordsOf(BigEndian, b[2..]);
      assert WordsOf(LittleEndian, b)[1..] == WordsOf(LittleEndian, b[2..]);
      ZeroSums(b[2..]);
    } else if |b| == 1 {
      assert WordsOf(BigEndian, b)[1..] == [] && WordsOf(LittleEndian, b)[1..] == [];
    }
  }

  lemma ByteOrderIndependent(b: seq<byte>)
    ensures OnesSum(WordsOf(BigEndian, b)) == Swap(OnesSum(WordsOf(LittleEndian, b)))
  {
    var le, be := Sum(WordsOf(LittleEndian, b)), Sum(WordsOf(BigEndian, b));
    OrdersRelate(b);
    OnesSumIsResidue(WordsOf(LittleEndian, b));
    OnesSumIsResidue(WordsOf(BigEndian, b));
    if be == 0 {
      ZeroSums(b);
    }
    SwapIsShift(le, be, Seconds(b));
  }

  // ----- The echo request of libamg_ping ---------------------------------------------------------------------

  const PACKET := 192   // DEFDATALEN + MAXIPLEN + MAXICMPLEN
  const SENT := 64      // DEFDATALEN + ICMP_MINLEN
  const ICMP_ECHO := 8

  function EchoRequest(size: nat, checksum: seq<byte>): (r: seq<byte>)
    requires |checksum| == 2 && size >= 4
    ensures |r| == size
  {
    [ICMP_ECHO, 0] + checksum + seq(size - 4, _ => 0)
  }

  /** The checksum is taken over the whole buffer, yet it is right for the shorter packet that is sent. */
  method PingPacket(o: Order) returns (sent: seq<byte>)
    ensures |sent| == SENT && sent[..2] == [ICMP_ECHO, 0]
    ensures 0xFFFF - OnesSum(WordsOf(o, sent)) == 0
  {
    hide OnesSum, WordsOf, Residue;
    var ans := InCksum(o, EchoRequest(PACKET, [0, 0]));
    var packet := EchoRequest(PACKET, Stored(o, ans));
    sent := packet[..SENT];
    assert sent == EchoRequest(SENT, Stored(o, ans));
    assert packet == sent + seq(PACKET - SENT, _ => 0 as byte);
    TrailingZeros(o, sent, PACKET - SENT);
    StoredChecksumVerifies(o, [ICMP_ECHO, 0], seq(PACKET - 4, _ => 0));
    assert EchoRequest(PACKET, [0, 0]) == [ICMP_ECHO, 0] + [0, 0] + seq(PACKET - 4, _ => 0);
    assert packet == [ICMP_ECHO, 0] + Stored(o, ans) + seq(PACKET - 4, _ => 0);
    OnesSumIsResidue(WordsOf(o, packet));
    OnesSumIsResidue(WordsOf(o, sent));
  }
}
