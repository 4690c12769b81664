/** The channel lists of the DAHDI files: ranges and bitmaps. */
module Channels {
  import opened Attributes
  import opened Text
  import opened Tokens

  // ----- Ranges ------------------------------------------------------------------------------------------

  /** _gen_channels_line: the time slots of a span in order, without its 16th. */
  function RangeLine(span: nat, channels: int): string
  {
    var offset := span * 31 + 1;
    if channels == 1 then PrintInt(offset)
    else if channels < 16 then PrintInt(offset) + "-" + PrintInt(offset + channels - 1)
    else if channels == 16 then PrintInt(offset) + "-" + PrintInt(offset + 14) + "," + PrintInt(offset + 16)
    else
      PrintInt(offset) + "-" + PrintInt(offset + 14) + ","
      + PrintInt(offset + 16) + "-" + PrintInt(offset + channels)
  }

  /** The rest of a scanf format: each character of `seps` in turn, followed by a %d. */
  function ScanMore(s: string, seps: string): seq<int>
    decreases |seps|
  {
    if seps == "" || s == "" || s[0] != seps[0] then []
    else match ScanInt(s[1..]) case None => [] case Some((n, t)) => [n] + ScanMore(t, seps[1..])
  }

  /** sscanf(line, "%d-%d,%d-%d"): the numbers it stores. */
  function ScanRanges(line: string): (v: seq<int>)
    ensures |v| <= 4
  {
    match ScanInt(line) case None => [] case Some((n, t)) => ScanFrom(n, t)
  }

  function ScanFrom(n: int, t: string): (v: seq<int>)
    ensures 1 <= |v| <= 4
  {
    ScanMoreLength(t, "-,-");
    [n] + ScanMore(t, "-,-")
  }

  lemma {:induction false} ScanMoreLength(s: string, seps: string)
    ensures |ScanMore(s, seps)| <= |seps|
    decreases |seps|
  {
    if seps != "" && s != "" && s[0] == seps[0] {
      match ScanInt(s[1..]) case None => case Some((n, t)) => ScanMoreLength(t, seps[1..]);
    }
  }

  /** _parse_chan_dahdi_channel_line: the number of channels and the span they are stored in. */
  function ParseRange(line: string): Option<(int, nat)>
  {
    var v := ScanRanges(line);
    if v == [] || v[0] <= 0 then None
    else
      var channels :=
        if |v| == 1 then 1
        else if |v| == 2 then v[1] - v[0] + 1
        else if |v| == 3 then v[1] - v[0] + 2
        else v[3] - v[2] + v[1] - v[0] + 2;
      Some((channels, (v[0] - 1) / 31))
  }

  function Slots(a: int, b: int): (r: set<int>)
    ensures forall x :: x in r <==> a <= x <= b
    decreases b - a + 1
  {
    if a > b then {} else Slots(a, b - 1) + {b}
  }

  /** What a channel list means to DAHDI: slots and ranges of slots, separated by commas. */
  function Denoted(line: string): set<int>
    decreases |line|
  {
    match ScanInt(line)
    case None => {}
    case Some((a, s)) =>
      if s != "" && s[0] == '-' then
        match ScanInt(s[1..])
        case None => {}
        case Some((b, t)) => Slots(a, b) + DenotedNext(t)
      else Slots(a, a) + DenotedNext(s)
  }

  function DenotedNext(s: string): set<int>
    decreases |s|
  {
    if s != "" && s[0] == ',' then Denoted(s[1..]) else {}
  }

  // Reading printed numbers one after the other.

  lemma ScanMorePrinted(c: char, n: int, rest: string, seps: string)
    requires seps != "" && c == seps[0] && (rest == "" || !IsDigit(rest[0]))
    ensures ScanMore([c] + PrintInt(n) + rest, seps) == [n] + ScanMore(rest, seps[1..])
  {
    hide PrintInt, ScanInt, ScanMore;
    ScanPrinted(n, rest);
    Behind(c, PrintInt(n), rest);
    ScanMoreStep([c] + PrintInt(n) + rest, seps, n, rest);
  }

  lemma Behind(c: char, a: string, b: string)
    ensures ([c] + a + b)[0] == c && ([c] + a + b)[1..] == a + b
  {
  }

  lemma ScanMoreStep(s: string, seps: string, n: int, rest: string)
    requires seps != "" && s != "" && s[0] == seps[0] && ScanInt(s[1..]) == Some((n, rest))
    ensures ScanMore(s, seps) == [n] + ScanMore(rest, seps[1..])
  {
    hide ScanInt;
  }

  /** Parsing a generated line yields the count and the span it was generated for. */
  lemma RangeRoundTrip(span: nat, channels: int)
    ensures ParseRange(RangeLine(span, channels)) == Some((channels, span))
  {
    hide PrintInt, ScanRanges, RangeLine;
    var offset := span * 31 + 1;
    RangeParts(span, channels);
    if channels == 1 {
      OneScanned(offset);
    } else if channels < 16 {
      TwoScanned(offset, offset + channels - 1, "");
      ScanNothing(",-");
    } else if channels == 16 {
      ThreeScanned(offset, offset + 14, offset + 16);
    } else {
      FourScanned(offset, offset + 14, offset + 16, offset + channels);
    }
  }

  /** The line in the groups in which it is scanned. */
  lemma RangeParts(span: nat, channels: int)
    ensures var n := span * 31 + 1;
      RangeLine(span, channels)
      == if channels == 1 then PrintInt(n)
         else if channels < 16 then PrintInt(n) + "-" + PrintInt(n + channels - 1) + ""
         else if channels == 16 then PrintInt(n) + "-" + PrintInt(n + 14) + ("," + PrintInt(n + 16))
         else PrintInt(n) + "-" + PrintInt(n + 14) + ("," + PrintInt(n + 16) + ("-" + PrintInt(n + channels)))
  {
    hide PrintInt;
  }

  lemma OneScanned(a: int)
    ensures ScanRanges(PrintInt(a)) == [a]
  {
    hide PrintInt, ScanInt, ScanMore;
    ScanPrinted(a, "");
    assert PrintInt(a) + "" == PrintInt(a);
    ScanNothing("-,-");
  }

  lemma ThreeScanned(a: int, b: int, c: int)
    ensures ScanRanges(PrintInt(a) + "-" + PrintInt(b) + ("," + PrintInt(c))) == [a, b, c]
  {
    hide PrintInt, ScanInt, ScanMore;
    TwoScanned(a, b, "," + PrintInt(c));
    ScanMorePrinted(',', c, "", ",-");
    assert ",-"[1..] == "-" && "," + PrintInt(c) + "" == "," + PrintInt(c);
    ScanNothing("-");
  }

  lemma FourScanned(a: int, b: int, c: int, d: int)
    ensures ScanRanges(PrintInt(a) + "-" + PrintInt(b) + ("," + PrintInt(c) + ("-" + PrintInt(d)))) == [a, b, c, d]
  {
    hide PrintInt, ScanInt, ScanMore;
    var last := "-" + PrintInt(d);
    TwoScanned(a, b, "," + PrintInt(c) + last);
    ScanMorePrinted(',', c, last, ",-");
    ScanMorePrinted('-', d, "", "-");
    assert ",-"[1..] == "-" && last + "" == last;
    ScanNothing("-"[1..]);
  }

  lemma ScanNothing(seps: string)
    ensures ScanMore("", seps) == []
  {
  }

  lemma TwoScanned(a: int, b: int, rest: string)
    requires rest == "" || rest[0] == ','
    ensures ScanRanges(PrintInt(a) + "-" + PrintInt(b) + rest) == [a, b] + ScanMore(rest, ",-")
  {
    hide PrintInt, ScanInt, ScanMore, ScanRanges;
    Grouped(PrintInt(a), "-", PrintInt(b), rest);
    FirstScanned(a, "-" + PrintInt(b) + rest);
    ScanMorePrinted('-', b, rest, "-,-");
    assert "-,-"[1..] == ",-";
  }

  lemma Grouped(a: string, b: string, c: string, d: string)
    ensures a + b + c + d == a + (b + c + d)
  {
  }

  lemma FirstScanned(a: int, more: string)
    requires more == "" || !IsDigit(more[0])
    ensures ScanRanges(PrintInt(a) + more) == [a] + ScanMore(more, "-,-")
  {
    hide PrintInt, ScanInt, ScanMore;
    ScanPrinted(a, more);
  }

  lemma DenotedOne(a: int, rest: string)
    requires rest == "" || rest[0] == ','
    ensures Denoted(PrintInt(a) + rest) == Slots(a, a) + DenotedNext(rest)
  {
    hide PrintInt, ScanInt, Slots;
    ScanPrinted(a, rest);
  }

  lemma DenotedPair(a: int, b: int, rest: string)
    requires rest == "" || rest[0] == ','
    ensures Denoted(PrintInt(a) + "-" + PrintInt(b) + rest) == Slots(a, b) + DenotedNext(rest)
  {
    hide PrintInt, ScanInt, Slots;
    var more := "-" + PrintInt(b) + rest;
    ScanPrinted(a, more);
    ScanPrinted(b, rest);
    assert PrintInt(a) + "-" + PrintInt(b) + rest == PrintInt(a) + more;
    assert more[1..] == PrintInt(b) + rest;
  }

  /** The slots of `channels` channels of a span: from the first on, without the 16th. */
  function ChannelSlots(span: nat, channels: int): set<int>
  {
    Slots(span * 31 + 1, span * 31 + (if channels < 16 then channels else channels + 1)) - {span * 31 + 16}
  }

  /** A generated line denotes exactly these slots. */
  lemma LineDenotes(span: nat, channels: int)
    requires channels >= 1
    ensures Denoted(RangeLine(span, channels)) == ChannelSlots(span, channels)
  {
    hide PrintInt, Denoted, Slots;
    var offset := span * 31 + 1;
    if channels == 1 {
      DenotedOne(offset, "");
      assert PrintInt(offset) + "" == RangeLine(span, channels);
      assert Denoted(RangeLine(span, channels)) == Slots(offset, offset);
    } else if channels < 16 {
      DenotedPair(offset, offset + channels - 1, "");
      assert RangeLine(span, channels) == PrintInt(offset) + "-" + PrintInt(offset + channels - 1) + "";
      assert Denoted(RangeLine(span, channels)) == Slots(offset, offset + channels - 1);
    } else {
      TwoRanges(span, channels);
    }
  }

  lemma TwoRanges(span: nat, channels: int)
    requires channels >= 16
    ensures Denoted(RangeLine(span, channels))
         == Slots(span * 31 + 1, span * 31 + 15) + Slots(span * 31 + 17, span * 31 + 1 + channels)
  {
    hide PrintInt, Denoted, Slots;
    var offset := span * 31 + 1;
    if channels == 16 {
      var rest := "," + PrintInt(offset + 16);
      DenotedPair(offset, offset + 14, rest);
      DenotedOne(offset + 16, "");
      assert rest[1..] == PrintInt(offset + 16) + "";
      assert RangeLine(span, channels) == PrintInt(offset) + "-" + PrintInt(offset + 14) + rest;
    } else {
      var rest := "," + PrintInt(offset + 16) + "-" + PrintInt(offset + channels);
      DenotedPair(offset, offset + 14, rest);
      DenotedPair(offset + 16, offset + channels, "");
      assert rest[1..] == PrintInt(offset + 16) + "-" + PrintInt(offset + channels) + "";
      assert RangeLine(span, channels) == PrintInt(offset) + "-" + PrintInt(offset + 14) + rest;
    }
  }

  lemma {:induction false} SlotCount(a: int, b: int)
    requires a <= b + 1
    ensures |Slots(a, b)| == b - a + 1
    decreases b - a + 1
  {
    if a <= b {
      SlotCount(a, b - 1);
    }
  }

  /** There are as many of them as asked for, and the span's 16th slot is never one. */
  lemma ChannelCount(span: nat, channels: int)
    requires channels >= 1
    ensures |Denoted(RangeLine(span, channels))| == channels
    ensures span * 31 + 16 !in Denoted(RangeLine(span, channels))
  {
    hide Denoted, RangeLine;
    LineDenotes(span, channels);
    var first := span * 31 + 1;
    var last := span * 31 + (if channels < 16 then channels else channels + 1);
    SlotCount(first, last);
    if channels < 16 {
      assert ChannelSlots(span, channels) == Slots(first, last);
    } else {
      assert span * 31 + 16 in Slots(first, last);
    }
  }

  /** The B channels and the D channel of system.conf share out the slots of their span; spans do not meet. */
  lemma SpansArePartitioned(i: nat, j: nat)
    ensures var b := Denoted(RangeLine(i, 30));
      && b + {31 * i + 16} == Slots(31 * i + 1, 31 * i + 31)
      && 31 * i + 16 !in b
    ensures i != j ==> Slots(31 * i + 1, 31 * i + 31) !! Slots(31 * j + 1, 31 * j + 31)
    ensures i != j ==> Denoted(RangeLine(i, 30)) !! Denoted(RangeLine(j, 30))
  {
    hide Denoted, RangeLine;
    LineDenotes(i, 30);
    LineDenotes(j, 30);
  }

  // ----- Bitmaps ------------------------------------------------------------------------------------------

  const NUMSPANS := 1
  const BUF_SIZE := 256
  const BITS := 32

  function Pow2(k: nat): (r: nat)
    ensures r > 0
  {
    if k == 0 then 1 else 2 * Pow2(k - 1)
  }

  /** _getBit and BIT_CHECK: the lowest bit after shifting right `i` times. */
  predicate Bit(n: nat, i: nat)
    decreases i
  {
    if i == 0 then n % 2 == 1 else Bit(n / 2, i - 1)
  }

  /** BIT_SET */
  function SetBit(n: nat, i: nat): (r: nat)
  {
    if Bit(n, i) then n else n + Pow2(i)
  }

  /** The set bits below `k`, lowest first. */
  function SetBits(n: nat, k: nat): (r: seq<nat>)
    ensures forall j | 0 <= j < |r| :: r[j] < k
  {
    if k == 0 then [] else SetBits(n, k - 1) + (if Bit(n, k - 1) then [k - 1] else [])
  }

  function Names(offset: nat, bits: seq<nat>): (r: seq<string>)
    ensures |r| == |bits| && forall i | 0 <= i < |r| :: r[i] == PrintInt(offset + bits[i])
  {
    seq(|bits|, i requires 0 <= i < |bits| => PrintInt(offset + bits[i]))
  }

  /** What _gen_channels_bitmap_line has written before it looks at bit `k`. */
  function LineUpTo(span: nat, bitmap: nat, k: nat): string
  {
    Join(Names(span * 31, SetBits(bitmap, k)))
  }

  function BitmapLine(span: nat, bitmap: nat): string
  {
    LineUpTo(span, bitmap, BITS)
  }

  /** sprintf of `text` at position `at` of a buffer. */
  method SPrint(buf: array<char>, at: nat, text: string) returns (n: nat)
    requires at + |text| < buf.Length
    modifies buf
    ensures n == |text|
    ensures buf[..at + n] == old(buf[..at]) + text && buf[at + n] == '\0'
  {
    n := 0;
    while n < |text|
      invariant n <= |text|
      invariant buf[..at + n] == old(buf[..at]) + text[..n]
    {
      buf[at + n] := text[n];
      n := n + 1;
    }
    assert text[..n] == text;
    buf[at + n] := '\0';
  }

  /** _gen_channels_bitmap_line: the buffer then holds the line as a C string, if a bit is set at all. */
  method GenBitmapLine(line: array<char>, span: nat, bitmap: nat) returns (length: nat)
    requires span < NUMSPANS && line.Length == BUF_SIZE
    modifies line
    ensures length == |BitmapLine(span, bitmap)| < BUF_SIZE && line[..length] == BitmapLine(span, bitmap)
    ensures SetBits(bitmap, BITS) != [] ==> line[length] == '\0'
  {
    hide Bit, PrintInt, Join, LineUpTo, SetBits;
    length := 0;
    var first := false;
    LineStarts(span, bitmap);
    for i := 0 to BITS
      invariant length <= 3 * i
      invariant length == |LineUpTo(span, bitmap, i)| && line[..length] == LineUpTo(span, bitmap, i)
      invariant first <==> SetBits(bitmap, i) != []
      invariant first ==> line[length] == '\0'
    {
      if Bit(bitmap, i) {
        LineGrows(span, bitmap, i);
        ShortName(i + span * 31);
        if !first {
          first := true;
        } else {
          var comma := SPrint(line, length, ",");
          length := length + comma;
        }
        var n := SPrint(line, length, PrintInt(i + span * 31));
        length := length + n;
      } else {
        LineStays(span, bitmap, i);
      }
    }
  }

  lemma LineStarts(span: nat, bitmap: nat)
    ensures LineUpTo(span, bitmap, 0) == "" && SetBits(bitmap, 0) == []
  {
    JoinNone();
  }

  lemma LineStays(span: nat, bitmap: nat, i: nat)
    requires !Bit(bitmap, i)
    ensures SetBits(bitmap, i + 1) == SetBits(bitmap, i) && LineUpTo(span, bitmap, i + 1) == LineUpTo(span, bitmap, i)
  {
    hide Bit, PrintInt, Join;
  }

  lemma JoinNone()
    ensures Join([]) == ""
  {
  }

  lemma ShortName(n: nat)
    requires n < 100
    ensures |PrintInt(n)| <= 2
  {
    assert Pow10(2) == 100;
    DigitsLength(n, 2);
  }

  lemma LineGrows(span: nat, bitmap: nat, i: nat)
    requires Bit(bitmap, i)
    ensures SetBits(bitmap, i + 1) != [] && (SetBits(bitmap, i) == [] ==> LineUpTo(span, bitmap, i) == "")
    ensures LineUpTo(span, bitmap, i + 1)
         == (if SetBits(bitmap, i) == [] then "" else LineUpTo(span, bitmap, i) + ",") + PrintInt(i + span * 31)
  {
    hide Bit, PrintInt, Join;
    var names := Names(span * 31, SetBits(bitmap, i));
    var name := PrintInt(span * 31 + i);
    assert Names(span * 31, SetBits(bitmap, i + 1)) == names + [name];
    JoinSnoc(names, name);
    JoinNone();
  }

  /** One token of the list; a bit that does not exist in an unsigned int leaves nothing defined. */
  function Mark(bitmap: nat, token: string): Option<nat>
  {
    var b := Atoi(token);
    if b == 0 then Some(bitmap)
    else if 0 < b < BITS then Some(SetBit(bitmap, b))
    else None
  }

  function MarkAll(bitmap: nat, tokens: seq<string>): Option<nat>
    decreases |tokens|
  {
    if tokens == [] then Some(bitmap)
    else match Mark(bitmap, tokens[0]) case None => None case Some(b) => MarkAll(b, tokens[1..])
  }

  /** The span that the first number selects, with C's truncating division. */
  function SpanOf(first: int): int
  {
    if first < 0 then -(-first / 31) else first / 31
  }

  /**
   * _parse_chan_dahdi_channel_bitmap_line on the one span there is: the new bitmap; None where the C code
   * reads a missing token, shifts too far or copies outside the array of spans.
   */
  function ParseBitmap(bitmap: nat, line: string): Option<nat>
  {
    var tokens := Split(line, COMMA);
    if tokens == [] || !(0 <= SpanOf(Atoi(tokens[0])) < NUMSPANS) then None else MarkAll(bitmap, tokens)
  }

  method ParseBitmapLine(bitmap: nat, line: string) returns (r: Option<nat>)
    ensures r == ParseBitmap(bitmap, line)
  {
    hide StrTok, Atoi, SetBit;
    var next := StrTok(line, COMMA);
    if next.None? {
      return None;
    }
    var offset := SpanOf(Atoi(next.value.0));
    if offset < 0 || offset >= NUMSPANS {
      return None;
    }
    var rest, now := line, bitmap;
    while next.Some?
      invariant next == StrTok(rest, COMMA)
      invariant MarkAll(bitmap, Split(line, COMMA)) == MarkAll(now, Split(rest, COMMA))
      decreases |rest|
    {
      var (p, after) := next.value;
      assert Split(rest, COMMA)[1..] == Split(after, COMMA);
      var b := Atoi(p);
      if b != 0 {
        if b < 0 || b >= BITS {
          return None;
        }
        now := SetBit(now, b);
      }
      rest := after;
      next := StrTok(rest, COMMA);
    }
    r := Some(now);
  }

  // The round trip: marking the listed bits rebuilds the number from below.

  lemma {:induction false} MarkSnoc(bitmap: nat, tokens: seq<string>, last: string)
    ensures MarkAll(bitmap, tokens + [last])
         == match MarkAll(bitmap, tokens) case None => None case Some(b) => Mark(b, last)
    decreases |tokens|
  {
    hide Mark;
    if tokens == [] {
      assert (tokens + [last])[1..] == [];
    } else {
      assert (tokens + [last])[1..] == tokens[1..] + [last];
      match Mark(bitmap, tokens[0])
      case None =>
      case Some(b) => MarkSnoc(b, tokens[1..], last);
    }
  }

  /** The lowest `k` bits. */
  function Low(n: nat, k: nat): nat
    decreases k
  {
    if k == 0 then 0 else n % 2 + 2 * Low(n / 2, k - 1)
  }

  /** The lowest k + 1 bits are the lowest k and bit k. */
  lemma {:induction false} BitOnTop(n: nat, k: nat)
    ensures Low(n, k + 1) == Low(n, k) + (if Bit(n, k) then Pow2(k) else 0)
    decreases k
  {
    if k > 0 {
      BitOnTop(n / 2, k - 1);
    }
  }

  lemma {:induction false} LowOfSmall(n: nat, k: nat)
    requires n < Pow2(k)
    ensures Low(n, k) == n
    decreases k
  {
    if k > 0 {
      LowOfSmall(n / 2, k - 1);
    }
  }

  lemma {:induction false} LowFits(n: nat, k: nat)
    ensures Low(n, k) < Pow2(k) && (k > 0 ==> Low(n, k) >= n % 2)
    decreases k
  {
    if k > 0 {
      LowFits(n / 2, k - 1);
    }
  }

  lemma {:induction false} NoBitAbove(m: nat, k: nat)
    requires m < Pow2(k)
    ensures !Bit(m, k)
    decreases k
  {
    if k > 0 {
      NoBitAbove(m / 2, k - 1);
    }
  }

  lemma MarkAbove(m: nat, k: nat)
    requires m < Pow2(k)
    ensures SetBit(m, k) == m + Pow2(k)
  {
    NoBitAbove(m, k);
  }

  lemma {:induction false} MarkedUpTo(n: nat, k: nat)
    requires 1 <= k <= BITS
    ensures Low(n, k) >= n % 2 && MarkAll(0, Names(0, SetBits(n, k))) == Some(Low(n, k) - n % 2)
    decreases k
  {
    hide Bit, PrintInt, Atoi, SetBit, MarkAll, Low, Pow2;
    LowFits(n, k);
    LowFits(n, k - 1);
    if k == 1 {
      FirstBit(n);
    } else {
      MarkedUpTo(n, k - 1);
      BitOnTop(n, k - 1);
      if Bit(n, k - 1) {
        var names := Names(0, SetBits(n, k - 1));
        var name := PrintInt(k - 1);
        assert Names(0, SetBits(n, k)) == names + [name];
        MarkSnoc(0, names, name);
        AtoiPrinted(k - 1);
        MarkAbove(Low(n, k - 1) - n % 2, k - 1);
      } else {
        assert SetBits(n, k) == SetBits(n, k - 1);
      }
    }
  }

  lemma FirstBit(n: nat)
    ensures Low(n, 1) >= n % 2 && MarkAll(0, Names(0, SetBits(n, 1))) == Some(Low(n, 1) - n % 2)
  {
    assert Low(n / 2, 0) == 0 && SetBits(n, 0) == [];
    AtoiPrinted(0);
    var names := Names(0, SetBits(n, 1));
    assert names == [] || names == [PrintInt(0)];
    assert [PrintInt(0)][1..] == [];
  }

  lemma {:induction false} NoBits(n: nat, k: nat)
    ensures SetBits(n, k) == [] <==> Low(n, k) == 0
  {
    hide Bit;
    if k > 0 {
      hide Low;
      NoBits(n, k - 1);
      BitOnTop(n, k - 1);
    }
  }

  lemma Powers()
    ensures Pow2(31) == 0x8000_0000 && Pow2(32) == 0x1_0000_0000
  {
    assert Pow2(8) == 256;
    assert Pow2(16) == 65536;
    assert Pow2(24) == 0x100_0000;
  }

  lemma OnlyTop()
    ensures Low(0x8000_0000, 31) == 0
  {
    Powers();
    BitOnTop(0x8000_0000, 31);
    LowOfSmall(0x8000_0000, 32);
    LowFits(0x8000_0000, 31);
  }

  /** The first number of the line is below 31 unless bit 31 is the only one. */
  lemma LowestBit(n: nat)
    requires 0 < n < 0x1_0000_0000
    ensures var bits := SetBits(n, BITS); bits != [] && (if n == 0x8000_0000 then bits[0] == 31 else bits[0] < 31)
  {
    hide Bit, Pow2, Low;
    Powers();
    LowOfSmall(n, 32);
    BitOnTop(n, 31);
    NoBits(n, 31);
    NoBits(n, 32);
    LowFits(n, 31);
    if n == 0x8000_0000 {
      OnlyTop();
    }
    assert SetBits(n, 32) == SetBits(n, 31) + (if Bit(n, 31) then [31] else []);
  }

  /**
   * Parsing the generated line gives back the bitmap except for bit 0, which a list of numbers cannot
   * carry; bit 31 alone makes the parser address a span that does not exist.
   */
  lemma BitmapRoundTrip(n: nat)
    requires 0 < n < 0x1_0000_0000
    ensures ParseBitmap(0, BitmapLine(0, n)) == if n == 0x8000_0000 then None else Some(n - n % 2)
  {
    hide Bit, PrintInt, Atoi, SetBit, MarkAll, SetBits, Split, Join, Pow2, Low;
    var bits := SetBits(n, BITS);
    var names := Names(0, bits);
    forall i | 0 <= i < |names| ensures Token(names[i], COMMA) {
      PrintedIsToken(bits[i], COMMA);
    }
    SplitJoin(names);
    LowestBit(n);
    AtoiPrinted(bits[0]);
    MarkedUpTo(n, BITS);
    Powers();
    LowOfSmall(n, BITS);
  }
}
