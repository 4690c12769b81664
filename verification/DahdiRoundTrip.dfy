/** Saving the DAHDI files and parsing them again. */
module DahdiRoundTrip {
  import opened Attributes
  import opened Fgets
  import opened Text
  import opened Tokens
  import opened Strings
  import opened Channels
  import opened Dahdi

  // ----- The normal form ------------------------------------------------------------------------------------

  /** Bounds of the C types, and a switch type that fits its field on one line. */
  predicate Sane(c: Span)
  {
    && -0x8000_0000 <= c.clock < 0x8000_0000
    && -0x8000_0000 <= c.mfcr2.maxAni < 0x8000_0000 && -0x8000_0000 <= c.mfcr2.maxDnis < 0x8000_0000
    && c.bitmap < 0x1_0000_0000
    && |c.isdn.switchtype| <= 15 && '\n' !in c.isdn.switchtype
  }

  function OneOrZero(n: int): int
  {
    if n != 0 then 1 else 0
  }

  function NormalType(v: string): string
  {
    if v == "" then "" else Round(v, 15, DELIMS)
  }

  function NormalSignalling(n: int): int
  {
    if n == SIG_ISDN_CPE || n == SIG_ISDN_NET then n else SIG_MFCR2
  }

  predicate ClockOk(c: Span)
  {
    0 <= c.clock <= NUMSPANS
  }

  /** What chan_dahdi.conf brings back of an enabled span. */
  function NormalChan(c: Span): Span
  {
    Span(1, 0, 0, c.bitmap - c.bitmap % 2, 0, 0, NormalSignalling(c.signalling), OneOrZero(c.echocancel),
         Isdn(OneOrZero(c.isdn.overlapdial), NormalType(c.isdn.switchtype)), NormalMfcr2(c.mfcr2))
  }

  function NormalMfcr2(m: Mfcr2): Mfcr2
  {
    Mfcr2(OneOrZero(m.getAniFirst), m.maxAni, m.maxDnis, OneOrZero(m.allowCollect), OneOrZero(m.doubleAnswer))
  }

  /** And what both files bring back; a clock source out of range loses its whole line. */
  function NormalForm(c: Span): Span
  {
    if ClockOk(c) then NormalChan(c).(clock := c.clock, crc := OneOrZero(c.crc)) else NormalChan(c)
  }

  // ----- Which line sets what ------------------------------------------------------------------------------

  lemma KeysOfSpan()
    ensures KeyOf("signalling") == Signalling && KeyOf("overlapdial") == Overlapdial
    ensures KeyOf("switchtype") == Switchtype
  {
  }

  lemma KeysOfMfcr2()
    ensures KeyOf("mfcr2_get_ani_first") == GetAniFirst && KeyOf("mfcr2_max_ani") == MaxAni
    ensures KeyOf("mfcr2_max_dnis") == MaxDnis && KeyOf("mfcr2_allow_collect_calls") == AllowCollect
    ensures KeyOf("mfcr2_double_answer") == DoubleAnswer
  {
  }

  lemma KeysOfChannel()
    ensures KeyOf("channel") == Channel && KeyOf("echocancel") == Echocancel
  {
  }

  lemma KeysOfHead1()
    ensures KeyOf("language") == Other && KeyOf("usecallerid") == Other && KeyOf("echocancelwhenbridged") == Other
  {
  }

  lemma KeysOfHead2()
    ensures KeyOf("buffers") == Other && KeyOf("context") == Other && KeyOf("group") == Other
  {
  }

  lemma KeysOfHead3()
    ensures KeyOf("mfcr2_variant") == Other && KeyOf("mfcr2_category") == Other
    ensures KeyOf("mfcr2_mfback_timeout") == Other && KeyOf("mfcr2_metering_pulse_timeout") == Other
  {
  }

  // ----- What each part of chan_dahdi.conf does -----------------------------------------------------------------

  function Do(c: Span, r: Rec): State
  {
    ApplyRec(Set, DELIMS, Some(c), r)
  }

  function DoAll(c: State, recs: seq<Rec>): State
  {
    ApplyRecs(Set, DELIMS, c, recs)
  }

  lemma DoSetting(c: Span, key: string, v: string)
    ensures Do(c, Setting(key, v)) == SetKey(c, KeyOf(key), Reread(v, DELIMS))
  {
    hide KeyOf, SetKey, Reread;
  }

  lemma DoOther(c: Span, key: string, v: string)
    requires KeyOf(key) == Other
    ensures Do(c, Setting(key, v)) == Some(c.(enable := 1))
  {
    hide KeyOf, Reread;
    DoSetting(c, key, v);
  }

  lemma DoPlain(c: Span, line: string)
    ensures Do(c, Plain(line)) == Some(c)
  {
  }

  lemma DoWord(c: Span, key: string, v: string)
    requires Token(v, DELIMS)
    ensures Do(c, Setting(key, v)) == SetKey(c, KeyOf(key), v)
  {
    hide KeyOf, SetKey, Reread, Token;
    DoSetting(c, key, v);
    RereadToken(v, DELIMS);
  }

  lemma DoInt(c: Span, key: string, n: int)
    ensures Do(c, Setting(key, PrintInt(n))) == SetKey(c, KeyOf(key), PrintInt(n))
    ensures Atoi(PrintInt(n)) == n
  {
    hide KeyOf, SetKey, Reread, PrintInt, Atoi;
    DoSetting(c, key, PrintInt(n));
    RereadInt(n, DELIMS);
  }

  lemma YesNoRead(n: int)
    ensures Token(YesNo(n), DELIMS)
    ensures IsYes(YesNo(n)) == IsNotNo(YesNo(n)) == OneOrZero(n)
  {
    assert "no"[0] != "yes"[0];
  }

  lemma DoYesNo(c: Span, key: string, n: int)
    ensures Do(c, Setting(key, YesNo(n))) == SetKey(c, KeyOf(key), YesNo(n))
    ensures IsYes(YesNo(n)) == IsNotNo(YesNo(n)) == OneOrZero(n)
  {
    hide KeyOf, SetKey, Token, YesNo, IsYes, IsNotNo;
    YesNoRead(n);
    DoWord(c, key, YesNo(n));
  }

  lemma SignallingRead(n: int)
    ensures Token(SignallingName(n), DELIMS)
    ensures SignallingOf(SignallingName(n)) == NormalSignalling(n)
  {
    assert "pri_cpe"[4] == 'c' && "pri_net"[4] == 'n' && "mfcr2"[0] == 'm';
  }

  lemma DoHead1(c: Span)
    ensures DoAll(Some(c), Head1) == Some(c.(enable := 1))
  {
    hide KeyOf, ApplyRec, ApplyRecs;
    KeysOfHead1();
    var g := Head1;
    ApplyFour(Set, DELIMS, Some(c), g[0], g[1], g[2], g[3]);
    DoPlain(c, "[channels]");
    DoOther(c, "language", "br");
    var on := c.(enable := 1);
    DoOther(on, "usecallerid", "yes");
    DoOther(on, "echocancelwhenbridged", "no");
  }

  lemma DoHead2(c: Span)
    ensures DoAll(Some(c), Head2) == Some(c.(enable := 1))
  {
    hide KeyOf, ApplyRec, ApplyRecs;
    KeysOfHead2();
    KeysOfHead3();
    var g := Head2;
    ApplyFour(Set, DELIMS, Some(c), g[0], g[1], g[2], g[3]);
    DoOther(c, "buffers", "8,half");
    var on := c.(enable := 1);
    DoOther(on, "context", "from-span1");
    DoOther(on, "group", "1");
    DoOther(on, "mfcr2_variant", "br");
  }

  lemma DoHead3(c: Span)
    ensures DoAll(Some(c), Head3) == Some(c.(enable := 1))
  {
    hide KeyOf, ApplyRec, ApplyRecs;
    KeysOfHead3();
    var g := Head3;
    ApplyFour(Set, DELIMS, Some(c), g[0], g[1], g[2], g[3]);
    DoOther(c, "mfcr2_category", "national_subscriber");
    var on := c.(enable := 1);
    DoOther(on, "mfcr2_mfback_timeout", "5000");
    DoOther(on, "mfcr2_metering_pulse_timeout", "1000");
    DoPlain(on, "#include chan_dahdi_custom.conf");
  }

  lemma DoHead(c: Span)
    ensures DoAll(Some(c), HeadRecs()) == Some(c.(enable := 1))
  {
    hide Do;
    DoHead1(c);
    var on := c.(enable := 1);
    DoHead2(on);
    DoHead3(on);
    ApplyAppend(Set, DELIMS, Some(on), Head2, Head3);
    ApplyAppend(Set, DELIMS, Some(c), Head1, Head2 + Head3);
  }

  lemma DoPart1(c: Span, s: Span)
    requires c.isdn.switchtype == "" && c.enable == 1
    ensures DoAll(Some(c), Part1(s)) == Some(c.(signalling := NormalSignalling(s.signalling),
              isdn := Isdn(OneOrZero(s.isdn.overlapdial), NormalType(s.isdn.switchtype))))
  {
    hide KeyOf, ApplyRec, ApplyRecs, Token, YesNo, SignallingName, SignallingOf, Reread, IsNotNo, IsYes, Copy;
    KeysOfSpan();
    var a := Setting("signalling", SignallingName(s.signalling));
    var b := Setting("overlapdial", YesNo(s.isdn.overlapdial));
    var t := Setting("switchtype", s.isdn.switchtype);
    ApplyTwo(Set, DELIMS, Some(c), a, b);
    SignallingRead(s.signalling);
    DoWord(c, "signalling", SignallingName(s.signalling));
    var c1 := c.(signalling := NormalSignalling(s.signalling));
    DoYesNo(c1, "overlapdial", s.isdn.overlapdial);
    var c2 := c1.(isdn := c.isdn.(overlapdial := OneOrZero(s.isdn.overlapdial)));
    ApplyIf(Set, DELIMS, Some(c2), s.isdn.switchtype != "", t);
    DoSetting(c2, "switchtype", s.isdn.switchtype);
    ApplyAppend(Set, DELIMS, Some(c), [a, b], If(s.isdn.switchtype != "", t));
  }

  lemma DoPart2(c: Span, m: Mfcr2)
    requires c.enable == 1
    ensures DoAll(Some(c), Part2(m)) == Some(c.(mfcr2 := NormalMfcr2(m).(doubleAnswer := c.mfcr2.doubleAnswer)))
  {
    hide KeyOf, ApplyRec, ApplyRecs, YesNo, Reread, IsNotNo, IsYes, Atoi, PrintInt;
    KeysOfMfcr2();
    var g := Part2(m);
    ApplyFour(Set, DELIMS, Some(c), g[0], g[1], g[2], g[3]);
    DoYesNo(c, "mfcr2_get_ani_first", m.getAniFirst);
    var c1 := c.(mfcr2 := c.mfcr2.(getAniFirst := OneOrZero(m.getAniFirst)));
    DoInt(c1, "mfcr2_max_ani", m.maxAni);
    var c2 := c1.(mfcr2 := c1.mfcr2.(maxAni := m.maxAni));
    DoInt(c2, "mfcr2_max_dnis", m.maxDnis);
    var c3 := c2.(mfcr2 := c2.mfcr2.(maxDnis := m.maxDnis));
    DoYesNo(c3, "mfcr2_allow_collect_calls", m.allowCollect);
  }

  lemma DoPart3(c: Span, s: Span)
    requires c.enable == 1
    ensures DoAll(Some(c), Part3(s)) == Some(c.(echocancel := OneOrZero(s.echocancel),
              mfcr2 := c.mfcr2.(doubleAnswer := OneOrZero(s.mfcr2.doubleAnswer))))
  {
    hide KeyOf, ApplyRec, ApplyRecs, YesNo, Reread, IsNotNo, IsYes, PrintInt;
    KeysOfMfcr2();
    KeysOfHead2();
    KeysOfChannel();
    var g := Part3(s);
    ApplyFour(Set, DELIMS, Some(c), g[0], g[1], g[2], g[3]);
    DoYesNo(c, "mfcr2_double_answer", s.mfcr2.doubleAnswer);
    var c1 := c.(mfcr2 := c.mfcr2.(doubleAnswer := OneOrZero(s.mfcr2.doubleAnswer)));
    DoOther(c1, "context", "from-span" + PrintInt(1));
    DoOther(c1, "group", PrintInt(1));
    DoYesNo(c1, "echocancel", s.echocancel);
  }

  /** A printed bitmap is one token of the file: digits and commas. */
  lemma {:induction false} ListIsPlain(items: seq<string>)
    requires forall i | 0 <= i < |items| :: Token(items[i], DELIMS)
    ensures forall i | 0 <= i < |Join(items)| :: Join(items)[i] !in DELIMS
  {
    if |items| > 1 {
      ListIsPlain(items[1..]);
    }
  }

  lemma BitmapIsToken(n: nat)
    ensures Token(">" + BitmapLine(0, n), DELIMS)
  {
    hide Join, PrintInt, SetBits;
    var names := Names(0, SetBits(n, BITS));
    forall i | 0 <= i < |names| ensures Token(names[i], DELIMS) {
      PrintedIsToken(SetBits(n, BITS)[i], DELIMS);
    }
    ListIsPlain(names);
  }

  lemma BitmapNotEmpty(n: nat)
    requires 0 < n < 0x1_0000_0000
    ensures BitmapLine(0, n) != ""
  {
    hide PrintInt, SetBits;
    LowestBit(n);
  }

  lemma DoPart4(c: Span, s: Span)
    requires c.enable == 1 && c.bitmap == 0 && s.bitmap < 0x1_0000_0000
    ensures DoAll(Some(c), Part4(s))
         == if s.bitmap == 0x8000_0000 then None else Some(c.(bitmap := s.bitmap - s.bitmap % 2))
  {
    hide KeyOf, ApplyRec, ApplyRecs, Token, BitmapLine, ParseBitmap, Find;
    KeysOfChannel();
    if s.bitmap > 0 {
      var line := BitmapLine(0, s.bitmap);
      ApplyIf(Set, DELIMS, Some(c), line != "", Setting("channel", ">" + line));
      BitmapNotEmpty(s.bitmap);
      BitmapIsToken(s.bitmap);
      DoWord(c, "channel", ">" + line);
      BehindArrow(line);
      BitmapRoundTrip(s.bitmap);
    } else {
      ApplyIf(Set, DELIMS, Some(c), false, Setting("channel", ">" + BitmapLine(0, s.bitmap)));
    }
  }

  lemma BehindArrow(line: string)
    ensures NextToken(">" + line, '>') == Some(("", line))
  {
    var s := ">" + line;
    assert s[0] == '>' && s[..0] == "" && s[1..] == line;
  }

  lemma DoSpan(c: Span, s: Span)
    requires c == Zero.(enable := 1) && Sane(s)
    ensures DoAll(Some(c), ChanRecs(s)) == if s.bitmap == 0x8000_0000 then None else Some(NormalChan(s))
  {
    hide Do, Part1, Part2, Part3, Part4, ApplyRecs, NormalType, NormalSignalling;
    DoPart1(c, s);
    var c1 := DoAll(Some(c), Part1(s)).value;
    DoPart2(c1, s.mfcr2);
    var c2 := DoAll(Some(c1), Part2(s.mfcr2)).value;
    DoPart3(c2, s);
    var c3 := DoAll(Some(c2), Part3(s)).value;
    DoPart4(c3, s);
    ApplyAppend(Set, DELIMS, Some(c2), Part3(s), Part4(s));
    ApplyAppend(Set, DELIMS, Some(c1), Part2(s.mfcr2), Part3(s) + Part4(s));
    ApplyAppend(Set, DELIMS, Some(c), Part1(s), Part2(s.mfcr2) + (Part3(s) + Part4(s)));
  }

  // ----- chan_dahdi.conf as text --------------------------------------------------------------------------------

  lemma YesNoOk(k: string, n: int)
    requires KeyFits(k)
    ensures RecOk(Setting(k, YesNo(n)), LINE)
  {
    hide RecOk, KeyFits;
    WordOk(k, YesNo(n), LINE);
  }

  lemma ChannelsOk()
    ensures RecOk(Plain("[channels]"), LINE)
  {
    hide RecOk;
    PlainOk("[channels]", LINE);
  }

  lemma BridgedOk()
    ensures RecOk(Setting("echocancelwhenbridged", "no"), LINE)
  {
    hide RecOk;
    WordOk("echocancelwhenbridged", "no", LINE);
  }

  lemma ShortLinesOk()
    ensures RecOk(Setting("language", "br"), LINE)
    ensures RecOk(Setting("usecallerid", "yes"), LINE)
    ensures RecOk(Setting("buffers", "8,half"), LINE)
  {
    hide RecOk;
    WordOk("language", "br", LINE);
    WordOk("usecallerid", "yes", LINE);
    WordOk("buffers", "8,half", LINE);
  }

  lemma SpanLinesOk()
    ensures RecOk(Setting("context", "from-span1"), LINE)
    ensures RecOk(Setting("group", "1"), LINE)
    ensures RecOk(Setting("mfcr2_variant", "br"), LINE)
  {
    hide RecOk;
    WordOk("context", "from-span1", LINE);
    WordOk("group", "1", LINE);
    WordOk("mfcr2_variant", "br", LINE);
  }

  lemma LongLinesOk()
    ensures RecOk(Setting("mfcr2_category", "national_subscriber"), LINE)
    ensures RecOk(Setting("mfcr2_mfback_timeout", "5000"), LINE)
  {
    hide RecOk;
    WordOk("mfcr2_category", "national_subscriber", LINE);
    WordOk("mfcr2_mfback_timeout", "5000", LINE);
  }

  lemma Head1Ok()
    ensures AllOk(Head1, LINE)
  {
    hide RecOk;
    ShortLinesOk();
    ChannelsOk();
    BridgedOk();
  }

  lemma Head2Ok()
    ensures AllOk(Head2, LINE)
  {
    hide RecOk;
    ShortLinesOk();
    SpanLinesOk();
  }

  lemma MeteringOk()
    ensures RecOk(Setting("mfcr2_metering_pulse_timeout", "1000"), LINE)
  {
    hide RecOk, KeyFits;
    assert KeyFits("mfcr2_metering_pulse_timeout") by { MeteringKey(); }
    WordOk("mfcr2_metering_pulse_timeout", "1000", LINE);
  }

  lemma MeteringKey()
    ensures KeyFits("mfcr2_metering_pulse_timeout")
  {
    assert "mfcr2_metering_pulse_timeout" == "mfcr2_metering" + "_pulse_timeout";
    JoinedKey("mfcr2_metering", "_pulse_timeout");
  }

  lemma JoinedKey(a: string, b: string)
    requires KeyFits(a) && KeyFits(b) && |a| + |b| <= 30
    ensures KeyFits(a + b)
  {
  }

  lemma IncludeOk()
    ensures RecOk(Plain("#include chan_dahdi_custom.conf"), LINE)
  {
    hide RecOk;
    PlainOk("#include chan_dahdi_custom.conf", LINE);
  }

  lemma Head3Ok()
    ensures AllOk(Head3, LINE)
  {
    hide RecOk;
    LongLinesOk();
    MeteringOk();
    IncludeOk();
  }

  lemma Part1Ok(s: Span)
    requires Sane(s)
    ensures AllOk(Part1(s), LINE)
  {
    hide RecOk, YesNo;
    WordOk("signalling", SignallingName(s.signalling), LINE);
    YesNoOk("overlapdial", s.isdn.overlapdial);
    WordOk("switchtype", s.isdn.switchtype, LINE);
  }

  lemma Part2Keys()
    ensures KeyFits("mfcr2_get_ani_first") && KeyFits("mfcr2_max_ani") && KeyFits("mfcr2_max_dnis")
    ensures KeyFits("mfcr2_allow_collect_calls")
  {
  }

  lemma Part2Ok(s: Span)
    requires Sane(s)
    ensures AllOk(Part2(s.mfcr2), LINE)
  {
    hide RecOk, YesNo, PrintInt, KeyFits;
    Part2Keys();
    YesNoOk("mfcr2_get_ani_first", s.mfcr2.getAniFirst);
    IntOk("mfcr2_max_ani", s.mfcr2.maxAni, LINE);
    IntOk("mfcr2_max_dnis", s.mfcr2.maxDnis, LINE);
    YesNoOk("mfcr2_allow_collect_calls", s.mfcr2.allowCollect);
  }

  lemma NumFits(n: int)
    requires -0x8000_0000 <= n < 0x8000_0000
    ensures '\n' !in PrintInt(n) && |PrintInt(n)| <= 11
  {
    hide PrintInt, Reread, Body, Atoi;
    RereadInt(n, DELIMS);
    PrintLength(n);
  }

  lemma SpanContextOk(number: string)
    requires '\n' !in number && |number| <= 11
    ensures RecOk(Setting("context", "from-span" + number), LINE)
  {
    hide RecOk;
    WordOk("context", "from-span" + number, LINE);
  }

  lemma Part3Ok(s: Span)
    ensures AllOk(Part3(s), LINE)
  {
    hide RecOk, YesNo, PrintInt;
    YesNoOk("mfcr2_double_answer", s.mfcr2.doubleAnswer);
    NumFits(1);
    SpanContextOk(PrintInt(1));
    IntOk("group", 1, LINE);
    YesNoOk("echocancel", s.echocancel);
  }

  lemma {:induction false} ListLength(bitmap: nat, k: nat)
    requires k <= BITS
    ensures |LineUpTo(0, bitmap, k)| <= 3 * k
  {
    hide Bit, PrintInt, Join;
    if k == 0 {
      JoinNone();
    } else {
      ListLength(bitmap, k - 1);
      if Bit(bitmap, k - 1) {
        LineGrows(0, bitmap, k - 1);
        ShortName(k - 1);
      } else {
        assert SetBits(bitmap, k) == SetBits(bitmap, k - 1);
      }
    }
  }

  lemma Part4Ok(s: Span)
    ensures AllOk(Part4(s), LINE)
  {
    hide RecOk, BitmapLine;
    BitmapIsToken(s.bitmap);
    assert |BitmapLine(0, s.bitmap)| <= 96 by { ListLength(s.bitmap, BITS); BitmapIsWhole(s.bitmap); }
    WordOk("channel", ">" + BitmapLine(0, s.bitmap), LINE);
  }

  lemma BitmapIsWhole(n: nat)
    ensures BitmapLine(0, n) == LineUpTo(0, n, BITS)
  {
  }

  lemma ChanOk(s: Span)
    requires Sane(s)
    ensures AllOk(HeadRecs(), LINE) && AllOk(HeadRecs() + ChanRecs(s), LINE)
  {
    hide AllOk, Part1, Part2, Part3, Part4;
    Head1Ok();
    Head2Ok();
    Head3Ok();
    AllOkAppend(Head2, Head3, LINE);
    AllOkAppend(Head1, Head2 + Head3, LINE);
    Part1Ok(s);
    Part2Ok(s);
    Part3Ok(s);
    Part4Ok(s);
    AllOkAppend(Part3(s), Part4(s), LINE);
    AllOkAppend(Part2(s.mfcr2), Part3(s) + Part4(s), LINE);
    AllOkAppend(Part1(s), Part2(s.mfcr2) + (Part3(s) + Part4(s)), LINE);
    AllOkAppend(HeadRecs(), ChanRecs(s), LINE);
  }

  /** Parsing the saved chan_dahdi.conf. */
  lemma ChanRoundTrip(s: Span)
    requires Sane(s)
    ensures ParseChan(Some(Zero), ChanConf(s))
         == if s.enable == 0 then Some(Zero.(enable := 1))
            else if s.bitmap == 0x8000_0000 then None
            else Some(NormalChan(s))
  {
    hide HeadRecs, ChanRecs, ApplyRecs, RenderAll, RecOk, ParseText, NormalChan, Sane;
    ChanOk(s);
    DoHead(Zero);
    if s.enable == 0 {
      assert RenderAll(HeadRecs()) + "" == RenderAll(HeadRecs());
      ReadRecords(Set, DELIMS, LINE, Some(Zero), HeadRecs());
    } else {
      RenderAppend(HeadRecs(), ChanRecs(s));
      ReadRecords(Set, DELIMS, LINE, Some(Zero), HeadRecs() + ChanRecs(s));
      ApplyAppend(Set, DELIMS, Some(Zero), HeadRecs(), ChanRecs(s));
      DoSpan(Zero.(enable := 1), s);
    }
  }

  // ----- system.conf -----------------------------------------------------------------------------------------------

  lemma ItemsAreTokens(s: Span)
    ensures forall i | 0 <= i < |SpanItems(s)| :: Token(SpanItems(s)[i], COMMA) && Token(SpanItems(s)[i], DELIMS)
  {
    hide PrintInt;
    PrintedIsToken(s.clock, COMMA);
    PrintedIsToken(s.clock, DELIMS);
  }

  lemma One()
    ensures Atoi("1") == 1 && PrintInt(1) == "1"
  {
    AtoiPrinted(1);
  }

  /** The span line, as the parser reads it. */
  lemma SpanRead(c: Span, s: Span)
    ensures SetSpan(c, Join(SpanItems(s)))
         == Some(if ClockOk(s) then c.(clock := s.clock, crc := OneOrZero(s.crc), enable := 1) else c)
  {
    hide PrintInt, Atoi, Join, Split, Token;
    ItemsAreTokens(s);
    SplitJoin(SpanItems(s));
    One();
    AtoiPrinted(s.clock);
  }

  lemma SpanIsToken(s: Span)
    ensures Token(Join(SpanItems(s)), DELIMS)
  {
    hide PrintInt;
    ItemsAreTokens(s);
    ListIsPlain(SpanItems(s));
  }

  lemma OtherLine(c: Span, key: string, v: string)
    requires key != "span"
    ensures ApplyRec(SetSystem, DELIMS, Some(c), Setting(key, v)) == Some(c)
  {
    hide Reread;
  }

  lemma DoSpanLine(c: Span, s: Span)
    ensures ApplyRec(SetSystem, DELIMS, Some(c), Setting("span", Join(SpanItems(s))))
         == Some(if ClockOk(s) then c.(clock := s.clock, crc := OneOrZero(s.crc), enable := 1) else c)
  {
    hide Reread, Join, SpanItems, SetSpan;
    SpanIsToken(s);
    RereadToken(Join(SpanItems(s)), DELIMS);
    SpanRead(c, s);
  }

  lemma DoSystemHead(c: Span)
    ensures ApplyRecs(SetSystem, DELIMS, Some(c), SystemHead) == Some(c)
  {
    hide ApplyRec;
    assert SystemHead[0] == Setting("loadzone", "br") && SystemHead[1] == Setting("defaultzone", "br");
    ApplyTwo(SetSystem, DELIMS, Some(c), SystemHead[0], SystemHead[1]);
    assert "loadzone"[0] == 'l' && "defaultzone"[0] == 'd';
    OtherLine(c, "loadzone", "br");
    OtherLine(c, "defaultzone", "br");
  }

  lemma DoSystem(c: Span, s: Span)
    ensures ApplyRecs(SetSystem, DELIMS, Some(c), SystemRecs(s))
         == Some(if ClockOk(s) then c.(clock := s.clock, crc := OneOrZero(s.crc), enable := 1) else c)
  {
    hide ApplyRec, Join, SpanItems, RangeLine, PrintInt;
    DoSpanLine(c, s);
    var d := if ClockOk(s) then c.(clock := s.clock, crc := OneOrZero(s.crc), enable := 1) else c;
    var first := Setting("span", Join(SpanItems(s)));
    if s.signalling == SIG_MFCR2 {
      var cas := Setting("cas", RangeLine(0, 30) + ":1101");
      assert SystemRecs(s) == [first, cas];
      ApplyTwo(SetSystem, DELIMS, Some(c), first, cas);
      assert "cas"[0] == 'c';
      OtherLine(d, "cas", RangeLine(0, 30) + ":1101");
    } else {
      var b, dch := Setting("bchan", RangeLine(0, 30)), Setting("dchan", PrintInt(16));
      assert SystemRecs(s) == [first, b, dch];
      ApplyThree(SetSystem, DELIMS, Some(c), first, b, dch);
      assert "bchan"[0] == 'b' && "dchan"[0] == 'd';
      OtherLine(d, "bchan", RangeLine(0, 30));
      OtherLine(d, "dchan", PrintInt(16));
    }
  }

  lemma RangeFits()
    ensures '\n' !in RangeLine(0, 30) && |RangeLine(0, 30)| <= 60
  {
    hide PrintInt;
    NumFits(1);
    NumFits(15);
    NumFits(17);
    NumFits(31);
  }

  lemma SpanFits(s: Span)
    requires Sane(s)
    ensures |Join(SpanItems(s))| <= 72
  {
    hide PrintInt;
    PrintLength(s.clock);
    var items := SpanItems(s);
    assert items[1..][1..][1..][1..][1..] == Crc(s.crc);
    JoinAtMost(items, 11);
  }

  lemma {:induction false} JoinAtMost(items: seq<string>, max: nat)
    requires forall i | 0 <= i < |items| :: |items[i]| <= max
    ensures |Join(items)| <= |items| * (max + 1)
  {
    if |items| > 1 {
      JoinAtMost(items[1..], max);
    }
  }

  lemma SystemOk(s: Span)
    requires Sane(s)
    ensures AllOk(SystemHead, LINE) && AllOk(SystemHead + SystemRecs(s), LINE)
  {
    hide RecOk, Join, SpanItems, RangeLine, PrintInt;
    ZonesOk();
    SpanLineOk(s);
    RangesOk();
    IntOk("dchan", 16, LINE);
    AllOkAppend(SystemHead, SystemRecs(s), LINE);
  }

  lemma ZonesOk()
    ensures RecOk(Setting("loadzone", "br"), LINE) && RecOk(Setting("defaultzone", "br"), LINE)
  {
    hide RecOk;
    WordOk("loadzone", "br", LINE);
    WordOk("defaultzone", "br", LINE);
  }

  lemma SpanLineOk(s: Span)
    requires Sane(s)
    ensures RecOk(Setting("span", Join(SpanItems(s))), LINE)
  {
    hide RecOk, Join, SpanItems, Token;
    SpanIsToken(s);
    SpanFits(s);
    NoNewline(Join(SpanItems(s)));
    WordOk("span", Join(SpanItems(s)), LINE);
  }

  lemma RangesOk()
    ensures RecOk(Setting("cas", RangeLine(0, 30) + ":1101"), LINE) && RecOk(Setting("bchan", RangeLine(0, 30)), LINE)
  {
    hide RecOk, RangeLine;
    RangeFits();
    WordOk("cas", RangeLine(0, 30) + ":1101", LINE);
    WordOk("bchan", RangeLine(0, 30), LINE);
  }

  lemma NoNewline(v: string)
    requires Token(v, DELIMS)
    ensures '\n' !in v
  {
  }

  /** Parsing the saved system.conf. */
  lemma SystemRoundTrip(c: Span, s: Span)
    requires Sane(s)
    ensures ParseSystem(Some(c), SystemConf(s))
         == Some(if s.enable != 0 && ClockOk(s) then c.(clock := s.clock, crc := OneOrZero(s.crc), enable := 1) else c)
  {
    hide SystemRecs, ApplyRecs, RenderAll, RecOk, ParseText, Sane;
    SystemOk(s);
    DoSystemHead(c);
    if s.enable == 0 {
      assert RenderAll(SystemHead) + "" == RenderAll(SystemHead);
      ReadRecords(SetSystem, DELIMS, LINE, Some(c), SystemHead);
    } else {
      RenderAppend(SystemHead, SystemRecs(s));
      ReadRecords(SetSystem, DELIMS, LINE, Some(c), SystemHead + SystemRecs(s));
      ApplyAppend(SetSystem, DELIMS, Some(c), SystemHead, SystemRecs(s));
      DoSystem(c, s);
    }
  }

  lemma SystemUndefined(text: string)
    ensures ParseSystem(None, text) == None
  {
    StaysUndefined(Pieces(text, LINE));
  }

  lemma {:induction false} StaysUndefined(bufs: seq<string>)
    ensures ApplyPieces(SetSystem, DELIMS, None, bufs) == None
    decreases |bufs|
  {
    hide SettingOf;
    if bufs != [] {
      StaysUndefined(bufs[1..]);
    }
  }

  // ----- The main results -----------------------------------------------------------------------------------------

  /**
   * Both files, saved and parsed: an enabled span comes back in its normal form, except that bit 31 alone
   * makes the parser write outside the array; a disabled span comes back empty and enabled.
   */
  lemma SaveThenParse(s: Span)
    requires Sane(s)
    ensures Parse(ChanConf(s), SystemConf(s))
         == if s.enable == 0 then Some(Zero.(enable := 1))
            else if s.bitmap == 0x8000_0000 then None
            else Some(NormalForm(s))
  {
    hide ParseChan, ParseSystem, ChanConf, SystemConf, Sane;
    ChanRoundTrip(s);
    if s.enable != 0 && s.bitmap == 0x8000_0000 {
      SystemUndefined(SystemConf(s));
    } else {
      SystemRoundTrip(if s.enable == 0 then Zero.(enable := 1) else NormalChan(s), s);
    }
  }

  /** What a span must look like to be stored without loss. */
  predicate Canonical(s: Span)
  {
    && s.enable == 1 && s.channels == 0 && s.channelsOffset == 0
    && s.bitmap % 2 == 0 && s.bitmap != 0x8000_0000
    && 0 <= s.clock <= NUMSPANS
    && 0 <= s.signalling <= 2
    && s.crc in {0, 1} && s.echocancel in {0, 1} && s.isdn.overlapdial in {0, 1}
    && s.mfcr2.getAniFirst in {0, 1} && s.mfcr2.allowCollect in {0, 1} && s.mfcr2.doubleAnswer in {0, 1}
  }

  /**
   * A span comes back unchanged if and only if it is canonical and its switch type is empty, one word
   * (with or without blanks in front of it), or fifteen blanks.
   */
  lemma WhatSurvives(s: Span)
    requires Sane(s)
    ensures Parse(ChanConf(s), SystemConf(s)) == Some(s) <==>
      Canonical(s) && (s.isdn.switchtype == "" || Settled(s.isdn.switchtype, 15, DELIMS))
  {
    hide Parse, ChanConf, SystemConf, Reread, Round, Settled;
    SaveThenParse(s);
    if s.isdn.switchtype != "" {
      RoundSettles(s.isdn.switchtype, 15, DELIMS);
    }
  }
}
