/** What the lines of the two DAHDI files set and assign, also those that the library does not read back. */
module DahdiLines {
  import opened Attributes
  import opened Text
  import opened Tokens
  import opened Strings
  import opened Channels
  import opened Lookup
  import opened Dahdi
  import opened DahdiRoundTrip

  // ----- system.conf ---------------------------------------------------------------------------------------------

  /** The slots that the values of a key assign; what follows a colon is not part of the channel list. */
  function SlotsIn(values: seq<string>): set<int>
  {
    if values == [] then {} else Denoted(values[0][..Find(values[0], ':')]) + SlotsIn(values[1..])
  }

  /** The slots that a system.conf puts on cas, bchan or dchan. */
  function SlotsOn(text: string, key: string): set<int>
  {
    SlotsIn(ValuesOf(text, key, LINE))
  }

  predicate Assigns(key: string)
  {
    key == "span" || key == "cas" || key == "bchan" || key == "dchan"
  }

  lemma HeadLacks(key: string)
    requires Assigns(key)
    ensures Lacks(SystemHead, key)
  {
    assert SystemHead[0].key[0] == 'l' && |SystemHead[1].key| == 11;
    assert key[0] != 'l' && |key| < 11;
  }

  /** The values that a saved system.conf gives a key. */
  lemma SystemValues(s: Span, key: string)
    requires Sane(s) && Assigns(key)
    ensures ValuesOf(SystemConf(s), key, LINE) == if s.enable == 0 then [] else ValuesIn(SystemRecs(s), key)
  {
    hide ValuesOf, ValuesIn, SystemRecs, RenderAll, Sane, AllOk, Assigns, Lacks;
    SystemOk(s);
    HeadLacks(key);
    NoValues(SystemHead, key);
    if s.enable == 0 {
      assert RenderAll(SystemHead) + "" == RenderAll(SystemHead);
      ValuesRead(SystemHead, key, LINE);
    } else {
      RenderAppend(SystemHead, SystemRecs(s));
      ValuesRead(SystemHead + SystemRecs(s), key, LINE);
      ValuesAppend(SystemHead, SystemRecs(s), key);
    }
  }

  lemma ThreeValues(key: string, r1: Rec, r2: Rec, r3: Rec)
    ensures ValuesIn([r1, r2], key) == ValueIn(r1, key) + ValueIn(r2, key)
    ensures ValuesIn([r1, r2, r3], key) == ValueIn(r1, key) + ValueIn(r2, key) + ValueIn(r3, key)
  {
    hide ValueIn;
    assert [r1, r2, r3][1..] == [r2, r3] && [r2, r3][1..] == [r3] && [r3][1..] == [];
    assert [r1, r2][1..] == [r2] && [r2][1..] == [];
    assert ValuesIn([r3], key) == ValueIn(r3, key) + [] && ValuesIn([r2], key) == ValueIn(r2, key) + [];
  }

  /** The values of an enabled span, by key. */
  lemma RecordValues(s: Span)
    ensures ValuesIn(SystemRecs(s), "span") == [Join(SpanItems(s))]
    ensures ValuesIn(SystemRecs(s), "cas") == if s.signalling == 0 then [RangeLine(0, 30) + ":1101"] else []
    ensures ValuesIn(SystemRecs(s), "bchan") == if s.signalling == 0 then [] else [RangeLine(0, 30)]
    ensures ValuesIn(SystemRecs(s), "dchan") == if s.signalling == 0 then [] else [PrintInt(16)]
  {
    hide ValuesIn, Join, SpanItems, RangeLine, PrintInt, Reread;
    ValuesStand(s);
    var first := Setting("span", Join(SpanItems(s)));
    var cas, b, d := Setting("cas", RangeLine(0, 30) + ":1101"), Setting("bchan", RangeLine(0, 30)),
                     Setting("dchan", PrintInt(16));
    assert "span"[0] == 's' && "cas"[0] == 'c' && "bchan"[0] == 'b' && "dchan"[0] == 'd';
    forall key | Assigns(key)
      ensures ValuesIn(SystemRecs(s), key)
           == ValueIn(first, key) + if s.signalling == 0 then ValueIn(cas, key) else ValueIn(b, key) + ValueIn(d, key)
    {
      ThreeValues(key, first, if s.signalling == 0 then cas else b, d);
      assert SystemRecs(s) == if s.signalling == 0 then [first, cas] else [first, b, d];
    }
  }

  lemma ValuesStand(s: Span)
    ensures Reread(Join(SpanItems(s)), LINE_END) == Join(SpanItems(s))
    ensures Reread(RangeLine(0, 30) + ":1101", LINE_END) == RangeLine(0, 30) + ":1101"
    ensures Reread(RangeLine(0, 30), LINE_END) == RangeLine(0, 30) && Reread(PrintInt(16), LINE_END) == PrintInt(16)
  {
    hide Join, SpanItems, PrintInt, Reread;
    SpanIsToken(s);
    RangeFits();
    RereadToken(Join(SpanItems(s)), LINE_END);
    RereadToken(RangeLine(0, 30) + ":1101", LINE_END);
    RereadToken(RangeLine(0, 30), LINE_END);
    RereadInt(16, LINE_END);
  }

  /**
   * Which slots a saved system.conf assigns: none for a disabled span; for MFC/R2 the slots 1 to 31 without
   * the 16th on cas, with the idle code 1101; for any other signalling these on bchan and the 16th on dchan.
   */
  lemma SlotsSaved(s: Span)
    requires Sane(s)
    ensures var text := SystemConf(s);
      && (forall x :: x in SlotsOn(text, "cas") <==> s.enable != 0 && s.signalling == 0 && 1 <= x <= 31 && x != 16)
      && (forall x :: x in SlotsOn(text, "bchan") <==> s.enable != 0 && s.signalling != 0 && 1 <= x <= 31 && x != 16)
      && (forall x :: x in SlotsOn(text, "dchan") <==> s.enable != 0 && s.signalling != 0 && x == 16)
      && (forall v | v in ValuesOf(text, "cas", LINE) :: v[Find(v, ':')..] == ":1101")
  {
    hide ValuesOf, SystemConf, SystemRecs, Sane, RangeLine, PrintInt, Find, Denoted, ValuesIn;
    SystemValues(s, "cas");
    SystemValues(s, "bchan");
    SystemValues(s, "dchan");
    RecordValues(s);
    RangeSlots();
    NoSlots();
    OneSlots(RangeLine(0, 30) + ":1101");
    OneSlots(RangeLine(0, 30));
    OneSlots(PrintInt(16));
  }

  lemma NoSlots()
    ensures SlotsIn([]) == {}
  {
  }

  lemma OneSlots(v: string)
    ensures SlotsIn([v]) == Denoted(v[..Find(v, ':')])
  {
    hide Denoted, Find;
    assert [v][1..] == [];
  }

  /** What the three values denote, up to their colon. */
  lemma RangeSlots()
    ensures var range := RangeLine(0, 30);
      var cas := range + ":1101";
      && cas[..Find(cas, ':')] == range && cas[Find(cas, ':')..] == ":1101"
      && range[..Find(range, ':')] == range
      && PrintInt(16)[..Find(PrintInt(16), ':')] == PrintInt(16)
    ensures forall x :: x in Denoted(RangeLine(0, 30)) <==> 1 <= x <= 31 && x != 16
    ensures Denoted(PrintInt(16)) == {16}
  {
    hide PrintInt, Denoted, RangeLine, Slots;
    LineDenotes(0, 30);
    DenotedOne(16, "");
    assert PrintInt(16) + "" == PrintInt(16);
    assert ':' !in PrintInt(16);
    var range := RangeLine(0, 30);
    assert ':' !in range by { RangeHasNoColon(); }
    FindFirst(range, ':', "1101");
    assert range + [':'] + "1101" == range + ":1101";
  }

  lemma RangeHasNoColon()
    ensures ':' !in RangeLine(0, 30)
  {
    hide PrintInt;
  }

  /**
   * The span line of an enabled span: number 1, the clock source, 0, how the slots are signalled, hdb3, and
   * crc4 if it is on. A disabled span has none.
   */
  lemma SpanLineSaved(s: Span)
    requires Sane(s)
    ensures var lines := ValuesOf(SystemConf(s), "span", LINE);
      if s.enable == 0 then lines == []
      else
        && |lines| == 1
        && Split(lines[0], COMMA)
           == ["1", PrintInt(s.clock), "0", if s.signalling == 0 then "cas" else "ccs", "hdb3"]
              + if s.crc != 0 then ["crc4"] else []
  {
    hide ValuesOf, ValuesIn, SystemConf, SystemRecs, Sane, RangeLine, PrintInt, Join, Split;
    SystemValues(s, "span");
    RecordValues(s);
    ItemsAreTokens(s);
    SplitJoin(SpanItems(s));
  }

  // ----- The channel line of chan_dahdi.conf ----------------------------------------------------------------------

  lemma {:induction false} BitsSet(n: nat, k: nat)
    ensures forall j: nat :: j in SetBits(n, k) <==> j < k && Bit(n, j)
  {
    hide Bit;
    if k > 0 {
      BitsSet(n, k - 1);
    }
  }

  function Numbers(offset: nat, bits: seq<nat>): (r: set<int>)
    ensures forall x :: x in r <==> x - offset in bits
  {
    set i | 0 <= i < |bits| :: offset + bits[i]
  }

  /** A printed list denotes the numbers in it. */
  lemma {:induction false} ListDenotes(offset: nat, bits: seq<nat>)
    ensures Denoted(Join(Names(offset, bits))) == Numbers(offset, bits)
    decreases |bits|
  {
    hide PrintInt, Slots, Denoted;
    var names := Names(offset, bits);
    if bits == [] {
      NothingDenoted();
      assert names == [];
    } else if |bits| == 1 {
      DenotedOne(offset + bits[0], "");
      assert names[0] + "" == names[0] && Join(names) == names[0];
    } else {
      ListDenotes(offset, bits[1..]);
      assert names[1..] == Names(offset, bits[1..]);
      var rest := "," + Join(names[1..]);
      DenotedOne(offset + bits[0], rest);
      assert Join(names) == names[0] + rest && rest[1..] == Join(names[1..]);
      assert forall x :: x in bits <==> x == bits[0] || x in bits[1..];
    }
  }

  lemma NothingDenoted()
    ensures Denoted(Join([])) == {}
  {
  }

  /** The channel line of a bitmap denotes exactly the numbers of its bits. */
  lemma BitmapDenotes(span: nat, bitmap: nat)
    ensures forall x :: x in Denoted(BitmapLine(span, bitmap)) <==>
      0 <= x - 31 * span < 32 && Bit(bitmap, x - 31 * span)
  {
    hide Denoted, Bit, SetBits, Names, Join;
    ListDenotes(span * 31, SetBits(bitmap, 32));
    BitsSet(bitmap, 32);
  }

  // ----- What each line of chan_dahdi.conf sets -----------------------------------------------------------------

  /** The span after one more line. */
  function AfterLine(c: Span, key: string, v: string): State
  {
    ApplyPiece(Set, DELIMS, Some(c), key + "=" + v + "\n")
  }

  lemma LineSets(c: Span, key: string, v: string, k: Key)
    requires '=' !in key && Token(v, DELIMS) && KeyOf(key) == k
    ensures AfterLine(c, key, v) == SetKey(c, k, v)
  {
    hide KeyOf, SetKey, Crop;
    SettingRead(key, v + "\n", DELIMS);
    CropToken(v, "\n", DELIMS);
    assert key + "=" + v + "\n" == key + "=" + (v + "\n");
  }

  lemma WordIsToken(v: string)
    requires v != "" && ' ' !in v && '\t' !in v && '\n' !in v && ';' !in v && '#' !in v
    ensures Token(v, DELIMS)
  {
  }

  /** What stands behind a blank, a semicolon or a hash is not part of the value. */
  lemma RestIgnored(c: Span, key: string, v: string, blank: char, rest: string)
    requires '=' !in key && v != "" && ' ' !in v && '\t' !in v && '\n' !in v && ';' !in v && '#' !in v
    requires blank == ' ' || blank == '\t' || blank == ';' || blank == '#'
    ensures AfterLine(c, key, v + [blank] + rest) == AfterLine(c, key, v)
  {
    hide Crop, Set;
    var end := [blank] + rest + "\n";
    WordIsToken(v);
    SettingRead(key, v + end, DELIMS);
    SettingRead(key, v + "\n", DELIMS);
    CropToken(v, end, DELIMS);
    CropToken(v, "\n", DELIMS);
    assert key + "=" + (v + [blank] + rest) + "\n" == key + "=" + (v + end);
    assert key + "=" + v + "\n" == key + "=" + (v + "\n");
  }

  lemma SignallingLines(c: Span, v: string)
    requires v != "" && ' ' !in v && '\t' !in v && '\n' !in v && ';' !in v && '#' !in v
    ensures AfterLine(c, "signalling", v)
         == Some(c.(enable := 1, signalling := if v == "pri_net" then 1 else if v == "pri_cpe" then 2 else 0))
    ensures AfterLine(c, "overlapdial", v)
         == Some(c.(enable := 1, isdn := c.isdn.(overlapdial := if v == "no" then 0 else 1)))
    ensures AfterLine(c, "switchtype", v) == Some(c.(enable := 1, isdn := c.isdn.(switchtype := Copy(v, 15))))
  {
    hide AfterLine, KeyOf, SetKey, PrintInt, Token, Copy;
    WordIsToken(v);
    KeysOfSpan();
    SignallingSets(c, v);
    LineSets(c, "signalling", v, Signalling);
    LineSets(c, "overlapdial", v, Overlapdial);
    LineSets(c, "switchtype", v, Switchtype);
  }

  lemma SignallingSets(c: Span, v: string)
    ensures SetKey(c, Signalling, v)
         == Some(c.(enable := 1, signalling := if v == "pri_net" then 1 else if v == "pri_cpe" then 2 else 0))
    ensures SetKey(c, Overlapdial, v)
         == Some(c.(enable := 1, isdn := c.isdn.(overlapdial := if v == "no" then 0 else 1)))
    ensures SetKey(c, Switchtype, v) == Some(c.(enable := 1, isdn := c.isdn.(switchtype := Copy(v, 15))))
  {
    hide Atoi, Copy, ParseBitmap;
  }

  lemma Mfcr2Lines(c: Span, v: string)
    requires v != "" && ' ' !in v && '\t' !in v && '\n' !in v && ';' !in v && '#' !in v
    ensures AfterLine(c, "mfcr2_get_ani_first", v)
         == Some(c.(enable := 1, mfcr2 := c.mfcr2.(getAniFirst := if v == "yes" then 1 else 0)))
    ensures AfterLine(c, "mfcr2_allow_collect_calls", v)
         == Some(c.(enable := 1, mfcr2 := c.mfcr2.(allowCollect := if v == "no" then 0 else 1)))
    ensures AfterLine(c, "mfcr2_double_answer", v)
         == Some(c.(enable := 1, mfcr2 := c.mfcr2.(doubleAnswer := if v == "yes" then 1 else 0)))
  {
    hide AfterLine, KeyOf, SetKey, PrintInt, Token, Copy;
    WordIsToken(v);
    KeysOfMfcr2();
    Mfcr2Sets(c, v);
    LineSets(c, "mfcr2_get_ani_first", v, GetAniFirst);
    LineSets(c, "mfcr2_allow_collect_calls", v, AllowCollect);
    LineSets(c, "mfcr2_double_answer", v, DoubleAnswer);
  }

  lemma Mfcr2Sets(c: Span, v: string)
    ensures SetKey(c, GetAniFirst, v)
         == Some(c.(enable := 1, mfcr2 := c.mfcr2.(getAniFirst := if v == "yes" then 1 else 0)))
    ensures SetKey(c, AllowCollect, v)
         == Some(c.(enable := 1, mfcr2 := c.mfcr2.(allowCollect := if v == "no" then 0 else 1)))
    ensures SetKey(c, DoubleAnswer, v)
         == Some(c.(enable := 1, mfcr2 := c.mfcr2.(doubleAnswer := if v == "yes" then 1 else 0)))
  {
    hide Atoi, Copy, ParseBitmap;
  }

  lemma EchoLines(c: Span, v: string)
    requires v != "" && ' ' !in v && '\t' !in v && '\n' !in v && ';' !in v && '#' !in v
    ensures AfterLine(c, "echocancel", v) == Some(c.(enable := 1, echocancel := if v == "yes" then 1 else 0))
  {
    hide AfterLine, KeyOf, SetKey, PrintInt, Token, Copy;
    WordIsToken(v);
    KeysOfChannel();
    EchoSets(c, v);
    LineSets(c, "echocancel", v, Echocancel);
  }

  lemma EchoSets(c: Span, v: string)
    ensures SetKey(c, Echocancel, v) == Some(c.(enable := 1, echocancel := if v == "yes" then 1 else 0))
  {
    hide Atoi, Copy, ParseBitmap;
  }

  lemma MaxLines(c: Span, n: int)
    ensures AfterLine(c, "mfcr2_max_ani", PrintInt(n)) == Some(c.(enable := 1, mfcr2 := c.mfcr2.(maxAni := n)))
    ensures AfterLine(c, "mfcr2_max_dnis", PrintInt(n)) == Some(c.(enable := 1, mfcr2 := c.mfcr2.(maxDnis := n)))
  {
    hide AfterLine, KeyOf, SetKey, PrintInt, Token, Copy;
    KeysOfMfcr2();
    PrintedIsToken(n, DELIMS);
    MaxSets(c, n);
    LineSets(c, "mfcr2_max_ani", PrintInt(n), MaxAni);
    LineSets(c, "mfcr2_max_dnis", PrintInt(n), MaxDnis);
  }

  lemma MaxSets(c: Span, n: int)
    ensures SetKey(c, MaxAni, PrintInt(n)) == Some(c.(enable := 1, mfcr2 := c.mfcr2.(maxAni := n)))
    ensures SetKey(c, MaxDnis, PrintInt(n)) == Some(c.(enable := 1, mfcr2 := c.mfcr2.(maxDnis := n)))
  {
    hide PrintInt, Atoi, ParseBitmap;
    AtoiPrinted(n);
  }
}
