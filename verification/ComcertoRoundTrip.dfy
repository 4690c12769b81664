/** Saving comcerto.conf and parsing it, and the same for the sip.conf that is rewritten with it. */
module ComcertoRoundTrip {
  import opened Text
  import opened Strings
  import opened Codecs
  import Sip
  import SipFiles
  import S = SipRoundTrip
  import T = SipTwice
  import opened Comcerto

  // ----- Which line sets what ------------------------------------------------------------------------------

  lemma KeyG723Rate()
    ensures KeyOf("codec_g723_1") == G723Rate && KeyOf("pass_through") == PassThrough
    ensures KeyOf("ais_enable") == Ais && KeyOf("vad_enable") == Vad
    ensures KeyOf("vad_level") == VadLevel && KeyOf("cng_enable") == Cng
  {
  }

  lemma KeyEchocan()
    ensures KeyOf("echocancel_enable") == Echocan && KeyOf("txgain") == Txgain
    ensures KeyOf("rxgain") == Rxgain && KeyOf("ectail") == Ectail
  {
  }

  lemma KeyE1()
    ensures KeyOf("e1_enable") == E1 && KeyOf("e1_loopback_enable") == E1Loopback
    ensures KeyOf("jbenable") == JbEnable
  {
  }

  lemma KeyJbMaxsize()
    ensures KeyOf("jbmaxsize") == JbMaxsize && KeyOf("jbimpl") == JbImpl
  {
  }

  lemma KeyJbMindelay()
    ensures KeyOf("jbmindelay") == JbMindelay && KeyOf("jbtypdelay") == JbTypdelay
  {
  }

  lemma KeyJbMaxdelay()
    ensures KeyOf("jbmaxdelay") == JbMaxdelay && KeyOf("jbdelet_thrld") == JbDeletThrld
  {
  }

  lemma KeyToneAmp()
    ensures KeyOf("mfcr2_tone_amp") == ToneAmp && KeyOf("debug") == Debug
  {
  }

  lemma KeyIntvlG711A()
    ensures KeyOf("codec_intvl_g711_a") == IntvlG711A
  {
  }

  lemma KeyIntvlG711U()
    ensures KeyOf("codec_intvl_g711_u") == IntvlG711U
  {
  }

  lemma KeyIntvlG723()
    ensures KeyOf("codec_intvl_g723_1") == IntvlG723
  {
  }

  lemma KeyIntvlG726x16()
    ensures KeyOf("codec_intvl_g726_16") == IntvlG726x16
  {
  }

  lemma KeyIntvlG726x24()
    ensures KeyOf("codec_intvl_g726_24") == IntvlG726x24
  {
  }

  lemma KeyIntvlG726x32()
    ensures KeyOf("codec_intvl_g726_32") == IntvlG726x32
  {
  }

  lemma KeyIntvlG726x40()
    ensures KeyOf("codec_intvl_g726_40") == IntvlG726x40
  {
  }

  lemma KeyIntvlG729()
    ensures KeyOf("codec_intvl_g729") == IntvlG729
  {
  }

  lemma KeyIntvlGsm()
    ensures KeyOf("codec_intvl_gsm") == IntvlGsm
  {
  }

  // ----- What each part of the file does --------------------------------------------------------------------

  lemma DoNum(c: Config, key: string, n: int)
    ensures ApplyRec(Set, Sip.DELIMS, c, Num(key, n)) == SetKey(c, KeyOf(key), S.Seen(Sip.PrintShort(n)))
    ensures Atoi(S.Seen(Sip.PrintShort(n))) == Short(n)
  {
    hide KeyOf, SetKey, Reread, Sip.PrintShort, Atoi, Short;
    S.SeenShort(n);
  }

  lemma DoSwitch(c: Config, key: string, n: int)
    ensures ApplyRec(Set, Sip.DELIMS, c, Switch(key, n)) == SetKey(c, KeyOf(key), Sip.YesNo(n))
    ensures Sip.Flag(Sip.YesNo(n), "yes") == Bit(n)
  {
    hide KeyOf, SetKey, Reread, Sip.YesNo, Sip.Flag;
    S.SeenYesNo(n);
  }

  lemma DoInt(c: Config, key: string, n: int)
    ensures ApplyRec(Set, Sip.DELIMS, c, Setting(key, PrintInt(n))) == SetKey(c, KeyOf(key), PrintInt(n))
    ensures Atoi(PrintInt(n)) == n
  {
    hide KeyOf, SetKey, Reread, PrintInt, Atoi;
    RereadInt(n, Sip.DELIMS);
  }

  lemma DoWord(c: Config, key: string, v: string)
    requires Token(v, Sip.DELIMS)
    ensures ApplyRec(Set, Sip.DELIMS, c, Setting(key, v)) == SetKey(c, KeyOf(key), v)
  {
    hide KeyOf, SetKey, Reread;
    RereadToken(v, Sip.DELIMS);
  }

  lemma PlainDoesNothing(c: Config)
    ensures ApplyRec(Set, Sip.DELIMS, c, Plain("[general]")) == c
  {
  }

  lemma DoImpl(c: Config, n: int)
    ensures ApplyRec(Set, Sip.DELIMS, c, Setting("jbimpl", if n != 0 then "adaptive" else "fixed"))
         == c.(jb := c.jb.(impl := Bit(n)))
  {
    hide KeyOf, Reread, Sip.Flag;
    KeyJbMaxsize();
    S.SeenImpl(n);
  }

  lemma DoPart1(c: Config, s: Config)
    ensures ApplyRecs(Set, Sip.DELIMS, c, Part1(s))
         == c.(debug := s.debug, ais := Bit(s.ais), vad := Bit(s.vad))
  {
    hide KeyOf, Reread, Atoi, Short, PrintInt, Sip.PrintShort, Sip.YesNo, Sip.Flag, ApplyRec, Num, Switch;
    KeyToneAmp();
    KeyG723Rate();
    var g := Part1(s);
    ApplyFour(Set, Sip.DELIMS, c, g[0], g[1], g[2], g[3]);
    assert ApplyRec(Set, Sip.DELIMS, c, g[0]) == c by { PlainDoesNothing(c); }
    DoInt(c, "debug", s.debug);
    var c2 := c.(debug := s.debug);
    DoSwitch(c2, "ais_enable", s.ais);
    var c3 := c2.(ais := Bit(s.ais));
    DoSwitch(c3, "vad_enable", s.vad);
  }

  lemma DoPart2(c: Config, s: Config)
    ensures ApplyRecs(Set, Sip.DELIMS, c, Part2(s))
         == c.(vadLevel := Short(s.vadLevel), cng := Bit(s.cng), echocan := Bit(s.echocan), ectail := Short(s.ectail))
  {
    hide KeyOf, Reread, Atoi, Short, PrintInt, Sip.PrintShort, Sip.YesNo, Sip.Flag, ApplyRec, Num, Switch;
    KeyG723Rate();
    KeyEchocan();
    var g := Part2(s);
    ApplyFour(Set, Sip.DELIMS, c, g[0], g[1], g[2], g[3]);
    DoNum(c, "vad_level", s.vadLevel);
    var c1 := c.(vadLevel := Short(s.vadLevel));
    DoSwitch(c1, "cng_enable", s.cng);
    var c2 := c1.(cng := Bit(s.cng));
    DoSwitch(c2, "echocancel_enable", s.echocan);
    var c3 := c2.(echocan := Bit(s.echocan));
    DoNum(c3, "ectail", s.ectail);
  }

  lemma FourE1(c: Config, s: Config, k1: string, k2: string, k3: string, k4: string)
    requires KeyOf(k1) == E1 && KeyOf(k2) == E1Loopback && KeyOf(k3) == ToneAmp && KeyOf(k4) == JbEnable
    ensures ApplyRecs(Set, Sip.DELIMS, c,
                      [Switch(k1, s.e1), Switch(k2, s.e1Loopback), Setting(k3, PrintInt(s.toneAmp)), Switch(k4, 1)])
         == c.(e1 := Bit(s.e1), e1Loopback := Bit(s.e1Loopback), toneAmp := s.toneAmp, jb := c.jb.(enable := 1))
  {
    hide KeyOf, Reread, Atoi, PrintInt, Sip.YesNo, Sip.Flag, ApplyRec, Switch;
    ApplyFour(Set, Sip.DELIMS, c, Switch(k1, s.e1), Switch(k2, s.e1Loopback), Setting(k3, PrintInt(s.toneAmp)),
              Switch(k4, 1));
    DoSwitch(c, k1, s.e1);
    var c1 := c.(e1 := Bit(s.e1));
    DoSwitch(c1, k2, s.e1Loopback);
    var c2 := c1.(e1Loopback := Bit(s.e1Loopback));
    DoInt(c2, k3, s.toneAmp);
    var c3 := c2.(toneAmp := s.toneAmp);
    DoSwitch(c3, k4, 1);
  }

  lemma DoPart3(c: Config, s: Config)
    ensures ApplyRecs(Set, Sip.DELIMS, c, Part3(s))
         == c.(e1 := Bit(s.e1), e1Loopback := Bit(s.e1Loopback), toneAmp := s.toneAmp, jb := c.jb.(enable := 1))
  {
    hide KeyOf, ApplyRecs, Switch, PrintInt, SetKey, Bit;
    KeyE1();
    KeyToneAmp();
    FourE1(c, s, "e1_enable", "e1_loopback_enable", "mfcr2_tone_amp", "jbenable");
  }

  lemma DoPart4(c: Config, s: Config)
    ensures ApplyRecs(Set, Sip.DELIMS, c, Part4(s))
         == c.(jb := c.jb.(maxsize := Short(s.jb.maxsize), impl := Bit(s.jb.impl), mindelay := Short(s.jb.mindelay),
                       typdelay := Short(s.jb.typdelay)))
  {
    hide KeyOf, Reread, Atoi, Short, PrintInt, Sip.PrintShort, Sip.YesNo, Sip.Flag, ApplyRec, Num, Switch;
    KeyJbMaxsize();
    KeyJbMindelay();
    var g := Part4(s);
    ApplyFour(Set, Sip.DELIMS, c, g[0], g[1], g[2], g[3]);
    DoNum(c, "jbmaxsize", s.jb.maxsize);
    var c1 := c.(jb := c.jb.(maxsize := Short(s.jb.maxsize)));
    DoImpl(c1, s.jb.impl);
    var c2 := c1.(jb := c1.jb.(impl := Bit(s.jb.impl)));
    DoNum(c2, "jbmindelay", s.jb.mindelay);
    var c3 := c2.(jb := c2.jb.(mindelay := Short(s.jb.mindelay)));
    DoNum(c3, "jbtypdelay", s.jb.typdelay);
  }

  lemma FourGains(c: Config, s: Config, k1: string, k2: string, k3: string, k4: string)
    requires KeyOf(k1) == JbMaxdelay && KeyOf(k2) == JbDeletThrld && KeyOf(k3) == Txgain && KeyOf(k4) == Rxgain
    ensures ApplyRecs(Set, Sip.DELIMS, c,
                      [Num(k1, s.jb.maxdelay), Num(k2, s.jb.deletThrld), Num(k3, s.txgain), Num(k4, s.rxgain)])
         == c.(jb := c.jb.(maxdelay := Short(s.jb.maxdelay), deletThrld := Short(s.jb.deletThrld)),
              txgain := Short(s.txgain), rxgain := Short(s.rxgain))
  {
    hide KeyOf, Reread, Atoi, Short, Sip.PrintShort, ApplyRec, Num;
    ApplyFour(Set, Sip.DELIMS, c, Num(k1, s.jb.maxdelay), Num(k2, s.jb.deletThrld), Num(k3, s.txgain),
              Num(k4, s.rxgain));
    DoNum(c, k1, s.jb.maxdelay);
    var c1 := c.(jb := c.jb.(maxdelay := Short(s.jb.maxdelay)));
    DoNum(c1, k2, s.jb.deletThrld);
    var c2 := c1.(jb := c1.jb.(deletThrld := Short(s.jb.deletThrld)));
    DoNum(c2, k3, s.txgain);
    var c3 := c2.(txgain := Short(s.txgain));
    DoNum(c3, k4, s.rxgain);
  }

  lemma DoPart5(c: Config, s: Config)
    ensures ApplyRecs(Set, Sip.DELIMS, c, Part5(s))
         == c.(jb := c.jb.(maxdelay := Short(s.jb.maxdelay), deletThrld := Short(s.jb.deletThrld)),
              txgain := Short(s.txgain), rxgain := Short(s.rxgain))
  {
    hide KeyOf, ApplyRecs, Num, SetKey, Short;
    KeyJbMaxdelay();
    KeyEchocan();
    FourGains(c, s, "jbmaxdelay", "jbdelet_thrld", "txgain", "rxgain");
  }

  lemma TwoWords(c: Config, s: Config, k1: string, rate: string, k2: string, name: string)
    requires KeyOf(k1) == G723Rate && KeyOf(k2) == PassThrough && c.passThrough == 0
    requires Token(rate, Sip.DELIMS) && Sip.Flag(rate, "6.3kbps") == Bit(s.g723High)
    requires Token(name, Sip.DELIMS) && (s.passThrough != 0 ==> PassCode(name) == s.passThrough)
    ensures ApplyRecs(Set, Sip.DELIMS, c, [Setting(k1, rate)] + If(s.passThrough != 0, Setting(k2, name)))
         == c.(g723High := Bit(s.g723High), passThrough := s.passThrough)
  {
    hide KeyOf, Reread, ApplyRec, ApplyRecs, Token, Sip.Flag, PassCode, Set, Bit;
    ApplyAppend(Set, Sip.DELIMS, c, [Setting(k1, rate)], If(s.passThrough != 0, Setting(k2, name)));
    ApplyIf(Set, Sip.DELIMS, c, true, Setting(k1, rate));
    DoWord(c, k1, rate);
    var c1 := c.(g723High := Bit(s.g723High));
    ApplyIf(Set, Sip.DELIMS, c1, s.passThrough != 0, Setting(k2, name));
    DoWord(c1, k2, name);
  }

  lemma DoPart6(c: Config, s: Config)
    requires c.passThrough == 0 && Sane(s)
    ensures ApplyRecs(Set, Sip.DELIMS, c, Part6(s)) == c.(g723High := Bit(s.g723High), passThrough := s.passThrough)
  {
    hide KeyOf, ApplyRecs, Token, Sip.Flag, PassCode, Bit, Sane, SetKey, If;
    KeyG723Rate();
    Words(s);
    TwoWords(c, s, "codec_g723_1", if s.g723High != 0 then "6.3kbps" else "5.3kbps",
             "pass_through", if s.passThrough == G711_A then "alaw" else "ulaw");
  }

  lemma Words(s: Config)
    requires Sane(s)
    ensures var rate := if s.g723High != 0 then "6.3kbps" else "5.3kbps";
      Token(rate, Sip.DELIMS) && Sip.Flag(rate, "6.3kbps") == Bit(s.g723High)
    ensures var name := if s.passThrough == G711_A then "alaw" else "ulaw";
      Token(name, Sip.DELIMS) && (s.passThrough != 0 ==> PassCode(name) == s.passThrough)
  {
    assert "5.3kbps"[0] == '5' && "ulaw"[0] == 'u';
  }

  lemma ThreeG711(c: Config, i: Intervals9, k1: string, k2: string, k3: string)
    requires KeyOf(k1) == IntvlG711A && KeyOf(k2) == IntvlG711U && KeyOf(k3) == IntvlG723
    ensures ApplyRecs(Set, Sip.DELIMS, c, [Num(k1, i.g711a), Num(k2, i.g711u), Num(k3, i.g723)])
         == c.(intvl := c.intvl.(g711a := Short(i.g711a), g711u := Short(i.g711u), g723 := Short(i.g723)))
  {
    hide KeyOf, Reread, Atoi, Short, Sip.PrintShort, ApplyRec, Num;
    ApplyThree(Set, Sip.DELIMS, c, Num(k1, i.g711a), Num(k2, i.g711u), Num(k3, i.g723));
    DoNum(c, k1, i.g711a);
    var c1 := c.(intvl := c.intvl.(g711a := Short(i.g711a)));
    DoNum(c1, k2, i.g711u);
    var c2 := c1.(intvl := c1.intvl.(g711u := Short(i.g711u)));
    DoNum(c2, k3, i.g723);
  }

  lemma DoPart7(c: Config, i: Intervals9)
    ensures ApplyRecs(Set, Sip.DELIMS, c, Part7(i))
         == c.(intvl := c.intvl.(g711a := Short(i.g711a), g711u := Short(i.g711u), g723 := Short(i.g723)))
  {
    hide KeyOf, Short, ApplyRecs, Num, SetKey;
    KeyIntvlG711A();
    KeyIntvlG711U();
    KeyIntvlG723();
    ThreeG711(c, i, "codec_intvl_g711_a", "codec_intvl_g711_u", "codec_intvl_g723_1");
  }

  lemma ThreeG726(c: Config, i: Intervals9, k1: string, k2: string, k3: string)
    requires KeyOf(k1) == IntvlG726x16 && KeyOf(k2) == IntvlG726x24 && KeyOf(k3) == IntvlG726x32
    ensures ApplyRecs(Set, Sip.DELIMS, c, [Num(k1, i.g726x16), Num(k2, i.g726x24), Num(k3, i.g726x32)])
         == c.(intvl := c.intvl.(g726x16 := Short(i.g726x16), g726x24 := Short(i.g726x24), g726x32 := Short(i.g726x32)))
  {
    hide KeyOf, Reread, Atoi, Short, Sip.PrintShort, ApplyRec, Num;
    ApplyThree(Set, Sip.DELIMS, c, Num(k1, i.g726x16), Num(k2, i.g726x24), Num(k3, i.g726x32));
    DoNum(c, k1, i.g726x16);
    var c1 := c.(intvl := c.intvl.(g726x16 := Short(i.g726x16)));
    DoNum(c1, k2, i.g726x24);
    var c2 := c1.(intvl := c1.intvl.(g726x24 := Short(i.g726x24)));
    DoNum(c2, k3, i.g726x32);
  }

  lemma DoPart8(c: Config, i: Intervals9)
    ensures ApplyRecs(Set, Sip.DELIMS, c, Part8(i))
         == c.(intvl := c.intvl.(g726x16 := Short(i.g726x16), g726x24 := Short(i.g726x24), g726x32 := Short(i.g726x32)))
  {
    hide KeyOf, Short, ApplyRecs, Num, SetKey;
    KeyIntvlG726x16();
    KeyIntvlG726x24();
    KeyIntvlG726x32();
    ThreeG726(c, i, "codec_intvl_g726_16", "codec_intvl_g726_24", "codec_intvl_g726_32");
  }

  lemma ThreeRest(c: Config, i: Intervals9, k1: string, k2: string, k3: string)
    requires KeyOf(k1) == IntvlG726x40 && KeyOf(k2) == IntvlG729 && KeyOf(k3) == IntvlGsm
    ensures ApplyRecs(Set, Sip.DELIMS, c, [Num(k1, i.g726x40), Num(k2, i.g729), Num(k3, i.gsm)])
         == c.(intvl := c.intvl.(g726x40 := Short(i.g726x40), g729 := Short(i.g729), gsm := Short(i.gsm)))
  {
    hide KeyOf, Reread, Atoi, Short, Sip.PrintShort, ApplyRec, Num;
    ApplyThree(Set, Sip.DELIMS, c, Num(k1, i.g726x40), Num(k2, i.g729), Num(k3, i.gsm));
    DoNum(c, k1, i.g726x40);
    var c1 := c.(intvl := c.intvl.(g726x40 := Short(i.g726x40)));
    DoNum(c1, k2, i.g729);
    var c2 := c1.(intvl := c1.intvl.(g729 := Short(i.g729)));
    DoNum(c2, k3, i.gsm);
  }

  lemma DoPart9(c: Config, i: Intervals9)
    ensures ApplyRecs(Set, Sip.DELIMS, c, Part9(i))
         == c.(intvl := c.intvl.(g726x40 := Short(i.g726x40), g729 := Short(i.g729), gsm := Short(i.gsm)))
  {
    hide KeyOf, Short, ApplyRecs, Num, SetKey;
    KeyIntvlG726x40();
    KeyIntvlG729();
    KeyIntvlGsm();
    ThreeRest(c, i, "codec_intvl_g726_40", "codec_intvl_g729", "codec_intvl_gsm");
  }

  lemma DoAll(s: Config)
    requires Sane(s)
    ensures ApplyRecs(Set, Sip.DELIMS, Zero, Records(s)) == NormalForm(s)
  {
    hide ApplyRecs, Part1, Part2, Part3, Part4, Part5, Part6, Part7, Part8, Part9, Short, Bit;
    var i := s.intvl;
    DoPart1(Zero, s);
    var c1 := ApplyRecs(Set, Sip.DELIMS, Zero, Part1(s));
    DoPart2(c1, s);
    var c2 := ApplyRecs(Set, Sip.DELIMS, c1, Part2(s));
    DoPart3(c2, s);
    var c3 := ApplyRecs(Set, Sip.DELIMS, c2, Part3(s));
    DoPart4(c3, s);
    var c4 := ApplyRecs(Set, Sip.DELIMS, c3, Part4(s));
    DoPart5(c4, s);
    var c5 := ApplyRecs(Set, Sip.DELIMS, c4, Part5(s));
    DoPart6(c5, s);
    var c6 := ApplyRecs(Set, Sip.DELIMS, c5, Part6(s));
    DoPart7(c6, i);
    var c7 := ApplyRecs(Set, Sip.DELIMS, c6, Part7(i));
    DoPart8(c7, i);
    var c8 := ApplyRecs(Set, Sip.DELIMS, c7, Part8(i));
    DoPart9(c8, i);
    ApplyAppend(Set, Sip.DELIMS, c7, Part8(i), Part9(i));
    ApplyAppend(Set, Sip.DELIMS, c6, Part7(i), Part8(i) + Part9(i));
    var t7 := Part7(i) + (Part8(i) + Part9(i));
    ApplyAppend(Set, Sip.DELIMS, c5, Part6(s), t7);
    ApplyAppend(Set, Sip.DELIMS, c4, Part5(s), Part6(s) + t7);
    var t5 := Part5(s) + (Part6(s) + t7);
    ApplyAppend(Set, Sip.DELIMS, c3, Part4(s), t5);
    ApplyAppend(Set, Sip.DELIMS, c2, Part3(s), Part4(s) + t5);
    var t3 := Part3(s) + (Part4(s) + t5);
    ApplyAppend(Set, Sip.DELIMS, c1, Part2(s), t3);
    ApplyAppend(Set, Sip.DELIMS, Zero, Part1(s), Part2(s) + t3);
  }

  // ----- The file as text --------------------------------------------------------------------------------------

  lemma NumOk(k: string, n: int)
    requires KeyFits(k)
    ensures RecOk(Num(k, n), LINE)
  {
    hide RecOk, Sip.PrintShort, KeyFits;
    S.SeenShort(n);
    WordOk(k, Sip.PrintShort(n), LINE);
  }

  lemma SwitchOk(k: string, n: int)
    requires KeyFits(k)
    ensures RecOk(Switch(k, n), LINE)
  {
    hide RecOk, Sip.YesNo, KeyFits;
    S.YesNoLength(n);
    WordOk(k, Sip.YesNo(n), LINE);
  }

  lemma Part1Ok(s: Config)
    requires Sane(s)
    ensures AllOk(Part1(s), LINE)
  {
    hide RecOk, Sip.PrintShort, Sip.YesNo, PrintInt, Num, Switch;
    GeneralOk();
    IntOk("debug", s.debug, LINE);
    SwitchOk("ais_enable", s.ais);
    SwitchOk("vad_enable", s.vad);
  }

  lemma Part2Ok(s: Config)
    ensures AllOk(Part2(s), LINE)
  {
    hide RecOk, Sip.PrintShort, Sip.YesNo, PrintInt, Num, Switch;
    NumOk("vad_level", s.vadLevel);
    SwitchOk("cng_enable", s.cng);
    SwitchOk("echocancel_enable", s.echocan);
    NumOk("ectail", s.ectail);
  }

  lemma Part3Ok(s: Config)
    requires Sane(s)
    ensures AllOk(Part3(s), LINE)
  {
    hide RecOk, Sip.PrintShort, Sip.YesNo, PrintInt, Num, Switch;
    SwitchOk("e1_enable", s.e1);
    SwitchOk("e1_loopback_enable", s.e1Loopback);
    IntOk("mfcr2_tone_amp", s.toneAmp, LINE);
    SwitchOk("jbenable", 1);
  }

  lemma Part4Ok(s: Config)
    ensures AllOk(Part4(s), LINE)
  {
    hide RecOk, Sip.PrintShort, Sip.YesNo, PrintInt, Num, Switch;
    NumOk("jbmaxsize", s.jb.maxsize);
    WordOk("jbimpl", if s.jb.impl != 0 then "adaptive" else "fixed", LINE);
    NumOk("jbmindelay", s.jb.mindelay);
    NumOk("jbtypdelay", s.jb.typdelay);
  }

  lemma Part5Ok(s: Config)
    ensures AllOk(Part5(s), LINE)
  {
    hide RecOk, Sip.PrintShort, Sip.YesNo, PrintInt, Num, Switch;
    NumOk("jbmaxdelay", s.jb.maxdelay);
    NumOk("jbdelet_thrld", s.jb.deletThrld);
    NumOk("txgain", s.txgain);
    NumOk("rxgain", s.rxgain);
  }

  lemma Part6Ok(s: Config)
    ensures AllOk(Part6(s), LINE)
  {
    hide RecOk, Sip.PrintShort, Sip.YesNo, PrintInt, Num, Switch;
    WordOk("codec_g723_1", if s.g723High != 0 then "6.3kbps" else "5.3kbps", LINE);
    WordOk("pass_through", if s.passThrough == G711_A then "alaw" else "ulaw", LINE);
  }

  lemma Part7Ok(i: Intervals9)
    ensures AllOk(Part7(i), LINE)
  {
    hide RecOk, Sip.PrintShort, Sip.YesNo, PrintInt, Num, Switch;
    NumOk("codec_intvl_g711_a", i.g711a);
    NumOk("codec_intvl_g711_u", i.g711u);
    NumOk("codec_intvl_g723_1", i.g723);
  }

  lemma Part8Ok(i: Intervals9)
    ensures AllOk(Part8(i), LINE)
  {
    hide RecOk, Sip.PrintShort, Sip.YesNo, PrintInt, Num, Switch;
    NumOk("codec_intvl_g726_16", i.g726x16);
    NumOk("codec_intvl_g726_24", i.g726x24);
    NumOk("codec_intvl_g726_32", i.g726x32);
  }

  lemma Part9Ok(i: Intervals9)
    ensures AllOk(Part9(i), LINE)
  {
    hide RecOk, Sip.PrintShort, Sip.YesNo, PrintInt, Num, Switch;
    NumOk("codec_intvl_g726_40", i.g726x40);
    NumOk("codec_intvl_g729", i.g729);
    NumOk("codec_intvl_gsm", i.gsm);
  }

  lemma GeneralOk()
    ensures RecOk(Plain("[general]"), LINE)
  {
  }

  lemma RecordsOk(s: Config)
    requires Sane(s)
    ensures AllOk(Records(s), LINE)
  {
    hide AllOk, Part1, Part2, Part3, Part4, Part5, Part6, Part7, Part8, Part9;
    var i := s.intvl;
    Part1Ok(s);
    Part2Ok(s);
    Part3Ok(s);
    Part4Ok(s);
    Part5Ok(s);
    Part6Ok(s);
    Part7Ok(i);
    Part8Ok(i);
    Part9Ok(i);
    AllOkAppend(Part8(i), Part9(i), LINE);
    AllOkAppend(Part7(i), Part8(i) + Part9(i), LINE);
    var t7 := Part7(i) + (Part8(i) + Part9(i));
    AllOkAppend(Part6(s), t7, LINE);
    AllOkAppend(Part5(s), Part6(s) + t7, LINE);
    var t5 := Part5(s) + (Part6(s) + t7);
    AllOkAppend(Part4(s), t5, LINE);
    AllOkAppend(Part3(s), Part4(s) + t5, LINE);
    var t3 := Part3(s) + (Part4(s) + t5);
    AllOkAppend(Part2(s), t3, LINE);
    AllOkAppend(Part1(s), Part2(s) + t3, LINE);
  }

  /** Parsing the saved comcerto.conf yields the normal form. */
  lemma SaveThenParse(s: Config)
    requires Sane(s)
    ensures Parse(Save(s)) == NormalForm(s)
  {
    hide Records, NormalForm, ApplyRecs, RenderAll, RecOk, ParseText;
    RecordsOk(s);
    ReadRecords(Set, Sip.DELIMS, LINE, Zero, Records(s));
    DoAll(s);
  }

  // ----- Both files ------------------------------------------------------------------------------------------------

  function NewIntervals(c: Config): int -> int
  {
    code => Interval(NormalForm(c), code)
  }

  lemma IntervalsFit(c: Config)
    ensures S.Intervals(NewIntervals(c))
  {
    hide Short;
  }

  /** Looking up a codec in the saved file finds the interval that was saved for it, as a short. */
  lemma IntervalsSaved(c: Config)
    requires Sane(c)
    ensures var now := Parse(Save(c));
      && Interval(now, G711_A) == Short(c.intvl.g711a) && Interval(now, G711_U) == Short(c.intvl.g711u)
      && Interval(now, G723_1) == Short(c.intvl.g723) && Interval(now, G726_16) == Short(c.intvl.g726x16)
      && Interval(now, G726_24) == Short(c.intvl.g726x24) && Interval(now, G726_32) == Short(c.intvl.g726x32)
      && Interval(now, G726_40) == Short(c.intvl.g726x40) && Interval(now, G729) == Short(c.intvl.g729)
      && Interval(now, GSM) == Short(c.intvl.gsm)
      && forall code | !IsCodec(code) :: Interval(now, code) == 20
  {
    hide Save, Parse, Short, Sane;
    SaveThenParse(c);
  }

  /**
   * After a successful save both files agree on the jitter buffer, every allow line of sip.conf carries
   * the interval just saved, and the rest of sip.conf is the normal form of what was there.
   */
  lemma BothFilesAgree(c: Config, sipConf: string)
    requires Sane(c) && Sip.AllowsFit(sipConf) && SipFiles.Storable(Sip.Parse(sipConf))
    ensures var com := Parse(Save(c));
      var sip := Sip.Parse(NewSip(c, sipConf));
      && sip.jb.enable == com.jb.enable == 1
      && sip.jb.maxsize == com.jb.maxsize == Short(c.jb.maxsize)
      && sip.jb.impl == com.jb.impl == Bit(c.jb.impl)
      && sip == S.NormalForm(Merged(c, sipConf))
      && Sip.CodecsOk(Merged(c, sipConf))
      && NewSip(c, sipConf) == Sip.Save(Merged(c, sipConf), NewIntervals(c))
  {
    hide *;
    SipFiles.ParsedPrintable(sipConf);
    PrintableAgree(c, sipConf);
  }

  lemma PrintableAgree(c: Config, sipConf: string)
    requires Sane(c) && Sip.AllowsFit(sipConf) && S.Printable(Sip.Parse(sipConf))
    ensures var com := Parse(Save(c));
      var sip := Sip.Parse(NewSip(c, sipConf));
      && sip.jb.enable == com.jb.enable == 1
      && sip.jb.maxsize == com.jb.maxsize == Short(c.jb.maxsize)
      && sip.jb.impl == com.jb.impl == Bit(c.jb.impl)
      && sip == S.NormalForm(Merged(c, sipConf))
      && Sip.CodecsOk(Merged(c, sipConf))
      && NewSip(c, sipConf) == Sip.Save(Merged(c, sipConf), NewIntervals(c))
  {
    hide Save, Parse, Sip.Parse, Sip.Save, S.Printable, Interval, Sip.AllowsFit;
    SaveThenParse(c);
    IntervalsFit(c);
    MergedPrintable(Sip.Parse(sipConf), c.jb);
    SameIntervals(c, sipConf);
    S.SaveThenParse(Merged(c, sipConf), NewIntervals(c));
  }

  lemma MergedPrintable(sip: Sip.Config, jb: Sip.Jb)
    requires S.Printable(sip)
    ensures S.Printable(sip.(jb := jb)) && Sip.CodecsOk(sip.(jb := jb))
  {
    hide IsCodec, Line;
  }

  /** Printing looks at the intervals of the chosen codecs only through their values. */
  lemma SameIntervals(c: Config, sipConf: string)
    requires Sane(c) && Sip.AllowsFit(sipConf)
    ensures Sip.CodecsOk(Merged(c, sipConf))
    ensures NewSip(c, sipConf) == Sip.Save(Merged(c, sipConf), NewIntervals(c))
  {
    hide Save, Parse, Sip.Parse, Interval, NormalForm, Sip.FixedRecs, IsCodec, Sane, SipFiles.Fields, Sip.AllowsFit;
    SaveThenParse(c);
    SipFiles.ParsedFields(sipConf);
    SameCodecRecs(Sip.Chosen(Sip.Stripped(Merged(c, sipConf)).account.allow),
      code => Interval(Parse(Save(c)), code), NewIntervals(c));
  }

  lemma {:induction false} SameCodecRecs(codes: seq<int>, f: int -> int, g: int -> int)
    requires forall i | 0 <= i < |codes| :: IsCodec(codes[i]) && f(codes[i]) == g(codes[i])
    ensures Sip.CodecRecs(codes, f) == Sip.CodecRecs(codes, g)
  {
    hide IsCodec, CodecName, PrintInt;
    if codes != [] {
      SameCodecRecs(codes[1..], f, g);
    }
  }

  /**
   * If sip.conf was written by libamg_sip_save_config, all its other settings parse as they did, if and
   * only if a second round through that file would have changed nothing either.
   */
  lemma OtherSettingsStay(c: Config, conf: Sip.Config, intvl: int -> int)
    requires Sane(c) && S.Printable(conf) && T.Refits(conf) && S.Intervals(intvl)
    ensures var before := Sip.Save(conf, intvl);
      && Sip.AllowsFit(before) && Sip.CodecsOk(Sip.Parse(before))
      && (Sip.Parse(NewSip(c, before))
          == Sip.Parse(before).(jb := Sip.Jb(1, Short(c.jb.maxsize), Bit(c.jb.impl), 0, 0, 0, 0))
          <==> T.FirmConfig(conf))
  {
    hide Sip.Save, Sip.Parse, S.NormalForm, S.Printable, T.FirmConfig, T.Refits, Short;
    PrintableCodecs(conf);
    var before := Sip.Save(conf, intvl);
    S.SaveThenParse(conf, intvl);
    T.NormalFormPrintable(conf);
    T.NormalFormTwice(conf);
    PrintableCodecs(S.NormalForm(conf));
    PrintableAgree(c, before);
    OnlyJb(S.NormalForm(conf), c.jb);
    NormalJbTwice(conf);
    SameElse(S.NormalForm(S.NormalForm(conf)), S.NormalForm(conf),
             Sip.Jb(1, Short(c.jb.maxsize), Bit(c.jb.impl), 0, 0, 0, 0));
  }

  lemma SameElse(a: Sip.Config, b: Sip.Config, jb: Sip.Jb)
    requires a.jb == b.jb
    ensures a.(jb := jb) == b.(jb := jb) <==> a == b
  {
  }

  lemma NormalJbTwice(conf: Sip.Config)
    ensures S.NormalForm(S.NormalForm(conf)).jb == S.NormalForm(conf).jb
  {
    hide S.NormalAccount, S.Seen, Copy, Short, StripLf, S.Expiry, Sip.Registers;
    T.ShortTwice(conf.jb.maxsize);
  }

  lemma PrintableCodecs(c: Sip.Config)
    requires S.Printable(c)
    ensures Sip.CodecsOk(c)
  {
  }

  /** The normal form treats the jitter buffer by itself. */
  lemma OnlyJb(c: Sip.Config, jb: Sip.Jb)
    ensures S.NormalForm(c.(jb := jb))
         == S.NormalForm(c).(jb := Sip.Jb(1, Short(jb.maxsize), if jb.impl != 0 then 1 else 0, 0, 0, 0, 0))
  {
    hide S.NormalAccount, S.Seen, Copy, Short, StripLf;
  }
}
