/** What each line of comcerto.conf sets, and what its intervals become in sip.conf. */
module ComcertoLines {
  import opened Attributes
  import opened Text
  import opened Codecs
  import opened Lookup
  import Sip
  import SipFiles
  import SipLines
  import S = SipRoundTrip
  import opened Comcerto
  import opened ComcertoRoundTrip

  /** The configuration after one more line. */
  function AfterLine(c: Config, key: string, v: string): Config
  {
    ApplyPiece(Set, Sip.DELIMS, c, key + "=" + v + "\n")
  }

  lemma LineSets(c: Config, key: string, v: string, k: Key)
    requires '=' !in key && Token(v, Sip.DELIMS) && KeyOf(key) == k
    ensures AfterLine(c, key, v) == SetKey(c, k, v)
  {
    hide KeyOf, SetKey, Crop;
    SettingRead(key, v + "\n", Sip.DELIMS);
    CropToken(v, "\n", Sip.DELIMS);
    assert key + "=" + v + "\n" == key + "=" + (v + "\n");
  }

  lemma WordIsToken(v: string)
    requires v != "" && ' ' !in v && '\t' !in v && '\n' !in v
    ensures Token(v, Sip.DELIMS)
  {
  }

  /** What stands behind a blank is not part of the value. */
  lemma RestIgnored(c: Config, key: string, v: string, blank: char, rest: string)
    requires '=' !in key && v != "" && ' ' !in v && '\t' !in v && '\n' !in v
    requires blank == ' ' || blank == '\t'
    ensures AfterLine(c, key, v + [blank] + rest) == AfterLine(c, key, v)
  {
    hide Crop, Set;
    var end := [blank] + rest + "\n";
    WordIsToken(v);
    SettingRead(key, v + end, Sip.DELIMS);
    SettingRead(key, v + "\n", Sip.DELIMS);
    CropToken(v, end, Sip.DELIMS);
    CropToken(v, "\n", Sip.DELIMS);
    assert key + "=" + (v + [blank] + rest) + "\n" == key + "=" + (v + end);
    assert key + "=" + v + "\n" == key + "=" + (v + "\n");
  }

  lemma AmpLines(c: Config, n: int)
    ensures AfterLine(c, "debug", PrintInt(n)) == c.(debug := n)
    ensures AfterLine(c, "mfcr2_tone_amp", PrintInt(n)) == c.(toneAmp := n)
  {
    hide AfterLine, KeyOf, SetKey, PrintInt, Token;
    KeyToneAmp();
    PrintedIsToken(n, Sip.DELIMS);
    AmpSets(c, n);
    LineSets(c, "debug", PrintInt(n), Debug);
    LineSets(c, "mfcr2_tone_amp", PrintInt(n), ToneAmp);
  }

  lemma AmpSets(c: Config, n: int)
    ensures SetKey(c, Debug, PrintInt(n)) == c.(debug := n)
    ensures SetKey(c, ToneAmp, PrintInt(n)) == c.(toneAmp := n)
  {
    hide PrintInt, Atoi;
    AtoiPrinted(n);
  }

  lemma GainLines(c: Config, n: int)
    ensures AfterLine(c, "txgain", PrintInt(n)) == c.(txgain := n)
    ensures AfterLine(c, "rxgain", PrintInt(n)) == c.(rxgain := n)
    ensures AfterLine(c, "ectail", PrintInt(n)) == c.(ectail := n)
    ensures AfterLine(c, "vad_level", PrintInt(n)) == c.(vadLevel := n)
  {
    hide AfterLine, KeyOf, SetKey, PrintInt, Token;
    KeyEchocan();
    KeyG723Rate();
    PrintedIsToken(n, Sip.DELIMS);
    GainSets(c, n);
    LineSets(c, "txgain", PrintInt(n), Txgain);
    LineSets(c, "rxgain", PrintInt(n), Rxgain);
    LineSets(c, "ectail", PrintInt(n), Ectail);
    LineSets(c, "vad_level", PrintInt(n), VadLevel);
  }

  lemma GainSets(c: Config, n: int)
    ensures SetKey(c, Txgain, PrintInt(n)) == c.(txgain := n)
    ensures SetKey(c, Rxgain, PrintInt(n)) == c.(rxgain := n)
    ensures SetKey(c, Ectail, PrintInt(n)) == c.(ectail := n)
    ensures SetKey(c, VadLevel, PrintInt(n)) == c.(vadLevel := n)
  {
    hide PrintInt, Atoi;
    AtoiPrinted(n);
  }

  lemma JbSizeLines(c: Config, n: int)
    ensures AfterLine(c, "jbmaxsize", PrintInt(n)) == c.(jb := c.jb.(maxsize := n))
    ensures AfterLine(c, "jbmindelay", PrintInt(n)) == c.(jb := c.jb.(mindelay := n))
    ensures AfterLine(c, "jbtypdelay", PrintInt(n)) == c.(jb := c.jb.(typdelay := n))
  {
    hide AfterLine, KeyOf, SetKey, PrintInt, Token;
    KeyJbMaxsize();
    KeyJbMindelay();
    PrintedIsToken(n, Sip.DELIMS);
    JbSizeSets(c, n);
    LineSets(c, "jbmaxsize", PrintInt(n), JbMaxsize);
    LineSets(c, "jbmindelay", PrintInt(n), JbMindelay);
    LineSets(c, "jbtypdelay", PrintInt(n), JbTypdelay);
  }

  lemma JbSizeSets(c: Config, n: int)
    ensures SetKey(c, JbMaxsize, PrintInt(n)) == c.(jb := c.jb.(maxsize := n))
    ensures SetKey(c, JbMindelay, PrintInt(n)) == c.(jb := c.jb.(mindelay := n))
    ensures SetKey(c, JbTypdelay, PrintInt(n)) == c.(jb := c.jb.(typdelay := n))
  {
    hide PrintInt, Atoi;
    AtoiPrinted(n);
  }

  lemma JbDelayLines(c: Config, n: int)
    ensures AfterLine(c, "jbmaxdelay", PrintInt(n)) == c.(jb := c.jb.(maxdelay := n))
    ensures AfterLine(c, "jbdelet_thrld", PrintInt(n)) == c.(jb := c.jb.(deletThrld := n))
  {
    hide AfterLine, KeyOf, SetKey, PrintInt, Token;
    KeyJbMaxdelay();
    PrintedIsToken(n, Sip.DELIMS);
    JbDelaySets(c, n);
    LineSets(c, "jbmaxdelay", PrintInt(n), JbMaxdelay);
    LineSets(c, "jbdelet_thrld", PrintInt(n), JbDeletThrld);
  }

  lemma JbDelaySets(c: Config, n: int)
    ensures SetKey(c, JbMaxdelay, PrintInt(n)) == c.(jb := c.jb.(maxdelay := n))
    ensures SetKey(c, JbDeletThrld, PrintInt(n)) == c.(jb := c.jb.(deletThrld := n))
  {
    hide PrintInt, Atoi;
    AtoiPrinted(n);
  }

  lemma G711Lines(c: Config, n: int)
    ensures AfterLine(c, "codec_intvl_g711_a", PrintInt(n)) == c.(intvl := c.intvl.(g711a := n))
    ensures AfterLine(c, "codec_intvl_g711_u", PrintInt(n)) == c.(intvl := c.intvl.(g711u := n))
    ensures AfterLine(c, "codec_intvl_g723_1", PrintInt(n)) == c.(intvl := c.intvl.(g723 := n))
  {
    hide AfterLine, KeyOf, SetKey, PrintInt, Token;
    KeyIntvlG711A();
    KeyIntvlG711U();
    KeyIntvlG723();
    PrintedIsToken(n, Sip.DELIMS);
    G711Sets(c, n);
    LineSets(c, "codec_intvl_g711_a", PrintInt(n), IntvlG711A);
    LineSets(c, "codec_intvl_g711_u", PrintInt(n), IntvlG711U);
    LineSets(c, "codec_intvl_g723_1", PrintInt(n), IntvlG723);
  }

  lemma G711Sets(c: Config, n: int)
    ensures SetKey(c, IntvlG711A, PrintInt(n)) == c.(intvl := c.intvl.(g711a := n))
    ensures SetKey(c, IntvlG711U, PrintInt(n)) == c.(intvl := c.intvl.(g711u := n))
    ensures SetKey(c, IntvlG723, PrintInt(n)) == c.(intvl := c.intvl.(g723 := n))
  {
    hide PrintInt, Atoi;
    AtoiPrinted(n);
  }

  lemma G726Lines(c: Config, n: int)
    ensures AfterLine(c, "codec_intvl_g726_16", PrintInt(n)) == c.(intvl := c.intvl.(g726x16 := n))
    ensures AfterLine(c, "codec_intvl_g726_24", PrintInt(n)) == c.(intvl := c.intvl.(g726x24 := n))
    ensures AfterLine(c, "codec_intvl_g726_32", PrintInt(n)) == c.(intvl := c.intvl.(g726x32 := n))
  {
    hide AfterLine, KeyOf, SetKey, PrintInt, Token;
    KeyIntvlG726x16();
    KeyIntvlG726x24();
    KeyIntvlG726x32();
    PrintedIsToken(n, Sip.DELIMS);
    G726Sets(c, n);
    LineSets(c, "codec_intvl_g726_16", PrintInt(n), IntvlG726x16);
    LineSets(c, "codec_intvl_g726_24", PrintInt(n), IntvlG726x24);
    LineSets(c, "codec_intvl_g726_32", PrintInt(n), IntvlG726x32);
  }

  lemma G726Sets(c: Config, n: int)
    ensures SetKey(c, IntvlG726x16, PrintInt(n)) == c.(intvl := c.intvl.(g726x16 := n))
    ensures SetKey(c, IntvlG726x24, PrintInt(n)) == c.(intvl := c.intvl.(g726x24 := n))
    ensures SetKey(c, IntvlG726x32, PrintInt(n)) == c.(intvl := c.intvl.(g726x32 := n))
  {
    hide PrintInt, Atoi;
    AtoiPrinted(n);
  }

  lemma GsmLines(c: Config, n: int)
    ensures AfterLine(c, "codec_intvl_g726_40", PrintInt(n)) == c.(intvl := c.intvl.(g726x40 := n))
    ensures AfterLine(c, "codec_intvl_g729", PrintInt(n)) == c.(intvl := c.intvl.(g729 := n))
    ensures AfterLine(c, "codec_intvl_gsm", PrintInt(n)) == c.(intvl := c.intvl.(gsm := n))
  {
    hide AfterLine, KeyOf, SetKey, PrintInt, Token;
    KeyIntvlG726x40();
    KeyIntvlG729();
    KeyIntvlGsm();
    PrintedIsToken(n, Sip.DELIMS);
    GsmSets(c, n);
    LineSets(c, "codec_intvl_g726_40", PrintInt(n), IntvlG726x40);
    LineSets(c, "codec_intvl_g729", PrintInt(n), IntvlG729);
    LineSets(c, "codec_intvl_gsm", PrintInt(n), IntvlGsm);
  }

  lemma GsmSets(c: Config, n: int)
    ensures SetKey(c, IntvlG726x40, PrintInt(n)) == c.(intvl := c.intvl.(g726x40 := n))
    ensures SetKey(c, IntvlG729, PrintInt(n)) == c.(intvl := c.intvl.(g729 := n))
    ensures SetKey(c, IntvlGsm, PrintInt(n)) == c.(intvl := c.intvl.(gsm := n))
  {
    hide PrintInt, Atoi;
    AtoiPrinted(n);
  }

  lemma VoiceLines(c: Config, v: string)
    requires v != "" && ' ' !in v && '\t' !in v && '\n' !in v
    ensures AfterLine(c, "ais_enable", v) == c.(ais := if v == "yes" then 1 else 0)
    ensures AfterLine(c, "vad_enable", v) == c.(vad := if v == "yes" then 1 else 0)
    ensures AfterLine(c, "cng_enable", v) == c.(cng := if v == "yes" then 1 else 0)
  {
    hide AfterLine, KeyOf, SetKey, PrintInt, Token;
    WordIsToken(v);
    KeyG723Rate();
    VoiceSets(c, v);
    LineSets(c, "ais_enable", v, Ais);
    LineSets(c, "vad_enable", v, Vad);
    LineSets(c, "cng_enable", v, Cng);
  }

  lemma VoiceSets(c: Config, v: string)
    ensures SetKey(c, Ais, v) == c.(ais := if v == "yes" then 1 else 0)
    ensures SetKey(c, Vad, v) == c.(vad := if v == "yes" then 1 else 0)
    ensures SetKey(c, Cng, v) == c.(cng := if v == "yes" then 1 else 0)
  {
    hide Atoi;
  }

  lemma E1Lines(c: Config, v: string)
    requires v != "" && ' ' !in v && '\t' !in v && '\n' !in v
    ensures AfterLine(c, "e1_enable", v) == c.(e1 := if v == "yes" then 1 else 0)
    ensures AfterLine(c, "e1_loopback_enable", v) == c.(e1Loopback := if v == "yes" then 1 else 0)
    ensures AfterLine(c, "echocancel_enable", v) == c.(echocan := if v == "yes" then 1 else 0)
  {
    hide AfterLine, KeyOf, SetKey, PrintInt, Token;
    WordIsToken(v);
    KeyE1();
    KeyEchocan();
    E1Sets(c, v);
    LineSets(c, "e1_enable", v, E1);
    LineSets(c, "e1_loopback_enable", v, E1Loopback);
    LineSets(c, "echocancel_enable", v, Echocan);
  }

  lemma E1Sets(c: Config, v: string)
    ensures SetKey(c, E1, v) == c.(e1 := if v == "yes" then 1 else 0)
    ensures SetKey(c, E1Loopback, v) == c.(e1Loopback := if v == "yes" then 1 else 0)
    ensures SetKey(c, Echocan, v) == c.(echocan := if v == "yes" then 1 else 0)
  {
    hide Atoi;
  }

  lemma BufferLines(c: Config, v: string)
    requires v != "" && ' ' !in v && '\t' !in v && '\n' !in v
    ensures AfterLine(c, "jbenable", v) == c.(jb := c.jb.(enable := if v == "yes" then 1 else 0))
    ensures AfterLine(c, "jbimpl", v) == c.(jb := c.jb.(impl := if v == "adaptive" then 1 else 0))
  {
    hide AfterLine, KeyOf, SetKey, PrintInt, Token;
    WordIsToken(v);
    KeyE1();
    KeyJbMaxsize();
    BufferSets(c, v);
    LineSets(c, "jbenable", v, JbEnable);
    LineSets(c, "jbimpl", v, JbImpl);
  }

  lemma BufferSets(c: Config, v: string)
    ensures SetKey(c, JbEnable, v) == c.(jb := c.jb.(enable := if v == "yes" then 1 else 0))
    ensures SetKey(c, JbImpl, v) == c.(jb := c.jb.(impl := if v == "adaptive" then 1 else 0))
  {
    hide Atoi;
  }

  lemma CodecLines(c: Config, v: string)
    requires v != "" && ' ' !in v && '\t' !in v && '\n' !in v
    ensures AfterLine(c, "codec_g723_1", v) == c.(g723High := if v == "6.3kbps" then 1 else 0)
    ensures AfterLine(c, "pass_through", v)
         == c.(passThrough := if v == "alaw" then 0x100 else if v == "ulaw" then 0x80 else 0)
  {
    hide AfterLine, KeyOf, SetKey, PrintInt, Token;
    WordIsToken(v);
    KeyG723Rate();
    CodecSets(c, v);
    LineSets(c, "codec_g723_1", v, G723Rate);
    LineSets(c, "pass_through", v, PassThrough);
  }

  lemma CodecSets(c: Config, v: string)
    ensures SetKey(c, G723Rate, v) == c.(g723High := if v == "6.3kbps" then 1 else 0)
    ensures SetKey(c, PassThrough, v)
         == c.(passThrough := if v == "alaw" then 0x100 else if v == "ulaw" then 0x80 else 0)
  {
    hide Atoi;
  }

  /** After a save every allow line of sip.conf carries the interval that comcerto.conf now gives its codec. */
  lemma AllowLinesCarry(c: Config, sipConf: string)
    requires Sane(c) && Sip.AllowsFit(sipConf) && SipFiles.Storable(Sip.Parse(sipConf))
    ensures var lines := ValuesOf(NewSip(c, sipConf), "allow", Sip.LINE);
      var codes := Sip.Chosen(Sip.Parse(sipConf).account.allow);
      && |lines| == |codes|
      && forall i | 0 <= i < |lines| ::
           && IsCodec(codes[i])
           && NextToken(lines[i], ':')
              == Some((CodecName(codes[i]), PrintInt(Interval(Parse(Save(c)), codes[i]))))
  {
    hide *;
    BothFilesAgree(c, sipConf);
    SipFiles.ParsedPrintable(sipConf);
    AllowsCarry(c, sipConf);
  }

  lemma AllowsCarry(c: Config, sipConf: string)
    requires Sane(c) && Sip.AllowsFit(sipConf) && S.Printable(Sip.Parse(sipConf))
    requires Sip.CodecsOk(Merged(c, sipConf)) && NewSip(c, sipConf) == Sip.Save(Merged(c, sipConf), NewIntervals(c))
    ensures var lines := ValuesOf(NewSip(c, sipConf), "allow", Sip.LINE);
      var codes := Sip.Chosen(Sip.Parse(sipConf).account.allow);
      && |lines| == |codes|
      && forall i | 0 <= i < |lines| ::
           && IsCodec(codes[i])
           && NextToken(lines[i], ':')
              == Some((CodecName(codes[i]), PrintInt(Interval(Parse(Save(c)), codes[i]))))
  {
    hide Save, Parse, Sip.Parse, Sip.Save, S.Printable, Interval, Sip.AllowsFit, Sip.Chosen, ValuesOf, NextToken;
    hide CodecName, PrintInt, IsCodec, S.Intervals, NewSip;
    SaveThenParse(c);
    IntervalsFit(c);
    MergedPrintable(Sip.Parse(sipConf), c.jb);
    SipLines.AllowSaved(Merged(c, sipConf), NewIntervals(c));
  }
}
