/** comcerto.conf, and what saving it does to sip.conf. */
module Comcerto {
  import opened Text
  import opened Codecs
  import Sip
  import SipFiles

  datatype Intervals9 = Intervals9(
    g711a: int, g711u: int, g723: int, g726x16: int, g726x24: int, g726x32: int, g726x40: int, g729: int, gsm: int)

  datatype Config = Config(
    debug: int, g723High: int, passThrough: int, ais: int, vad: int, vadLevel: int, cng: int, echocan: int, ectail: int,
    txgain: int, rxgain: int, e1: int, e1Loopback: int, toneAmp: int, jb: Sip.Jb, intvl: Intervals9)

  const Zero := Config(0, 0, 0, 0, 0, 0, 0, 0, 0, 0, 0, 0, 0, 0, Sip.Jb(0, 0, 0, 0, 0, 0, 0),
                       Intervals9(0, 0, 0, 0, 0, 0, 0, 0, 0))

  const LINE := 127

  // ----- Parsing ------------------------------------------------------------------------------------------

  datatype Key =
    | G723Rate | PassThrough | Ais | Vad | VadLevel | Cng | Echocan | Txgain | Rxgain | Ectail | E1 | E1Loopback
    | JbEnable | JbMaxsize | JbImpl | JbMindelay | JbTypdelay | JbMaxdelay | JbDeletThrld | ToneAmp | Debug
    | IntvlG711A | IntvlG711U | IntvlG723 | IntvlG726x16 | IntvlG726x24 | IntvlG726x32 | IntvlG726x40 | IntvlG729
    | IntvlGsm | Other

  function KeyOf(key: string): Key
  {
    if key == "codec_g723_1" then G723Rate
    else if key == "pass_through" then PassThrough
    else if key == "ais_enable" then Ais
    else if key == "vad_enable" then Vad
    else if key == "vad_level" then VadLevel
    else if key == "cng_enable" then Cng
    else if key == "echocancel_enable" then Echocan
    else if key == "txgain" then Txgain
    else if key == "rxgain" then Rxgain
    else if key == "ectail" then Ectail
    else if key == "e1_enable" then E1
    else if key == "e1_loopback_enable" then E1Loopback
    else if key == "jbenable" then JbEnable
    else if key == "jbmaxsize" then JbMaxsize
    else if key == "jbimpl" then JbImpl
    else if key == "jbmindelay" then JbMindelay
    else if key == "jbtypdelay" then JbTypdelay
    else if key == "jbmaxdelay" then JbMaxdelay
    else if key == "jbdelet_thrld" then JbDeletThrld
    else if key == "mfcr2_tone_amp" then ToneAmp
    else if key == "debug" then Debug
    else if key == "codec_intvl_g711_a" then IntvlG711A
    else if key == "codec_intvl_g711_u" then IntvlG711U
    else if key == "codec_intvl_g723_1" then IntvlG723
    else if key == "codec_intvl_g726_16" then IntvlG726x16
    else if key == "codec_intvl_g726_24" then IntvlG726x24
    else if key == "codec_intvl_g726_32" then IntvlG726x32
    else if key == "codec_intvl_g726_40" then IntvlG726x40
    else if key == "codec_intvl_g729" then IntvlG729
    else if key == "codec_intvl_gsm" then IntvlGsm
    else Other
  }

  /** libamg_comcerto_get_codec_passthrough_code */
  function PassCode(v: string): int
  {
    if v == "alaw" then G711_A else if v == "ulaw" then G711_U else 0
  }

  function SetKey(c: Config, k: Key, v: string): Config
  {
    match k
    case G723Rate => c.(g723High := Sip.Flag(v, "6.3kbps"))
    case PassThrough => c.(passThrough := PassCode(v))
    case Ais => c.(ais := Sip.Flag(v, "yes"))
    case Vad => c.(vad := Sip.Flag(v, "yes"))
    case VadLevel => c.(vadLevel := Atoi(v))
    case Cng => c.(cng := Sip.Flag(v, "yes"))
    case Echocan => c.(echocan := Sip.Flag(v, "yes"))
    case Txgain => c.(txgain := Atoi(v))
    case Rxgain => c.(rxgain := Atoi(v))
    case Ectail => c.(ectail := Atoi(v))
    case E1 => c.(e1 := Sip.Flag(v, "yes"))
    case E1Loopback => c.(e1Loopback := Sip.Flag(v, "yes"))
    case JbEnable => c.(jb := c.jb.(enable := Sip.Flag(v, "yes")))
    case JbMaxsize => c.(jb := c.jb.(maxsize := Atoi(v)))
    case JbImpl => c.(jb := c.jb.(impl := Sip.Flag(v, "adaptive")))
    case JbMindelay => c.(jb := c.jb.(mindelay := Atoi(v)))
    case JbTypdelay => c.(jb := c.jb.(typdelay := Atoi(v)))
    case JbMaxdelay => c.(jb := c.jb.(maxdelay := Atoi(v)))
    case JbDeletThrld => c.(jb := c.jb.(deletThrld := Atoi(v)))
    case ToneAmp => c.(toneAmp := Atoi(v))
    case Debug => c.(debug := Atoi(v))
    case IntvlG711A => c.(intvl := c.intvl.(g711a := Atoi(v)))
    case IntvlG711U => c.(intvl := c.intvl.(g711u := Atoi(v)))
    case IntvlG723 => c.(intvl := c.intvl.(g723 := Atoi(v)))
    case IntvlG726x16 => c.(intvl := c.intvl.(g726x16 := Atoi(v)))
    case IntvlG726x24 => c.(intvl := c.intvl.(g726x24 := Atoi(v)))
    case IntvlG726x32 => c.(intvl := c.intvl.(g726x32 := Atoi(v)))
    case IntvlG726x40 => c.(intvl := c.intvl.(g726x40 := Atoi(v)))
    case IntvlG729 => c.(intvl := c.intvl.(g729 := Atoi(v)))
    case IntvlGsm => c.(intvl := c.intvl.(gsm := Atoi(v)))
    case Other => c
  }

  function Set(c: Config, key: string, v: string): Config
  {
    SetKey(c, KeyOf(key), v)
  }

  function Parse(text: string): Config
  {
    ParseText(Set, Sip.DELIMS, LINE, Zero, text)
  }

  /** libamg_comcerto_parse_config */
  method ParseConfig(text: string) returns (conf: Config)
    requires '\0' !in text
    ensures conf == Parse(text)
  {
    conf := ParseFile(Set, Sip.DELIMS, LINE, Zero, text);
  }

  /** libamg_comcerto_get_codec_packetization_interval on the current file. */
  function Interval(c: Config, code: int): int
  {
    if code == G711_A then c.intvl.g711a
    else if code == G711_U then c.intvl.g711u
    else if code == G723_1 then c.intvl.g723
    else if code == G726_16 then c.intvl.g726x16
    else if code == G726_24 then c.intvl.g726x24
    else if code == G726_32 then c.intvl.g726x32
    else if code == G726_40 then c.intvl.g726x40
    else if code == G729 then c.intvl.g729
    else if code == GSM then c.intvl.gsm
    else 20
  }

  // ----- Printing --------------------------------------------------------------------------------------------

  function Num(key: string, n: int): Rec
  {
    Setting(key, Sip.PrintShort(n))
  }

  function Switch(key: string, n: int): Rec
  {
    Setting(key, Sip.YesNo(n))
  }

  function Part1(c: Config): seq<Rec>
  {
    [Plain("[general]"), Setting("debug", PrintInt(c.debug)), Switch("ais_enable", c.ais), Switch("vad_enable", c.vad)]
  }

  function Part2(c: Config): seq<Rec>
  {
    [Num("vad_level", c.vadLevel), Switch("cng_enable", c.cng), Switch("echocancel_enable", c.echocan),
     Num("ectail", c.ectail)]
  }

  function Part3(c: Config): seq<Rec>
  {
    [Switch("e1_enable", c.e1), Switch("e1_loopback_enable", c.e1Loopback),
     Setting("mfcr2_tone_amp", PrintInt(c.toneAmp)), Switch("jbenable", 1)]
  }

  function Part4(c: Config): seq<Rec>
  {
    [Num("jbmaxsize", c.jb.maxsize), Setting("jbimpl", if c.jb.impl != 0 then "adaptive" else "fixed"),
     Num("jbmindelay", c.jb.mindelay), Num("jbtypdelay", c.jb.typdelay)]
  }

  function Part5(c: Config): seq<Rec>
  {
    [Num("jbmaxdelay", c.jb.maxdelay), Num("jbdelet_thrld", c.jb.deletThrld), Num("txgain", c.txgain),
     Num("rxgain", c.rxgain)]
  }

  function Part6(c: Config): seq<Rec>
  {
    [Setting("codec_g723_1", if c.g723High != 0 then "6.3kbps" else "5.3kbps")]
    + If(c.passThrough != 0, Setting("pass_through", if c.passThrough == G711_A then "alaw" else "ulaw"))
  }

  function Part7(i: Intervals9): seq<Rec>
  {
    [Num("codec_intvl_g711_a", i.g711a), Num("codec_intvl_g711_u", i.g711u), Num("codec_intvl_g723_1", i.g723)]
  }

  function Part8(i: Intervals9): seq<Rec>
  {
    [Num("codec_intvl_g726_16", i.g726x16), Num("codec_intvl_g726_24", i.g726x24),
     Num("codec_intvl_g726_32", i.g726x32)]
  }

  function Part9(i: Intervals9): seq<Rec>
  {
    [Num("codec_intvl_g726_40", i.g726x40), Num("codec_intvl_g729", i.g729), Num("codec_intvl_gsm", i.gsm)]
  }

  function Records(c: Config): seq<Rec>
  {
    Part1(c) + (Part2(c) + (Part3(c) + (Part4(c) + (Part5(c) + (Part6(c) + (Part7(c.intvl)
    + (Part8(c.intvl) + Part9(c.intvl))))))))
  }

  /** comcerto.conf as libamg_comcerto_save_config writes it. */
  function Save(c: Config): string
  {
    RenderAll(Records(c))
  }

  /** Only the codes that have a name are passed through; the debug mask and the amplitude are ints. */
  predicate Sane(c: Config)
  {
    && (c.passThrough == 0 || c.passThrough == G711_A || c.passThrough == G711_U)
    && -0x8000_0000 <= c.debug < 0x8000_0000 && -0x8000_0000 <= c.toneAmp < 0x8000_0000
  }

  function Bit(n: int): int
  {
    if n != 0 then 1 else 0
  }

  /** What parsing gives back after saving. */
  function NormalForm(c: Config): Config
  {
    Config(c.debug, Bit(c.g723High), c.passThrough, Bit(c.ais), Bit(c.vad), Short(c.vadLevel), Bit(c.cng),
           Bit(c.echocan), Short(c.ectail), Short(c.txgain), Short(c.rxgain), Bit(c.e1), Bit(c.e1Loopback), c.toneAmp,
           NormalJb(c.jb), NormalIntervals(c.intvl))
  }

  function NormalJb(j: Sip.Jb): Sip.Jb
  {
    Sip.Jb(1, Short(j.maxsize), Bit(j.impl), Short(j.mindelay), Short(j.typdelay), Short(j.maxdelay),
           Short(j.deletThrld))
  }

  function NormalIntervals(i: Intervals9): Intervals9
  {
    Intervals9(Short(i.g711a), Short(i.g711u), Short(i.g723), Short(i.g726x16), Short(i.g726x24), Short(i.g726x32),
               Short(i.g726x40), Short(i.g729), Short(i.gsm))
  }

  /**
   * libamg_comcerto_save_config: write comcerto.conf, then parse sip.conf, replace its jitter buffer
   * settings and write it again; the intervals printed there come from the file just written.
   */
  method SaveConfig(c: Config, sipConf: string) returns (text: string, sipText: string)
    requires Sane(c) && '\0' !in sipConf && Sip.AllowsFit(sipConf)
    ensures text == Save(c) && sipText == NewSip(c, sipConf)
  {
    hide Save, Parse, Sip.Save, Sip.Parse, Sip.AllowsFit;
    text := PrintConfig(c);
    var sip := Sip.ParseConfig(sipConf);
    SipFiles.ParsedFields(sipConf);
    sip := sip.(jb := c.jb);
    var now := Parse(text);
    var after;
    sipText, after := Sip.SaveConfig(sip, code => Interval(now, code));
  }

  /** The sequence of fprintf calls. */
  method PrintConfig(c: Config) returns (text: string)
    ensures text == Save(c)
  {
    hide Render, Part1, Part2, Part3, Part4, Part5, Part6, Part7, Part8, Part9, RenderAll;
    text := RenderAll(Part1(c));
    text := text + RenderAll(Part2(c));
    text := text + RenderAll(Part3(c));
    text := text + RenderAll(Part4(c));
    text := text + RenderAll(Part5(c));
    text := text + RenderAll(Part6(c));
    text := text + RenderAll(Part7(c.intvl));
    text := text + RenderAll(Part8(c.intvl));
    text := text + RenderAll(Part9(c.intvl));
    var i := c.intvl;
    RenderAppend(Part8(i), Part9(i));
    RenderAppend(Part7(i), Part8(i) + Part9(i));
    var t7 := Part7(i) + (Part8(i) + Part9(i));
    RenderAppend(Part6(c), t7);
    RenderAppend(Part5(c), Part6(c) + t7);
    RenderAppend(Part4(c), Part5(c) + (Part6(c) + t7));
    var t4 := Part4(c) + (Part5(c) + (Part6(c) + t7));
    RenderAppend(Part3(c), t4);
    RenderAppend(Part2(c), Part3(c) + t4);
    RenderAppend(Part1(c), Part2(c) + (Part3(c) + t4));
    Concatenated([RenderAll(Part1(c)), RenderAll(Part2(c)), RenderAll(Part3(c)), RenderAll(Part4(c)),
                  RenderAll(Part5(c)), RenderAll(Part6(c)), RenderAll(Part7(i)), RenderAll(Part8(i)),
                  RenderAll(Part9(i))]);
  }

  lemma Concatenated(p: seq<string>)
    requires |p| == 9
    ensures p[0] + p[1] + p[2] + p[3] + p[4] + p[5] + p[6] + p[7] + p[8]
         == p[0] + (p[1] + (p[2] + (p[3] + (p[4] + (p[5] + (p[6] + (p[7] + p[8])))))))
  {
  }

  /** The configuration that is written to sip.conf. */
  function Merged(c: Config, sipConf: string): Sip.Config
  {
    Sip.Parse(sipConf).(jb := c.jb)
  }

  function NewSip(c: Config, sipConf: string): string
    requires Sip.AllowsFit(sipConf)
  {
    SipFiles.ParsedFields(sipConf);
    Sip.Save(Merged(c, sipConf), code => Interval(Parse(Save(c)), code))
  }
}
