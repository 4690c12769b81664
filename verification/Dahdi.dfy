/** The two DAHDI files: chan_dahdi.conf and system.conf, for the one span there is. */
module Dahdi {
  import opened Attributes
  import opened Text
  import opened Tokens
  import opened Strings
  import opened Channels

  datatype Isdn = Isdn(overlapdial: int, switchtype: string)

  datatype Mfcr2 = Mfcr2(getAniFirst: int, maxAni: int, maxDnis: int, allowCollect: int, doubleAnswer: int)

  datatype Span = Span(
    enable: int, channels: int, channelsOffset: int, bitmap: nat, clock: int, crc: int, signalling: int,
    echocancel: int, isdn: Isdn, mfcr2: Mfcr2)

  const Zero := Span(0, 0, 0, 0, 0, 0, 0, 0, Isdn(0, ""), Mfcr2(0, 0, 0, 0, 0))

  const SIG_MFCR2 := 0
  const SIG_ISDN_NET := 1
  const SIG_ISDN_CPE := 2

  const DELIMS: set<char> := {' ', '\t', '\n', ';', '#'}
  const LINE := BUF_SIZE - 1

  /** What a parser has so far; None once the C code has done something that C does not define. */
  type State = Option<Span>

  // ----- Parsing ------------------------------------------------------------------------------------------

  datatype Key =
    | Signalling | Overlapdial | Switchtype | GetAniFirst | MaxAni | MaxDnis | AllowCollect | DoubleAnswer | Channel
    | Echocancel | Other

  function KeyOf(key: string): Key
  {
    if key == "signalling" then Signalling
    else if key == "overlapdial" then Overlapdial
    else if key == "switchtype" then Switchtype
    else if key == "mfcr2_get_ani_first" then GetAniFirst
    else if key == "mfcr2_max_ani" then MaxAni
    else if key == "mfcr2_max_dnis" then MaxDnis
    else if key == "mfcr2_allow_collect_calls" then AllowCollect
    else if key == "mfcr2_double_answer" then DoubleAnswer
    else if key == "channel" then Channel
    else if key == "echocancel" then Echocancel
    else Other
  }

  function IsYes(v: string): int
  {
    if v == "yes" then 1 else 0
  }

  function IsNotNo(v: string): int
  {
    if v == "no" then 0 else 1
  }

  function SignallingOf(v: string): int
  {
    if v == "pri_net" then SIG_ISDN_NET else if v == "pri_cpe" then SIG_ISDN_CPE else SIG_MFCR2
  }

  /**
   * One line of chan_dahdi.conf; every line with a '=' enables the span. A channel line without '>' makes
   * strtok go on with the remainder of an earlier call, which has no meaning here.
   */
  function SetKey(c: Span, k: Key, v: string): State
  {
    var on := c.(enable := 1);
    match k
    case Signalling => Some(on.(signalling := SignallingOf(v)))
    case Overlapdial => Some(on.(isdn := c.isdn.(overlapdial := IsNotNo(v))))
    case Switchtype => Some(on.(isdn := c.isdn.(switchtype := Copy(v, 15))))
    case GetAniFirst => Some(on.(mfcr2 := c.mfcr2.(getAniFirst := IsYes(v))))
    case MaxAni => Some(on.(mfcr2 := c.mfcr2.(maxAni := Atoi(v))))
    case MaxDnis => Some(on.(mfcr2 := c.mfcr2.(maxDnis := Atoi(v))))
    case AllowCollect => Some(on.(mfcr2 := c.mfcr2.(allowCollect := IsNotNo(v))))
    case DoubleAnswer => Some(on.(mfcr2 := c.mfcr2.(doubleAnswer := IsYes(v))))
    case Channel => SetChannels(on, v)
    case Echocancel => Some(on.(echocancel := IsYes(v)))
    case Other => Some(on)
  }

  function SetChannels(c: Span, v: string): State
  {
    match NextToken(v, '>')
    case None => None
    case Some((_, list)) =>
      match ParseBitmap(c.bitmap, list) case None => None case Some(b) => Some(c.(bitmap := b))
  }

  function Set(c: State, key: string, v: string): State
  {
    match c case None => None case Some(s) => SetKey(s, KeyOf(key), v)
  }

  /** One span= line of system.conf: its number, its clock source and, as the sixth item, crc4. */
  function SetSpan(c: Span, v: string): State
  {
    var items := Split(v, COMMA);
    if items == [] then None
    else if !(1 <= Atoi(items[0]) <= NUMSPANS) then Some(c)
    else if |items| == 1 then None
    else if !(0 <= Atoi(items[1]) <= NUMSPANS) then Some(c)
    else Some(c.(clock := Atoi(items[1]), crc := if |items| > 5 && items[5] == "crc4" then 1 else 0, enable := 1))
  }

  function SetSystem(c: State, key: string, v: string): State
  {
    match c case None => None case Some(s) => if key == "span" then SetSpan(s, v) else c
  }

  function ParseChan(c: State, text: string): State
  {
    ParseText(Set, DELIMS, LINE, c, text)
  }

  function ParseSystem(c: State, text: string): State
  {
    ParseText(SetSystem, DELIMS, LINE, c, text)
  }

  function Parse(chanConf: string, systemConf: string): State
  {
    ParseSystem(ParseChan(Some(Zero), chanConf), systemConf)
  }

  /** libamg_dahdi_parse_config */
  method ParseConfig(chanConf: string, systemConf: string) returns (conf: State)
    requires '\0' !in chanConf && '\0' !in systemConf
    ensures conf == Parse(chanConf, systemConf)
  {
    conf := ParseFile(Set, DELIMS, LINE, Some(Zero), chanConf);
    conf := ParseFile(SetSystem, DELIMS, LINE, conf, systemConf);
  }

  // ----- Printing --------------------------------------------------------------------------------------------

  function YesNo(n: int): string
  {
    if n != 0 then "yes" else "no"
  }

  const SystemHead: seq<Rec> := [Setting("loadzone", "br"), Setting("defaultzone", "br")]

  function Crc(n: int): seq<string>
  {
    if n != 0 then ["crc4"] else []
  }

  function SpanItems(c: Span): seq<string>
  {
    ["1", PrintInt(c.clock), "0", if c.signalling == SIG_MFCR2 then "cas" else "ccs", "hdb3"] + Crc(c.crc)
  }

  /** The lines of the enabled span: its settings and which slots carry what. */
  function SystemRecs(c: Span): seq<Rec>
  {
    [Setting("span", Join(SpanItems(c)))]
    + if c.signalling == SIG_MFCR2 then [Setting("cas", RangeLine(0, 30) + ":1101")]
      else [Setting("bchan", RangeLine(0, 30)), Setting("dchan", PrintInt(16))]
  }

  function SystemConf(c: Span): string
  {
    RenderAll(SystemHead) + if c.enable != 0 then RenderAll(SystemRecs(c)) else ""
  }

  const Head1: seq<Rec> := [Plain("[channels]"), Setting("language", "br"), Setting("usecallerid", "yes"),
                            Setting("echocancelwhenbridged", "no")]
  const Head2: seq<Rec> := [Setting("buffers", "8,half"), Setting("context", "from-span1"), Setting("group", "1"),
                            Setting("mfcr2_variant", "br")]
  const Head3: seq<Rec> := [Setting("mfcr2_category", "national_subscriber"), Setting("mfcr2_mfback_timeout", "5000"),
                            Setting("mfcr2_metering_pulse_timeout", "1000"), Plain("#include chan_dahdi_custom.conf")]

  function SignallingName(n: int): string
  {
    if n == SIG_ISDN_CPE then "pri_cpe" else if n == SIG_ISDN_NET then "pri_net" else "mfcr2"
  }

  function Part1(c: Span): seq<Rec>
  {
    [Setting("signalling", SignallingName(c.signalling)), Setting("overlapdial", YesNo(c.isdn.overlapdial))]
    + If(c.isdn.switchtype != "", Setting("switchtype", c.isdn.switchtype))
  }

  function Part2(m: Mfcr2): seq<Rec>
  {
    [Setting("mfcr2_get_ani_first", YesNo(m.getAniFirst)), Setting("mfcr2_max_ani", PrintInt(m.maxAni)),
     Setting("mfcr2_max_dnis", PrintInt(m.maxDnis)), Setting("mfcr2_allow_collect_calls", YesNo(m.allowCollect))]
  }

  function Part3(c: Span): seq<Rec>
  {
    [Setting("mfcr2_double_answer", YesNo(c.mfcr2.doubleAnswer)), Setting("context", "from-span" + PrintInt(1)),
     Setting("group", PrintInt(1)), Setting("echocancel", YesNo(c.echocancel))]
  }

  function Part4(c: Span): seq<Rec>
  {
    If(c.bitmap > 0 && BitmapLine(0, c.bitmap) != "", Setting("channel", ">" + BitmapLine(0, c.bitmap)))
  }

  function ChanRecs(c: Span): seq<Rec>
  {
    Part1(c) + (Part2(c.mfcr2) + (Part3(c) + Part4(c)))
  }

  function HeadRecs(): seq<Rec>
  {
    Head1 + (Head2 + Head3)
  }

  function ChanConf(c: Span): string
  {
    RenderAll(HeadRecs()) + if c.enable != 0 then RenderAll(ChanRecs(c)) else ""
  }

  /** libamg_dahdi_apply_system_conf */
  method SaveSystem(c: Span) returns (text: string)
    ensures text == SystemConf(c)
  {
    text := RenderAll(SystemHead);
    if c.enable == 0 {
      return;
    }
    text := text + RenderAll(SystemRecs(c));
  }

  /** libamg_dahdi_save_chan_dahdi_conf, with its line buffer. */
  method SaveChan(c: Span) returns (text: string)
    requires c.bitmap < 0x1_0000_0000
    ensures text == ChanConf(c)
  {
    hide HeadRecs, Part1, Part2, Part3, Render, RenderAll, BitmapLine, SetBits;
    text := RenderAll(HeadRecs());
    if c.enable == 0 {
      return;
    }
    var part1, part2, part3 := RenderAll(Part1(c)), RenderAll(Part2(c.mfcr2)), RenderAll(Part3(c));
    var part4 := "";
    if c.bitmap > 0 {
      var buffer := new char[BUF_SIZE];
      var length := GenBitmapLine(buffer, 0, c.bitmap);
      if length > 0 {
        part4 := Render(Setting("channel", ">" + buffer[..length]));
      }
    }
    RenderIf(c.bitmap > 0 && BitmapLine(0, c.bitmap) != "", Setting("channel", ">" + BitmapLine(0, c.bitmap)));
    RenderAppend(Part3(c), Part4(c));
    RenderAppend(Part2(c.mfcr2), Part3(c) + Part4(c));
    RenderAppend(Part1(c), Part2(c.mfcr2) + (Part3(c) + Part4(c)));
    text := text + (part1 + (part2 + (part3 + part4)));
  }

  lemma RenderIf(b: bool, r: Rec)
    ensures RenderAll(If(b, r)) == if b then Render(r) else ""
  {
    hide Render;
    assert [r][1..] == [];
  }

  /** libamg_dahdi_save_config */
  method SaveConfig(c: Span) returns (systemConf: string, chanConf: string)
    requires c.bitmap < 0x1_0000_0000
    ensures systemConf == SystemConf(c) && chanConf == ChanConf(c)
  {
    systemConf := SaveSystem(c);
    chanConf := SaveChan(c);
  }
}
