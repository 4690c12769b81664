/** sip.conf: what saving a configuration prints, and what parsing the print gives back. */
module Sip {
  import opened Text
  import opened Strings
  import opened Codecs

  // ----- The configuration -------------------------------------------------------------------------------

  datatype Jb = Jb(enable: int, maxsize: int, impl: int, mindelay: int, typdelay: int, maxdelay: int, deletThrld: int)

  type uint16 = x: int | 0 <= x < 0x1_0000

  datatype Account = Account(
    natOn: int, qualify: int, callerid: string, fromuser: string, insecure: string, username: string,
    secret: string, host: string, transport: string, port: uint16, dtmfmode: string, allow: seq<int>)

  datatype Config = Config(
    bindport: uint16, tcpenable: int, t1min: int, timert1: int, timerb: int, rtptimeout: int, rtpholdtimeout: int,
    rtpkeepalive: int, sessionTimers: string, sessionExpires: int, sessionMinse: int, sessionRefresher: string,
    defaultexpiry: int, registerEnable: int, autoframing: int, jb: Jb, registerUsername: string,
    registerSecret: string, registerHost: string, account: Account)

  const NoCodecs: seq<int> := seq(NUM_AVAILABLE_CODECS, _ => 0)

  /** What memset leaves. */
  const Zero := Config(0, 0, 0, 0, 0, 0, 0, 0, "", 0, 0, "", 0, 0, 0, Jb(0, 0, 0, 0, 0, 0, 0), "", "", "",
                       Account(0, 0, "", "", "", "", "", "", "", 0, "", NoCodecs))

  // ----- Parsing --------------------------------------------------------------------------------------------

  // The delimiter literal of the parser ends at its embedded NUL: ';' and '#' are not among them.
  const DELIMS: set<char> := {' ', '\t', '\n'}
  const LINE := 255

  datatype Key =
    | Bindport | Defaultexpiry | Tcpenable | Jbenable | Jbmaxsize | Jbimpl | T1min | Timert1 | Timerb | Rtptimeout
    | Rtpholdtimeout | Rtpkeepalive | SessionTimers | SessionExpires | SessionMinse | SessionRefresher | Register
    | RegUsername | RegSecret | RegHost | Host | Port | Username | Secret | Dtmfmode | Nat | Qualify | Insecure
    | Callerid | Fromuser | Transport | Allow | Other

  function KeyOf(key: string): Key
  {
    if key == "bindport" then Bindport
    else if key == "defaultexpiry" then Defaultexpiry
    else if key == "tcpenable" then Tcpenable
    else if key == "jbenable" then Jbenable
    else if key == "jbmaxsize" then Jbmaxsize
    else if key == "jbimpl" then Jbimpl
    else if key == "t1min" then T1min
    else if key == "timert1" then Timert1
    else if key == "timerb" then Timerb
    else if key == "rtptimeout" then Rtptimeout
    else if key == "rtpholdtimeout" then Rtpholdtimeout
    else if key == "rtpkeepalive" then Rtpkeepalive
    else if key == "session-timers" then SessionTimers
    else if key == "session-expires" then SessionExpires
    else if key == "session-minse" then SessionMinse
    else if key == "session-refresher" then SessionRefresher
    else if key == "register" then Register
    else if key == ";reg_username" then RegUsername
    else if key == ";reg_secret" then RegSecret
    else if key == ";reg_host" then RegHost
    else if key == "host" then Host
    else if key == "port" then Port
    else if key == "username" then Username
    else if key == "secret" then Secret
    else if key == "dtmfmode" then Dtmfmode
    else if key == "nat" then Nat
    else if key == "qualify" then Qualify
    else if key == "insecure" then Insecure
    else if key == "callerid" then Callerid
    else if key == "fromuser" then Fromuser
    else if key == "transport" then Transport
    else if key == "allow" then Allow
    else Other
  }

  function Flag(v: string, on: string): int
  {
    if v == on then 1 else 0
  }

  /** The parser's variables: the configuration and the next free place in `allow`. */
  datatype State = State(conf: Config, pos: nat)

  function SetAccount(a: Account, k: Key, v: string): Account
  {
    match k
    case Host => a.(host := Copy(v, 63))
    case Port => a.(port := Atoi(v) % 0x1_0000)
    case Username => a.(username := Copy(v, 63))
    case Secret => a.(secret := Copy(v, 63))
    case Dtmfmode => a.(dtmfmode := Copy(v, 31))
    case Nat => a.(natOn := Flag(v, "yes"))
    case Qualify => a.(qualify := Flag(v, "yes"))
    case Insecure => a.(insecure := Copy(v, 31))
    case Callerid => a.(callerid := Copy(v, 63))
    case Fromuser => a.(fromuser := Copy(StripLf(v), 63))
    case Transport => a.(transport := Copy(v, 7))
    case _ => a
  }

  /** As written: session-expires and session-minse land in defaultexpiry, and autoframing is not read. */
  function SetConfig(c: Config, k: Key, v: string): Config
  {
    match k
    case Bindport => c.(bindport := Atoi(v) % 0x1_0000)
    case Defaultexpiry => c.(defaultexpiry := Atoi(v))
    case Tcpenable => c.(tcpenable := Flag(v, "yes"))
    case Jbenable => c.(jb := c.jb.(enable := Flag(v, "yes")))
    case Jbmaxsize => c.(jb := c.jb.(maxsize := Atoi(v)))
    case Jbimpl => c.(jb := c.jb.(impl := Flag(v, "adaptive")))
    case T1min => c.(t1min := Atoi(v))
    case Timert1 => c.(timert1 := Atoi(v))
    case Timerb => c.(timerb := Atoi(v))
    case Rtptimeout => c.(rtptimeout := Atoi(v))
    case Rtpholdtimeout => c.(rtpholdtimeout := Atoi(v))
    case Rtpkeepalive => c.(rtpkeepalive := Atoi(v))
    case SessionTimers => c.(sessionTimers := Copy(v, 16))
    case SessionExpires => c.(defaultexpiry := Atoi(v))
    case SessionMinse => c.(defaultexpiry := Atoi(v))
    case SessionRefresher => c.(sessionRefresher := Copy(v, 8))
    case Register => c.(registerEnable := 1)
    case RegUsername => c.(registerUsername := Copy(v, 63))
    case RegSecret => c.(registerSecret := Copy(v, 63))
    case RegHost => c.(registerHost := Copy(v, 63))
    case _ => c.(account := SetAccount(c.account, k, v))
  }

  /** The ninth codec is the last that fits; what a tenth line overwrites is not modelled. */
  function AddCodec(st: State, code: int): State
  {
    if st.pos > NUM_AVAILABLE_CODECS then st
    else
      var allow := st.conf.account.allow;
      State(st.conf.(account := st.conf.account.(allow := if st.pos < |allow| then allow[st.pos := code] else allow)),
            st.pos + 1)
  }

  function Set(st: State, key: string, v: string): State
  {
    if KeyOf(key) == Allow then AddCodec(st, CodecCode(v))
    else st.(conf := SetConfig(st.conf, KeyOf(key), v))
  }

  function ParseState(text: string): State
  {
    ParseText(Set, DELIMS, LINE, State(Zero, 0), text)
  }

  function Parse(text: string): Config
  {
    ParseState(text).conf
  }

  /** At most nine allow lines: a tenth is stored behind the array, which the test lets through. */
  predicate AllowsFit(text: string)
  {
    ParseState(text).pos <= NUM_AVAILABLE_CODECS
  }

  /** libamg_sip_parse_config. */
  method ParseConfig(text: string) returns (conf: Config)
    requires '\0' !in text && AllowsFit(text)
    ensures conf == Parse(text)
  {
    var st := ParseFile(Set, DELIMS, LINE, State(Zero, 0), text);
    conf := st.conf;
  }

  // ----- Printing -----------------------------------------------------------------------------------------------

  function YesNo(n: int): string
  {
    if n != 0 then "yes" else "no"
  }

  function PrintShort(n: int): string
  {
    PrintInt(Short(n))
  }

  /** The strings that saving strips in place. */
  function Stripped(c: Config): Config
  {
    c.(registerUsername := StripLf(c.registerUsername), registerSecret := StripLf(c.registerSecret),
       registerHost := StripLf(c.registerHost),
       account := c.account.(host := StripLf(c.account.host), username := StripLf(c.account.username),
                             secret := StripLf(c.account.secret), callerid := StripLf(c.account.callerid),
                             fromuser := StripLf(c.account.fromuser)))
  }

  const Head1: seq<Rec> := [Plain("[general]"), Setting("context", "from-sip"), Setting("sdpsession", "SIP Call"),
                            Setting("sdpowner", "ParksSIP-MG")]
  const Head2: seq<Rec> := [Setting("disallow", "all"), Setting("srvlookup", "yes"), Setting("bindaddr", "0.0.0.0"),
                            Setting("engine", "comcerto")]

  function General1(c: Config): seq<Rec>
  {
    [Setting("useragent", "Parks-AMG"), Setting("bindport", PrintShort(c.bindport)),
     Setting("defaultexpiry", PrintShort(c.defaultexpiry))]
  }

  function General2(c: Config): seq<Rec>
  {
    [Setting("tcpenable", YesNo(c.tcpenable)), Setting("tcpbindaddr", "0.0.0.0"), Setting("jbenable", "yes")]
  }

  function General3(c: Config): seq<Rec>
  {
    [Setting("jbmaxsize", PrintShort(c.jb.maxsize)), Setting("jbimpl", if c.jb.impl != 0 then "adaptive" else "fixed")]
  }

  function Timers1(c: Config): seq<Rec>
  {
    If(c.t1min != 0, Setting("t1min", PrintShort(c.t1min)))
    + If(c.timert1 != 0, Setting("timert1", PrintShort(c.timert1)))
    + If(c.timerb != 0, Setting("timerb", PrintShort(c.timerb)))
  }

  function Timers2(c: Config): seq<Rec>
  {
    If(c.rtptimeout != 0, Setting("rtptimeout", PrintShort(c.rtptimeout)))
    + If(c.rtpholdtimeout != 0, Setting("rtpholdtimeout", PrintShort(c.rtpholdtimeout)))
    + If(c.rtpkeepalive != 0, Setting("rtpkeepalive", PrintShort(c.rtpkeepalive)))
  }

  function Session1(c: Config): seq<Rec>
  {
    [Setting("session-timers", c.sessionTimers)]
    + If(c.sessionExpires != 0, Setting("session-expires", PrintShort(c.sessionExpires)))
    + If(c.sessionMinse != 0, Setting("session-minse", PrintShort(c.sessionMinse)))
  }

  function Session2(c: Config): seq<Rec>
  {
    [Setting("session-refresher", c.sessionRefresher), Setting("autoframing", YesNo(c.autoframing))]
  }

  function Register1(c: Config): seq<Rec>
  {
    [Setting(";reg_username", c.registerUsername), Setting(";reg_secret", c.registerSecret),
     Setting(";reg_host", c.registerHost)]
  }

  predicate Registers(c: Config)
  {
    c.registerEnable != 0 && c.registerUsername != "" && c.registerSecret != "" && c.registerHost != ""
  }

  function RegisterLine(c: Config): string
  {
    ">" + c.account.transport + "://" + c.registerUsername + ":" + c.registerSecret + "@" + c.registerHost + ":"
    + PrintShort(c.account.port) + "/User1"
  }

  function Register2(c: Config): seq<Rec>
  {
    If(Registers(c), Setting("register", RegisterLine(c)))
  }

  const AccountHead: seq<Rec> := [Plain(""), Plain("[User1]"), Plain("#include sip_account_custom.conf"),
                                  Setting("type", "friend")]

  function Account1(a: Account): seq<Rec>
  {
    If(a.host != "", Setting("host", a.host)) + [Setting("port", PrintShort(a.port))]
    + If(a.username != "", Setting("username", a.username))
  }

  function Account2(a: Account): seq<Rec>
  {
    If(a.secret != "", Setting("secret", a.secret)) + [Setting("dtmfmode", a.dtmfmode)]
    + If(a.callerid != "", Setting("callerid", a.callerid))
  }

  function Account3(a: Account): seq<Rec>
  {
    If(a.fromuser != "", Setting("fromuser", a.fromuser))
    + [Setting("nat", YesNo(a.natOn)), Setting("qualify", YesNo(a.qualify))]
  }

  function Account4(a: Account): seq<Rec>
  {
    If(a.insecure != "", Setting("insecure", a.insecure)) + If(a.transport != "", Setting("transport", a.transport))
  }

  function CodecRec(code: int, intvl: int -> int): Rec
    requires IsCodec(code)
  {
    Setting("allow", CodecName(code) + ":" + PrintInt(intvl(code)))
  }

  /** The codes of a selection, without the gaps. */
  function Chosen(allow: seq<int>): (r: seq<int>)
    ensures |r| <= |allow| && forall i | 0 <= i < |r| :: r[i] > 0 && r[i] in allow
  {
    if allow == [] then [] else (if allow[0] > 0 then [allow[0]] else []) + Chosen(allow[1..])
  }

  function CodecRecs(codes: seq<int>, intvl: int -> int): seq<Rec>
    requires forall i | 0 <= i < |codes| :: IsCodec(codes[i])
  {
    if codes == [] then [] else [CodecRec(codes[0], intvl)] + CodecRecs(codes[1..], intvl)
  }

  predicate CodecsOk(c: Config)
  {
    |c.account.allow| == NUM_AVAILABLE_CODECS
    && forall i | 0 <= i < NUM_AVAILABLE_CODECS :: c.account.allow[i] > 0 ==> IsCodec(c.account.allow[i])
  }

  /** Everything before the codecs. */
  function FixedRecs(c: Config): seq<Rec>
  {
    GeneralRecs(c) + (SessionRecs(c) + AccountRecs(c.account))
  }

  function GeneralRecs(c: Config): seq<Rec>
  {
    Head1 + (Head2 + (General1(c) + (General2(c) + (General3(c) + (Timers1(c) + Timers2(c))))))
  }

  function SessionRecs(c: Config): seq<Rec>
  {
    Session1(c) + (Session2(c) + (Register1(c) + Register2(c)))
  }

  function AccountRecs(a: Account): seq<Rec>
  {
    AccountHead + (Account1(a) + (Account2(a) + (Account3(a) + Account4(a))))
  }

  /** The file that saving writes; `intvl` is libamg_comcerto_get_codec_packetization_interval. */
  function Save(conf: Config, intvl: int -> int): string
    requires CodecsOk(conf)
  {
    var c := Stripped(conf);
    RenderAll(FixedRecs(c)) + RenderAll(CodecRecs(Chosen(c.account.allow), intvl))
  }

  /** The loop that prints the allow lines. */
  method PrintCodecs(allow: seq<int>, intvl: int -> int) returns (text: string)
    requires forall i | 0 <= i < |allow| :: allow[i] > 0 ==> IsCodec(allow[i])
    ensures forall i | 0 <= i < |Chosen(allow)| :: IsCodec(Chosen(allow)[i])
    ensures text == RenderAll(CodecRecs(Chosen(allow), intvl))
  {
    hide Chosen, IsCodec, CodecRec, Render;
    text := "";
    ghost var done: seq<int> := [];
    assert allow[0..] == allow;
    for pos := 0 to |allow|
      invariant Chosen(allow) == done + Chosen(allow[pos..])
      invariant forall i | 0 <= i < |done| :: IsCodec(done[i])
      invariant text == RenderAll(CodecRecs(done, intvl))
    {
      ChosenStep(allow, pos);
      if allow[pos] <= 0 {
        continue;
      }
      CodecRecsSnoc(done, allow[pos], intvl);
      assert done + ([allow[pos]] + Chosen(allow[pos + 1..])) == done + [allow[pos]] + Chosen(allow[pos + 1..]);
      done := done + [allow[pos]];
      text := text + Render(CodecRec(allow[pos], intvl));
    }
    assert Chosen(allow[|allow|..]) == [] by { ChosenNone(); }
    assert done + [] == done;
  }

  lemma ChosenStep(allow: seq<int>, pos: nat)
    requires pos < |allow|
    ensures Chosen(allow[pos..]) == (if allow[pos] > 0 then [allow[pos]] else []) + Chosen(allow[pos + 1..])
  {
    assert allow[pos..][1..] == allow[pos + 1..];
  }

  lemma ChosenNone()
    ensures Chosen([]) == []
  {
  }

  /** libamg_sip_save_config: the file, and the caller's configuration with its strings stripped. */
  method SaveConfig(conf: Config, intvl: int -> int) returns (text: string, after: Config)
    requires CodecsOk(conf)
    ensures text == Save(conf, intvl) && after == Stripped(conf)
  {
    hide FixedRecs, RenderAll, CodecRecs, Chosen, IsCodec;
    after := Stripped(conf);
    var codecs := PrintCodecs(after.account.allow, intvl);
    text := RenderAll(FixedRecs(after)) + codecs;
  }

  lemma {:induction false} CodecRecsSnoc(codes: seq<int>, code: int, intvl: int -> int)
    requires IsCodec(code) && forall i | 0 <= i < |codes| :: IsCodec(codes[i])
    ensures forall i | 0 <= i < |codes + [code]| :: IsCodec((codes + [code])[i])
    ensures RenderAll(CodecRecs(codes + [code], intvl))
         == RenderAll(CodecRecs(codes, intvl)) + Render(CodecRec(code, intvl))
    decreases |codes|
  {
    hide CodecRec, Render;
    if codes == [] {
      assert (codes + [code])[1..] == [];
    } else {
      assert (codes + [code])[1..] == codes[1..] + [code];
      CodecRecsSnoc(codes[1..], code, intvl);
    }
  }
}
