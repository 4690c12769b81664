/** Saving a SIP configuration and parsing the file: an explicit normal form, reached in one round. */
module SipRoundTrip {
  import opened Text
  import opened Strings
  import opened Codecs
  import opened Sip

  // ----- Which line sets what ------------------------------------------------------------------------------

  lemma KeyBindport()
    ensures KeyOf("bindport") == Bindport && KeyOf("defaultexpiry") == Defaultexpiry && KeyOf("tcpenable") == Tcpenable
    ensures KeyOf("jbenable") == Jbenable && KeyOf("jbmaxsize") == Jbmaxsize && KeyOf("jbimpl") == Jbimpl
  {
  }

  lemma KeyT1min()
    ensures KeyOf("t1min") == T1min && KeyOf("timert1") == Timert1 && KeyOf("timerb") == Timerb
  {
  }

  lemma KeyRtptimeout()
    ensures KeyOf("rtptimeout") == Rtptimeout && KeyOf("rtpholdtimeout") == Rtpholdtimeout
  {
  }

  lemma KeyRtpkeepalive()
    ensures KeyOf("rtpkeepalive") == Rtpkeepalive && KeyOf("session-timers") == SessionTimers
  {
  }

  lemma KeySessionExpires()
    ensures KeyOf("session-expires") == SessionExpires && KeyOf("session-minse") == SessionMinse
  {
  }

  lemma KeySessionRefresher()
    ensures KeyOf("session-refresher") == SessionRefresher && KeyOf("register") == Register
  {
  }

  lemma KeyRegUsername()
    ensures KeyOf(";reg_username") == RegUsername && KeyOf(";reg_secret") == RegSecret
  {
  }

  lemma KeyRegHost()
    ensures KeyOf(";reg_host") == RegHost && KeyOf("host") == Host
  {
  }

  lemma KeyPort()
    ensures KeyOf("port") == Port && KeyOf("username") == Username
  {
  }

  lemma KeySecret()
    ensures KeyOf("secret") == Secret && KeyOf("dtmfmode") == Dtmfmode
  {
  }

  lemma KeyNat()
    ensures KeyOf("nat") == Nat && KeyOf("qualify") == Qualify
  {
  }

  lemma KeyInsecure()
    ensures KeyOf("insecure") == Insecure
  {
  }

  lemma KeyCallerid()
    ensures KeyOf("callerid") == Callerid
  {
  }

  lemma KeyFromuser()
    ensures KeyOf("fromuser") == Fromuser
  {
  }

  lemma KeyTransport()
    ensures KeyOf("transport") == Transport
  {
  }

  lemma KeyAllow()
    ensures KeyOf("allow") == Allow
  {
  }

  lemma KeyAutoframing()
    ensures KeyOf("autoframing") == Other
  {
  }

  lemma KeyType()
    ensures KeyOf("type") == Other
  {
  }

  lemma KeyContext()
    ensures KeyOf("context") == Other
  {
  }

  lemma KeySdpsession()
    ensures KeyOf("sdpsession") == Other
  {
  }

  lemma KeySdpowner()
    ensures KeyOf("sdpowner") == Other
  {
  }

  lemma KeyDisallow()
    ensures KeyOf("disallow") == Other
  {
  }

  lemma KeySrvlookup()
    ensures KeyOf("srvlookup") == Other
  {
  }

  lemma KeyBindaddr()
    ensures KeyOf("bindaddr") == Other
  {
  }

  lemma KeyEngine()
    ensures KeyOf("engine") == Other
  {
  }

  lemma KeyUseragent()
    ensures KeyOf("useragent") == Other
  {
  }

  lemma KeyTcpbindaddr()
    ensures KeyOf("tcpbindaddr") == Other
  {
  }

  // ----- What the printed values read as -------------------------------------------------------------------

  function Seen(v: string): string
  {
    Reread(v, DELIMS)
  }

  lemma SeenShort(n: int)
    ensures Atoi(Seen(PrintShort(n))) == Short(n) && Body(PrintShort(n)) == PrintShort(n)
    ensures '\n' !in PrintShort(n) && |PrintShort(n)| <= 6
  {
    hide PrintInt, Atoi, Reread, Body, Short;
    RereadInt(Short(n), DELIMS);
    PrintLength(Short(n));
  }

  lemma SeenPort(n: uint16)
    ensures Short(n) % 0x1_0000 == n
  {
  }

  lemma SeenYesNo(n: int)
    ensures Seen(YesNo(n)) == YesNo(n) && Body(YesNo(n)) == YesNo(n) && '\n' !in YesNo(n)
    ensures Flag(YesNo(n), "yes") == if n != 0 then 1 else 0
  {
    hide Reread, Body;
    RereadToken(YesNo(n), DELIMS);
  }

  lemma SeenImpl(n: int)
    ensures var v := if n != 0 then "adaptive" else "fixed";
      Seen(v) == v && Body(v) == v && '\n' !in v && Flag(v, "adaptive") == if n != 0 then 1 else 0
  {
    hide Reread, Body;
    var v := if n != 0 then "adaptive" else "fixed";
    assert Token(v, DELIMS);
    RereadToken(v, DELIMS);
  }

  // ----- What each group of records does --------------------------------------------------------------------

  lemma DoHead(st: State)
    ensures ApplyRecs(Set, DELIMS, st, Head1) == st && ApplyRecs(Set, DELIMS, st, Head2) == st
  {
    hide KeyOf, Reread;
    KeyContext();
    KeySdpsession();
    KeySdpowner();
    KeyDisallow();
    KeySrvlookup();
    KeyBindaddr();
    KeyEngine();
    ApplyFour(Set, DELIMS, st, Head1[0], Head1[1], Head1[2], Head1[3]);
    ApplyFour(Set, DELIMS, st, Head2[0], Head2[1], Head2[2], Head2[3]);
    assert Head1 == [Head1[0], Head1[1], Head1[2], Head1[3]];
    assert Head2 == [Head2[0], Head2[1], Head2[2], Head2[3]];
  }

  lemma DoGeneral1(st: State, c: Config)
    ensures ApplyRecs(Set, DELIMS, st, General1(c))
         == st.(conf := st.conf.(bindport := c.bindport, defaultexpiry := Short(c.defaultexpiry)))
  {
    hide KeyOf, Reread, PrintShort, Atoi, Short;
    KeyUseragent();
    KeyBindport();
    SeenShort(c.bindport);
    SeenPort(c.bindport);
    SeenShort(c.defaultexpiry);
    var g := General1(c);
    ApplyThree(Set, DELIMS, st, g[0], g[1], g[2]);
  }

  /** The settings that are flags, and one that is none. */
  lemma SetFlags(c: Config, v: string)
    ensures SetConfig(c, Tcpenable, v) == c.(tcpenable := Flag(v, "yes")) && SetConfig(c, Other, v) == c
    ensures SetConfig(c, Jbenable, v) == c.(jb := c.jb.(enable := Flag(v, "yes")))
  {
    hide Flag, SetAccount, Copy, Atoi, StripLf;
    assert SetAccount(c.account, Other, v) == c.account by { AccountFlags(c.account, v); }
  }

  lemma AccountFlags(a: Account, v: string)
    ensures SetAccount(a, Nat, v) == a.(natOn := Flag(v, "yes"))
    ensures SetAccount(a, Qualify, v) == a.(qualify := Flag(v, "yes")) && SetAccount(a, Other, v) == a
  {
    hide Flag, Copy, Atoi, StripLf;
  }

  lemma ThreeTcp(st: State, c: Config, k1: string, k2: string, addr: string, k3: string, yes: string)
    requires KeyOf(k1) == Tcpenable && KeyOf(k2) == Other && KeyOf(k3) == Jbenable && yes == YesNo(1)
    ensures ApplyRecs(Set, DELIMS, st, [Setting(k1, YesNo(c.tcpenable)), Setting(k2, addr), Setting(k3, yes)])
         == st.(conf := st.conf.(tcpenable := if c.tcpenable != 0 then 1 else 0, jb := st.conf.jb.(enable := 1)))
  {
    hide KeyOf, Seen, YesNo, Flag, ApplyRec, ApplyRecs, Set, SetConfig;
    SeenYesNo(c.tcpenable);
    SeenYesNo(1);
    SetFlags(st.conf, YesNo(c.tcpenable));
    ApplyThree(Set, DELIMS, st, Setting(k1, YesNo(c.tcpenable)), Setting(k2, addr), Setting(k3, yes));
    DoKey(st, k1, YesNo(c.tcpenable), Tcpenable);
    var st1 := st.(conf := st.conf.(tcpenable := if c.tcpenable != 0 then 1 else 0));
    DoKey(st1, k2, addr, Other);
    SetFlags(st1.conf, Seen(addr));
    DoKey(st1, k3, yes, Jbenable);
    SetFlags(st1.conf, yes);
  }

  lemma DoGeneral2(st: State, c: Config)
    ensures ApplyRecs(Set, DELIMS, st, General2(c))
         == st.(conf := st.conf.(tcpenable := if c.tcpenable != 0 then 1 else 0, jb := st.conf.jb.(enable := 1)))
  {
    hide KeyOf, YesNo, ApplyRecs, SetConfig;
    KeyBindport();
    KeyTcpbindaddr();
    YesIsYes();
    ThreeTcp(st, c, "tcpenable", "tcpbindaddr", "0.0.0.0", "jbenable", "yes");
  }

  lemma YesIsYes()
    ensures YesNo(1) == "yes"
  {
  }

  lemma DoGeneral3(st: State, c: Config)
    ensures ApplyRecs(Set, DELIMS, st, General3(c))
         == st.(conf := st.conf.(jb := st.conf.jb.(maxsize := Short(c.jb.maxsize),
                                                   impl := if c.jb.impl != 0 then 1 else 0)))
  {
    hide KeyOf, Reread, PrintShort, Atoi, Short, Flag;
    KeyBindport();
    SeenShort(c.jb.maxsize);
    SeenImpl(c.jb.impl);
    var g := General3(c);
    ApplyTwo(Set, DELIMS, st, g[0], g[1]);
  }

  /** Three groups in a row. */
  lemma ApplyParts(st: State, a: seq<Rec>, b: seq<Rec>, d: seq<Rec>)
    ensures ApplyRecs(Set, DELIMS, st, a + b + d)
         == ApplyRecs(Set, DELIMS, ApplyRecs(Set, DELIMS, ApplyRecs(Set, DELIMS, st, a), b), d)
  {
    hide ApplyRecs;
    ApplyAppend(Set, DELIMS, st, a + b, d);
    ApplyAppend(Set, DELIMS, st, a, b);
  }

  /** A number that is printed only when it is not zero reads as its short either way. */
  lemma DoNumber(st: State, key: string, n: int)
    ensures ApplyRecs(Set, DELIMS, st, If(n != 0, Setting(key, PrintShort(n))))
         == if n != 0 then Set(st, key, Seen(PrintShort(n))) else st
  {
    hide Set;
    ApplyIf(Set, DELIMS, st, n != 0, Setting(key, PrintShort(n)));
  }

  lemma DoTimers1(st: State, c: Config)
    requires st.conf.t1min == st.conf.timert1 == st.conf.timerb == 0
    ensures ApplyRecs(Set, DELIMS, st, Timers1(c))
         == st.(conf := st.conf.(t1min := Short(c.t1min), timert1 := Short(c.timert1), timerb := Short(c.timerb)))
  {
    hide KeyOf, Reread, PrintShort, Atoi, Short, ApplyRecs;
    KeyT1min();
    SeenShort(c.t1min);
    SeenShort(c.timert1);
    SeenShort(c.timerb);
    ShortZero();
    ApplyParts(st, If(c.t1min != 0, Setting("t1min", PrintShort(c.t1min))),
               If(c.timert1 != 0, Setting("timert1", PrintShort(c.timert1))),
               If(c.timerb != 0, Setting("timerb", PrintShort(c.timerb))));
    DoNumber(st, "t1min", c.t1min);
    var st1 := st.(conf := st.conf.(t1min := Short(c.t1min)));
    DoNumber(st1, "timert1", c.timert1);
    var st2 := st1.(conf := st1.conf.(timert1 := Short(c.timert1)));
    DoNumber(st2, "timerb", c.timerb);
  }

  lemma ShortZero()
    ensures Short(0) == 0
  {
  }

  lemma DoTimers2(st: State, c: Config)
    requires st.conf.rtptimeout == st.conf.rtpholdtimeout == st.conf.rtpkeepalive == 0
    ensures ApplyRecs(Set, DELIMS, st, Timers2(c))
         == st.(conf := st.conf.(rtptimeout := Short(c.rtptimeout), rtpholdtimeout := Short(c.rtpholdtimeout),
                                 rtpkeepalive := Short(c.rtpkeepalive)))
  {
    hide KeyOf, Reread, PrintShort, Atoi, Short, ApplyRecs;
    KeyRtptimeout();
    KeyRtpkeepalive();
    SeenShort(c.rtptimeout);
    SeenShort(c.rtpholdtimeout);
    SeenShort(c.rtpkeepalive);
    ShortZero();
    ApplyParts(st, If(c.rtptimeout != 0, Setting("rtptimeout", PrintShort(c.rtptimeout))),
      If(c.rtpholdtimeout != 0, Setting("rtpholdtimeout", PrintShort(c.rtpholdtimeout))),
      If(c.rtpkeepalive != 0, Setting("rtpkeepalive", PrintShort(c.rtpkeepalive))));
    DoNumber(st, "rtptimeout", c.rtptimeout);
    var st1 := st.(conf := st.conf.(rtptimeout := Short(c.rtptimeout)));
    DoNumber(st1, "rtpholdtimeout", c.rtpholdtimeout);
    var st2 := st1.(conf := st1.conf.(rtpholdtimeout := Short(c.rtpholdtimeout)));
    DoNumber(st2, "rtpkeepalive", c.rtpkeepalive);
  }

  /** Where the two session numbers really go. */
  function Expiry(c: Config, default: int): int
  {
    if c.sessionMinse != 0 then Short(c.sessionMinse)
    else if c.sessionExpires != 0 then Short(c.sessionExpires)
    else default
  }

  lemma SetByKey(st: State, key: string, v: string, k: Key)
    requires KeyOf(key) == k != Allow
    ensures Set(st, key, v) == st.(conf := SetConfig(st.conf, k, v))
  {
    hide KeyOf, SetConfig;
  }

  /** The settings of a session. */
  lemma SetSession(c: Config, v: string)
    ensures SetConfig(c, SessionTimers, v) == c.(sessionTimers := Copy(v, 16))
    ensures SetConfig(c, SessionExpires, v) == SetConfig(c, SessionMinse, v) == c.(defaultexpiry := Atoi(v))
    ensures SetConfig(c, SessionRefresher, v) == c.(sessionRefresher := Copy(v, 8))
  {
    hide Atoi, Copy, SetAccount;
  }

  lemma SetRegister(c: Config, v: string)
    ensures SetConfig(c, RegUsername, v) == c.(registerUsername := Copy(v, 63))
    ensures SetConfig(c, RegSecret, v) == c.(registerSecret := Copy(v, 63))
    ensures SetConfig(c, RegHost, v) == c.(registerHost := Copy(v, 63))
  {
    hide Atoi, Copy, SetAccount;
  }

  lemma DoSession1(st: State, c: Config)
    ensures ApplyRecs(Set, DELIMS, st, Session1(c))
         == st.(conf := st.conf.(sessionTimers := Copy(Seen(c.sessionTimers), 16),
                                 defaultexpiry := Expiry(c, st.conf.defaultexpiry)))
  {
    hide KeyOf, Seen, PrintShort, Atoi, Short, Copy, Set, SetConfig, ApplyRec, ApplyRecs, If;
    KeyRtpkeepalive();
    KeySessionExpires();
    SeenShort(c.sessionExpires);
    SeenShort(c.sessionMinse);
    var first := Setting("session-timers", c.sessionTimers);
    var second := If(c.sessionExpires != 0, Setting("session-expires", PrintShort(c.sessionExpires)));
    ApplyParts(st, [first], second, If(c.sessionMinse != 0, Setting("session-minse", PrintShort(c.sessionMinse))));
    ApplyIf(Set, DELIMS, st, true, first);
    assert If(true, first) == [first] by { IfTrue(first); }
    DoKey(st, "session-timers", c.sessionTimers, SessionTimers);
    SetSession(st.conf, Seen(c.sessionTimers));
    var st1 := ApplyRecs(Set, DELIMS, st, [first]);
    DoExpiry(st1, "session-expires", c.sessionExpires, SessionExpires);
    DoExpiry(ApplyRecs(Set, DELIMS, st1, second), "session-minse", c.sessionMinse, SessionMinse);
  }

  lemma IfTrue(r: Rec)
    ensures If(true, r) == [r]
  {
  }

  lemma DoExpiry(st: State, key: string, n: int, k: Key)
    requires KeyOf(key) == k && (k == SessionExpires || k == SessionMinse)
    ensures ApplyRecs(Set, DELIMS, st, If(n != 0, Setting(key, PrintShort(n))))
         == if n != 0 then st.(conf := st.conf.(defaultexpiry := Short(n))) else st
  {
    hide KeyOf, Seen, PrintShort, Atoi, Short, Set, SetConfig, ApplyRecs, If;
    DoNumber(st, key, n);
    SetByKey(st, key, Seen(PrintShort(n)), k);
    SetSession(st.conf, Seen(PrintShort(n)));
    SeenShort(n);
  }

  lemma DoSession2(st: State, c: Config)
    ensures ApplyRecs(Set, DELIMS, st, Session2(c))
         == st.(conf := st.conf.(sessionRefresher := Copy(Seen(c.sessionRefresher), 8)))
  {
    hide KeyOf, Seen, Copy, YesNo, Set, SetConfig, ApplyRec, ApplyRecs;
    KeySessionRefresher();
    KeyAutoframing();
    var g := Session2(c);
    ApplyTwo(Set, DELIMS, st, g[0], g[1]);
    DoKey(st, "session-refresher", c.sessionRefresher, SessionRefresher);
    SetSession(st.conf, Seen(c.sessionRefresher));
    var st1 := st.(conf := st.conf.(sessionRefresher := Copy(Seen(c.sessionRefresher), 8)));
    DoKey(st1, "autoframing", YesNo(c.autoframing), Other);
    SetFlags(st1.conf, Seen(YesNo(c.autoframing)));
  }

  lemma DoRegister1(st: State, c: Config)
    ensures ApplyRecs(Set, DELIMS, st, Register1(c))
         == st.(conf := st.conf.(registerUsername := Copy(Seen(c.registerUsername), 63),
                                 registerSecret := Copy(Seen(c.registerSecret), 63),
                                 registerHost := Copy(Seen(c.registerHost), 63)))
  {
    hide KeyOf, Seen, Copy, Set, SetConfig, ApplyRec, ApplyRecs;
    KeyRegUsername();
    KeyRegHost();
    var g := Register1(c);
    ApplyThree(Set, DELIMS, st, g[0], g[1], g[2]);
    DoKey(st, ";reg_username", c.registerUsername, RegUsername);
    SetRegister(st.conf, Seen(c.registerUsername));
    var st1 := st.(conf := st.conf.(registerUsername := Copy(Seen(c.registerUsername), 63)));
    DoKey(st1, ";reg_secret", c.registerSecret, RegSecret);
    SetRegister(st1.conf, Seen(c.registerSecret));
    var st2 := st1.(conf := st1.conf.(registerSecret := Copy(Seen(c.registerSecret), 63)));
    DoKey(st2, ";reg_host", c.registerHost, RegHost);
    SetRegister(st2.conf, Seen(c.registerHost));
  }

  lemma DoRegister2(st: State, c: Config)
    requires st.conf.registerEnable == 0
    ensures ApplyRecs(Set, DELIMS, st, Register2(c))
         == st.(conf := st.conf.(registerEnable := if Registers(c) then 1 else 0))
  {
    hide KeyOf, Reread, RegisterLine;
    KeySessionRefresher();
    ApplyIf(Set, DELIMS, st, Registers(c), Setting("register", RegisterLine(c)));
  }

  lemma DoAccountHead(st: State)
    ensures ApplyRecs(Set, DELIMS, st, AccountHead) == st
  {
    hide KeyOf, Reread;
    KeyType();
    ApplyFour(Set, DELIMS, st, AccountHead[0], AccountHead[1], AccountHead[2], AccountHead[3]);
    assert AccountHead == [AccountHead[0], AccountHead[1], AccountHead[2], AccountHead[3]];
  }

  /** A string that is printed only when it is not empty. */
  function Kept(v: string, n: nat): string
  {
    if v == "" then "" else Copy(Seen(v), n)
  }

  /** An optional, a fixed and another optional record. */
  lemma ApplySandwich(st: State, b1: bool, r1: Rec, r2: Rec, b3: bool, r3: Rec)
    ensures var st1 := if b1 then ApplyRec(Set, DELIMS, st, r1) else st;
      var st2 := ApplyRec(Set, DELIMS, st1, r2);
      ApplyRecs(Set, DELIMS, st, If(b1, r1) + [r2] + If(b3, r3)) == if b3 then ApplyRec(Set, DELIMS, st2, r3) else st2
  {
    hide ApplyRec;
    ApplyParts(st, If(b1, r1), [r2], If(b3, r3));
    ApplyIf(Set, DELIMS, st, b1, r1);
    var st1 := if b1 then ApplyRec(Set, DELIMS, st, r1) else st;
    ApplyIf(Set, DELIMS, st1, true, r2);
    ApplyIf(Set, DELIMS, ApplyRec(Set, DELIMS, st1, r2), b3, r3);
  }

  /** A printed setting whose key belongs to the account. */
  lemma DoKey(st: State, key: string, v: string, k: Key)
    requires KeyOf(key) == k != Allow
    ensures ApplyRec(Set, DELIMS, st, Setting(key, v)) == st.(conf := SetConfig(st.conf, k, Seen(v)))
  {
    hide KeyOf, SetConfig, Reread;
  }

  predicate AccountKey(k: Key)
  {
    k == Host || k == Port || k == Username || k == Secret || k == Dtmfmode || k == Insecure || k == Callerid
    || k == Transport
  }

  lemma InAccount(c: Config, k: Key, v: string)
    requires AccountKey(k)
    ensures SetConfig(c, k, v) == c.(account := SetAccount(c.account, k, v))
  {
    hide SetAccount;
  }

  lemma AccountLogin(a: Account, v: string)
    ensures SetAccount(a, Host, v) == a.(host := Copy(v, 63))
    ensures SetAccount(a, Port, v) == a.(port := Atoi(v) % 0x1_0000)
    ensures SetAccount(a, Username, v) == a.(username := Copy(v, 63))
    ensures SetAccount(a, Secret, v) == a.(secret := Copy(v, 63))
  {
    hide Copy, Atoi, StripLf, Flag;
  }

  lemma AccountModes(a: Account, v: string)
    ensures SetAccount(a, Dtmfmode, v) == a.(dtmfmode := Copy(v, 31))
    ensures SetAccount(a, Insecure, v) == a.(insecure := Copy(v, 31))
    ensures SetAccount(a, Callerid, v) == a.(callerid := Copy(v, 63))
    ensures SetAccount(a, Transport, v) == a.(transport := Copy(v, 7))
  {
    hide Copy, Atoi, StripLf, Flag;
  }

  /** A printed setting of the account. */
  lemma DoAccountKey(st: State, key: string, v: string, k: Key)
    requires KeyOf(key) == k && AccountKey(k)
    ensures ApplyRec(Set, DELIMS, st, Setting(key, v))
         == st.(conf := st.conf.(account := SetAccount(st.conf.account, k, Seen(v))))
  {
    hide KeyOf, SetAccount, SetConfig, Seen, Set, ApplyRec;
    DoKey(st, key, v, k);
    InAccount(st.conf, k, Seen(v));
  }

  lemma DoAccount1(st: State, a: Account)
    requires st.conf.account.host == st.conf.account.username == ""
    ensures ApplyRecs(Set, DELIMS, st, Account1(a))
         == st.(conf := st.conf.(account := st.conf.account.(host := Kept(a.host, 63), port := a.port,
                                                             username := Kept(a.username, 63))))
  {
    hide KeyOf, Seen, PrintShort, Atoi, Short, Copy, ApplyRec, ApplyRecs, Set, SetAccount;
    KeyRegHost();
    KeyPort();
    SeenShort(a.port);
    SeenPort(a.port);
    ApplySandwich(st, a.host != "", Setting("host", a.host), Setting("port", PrintShort(a.port)),
                  a.username != "", Setting("username", a.username));
    DoAccountKey(st, "host", a.host, Host);
    AccountLogin(st.conf.account, Seen(a.host));
    var st1 := st.(conf := st.conf.(account := st.conf.account.(host := Kept(a.host, 63))));
    DoAccountKey(st1, "port", PrintShort(a.port), Port);
    AccountLogin(st1.conf.account, Seen(PrintShort(a.port)));
    var st2 := st1.(conf := st1.conf.(account := st1.conf.account.(port := a.port)));
    DoAccountKey(st2, "username", a.username, Username);
    AccountLogin(st2.conf.account, Seen(a.username));
  }

  lemma DoAccount2(st: State, a: Account)
    requires st.conf.account.secret == st.conf.account.callerid == ""
    ensures ApplyRecs(Set, DELIMS, st, Account2(a))
         == st.(conf := st.conf.(account := st.conf.account.(secret := Kept(a.secret, 63),
                                                             dtmfmode := Copy(Seen(a.dtmfmode), 31),
                                                             callerid := Kept(a.callerid, 63))))
  {
    hide KeyOf, Seen, Copy, ApplyRec, ApplyRecs, Set, SetAccount;
    KeySecret();
    KeyCallerid();
    ApplySandwich(st, a.secret != "", Setting("secret", a.secret), Setting("dtmfmode", a.dtmfmode),
                  a.callerid != "", Setting("callerid", a.callerid));
    DoAccountKey(st, "secret", a.secret, Secret);
    AccountLogin(st.conf.account, Seen(a.secret));
    var st1 := st.(conf := st.conf.(account := st.conf.account.(secret := Kept(a.secret, 63))));
    DoAccountKey(st1, "dtmfmode", a.dtmfmode, Dtmfmode);
    AccountModes(st1.conf.account, Seen(a.dtmfmode));
    var st2 := st1.(conf := st1.conf.(account := st1.conf.account.(dtmfmode := Copy(Seen(a.dtmfmode), 31))));
    DoAccountKey(st2, "callerid", a.callerid, Callerid);
    AccountModes(st2.conf.account, Seen(a.callerid));
  }

  lemma TwoFlags(st: State, k1: string, nat1: int, k2: string, qualify: int)
    requires KeyOf(k1) == Nat && KeyOf(k2) == Qualify
    ensures ApplyRecs(Set, DELIMS, st, [Setting(k1, YesNo(nat1)), Setting(k2, YesNo(qualify))])
         == st.(conf := st.conf.(account := st.conf.account.(
              natOn := if nat1 != 0 then 1 else 0, qualify := if qualify != 0 then 1 else 0)))
  {
    hide KeyOf, Seen, YesNo, Flag, ApplyRec, ApplyRecs, Set, SetAccount;
    SeenYesNo(nat1);
    SeenYesNo(qualify);
    AccountFlags(st.conf.account, YesNo(nat1));
    ApplyTwo(Set, DELIMS, st, Setting(k1, YesNo(nat1)), Setting(k2, YesNo(qualify)));
    DoKey(st, k1, YesNo(nat1), Nat);
    var st1 := st.(conf := st.conf.(account := st.conf.account.(natOn := if nat1 != 0 then 1 else 0)));
    DoKey(st1, k2, YesNo(qualify), Qualify);
    AccountFlags(st1.conf.account, YesNo(qualify));
  }

  lemma DoNatQualify(st: State, nat1: int, qualify: int)
    ensures ApplyRecs(Set, DELIMS, st, [Setting("nat", YesNo(nat1)), Setting("qualify", YesNo(qualify))])
         == st.(conf := st.conf.(account := st.conf.account.(
              natOn := if nat1 != 0 then 1 else 0, qualify := if qualify != 0 then 1 else 0)))
  {
    hide KeyOf, YesNo, ApplyRecs, SetConfig;
    KeyNat();
    TwoFlags(st, "nat", nat1, "qualify", qualify);
  }

  lemma DoAccount3(st: State, a: Account)
    requires st.conf.account.fromuser == ""
    ensures ApplyRecs(Set, DELIMS, st, Account3(a))
         == st.(conf := st.conf.(account := st.conf.account.(
              fromuser := if a.fromuser == "" then "" else Copy(StripLf(Seen(a.fromuser)), 63),
              natOn := if a.natOn != 0 then 1 else 0, qualify := if a.qualify != 0 then 1 else 0)))
  {
    hide KeyOf, Seen, Copy, YesNo, Flag, StripLf, ApplyRec, ApplyRecs, Set;
    KeyFromuser();
    var first := Setting("fromuser", a.fromuser);
    ApplyAppend(Set, DELIMS, st, If(a.fromuser != "", first),
                [Setting("nat", YesNo(a.natOn)), Setting("qualify", YesNo(a.qualify))]);
    ApplyIf(Set, DELIMS, st, a.fromuser != "", first);
    DoKey(st, "fromuser", a.fromuser, Fromuser);
    DoNatQualify(ApplyRecs(Set, DELIMS, st, If(a.fromuser != "", first)), a.natOn, a.qualify);
  }

  lemma DoAccount4(st: State, a: Account)
    requires st.conf.account.insecure == st.conf.account.transport == ""
    ensures ApplyRecs(Set, DELIMS, st, Account4(a))
         == st.(conf := st.conf.(account := st.conf.account.(insecure := Kept(a.insecure, 31),
                                                             transport := Kept(a.transport, 7))))
  {
    hide KeyOf, Reread, Copy;
    KeyInsecure();
    KeyTransport();
    var first, second := Setting("insecure", a.insecure), Setting("transport", a.transport);
    ApplyAppend(Set, DELIMS, st, If(a.insecure != "", first), If(a.transport != "", second));
    ApplyIf(Set, DELIMS, st, a.insecure != "", first);
    var st1 := ApplyRecs(Set, DELIMS, st, If(a.insecure != "", first));
    ApplyIf(Set, DELIMS, st1, a.transport != "", second);
  }

  /** The allow lines fill the next places in order. */
  lemma {:induction false} DoCodecs(st: State, codes: seq<int>, intvl: int -> int)
    requires forall i | 0 <= i < |codes| :: IsCodec(codes[i])
    requires |st.conf.account.allow| == NUM_AVAILABLE_CODECS && st.pos + |codes| <= NUM_AVAILABLE_CODECS
    ensures ApplyRecs(Set, DELIMS, st, CodecRecs(codes, intvl))
         == State(st.conf.(account := st.conf.account.(allow := Placed(st.conf.account.allow, st.pos, codes))),
                  st.pos + |codes|)
    decreases |codes|
  {
    hide KeyOf, CodecCode, CodecName, IsCodec, CodecRec;
    var allow := st.conf.account.allow;
    if codes == [] {
      assert Placed(allow, st.pos, codes) == allow;
    } else {
      hide ApplyRec;
      DoCodec(st, codes[0], intvl);
      DoCodecs(AddCodec(st, codes[0]), codes[1..], intvl);
      PlacedNext(allow, st.pos, codes);
    }
  }

  lemma PlacedNext(allow: seq<int>, pos: nat, codes: seq<int>)
    requires codes != [] && pos + |codes| <= |allow|
    ensures Placed(allow[pos := codes[0]], pos + 1, codes[1..]) == Placed(allow, pos, codes)
  {
  }

  function Placed(allow: seq<int>, pos: nat, codes: seq<int>): seq<int>
    requires pos + |codes| <= |allow|
  {
    allow[..pos] + codes + allow[pos + |codes|..]
  }

  lemma DoCodec(st: State, code: int, intvl: int -> int)
    requires IsCodec(code)
    ensures ApplyRec(Set, DELIMS, st, CodecRec(code, intvl)) == AddCodec(st, code)
  {
    hide CodecCode, CodecName, PrintInt, Reread, Body;
    SeenCodec(code, intvl(code));
    KeyAllow();
    hide KeyOf;
    NameFindsCode(code, PrintInt(intvl(code)));
  }

  lemma SeenCodec(code: int, n: int)
    requires IsCodec(code)
    ensures var v := CodecName(code) + ":" + PrintInt(n);
      Seen(v) == v && Body(v) == v && '\n' !in v
  {
    hide PrintInt, Reread, Body, IsCodec;
    var v := CodecName(code) + ":" + PrintInt(n);
    PrintedIsToken(n, DELIMS);
    NameIsToken(code);
    assert Token(v, DELIMS);
    RereadToken(v, DELIMS);
  }

  lemma NameIsToken(code: int)
    requires IsCodec(code)
    ensures Token(CodecName(code), DELIMS)
  {
    var name := CodecName(code);
    assert name[0] !in DELIMS && name[1] !in DELIMS && name[2] !in DELIMS;
    assert |name| > 3 ==> name[3] !in DELIMS;
    assert |name| > 4 ==> name[4] !in DELIMS && name[5] !in DELIMS && name[6] !in DELIMS;
  }

  // ----- The normal form -------------------------------------------------------------------------------------

  /** What parsing gives back after saving `conf`. */
  function NormalForm(conf: Config): Config
  {
    var c := Stripped(conf);
    Config(
      c.bindport, if c.tcpenable != 0 then 1 else 0, Short(c.t1min), Short(c.timert1), Short(c.timerb),
      Short(c.rtptimeout), Short(c.rtpholdtimeout), Short(c.rtpkeepalive), Copy(Seen(c.sessionTimers), 16), 0, 0,
      Copy(Seen(c.sessionRefresher), 8), Expiry(c, Short(c.defaultexpiry)), if Registers(c) then 1 else 0, 0,
      Jb(1, Short(c.jb.maxsize), if c.jb.impl != 0 then 1 else 0, 0, 0, 0, 0),
      Copy(Seen(c.registerUsername), 63), Copy(Seen(c.registerSecret), 63), Copy(Seen(c.registerHost), 63),
      NormalAccount(c.account))
  }

  function NormalAccount(a: Account): Account
  {
    Account(
      if a.natOn != 0 then 1 else 0, if a.qualify != 0 then 1 else 0, Kept(a.callerid, 63),
      if a.fromuser == "" then "" else Copy(StripLf(Seen(a.fromuser)), 63), Kept(a.insecure, 31),
      Kept(a.username, 63), Kept(a.secret, 63), Kept(a.host, 63), Kept(a.transport, 7), a.port,
      Copy(Seen(a.dtmfmode), 31), CloseUp(a.allow))
  }

  /** The chosen codecs without the gaps, then zeros. */
  function CloseUp(allow: seq<int>): (r: seq<int>)
    ensures |r| == |allow|
  {
    Chosen(allow) + seq(|allow| - |Chosen(allow)|, _ => 0)
  }

  lemma DoGeneral(st: State, c: Config)
    requires st == State(Zero, 0)
    ensures ApplyRecs(Set, DELIMS, st, GeneralRecs(c))
         == State(Zero.(bindport := c.bindport, defaultexpiry := Short(c.defaultexpiry),
                        tcpenable := if c.tcpenable != 0 then 1 else 0,
                        jb := Jb(1, Short(c.jb.maxsize), if c.jb.impl != 0 then 1 else 0, 0, 0, 0, 0),
                        t1min := Short(c.t1min), timert1 := Short(c.timert1), timerb := Short(c.timerb),
                        rtptimeout := Short(c.rtptimeout), rtpholdtimeout := Short(c.rtpholdtimeout),
                        rtpkeepalive := Short(c.rtpkeepalive)), 0)
  {
    hide ApplyRecs, General1, General2, General3, Timers1, Timers2, Short;
    DoHead(st);
    DoGeneral1(st, c);
    var st1 := ApplyRecs(Set, DELIMS, st, General1(c));
    DoGeneral2(st1, c);
    var st2 := ApplyRecs(Set, DELIMS, st1, General2(c));
    DoGeneral3(st2, c);
    var st3 := ApplyRecs(Set, DELIMS, st2, General3(c));
    DoTimers1(st3, c);
    var st4 := ApplyRecs(Set, DELIMS, st3, Timers1(c));
    DoTimers2(st4, c);
    ApplyAppend(Set, DELIMS, st3, Timers1(c), Timers2(c));
    ApplyAppend(Set, DELIMS, st2, General3(c), Timers1(c) + Timers2(c));
    ApplyAppend(Set, DELIMS, st1, General2(c), General3(c) + (Timers1(c) + Timers2(c)));
    var tail := General2(c) + (General3(c) + (Timers1(c) + Timers2(c)));
    ApplyAppend(Set, DELIMS, st, General1(c), tail);
    ApplyAppend(Set, DELIMS, st, Head2, General1(c) + tail);
    ApplyAppend(Set, DELIMS, st, Head1, Head2 + (General1(c) + tail));
  }

  lemma DoSession(st: State, c: Config)
    requires st.conf.registerEnable == 0
    ensures ApplyRecs(Set, DELIMS, st, SessionRecs(c))
         == st.(conf := st.conf.(sessionTimers := Copy(Seen(c.sessionTimers), 16),
                                 defaultexpiry := Expiry(c, st.conf.defaultexpiry),
                                 sessionRefresher := Copy(Seen(c.sessionRefresher), 8),
                                 registerUsername := Copy(Seen(c.registerUsername), 63),
                                 registerSecret := Copy(Seen(c.registerSecret), 63),
                                 registerHost := Copy(Seen(c.registerHost), 63),
                                 registerEnable := if Registers(c) then 1 else 0))
  {
    hide ApplyRecs, Session1, Session2, Register1, Register2, Copy, Seen, Registers, Expiry;
    DoSession1(st, c);
    var st1 := ApplyRecs(Set, DELIMS, st, Session1(c));
    DoSession2(st1, c);
    var st2 := ApplyRecs(Set, DELIMS, st1, Session2(c));
    DoRegister1(st2, c);
    var st3 := ApplyRecs(Set, DELIMS, st2, Register1(c));
    DoRegister2(st3, c);
    ApplyAppend(Set, DELIMS, st2, Register1(c), Register2(c));
    ApplyAppend(Set, DELIMS, st1, Session2(c), Register1(c) + Register2(c));
    ApplyAppend(Set, DELIMS, st, Session1(c), Session2(c) + (Register1(c) + Register2(c)));
  }

  lemma DoAccount(st: State, a: Account)
    requires st.conf.account == Zero.account
    ensures ApplyRecs(Set, DELIMS, st, AccountRecs(a))
         == st.(conf := st.conf.(account := NormalAccount(a).(allow := NoCodecs)))
  {
    hide ApplyRecs, Account1, Account2, Account3, Account4, Copy, Seen, Kept, StripLf, CloseUp;
    DoAccountHead(st);
    DoAccount1(st, a);
    var st1 := ApplyRecs(Set, DELIMS, st, Account1(a));
    DoAccount2(st1, a);
    var st2 := ApplyRecs(Set, DELIMS, st1, Account2(a));
    DoAccount3(st2, a);
    var st3 := ApplyRecs(Set, DELIMS, st2, Account3(a));
    DoAccount4(st3, a);
    ApplyAppend(Set, DELIMS, st2, Account3(a), Account4(a));
    ApplyAppend(Set, DELIMS, st1, Account2(a), Account3(a) + Account4(a));
    var tail := Account2(a) + (Account3(a) + Account4(a));
    ApplyAppend(Set, DELIMS, st, Account1(a), tail);
    ApplyAppend(Set, DELIMS, st, AccountHead, Account1(a) + tail);
  }

  lemma DoAll(conf: Config, intvl: int -> int)
    requires CodecsOk(conf)
    ensures var c := Stripped(conf);
      ApplyRecs(Set, DELIMS, State(Zero, 0), FixedRecs(c) + CodecRecs(Chosen(c.account.allow), intvl))
      == State(NormalForm(conf), |Chosen(c.account.allow)|)
  {
    hide ApplyRecs, GeneralRecs, SessionRecs, AccountRecs, CodecRecs, Copy, Seen;
    hide Kept, StripLf, Chosen, Short, Registers, Expiry, IsCodec;
    var c, st := Stripped(conf), State(Zero, 0);
    var codes := Chosen(c.account.allow);
    DoGeneral(st, c);
    var st1 := ApplyRecs(Set, DELIMS, st, GeneralRecs(c));
    DoSession(st1, c);
    var st2 := ApplyRecs(Set, DELIMS, st1, SessionRecs(c));
    DoAccount(st2, c.account);
    var st3 := ApplyRecs(Set, DELIMS, st2, AccountRecs(c.account));
    DoCodecs(st3, codes, intvl);
    assert Placed(NoCodecs, 0, codes) == CloseUp(c.account.allow);
    ApplyAppend(Set, DELIMS, st1, SessionRecs(c), AccountRecs(c.account));
    ApplyAppend(Set, DELIMS, st, GeneralRecs(c), SessionRecs(c) + AccountRecs(c.account));
    ApplyAppend(Set, DELIMS, st, FixedRecs(c), CodecRecs(codes, intvl));
  }

  // ----- The file as text --------------------------------------------------------------------------------------

  /** What the C arrays can hold, on one line each; the transport becomes part of the register line. */
  predicate Printable(c: Config)
  {
    && CodecsOk(c)
    && Line(c.sessionTimers, 15) && Line(c.sessionRefresher, 7)
    && Line(c.registerUsername, 63) && Line(c.registerSecret, 63) && Line(c.registerHost, 63)
    && Line(c.account.callerid, 63) && Line(c.account.fromuser, 63) && Line(c.account.insecure, 31)
    && Line(c.account.username, 63) && Line(c.account.secret, 63) && Line(c.account.host, 63)
    && Line(c.account.transport, 7) && Line(c.account.dtmfmode, 31)
    && (Registers(Stripped(c)) ==> '\n' !in c.account.transport)
  }

  /** The packetization intervals are ints. */
  ghost predicate Intervals(intvl: int -> int)
  {
    forall code | IsCodec(code) :: -0x8000_0000 <= intvl(code) < 0x8000_0000
  }

  lemma Head1Ok()
    ensures AllOk(Head1, LINE)
  {
    hide RecOk;
    PlainOk("[general]", LINE);
    WordOk("context", "from-sip", LINE);
    SdpOk();
    AllOkFour(Head1[0], Head1[1], Head1[2], Head1[3]);
  }

  lemma Head2Ok()
    ensures AllOk(Head2, LINE)
  {
    hide RecOk;
    WordOk("disallow", "all", LINE);
    WordOk("srvlookup", "yes", LINE);
    BindOk();
    AllOkFour(Head2[0], Head2[1], Head2[2], Head2[3]);
  }

  lemma AccountHeadOk()
    ensures AllOk(AccountHead, LINE)
  {
    hide RecOk;
    PlainOk("", LINE);
    PlainOk("[User1]", LINE);
    IncludeOk();
    WordOk("type", "friend", LINE);
    AllOkFour(AccountHead[0], AccountHead[1], AccountHead[2], AccountHead[3]);
  }

  lemma SdpOk()
    ensures RecOk(Setting("sdpsession", "SIP Call"), LINE) && RecOk(Setting("sdpowner", "ParksSIP-MG"), LINE)
  {
    hide RecOk;
    WordOk("sdpsession", "SIP Call", LINE);
    WordOk("sdpowner", "ParksSIP-MG", LINE);
  }

  lemma BindOk()
    ensures RecOk(Setting("bindaddr", "0.0.0.0"), LINE) && RecOk(Setting("engine", "comcerto"), LINE)
  {
    hide RecOk;
    WordOk("bindaddr", "0.0.0.0", LINE);
    WordOk("engine", "comcerto", LINE);
  }

  lemma UseragentOk()
    ensures RecOk(Setting("useragent", "Parks-AMG"), LINE)
  {
    hide RecOk;
    WordOk("useragent", "Parks-AMG", LINE);
  }

  lemma IncludeOk()
    ensures RecOk(Plain("#include sip_account_custom.conf"), LINE)
  {
    PlainOk("#include sip_account_custom.conf", LINE);
  }

  lemma AllOkFour(r1: Rec, r2: Rec, r3: Rec, r4: Rec)
    requires RecOk(r1, LINE) && RecOk(r2, LINE) && RecOk(r3, LINE) && RecOk(r4, LINE)
    ensures AllOk([r1, r2, r3, r4], LINE)
  {
    hide RecOk;
  }

  lemma General1Ok(c: Config)
    ensures AllOk(General1(c), LINE)
  {
    hide PrintShort, Body, RecOk;
    UseragentOk();
    ShortOk("bindport", c.bindport);
    ShortOk("defaultexpiry", c.defaultexpiry);
  }

  lemma ShortOk(k: string, n: int)
    requires KeyFits(k)
    ensures RecOk(Setting(k, PrintShort(n)), LINE)
  {
    hide PrintShort, Body, RecOk, KeyFits;
    SeenShort(n);
    SettingOk(k, PrintShort(n), LINE);
  }

  lemma General2Ok(c: Config)
    ensures AllOk(General2(c), LINE)
  {
    hide YesNo, Body, RecOk;
    YesNoLength(c.tcpenable);
    SettingOk("tcpenable", YesNo(c.tcpenable), LINE);
    WordOk("tcpbindaddr", "0.0.0.0", LINE);
    WordOk("jbenable", "yes", LINE);
  }

  lemma General3Ok(c: Config)
    ensures AllOk(General3(c), LINE)
  {
    hide PrintShort, Body, RecOk;
    SeenShort(c.jb.maxsize);
    SettingOk("jbmaxsize", PrintShort(c.jb.maxsize), LINE);
    WordOk("jbimpl", if c.jb.impl != 0 then "adaptive" else "fixed", LINE);
  }

  lemma YesNoLength(n: int)
    ensures |YesNo(n)| <= 3 && Body(YesNo(n)) == YesNo(n) && '\n' !in YesNo(n)
  {
  }

  lemma NumberOk(key: string, n: int)
    requires KeyFits(key)
    ensures AllOk(If(n != 0, Setting(key, PrintShort(n))), LINE)
  {
    hide PrintShort, Body, If, KeyFits;
    SeenShort(n);
    SettingIfOk(n != 0, key, PrintShort(n), LINE);
  }

  lemma TimersOk(c: Config)
    ensures AllOk(Timers1(c), LINE) && AllOk(Timers2(c), LINE)
  {
    hide PrintShort, If, AllOk;
    NumberOk("t1min", c.t1min);
    NumberOk("timert1", c.timert1);
    NumberOk("timerb", c.timerb);
    NumberOk("rtptimeout", c.rtptimeout);
    NumberOk("rtpholdtimeout", c.rtpholdtimeout);
    NumberOk("rtpkeepalive", c.rtpkeepalive);
    AllOkAppend(If(c.t1min != 0, Setting("t1min", PrintShort(c.t1min))),
                If(c.timert1 != 0, Setting("timert1", PrintShort(c.timert1))), LINE);
    AllOkAppend(If(c.t1min != 0, Setting("t1min", PrintShort(c.t1min)))
                + If(c.timert1 != 0, Setting("timert1", PrintShort(c.timert1))),
                If(c.timerb != 0, Setting("timerb", PrintShort(c.timerb))), LINE);
    AllOkAppend(If(c.rtptimeout != 0, Setting("rtptimeout", PrintShort(c.rtptimeout))),
                If(c.rtpholdtimeout != 0, Setting("rtpholdtimeout", PrintShort(c.rtpholdtimeout))), LINE);
    AllOkAppend(If(c.rtptimeout != 0, Setting("rtptimeout", PrintShort(c.rtptimeout)))
                + If(c.rtpholdtimeout != 0, Setting("rtpholdtimeout", PrintShort(c.rtpholdtimeout))),
                If(c.rtpkeepalive != 0, Setting("rtpkeepalive", PrintShort(c.rtpkeepalive))), LINE);
  }

  lemma StripLine(v: string, n: nat)
    requires Line(v, n)
    ensures '\n' !in StripLf(v) && |StripLf(v)| <= n && Body(StripLf(v)) == StripLf(v)
  {
    var s := StripLf(v);
    assert s <= Body(v);
  }

  lemma Session1Ok(c: Config)
    requires Line(c.sessionTimers, 15)
    ensures AllOk(Session1(c), LINE)
  {
    hide PrintShort, RecOk, Body, If;
    SettingOk("session-timers", c.sessionTimers, LINE);
    NumberOk("session-expires", c.sessionExpires);
    NumberOk("session-minse", c.sessionMinse);
    AllOkAppend([Setting("session-timers", c.sessionTimers)],
                If(c.sessionExpires != 0, Setting("session-expires", PrintShort(c.sessionExpires))), LINE);
    AllOkAppend([Setting("session-timers", c.sessionTimers)]
                + If(c.sessionExpires != 0, Setting("session-expires", PrintShort(c.sessionExpires))),
                If(c.sessionMinse != 0, Setting("session-minse", PrintShort(c.sessionMinse))), LINE);
  }

  lemma Session2Ok(c: Config)
    requires Line(c.sessionRefresher, 7)
    ensures AllOk(Session2(c), LINE)
  {
    hide YesNo, RecOk, Body;
    SettingOk("session-refresher", c.sessionRefresher, LINE);
    YesNoLength(c.autoframing);
    SettingOk("autoframing", YesNo(c.autoframing), LINE);
  }

  lemma Register1Ok(c: Config)
    requires Line(c.registerUsername, 63) && Line(c.registerSecret, 63) && Line(c.registerHost, 63)
    ensures AllOk(Register1(c), LINE)
  {
    hide RecOk, Body;
    SettingOk(";reg_username", c.registerUsername, LINE);
    SettingOk(";reg_secret", c.registerSecret, LINE);
    SettingOk(";reg_host", c.registerHost, LINE);
  }

  lemma SessionOk(conf: Config)
    requires Printable(conf)
    ensures var c := Stripped(conf);
      AllOk(Session1(c), LINE) && AllOk(Session2(c), LINE) && AllOk(Register1(c), LINE) && AllOk(Register2(c), LINE)
  {
    hide PrintShort, RecOk, YesNo, StripLf, Body, CodecsOk, RegisterLine, If, AllOk;
    var c := Stripped(conf);
    StripLine(conf.registerUsername, 63);
    StripLine(conf.registerSecret, 63);
    StripLine(conf.registerHost, 63);
    Session1Ok(c);
    Session2Ok(c);
    Register1Ok(c);
    if Registers(c) {
      RegisterLineOk(c);
      SettingIfOk(Registers(c), "register", RegisterLine(c), LINE);
    } else {
      AllOkIf(false, Setting("register", RegisterLine(c)), LINE);
    }
  }

  lemma RegisterLineOk(c: Config)
    requires '\n' !in c.registerUsername && '\n' !in c.registerSecret && '\n' !in c.registerHost
    requires |c.registerUsername| <= 63 && |c.registerSecret| <= 63 && |c.registerHost| <= 63
    requires '\n' !in c.account.transport && |c.account.transport| <= 7
    ensures '\n' !in RegisterLine(c) && Body(RegisterLine(c)) == RegisterLine(c) && |RegisterLine(c)| <= 223
  {
    hide PrintShort;
    SeenShort(c.account.port);
  }

  lemma AccountOk(conf: Config)
    requires Printable(conf)
    ensures var a := Stripped(conf).account;
      AllOk(Account1(a), LINE) && AllOk(Account2(a), LINE) && AllOk(Account3(a), LINE) && AllOk(Account4(a), LINE)
  {
    hide PrintShort, RecOk, YesNo, StripLf, Body, CodecsOk, If;
    var a := Stripped(conf).account;
    StripLine(conf.account.host, 63);
    StripLine(conf.account.username, 63);
    StripLine(conf.account.secret, 63);
    StripLine(conf.account.callerid, 63);
    StripLine(conf.account.fromuser, 63);
    Account1Ok(a);
    Account2Ok(a);
    Account3Ok(a);
    SettingIfOk(a.insecure != "", "insecure", a.insecure, LINE);
    SettingIfOk(a.transport != "", "transport", a.transport, LINE);
    AllOkAppend(If(a.insecure != "", Setting("insecure", a.insecure)),
                If(a.transport != "", Setting("transport", a.transport)), LINE);
  }

  lemma Account1Ok(a: Account)
    requires Line(a.host, 63) && Line(a.username, 63)
    ensures AllOk(Account1(a), LINE)
  {
    hide PrintShort, RecOk, Body, If;
    SettingIfOk(a.host != "", "host", a.host, LINE);
    SeenShort(a.port);
    SettingOk("port", PrintShort(a.port), LINE);
    SettingIfOk(a.username != "", "username", a.username, LINE);
    AllOkAppend(If(a.host != "", Setting("host", a.host)), [Setting("port", PrintShort(a.port))], LINE);
    AllOkAppend(If(a.host != "", Setting("host", a.host)) + [Setting("port", PrintShort(a.port))],
                If(a.username != "", Setting("username", a.username)), LINE);
  }

  lemma Account2Ok(a: Account)
    requires Line(a.secret, 63) && Line(a.dtmfmode, 31) && Line(a.callerid, 63)
    ensures AllOk(Account2(a), LINE)
  {
    hide RecOk, Body, If;
    SettingIfOk(a.secret != "", "secret", a.secret, LINE);
    SettingOk("dtmfmode", a.dtmfmode, LINE);
    SettingIfOk(a.callerid != "", "callerid", a.callerid, LINE);
    AllOkAppend(If(a.secret != "", Setting("secret", a.secret)), [Setting("dtmfmode", a.dtmfmode)], LINE);
    AllOkAppend(If(a.secret != "", Setting("secret", a.secret)) + [Setting("dtmfmode", a.dtmfmode)],
                If(a.callerid != "", Setting("callerid", a.callerid)), LINE);
  }

  lemma Account3Ok(a: Account)
    requires Line(a.fromuser, 63)
    ensures AllOk(Account3(a), LINE)
  {
    hide RecOk, Body, If, YesNo;
    SettingIfOk(a.fromuser != "", "fromuser", a.fromuser, LINE);
    YesNoLength(a.natOn);
    YesNoLength(a.qualify);
    SettingOk("nat", YesNo(a.natOn), LINE);
    SettingOk("qualify", YesNo(a.qualify), LINE);
    AllOkAppend(If(a.fromuser != "", Setting("fromuser", a.fromuser)),
                [Setting("nat", YesNo(a.natOn)), Setting("qualify", YesNo(a.qualify))], LINE);
  }

  lemma {:induction false} CodecRecsOk(codes: seq<int>, intvl: int -> int)
    requires Intervals(intvl) && forall i | 0 <= i < |codes| :: IsCodec(codes[i])
    ensures AllOk(CodecRecs(codes, intvl), LINE)
  {
    hide CodecName, PrintInt, RecOk, Body;
    if codes != [] {
      SeenCodec(codes[0], intvl(codes[0]));
      PrintLength(intvl(codes[0]));
      SettingOk("allow", CodecName(codes[0]) + ":" + PrintInt(intvl(codes[0])), LINE);
      CodecRecsOk(codes[1..], intvl);
      AllOkAppend([CodecRec(codes[0], intvl)], CodecRecs(codes[1..], intvl), LINE);
    }
  }

  lemma FixedOk(conf: Config)
    requires Printable(conf)
    ensures AllOk(FixedRecs(Stripped(conf)), LINE)
  {
    hide AllOk, Stripped, General1, General2, General3, Timers1, Timers2, Session1, Session2, Register1, Register2;
    hide Account1, Account2, Account3, Account4;
    var c := Stripped(conf);
    var a := c.account;
    Head1Ok();
    Head2Ok();
    AccountHeadOk();
    General1Ok(c);
    General2Ok(c);
    General3Ok(c);
    TimersOk(c);
    SessionOk(conf);
    AccountOk(conf);
    AllOkAppend(Timers1(c), Timers2(c), LINE);
    AllOkAppend(General3(c), Timers1(c) + Timers2(c), LINE);
    AllOkAppend(General2(c), General3(c) + (Timers1(c) + Timers2(c)), LINE);
    var g := General2(c) + (General3(c) + (Timers1(c) + Timers2(c)));
    AllOkAppend(General1(c), g, LINE);
    AllOkAppend(Head2, General1(c) + g, LINE);
    AllOkAppend(Head1, Head2 + (General1(c) + g), LINE);
    AllOkAppend(Register1(c), Register2(c), LINE);
    AllOkAppend(Session2(c), Register1(c) + Register2(c), LINE);
    AllOkAppend(Session1(c), Session2(c) + (Register1(c) + Register2(c)), LINE);
    AllOkAppend(Account3(a), Account4(a), LINE);
    AllOkAppend(Account2(a), Account3(a) + Account4(a), LINE);
    var t := Account2(a) + (Account3(a) + Account4(a));
    AllOkAppend(Account1(a), t, LINE);
    AllOkAppend(AccountHead, Account1(a) + t, LINE);
    AllOkAppend(SessionRecs(c), AccountRecs(a), LINE);
    AllOkAppend(GeneralRecs(c), SessionRecs(c) + AccountRecs(a), LINE);
  }

  // ----- The main results -----------------------------------------------------------------------------------------

  /** Parsing what saving printed yields the normal form, and the allow lines are the chosen codecs. */
  lemma SaveThenParse(conf: Config, intvl: int -> int)
    requires Printable(conf) && Intervals(intvl)
    ensures ParseState(Save(conf, intvl)) == State(NormalForm(conf), |Chosen(conf.account.allow)|)
    ensures Parse(Save(conf, intvl)) == NormalForm(conf)
  {
    hide FixedRecs, CodecRecs, Chosen, NormalForm, ApplyRecs, RenderAll, IsCodec, RecOk, ParseText;
    var c := Stripped(conf);
    var codes := Chosen(c.account.allow);
    var recs := FixedRecs(c) + CodecRecs(codes, intvl);
    FixedOk(conf);
    CodecRecsOk(codes, intvl);
    AllOkAppend(FixedRecs(c), CodecRecs(codes, intvl), LINE);
    RenderAppend(FixedRecs(c), CodecRecs(codes, intvl));
    ReadRecords(Set, DELIMS, LINE, State(Zero, 0), recs);
    DoAll(conf, intvl);
  }
}
