/** Saving and parsing sip.conf more than once: what is stable after one round, and what survives it unchanged. */
module SipTwice {
  import opened Text
  import opened Strings
  import opened Codecs
  import opened Sip
  import opened SipRoundTrip

  /** A field that is printed unless it is empty. */
  lemma KeptTwice(v: string, n: nat)
    requires Line(v, n) && 0 < n
    ensures Kept(Kept(v, n), n) == Kept(v, n) && Line(Kept(v, n), n)
    ensures Kept(v, n) == v <==> v == "" || Settled(v, n, DELIMS)
  {
    hide Settled, Reread;
    if v != "" {
      RoundSettles(v, n, DELIMS);
      RoundTwice(v, n, DELIMS);
    }
  }

  // ----- Fields that saving strips --------------------------------------------------------------------------

  /** The first word of `s`, if there is one, does not end in a control character. */
  predicate Firm(s: string)
  {
    var w := Crop(s, DELIMS);
    Blank(w, DELIMS) || w[|w| - 1] >= ' '
  }

  lemma {:induction false} StripTwice(s: string)
    ensures StripLf(StripLf(s)) == StripLf(s)
  {
    if s != "" && s[|s| - 1] < ' ' {
      StripTwice(s[..|s| - 1]);
    }
  }

  lemma StripNothing(s: string)
    ensures StripLf(s) == s <==> s == "" || s[|s| - 1] >= ' '
  {
  }

  lemma StripNewline(s: string)
    ensures StripLf(s + "\n") == StripLf(s)
  {
    assert (s + "\n")[..|s|] == s;
  }

  lemma StripBody(v: string)
    ensures StripLf(v) == StripLf(Body(v))
  {
    if v != Body(v) {
      assert v == Body(v) + "\n";
      StripNewline(Body(v));
    }
  }

  lemma FirmWord(s: string)
    requires Body(s) == s
    ensures Firm(s) <==> Blank(s, DELIMS) || Seen(s)[|Seen(s)| - 1] >= ' '
    ensures !Blank(s, DELIMS) ==> Seen(s) != ""
  {
    hide Crop, OneWord;
    if Blank(s, DELIMS) {
      assert Blank(Crop(s, DELIMS), DELIMS) by { BlankPrefix(s, Crop(s, DELIMS)); }
    } else {
      CropLine(s, DELIMS);
      RereadWord(s, DELIMS);
      OneWordEnds(Seen(s), DELIMS);
    }
  }

  lemma BlankPrefix(s: string, w: string)
    requires Blank(s, DELIMS) && w <= s
    ensures Blank(w, DELIMS)
  {
    assert forall i | 0 <= i < |w| :: w[i] == s[i];
  }

  /** After a round the strip takes nothing but the added newline, exactly if the first word is firm. */
  lemma StripOfRound(s: string, n: nat)
    requires Line(s, n) && 0 < n && StripLf(s) == s
    ensures Firm(s) ==> StripLf(Round(s, n, DELIMS)) == if Blank(s, DELIMS) then s else Round(s, n, DELIMS)
    ensures !Firm(s) ==>
      var r := Round(s, n, DELIMS);
      !Blank(s, DELIMS) && !Blank(r, DELIMS) && |StripLf(r)| < |r|
  {
    hide Reread, OneWord, Round, Firm, StripLf;
    StripNothing(s);
    assert Body(s) == s;
    FirmWord(s);
    if Blank(s, DELIMS) {
      RoundOfBlank(s, n, DELIMS);
      StripNewline(s);
    } else {
      RoundOfWord(s, n, DELIMS);
      OneWordEnds(Round(s, n, DELIMS), DELIMS);
      StripNothing(Round(s, n, DELIMS));
      if !Firm(s) {
        Prefix(StripLf(Round(s, n, DELIMS)), Round(s, n, DELIMS));
      }
    }
  }

  lemma Prefix(a: string, b: string)
    requires a <= b && a != b
    ensures |a| < |b|
  {
    assert a == b[..|a|];
  }

  /** A stripped field is stable after one round if and only if its first word is firm. */
  lemma StrippedTwice(v: string, n: nat)
    requires Line(v, n) && 0 < n
    ensures var w := Round(StripLf(v), n, DELIMS);
      && Line(w, n)
      && (Round(StripLf(w), n, DELIMS) == w <==> Firm(StripLf(v)))
      && (Firm(StripLf(v)) ==> (StripLf(w) == "" <==> StripLf(v) == ""))
  {
    hide Reread, OneWord, Round, Firm, StripLf, Settled;
    StripLine(v, n);
    StripTwice(v);
    var s := StripLf(v);
    var w := Round(s, n, DELIMS);
    RoundSettles(s, n, DELIMS);
    StripOfRound(s, n);
    if Firm(s) {
      RoundTwice(s, n, DELIMS);
    } else {
      ShorterRound(w, n);
    }
  }

  /** What a strip shortened does not grow back. */
  lemma ShorterRound(w: string, n: nat)
    requires Line(w, n) && 0 < n && Settled(w, n, DELIMS) && |StripLf(w)| < |w| && !Blank(w, DELIMS)
    ensures Round(StripLf(w), n, DELIMS) != w
  {
    hide Reread, OneWord, Round, StripLf;
    StripLine(w, n);
    var s := StripLf(w);
    if Blank(s, DELIMS) {
      RoundOfBlank(s, n, DELIMS);
      OneWordEnds(w, DELIMS);
    } else {
      RoundOfWord(s, n, DELIMS);
    }
  }

  /** The same for a field that is printed unless nothing is left of it. */
  lemma KeptStrippedTwice(v: string, n: nat)
    requires Line(v, n) && 0 < n
    ensures var w := Kept(StripLf(v), n);
      && Line(w, n)
      && (Kept(StripLf(w), n) == w <==> Firm(StripLf(v)))
  {
    hide Reread, OneWord, Firm, StripLf, Settled;
    StripTwice(v);
    StripNothing("");
    if StripLf(v) == "" {
      EmptyIsFirm();
    } else {
      StripLine(v, n);
      StrippedTwice(v, n);
      RoundSettles(StripLf(v), n, DELIMS);
    }
  }

  lemma EmptyIsFirm()
    ensures Firm("")
  {
  }

  /** What fromuser holds after a round: the parser strips it once more. */
  function FromuserRound(v: string): string
  {
    if StripLf(v) == "" then "" else Copy(StripLf(Seen(StripLf(v))), 63)
  }

  /** fromuser is stable after one round, whatever it is. */
  lemma FromuserTwice(v: string)
    requires Line(v, 63)
    ensures FromuserRound(FromuserRound(v)) == FromuserRound(v) && Line(FromuserRound(v), 63)
    ensures FromuserRound(v) == v <==> v == "" || (v[|v| - 1] >= ' ' && (OneWord(v, DELIMS) || Blank(v, DELIMS)))
  {
    hide Reread, OneWord, StripLf;
    StripLine(v, 63);
    StripTwice(v);
    StripNothing(v);
    var s := StripLf(v);
    if s != "" {
      FromuserOnce(s);
      var r := StripLf(Seen(s));
      StripTwice(Seen(s));
      if r != "" {
        FromuserOnce(r);
        SubWord(s);
      }
    }
  }

  lemma FromuserOnce(s: string)
    requires Line(s, 63) && s != "" && StripLf(s) == s
    ensures var r := StripLf(Seen(s));
      && r <= s && |r| <= 63 && '\n' !in r && Body(r) == r
      && (r == s <==> OneWord(s, DELIMS) || Blank(s, DELIMS))
      && (Blank(s, DELIMS) ==> r == s)
      && (!Blank(s, DELIMS) ==> OneWord(Seen(s), DELIMS) && Seen(s) <= s)
  {
    hide Reread, OneWord, StripLf;
    StripNothing(s);
    assert Body(s) == s;
    if Blank(s, DELIMS) {
      RereadBlank(s, DELIMS);
      StripNewline(s);
    } else {
      RereadWord(s, DELIMS);
      OneWordEnds(Seen(s), DELIMS);
      StripNothing(Seen(s));
      if OneWord(s, DELIMS) {
        RereadOneWord(s, DELIMS);
      }
    }
    var r := StripLf(Seen(s));
    StripTwice(Seen(s));
    StripNothing(r);
    assert r <= s;
    assert forall i | 0 <= i < |r| :: r[i] == s[i];
  }

  /** What is left of a word when its end is stripped is a word, or blank. */
  lemma SubWord(s: string)
    requires Line(s, 63) && s != "" && StripLf(s) == s
    ensures var r := StripLf(Seen(s)); OneWord(r, DELIMS) || Blank(r, DELIMS)
  {
    hide Reread, StripLf, OneWord;
    FromuserOnce(s);
    if !Blank(s, DELIMS) {
      PrefixOfWord(Seen(s), StripLf(Seen(s)));
    }
  }

  lemma PrefixOfWord(w: string, r: string)
    requires OneWord(w, DELIMS) && r <= w
    ensures OneWord(r, DELIMS) || Blank(r, DELIMS)
  {
    var k := Leading(w, DELIMS);
    assert forall i | 0 <= i < |r| :: r[i] == w[i];
    if |r| > k {
      assert Leading(r, DELIMS) == k;
      assert forall i | 0 <= i < |r| - k :: r[k..][i] == w[k..][i];
    }
  }

  // ----- Fields that survive ------------------------------------------------------------------------------------

  /** Settled, and the strip takes nothing but a newline. */
  predicate FirmlySettled(v: string, n: nat)
  {
    Settled(v, n, DELIMS) && (Body(v) == "" || Body(v)[|Body(v)| - 1] >= ' ')
  }

  lemma StrippedSurvives(v: string, n: nat)
    requires Line(v, n) && 0 < n
    ensures Round(StripLf(v), n, DELIMS) == v <==> FirmlySettled(v, n)
  {
    hide Reread, OneWord, Round, StripLf, Settled;
    var s := StripLf(v);
    StripLine(v, n);
    StripBody(v);
    StripNothing(Body(v));
    RoundSettles(s, n, DELIMS);
    BlankBody(v, DELIMS);
    if s == Body(v) {
      SameRound(v, n);
      RoundSettles(v, n, DELIMS);
    } else {
      ShortRound(s, v, n);
    }
  }

  lemma SameRound(v: string, n: nat)
    requires Line(v, n)
    ensures Body(Body(v)) == Body(v) && Round(Body(v), n, DELIMS) == Round(v, n, DELIMS)
  {
    assert Body(Body(v)) == Body(v);
  }

  lemma ShortRound(s: string, v: string, n: nat)
    requires Line(s, n) && Line(v, n) && 0 < n && Body(s) == s && s <= Body(v) && s != Body(v)
    requires |Body(v)| > 0 && Body(v)[|Body(v)| - 1] < ' '
    ensures Round(s, n, DELIMS) != v
  {
    hide Reread, OneWord, Round;
    Prefix(s, Body(v));
    if Blank(s, DELIMS) {
      RoundOfBlank(s, n, DELIMS);
      assert Body(s + "\n") == s;
    } else {
      RoundOfWord(s, n, DELIMS);
    }
  }

  lemma KeptStrippedSurvives(v: string, n: nat)
    requires Line(v, n) && 0 < n
    ensures Kept(StripLf(v), n) == v <==> v == "" || (FirmlySettled(v, n) && Body(v) != "")
  {
    hide Reread, OneWord, StripLf, Settled;
    StripBody(v);
    StripNothing(Body(v));
    StripNothing("");
    StrippedSurvives(v, n);
  }

  // ----- The codecs --------------------------------------------------------------------------------------------

  lemma {:induction false} ChosenClosed(allow: seq<int>)
    ensures Chosen(CloseUp(allow)) == Chosen(allow)
  {
    ChosenAppend(Chosen(allow), seq(|allow| - |Chosen(allow)|, _ => 0));
    ChosenPositive(Chosen(allow));
    ChosenZeros(|allow| - |Chosen(allow)|);
    assert Chosen(allow) + [] == Chosen(allow);
  }

  lemma {:induction false} ChosenAppend(a: seq<int>, b: seq<int>)
    ensures Chosen(a + b) == Chosen(a) + Chosen(b)
    decreases |a|
  {
    if a == [] {
      assert a + b == b;
    } else {
      assert (a + b)[1..] == a[1..] + b;
      ChosenAppend(a[1..], b);
    }
  }

  lemma {:induction false} ChosenPositive(a: seq<int>)
    requires forall i | 0 <= i < |a| :: a[i] > 0
    ensures Chosen(a) == a
  {
    if a != [] {
      ChosenPositive(a[1..]);
    }
  }

  lemma {:induction false} ChosenZeros(n: nat)
    ensures Chosen(seq(n, _ => 0)) == []
  {
    if n > 0 {
      assert seq(n, _ => 0)[1..] == seq(n - 1, _ => 0);
      ChosenZeros(n - 1);
    }
  }

  /** No gaps: once a place is zero, all later ones are, and nothing is negative. */
  predicate ClosedUp(allow: seq<int>)
  {
    && (forall i | 0 <= i < |allow| :: allow[i] >= 0)
    && (forall i, j | 0 <= i < j < |allow| && allow[i] == 0 :: allow[j] == 0)
  }

  lemma {:induction false} ClosedIsFixed(allow: seq<int>)
    requires ClosedUp(allow)
    ensures CloseUp(allow) == allow
  {
    if allow != [] {
      var rest := allow[1..];
      if allow[0] > 0 {
        ClosedIsFixed(rest);
        Associative([allow[0]], Chosen(rest), seq(|rest| - |Chosen(rest)|, _ => 0));
        assert [allow[0]] + rest == allow;
      } else {
        assert allow == seq(|allow|, _ => 0);
        ChosenZeros(|allow|);
      }
    }
  }

  lemma Associative(a: seq<int>, b: seq<int>, c: seq<int>)
    ensures a + (b + c) == a + b + c
  {
  }

  lemma CloseUpFixes(allow: seq<int>)
    ensures CloseUp(CloseUp(allow)) == CloseUp(allow)
    ensures CloseUp(allow) == allow <==> ClosedUp(allow)
  {
    ChosenClosed(allow);
    if ClosedUp(allow) {
      ClosedIsFixed(allow);
    }
  }

  lemma ClosedOk(c: Config)
    requires CodecsOk(c)
    ensures var allow := CloseUp(c.account.allow);
      |allow| == NUM_AVAILABLE_CODECS && forall i | 0 <= i < NUM_AVAILABLE_CODECS :: allow[i] > 0 ==> IsCodec(allow[i])
  {
    hide IsCodec;
  }

  // ----- One round and another --------------------------------------------------------------------------------

  /** In each string that saving strips, but fromuser, the first word does not end in a control character. */
  predicate FirmConfig(c: Config)
  {
    && Firm(StripLf(c.registerUsername)) && Firm(StripLf(c.registerSecret)) && Firm(StripLf(c.registerHost))
    && FirmAccount(c.account)
  }

  predicate FirmAccount(a: Account)
  {
    Firm(StripLf(a.host)) && Firm(StripLf(a.username)) && Firm(StripLf(a.secret)) && Firm(StripLf(a.callerid))
  }

  /**
   * What is read back fits again: a blank session field leaves room for the newline that it gains, and
   * the transport of a registration is not blank.
   */
  predicate Refits(c: Config)
  {
    && (Blank(Body(c.sessionTimers), DELIMS) ==> |Body(c.sessionTimers)| < 15)
    && (Blank(Body(c.sessionRefresher), DELIMS) ==> |Body(c.sessionRefresher)| < 7)
    && (Registers(Stripped(c)) ==> c.account.transport == "" || !Blank(c.account.transport, DELIMS))
  }

  lemma ShortTwice(n: int)
    ensures Short(Short(n)) == Short(n)
    ensures Short(n) == n <==> -0x8000 <= n < 0x8000
  {
  }

  /** A session field, one character shorter than its array. */
  lemma SessionTwice(v: string, n: nat)
    requires Line(v, n) && 0 < n && (Blank(Body(v), DELIMS) ==> |Body(v)| < n)
    ensures var w := Round(v, n + 1, DELIMS); Round(w, n + 1, DELIMS) == w && Line(w, n)
  {
    hide Reread, OneWord, Round;
    RoundTwice(v, n + 1, DELIMS);
    RoundSettles(v, n + 1, DELIMS);
    if Blank(Body(v), DELIMS) {
      RoundOfBlank(v, n + 1, DELIMS);
    } else {
      RoundOfWord(v, n + 1, DELIMS);
    }
  }

  /** The account of a configuration after a round. */
  function AccountRound(a: Account): Account
  {
    NormalAccount(a.(host := StripLf(a.host), username := StripLf(a.username), secret := StripLf(a.secret),
                     callerid := StripLf(a.callerid), fromuser := StripLf(a.fromuser)))
  }

  predicate AccountLines(a: Account)
  {
    && Line(a.callerid, 63) && Line(a.fromuser, 63) && Line(a.insecure, 31) && Line(a.username, 63)
    && Line(a.secret, 63) && Line(a.host, 63) && Line(a.transport, 7) && Line(a.dtmfmode, 31)
  }

  lemma AccountTwice(a: Account)
    requires AccountLines(a)
    ensures AccountLines(AccountRound(a))
    ensures AccountRound(AccountRound(a)) == AccountRound(a) <==> FirmAccount(a)
  {
    hide Line, Reread, Copy, Firm, StripLf, CloseUp, Settled, OneWord, Blank;
    KeptStrippedTwice(a.host, 63);
    KeptStrippedTwice(a.username, 63);
    KeptStrippedTwice(a.secret, 63);
    KeptStrippedTwice(a.callerid, 63);
    FromuserTwice(a.fromuser);
    KeptTwice(a.insecure, 31);
    KeptTwice(a.transport, 7);
    RoundTwice(a.dtmfmode, 31, DELIMS);
    RoundSettles(a.dtmfmode, 31, DELIMS);
    CloseUpFixes(a.allow);
  }

  lemma RegistersTwice(conf: Config)
    requires Printable(conf) && FirmConfig(conf)
    ensures Registers(Stripped(NormalForm(conf))) == Registers(Stripped(conf))
  {
    hide Line, Reread, Kept, StripLf, CloseUp, Short, NormalAccount, CodecsOk, Expiry, Copy, Firm, FirmAccount;
    StrippedTwice(conf.registerUsername, 63);
    StrippedTwice(conf.registerSecret, 63);
    StrippedTwice(conf.registerHost, 63);
  }

  /** After a round the transport of a registration still has no newline. */
  lemma TransportFits(conf: Config)
    requires Printable(conf) && Refits(conf) && Registers(Stripped(NormalForm(conf)))
    ensures '\n' !in NormalForm(conf).account.transport
  {
    hide Reread, StripLf, CloseUp, Short, CodecsOk, Expiry, OneWord, Copy;
    var v := conf.account.transport;
    assert Registers(Stripped(conf));
    if v != "" {
      BlankBody(v, DELIMS);
      RoundOfWord(v, 7, DELIMS);
    }
  }

  lemma AccountOfNormal(conf: Config)
    ensures NormalForm(conf).account == AccountRound(conf.account)
    ensures NormalForm(NormalForm(conf)).account == AccountRound(AccountRound(conf.account))
  {
    hide NormalAccount, StripLf, Registers, Expiry, Short, Reread, Copy;
  }

  /** The normal form of a printable configuration that fits again is printable, */
  lemma NormalFormPrintable(conf: Config)
    requires Printable(conf) && Refits(conf)
    ensures Printable(NormalForm(conf))
  {
    hide Line, Reread, StripLf, Short, NormalAccount, Copy, Registers, IsCodec, Expiry, Firm, FirmAccount, CloseUp;
    AccountOfNormal(conf);
    AccountTwice(conf.account);
    SessionTwice(conf.sessionTimers, 15);
    SessionTwice(conf.sessionRefresher, 7);
    StrippedTwice(conf.registerUsername, 63);
    StrippedTwice(conf.registerSecret, 63);
    StrippedTwice(conf.registerHost, 63);
    ClosedOk(conf);
    NormalAllow(conf);
    if Registers(Stripped(NormalForm(conf))) {
      TransportFits(conf);
    }
  }

  lemma NormalAllow(conf: Config)
    ensures NormalForm(conf).account.allow == CloseUp(conf.account.allow)
  {
    hide Reread, StripLf, Short, Copy, Registers, Expiry, CloseUp;
  }

  /** and it is a fixed point if and only if the stripped strings are firm. */
  lemma NormalFormTwice(conf: Config)
    requires Printable(conf) && Refits(conf)
    ensures NormalForm(NormalForm(conf)) == NormalForm(conf) <==> FirmConfig(conf)
  {
    hide Line, Reread, StripLf, Short, NormalAccount, Copy, Registers, CodecsOk, Firm, FirmAccount;
    AccountOfNormal(conf);
    AccountTwice(conf.account);
    SessionTwice(conf.sessionTimers, 15);
    SessionTwice(conf.sessionRefresher, 7);
    StrippedTwice(conf.registerUsername, 63);
    StrippedTwice(conf.registerSecret, 63);
    StrippedTwice(conf.registerHost, 63);
    if FirmConfig(conf) {
      RegistersTwice(conf);
    }
    ShortTwice(conf.t1min);
    ShortTwice(conf.timert1);
    ShortTwice(conf.timerb);
    ShortTwice(conf.rtptimeout);
    ShortTwice(conf.rtpholdtimeout);
    ShortTwice(conf.rtpkeepalive);
    ShortTwice(conf.jb.maxsize);
    ShortTwice(conf.defaultexpiry);
    ShortTwice(conf.sessionExpires);
    ShortTwice(conf.sessionMinse);
  }

  /**
   * Saving and parsing twice is the same as once, if and only if no stripped string has a first word that
   * ends in a control character: such a word is cut out by the first round and stripped by the second.
   */
  lemma TwiceIsOnce(conf: Config, intvl: int -> int, later: int -> int)
    requires Printable(conf) && Refits(conf) && Intervals(intvl) && Intervals(later)
    ensures CodecsOk(Parse(Save(conf, intvl)))
    ensures Parse(Save(Parse(Save(conf, intvl)), later)) == Parse(Save(conf, intvl)) <==> FirmConfig(conf)
  {
    hide Save, Parse, NormalForm, Refits, FirmConfig, Intervals;
    SaveThenParse(conf, intvl);
    NormalFormPrintable(conf);
    NormalFormTwice(conf);
    SaveThenParse(NormalForm(conf), later);
  }

  /** An account name that reads shorter every time. */
  lemma UnfirmName()
    ensures var name := ['a', 1 as char, ' ', 'b'];
      StripLf(name) == name && !Firm(name) && Round(name, 63, DELIMS) == ['a', 1 as char]
      && Round(StripLf(Round(name, 63, DELIMS)), 63, DELIMS) == "a"
  {
    var name, cut := ['a', 1 as char, ' ', 'b'], ['a', 1 as char];
    StripNothing(name);
    CropToken(cut, " b", DELIMS);
    assert cut + " b" == name;
    assert Body(name) == name && !Blank(name, DELIMS) && !Blank(cut, DELIMS);
    CropLine(name, DELIMS);
    assert cut[..1] == "a";
    StripNothing("a");
    assert StripLf(cut) == StripLf("a") == "a";
    CropToken("a", "\n", DELIMS);
  }

  // ----- What survives a round ----------------------------------------------------------------------------------

  predicate IsShort(n: int)
  {
    -0x8000 <= n < 0x8000
  }

  predicate KeptIf(v: string, n: nat)
  {
    v == "" || Settled(v, n, DELIMS)
  }

  predicate KeptStrippedIf(v: string, n: nat)
  {
    v == "" || (FirmlySettled(v, n) && Body(v) != "")
  }

  predicate FromuserIf(v: string)
  {
    v == "" || (v[|v| - 1] >= ' ' && (OneWord(v, DELIMS) || Blank(v, DELIMS)))
  }

  /** The strings that come back as they were, each exactly under a condition on itself. */
  lemma StringsSurvive(conf: Config)
    requires Printable(conf)
    ensures var r, a := NormalForm(conf), conf.account;
      && (r.sessionTimers == conf.sessionTimers <==> Settled(conf.sessionTimers, 16, DELIMS))
      && (r.sessionRefresher == conf.sessionRefresher <==> Settled(conf.sessionRefresher, 8, DELIMS))
      && (r.registerUsername == conf.registerUsername <==> FirmlySettled(conf.registerUsername, 63))
      && (r.registerSecret == conf.registerSecret <==> FirmlySettled(conf.registerSecret, 63))
      && (r.registerHost == conf.registerHost <==> FirmlySettled(conf.registerHost, 63))
      && (r.account.host == a.host <==> KeptStrippedIf(a.host, 63))
      && (r.account.username == a.username <==> KeptStrippedIf(a.username, 63))
      && (r.account.secret == a.secret <==> KeptStrippedIf(a.secret, 63))
      && (r.account.callerid == a.callerid <==> KeptStrippedIf(a.callerid, 63))
      && (r.account.fromuser == a.fromuser <==> FromuserIf(a.fromuser))
      && (r.account.insecure == a.insecure <==> KeptIf(a.insecure, 31))
      && (r.account.transport == a.transport <==> KeptIf(a.transport, 7))
      && (r.account.dtmfmode == a.dtmfmode <==> Settled(a.dtmfmode, 31, DELIMS))
  {
    hide Reread, StripLf, Short, Copy, Registers, CodecsOk, Settled, FirmlySettled, OneWord, Blank, Body, CloseUp;
    hide Expiry, KeptStrippedIf, FromuserIf, KeptIf, NormalAccount;
    RoundSettles(conf.sessionTimers, 16, DELIMS);
    RoundSettles(conf.sessionRefresher, 8, DELIMS);
    StrippedSurvives(conf.registerUsername, 63);
    StrippedSurvives(conf.registerSecret, 63);
    StrippedSurvives(conf.registerHost, 63);
    AccountStringsSurvive(conf);
  }

  lemma AccountStringsSurvive(conf: Config)
    requires Printable(conf)
    ensures var r, a := NormalAccount(Stripped(conf).account), conf.account;
      && (r.host == a.host <==> KeptStrippedIf(a.host, 63))
      && (r.username == a.username <==> KeptStrippedIf(a.username, 63))
      && (r.secret == a.secret <==> KeptStrippedIf(a.secret, 63))
      && (r.callerid == a.callerid <==> KeptStrippedIf(a.callerid, 63))
      && (r.fromuser == a.fromuser <==> FromuserIf(a.fromuser))
      && (r.insecure == a.insecure <==> KeptIf(a.insecure, 31))
      && (r.transport == a.transport <==> KeptIf(a.transport, 7))
      && (r.dtmfmode == a.dtmfmode <==> Settled(a.dtmfmode, 31, DELIMS))
  {
    hide Reread, StripLf, Short, Copy, Registers, CodecsOk, Settled, FirmlySettled, OneWord, Blank, Body, CloseUp;
    hide Expiry;
    var a := conf.account;
    KeptStrippedSurvives(a.host, 63);
    KeptStrippedSurvives(a.username, 63);
    KeptStrippedSurvives(a.secret, 63);
    KeptStrippedSurvives(a.callerid, 63);
    FromuserTwice(a.fromuser);
    KeptTwice(a.insecure, 31);
    KeptTwice(a.transport, 7);
    RoundSettles(a.dtmfmode, 31, DELIMS);
  }

  predicate CanonicalStrings(c: Config)
  {
    && Settled(c.sessionTimers, 16, DELIMS) && Settled(c.sessionRefresher, 8, DELIMS)
    && FirmlySettled(c.registerUsername, 63) && FirmlySettled(c.registerSecret, 63)
    && FirmlySettled(c.registerHost, 63)
    && KeptStrippedIf(c.account.host, 63) && KeptStrippedIf(c.account.username, 63)
    && KeptStrippedIf(c.account.secret, 63) && KeptStrippedIf(c.account.callerid, 63)
    && FromuserIf(c.account.fromuser)
    && KeptIf(c.account.insecure, 31) && KeptIf(c.account.transport, 7) && Settled(c.account.dtmfmode, 31, DELIMS)
  }

  predicate CanonicalNumbers(c: Config)
  {
    && IsShort(c.t1min) && IsShort(c.timert1) && IsShort(c.timerb)
    && IsShort(c.rtptimeout) && IsShort(c.rtpholdtimeout) && IsShort(c.rtpkeepalive)
    && IsShort(c.defaultexpiry) && c.sessionExpires == 0 && c.sessionMinse == 0
    && c.jb.enable == 1 && IsShort(c.jb.maxsize) && c.jb.impl in {0, 1}
    && c.jb.mindelay == 0 && c.jb.typdelay == 0 && c.jb.maxdelay == 0 && c.jb.deletThrld == 0
    && c.tcpenable in {0, 1} && c.autoframing == 0
    && c.account.natOn in {0, 1} && c.account.qualify in {0, 1}
  }

  /** What a configuration must look like to be stored without loss. */
  predicate Canonical(c: Config)
  {
    && CanonicalNumbers(c) && CanonicalStrings(c) && ClosedUp(c.account.allow)
    && c.registerEnable == if Registers(Stripped(c)) then 1 else 0
  }

  /** Numbers and codecs, each by itself; both ports always survive. */
  lemma NumbersSurvive(conf: Config)
    ensures var r := NormalForm(conf);
      && r.bindport == conf.bindport && r.account.port == conf.account.port
      && (r.t1min == conf.t1min <==> IsShort(conf.t1min))
      && (r.timert1 == conf.timert1 <==> IsShort(conf.timert1))
      && (r.timerb == conf.timerb <==> IsShort(conf.timerb))
      && (r.rtptimeout == conf.rtptimeout <==> IsShort(conf.rtptimeout))
      && (r.rtpholdtimeout == conf.rtpholdtimeout <==> IsShort(conf.rtpholdtimeout))
      && (r.rtpkeepalive == conf.rtpkeepalive <==> IsShort(conf.rtpkeepalive))
      && (r.jb.maxsize == conf.jb.maxsize <==> IsShort(conf.jb.maxsize))
      && (r.jb.enable == 1) && (r.jb.impl == conf.jb.impl <==> conf.jb.impl in {0, 1})
      && (conf.sessionExpires == conf.sessionMinse == 0 ==>
            (r.defaultexpiry == conf.defaultexpiry <==> IsShort(conf.defaultexpiry)))
      && (r.tcpenable == conf.tcpenable <==> conf.tcpenable in {0, 1})
      && (r.account.natOn == conf.account.natOn <==> conf.account.natOn in {0, 1})
      && (r.account.qualify == conf.account.qualify <==> conf.account.qualify in {0, 1})
      && (r.account.allow == conf.account.allow <==> ClosedUp(conf.account.allow))
      && Chosen(r.account.allow) == Chosen(conf.account.allow)
  {
    hide Reread, StripLf, Short, Copy, Registers, ClosedUp, CloseUp, Chosen;
    ShortTwice(conf.t1min);
    ShortTwice(conf.timert1);
    ShortTwice(conf.timerb);
    ShortTwice(conf.rtptimeout);
    ShortTwice(conf.rtpholdtimeout);
    ShortTwice(conf.rtpkeepalive);
    ShortTwice(conf.jb.maxsize);
    ShortTwice(conf.defaultexpiry);
    CloseUpFixes(conf.account.allow);
    ChosenClosed(conf.account.allow);
  }

  /** A configuration comes back unchanged if and only if it is canonical. */
  lemma WhatSurvives(conf: Config, intvl: int -> int)
    requires Printable(conf) && Intervals(intvl)
    ensures Parse(Save(conf, intvl)) == conf <==> Canonical(conf)
  {
    hide Save, Parse, Reread, StripLf, Short, Copy, Registers, ClosedUp, CloseUp, Chosen, Intervals, Printable;
    hide Settled, FirmlySettled, KeptIf, KeptStrippedIf, FromuserIf, Kept;
    SaveThenParse(conf, intvl);
    NumbersSurvive(conf);
    StringsSurvive(conf);
  }
}
