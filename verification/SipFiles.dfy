/** What every parsed sip.conf has in common, so that it can be saved again. */
module SipFiles {
  import opened Attributes
  import opened Fgets
  import opened Text
  import opened Strings
  import opened Codecs
  import opened Sip
  import opened SipRoundTrip

  /** A newline at most at the very end, as in a buffer that fgets filled. */
  predicate EndsOnce(v: string)
  {
    forall i | 0 <= i < |v| - 1 :: v[i] != '\n'
  }

  lemma PrefixEndsOnce(v: string, w: string)
    requires w <= v && EndsOnce(v)
    ensures EndsOnce(w)
  {
    assert forall i | 0 <= i < |w| :: w[i] == v[i];
  }

  lemma EndsOnceIsLine(v: string, n: nat)
    requires EndsOnce(v) && |v| <= n
    ensures Line(v, n)
  {
  }

  lemma CopyEndsOnce(v: string, n: nat)
    requires EndsOnce(v)
    ensures EndsOnce(Copy(v, n)) && |Copy(v, n)| <= n
  {
    PrefixEndsOnce(v, Copy(v, n));
  }

  predicate Field(v: string, n: nat)
  {
    EndsOnce(v) && |v| <= n
  }

  predicate AccountFields(a: Account)
  {
    && Field(a.callerid, 63) && Field(a.fromuser, 63) && Field(a.insecure, 31) && Field(a.username, 63)
    && Field(a.secret, 63) && Field(a.host, 63) && Field(a.transport, 7) && Field(a.dtmfmode, 31)
    && |a.allow| == NUM_AVAILABLE_CODECS
    && forall i | 0 <= i < NUM_AVAILABLE_CODECS :: a.allow[i] > 0 ==> IsCodec(a.allow[i])
  }

  /** The invariant of the parser's loop. */
  predicate Fields(c: Config)
  {
    && Field(c.sessionTimers, 16) && Field(c.sessionRefresher, 8)
    && Field(c.registerUsername, 63) && Field(c.registerSecret, 63) && Field(c.registerHost, 63)
    && AccountFields(c.account)
  }

  lemma KeepsAccount(a: Account, k: Key, v: string)
    requires AccountFields(a) && EndsOnce(v)
    ensures AccountFields(SetAccount(a, k, v))
  {
    hide EndsOnce, Copy, Atoi, StripLf, IsCodec;
    CopyEndsOnce(v, 63);
    CopyEndsOnce(v, 31);
    CopyEndsOnce(v, 7);
    PrefixEndsOnce(v, StripLf(v));
    CopyEndsOnce(StripLf(v), 63);
  }

  lemma KeepsConfig(c: Config, k: Key, v: string)
    requires Fields(c) && EndsOnce(v)
    ensures Fields(SetConfig(c, k, v))
  {
    hide EndsOnce, Copy, Atoi, AccountFields, SetAccount;
    CopyEndsOnce(v, 63);
    CopyEndsOnce(v, 16);
    CopyEndsOnce(v, 8);
    KeepsAccount(c.account, k, v);
  }

  lemma KeepsCodecs(st: State, v: string)
    requires Fields(st.conf)
    ensures Fields(AddCodec(st, CodecCode(v)).conf)
  {
    hide Field;
  }

  lemma Keeps(st: State, key: string, v: string)
    requires Fields(st.conf) && EndsOnce(v)
    ensures Fields(Set(st, key, v).conf)
  {
    hide Fields, KeyOf, SetConfig, AddCodec, EndsOnce;
    KeepsCodecs(st, v);
    KeepsConfig(st.conf, KeyOf(key), v);
  }

  /** The value found in a buffer ends on its newline, if it has one. */
  lemma ValueEndsOnce(buf: string)
    requires EndsOnce(buf) && SettingOf(buf, DELIMS).Some?
    ensures EndsOnce(SettingOf(buf, DELIMS).value.1)
  {
    hide Crop, EndsOnce, Find;
    var k := Find(buf, '=');
    assert EndsOnce(buf[k + 1..]) by { SuffixEndsOnce(buf, k + 1); }
    PrefixEndsOnce(buf[k + 1..], Crop(buf[k + 1..], DELIMS));
  }

  lemma SuffixEndsOnce(v: string, k: nat)
    requires k <= |v| && EndsOnce(v)
    ensures EndsOnce(v[k..])
  {
  }

  lemma {:induction false} KeepsAll(st: State, bufs: seq<string>)
    requires Fields(st.conf) && forall i | 0 <= i < |bufs| :: EndsOnce(bufs[i])
    ensures Fields(ApplyPieces(Set, DELIMS, st, bufs).conf)
    decreases |bufs|
  {
    hide Fields, EndsOnce, SettingOf, Set;
    if bufs != [] {
      assert EndsOnce(bufs[0]);
      match SettingOf(bufs[0], DELIMS) {
        case None =>
        case Some((key, v)) =>
          ValueEndsOnce(bufs[0]);
          Keeps(st, key, v);
      }
      KeepsAll(ApplyPiece(Set, DELIMS, st, bufs[0]), bufs[1..]);
    }
  }

  lemma {:induction false} PiecesEndOnce(text: string, max: nat)
    requires max > 0
    ensures forall i | 0 <= i < |Pieces(text, max)| :: EndsOnce(Pieces(text, max)[i])
    decreases |text|
  {
    if text != "" {
      PiecesEndOnce(Rest(text, max), max);
    }
  }

  /** A parsed file of at most nine allow lines fits its fields, with one line each and only known codecs. */
  lemma ParsedFields(text: string)
    requires AllowsFit(text)
    ensures Fields(Parse(text)) && CodecsOk(Parse(text))
  {
    hide ApplyPieces, EndsOnce, Pieces;
    PiecesEndOnce(text, LINE);
    ZeroFields();
    KeepsAll(State(Zero, 0), Pieces(text, LINE));
  }

  lemma ZeroFields()
    ensures Fields(Zero)
  {
  }

  /** The two unterminated session fields, and the register line. */
  predicate Storable(c: Config)
  {
    && |c.sessionTimers| < 16 && |c.sessionRefresher| < 8
    && (Registers(Stripped(c)) ==> '\n' !in c.account.transport)
  }

  /** So a parsed configuration can be printed and read back unless one of these three checks fails. */
  lemma ParsedPrintable(text: string)
    requires AllowsFit(text) && Storable(Parse(text))
    ensures Printable(Parse(text))
  {
    hide Parse, EndsOnce, Line, Registers, IsCodec, Stripped, AllowsFit;
    ParsedFields(text);
    var c := Parse(text);
    EndsOnceIsLine(c.sessionTimers, 15);
    EndsOnceIsLine(c.sessionRefresher, 7);
    EndsOnceIsLine(c.registerUsername, 63);
    EndsOnceIsLine(c.registerSecret, 63);
    EndsOnceIsLine(c.registerHost, 63);
    EndsOnceIsLine(c.account.callerid, 63);
    EndsOnceIsLine(c.account.fromuser, 63);
    EndsOnceIsLine(c.account.insecure, 31);
    EndsOnceIsLine(c.account.username, 63);
    EndsOnceIsLine(c.account.secret, 63);
    EndsOnceIsLine(c.account.host, 63);
    EndsOnceIsLine(c.account.transport, 7);
    EndsOnceIsLine(c.account.dtmfmode, 31);
  }

  // ----- The tenth allow line --------------------------------------------------------------------------------

  lemma {:induction false} PlacesTaken(st: State, codes: seq<int>, intvl: int -> int)
    requires st.pos <= 10 && forall i | 0 <= i < |codes| :: IsCodec(codes[i])
    ensures ApplyRecs(Set, DELIMS, st, CodecRecs(codes, intvl)).pos
         == if st.pos + |codes| <= 10 then st.pos + |codes| else 10
    decreases |codes|
  {
    hide IsCodec, CodecRec, ApplyRec;
    if codes != [] {
      DoCodec(st, codes[0], intvl);
      PlacesTaken(AddCodec(st, codes[0]), codes[1..], intvl);
    }
  }

  /** How many of these lines are allow lines. */
  function AllowLines(bufs: seq<string>): nat
  {
    if bufs == [] then 0
    else
      (match SettingOf(bufs[0], DELIMS) case Some((key, _)) => if KeyOf(key) == Allow then 1 else 0 case None => 0)
      + AllowLines(bufs[1..])
  }

  lemma {:induction false} PlacesAreLines(st: State, bufs: seq<string>)
    requires st.pos <= 10
    ensures ApplyPieces(Set, DELIMS, st, bufs).pos
         == if st.pos + AllowLines(bufs) <= 10 then st.pos + AllowLines(bufs) else 10
    decreases |bufs|
  {
    hide KeyOf, SetConfig, CodecCode, SettingOf;
    if bufs != [] {
      PlacesAreLines(ApplyPiece(Set, DELIMS, st, bufs[0]), bufs[1..]);
    }
  }

  /** The parser stays inside the array of codecs exactly for files of at most nine allow lines. */
  lemma FitMeansNine(text: string)
    ensures AllowsFit(text) <==> AllowLines(Pieces(text, LINE)) <= 9
  {
    hide ApplyPieces, Pieces, AllowLines;
    PlacesAreLines(State(Zero, 0), Pieces(text, LINE));
  }

  /** Ten lines "allow=gsm:20" take ten places of nine: the last one is written behind the array. */
  lemma TenthLine()
    ensures var codes := seq(10, _ => GSM);
      var text := RenderAll(CodecRecs(codes, _ => 20));
      ParseState(text).pos == 10 && !AllowsFit(text)
  {
    hide ApplyRecs, RenderAll, RecOk, CodecRec, ParseText;
    var codes := seq(10, _ => GSM);
    CodecRecsOk(codes, _ => 20);
    ReadRecords(Set, DELIMS, LINE, State(Zero, 0), CodecRecs(codes, _ => 20));
    PlacesTaken(State(Zero, 0), codes, _ => 20);
  }
}
