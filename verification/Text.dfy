/** C strings, decimal numbers and key=value files, as the configuration parsers and printers use them. */
module Text {
  import opened Attributes
  import opened Fgets

  // ----- Decimal numbers -------------------------------------------------------------------------------

  predicate IsDigit(c: char)
  {
    '0' <= c <= '9'
  }

  /** isspace in the C locale. */
  predicate IsSpace(c: char)
  {
    c == ' ' || ('\t' <= c <= '\r')
  }

  function Digits(n: nat): (s: string)
    ensures s != "" && forall i | 0 <= i < |s| :: IsDigit(s[i])
  {
    (if n < 10 then "" else Digits(n / 10)) + [('0' as int + n % 10) as char]
  }

  /** printf %d. */
  function PrintInt(n: int): (s: string)
    ensures s != "" && forall i | 0 <= i < |s| :: IsDigit(s[i]) || s[i] == '-'
  {
    if n < 0 then "-" + Digits(-n) else Digits(n)
  }

  /** The conversion to short that %hd applies first. */
  function Short(n: int): (r: int)
    ensures -0x8000 <= r < 0x8000 && (-0x8000 <= n < 0x8000 ==> r == n)
  {
    (n + 0x8000) % 0x1_0000 - 0x8000
  }

  function ReadDigits(acc: nat, s: string): nat
    decreases |s|
  {
    if s != "" && IsDigit(s[0]) then ReadDigits(10 * acc + (s[0] as int - '0' as int), s[1..]) else acc
  }

  function SkipDigits(s: string): (r: string)
    ensures |r| <= |s|
  {
    if s != "" && IsDigit(s[0]) then SkipDigits(s[1..]) else s
  }

  function SkipSpace(s: string): (r: string)
    ensures |r| <= |s|
  {
    if s != "" && IsSpace(s[0]) then SkipSpace(s[1..]) else s
  }

  /** One %d of sscanf: the number and what follows it. Numbers beyond an int are not modelled. */
  function ScanInt(s: string): (r: Option<(int, string)>)
    ensures r.Some? ==> |r.value.1| < |s|
  {
    var t := SkipSpace(s);
    var signed := t != "" && (t[0] == '-' || t[0] == '+');
    var u := if signed then t[1..] else t;
    if u == "" || !IsDigit(u[0]) then None
    else Some((if signed && t[0] == '-' then -(ReadDigits(0, u) as int) else ReadDigits(0, u), SkipDigits(u)))
  }

  /** atoi */
  function Atoi(s: string): int
  {
    match ScanInt(s) case Some((n, _)) => n case None => 0
  }

  lemma {:induction false} ReadPrinted(n: nat, rest: string)
    ensures ReadDigits(0, Digits(n) + rest) == ReadDigits(n, rest)
    ensures SkipDigits(Digits(n) + rest) == SkipDigits(rest)
  {
    var d := [('0' as int + n % 10) as char];
    if n < 10 {
      assert Digits(n) + rest == d + rest && (d + rest)[1..] == rest;
    } else {
      assert Digits(n) + rest == Digits(n / 10) + (d + rest) && (d + rest)[1..] == rest;
      ReadPrinted(n / 10, d + rest);
    }
  }

  /** What is printed are the decimal digits, most significant first, behind a sign if there is one. */
  lemma PrintedDecimal(n: int, d: nat)
    requires 0 <= n && d < 10
    ensures PrintInt(d) == ["0123456789"[d]]
    ensures n > 0 ==> PrintInt(10 * n + d) == PrintInt(n) + PrintInt(d) && PrintInt(-n) == "-" + PrintInt(n)
  {
    hide Digits;
    OneDigit(d);
    if n > 0 {
      MoreDigits(n, d);
    }
  }

  lemma OneDigit(d: nat)
    requires d < 10
    ensures Digits(d) == ["0123456789"[d]]
  {
  }

  lemma MoreDigits(n: nat, d: nat)
    requires 0 < n && d < 10
    ensures Digits(10 * n + d) == Digits(n) + Digits(d)
  {
    assert (10 * n + d) / 10 == n && (10 * n + d) % 10 == d;
  }

  /** Printing and scanning: a number followed by anything but a digit is read back whole. */
  lemma ScanPrinted(n: int, rest: string)
    requires rest == "" || !IsDigit(rest[0])
    ensures ScanInt(PrintInt(n) + rest) == Some((n, rest))
  {
    hide Digits, ReadDigits, SkipDigits;
    var m := if n < 0 then -n else n;
    var s := PrintInt(n) + rest;
    ReadPrinted(m, rest);
    NoDigits(rest);
    if n < 0 {
      assert s[1..] == Digits(m) + rest;
      assert (Digits(m) + rest)[0] == Digits(m)[0];
    } else {
      assert s[0] == Digits(m)[0];
    }
  }

  lemma NoDigits(rest: string)
    requires rest == "" || !IsDigit(rest[0])
    ensures SkipDigits(rest) == rest && forall acc: nat :: ReadDigits(acc, rest) == acc
  {
  }

  lemma AtoiPrinted(n: int)
    ensures Atoi(PrintInt(n)) == n
  {
    ScanPrinted(n, "");
    assert PrintInt(n) + "" == PrintInt(n);
  }

  // ----- Strings ------------------------------------------------------------------------------------------

  /** strchr, as a position; the end if the character does not occur. */
  function Find(s: string, c: char): (k: nat)
    ensures k <= |s| && (k < |s| ==> s[k] == c) && forall i | 0 <= i < k :: s[i] != c
  {
    if s == "" || s[0] == c then 0 else 1 + Find(s[1..], c)
  }

  /** libamg_str_next_token: what stands before the separator and what stands behind it. */
  function NextToken(s: string, sep: char): Option<(string, string)>
  {
    var k := Find(s, sep);
    if k < |s| then Some((s[..k], s[k + 1..])) else None
  }

  function Leading(s: string, delims: set<char>): (n: nat)
    ensures n <= |s| && (n < |s| ==> s[n] !in delims) && forall i | 0 <= i < n :: s[i] in delims
  {
    if s != "" && s[0] in delims then 1 + Leading(s[1..], delims) else 0
  }

  function TokenLen(s: string, delims: set<char>): (n: nat)
    ensures n <= |s| && (n < |s| ==> s[n] in delims) && forall i | 0 <= i < n :: s[i] !in delims
  {
    if s != "" && s[0] !in delims then 1 + TokenLen(s[1..], delims) else 0
  }

  /**
   * The string at `value` after strtok(value, delims): cut behind its first token, with any leading
   * delimiters still in front; a string of nothing but delimiters stays as it is.
   */
  function Crop(value: string, delims: set<char>): (r: string)
    ensures r <= value
  {
    var k := Leading(value, delims);
    value[..k + TokenLen(value[k..], delims)]
  }

  lemma CropToken(v: string, end: string, delims: set<char>)
    requires v != "" && end != "" && end[0] in delims && forall i | 0 <= i < |v| :: v[i] !in delims
    ensures Crop(v + end, delims) == v
  {
    var s := v + end;
    assert Leading(s, delims) == 0 && s[0..] == s;
    assert s[|v|] == end[0] && forall i | 0 <= i < |v| :: s[i] == v[i];
    assert TokenLen(s, delims) == |v|;
  }

  /** libamg_str_striplf: drop trailing characters below the space. */
  function StripLf(s: string): (r: string)
    ensures r <= s && (r != "" ==> r[|r| - 1] >= ' ') && forall i | |r| <= i < |s| :: s[i] < ' '
  {
    if s != "" && s[|s| - 1] < ' ' then StripLf(s[..|s| - 1]) else s
  }

  /** libamg_str_striplf as the loop it is. */
  method StripInPlace(str: array<char>, len: nat) returns (ln: nat)
    requires len <= str.Length
    modifies str
    ensures ln <= len && old(str[..])[..ln] == StripLf(old(str[..])[..len])
    ensures str[..] == old(str[..])[..ln] + seq(len - ln, _ => '\0') + old(str[..])[len..]
  {
    ln := len;
    ghost var was := str[..];
    hide StripLf, Blanked;
    NothingBlanked(was, len);
    while ln > 0 && str[ln - 1] < ' '
      invariant ln <= len
      invariant StripLf(was[..len]) == StripLf(was[..ln])
      invariant str[..] == Blanked(was, ln, len)
    {
      BlankedNext(was, ln, len);
      assert str[..][ln - 1] == str[ln - 1];
      StripOne(was, ln);
      ln := ln - 1;
      ghost var before := str[..];
      str[ln] := '\0';
      assert str[..] == before[ln := '\0'];
    }
    if ln > 0 {
      BlankedNext(was, ln, len);
      assert str[..][ln - 1] == str[ln - 1];
    }
    StripNone(was[..ln]);
    BlankedIs(was, ln, len);
  }

  /** `s` with NULs from `n` to `len`. */
  function Blanked(s: string, n: nat, len: nat): (r: string)
    requires n <= len <= |s|
    ensures |r| == |s|
  {
    s[..n] + seq(len - n, _ => '\0') + s[len..]
  }

  lemma BlankedIs(s: string, n: nat, len: nat)
    requires n <= len <= |s|
    ensures Blanked(s, n, len) == s[..n] + seq(len - n, _ => '\0') + s[len..]
  {
  }

  lemma NothingBlanked(s: string, len: nat)
    requires len <= |s|
    ensures Blanked(s, len, len) == s
  {
  }

  lemma BlankedNext(s: string, n: nat, len: nat)
    requires 0 < n <= len <= |s|
    ensures Blanked(s, n, len)[n - 1] == s[n - 1]
    ensures Blanked(s, n, len)[n - 1 := '\0'] == Blanked(s, n - 1, len)
  {
  }

  lemma StripOne(s: string, n: nat)
    requires 0 < n <= |s| && s[n - 1] < ' '
    ensures StripLf(s[..n]) == StripLf(s[..n - 1])
  {
    assert s[..n][..n - 1] == s[..n - 1];
  }

  lemma StripNone(s: string)
    requires s == "" || s[|s| - 1] >= ' '
    ensures StripLf(s) == s
  {
  }

  // ----- Files of key=value lines ------------------------------------------------------------------------------

  /** What a parser does with a buffer: find the first '=', then crop the value. */
  function SettingOf(buf: string, delims: set<char>): Option<(string, string)>
  {
    match NextToken(buf, '=')
    case None => None
    case Some((key, value)) => Some((key, Crop(value, delims)))
  }

  type Apply<!C> = (C, string, string) -> C

  function ApplyPiece<C>(f: Apply<C>, delims: set<char>, c: C, buf: string): C
  {
    match SettingOf(buf, delims) case None => c case Some((key, value)) => f(c, key, value)
  }

  function ApplyPieces<C>(f: Apply<C>, delims: set<char>, c: C, bufs: seq<string>): C
    decreases |bufs|
  {
    if bufs == [] then c else ApplyPieces(f, delims, ApplyPiece(f, delims, c, bufs[0]), bufs[1..])
  }

  /** A parser on a whole file, reading with a buffer of `max` + 1 characters. */
  function ParseText<C>(f: Apply<C>, delims: set<char>, max: nat, c: C, text: string): C
    requires max > 0
  {
    ApplyPieces(f, delims, c, Pieces(text, max))
  }

  /** The parsers' loop of fgets, strchr and strtok. */
  method ParseFile<C>(f: Apply<C>, delims: set<char>, max: nat, init: C, text: string) returns (c: C)
    requires max > 0
    ensures c == ParseText(f, delims, max, init, text)
  {
    c := init;
    var rest := text;
    while rest != ""
      invariant ParseText(f, delims, max, init, text) == ParseText(f, delims, max, c, rest)
      decreases |rest|
    {
      hide Take, SettingOf;
      PiecesUnfold(rest, max);
      var n := Take(rest, max);
      var buf := rest[..n];
      assert Pieces(rest, max)[1..] == Pieces(Rest(rest, max), max);
      match SettingOf(buf, delims) {
        case None =>
        case Some((key, value)) => c := f(c, key, value);
      }
      rest := rest[n..];
    }
  }

  /** One fprintf of a printer: a setting, or a line without '='. */
  datatype Rec = Setting(key: string, value: string) | Plain(line: string)

  function Render(r: Rec): string
  {
    match r
    case Setting(k, v) => k + "=" + v + "\n"
    case Plain(l) => l + "\n"
  }

  function RenderAll(recs: seq<Rec>): string
  {
    if recs == [] then "" else Render(recs[0]) + RenderAll(recs[1..])
  }

  lemma {:induction false} RenderAppend(a: seq<Rec>, b: seq<Rec>)
    ensures RenderAll(a + b) == RenderAll(a) + RenderAll(b)
    decreases |a|
  {
    hide Render;
    if a == [] {
      assert a + b == b;
    } else {
      assert (a + b)[1..] == a[1..] + b;
      RenderAppend(a[1..], b);
    }
  }

  /** A value as far as its own line goes: parsers leave a newline at the end of values that were empty. */
  function Body(v: string): (r: string)
    ensures r <= v
  {
    if v != "" && v[|v| - 1] == '\n' then v[..|v| - 1] else v
  }

  /** What a parser sees of a printed value. */
  function Reread(v: string, delims: set<char>): string
  {
    Crop(Body(v) + "\n", delims)
  }

  predicate RecOk(r: Rec, max: nat)
  {
    match r
    case Setting(k, v) => '=' !in k && '\n' !in k && '\n' !in Body(v) && |k| + |Body(v)| + 2 <= max
    case Plain(l) => '=' !in l && '\n' !in l && |l| + 1 <= max
  }

  predicate AllOk(recs: seq<Rec>, max: nat)
  {
    forall i | 0 <= i < |recs| :: RecOk(recs[i], max)
  }

  lemma AllOkAppend(a: seq<Rec>, b: seq<Rec>, max: nat)
    requires AllOk(a, max) && AllOk(b, max)
    ensures AllOk(a + b, max)
  {
    hide RecOk;
  }

  /** A key of the printed files: short, on one line, and without the separator. */
  predicate KeyFits(k: string)
  {
    '=' !in k && '\n' !in k && |k| <= 30
  }

  lemma SettingOk(k: string, v: string, max: nat)
    requires KeyFits(k) && '\n' !in Body(v) && |Body(v)| + 32 <= max
    ensures RecOk(Setting(k, v), max)
  {
  }

  lemma WordOk(k: string, v: string, max: nat)
    requires KeyFits(k) && '\n' !in v && |v| + 32 <= max
    ensures RecOk(Setting(k, v), max)
  {
  }

  lemma PlainOk(l: string, max: nat)
    requires '=' !in l && '\n' !in l && |l| + 1 <= max
    ensures RecOk(Plain(l), max)
  {
  }

  function ApplyRec<C>(f: Apply<C>, delims: set<char>, c: C, r: Rec): C
  {
    match r
    case Setting(k, v) => f(c, k, Reread(v, delims))
    case Plain(_) => c
  }

  function ApplyRecs<C>(f: Apply<C>, delims: set<char>, c: C, recs: seq<Rec>): C
    decreases |recs|
  {
    if recs == [] then c else ApplyRecs(f, delims, ApplyRec(f, delims, c, recs[0]), recs[1..])
  }

  lemma FindFirst(a: string, c: char, b: string)
    requires c !in a
    ensures Find(a + [c] + b, c) == |a|
  {
    var s := a + [c] + b;
    assert s[|a|] == c && forall i | 0 <= i < |a| :: s[i] == a[i];
  }

  lemma SettingRead(k: string, w: string, delims: set<char>)
    requires '=' !in k
    ensures SettingOf(k + "=" + w, delims) == Some((k, Crop(w, delims)))
  {
    FindFirst(k, '=', w);
    var s := k + "=" + w;
    assert s[..|k|] == k && s[|k| + 1..] == w;
  }

  lemma NoSetting(l: string, delims: set<char>)
    requires '=' !in l
    ensures SettingOf(l, delims) == None
  {
  }

  /** One line, read back from the front of a file. */
  lemma ReadLine<C>(f: Apply<C>, delims: set<char>, max: nat, c: C, line: string, rest: string)
    requires '\n' !in line && |line| < max
    ensures ParseText(f, delims, max, c, line + "\n" + rest)
         == ParseText(f, delims, max, ApplyPiece(f, delims, c, line + "\n"), rest)
  {
    hide Take, Pieces, ApplyPiece;
    FirstPiece(line, rest, max);
    assert ([line + "\n"] + Pieces(rest, max))[1..] == Pieces(rest, max);
  }

  /** One printed record, read back from the front of a file. */
  lemma ReadRecord<C>(f: Apply<C>, delims: set<char>, max: nat, c: C, r: Rec, rest: string)
    requires max > 1 && RecOk(r, max)
    ensures ParseText(f, delims, max, c, Render(r) + rest)
         == ParseText(f, delims, max, ApplyRec(f, delims, c, r), rest)
  {
    hide ParseText, SettingOf, Crop, Body;
    match r
    case Plain(l) =>
      assert Render(r) + rest == l + "\n" + rest;
      ReadLine(f, delims, max, c, l, rest);
      NoSetting(l + "\n", delims);
    case Setting(k, v) =>
      var line := k + "=" + Body(v);
      assert line + "\n" == k + "=" + (Body(v) + "\n");
      SettingRead(k, Body(v) + "\n", delims);
      if v == Body(v) {
        assert Render(r) + rest == line + "\n" + rest;
        ReadLine(f, delims, max, c, line, rest);
      } else {
        BodyLine(v);
        assert Render(r) + rest == line + "\n" + ("" + "\n" + rest);
        ReadLine(f, delims, max, c, line, "" + "\n" + rest);
        ReadLine(f, delims, max, ApplyPiece(f, delims, c, line + "\n"), "", rest);
        NoSetting("" + "\n", delims);
      }
  }

  lemma BodyLine(v: string)
    requires v != Body(v)
    ensures v == Body(v) + "\n"
  {
  }

  /** A whole printed file, read back: every record is applied, in order. */
  lemma {:induction false} ReadRecords<C>(f: Apply<C>, delims: set<char>, max: nat, c: C, recs: seq<Rec>)
    requires max > 1 && forall i | 0 <= i < |recs| :: RecOk(recs[i], max)
    ensures ParseText(f, delims, max, c, RenderAll(recs)) == ApplyRecs(f, delims, c, recs)
    decreases |recs|
  {
    hide RecOk, Render, ApplyRec;
    if recs == [] {
      assert Pieces("", max) == [];
    } else {
      ReadRecord(f, delims, max, c, recs[0], RenderAll(recs[1..]));
      ReadRecords(f, delims, max, ApplyRec(f, delims, c, recs[0]), recs[1..]);
    }
  }

  lemma {:induction false} ApplyAppend<C>(f: Apply<C>, delims: set<char>, c: C, a: seq<Rec>, b: seq<Rec>)
    ensures ApplyRecs(f, delims, c, a + b) == ApplyRecs(f, delims, ApplyRecs(f, delims, c, a), b)
    decreases |a|
  {
    hide ApplyRec;
    if a == [] {
      assert a + b == b;
    } else {
      assert (a + b)[1..] == a[1..] + b;
      ApplyAppend(f, delims, ApplyRec(f, delims, c, a[0]), a[1..], b);
    }
  }

  // Short lists of records, one after the other.

  lemma ApplyTwo<C>(f: Apply<C>, delims: set<char>, c: C, r1: Rec, r2: Rec)
    ensures ApplyRecs(f, delims, c, [r1, r2]) == ApplyRec(f, delims, ApplyRec(f, delims, c, r1), r2)
  {
    hide ApplyRec;
    var c1 := ApplyRec(f, delims, c, r1);
    assert [r1, r2][1..] == [r2] && [r2][1..] == [];
    assert ApplyRecs(f, delims, c1, [r2]) == ApplyRecs(f, delims, ApplyRec(f, delims, c1, r2), []);
  }

  lemma ApplyThree<C>(f: Apply<C>, delims: set<char>, c: C, r1: Rec, r2: Rec, r3: Rec)
    ensures ApplyRecs(f, delims, c, [r1, r2, r3])
         == ApplyRec(f, delims, ApplyRec(f, delims, ApplyRec(f, delims, c, r1), r2), r3)
  {
    hide ApplyRec;
    ApplyTwo(f, delims, ApplyRec(f, delims, c, r1), r2, r3);
    assert [r1, r2, r3][1..] == [r2, r3];
  }

  lemma ApplyFour<C>(f: Apply<C>, delims: set<char>, c: C, r1: Rec, r2: Rec, r3: Rec, r4: Rec)
    ensures ApplyRecs(f, delims, c, [r1, r2, r3, r4])
         == ApplyRec(f, delims, ApplyRec(f, delims, ApplyRec(f, delims, ApplyRec(f, delims, c, r1), r2), r3), r4)
  {
    hide ApplyRec;
    ApplyThree(f, delims, ApplyRec(f, delims, c, r1), r2, r3, r4);
    assert [r1, r2, r3, r4][1..] == [r2, r3, r4];
  }

  /** A record that is printed only under a condition. */
  function If(b: bool, r: Rec): seq<Rec>
  {
    if b then [r] else []
  }

  lemma AllOkIf(b: bool, r: Rec, max: nat)
    requires b ==> RecOk(r, max)
    ensures AllOk(If(b, r), max)
  {
    hide RecOk;
  }

  lemma SettingIfOk(b: bool, k: string, v: string, max: nat)
    requires KeyFits(k) && '\n' !in Body(v) && |Body(v)| + 32 <= max
    ensures AllOk(If(b, Setting(k, v)), max)
  {
    SettingOk(k, v, max);
    AllOkIf(b, Setting(k, v), max);
  }

  lemma ApplyIf<C>(f: Apply<C>, delims: set<char>, c: C, b: bool, r: Rec)
    ensures ApplyRecs(f, delims, c, If(b, r)) == if b then ApplyRec(f, delims, c, r) else c
  {
    assert [r][1..] == [];
  }

  // ----- What common values look like when they are read back -------------------------------------------------

  /** A token: what is not empty and holds no delimiter is read back unchanged. */
  predicate Token(v: string, delims: set<char>)
  {
    v != "" && forall i | 0 <= i < |v| :: v[i] !in delims
  }

  lemma RereadToken(v: string, delims: set<char>)
    requires Token(v, delims) && '\n' in delims
    ensures Reread(v, delims) == v && Body(v) == v
  {
    hide Crop;
    CropToken(v, "\n", delims);
  }

  lemma PrintedIsToken(n: int, delims: set<char>)
    requires '-' !in delims && forall c | c in delims :: !IsDigit(c)
    ensures Token(PrintInt(n), delims)
  {
    hide PrintInt;
  }

  lemma RereadInt(n: int, delims: set<char>)
    requires '\n' in delims && '-' !in delims && forall c | c in delims :: !IsDigit(c)
    ensures Reread(PrintInt(n), delims) == PrintInt(n) && Body(PrintInt(n)) == PrintInt(n)
    ensures Atoi(Reread(PrintInt(n), delims)) == n
    ensures '\n' !in PrintInt(n)
  {
    hide Digits, Crop, PrintInt, Reread, Body;
    PrintedIsToken(n, delims);
    RereadToken(PrintInt(n), delims);
    AtoiPrinted(n);
  }

  function Pow10(k: nat): nat
  {
    if k == 0 then 1 else 10 * Pow10(k - 1)
  }

  lemma {:induction false} DigitsLength(n: nat, k: nat)
    requires k > 0 && n < Pow10(k)
    ensures |Digits(n)| <= k
  {
    if n >= 10 {
      DigitsLength(n / 10, k - 1);
    }
  }

  lemma PrintLength(n: int)
    ensures -0x8000_0000 <= n < 0x8000_0000 ==> |PrintInt(n)| <= 11
    ensures -0x8000 <= n < 0x8000 ==> |PrintInt(n)| <= 6
  {
    hide Digits;
    var m := if n < 0 then -n else n;
    assert Pow10(5) == 100000;
    assert Pow10(10) == 10000000000;
    if m < 100000 {
      DigitsLength(m, 5);
    } else if m < 10000000000 {
      DigitsLength(m, 10);
    }
  }

  lemma IntOk(k: string, n: int, max: nat)
    requires KeyFits(k) && -0x8000_0000 <= n < 0x8000_0000 && 43 <= max
    ensures RecOk(Setting(k, PrintInt(n)), max)
  {
    hide RecOk, PrintInt, KeyFits, Reread, Body, Atoi;
    PrintLength(n);
    RereadInt(n, {'\n'});
    WordOk(k, PrintInt(n), max);
  }
}
