/** String fields of a configuration: how a printed one is read back, and which of them come back unchanged. */
module Strings {
  import opened Text

  /** strncpy into a zeroed field. */
  function Copy(v: string, n: nat): (r: string)
    ensures |r| <= n && (|v| <= n ==> r == v)
  {
    if |v| <= n then v else v[..n]
  }

  /** A string field that prints on one line of at most `n` characters, but for a newline at its end. */
  predicate Line(v: string, n: nat)
  {
    '\n' !in Body(v) && |v| <= n
  }

  // ----- How one printed string is read ---------------------------------------------------------------------

  predicate Blank(s: string, delims: set<char>)
  {
    forall i | 0 <= i < |s| :: s[i] in delims
  }

  /** Any leading delimiters, then one word, then nothing. */
  predicate OneWord(s: string, delims: set<char>)
  {
    var k := Leading(s, delims);
    k < |s| && TokenLen(s[k..], delims) == |s| - k
  }

  lemma OneWordEnds(s: string, delims: set<char>)
    requires '\n' in delims && OneWord(s, delims)
    ensures s != "" && !Blank(s, delims) && s[|s| - 1] !in delims && Body(s) == s
  {
    var k := Leading(s, delims);
    assert s[k..][|s| - 1 - k] == s[|s| - 1];
    assert s[k..][0] == s[k];
  }

  lemma NotBlank(s: string, delims: set<char>)
    ensures Blank(s, delims) <==> Leading(s, delims) == |s|
  {
  }

  /** Nothing but delimiters: strtok leaves the whole value, newline included. */
  lemma RereadBlank(v: string, delims: set<char>)
    requires '\n' in delims && Blank(Body(v), delims)
    ensures Reread(v, delims) == Body(v) + "\n"
  {
    var s := Body(v) + "\n";
    assert Blank(s, delims);
    NotBlank(s, delims);
    assert s[|s|..] == "" && s[..|s|] == s;
  }

  /** Otherwise it leaves the first word and what stands before it. */
  lemma RereadWord(v: string, delims: set<char>)
    requires '\n' in delims && !Blank(Body(v), delims)
    ensures var w := Reread(v, delims);
      w <= Body(v) && OneWord(w, delims) && (w == Body(v) <==> OneWord(Body(v), delims))
  {
    hide Crop, OneWord, Body;
    CropLine(Body(v), delims);
    CropWord(Body(v), delims);
  }

  /** Cutting at the newline that printing adds is cutting the string itself. */
  lemma CropLine(b: string, delims: set<char>)
    requires '\n' in delims && !Blank(b, delims)
    ensures Crop(b + "\n", delims) == Crop(b, delims)
  {
    var s := b + "\n";
    var k := Leading(b, delims);
    NotBlank(b, delims);
    assert forall i | 0 <= i < |b| :: s[i] == b[i];
    assert Leading(s, delims) == k;
    SameToken(b[k..], "\n", delims);
    assert s[k..] == b[k..] + "\n";
    var n := TokenLen(b[k..], delims);
    assert s[..k + n] == b[..k + n];
  }

  lemma CropWord(b: string, delims: set<char>)
    requires !Blank(b, delims)
    ensures var w := Crop(b, delims);
      w <= b && OneWord(w, delims) && (w == b <==> OneWord(b, delims))
  {
    var k := Leading(b, delims);
    NotBlank(b, delims);
    var n := TokenLen(b[k..], delims);
    var w := b[..k + n];
    assert b[k..][0] == b[k] && n > 0;
    SameLeading(b, w, k, delims);
    assert w[k..] == b[k..][..n];
    WholeToken(b[k..], n, delims);
    assert w == b <==> k + n == |b|;
  }

  lemma SameLeading(b: string, w: string, k: nat, delims: set<char>)
    requires w <= b && k == Leading(b, delims) < |w|
    ensures Leading(w, delims) == k
  {
    assert forall i | 0 <= i < |w| :: w[i] == b[i];
  }

  lemma SameToken(t: string, end: string, delims: set<char>)
    requires end != "" && end[0] in delims
    ensures TokenLen(t + end, delims) == TokenLen(t, delims)
  {
    var s := t + end;
    assert forall i | 0 <= i < |t| :: s[i] == t[i];
    assert s[|t|] == end[0];
  }

  lemma WholeToken(t: string, n: nat, delims: set<char>)
    requires n == TokenLen(t, delims)
    ensures TokenLen(t[..n], delims) == n
  {
    assert forall i | 0 <= i < n :: t[..n][i] == t[i];
  }

  lemma RereadOneWord(w: string, delims: set<char>)
    requires '\n' in delims && OneWord(w, delims)
    ensures Reread(w, delims) == w && Body(w) == w
  {
    hide OneWord, Reread, Body;
    OneWordEnds(w, delims);
    RereadWord(w, delims);
  }

  // ----- A field that is always printed ---------------------------------------------------------------------

  /** What such a field of `n` characters holds after a round. */
  function Round(v: string, n: nat, delims: set<char>): (r: string)
    ensures |r| <= n
  {
    Copy(Reread(v, delims), n)
  }

  /** One word, or blanks that fill the field or end in a newline. */
  predicate Settled(v: string, n: nat, delims: set<char>)
  {
    OneWord(v, delims) || (v != "" && Blank(v, delims) && (v[|v| - 1] == '\n' || |v| == n))
  }

  lemma BlankBody(v: string, delims: set<char>)
    requires '\n' in delims
    ensures Blank(v, delims) <==> Blank(Body(v), delims)
  {
    if v != Body(v) {
      assert v == Body(v) + "\n";
    }
    assert forall i | 0 <= i < |Body(v)| :: Body(v)[i] == v[i];
    assert Body(v) != v ==> v[|v| - 1] in delims;
  }

  lemma RoundOfBlank(v: string, n: nat, delims: set<char>)
    requires '\n' in delims && Line(v, n) && 0 < n && Blank(Body(v), delims)
    ensures Round(v, n, delims) == if |Body(v)| < n then Body(v) + "\n" else Body(v)
  {
    hide Reread;
    RereadBlank(v, delims);
    var b := Body(v);
    assert (b + "\n")[..|b|] == b;
  }

  lemma RoundOfWord(v: string, n: nat, delims: set<char>)
    requires '\n' in delims && Line(v, n) && !Blank(Body(v), delims)
    ensures Round(v, n, delims) == Reread(v, delims)
    ensures OneWord(Reread(v, delims), delims) && Reread(v, delims) <= Body(v)
  {
    hide Reread, OneWord;
    RereadWord(v, delims);
  }

  /** A round brings a field to a form that a round keeps, and exactly the settled ones have it already. */
  lemma RoundSettles(v: string, n: nat, delims: set<char>)
    requires '\n' in delims && Line(v, n) && 0 < n
    ensures Settled(Round(v, n, delims), n, delims) && Line(Round(v, n, delims), n) && Round(v, n, delims) != ""
    ensures Round(v, n, delims) == v <==> Settled(v, n, delims)
  {
    hide Reread, OneWord, Round;
    BlankBody(v, delims);
    if Blank(Body(v), delims) {
      RoundOfBlank(v, n, delims);
      NoWordInBlank(v, delims);
      BlankLine(Body(v), n, delims);
    } else {
      RoundOfWord(v, n, delims);
      OneWordEnds(Reread(v, delims), delims);
      RereadWord(v, delims);
      if OneWord(v, delims) {
        OneWordEnds(v, delims);
      }
    }
  }

  lemma NoWordInBlank(v: string, delims: set<char>)
    requires Blank(v, delims)
    ensures !OneWord(v, delims)
  {
    NotBlank(v, delims);
  }

  lemma BlankLine(b: string, n: nat, delims: set<char>)
    requires '\n' in delims && Blank(b, delims) && '\n' !in b && |b| <= n && 0 < n
    ensures var r := if |b| < n then b + "\n" else b;
      Blank(r, delims) && r != "" && Body(r) == b && Line(r, n) && (r[|r| - 1] == '\n' || |r| == n)
  {
  }

  lemma RoundTwice(v: string, n: nat, delims: set<char>)
    requires '\n' in delims && Line(v, n) && 0 < n
    ensures Round(Round(v, n, delims), n, delims) == Round(v, n, delims)
  {
    hide Round, Settled, Line;
    RoundSettles(v, n, delims);
    RoundSettles(Round(v, n, delims), n, delims);
  }
}
