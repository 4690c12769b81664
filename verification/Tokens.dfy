/** Comma-separated lists as strtok takes them apart. */
module Tokens {
  import opened Attributes
  import opened Text

  const COMMA: set<char> := {','}

  /** One call of strtok: the token, and where the next call goes on. */
  function StrTok(s: string, delims: set<char>): (r: Option<(string, string)>)
    ensures r.Some? ==> r.value.0 != "" && |r.value.1| < |s|
  {
    var t := s[Leading(s, delims)..];
    var n := TokenLen(t, delims);
    if t == "" then None else Some((t[..n], if n < |t| then t[n + 1..] else ""))
  }

  /** All the tokens that successive calls deliver before NULL. */
  function Split(s: string, delims: set<char>): seq<string>
    decreases |s|
  {
    match StrTok(s, delims) case None => [] case Some((t, rest)) => [t] + Split(rest, delims)
  }

  function Join(items: seq<string>): string
  {
    if items == [] then ""
    else if |items| == 1 then items[0]
    else items[0] + "," + Join(items[1..])
  }

  lemma StrTokFirst(t: string, rest: string)
    requires Token(t, COMMA)
    ensures StrTok(t + "," + rest, COMMA) == Some((t, rest))
    ensures StrTok(t, COMMA) == Some((t, ""))
  {
    var s := t + "," + rest;
    assert Leading(s, COMMA) == 0 && s[0..] == s && Leading(t, COMMA) == 0 && t[0..] == t;
    assert s[|t|] == ',' && forall i | 0 <= i < |t| :: s[i] == t[i];
    assert TokenLen(s, COMMA) == |t| && s[..|t|] == t && s[|t| + 1..] == rest;
    assert TokenLen(t, COMMA) == |t| && t[..|t|] == t;
  }

  /** A joined list falls apart into its items. */
  lemma {:induction false} SplitJoin(items: seq<string>)
    requires forall i | 0 <= i < |items| :: Token(items[i], COMMA)
    ensures Split(Join(items), COMMA) == items
  {
    hide StrTok, Token;
    if items == [] {
      assert StrTok("", COMMA) == None by { EmptyHasNone(); }
    } else {
      assert Token(items[0], COMMA);
      StrTokFirst(items[0], Join(items[1..]));
      SplitJoin(items[1..]);
      assert Split("", COMMA) == [] by { EmptyHasNone(); }
    }
  }

  lemma EmptyHasNone()
    ensures StrTok("", COMMA) == None
  {
  }

  lemma {:induction false} JoinSnoc(items: seq<string>, last: string)
    ensures Join(items + [last]) == if items == [] then last else Join(items) + "," + last
  {
    if |items| > 0 {
      JoinSnoc(items[1..], last);
      assert (items + [last])[1..] == items[1..] + [last];
    }
  }
}
