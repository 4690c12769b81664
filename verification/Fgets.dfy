/** How a loop of fgets calls cuts a text. */
module Fgets {

  /** How many characters one fgets with room for `max` takes off the front of `s`. */
  function Take(s: string, max: nat): (n: nat)
    ensures n <= |s| && n <= max && (s != "" && max > 0 ==> n > 0)
    ensures forall i | 0 <= i < n - 1 :: s[i] != '\n'
    ensures n < max && n < |s| ==> n > 0 && s[n - 1] == '\n'
    decreases max
  {
    if s == "" || max == 0 then 0
    else if s[0] == '\n' then 1
    else 1 + Take(s[1..], max - 1)
  }

  function Rest(s: string, max: nat): (r: string)
    ensures |r| == |s| - Take(s, max)
  {
    s[Take(s, max)..]
  }

  /** The pieces that successive calls deliver: lines, or parts of lines that are too long. */
  function Pieces(s: string, max: nat): (r: seq<string>)
    requires max > 0
    ensures forall i | 0 <= i < |r| :: r[i] != ""
    decreases |s|
  {
    if s == "" then [] else [s[..Take(s, max)]] + Pieces(Rest(s, max), max)
  }

  lemma PiecesUnfold(s: string, max: nat)
    requires s != "" && max > 0
    ensures 0 < Take(s, max) <= |s| && Pieces(s, max) == [s[..Take(s, max)]] + Pieces(Rest(s, max), max)
  {
  }

  /** The cut depends only on the characters that are taken. */
  lemma {:induction false} TakeSame(s: string, t: string, n: nat, max: nat)
    requires |s| == |t| && n == Take(s, max) && forall i | 0 <= i < n :: s[i] == t[i]
    ensures Take(t, max) == n
    decreases max
  {
    if s != "" && max > 0 && s[0] != '\n' {
      TakeSame(s[1..], t[1..], n - 1, max - 1);
    }
  }

  /** A line that fits the buffer is one piece. */
  lemma {:induction false} TakeLine(line: string, rest: string, max: nat)
    requires '\n' !in line && |line| < max
    ensures Take(line + "\n" + rest, max) == |line| + 1
    decreases |line|
  {
    var s := line + "\n" + rest;
    if line != "" {
      assert s[1..] == line[1..] + "\n" + rest;
      TakeLine(line[1..], rest, max - 1);
    }
  }

  lemma FirstPiece(line: string, rest: string, max: nat)
    requires '\n' !in line && |line| < max
    ensures Pieces(line + "\n" + rest, max) == [line + "\n"] + Pieces(rest, max)
  {
    hide Take;
    TakeLine(line, rest, max);
    var s := line + "\n" + rest;
    PiecesUnfold(s, max);
    assert s[..|line| + 1] == line + "\n" && Rest(s, max) == rest;
  }
}
