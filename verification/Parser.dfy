/** The attribute parsers as loops over a pointer and a remaining length. */
module Parser {
  import opened Bytes
  import opened Attributes

  /** The offsets among `w` that parse_rtattr_byindex keeps: the attributes of type at most `max`. */
  function UpTo(s: seq<byte>, w: seq<nat>, max: int): (r: seq<nat>)
    requires forall i | 0 <= i < |w| :: w[i] + 4 <= |s|
    ensures forall i | 0 <= i < |r| :: r[i] in w && r[i] + 4 <= |s| && RtaType(s, r[i]) <= max
    ensures forall i | 0 <= i < |w| && RtaType(s, w[i]) <= max :: w[i] in r
  {
    if w == [] then []
    else
      UpTo(s, w[..|w| - 1], max) + (if RtaType(s, w[|w| - 1]) <= max then [w[|w| - 1]] else [])
  }

  lemma WalkAdvances(s: seq<byte>, off: nat, hi: int, done: seq<nat>)
    requires hi <= |s| && RtaOk(s, off, hi)
    ensures done + Walk(s, off, hi) == done + [off] + Walk(s, off + Align(RtaLen(s, off)), hi)
  {
  }

  /** parse_rtattr: the signed length decreases; tb ends up with the last attribute of each type. */
  method ParseRtattr(tb: array<Option<nat>>, max: nat, s: seq<byte>, rta: nat, len: int)
    requires tb.Length == max + 1 && rta + len <= |s|
    modifies tb
    ensures forall t | 0 <= t <= max :: tb[t] == LastOfType(s, Walk(s, rta, rta + len), t)
  {
    hide Align, Words, Get16;
    for i := 0 to max + 1
      invariant forall t | 0 <= t < i :: tb[t] == None
    {
      tb[i] := None;
    }
    var p: nat, left: int := rta, len;
    ghost var done: seq<nat> := [];
    while 4 <= left && 4 <= RtaLen(s, p) && RtaLen(s, p) <= left
      invariant p + left == rta + len
      invariant done + Walk(s, p, p + left) == Walk(s, rta, rta + len)
      invariant forall i | 0 <= i < |done| :: done[i] + 4 <= |s|
      invariant forall t | 0 <= t <= max :: tb[t] == LastOfType(s, done, t)
      decreases left
    {
      WalkAdvances(s, p, p + left, done);
      if RtaType(s, p) <= max {
        tb[RtaType(s, p)] := Some(p);
      }
      assert (done + [p])[..|done|] == done;
      done := done + [p];
      p, left := p + Align(RtaLen(s, p)), left - Align(RtaLen(s, p));
    }
    assert Walk(s, p, p + left) == [] && done + [] == done;
  }

  /** parse_rtattr_byindex: the first `max` attributes of type at most `max`, in order. */
  method ParseRtattrByIndex(tb: array<Option<nat>>, max: nat, s: seq<byte>, rta: nat, len: int) returns (n: nat)
    requires max <= tb.Length && rta + len <= |s|
    modifies tb
    ensures var kept := UpTo(s, Walk(s, rta, rta + len), max);
      && n == (if |kept| < max then |kept| else max)
      && (forall i | 0 <= i < n :: tb[i] == Some(kept[i]))
      && (forall i | n <= i < max :: tb[i] == None)
    ensures forall i | max <= i < tb.Length :: tb[i] == old(tb[i])
  {
    hide Align, Words, Get16, RtaLen, RtaType, UpTo, Walk, Reached;
    for i := 0 to max
      invariant forall t | 0 <= t < i :: tb[t] == None
      invariant forall t | max <= t < tb.Length :: tb[t] == old(tb[t])
    {
      tb[i] := None;
    }
    n := 0;
    var p: nat, left: int := rta, len;
    ghost var done: seq<nat>, kept: seq<nat> := [], [];
    assert Reached(s, rta, rta + len, max, done, kept, p) by { ReachedFirst(s, rta, rta + len, max); }
    while 4 <= left && 4 <= RtaLen(s, p) && RtaLen(s, p) <= left
      invariant p + left == rta + len
      invariant Reached(s, rta, rta + len, max, done, kept, p)
      invariant n == |kept| <= max
      invariant forall i | 0 <= i < n :: tb[i] == Some(kept[i])
      invariant forall i | n <= i < max :: tb[i] == None
      invariant forall i | max <= i < tb.Length :: tb[i] == old(tb[i])
      decreases left
    {
      ReachedNext(s, rta, rta + len, max, done, kept, p);
      done := done + [p];
      if RtaType(s, p) <= max && n < max {
        kept := kept + [p];
        tb[n] := Some(p);
        n := n + 1;
      }
      p, left := p + Align(RtaLen(s, p)), left - Align(RtaLen(s, p));
    }
    ReachedLast(s, rta, rta + len, max, done, kept, p);
  }

  function FirstOf(w: seq<nat>, max: nat): seq<nat>
  {
    if |w| < max then w else w[..max]
  }

  /** A walk stands at `p` behind `done`; `kept` are the first `max` of these whose type is at most `max`. */
  ghost predicate Reached(s: seq<byte>, rta: nat, hi: int, max: nat, done: seq<nat>, kept: seq<nat>, p: nat)
    requires hi <= |s|
  {
    && done + Walk(s, p, hi) == Walk(s, rta, hi)
    && (forall i | 0 <= i < |done| :: done[i] + 4 <= |s|)
    && kept == FirstOf(UpTo(s, done, max), max)
  }

  lemma ReachedFirst(s: seq<byte>, rta: nat, hi: int, max: nat)
    requires hi <= |s|
    ensures Reached(s, rta, hi, max, [], [], rta)
  {
    assert [] + Walk(s, rta, hi) == Walk(s, rta, hi);
  }

  lemma ReachedNext(s: seq<byte>, rta: nat, hi: int, max: nat, done: seq<nat>, kept: seq<nat>, p: nat)
    requires hi <= |s| && Reached(s, rta, hi, max, done, kept, p) && RtaOk(s, p, hi)
    ensures Reached(s, rta, hi, max, done + [p], if RtaType(s, p) <= max && |kept| < max then kept + [p] else kept,
                    p + Align(RtaLen(s, p)))
  {
    hide Align, Words, Get16, UpTo, Walk;
    WalkAdvances(s, p, hi, done);
    UpToSnoc(s, done, p, max);
  }

  lemma ReachedLast(s: seq<byte>, rta: nat, hi: int, max: nat, done: seq<nat>, kept: seq<nat>, p: nat)
    requires hi <= |s| && Reached(s, rta, hi, max, done, kept, p) && !RtaOk(s, p, hi)
    ensures kept == FirstOf(UpTo(s, Walk(s, rta, hi), max), max)
  {
    hide UpTo;
    WalkEnds(s, p, hi);
    assert done + [] == done;
  }

  lemma UpToSnoc(s: seq<byte>, w: seq<nat>, o: nat, max: int)
    requires o + 4 <= |s| && forall i | 0 <= i < |w| :: w[i] + 4 <= |s|
    ensures UpTo(s, w + [o], max) == UpTo(s, w, max) + (if RtaType(s, o) <= max then [o] else [])
  {
    assert (w + [o])[..|w|] == w;
  }

  lemma WalkEnds(s: seq<byte>, off: nat, hi: int)
    requires hi <= |s| && !RtaOk(s, off, hi)
    ensures Walk(s, off, hi) == []
  {
  }

  /** RTA_PAYLOAD. */
  function PayloadLength(s: seq<byte>, rta: nat): int
    requires rta + 4 <= |s|
  {
    RtaLen(s, rta) - 4
  }

  /**
   * __parse_rtattr_nested_compat. The caller vouches for the attribute at `rta` and, when the payload
   * has room for one, for the nest behind the fixed structure.
   */
  method ParseNestedCompat(tb: array<Option<nat>>, max: nat, s: seq<byte>, rta: nat, len: nat) returns (ret: int)
    requires tb.Length == max + 1 && Within(s, rta, 0, |s|)
    requires PayloadLength(s, rta) >= Align(len) + 4 ==> Within(s, rta + 4 + Align(len), 0, |s|)
    modifies tb
    ensures ret == if PayloadLength(s, rta) < len then -1 else 0
    ensures ret == -1 ==> tb[..] == old(tb[..])
    ensures ret == 0 && PayloadLength(s, rta) >= Align(len) + 4 ==>
      var inner := rta + 4 + Align(len);
      forall t | 0 <= t <= max :: tb[t] == LastOfType(s, Walk(s, inner + 4, inner + RtaLen(s, inner)), t)
    ensures ret == 0 && PayloadLength(s, rta) < Align(len) + 4 ==> forall t | 0 <= t <= max :: tb[t] == None
  {
    if PayloadLength(s, rta) < len {
      return -1;
    }
    if PayloadLength(s, rta) >= Align(len) + 4 {
      var inner := rta + 4 + Align(len);
      ParseRtattr(tb, max, s, inner + 4, PayloadLength(s, inner));
      return 0;
    }
    for i := 0 to max + 1
      invariant forall t | 0 <= t < i :: tb[t] == None
    {
      tb[i] := None;
    }
    return 0;
  }

  /** The region parsed behind the fixed structure is the one CompatBody describes. */
  lemma CompatRegion(s: seq<byte>, rta: nat, len: nat)
    requires Within(s, rta, 0, |s|) && PayloadLength(s, rta) >= Align(len) + 4
    requires Within(s, rta + 4 + Align(len), 0, rta + RtaLen(s, rta))
    ensures var inner := rta + 4 + Align(len);
      CompatBody(RawAt(s, rta).payload, len) == Some(Region(s, inner + 4, inner + RtaLen(s, inner)))
  {
    hide Words;
    var payload := RawAt(s, rta).payload;
    var inner := rta + 4 + Align(len);
    assert payload[Align(len)..] == s[inner..rta + RtaLen(s, rta)];
    var n := RtaLen(s, inner);
    assert RtaLen(s[inner..rta + RtaLen(s, rta)], 0) == n;
    SliceOfSlice(s, inner, rta + RtaLen(s, rta), 4, n);
  }
}
