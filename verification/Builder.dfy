/** Building netlink messages in place: appended attributes, and nests whose length is patched afterwards. */
module Builder {
  import opened Bytes
  import opened Attributes

  /** A message under construction: the storage at `n` and the field n->nlmsg_len. */
  datatype Msg = Msg(bytes: seq<byte>, len: nat)

  /** NLMSG_TAIL, as an offset from the start of the message. */
  function Tail(m: Msg): nat
  {
    Align(m.len)
  }

  // ----- The operations as functions of the message ------------------------------------------

  function AddAttr(m: Msg, maxlen: nat, kind: int, payload: seq<byte>): (r: (Msg, bool))
    requires maxlen <= |m.bytes|
    ensures |r.0.bytes| == |m.bytes|
  {
    if Tail(m) + Align(4 + |payload|) > maxlen then (m, false)
    else (Msg(Splice(m.bytes, Tail(m), Header(4 + |payload|, kind) + payload), Tail(m) + Align(4 + |payload|)), true)
  }

  function AddRaw(m: Msg, maxlen: nat, raw: seq<byte>): (r: (Msg, bool))
    requires maxlen <= |m.bytes|
  {
    if Tail(m) + Align(|raw|) > maxlen then (m, false)
    else (Msg(Splice(m.bytes, Tail(m), raw + seq(Align(|raw|) - |raw|, _ => 0)), Tail(m) + Align(|raw|)), true)
  }

  /**
   * Raw bytes are refused without a change exactly if they do not fit; else they stand at the tail with zeros
   * up to the next multiple of four, which the length then includes, and no other byte changes.
   */
  lemma RawPlaced(m: Msg, maxlen: nat, raw: seq<byte>)
    requires maxlen <= |m.bytes|
    ensures var (m', ok) := AddRaw(m, maxlen, raw);
      var t := Align(m.len);
      && ok == (t + Align(|raw|) <= maxlen)
      && (!ok ==> m' == m)
      && (ok ==>
           && m'.len == t + Align(|raw|) && |m'.bytes| == |m.bytes|
           && m'.bytes[t..t + |raw|] == raw
           && (forall i | t + |raw| <= i < m'.len :: m'.bytes[i] == 0)
           && m'.bytes[..t] == m.bytes[..t] && m'.bytes[m'.len..] == m.bytes[m'.len..])
  {
    hide Align, Words;
  }

  /**
   * addattr_l refuses without a change exactly if header, payload and padding do not fit behind the tail;
   * else the header and the payload stand there, the length includes the padding, and no other byte changes.
   */
  lemma AttrPlaced(m: Msg, maxlen: nat, kind: int, p: seq<byte>)
    requires maxlen <= |m.bytes|
    ensures var (m', ok) := AddAttr(m, maxlen, kind, p);
      var t := Align(m.len);
      && ok == (t + Align(4 + |p|) <= maxlen)
      && (!ok ==> m' == m)
      && (ok ==>
           && m'.len == t + Align(4 + |p|) && |m'.bytes| == |m.bytes|
           && m'.bytes[t..t + 4 + |p|] == Put16((4 + |p|) % 0x1_0000) + Put16(kind % 0x1_0000) + p
           && m'.bytes[..t] == m.bytes[..t] && m'.bytes[t + 4 + |p|..] == m.bytes[t + 4 + |p|..])
  {
    hide Align, Words, Put16;
  }

  /** rta_addattr_l in the same terms; the length of the attribute around it grows to the end of the new one. */
  lemma SubPlaced(s: seq<byte>, rta: nat, maxlen: nat, kind: int, p: seq<byte>)
    requires rta + 4 <= |s| && rta + maxlen <= |s|
    ensures var (s', ok) := AddSub(s, rta, maxlen, kind, p);
      var t := rta + Align(RtaLen(s, rta));
      && ok == (Align(RtaLen(s, rta)) + Align(4 + |p|) <= maxlen)
      && (!ok ==> s' == s)
      && (ok && 4 <= RtaLen(s, rta) ==>
           && |s'| == |s|
           && s'[t..t + 4 + |p|] == Put16((4 + |p|) % 0x1_0000) + Put16(kind % 0x1_0000) + p
           && s'[rta..rta + 2] == Put16((Align(RtaLen(s, rta)) + Align(4 + |p|)) % 0x1_0000)
           && s'[..rta] == s[..rta] && s'[rta + 2..t] == s[rta + 2..t] && s'[t + 4 + |p|..] == s[t + 4 + |p|..])
  {
    hide Align, Words, Put16, Splice, RtaLen;
    var t := rta + Align(RtaLen(s, rta));
    var piece := Put16((4 + |p|) % 0x1_0000) + Put16(kind % 0x1_0000) + p;
    var len := Put16((Align(RtaLen(s, rta)) + Align(4 + |p|)) % 0x1_0000);
    if t + |piece| <= |s| && 4 <= RtaLen(s, rta) {
      Spliced(s, t, piece);
      Spliced(Splice(s, t, piece), rta, len);
      KeptBehind(s, Splice(s, t, piece), Splice(Splice(s, t, piece), rta, len), rta, t, |piece|);
    }
  }

  lemma Spliced(s: seq<byte>, off: nat, piece: seq<byte>)
    requires off + |piece| <= |s|
    ensures var r := Splice(s, off, piece);
      |r| == |s| && r[off..off + |piece|] == piece && r[..off] == s[..off] && r[off + |piece|..] == s[off + |piece|..]
  {
  }

  /** Two bytes at `a` and `n` bytes further behind were written; between and around them nothing changed. */
  lemma KeptBehind(s: seq<byte>, s1: seq<byte>, s2: seq<byte>, a: nat, t: nat, n: nat)
    requires a + 2 <= t && t + n <= |s| == |s1| == |s2|
    requires s1[..t] == s[..t] && s1[t + n..] == s[t + n..] && s2[..a] == s1[..a] && s2[a + 2..] == s1[a + 2..]
    ensures s2[..a] == s[..a] && s2[a + 2..t] == s[a + 2..t] && s2[t..t + n] == s1[t..t + n]
    ensures s2[t + n..] == s[t + n..]
  {
    assert s1[..t][..a] == s1[..a] && s[..t][..a] == s[..a];
    assert s1[..t][a + 2..] == s1[a + 2..t] && s[..t][a + 2..] == s[a + 2..t];
    assert s2[a + 2..][..t - (a + 2)] == s2[a + 2..t] && s1[a + 2..][..t - (a + 2)] == s1[a + 2..t];
    assert s2[a + 2..][t - (a + 2)..t + n - (a + 2)] == s2[t..t + n];
    assert s1[a + 2..][t - (a + 2)..t + n - (a + 2)] == s1[t..t + n];
    assert s2[a + 2..][t + n - (a + 2)..] == s2[t + n..] && s1[a + 2..][t + n - (a + 2)..] == s1[t + n..];
  }

  function NestEnd(m: Msg, nest: nat): Msg
    requires nest + 2 <= |m.bytes|
  {
    m.(bytes := Splice(m.bytes, nest, Put16(Low16(Tail(m) - nest))))
  }

  function CompatEnd(m: Msg, start: nat): Msg
    requires start + 4 <= |m.bytes| && start + Align(RtaLen(m.bytes, start)) + 2 <= |m.bytes|
  {
    var nest := start + Align(RtaLen(m.bytes, start));
    NestEnd(NestEnd(m, start), nest)
  }

  /** rta_addattr_l: append inside the attribute at `rta`, whose own length grows by what was added. */
  function AddSub(s: seq<byte>, rta: nat, maxlen: nat, kind: int, payload: seq<byte>): (r: (seq<byte>, bool))
    requires rta + 4 <= |s| && rta + maxlen <= |s|
    ensures |r.0| == |s|
  {
    var n := Align(RtaLen(s, rta));
    if n + Align(4 + |payload|) > maxlen then (s, false)
    else
      var s1 := Splice(s, rta + n, Header(4 + |payload|, kind) + payload);
      (Splice(s1, rta, Put16(Low16(n + Align(4 + |payload|)))), true)
  }

  /** The message with `body` written at its tail. */
  function Written(m: Msg, body: seq<byte>): Msg
    requires Tail(m) + |body| <= |m.bytes|
  {
    Msg(Splice(m.bytes, Tail(m), body), Tail(m) + |body|)
  }

  /** The message with a forest of attributes serialised at its tail. */
  function Placed(m: Msg, attrs: seq<Attr>): Msg
    requires Tail(m) + SizeAll(attrs) <= |m.bytes|
  {
    if attrs == [] then m else Written(m, SerialiseAll(attrs, m.bytes[Tail(m)..Tail(m) + SizeAll(attrs)]))
  }

  // ----- Back-patching yields the recursive serialisation --------------------------------------

  lemma WrittenTail(m: Msg, body: seq<byte>)
    requires Tail(m) + |body| <= |m.bytes| && Align(|body|) == |body|
    ensures Tail(Written(m, body)) == Tail(m) + |body|
  {
  }

  lemma AlignSums(f: nat, body: nat)
    requires Align(body) == body
    ensures Align(4 + f) == 4 + Align(f) && Align(8 + Align(f) + body) == 8 + Align(f) + body
  {
  }

  lemma WrittenTwice(m: Msg, a: seq<byte>, b: seq<byte>)
    requires Tail(m) + |a| + |b| <= |m.bytes| && Align(|a|) == |a|
    ensures Tail(Written(m, a)) == Tail(m) + |a|
    ensures Written(Written(m, a), b) == Written(m, a + b)
    ensures Written(m, a).bytes[Tail(m) + |a|..] == m.bytes[Tail(m) + |a|..]
  {
    SpliceAdjacent(m.bytes, Tail(m), a, b);
  }

  /** A header whose length is written last. */
  lemma PatchLength(s: seq<byte>, t: nat, first: int, len: uint16, kind: uint16, body: seq<byte>)
    requires t + 4 + |body| <= |s|
    ensures Splice(Splice(s, t, Header(first, kind) + body), t, Put16(len)) == Splice(s, t, Header(len, kind) + body)
  {
    SplicePatch(s, t, Header(first, kind) + body, 0, Put16(len));
    assert Splice(Header(first, kind) + body, 0, Put16(len)) == Header(len, kind) + body;
  }

  lemma EmptyAttr(m: Msg, maxlen: nat, kind: uint16)
    requires maxlen <= |m.bytes| && Tail(m) + 4 <= maxlen
    ensures AddAttr(m, maxlen, kind, []) == (Written(m, Header(4, kind)), true)
  {
    assert Header(4, kind) + [] == Header(4, kind);
  }

  /** addattr_nest, a body, then addattr_nest_end: the body behind a header with its length. */
  lemma NestWritten(m: Msg, maxlen: nat, kind: uint16, body: seq<byte>)
    requires maxlen <= |m.bytes| && Tail(m) + 4 + |body| <= maxlen
    requires 4 + |body| <= 0xFFFF && Align(|body|) == |body|
    ensures var m1 := AddAttr(m, maxlen, kind, []).0;
      && Tail(m1) == Tail(m) + 4
      && m1.bytes[Tail(m) + 4..] == m.bytes[Tail(m) + 4..]
      && NestEnd(Written(m1, body), Tail(m)) == Written(m, Header(4 + |body|, kind) + body)
  {
    hide Splice, Align, Words, Put16, Low16, Header, AddAttr;
    EmptyAttr(m, maxlen, kind);
    WrittenTwice(m, Header(4, kind), body);
    PatchLength(m.bytes, Tail(m), 4, 4 + |body|, kind, body);
  }

  /** What the two appends of addattr_nest_compat write; `pad` is what the padding bytes hold. */
  lemma CompatFront(m: Msg, maxlen: nat, kind: uint16, f: seq<byte>, pad: seq<byte>)
    requires maxlen <= |m.bytes| && Tail(m) + 8 + Align(|f|) <= maxlen && 4 + |f| <= 0xFFFF
    requires |f| + |pad| == Align(|f|) && pad == m.bytes[Tail(m) + 4 + |f|..Tail(m) + 4 + Align(|f|)]
    ensures AddAttr(AddAttr(m, maxlen, kind, f).0, maxlen, kind, []).0
         == Written(m, Header(4 + |f|, kind) + (f + pad) + Header(4, kind))
  {
    hide Splice, Align, Words, Put16, Low16, Header;
    var front := Header(4 + |f|, kind) + (f + pad);
    var m1 := AddAttr(m, maxlen, kind, f).0;
    SplicePadded(m.bytes, Tail(m), Header(4 + |f|, kind) + f, |pad|);
    assert Header(4 + |f|, kind) + f + pad == front;
    assert m1 == Written(m, front);
    EmptyAttr(m1, maxlen, kind);
    WrittenTwice(m, front, Header(4, kind));
  }

  /** addattr_nest_compat, a body, then addattr_nest_compat_end. */
  lemma CompatWritten(m: Msg, maxlen: nat, kind: uint16, f: seq<byte>, pad: seq<byte>, body: seq<byte>)
    requires maxlen <= |m.bytes| && Tail(m) + 8 + Align(|f|) + |body| <= maxlen
    requires 8 + Align(|f|) + |body| <= 0xFFFF && Align(|body|) == |body|
    requires |f| + |pad| == Align(|f|) && pad == m.bytes[Tail(m) + 4 + |f|..Tail(m) + 4 + Align(|f|)]
    ensures var m2 := AddAttr(AddAttr(m, maxlen, kind, f).0, maxlen, kind, []).0;
      && m2.len == Tail(m2) == Tail(m) + 8 + Align(|f|)
      && m2.bytes[Tail(m2)..] == m.bytes[Tail(m2)..]
      && RtaLen(Written(m2, body).bytes, Tail(m)) == 4 + |f|
      && CompatEnd(Written(m2, body), Tail(m))
         == Written(m, Header(8 + Align(|f|) + |body|, kind) + (f + pad + (Header(4 + |body|, kind) + body)))
  {
    hide Splice, Align, Words, Put16, Low16, Header, CompatEnd, NestEnd, AddAttr, RtaLen;
    CompatFront(m, maxlen, kind, f, pad);
    WrittenTwice(m, Header(4 + |f|, kind) + (f + pad) + Header(4, kind), body);
    AlignSums(|f|, |body|);
    CompatClosed(m, kind, |f|, f + pad, body);
  }

  /** Both lengths of a finished compat nest are patched; before that its first header tells the fixed part. */
  lemma CompatClosed(m: Msg, kind: uint16, f: nat, fixed: seq<byte>, body: seq<byte>)
    requires 4 + |fixed| == Align(4 + f) && Align(8 + |fixed| + |body|) == 8 + |fixed| + |body|
    requires Tail(m) + 8 + |fixed| + |body| <= |m.bytes| && 8 + |fixed| + |body| <= 0xFFFF
    ensures var open := Written(m, Header(4 + f, kind) + fixed + Header(4, kind) + body);
      && RtaLen(open.bytes, Tail(m)) == 4 + f
      && CompatEnd(open, Tail(m))
         == Written(m, Header(8 + |fixed| + |body|, kind) + (fixed + (Header(4 + |body|, kind) + body)))
  {
    hide Splice, Align, Words, Put16, Low16, Header, CompatEnd, Tail, RtaLen;
    var t, g := Tail(m), |fixed|;
    var all := Header(4 + f, kind) + fixed + Header(4, kind) + body;
    WrittenTail(m, all);
    HeaderWritten(m.bytes, t, 4 + f, kind, fixed + Header(4, kind) + body);
    assert Header(4 + f, kind) + (fixed + Header(4, kind) + body) == all;
    CompatEndWrites(Written(m, all), t, f, |body|);
    PatchBoth(m.bytes, t, all, 8 + g + |body|, 4 + g, 4 + |body|);
    PatchedWhole(4 + f, 8 + g + |body|, 4 + |body|, kind, fixed, body);
  }

  lemma CompatEndWrites(m: Msg, t: nat, f: nat, body: nat)
    requires m.len == Tail(m) == t + 4 + Align(4 + f) + body <= |m.bytes|
    requires RtaLen(m.bytes, t) == 4 + f && 4 + Align(4 + f) + body <= 0xFFFF
    ensures CompatEnd(m, t)
         == m.(bytes := Splice(Splice(m.bytes, t, Put16(4 + Align(4 + f) + body)), t + Align(4 + f), Put16(4 + body)))
  {
    hide Splice, Align, Words, Put16, Low16;
  }

  lemma HeaderWritten(s: seq<byte>, t: nat, len: uint16, kind: uint16, rest: seq<byte>)
    requires t + 4 + |rest| <= |s|
    ensures RtaLen(Splice(s, t, Header(len, kind) + rest), t) == len
  {
    var r := Splice(s, t, Header(len, kind) + rest);
    assert r[t] == Header(len, kind)[0] && r[t + 1] == Header(len, kind)[1];
  }

  lemma PatchedWhole(first: int, outer: uint16, inner: uint16, kind: uint16, fixed: seq<byte>, body: seq<byte>)
    ensures Splice(Splice(Header(first, kind) + fixed + Header(4, kind) + body, 0, Put16(outer)),
                   4 + |fixed|, Put16(inner))
         == Header(outer, kind) + (fixed + (Header(inner, kind) + body))
  {
  }

  lemma PatchBoth(s: seq<byte>, t: nat, whole: seq<byte>, outer: uint16, n: nat, inner: uint16)
    requires t + |whole| <= |s| && 2 <= n && n + 2 <= |whole|
    ensures Splice(Splice(Splice(s, t, whole), t, Put16(outer)), t + n, Put16(inner))
         == Splice(s, t, Splice(Splice(whole, 0, Put16(outer)), n, Put16(inner)))
  {
    SplicePatch(s, t, whole, 0, Put16(outer));
    SplicePatch(s, t, Splice(whole, 0, Put16(outer)), n, Put16(inner));
  }

  lemma PlacedNone(m: Msg)
    requires Tail(m) <= |m.bytes|
    ensures Placed(m, []) == m
  {
  }

  lemma PlacedOne(m: Msg, a: Attr)
    requires Tail(m) + Size(a) <= |m.bytes|
    ensures SizeAll([a]) == Size(a)
    ensures Placed(m, [a]) == Written(m, Serialise(a, m.bytes[Tail(m)..Tail(m) + Size(a)]))
  {
    hide Align, Words, Put16, Low16, Header, Splice;
    var u := m.bytes[Tail(m)..Tail(m) + Size(a)];
    assert u[..Size(a)] == u;
    assert SerialiseAll([a], u) == Serialise(a, u) + SerialiseAll([], u[Size(a)..]) == Serialise(a, u);
  }

  lemma ConsUnfolds(a: Attr, rest: seq<Attr>, under: seq<byte>)
    requires |under| == Size(a) + SizeAll(rest)
    ensures SizeAll([a]) == Size(a) && SizeAll([a] + rest) == |under|
    ensures SerialiseAll([a] + rest, under)
         == Serialise(a, under[..Size(a)]) + SerialiseAll(rest, under[Size(a)..])
  {
    hide Align, Words, Serialise, Length, Size;
    assert ([a] + rest)[1..] == rest;
  }

  lemma PlacedCons(m: Msg, a: Attr, rest: seq<Attr>)
    requires Tail(m) + Size(a) + SizeAll(rest) <= |m.bytes|
    ensures SizeAll([a]) == Size(a) && SizeAll([a] + rest) == Size(a) + SizeAll(rest)
    ensures Tail(Placed(m, [a])) == Tail(m) + Size(a)
    ensures Placed(Placed(m, [a]), rest) == Placed(m, [a] + rest)
  {
    hide Align, Words, Splice, Serialise, Length, Size, SizeAll, SerialiseAll;
    var t, n, k := Tail(m), Size(a), SizeAll(rest);
    var u := m.bytes[t..t + n + k];
    PlacedOne(m, a);
    ConsUnfolds(a, rest, u);
    SizeAligned(a);
    assert u[..n] == m.bytes[t..t + n];
    var first := Serialise(a, u[..n]);
    if rest == [] {
      assert [a] + rest == [a];
      PlacedNone(Placed(m, [a]));
    } else {
      WrittenTwice(m, first, SerialiseAll(rest, u[n..]));
      SameFrom(m.bytes, Written(m, first).bytes, t, t + n, t + n + k);
    }
  }

  lemma SizeAligned(a: Attr)
    ensures Align(Size(a)) == Size(a)
  {
  }

  lemma BuildsLeaf(m: Msg, maxlen: nat, a: Attr)
    requires maxlen <= |m.bytes| && Tail(m) + Size(a) <= maxlen && Length(a) <= 0xFFFF
    ensures SizeAll([a]) == Size(a)
    ensures a.Leaf? ==> AddAttr(m, maxlen, a.kind, a.payload) == (Placed(m, [a]), true)
  {
    hide Align, Words, Splice, Header;
    PlacedOne(m, a);
    if a.Leaf? {
      SplicePadded(m.bytes, Tail(m), Header(Length(a), a.kind) + a.payload, Size(a) - Length(a));
    }
  }

  lemma PlacedNest(m: Msg, maxlen: nat, kind: uint16, cs: seq<Attr>)
    requires maxlen <= |m.bytes| && Tail(m) + 4 + SizeAll(cs) <= maxlen && 4 + SizeAll(cs) <= 0xFFFF
    ensures Tail(AddAttr(m, maxlen, kind, []).0) + SizeAll(cs) <= maxlen
    ensures Size(Nest(kind, cs)) == 4 + SizeAll(cs)
    ensures NestEnd(Placed(AddAttr(m, maxlen, kind, []).0, cs), Tail(m)) == Placed(m, [Nest(kind, cs)])
  {
    hide Align, Words, Put16, Low16, Header, Splice, Size;
    hide SizeAll, Length, Serialise, Payload, SerialiseAll, NestEnd, CompatEnd;
    var t, k := Tail(m), SizeAll(cs);
    var under := m.bytes[t..t + 4 + k];
    var body := SerialiseAll(cs, under[4..]);
    NestWritten(m, maxlen, kind, body);
    var m1 := AddAttr(m, maxlen, kind, []).0;
    SameFrom(m.bytes, m1.bytes, t, t + 4, t + 4 + k);
    PlacedBody(m1, cs, body);
    SerialiseNest(kind, cs, under);
    PlacedOne(m, Nest(kind, cs));
  }

  lemma PlacedBody(m: Msg, cs: seq<Attr>, body: seq<byte>)
    requires Tail(m) == m.len && Tail(m) + SizeAll(cs) <= |m.bytes|
    requires body == SerialiseAll(cs, m.bytes[Tail(m)..Tail(m) + SizeAll(cs)])
    ensures Placed(m, cs) == Written(m, body)
  {
    hide Align, Words, SizeAll, SerialiseAll, Splice;
    if cs == [] {
      WrittenNone(m);
    }
  }

  lemma WrittenNone(m: Msg)
    requires Tail(m) == m.len <= |m.bytes|
    ensures SizeAll([]) == 0 && SerialiseAll([], []) == [] && Written(m, []) == m
  {
    assert Splice(m.bytes, Tail(m), []) == m.bytes;
  }

  lemma PlacedCompat(m: Msg, maxlen: nat, kind: uint16, f: seq<byte>, cs: seq<Attr>)
    requires maxlen <= |m.bytes| && Tail(m) + 8 + Align(|f|) + SizeAll(cs) <= maxlen
    requires 8 + Align(|f|) + SizeAll(cs) <= 0xFFFF
    ensures Size(Compat(kind, f, cs)) == 8 + Align(|f|) + SizeAll(cs)
    ensures var m2 := AddAttr(AddAttr(m, maxlen, kind, f).0, maxlen, kind, []).0;
      && Tail(m2) + SizeAll(cs) <= maxlen
      && RtaLen(Placed(m2, cs).bytes, Tail(m)) == 4 + |f|
      && CompatEnd(Placed(m2, cs), Tail(m)) == Placed(m, [Compat(kind, f, cs)])
  {
    hide Align, Words, Put16, Low16, Header, Splice, Size;
    hide SizeAll, Length, Serialise, Payload, SerialiseAll, NestEnd, CompatEnd, AddAttr;
    var t, g, k := Tail(m), Align(|f|), SizeAll(cs);
    var under := m.bytes[t..t + 8 + g + k];
    var pad, rest := under[4 + |f|..4 + g], under[4 + g..];
    var body := SerialiseAll(cs, rest[4..]);
    assert pad == m.bytes[t + 4 + |f|..t + 4 + g];
    CompatWritten(m, maxlen, kind, f, pad, body);
    var m2 := AddAttr(AddAttr(m, maxlen, kind, f).0, maxlen, kind, []).0;
    SameFrom(m.bytes, m2.bytes, t, t + 8 + g, t + 8 + g + k);
    assert rest[4..] == under[8 + g..];
    PlacedBody(m2, cs, body);
    SerialiseCompat(kind, f, cs, under);
    PlacedOne(m, Compat(kind, f, cs));
  }

  /** End to end: what was built at the tail of a message, read back level by level, is the tree. */
  lemma BuiltTreeDecodes(m: Msg, attrs: seq<Attr>)
    requires attrs != [] && Tail(m) + SizeAll(attrs) <= |m.bytes| && ShortAll(attrs)
    ensures var r := Placed(m, attrs);
      && r.len == Tail(m) + SizeAll(attrs) && |r.bytes| == |m.bytes|
      && Decode(r.bytes[Tail(m)..r.len], ShapesOf(attrs)) == Some(attrs)
      && r.bytes[..Tail(m)] == m.bytes[..Tail(m)] && r.bytes[r.len..] == m.bytes[r.len..]
  {
    hide Align, Words, Decode, ShapesOf, ShortAll, SerialiseAll, SizeAll;
    var under := m.bytes[Tail(m)..Tail(m) + SizeAll(attrs)];
    DecodeSerialised(attrs, under);
    var r := Placed(m, attrs);
    assert r.bytes[Tail(m)..r.len] == SerialiseAll(attrs, under);
  }

  // ----- The message object ----------------------------------------------------------------------

  class Message {
    const data: array<byte>
    var len: nat

    constructor (data: array<byte>, len: nat)
      ensures this.data == data && this.len == len
    {
      this.data := data;
      this.len := len;
    }

    ghost function View(): Msg
      reads this, data
    {
      Msg(data[..], len)
    }

    /** memcpy into the message at offset `off`. */
    method CopyIn(off: nat, src: seq<byte>)
      requires off + |src| <= data.Length
      modifies data
      ensures data[..] == Splice(old(data[..]), off, src)
    {
      hide Splice;
      var i := 0;
      SpliceNone(data[..], off);
      while i < |src|
        invariant 0 <= i <= |src|
        invariant data[..] == Splice(old(data[..]), off, src[..i])
      {
        SpliceAdjacent(old(data[..]), off, src[..i], [src[i]]);
        SpliceOne(data[..], off + i, src[i]);
        ghost var before := data[..];
        data[off + i] := src[i];
        assert data[..] == before[off + i := src[i]];
        assert src[..i] + [src[i]] == src[..i + 1];
        i := i + 1;
      }
      assert src[..i] == src;
    }

    /** rta_type, rta_len and the payload at offset `rta`; both header fields keep 16 bits. */
    method PutAttr(rta: nat, kind: int, payload: seq<byte>)
      requires rta + 4 + |payload| <= data.Length
      modifies data
      ensures data[..] == Splice(old(data[..]), rta, Header(4 + |payload|, kind) + payload)
    {
      ghost var before := data[..];
      hide Put16, Low16;
      CopyIn(rta + 2, Put16(Low16(kind)));
      CopyIn(rta, Put16(Low16(4 + |payload|)));
      CopyIn(rta + 4, payload);
      SpliceBefore(before, rta, Put16(Low16(4 + |payload|)), Put16(Low16(kind)));
      SpliceAdjacent(before, rta, Header(4 + |payload|, kind), payload);
    }

    /** addattr_l: nothing changes when the bound is exceeded; rta_len and rta_type keep 16 bits. */
    method AddAttrL(maxlen: nat, kind: int, payload: seq<byte>) returns (ok: bool)
      requires maxlen <= data.Length
      modifies this`len, data
      ensures (View(), ok) == AddAttr(old(View()), maxlen, kind, payload)
    {
      var n := 4 + |payload|;
      if Align(len) + Align(n) > maxlen {
        return false;
      }
      PutAttr(Align(len), kind, payload);
      len := Align(len) + Align(n);
      ok := true;
    }

    /** addattr32: one 32-bit value; the same message as the general append of its four bytes. */
    method AddAttr32(maxlen: nat, kind: int, value: uint32) returns (ok: bool)
      requires maxlen <= data.Length
      modifies this`len, data
      ensures (View(), ok) == AddAttr(old(View()), maxlen, kind, Put32(value))
    {
      if Align(len) + 8 > maxlen {
        return false;
      }
      PutAttr(Align(len), kind, Put32(value));
      len := Align(len) + 8;
      ok := true;
    }

    /** rta_addattr_l and, for a payload of four bytes, rta_addattr32. */
    method RtaAddAttrL(rta: nat, maxlen: nat, kind: int, payload: seq<byte>) returns (ok: bool)
      requires rta + 4 <= data.Length && rta + maxlen <= data.Length
      modifies data
      ensures (data[..], ok) == AddSub(old(data[..]), rta, maxlen, kind, payload)
    {
      hide Words, Put16, Low16, Header, Splice;
      var n := Align(data[rta] as int + 256 * data[rta + 1] as int);
      if n + Align(4 + |payload|) > maxlen {
        return false;
      }
      PutAttr(rta + n, kind, payload);
      CopyIn(rta, Put16(Low16(n + Align(4 + |payload|))));
      ok := true;
    }

    /** addraw_l: raw bytes, and unlike addattr_l zeroed padding. */
    method AddRawL(maxlen: nat, raw: seq<byte>) returns (ok: bool)
      requires maxlen <= data.Length
      modifies this`len, data
      ensures (View(), ok) == AddRaw(old(View()), maxlen, raw)
    {
      hide Align, Words, Splice;
      if Align(len) + Align(|raw|) > maxlen {
        return false;
      }
      ghost var before := data[..];
      CopyIn(Align(len), raw);
      SpliceAdjacent(before, Align(len), raw, seq(Align(|raw|) - |raw|, _ => 0));
      CopyIn(Align(len) + |raw|, seq(Align(|raw|) - |raw|, _ => 0));
      len := Align(len) + Align(|raw|);
      ok := true;
    }

    /** addattr_nest: an empty attribute; the result of the append is ignored, as in the original. */
    method AddNest(maxlen: nat, kind: int) returns (nest: nat)
      requires maxlen <= data.Length
      modifies this`len, data
      ensures View() == AddAttr(old(View()), maxlen, kind, []).0 && nest == Tail(old(View()))
    {
      nest := Align(len);
      var _ := AddAttrL(maxlen, kind, []);
    }

    method AddNestEnd(nest: nat)
      requires nest + 2 <= data.Length
      modifies data
      ensures View() == NestEnd(old(View()), nest)
    {
      CopyIn(nest, Put16(Low16(Align(len) - nest)));
    }

    method AddNestCompat(maxlen: nat, kind: int, fixed: seq<byte>) returns (start: nat)
      requires maxlen <= data.Length
      modifies this`len, data
      ensures View() == AddAttr(AddAttr(old(View()), maxlen, kind, fixed).0, maxlen, kind, []).0
      ensures start == Tail(old(View()))
    {
      start := Align(len);
      var _ := AddAttrL(maxlen, kind, fixed);
      var _ := AddNest(maxlen, kind);
    }

    method AddNestCompatEnd(start: nat)
      requires start + 4 <= data.Length && start + Align(RtaLen(data[..], start)) + 2 <= data.Length
      modifies data
      ensures View() == CompatEnd(old(View()), start)
    {
      hide Words, Low16, Put16, Splice;
      var nest := start + Align(data[start] as int + 256 * data[start + 1] as int);
      CopyIn(start, Put16(Low16(Align(len) - start)));
      AddNestEnd(nest);
    }

    /**
     * A whole attribute tree, built the way the library's clients do: append a leaf, or open a nest,
     * build its children and close it. The message then holds the recursive serialisation of the tree.
     */
    method Build(a: Attr, maxlen: nat)
      requires maxlen <= data.Length && Align(len) + Size(a) <= maxlen && Short(a)
      modifies this`len, data
      ensures Tail(old(View())) + SizeAll([a]) <= maxlen
      ensures View() == Placed(old(View()), [a])
      decreases a, 0
    {
      hide Align, Words, Splice, Header, Placed, SizeAll, Serialise, AddAttr;
      BuildsLeaf(View(), maxlen, a);
      match a
      case Leaf(k, p) =>
        var _ := AddAttrL(maxlen, k, p);
      case Nest(k, cs) =>
        BuildNest(k, cs, maxlen);
      case Compat(k, f, cs) =>
        BuildCompat(k, f, cs, maxlen);
    }

    method BuildNest(kind: uint16, cs: seq<Attr>, maxlen: nat)
      requires maxlen <= data.Length && Align(len) + 4 + SizeAll(cs) <= maxlen
      requires 4 + SizeAll(cs) <= 0xFFFF && ShortAll(cs)
      modifies this`len, data
      ensures Tail(old(View())) + SizeAll([Nest(kind, cs)]) <= maxlen
      ensures View() == Placed(old(View()), [Nest(kind, cs)])
      decreases cs, 1
    {
      hide Align, Words, Splice, Header, Placed, SizeAll, Size, Length, Serialise, AddAttr, NestEnd;
      PlacedNest(View(), maxlen, kind, cs);
      PlacedOne(View(), Nest(kind, cs));
      var nest := AddNest(maxlen, kind);
      BuildAll(cs, maxlen);
      AddNestEnd(nest);
    }

    method BuildCompat(kind: uint16, f: seq<byte>, cs: seq<Attr>, maxlen: nat)
      requires maxlen <= data.Length && Align(len) + 8 + Align(|f|) + SizeAll(cs) <= maxlen
      requires 8 + Align(|f|) + SizeAll(cs) <= 0xFFFF && ShortAll(cs)
      modifies this`len, data
      ensures Tail(old(View())) + SizeAll([Compat(kind, f, cs)]) <= maxlen
      ensures View() == Placed(old(View()), [Compat(kind, f, cs)])
      decreases cs, 1
    {
      hide Align, Words, Splice, Header, Placed, SizeAll, Size, Length, Serialise, AddAttr, CompatEnd, RtaLen;
      PlacedCompat(View(), maxlen, kind, f, cs);
      PlacedOne(View(), Compat(kind, f, cs));
      var start := AddNestCompat(maxlen, kind, f);
      BuildAll(cs, maxlen);
      AddNestCompatEnd(start);
    }

    method BuildAll(attrs: seq<Attr>, maxlen: nat)
      requires maxlen <= data.Length && Align(len) + SizeAll(attrs) <= maxlen && ShortAll(attrs)
      modifies this`len, data
      ensures View() == Placed(old(View()), attrs)
      decreases attrs, 0
    {
      hide Align, Words, Splice, Serialise, Placed;
      if attrs == [] {
        assert Placed(View(), attrs) == View() by { PlacedNone(View()); }
      } else {
        PlacedCons(View(), attrs[0], attrs[1..]);
        assert [attrs[0]] + attrs[1..] == attrs;
        Build(attrs[0], maxlen);
        BuildAll(attrs[1..], maxlen);
      }
    }
  }
}
