/** Runs of appends to one message, and appends inside an open nest. */
module Appends {
  import opened Bytes
  import opened Attributes
  import opened Builder

  /** One call of addattr_l or addattr32. */
  datatype Append = Data(kind: int, payload: seq<byte>) | Word(kind: int, value: uint32)

  function PayloadOf(op: Append): seq<byte>
  {
    match op
    case Data(_, p) => p
    case Word(_, v) => Put32(v)
  }

  /** rta_len can hold the length of this append. */
  predicate Fits16(op: Append)
  {
    4 + |PayloadOf(op)| <= 0xFFFF
  }

  function Step(m: Msg, maxlen: nat, op: Append): (r: (Msg, bool))
    requires maxlen <= |m.bytes|
    ensures |r.0.bytes| == |m.bytes|
  {
    AddAttr(m, maxlen, op.kind, PayloadOf(op))
  }

  function Run(m: Msg, maxlen: nat, ops: seq<Append>): (r: Msg)
    requires maxlen <= |m.bytes|
    ensures |r.bytes| == |m.bytes|
    decreases |ops|
  {
    if ops == [] then m else Run(Step(m, maxlen, ops[0]).0, maxlen, ops[1..])
  }

  /** The appends of a run that returned 0, as the attributes they asked for. */
  function Accepted(m: Msg, maxlen: nat, ops: seq<Append>): seq<Raw>
    requires maxlen <= |m.bytes|
    decreases |ops|
  {
    if ops == [] then []
    else
      var (m1, ok) := Step(m, maxlen, ops[0]);
      (if ok then [Raw(Low16(ops[0].kind), PayloadOf(ops[0]))] else []) + Accepted(m1, maxlen, ops[1..])
  }

  /** Nothing below `n` differs. */
  predicate SameBelow(s: seq<byte>, s': seq<byte>, n: nat)
  {
    |s| == |s'| && forall i | 0 <= i < n && i < |s| :: s[i] == s'[i]
  }

  /**
   * One append: refused without a trace, or written behind everything there was; it reads back as
   * asked if its length fits rta_len.
   */
  lemma StepKeeps(m: Msg, maxlen: nat, op: Append)
    requires m.len <= maxlen <= |m.bytes|
    ensures var (m1, ok) := Step(m, maxlen, op);
      && m1.len <= maxlen
      && SameBelow(m.bytes, m1.bytes, Tail(m))
      && (if ok then Tail(m) < m1.len == Tail(m1) else m1 == m)
      && (ok && Fits16(op) ==> ReadsAt(m1, Tail(m), Raw(Low16(op.kind), PayloadOf(op))))
  {
    hide Words, Put32, Splice, Header, Low16, RtaLen, RtaType;
    var p, t := PayloadOf(op), Tail(m);
    var (m1, ok) := Step(m, maxlen, op);
    if ok {
      SpliceFrame(m.bytes, t, Header(4 + |p|, op.kind) + p);
      if Fits16(op) {
        AttrWritten(m.bytes, t, op.kind, p);
      }
    }
  }

  lemma SpliceFrame(s: seq<byte>, off: nat, piece: seq<byte>)
    requires off + |piece| <= |s|
    ensures SameBelow(s, Splice(s, off, piece), off)
  {
  }

  lemma AttrWritten(s: seq<byte>, t: nat, kind: int, p: seq<byte>)
    requires 4 + |p| <= 0xFFFF && t + 4 + |p| <= |s|
    ensures var r := Splice(s, t, Header(4 + |p|, kind) + p);
      RtaLen(r, t) == 4 + |p| && RtaType(r, t) == Low16(kind) && r[t + 4..t + 4 + |p|] == p
  {
    hide Low16, Header;
    var h := Header(4 + |p|, kind);
    var r := Splice(s, t, h + p);
    HeaderReads(4 + |p|, Low16(kind), []);
    assert h == Header(4 + |p|, Low16(kind)) by { HeaderKeeps(4 + |p|, kind); }
    assert h + [] == h;
    assert r[t] == h[0] && r[t + 1] == h[1] && r[t + 2] == h[2] && r[t + 3] == h[3];
  }

  lemma HeaderKeeps(len: int, kind: int)
    ensures Header(len, Low16(kind)) == Header(len, kind)
  {
    hide Low16;
  }

  /** The parser finds `raw` at offset `t`, and nothing behind it. */
  predicate ReadsAt(m: Msg, t: nat, raw: Raw)
  {
    && m.len <= |m.bytes| && RtaOk(m.bytes, t, m.len)
    && t + Align(RtaLen(m.bytes, t)) == m.len
    && RawAt(m.bytes, t) == raw
  }

  /** Reading at `o` depends only on the bytes of the attribute there. */
  lemma SameAttr(s: seq<byte>, s': seq<byte>, o: nat, next: nat, hi: int)
    requires next <= hi <= |s| && SameBelow(s, s', next)
    requires RtaOk(s, o, next) && o + Align(RtaLen(s, o)) == next
    ensures RtaOk(s', o, hi) && RtaLen(s', o) == RtaLen(s, o) && RawAt(s', o) == RawAt(s, o)
  {
    hide Align, Words;
    assert s[o + 4..o + RtaLen(s, o)] == s'[o + 4..o + RtaLen(s, o)];
  }

  /**
   * Over any run of appends, accepted or refused: the length stays within the bound and is aligned
   * after the first success, what was there before is untouched, and a run of refusals changes nothing.
   */
  lemma {:induction false} RunKeeps(m: Msg, maxlen: nat, ops: seq<Append>)
    requires m.len <= maxlen <= |m.bytes|
    ensures var r := Run(m, maxlen, ops);
      && r.len <= maxlen
      && SameBelow(m.bytes, r.bytes, Tail(m))
      && (if Accepted(m, maxlen, ops) == [] then r == m else Tail(m) < r.len && Align(r.len) == r.len)
    decreases |ops|
  {
    hide Align, Words, Step, ReadsAt;
    if ops != [] {
      StepKeeps(m, maxlen, ops[0]);
      RunKeeps(Step(m, maxlen, ops[0]).0, maxlen, ops[1..]);
    }
  }

  /** Header and payload of each attribute fit the 16 bits of rta_len. */
  predicate ShortRaws(raws: seq<Raw>)
  {
    forall i | 0 <= i < |raws| :: 4 + |raws[i].payload| <= 0xFFFF
  }

  /** No parser ever reports a payload that rta_len could not describe. */
  lemma {:induction false} LevelIsShort(s: seq<byte>)
    ensures ShortRaws(Level(s))
    decreases |s|
  {
    hide Words;
    if RtaOk(s, 0, |s|) {
      var n := RtaLen(s, 0);
      LevelIsShort(if Align(n) <= |s| then s[Align(n)..] else []);
    }
  }

  /**
   * What the parser reads after any run of appends, accepted or refused, is exactly the accepted ones
   * in order, if and only if each accepted one fits rta_len, which addattr_l does not check.
   */
  lemma RunReads(m: Msg, maxlen: nat, ops: seq<Append>)
    requires m.len <= maxlen <= |m.bytes|
    ensures var r := Run(m, maxlen, ops);
      && r.len <= |r.bytes|
      && (Level(Region(r.bytes, Tail(m), r.len)) == Accepted(m, maxlen, ops) <==> ShortRaws(Accepted(m, maxlen, ops)))
  {
    hide Level, Accepted, Run, ShortRaws;
    RunKeeps(m, maxlen, ops);
    var r := Run(m, maxlen, ops);
    LevelIsShort(Region(r.bytes, Tail(m), r.len));
    if ShortRaws(Accepted(m, maxlen, ops)) {
      RunReadsShort(m, maxlen, ops);
    }
  }

  lemma {:induction false} RunReadsShort(m: Msg, maxlen: nat, ops: seq<Append>)
    requires m.len <= maxlen <= |m.bytes| && ShortRaws(Accepted(m, maxlen, ops))
    ensures var r := Run(m, maxlen, ops);
      r.len <= |r.bytes| && Level(Region(r.bytes, Tail(m), r.len)) == Accepted(m, maxlen, ops)
    decreases |ops|
  {
    hide Align, Words, Step, Low16;
    RunKeeps(m, maxlen, ops);
    if ops != [] {
      var (m1, ok) := Step(m, maxlen, ops[0]);
      StepKeeps(m, maxlen, ops[0]);
      var all, rest := Accepted(m, maxlen, ops), Accepted(m1, maxlen, ops[1..]);
      assert all[|all| - |rest|..] == rest;
      assert ShortRaws(rest);
      RunReadsShort(m1, maxlen, ops[1..]);
      if ok {
        assert all[0] == Raw(Low16(ops[0].kind), PayloadOf(ops[0])) && Fits16(ops[0]);
        RunKeeps(m1, maxlen, ops[1..]);
        RunGrows(m, m1, maxlen, ops[1..], all[0]);
      }
    }
  }

  lemma RunGrows(m: Msg, m1: Msg, maxlen: nat, rest: seq<Append>, raw: Raw)
    requires m1.len <= maxlen <= |m1.bytes| && Tail(m) < m1.len == Tail(m1) && ReadsAt(m1, Tail(m), raw)
    requires var r := Run(m1, maxlen, rest);
      m1.len <= r.len <= |m1.bytes| && SameBelow(m1.bytes, r.bytes, m1.len)
    ensures var r := Run(m1, maxlen, rest);
      Level(Region(r.bytes, Tail(m), r.len)) == [raw] + Level(Region(r.bytes, m1.len, r.len))
  {
    hide Align, Words, Step, Run, Level;
    var r, t := Run(m1, maxlen, rest), Tail(m);
    SameAttr(m1.bytes, r.bytes, t, m1.len, r.len);
    LevelStep(r.bytes, t, r.len);
  }

  /**
   * parse_rtattr on the message returns, for each type, the payload of the last accepted append, if
   * the accepted ones fit rta_len.
   */
  lemma RunParses(m: Msg, maxlen: nat, ops: seq<Append>, t: int)
    requires m.len <= maxlen <= |m.bytes| && ShortRaws(Accepted(m, maxlen, ops))
    ensures var r := Run(m, maxlen, ops);
      && r.len <= |r.bytes|
      && var o := LastOfType(r.bytes, Walk(r.bytes, Tail(m), r.len), t);
         LastPayload(Accepted(m, maxlen, ops), t) == if o.Some? then Some(RawAt(r.bytes, o.value).payload) else None
  {
    hide Level, Accepted, Run, ShortRaws, LastOfType, Walk;
    RunReads(m, maxlen, ops);
    var r := Run(m, maxlen, ops);
    TableHoldsLast(r.bytes, Tail(m), r.len, t);
  }

  /** Later appends leave the attributes of a run readable as they were: they only add to them. */
  lemma {:induction false} AcceptedExtends(m: Msg, maxlen: nat, ops: seq<Append>, more: seq<Append>)
    requires maxlen <= |m.bytes|
    ensures Run(m, maxlen, ops + more) == Run(Run(m, maxlen, ops), maxlen, more)
    ensures Accepted(m, maxlen, ops + more)
         == Accepted(m, maxlen, ops) + Accepted(Run(m, maxlen, ops), maxlen, more)
    decreases |ops|
  {
    hide Step;
    if ops == [] {
      assert ops + more == more;
    } else {
      assert (ops + more)[0] == ops[0] && (ops + more)[1..] == ops[1..] + more;
      AcceptedExtends(Step(m, maxlen, ops[0]).0, maxlen, ops[1..], more);
    }
  }

  /**
   * addattr_l accepts payloads that the 16-bit rta_len cannot describe: an accepted append reads back
   * as what was asked for if and only if header and payload are at most 65535 bytes.
   */
  lemma AppendReadsBack(m: Msg, maxlen: nat, op: Append)
    requires m.len <= maxlen <= |m.bytes| && Step(m, maxlen, op).1
    ensures var r := Step(m, maxlen, op).0;
      && r.len <= |r.bytes|
      && (Level(Region(r.bytes, Tail(m), r.len)) == [Raw(Low16(op.kind), PayloadOf(op))] <==> Fits16(op))
  {
    hide Align, Words, Level, Step, ShortRaws, Low16;
    RunOfOne(m, maxlen, op);
    RunReads(m, maxlen, [op]);
    ShortOne(Raw(Low16(op.kind), PayloadOf(op)));
  }

  lemma ShortOne(raw: Raw)
    ensures ShortRaws([raw]) <==> 4 + |raw.payload| <= 0xFFFF
  {
    assert [raw][0] == raw;
  }

  lemma RunOfOne(m: Msg, maxlen: nat, op: Append)
    requires maxlen <= |m.bytes|
    ensures Run(m, maxlen, [op]) == Step(m, maxlen, op).0
    ensures Accepted(m, maxlen, [op])
         == if Step(m, maxlen, op).1 then [Raw(Low16(op.kind), PayloadOf(op))] else []
  {
    hide Step, Low16;
    assert [op][1..] == [];
  }

  /** 70000 bytes of payload are accepted, and the parser sees an attribute of 4468 bytes instead. */
  lemma OversizedIsAccepted()
    ensures var m, op := Msg(seq(80000, _ => 0), 0), Data(1, seq(70000, _ => 0));
      && Step(m, 80000, op).1
      && RtaLen(Step(m, 80000, op).0.bytes, 0) == 4468
      && Level(Region(Step(m, 80000, op).0.bytes, 0, 70004)) != Accepted(m, 80000, [op])
  {
    hide Level, Words;
    var m: Msg, op := Msg(seq(80000, _ => 0), 0), Data(1, seq(70000, _ => 0));
    assert |m.bytes| == 80000 && |PayloadOf(op)| == 70000 && Tail(m) == 0;
    var r := Step(m, 80000, op).0;
    assert Align(70004) == 70004 && r.len == 70004;
    var h := Header(70004, 1);
    assert r.bytes[..4] == h && h[..2] == Put16(4468);
    assert r.bytes[0] == h[0] && r.bytes[1] == h[1] && h[0] == Put16(4468)[0] && h[1] == Put16(4468)[1];
    RunOfOne(m, 80000, op);
    AppendReadsBack(m, 80000, op);
  }

  /** What addattr32 stored is read back as the same word. */
  lemma WordReadsBack(m: Msg, maxlen: nat, kind: int, value: uint32)
    requires m.len <= maxlen <= |m.bytes| && Step(m, maxlen, Word(kind, value)).1
    ensures var r := Step(m, maxlen, Word(kind, value)).0;
      && r.len == Tail(m) + 8 <= |r.bytes|
      && RawAt(r.bytes, Tail(m)).kind == Low16(kind)
      && Get32(r.bytes, Tail(m) + 4) == value
  {
    hide Words, Put32, Get32, Low16;
    var r, t := Step(m, maxlen, Word(kind, value)).0, Tail(m);
    StepKeeps(m, maxlen, Word(kind, value));
    assert r.bytes[t + 4..t + 8] == Put32(value);
    GetPut32(value);
    GetFrom(r.bytes, t + 4);
  }

  lemma GetFrom(s: seq<byte>, i: nat)
    requires i + 4 <= |s|
    ensures Get32(s[i..i + 4], 0) == Get32(s, i)
  {
  }

  lemma SizeFirst(cs: seq<Attr>)
    requires cs != []
    ensures SizeAll(cs) == Size(cs[0]) + SizeAll(cs[1..])
  {
  }

  lemma {:induction false} SerialiseSnoc(cs: seq<Attr>, a: Attr, u: seq<byte>, v: seq<byte>)
    requires |u| == SizeAll(cs) && |v| == Size(a)
    ensures SizeAll(cs + [a]) == SizeAll(cs) + Size(a)
    ensures SerialiseAll(cs + [a], u + v) == SerialiseAll(cs, u) + Serialise(a, v)
    decreases |cs|
  {
    hide Align, Words, Serialise, Size, Length;
    if cs == [] {
      assert cs + [a] == [a] + [] && u + v == v;
      ConsUnfolds(a, [], v);
      assert v[..Size(a)] == v;
    } else {
      hide SerialiseAll, SizeAll;
      SizeFirst(cs);
      var c, rest, n := cs[0], cs[1..], Size(cs[0]);
      assert cs + [a] == [c] + (rest + [a]) && cs == [c] + rest;
      SerialiseSnoc(rest, a, u[n..], v);
      ConsUnfolds(c, rest + [a], u + v);
      ConsUnfolds(c, rest, u);
      SliceSum(u, v, n);
      Associative(Serialise(c, u[..n]), SerialiseAll(rest, u[n..]), Serialise(a, v));
    }
  }

  lemma SliceSum(u: seq<byte>, v: seq<byte>, n: nat)
    requires n <= |u|
    ensures (u + v)[..n] == u[..n] && (u + v)[n..] == u[n..] + v
  {
  }

  lemma Associative(a: seq<byte>, b: seq<byte>, c: seq<byte>)
    ensures a + (b + c) == a + b + c
  {
  }

  /** rta_addattr_l on an open nest adds a leaf behind its children and keeps the nest well formed. */
  lemma SubAppended(s: seq<byte>, rta: nat, maxlen: nat, nest: uint16, cs: seq<Attr>, u: seq<byte>,
                    kind: uint16, p: seq<byte>)
    requires |u| == 4 + SizeAll(cs) && rta + |u| <= |s| && rta + maxlen <= |s|
    requires s[rta..rta + |u|] == InnerNest(nest, cs, u)
    requires |u| + Size(Leaf(kind, p)) <= maxlen && |u| + Size(Leaf(kind, p)) <= 0xFFFF
    ensures AddSub(s, rta, maxlen, kind, p).1
    ensures var n := |u| + Size(Leaf(kind, p));
      && SizeAll(cs + [Leaf(kind, p)]) == n - 4
      && AddSub(s, rta, maxlen, kind, p).0[rta..rta + n]
         == InnerNest(nest, cs + [Leaf(kind, p)], u + s[rta + |u|..rta + n])
  {
    hide Align, Words, Put16, Low16, SizeAll, SerialiseAll, Serialise, Header, AddSub, RtaLen, Splice;
    var a := Leaf(kind, p);
    var v := s[rta + |u|..rta + |u| + Size(a)];
    SerialiseSnoc(cs, a, u[4..], v);
    assert (u + v)[4..] == u[4..] + v;
    var body := SerialiseAll(cs, u[4..]);
    Resplice(s, rta, Header(|u|, nest) + body);
    HeaderWritten(s, rta, |u|, nest, body);
    SubWrites(s, rta, maxlen, |u|, kind, p);
    LeafWritten(s, rta + |u|, kind, p, v);
    SubBytes(s, rta, nest, body, Serialise(a, v), |u| + Size(a));
  }

  lemma Resplice(s: seq<byte>, off: nat, piece: seq<byte>)
    requires off + |piece| <= |s| && s[off..off + |piece|] == piece
    ensures s == Splice(s, off, piece)
  {
  }

  lemma SubWrites(s: seq<byte>, rta: nat, maxlen: nat, n: nat, kind: int, p: seq<byte>)
    requires 4 <= n && rta + n <= |s| && rta + maxlen <= |s| && RtaLen(s, rta) == n == Align(n)
    requires n + Align(4 + |p|) <= maxlen && n + Align(4 + |p|) <= 0xFFFF
    ensures AddSub(s, rta, maxlen, kind, p)
         == (Splice(Splice(s, rta + n, Header(4 + |p|, kind) + p), rta, Put16(n + Align(4 + |p|))), true)
  {
    hide Align, Words, Header, Put16, Splice, RtaLen;
  }

  lemma LeafWritten(s: seq<byte>, off: nat, kind: uint16, p: seq<byte>, v: seq<byte>)
    requires |v| == Size(Leaf(kind, p)) == Align(4 + |p|) && off + |v| <= |s| && v == s[off..off + |v|]
    ensures Splice(s, off, Header(4 + |p|, kind) + p) == Splice(s, off, Serialise(Leaf(kind, p), v))
  {
    hide Align, Words, Header, Splice;
    SplicePadded(s, off, Header(4 + |p|, kind) + p, |v| - 4 - |p|);
    assert v[4 + |p|..] == s[off + 4 + |p|..off + |v|];
  }

  lemma SubBytes(s: seq<byte>, rta: nat, nest: uint16, body: seq<byte>, leaf: seq<byte>, len: uint16)
    requires rta + 4 + |body| + |leaf| <= |s| && len == 4 + |body| + |leaf|
    requires s == Splice(s, rta, Header(4 + |body|, nest) + body)
    ensures Splice(Splice(s, rta + 4 + |body|, leaf), rta, Put16(len))[rta..rta + len]
         == Header(len, nest) + (body + leaf)
  {
    hide Put16, Low16;
    SpliceAdjacent(s, rta, Header(4 + |body|, nest) + body, leaf);
    assert Header(4 + |body|, nest) + body + leaf == Header(4 + |body|, nest) + (body + leaf);
    PatchLength(s, rta, 4 + |body|, len, nest, body + leaf);
  }
}
