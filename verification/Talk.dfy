/** rtnl_talk: one request and its acknowledgement or answer, and sessions of requests on one handle. */
module Talk {
  import opened Bytes
  import opened Attributes
  import opened Netlink
  import D = Dump

  /**
   * How a conversation ends: by a message that settles it (return 0, or -1 with the error it carries),
   * by the junk callback, by a failed receive or truncated message (-1), by exit(1), or not yet.
   */
  datatype Outcome = Pending | Accepted(x: Delivery) | Rejected(x: Delivery) | JunkStop(code: int) | Broken | Exited

  datatype Run<S> = Run(state: S, calls: seq<Call>, outcome: Outcome)

  /** What the loop compares with; `wantsAnswer` is whether the caller passed an answer buffer. */
  datatype Conversation<!S> = Conversation(peer: uint32, pid: uint32, seqno: uint32, wantsAnswer: bool,
      junk: Option<Callback<S>>)

  predicate Own<S>(t: Conversation<S>, x: Delivery)
  {
    x.sender == t.peer && MsgPid(x.msg) == t.pid && MsgSeq(x.msg) == t.seqno
  }

  /** An NLMSG_ERROR long enough for a struct nlmsgerr whose error field is zero. */
  predicate IsAck(msg: Message)
  {
    MsgType(msg) == NLMSG_ERROR && |msg| - NLMSG_HDRLEN >= 20 && Get32(msg, 16) == 0
  }

  // ----- The loop as a function of the script ------------------------------------------------------

  function Step<S>(t: Conversation<S>, r: Run<S>, x: Delivery): Run<S>
  {
    if !Own(t, x) then
      if t.junk.None? then r
      else
        var (s, err) := t.junk.value(r.state, x.sender, x.msg);
        Run(s, r.calls + [Junked(x)], if err < 0 then JunkStop(err) else Pending)
    else if MsgType(x.msg) == NLMSG_ERROR then
      r.(outcome := if IsAck(x.msg) then Accepted(x) else Rejected(x))
    else if t.wantsAnswer then r.(outcome := Accepted(x))
    else r
  }

  function Stream<S>(t: Conversation<S>, r: Run<S>, xs: seq<Delivery>): Run<S>
    decreases |xs|
  {
    if xs == [] || !r.outcome.Pending? then r else Stream(t, Step(t, r, xs[0]), xs[1..])
  }

  /** status >= n, where n is unsigned: a negative status passes. */
  predicate UnsignedAtLeast(status: int, n: nat)
  {
    status < 0 || status >= n
  }

  /**
   * What is left of the datagram decides: a malformed message, a truncated datagram, or a remnant. Where
   * the last padding is missing the signed rest is below zero; the unsigned test lets the loop look for a
   * header there once more, and whatever it finds does not fit.
   */
  function AfterDatagram<S>(r: Run<S>, e: Recv): Run<S>
    requires e.Datagram?
  {
    if !r.outcome.Pending? then r
    else if UnsignedAtLeast(Remnant(e.bytes), NLMSG_HDRLEN) then r.(outcome := if e.truncated then Broken else Exited)
    else if !e.truncated && Remnant(e.bytes) != 0 then r.(outcome := Exited)
    else r
  }

  function Receive<S>(t: Conversation<S>, r: Run<S>, e: Recv): Run<S>
  {
    match e
    case Interrupted => r
    case Failed => r.(outcome := Broken)
    case Datagram(sender, _, b) =>
      if |b| == 0 then r.(outcome := Broken) else AfterDatagram(Stream(t, r, From(sender, Messages(b))), e)
  }

  function Script<S>(t: Conversation<S>, r: Run<S>, script: seq<Recv>): (res: (Run<S>, seq<Recv>))
    decreases |script|
  {
    if script == [] || !r.outcome.Pending? then (r, script) else Script(t, Receive(t, r, script[0]), script[1..])
  }

  // ----- What decides a conversation ------------------------------------------------------------------

  /** Carries our peer, our pid and the fresh sequence number, and is an ERROR, an ACK or a wanted answer. */
  predicate Decisive<S>(t: Conversation<S>, x: Delivery)
  {
    Own(t, x) && (MsgType(x.msg) == NLMSG_ERROR || t.wantsAnswer)
  }

  function Verdict<S>(t: Conversation<S>, x: Delivery): Outcome
    requires Decisive(t, x)
  {
    if MsgType(x.msg) != NLMSG_ERROR || IsAck(x.msg) then Accepted(x) else Rejected(x)
  }

  /** The messages handed to the junk callback: those that are not for this conversation. */
  function Foreign<S>(t: Conversation<S>, xs: seq<Delivery>): seq<Call>
  {
    if xs == [] then []
    else (if t.junk.Some? && !Own(t, xs[0]) then [Junked(xs[0])] else []) + Foreign(t, xs[1..])
  }

  function Invoke<S>(t: Conversation<S>, s: S, call: Call): (S, int)
  {
    if t.junk.Some? then t.junk.value(s, call.d.sender, call.d.msg) else (s, 0)
  }

  /** The caller's state after a sequence of calls of the junk callback. */
  function StateAfter<S>(t: Conversation<S>, s: S, calls: seq<Call>): S
  {
    if calls == [] then s else StateAfter(t, Invoke(t, s, calls[0]).0, calls[1..])
  }

  /** None of these calls, made in this order, returns a negative number. */
  predicate AllAccept<S>(t: Conversation<S>, s: S, calls: seq<Call>)
  {
    calls == [] || (Invoke(t, s, calls[0]).1 >= 0 && AllAccept(t, Invoke(t, s, calls[0]).0, calls[1..]))
  }

  /** How a conversation over the stream `xs` goes when its first `k` messages do not end it. */
  ghost predicate Settles<S>(t: Conversation<S>, s: S, xs: seq<Delivery>, k: nat, r: Run<S>)
  {
    && k <= |xs|
    && (forall i | 0 <= i < k :: !Decisive(t, xs[i]))
    && AllAccept(t, s, Foreign(t, xs[..k]))
    && r.state == StateAfter(t, s, r.calls)
    && match r.outcome
       case Pending => k == |xs| && r.calls == Foreign(t, xs)
       case JunkStop(code) =>
         && k < |xs| && t.junk.Some? && !Own(t, xs[k])
         && r.calls == Foreign(t, xs[..k]) + [Junked(xs[k])]
         && code == Invoke(t, StateAfter(t, s, Foreign(t, xs[..k])), Junked(xs[k])).1 < 0
       case Accepted(_) =>
         k < |xs| && Decisive(t, xs[k]) && r.outcome == Verdict(t, xs[k]) && r.calls == Foreign(t, xs[..k])
       case Rejected(_) =>
         k < |xs| && Decisive(t, xs[k]) && r.outcome == Verdict(t, xs[k]) && r.calls == Foreign(t, xs[..k])
       case _ => false
  }

  /**
   * A conversation is decided by the first decisive message, unless before it the junk callback, which
   * gets exactly the foreign messages in order, returns a negative number; that number is then returned.
   */
  lemma {:induction false} StreamSettles<S>(t: Conversation<S>, s: S, done: seq<Call>, xs: seq<Delivery>)
      returns (k: nat, r: Run<S>)
    ensures Stream(t, Run(s, done, Pending), xs) == Run(r.state, done + r.calls, r.outcome)
    ensures Settles(t, s, xs, k, r)
    decreases |xs|
  {
    hide Own, IsAck, Settles, Foreign, StateAfter, AllAccept;
    if xs == [] {
      k, r := 0, Run(s, [], Pending);
      assert done + [] == done;
      NothingLeft(t, s, xs, r);
    } else {
      var x := xs[0];
      var r0 := Step(t, Run(s, done, Pending), x);
      if Decisive(t, x) {
        k, r := 0, Run(s, [], r0.outcome);
        assert done + [] == done;
        DecidedAtOnce(t, s, xs, r);
      } else if r0.outcome.JunkStop? {
        k, r := 0, r0.(calls := [Junked(x)]);
        StoppedAtOnce(t, s, xs, r);
      } else {
        var r1: Run<S>;
        k, r1 := StreamSettles(t, r0.state, r0.calls, xs[1..]);
        var one := if t.junk.Some? && !Own(t, x) then [Junked(x)] else [];
        k, r := k + 1, r1.(calls := one + r1.calls);
        CallsAfter(done, one, r1.calls);
        SettlesLater(t, s, r0.state, xs, k - 1, r1, r);
      }
    }
  }

  lemma CallsAfter(done: seq<Call>, one: seq<Call>, calls: seq<Call>)
    ensures done + one + calls == done + (one + calls) && done + [] == done
  {
  }

  lemma NothingLeft<S>(t: Conversation<S>, s: S, xs: seq<Delivery>, r: Run<S>)
    requires xs == [] && r == Run(s, [], Pending)
    ensures Settles(t, s, xs, 0, r)
  {
  }

  lemma DecidedAtOnce<S>(t: Conversation<S>, s: S, xs: seq<Delivery>, r: Run<S>)
    requires xs != [] && Decisive(t, xs[0]) && r == Run(s, [], Verdict(t, xs[0]))
    ensures Settles(t, s, xs, 0, r)
  {
    hide Own, IsAck;
  }

  lemma StoppedAtOnce<S>(t: Conversation<S>, s: S, xs: seq<Delivery>, r: Run<S>)
    requires xs != [] && t.junk.Some? && !Own(t, xs[0])
    requires var (s1, err) := Invoke(t, s, Junked(xs[0])); err < 0 && r == Run(s1, [Junked(xs[0])], JunkStop(err))
    ensures Settles(t, s, xs, 0, r)
  {
    assert xs[..0] == [] && [] + [Junked(xs[0])] == [Junked(xs[0])];
    assert [Junked(xs[0])][1..] == [];
  }

  lemma SettlesLater<S>(t: Conversation<S>, s: S, s1: S, xs: seq<Delivery>, k: nat, r1: Run<S>, r: Run<S>)
    requires xs != [] && !Decisive(t, xs[0]) && Settles(t, s1, xs[1..], k, r1)
    requires var one := if t.junk.Some? && !Own(t, xs[0]) then [Junked(xs[0])] else [];
      && r == r1.(calls := one + r1.calls)
      && if one == [] then s1 == s else Invoke(t, s, one[0]).1 >= 0 && s1 == Invoke(t, s, one[0]).0
    ensures Settles(t, s, xs, k + 1, r)
  {
    hide Own, Decisive, Verdict, Invoke, Foreign, StateAfter, AllAccept;
    var one := if t.junk.Some? && !Own(t, xs[0]) then [Junked(xs[0])] else [];
    var front := Foreign(t, xs[1..][..k]);
    ForeignStep(t, xs, k);
    AfterOne(t, s, s1, one, front);
    AfterOne(t, s, s1, one, r1.calls);
    forall i | 0 <= i < k + 1
      ensures !Decisive(t, xs[i])
    {
      if i > 0 {
        assert xs[i] == xs[1..][i - 1];
      }
    }
    if k < |xs[1..]| {
      assert xs[1..][k] == xs[k + 1];
      CallsAfter(one, front, [Junked(xs[k + 1])]);
    }
  }

  lemma ForeignStep<S>(t: Conversation<S>, xs: seq<Delivery>, k: nat)
    requires k < |xs|
    ensures var one := if t.junk.Some? && !Own(t, xs[0]) then [Junked(xs[0])] else [];
      && Foreign(t, xs) == one + Foreign(t, xs[1..])
      && Foreign(t, xs[..k + 1]) == one + Foreign(t, xs[1..][..k])
  {
    hide Own;
    assert xs[..k + 1][1..] == xs[1..][..k] && xs[..k + 1][0] == xs[0];
  }

  /** At most one call more at the front. */
  lemma AfterOne<S>(t: Conversation<S>, s: S, s1: S, one: seq<Call>, calls: seq<Call>)
    requires |one| <= 1
    requires if one == [] then s1 == s else Invoke(t, s, one[0]).1 >= 0 && s1 == Invoke(t, s, one[0]).0
    ensures StateAfter(t, s, one + calls) == StateAfter(t, s1, calls)
    ensures AllAccept(t, s1, calls) ==> AllAccept(t, s, one + calls)
  {
    hide Invoke;
    if one == [] {
      assert one + calls == calls;
    } else {
      assert (one + calls)[0] == one[0] && (one + calls)[1..] == calls;
    }
  }

  lemma {:induction false} StreamAppend<S>(t: Conversation<S>, r: Run<S>, xs: seq<Delivery>, ys: seq<Delivery>)
    ensures Stream(t, r, xs + ys) == Stream(t, Stream(t, r, xs), ys)
    decreases |xs|
  {
    hide Step;
    if xs == [] {
      assert xs + ys == ys;
    } else if r.outcome.Pending? {
      assert (xs + ys)[1..] == xs[1..] + ys;
      StreamAppend(t, Step(t, r, xs[0]), xs[1..], ys);
    }
  }

  lemma {:induction false} ScriptIsStream<S>(t: Conversation<S>, r: Run<S>, script: seq<Recv>)
    requires forall e | e in script :: Benign(e)
    ensures Script(t, r, script).0 == Stream(t, r, Flatten(script))
    decreases |script|
  {
    hide Step;
    if script != [] && r.outcome.Pending? {
      var e := script[0];
      assert Benign(e);
      ScriptIsStream(t, Receive(t, r, e), script[1..]);
      if e.Datagram? {
        var xs := From(e.sender, Messages(e.bytes));
        assert Receive(t, r, e) == Stream(t, r, xs);
        StreamAppend(t, r, xs, Flatten(script[1..]));
        assert Flatten(script) == xs + Flatten(script[1..]);
      } else {
        assert Flatten(script) == [] + Flatten(script[1..]) == Flatten(script[1..]);
      }
    }
  }

  lemma TalkMeaning<S>(t: Conversation<S>, s: S, script: seq<Recv>) returns (k: nat)
    requires forall e | e in script :: Benign(e)
    ensures Settles(t, s, Flatten(script), k, Script(t, Run(s, [], Pending), script).0)
  {
    hide Stream, Script, Settles;
    ScriptIsStream(t, Run(s, [], Pending), script);
    var r: Run<S>;
    k, r := StreamSettles(t, s, [], Flatten(script));
    assert [] + r.calls == r.calls;
  }

  /** Whatever the socket delivers, what settles a conversation is decisive: own peer, own pid, own number. */
  lemma {:induction false} SettledByOwn<S>(t: Conversation<S>, r: Run<S>, script: seq<Recv>)
    requires SettledOwn(t, r.outcome)
    ensures SettledOwn(t, Script(t, r, script).0.outcome)
    decreases |script|
  {
    if script != [] && r.outcome.Pending? {
      var e := script[0];
      if e.Datagram? {
        StreamOwn(t, r, From(e.sender, Messages(e.bytes)));
      }
      SettledByOwn(t, Receive(t, r, e), script[1..]);
    }
  }

  /** From the peer, with the pid of the handle and the number of the request. */
  function RepliesTo<S>(t: Conversation<S>): Delivery -> bool
  {
    (x: Delivery) => x.sender == t.peer && Get32(x.msg, 12) == t.pid && Get32(x.msg, 8) == t.seqno
  }

  /** The message bears the verdict out: an error word of 0 or a wanted answer accepts, other errors reject. */
  predicate SettledOwn<S>(t: Conversation<S>, o: Outcome)
  {
    && (o.Accepted? ==>
         RepliesTo(t)(o.x)
         && if Get16(o.x.msg, 4) == 2 then |o.x.msg| >= 36 && Get32(o.x.msg, 16) == 0 else t.wantsAnswer)
    && (o.Rejected? ==>
         RepliesTo(t)(o.x) && Get16(o.x.msg, 4) == 2 && (|o.x.msg| < 36 || Get32(o.x.msg, 16) != 0))
  }

  lemma {:induction false} StreamOwn<S>(t: Conversation<S>, r: Run<S>, xs: seq<Delivery>)
    requires SettledOwn(t, r.outcome)
    ensures SettledOwn(t, Stream(t, r, xs).outcome)
    decreases |xs|
  {
    if xs != [] && r.outcome.Pending? {
      StreamOwn(t, Step(t, r, xs[0]), xs[1..]);
    }
  }

  // ----- The same by the fields of the messages ------------------------------------------------------------

  lemma {:induction false} ForeignByFields<S>(t: Conversation<S>, xs: seq<Delivery>)
    ensures FilteredOf(Foreign(t, xs)) == []
    ensures JunkedOf(Foreign(t, xs)) == if t.junk.None? then [] else Only(xs, RepliesTo(t), false)
  {
    hide FilteredOf, JunkedOf;
    if xs == [] {
      D.NoCalls();
    } else {
      var calls := Foreign(t, xs[1..]);
      ForeignByFields(t, xs[1..]);
      OneMoreCall(Junked(xs[0]), calls);
      assert [] + calls == calls;
    }
  }

  lemma ForeignSnoc<S>(t: Conversation<S>, xs: seq<Delivery>, k: nat)
    requires k < |xs|
    ensures Foreign(t, xs[..k + 1])
         == Foreign(t, xs[..k]) + if t.junk.Some? && !Own(t, xs[k]) then [Junked(xs[k])] else []
  {
    hide Own;
    if k == 0 {
      assert xs[..1] == [xs[0]] && xs[..0] == [] && xs[..1][1..] == [];
      assert Foreign(t, []) == [];
    } else {
      assert xs[..k + 1][1..] == xs[1..][..k] && xs[..k][1..] == xs[1..][..k - 1];
      ForeignSnoc(t, xs[1..], k - 1);
    }
  }

  /**
   * The first `n` messages did not settle the conversation: the junk callback, if given, got exactly those
   * of them that are no replies, and no reply among them was an error or wanted as an answer. The message
   * behind them settled it, or there is none, or the callback refused the last of them.
   */
  ghost predicate HandedOn<S>(t: Conversation<S>, xs: seq<Delivery>, n: nat, r: Run<S>)
  {
    && n <= |xs|
    && (forall i | 0 <= i < n && RepliesTo(t)(xs[i]) :: Get16(xs[i].msg, 4) != 2 && !t.wantsAnswer)
    && FilteredOf(r.calls) == []
    && JunkedOf(r.calls) == (if t.junk.None? then [] else Only(xs[..n], RepliesTo(t), false))
    && SettledOwn(t, r.outcome)
    && match r.outcome
       case Pending => n == |xs|
       case Accepted(x) => n < |xs| && x == xs[n]
       case Rejected(x) => n < |xs| && x == xs[n]
       case JunkStop(code) => 0 < n && r.calls != [] && r.calls[|r.calls| - 1] == Junked(xs[n - 1]) && code < 0
       case _ => false
  }

  lemma DecisiveByFields<S>(t: Conversation<S>, x: Delivery)
    ensures Decisive(t, x) <==> RepliesTo(t)(x) && (Get16(x.msg, 4) == 2 || t.wantsAnswer)
    ensures Own(t, x) <==> RepliesTo(t)(x)
    ensures Decisive(t, x) ==>
      SettledOwn(t, Verdict(t, x)) && (Verdict(t, x) == Accepted(x) || Verdict(t, x) == Rejected(x))
    ensures SettledOwn(t, Pending) && forall code :: SettledOwn(t, JunkStop(code))
  {
    hide Get16, Get32;
  }

  lemma SettlesByFields<S>(t: Conversation<S>, s: S, xs: seq<Delivery>, k: nat, r: Run<S>) returns (n: nat)
    requires Settles(t, s, xs, k, r)
    ensures HandedOn(t, xs, n, r)
  {
    hide Own, Decisive, Verdict, SettledOwn, Get16, Invoke, Foreign, FilteredOf, JunkedOf, Only, AllAccept, StateAfter;
    n := k;
    if k < |xs| {
      DecisiveByFields(t, xs[k]);
    }
    PendingOwn(t);
    forall i | 0 <= i < |xs|
      ensures Decisive(t, xs[i]) <==> RepliesTo(t)(xs[i]) && (Get16(xs[i].msg, 4) == 2 || t.wantsAnswer)
    {
      DecisiveByFields(t, xs[i]);
    }
    if r.outcome.JunkStop? {
      ForeignSnoc(t, xs, k);
      n := k + 1;
    }
    assert r.outcome.Pending? ==> xs[..n] == xs;
    ForeignByFields(t, xs[..n]);
  }

  /** A script of benign receives, by the fields of its messages. */
  lemma TalkByFields<S>(t: Conversation<S>, s: S, script: seq<Recv>) returns (n: nat)
    requires forall e | e in script :: Benign(e)
    ensures HandedOn(t, Flatten(script), n, Script(t, Run(s, [], Pending), script).0)
  {
    hide Script, Flatten, Settles, HandedOn;
    var k := TalkMeaning(t, s, script);
    n := SettlesByFields(t, s, Flatten(script), k, Script(t, Run(s, [], Pending), script).0);
  }

  /** What the loop does with one message, by the bytes of the message. */
  lemma OneMessage<S>(t: Conversation<S>, s: S, x: Delivery, pad: seq<byte>,
                      kind: uint16, flags: uint16, seqno: uint32, pid: uint32, p: seq<byte>)
    requires 16 + |p| < 0x1_0000_0000
    requires x.msg == Put32(16 + |p|) + Put16(kind) + Put16(flags) + Put32(seqno) + Put32(pid) + p
    requires |x.msg| + |pad| == Align(|x.msg|)
    ensures var r := Script(t, Run(s, [], Pending), [Datagram(x.sender, false, x.msg + pad)]).0;
      if x.sender == t.peer && pid == t.pid && seqno == t.seqno then
        if kind == 2 then
          r == Run(s, [], if |p| >= 20 && p[0] == p[1] == p[2] == p[3] == 0 then Accepted(x) else Rejected(x))
        else r == Run(s, [], if t.wantsAnswer then Accepted(x) else Pending)
      else if t.junk.Some? then
        var (s1, err) := t.junk.value(s, x.sender, x.msg);
        r == Run(s1, [Junked(x)], if err < 0 then JunkStop(err) else Pending)
      else r == Run(s, [], Pending)
  {
    hide Put16, Put32, Align, Words, Messages, Remnant, MsgLen, MsgOk, From, Get32, IsAck;
    HeaderFields(x.msg, kind, flags, seqno, pid, p);
    OneInDatagram(x.msg, pad);
    var start, e := Run(s, [], Pending), Datagram(x.sender, false, x.msg + pad);
    assert From(x.sender, [x.msg]) == [x];
    assert [x][1..] == [] && [e][1..] == [];
    var r := Step(t, start, x);
    assert Stream(t, r, []) == r && Stream(t, start, [x]) == r;
    assert Script(t, Receive(t, start, e), []).0 == Receive(t, start, e);
    assert [] + [Junked(x)] == [Junked(x)];
    if kind == 2 {
      AckByBytes(x.msg, p);
    }
  }

  lemma AckByBytes(msg: Message, p: seq<byte>)
    requires |msg| == 16 + |p| && msg[16..] == p && MsgType(msg) == 2
    ensures IsAck(msg) <==> |p| >= 20 && p[0] == p[1] == p[2] == p[3] == 0
  {
    if |p| >= 4 {
      assert msg[16] == p[0] && msg[17] == p[1] && msg[18] == p[2] && msg[19] == p[3];
    }
  }

  /** The answer to a request without an answer buffer: the error word and the room for a struct nlmsgerr decide. */
  lemma ErrorWordDecides<S>(t: Conversation<S>, s: S, x: Delivery, pad: seq<byte>,
                            flags: uint16, error: uint32, rest: seq<byte>)
    requires 20 + |rest| < 0x1_0000_0000 && x.sender == t.peer && |x.msg| + |pad| == Align(|x.msg|)
    requires x.msg
          == Put32(20 + |rest|) + Put16(2) + Put16(flags) + Put32(t.seqno) + Put32(t.pid) + Put32(error) + rest
    ensures var r := Script(t, Run(s, [], Pending), [Datagram(x.sender, false, x.msg + pad)]).0;
      r == Run(s, [], if error == 0 && |rest| >= 16 then Accepted(x) else Rejected(x))
  {
    hide Put16, Put32, Script, Align, Words;
    var p := Put32(error) + rest;
    var front := Put32(20 + |rest|) + Put16(2) + Put16(flags) + Put32(t.seqno) + Put32(t.pid);
    assert front + Put32(error) + rest == front + p;
    OneMessage(t, s, x, pad, 2, flags, t.seqno, t.pid, p);
    ZeroWord(error);
    assert p[0] == Put32(error)[0] && p[1] == Put32(error)[1] && p[2] == Put32(error)[2] && p[3] == Put32(error)[3];
  }

  lemma ZeroWord(v: uint32)
    ensures var w := Put32(v); w[0] == w[1] == w[2] == w[3] == 0 <==> v == 0
  {
    GetPut32(v);
  }

  lemma {:induction false} ScriptAppend<S>(t: Conversation<S>, r: Run<S>, a: seq<Recv>, b: seq<Recv>)
    ensures Script(t, r, a + b).0 == Script(t, Script(t, r, a).0, b).0
    decreases |a|
  {
    hide Receive;
    if a == [] {
      assert a + b == b;
    } else if r.outcome.Pending? {
      assert (a + b)[1..] == a[1..] + b && (a + b)[0] == a[0];
      ScriptAppend(t, Receive(t, r, a[0]), a[1..], b);
    } else {
      assert Script(t, r, b).0 == r;
    }
  }

  /**
   * The first receive that is not benign: unless the messages before it end the conversation, a failed
   * receive or the end of the stream makes it return -1 at once. Whatever else is left over behind the
   * messages of a datagram ends it after them: with -1 if the datagram was truncated and another header
   * would fit, not at all if it was truncated and none would, and with exit otherwise.
   */
  lemma BadReceiveEnds<S>(t: Conversation<S>, s: S, good: seq<Recv>, bad: Recv, more: seq<Recv>)
    requires forall e | e in good :: Benign(e)
    requires !Benign(bad)
    ensures var before := Stream(t, Run(s, [], Pending), Flatten(good));
      var r := Script(t, Run(s, [], Pending), good + [bad] + more).0;
      if !before.outcome.Pending? then r == before
      else if bad.Failed? || |bad.bytes| == 0 then r == before.(outcome := Broken)
      else
        var after := Stream(t, before, From(bad.sender, Messages(bad.bytes)));
        r == if !after.outcome.Pending? then after
             else if !bad.truncated then after.(outcome := Exited)
             else if 0 <= Remnant(bad.bytes) < 16 then Script(t, after, more).0
             else after.(outcome := Broken)
  {
    hide Step, Stream, Remnant, Messages, From, Flatten;
    var start := Run(s, [], Pending);
    ScriptIsStream(t, start, good);
    var before := Stream(t, start, Flatten(good));
    ScriptAppend(t, start, good, [bad] + more);
    assert good + [bad] + more == good + ([bad] + more);
    if before.outcome.Pending? {
      assert ([bad] + more)[0] == bad && ([bad] + more)[1..] == more;
      assert Script(t, before, [bad] + more) == Script(t, Receive(t, before, bad), more);
    }
  }

  /** What is left of a script is its end. */
  lemma {:induction false} RestIsEnd<S>(t: Conversation<S>, r: Run<S>, script: seq<Recv>)
    ensures var rest := Script(t, r, script).1;
      |rest| <= |script| && rest == script[|script| - |rest|..]
    decreases |script|
  {
    hide Receive;
    if script != [] && r.outcome.Pending? {
      RestIsEnd(t, Receive(t, r, script[0]), script[1..]);
    }
  }

  /** One datagram: `h` walks over the messages while the test on `status` lets it. */
  method ReadDatagram<S>(t: Conversation<S>, start: Run<S>, e: Recv) returns (r: Run<S>)
    requires start.outcome.Pending? && e.Datagram? && |e.bytes| > 0
    ensures r == Receive(t, start, e)
  {
    hide Align, Words, MsgLen, Step, From, Messages, Remnant, First;
    r := start;
    var h, status: int := 0, |e.bytes|;
    assert e.bytes[0..] == e.bytes;
    while UnsignedAtLeast(status, NLMSG_HDRLEN)
      invariant status == |e.bytes| - h && r.outcome.Pending?
      invariant Stream(t, start, From(e.sender, Messages(e.bytes)))
             == Stream(t, r, From(e.sender, Messages(D.Left(e.bytes, h))))
      invariant Remnant(e.bytes) == if status < 0 then status else Remnant(D.Left(e.bytes, h))
      decreases status
    {
      var left := D.Left(e.bytes, h);
      if status < 0 || MsgLen(left) < NLMSG_HDRLEN || MsgLen(left) > status {
        VisitNone(e.sender, left);
        r := r.(outcome := if e.truncated then Broken else Exited);
        return;
      }
      VisitFirst(e.sender, left);
      r := Step(t, r, Delivery(e.sender, First(left)));
      if !r.outcome.Pending? {
        return;
      }
      h, status := h + Align(MsgLen(left)), status - Align(MsgLen(left));
      RestIsLeft(e.bytes, h - Align(MsgLen(left)));
    }
    VisitNone(e.sender, D.Left(e.bytes, h));
    if !e.truncated && status != 0 {
      r := r.(outcome := Exited);
    }
  }

  lemma RestIsLeft(b: seq<byte>, h: nat)
    requires h <= |b| && MsgOk(D.Left(b, h))
    ensures Rest(D.Left(b, h)) == D.Left(b, h + Align(MsgLen(D.Left(b, h))))
  {
    hide Align, Words, MsgLen;
  }

  /** The receive loop of rtnl_talk. */
  method Converse<S>(t: Conversation<S>, s: S, script: seq<Recv>) returns (r: Run<S>, rest: seq<Recv>)
    ensures (r, rest) == Script(t, Run(s, [], Pending), script)
  {
    r, rest := Run(s, [], Pending), script;
    while rest != [] && r.outcome.Pending?
      invariant Script(t, Run(s, [], Pending), script) == Script(t, r, rest)
      decreases |rest|
    {
      hide Stream, AfterDatagram;
      var e := rest[0];
      rest := rest[1..];
      if e.Interrupted? {
        continue;
      }
      if e.Failed? || |e.bytes| == 0 {
        r := r.(outcome := Broken);
        return;
      }
      r := ReadDatagram(t, r, e);
    }
  }

  // ----- The handle ---------------------------------------------------------------------------------------

  /** ++seq on an unsigned 32-bit counter. */
  function Next(n: uint32): uint32
  {
    if n == 0xFFFF_FFFF then 0 else n + 1
  }

  /**
   * The calls that take a fresh sequence number: a dump request, followed by its dump loop, and a
   * conversation; `sent` is whether sending the request succeeded.
   */
  datatype Request<!S> =
    | DumpRequest(filter: Callback<S>, dumpJunk: Option<Callback<S>>, sent: bool)
    | TalkRequest(peer: uint32, wantsAnswer: bool, junk: Option<Callback<S>>, sent: bool)

  datatype Ending = Dumped(dump: D.Outcome) | Talked(talk: Outcome)

  /** What became of a request: its sequence number, the callback calls it caused, and how it ended. */
  datatype Record = Record(seqno: uint32, calls: seq<Call>, end: Ending)

  class Handle {
    const pid: uint32
    var seqno: uint32
    var dump: uint32
    var inbox: seq<Recv>

    constructor (pid: uint32, seqno: uint32, inbox: seq<Recv>)
      ensures this.pid == pid && this.seqno == seqno && this.inbox == inbox
    {
      this.pid, this.seqno, this.dump, this.inbox := pid, seqno, 0, inbox;
    }

    /** rtnl_wilddump_request and rtnl_dump_request: remember the fresh number for the dump loop. */
    method RequestDump()
      modifies this`seqno, this`dump
      ensures seqno == dump == Next(old(seqno))
    {
      seqno := if seqno == 0xFFFF_FFFF then 0 else seqno + 1;
      dump := seqno;
    }

    /** rtnl_dump_filter on this handle: the answers to the last dump request. */
    method DumpFilter<S>(filter: Callback<S>, junk: Option<Callback<S>>, s: S) returns (r: D.Run<S>)
      modifies this`inbox
      ensures (r, inbox) == D.Script(D.Dump.Dump(pid, dump, filter, junk), D.Run.Run(s, [], D.Waiting), old(inbox))
    {
      hide D.Script;
      r, inbox := D.DumpFilter(D.Dump.Dump(pid, dump, filter, junk), s, inbox);
    }

    /** rtnl_talk: take a fresh number, send, and read until the conversation is settled. */
    method Talk<S>(peer: uint32, wantsAnswer: bool, junk: Option<Callback<S>>, sent: bool, s: S) returns (r: Run<S>)
      modifies this`seqno, this`inbox
      ensures seqno == Next(old(seqno))
      ensures sent ==>
        (r, inbox) == Script(Conversation(peer, pid, seqno, wantsAnswer, junk), Run(s, [], Pending), old(inbox))
      ensures !sent ==> r == Run(s, [], Broken) && inbox == old(inbox)
    {
      seqno := if seqno == 0xFFFF_FFFF then 0 else seqno + 1;
      if !sent {
        return Run(s, [], Broken);
      }
      hide Script;
      r, inbox := Converse(Conversation(peer, pid, seqno, wantsAnswer, junk), s, inbox);
    }
  }

  // ----- Sessions --------------------------------------------------------------------------------------------

  function ConversationOf<S>(pid: uint32, n: uint32, req: Request<S>): Conversation<S>
    requires req.TalkRequest?
  {
    Conversation(req.peer, pid, n, req.wantsAnswer, req.junk)
  }

  function DumpOf<S>(pid: uint32, n: uint32, req: Request<S>): D.Dump<S>
    requires req.DumpRequest?
  {
    D.Dump.Dump(pid, n, req.filter, req.dumpJunk)
  }

  /** One request under the number `n`: its record, the caller's state, and what it left in the inbox. */
  function Serve<S>(pid: uint32, n: uint32, s: S, req: Request<S>, inbox: seq<Recv>): (res: (Record, S, seq<Recv>))
    ensures res.0.seqno == n
  {
    match req
    case DumpRequest(_, _, sent) =>
      if !sent then (Record(n, [], Dumped(D.Returned(-1))), s, inbox)
      else
        var (r, rest) := D.Script(DumpOf(pid, n, req), D.Run.Run(s, [], D.Waiting), inbox);
        (Record(n, r.calls, Dumped(r.outcome)), r.state, rest)
    case TalkRequest(_, _, _, sent) =>
      if !sent then (Record(n, [], Talked(Broken)), s, inbox)
      else
        var (r, rest) := Script(ConversationOf(pid, n, req), Run(s, [], Pending), inbox);
        (Record(n, r.calls, Talked(r.outcome)), r.state, rest)
  }

  /** A run of requests on one handle; later requests go on reading where earlier ones stopped. */
  function Session<S>(pid: uint32, seqno: uint32, s: S, reqs: seq<Request<S>>, inbox: seq<Recv>): (r: seq<Record>)
    ensures |r| == |reqs|
    decreases |reqs|
  {
    if reqs == [] then []
    else
      var (rec, s1, rest) := Serve(pid, Next(seqno), s, reqs[0], inbox);
      [rec] + Session(pid, Next(seqno), s1, reqs[1..], rest)
  }

  /** The number that the i-th request of a session gets. */
  function Number(seqno: uint32, i: nat): uint32
  {
    (seqno + 1 + i) % 0x1_0000_0000
  }

  /**
   * The request that a record stands for took nothing but its own: a conversation was settled by a
   * message from its peer with its pid and number, and a dump's filter was called on messages from
   * the kernel with its pid and number only.
   */
  predicate TookItsOwn<S>(pid: uint32, req: Request<S>, rec: Record)
  {
    match req
    case TalkRequest(_, _, _, _) => rec.end.Talked? && SettledOwn(ConversationOf(pid, rec.seqno, req), rec.end.talk)
    case DumpRequest(_, _, _) => rec.end.Dumped? && D.FilteredOwn(DumpOf(pid, rec.seqno, req), rec.calls)
  }

  lemma ServesItsOwn<S>(pid: uint32, n: uint32, s: S, req: Request<S>, inbox: seq<Recv>)
    ensures TookItsOwn(pid, req, Serve(pid, n, s, req, inbox).0)
  {
    hide D.Script, Script, SettledOwn;
    match req
    case DumpRequest(_, _, sent) =>
      D.ScriptFiltersOwn(DumpOf(pid, n, req), D.Run.Run(s, [], D.Waiting), inbox);
    case TalkRequest(_, _, _, sent) =>
      PendingOwn(ConversationOf(pid, n, req));
      SettledByOwn(ConversationOf(pid, n, req), Run(s, [], Pending), inbox);
      BrokenOwn(ConversationOf(pid, n, req));
  }

  lemma PendingOwn<S>(t: Conversation<S>)
    ensures SettledOwn(t, Pending)
  {
  }

  lemma BrokenOwn<S>(t: Conversation<S>)
    ensures SettledOwn(t, Broken)
  {
  }

  lemma NumberStep(seqno: uint32, i: nat)
    ensures Number(seqno, i) == if i == 0 then Next(seqno) else Number(Next(seqno), i - 1)
  {
  }

  /** Whatever the socket delivers: the i-th request of a session gets the i-th number and takes only its own. */
  lemma {:induction false} SessionNumbers<S>(pid: uint32, seqno: uint32, s: S, reqs: seq<Request<S>>, inbox: seq<Recv>)
    ensures forall i | 0 <= i < |reqs| ::
      var rec := Session(pid, seqno, s, reqs, inbox)[i];
      rec.seqno == Number(seqno, i) && TookItsOwn(pid, reqs[i], rec)
    decreases |reqs|
  {
    hide Serve, TookItsOwn, Session, Number;
    if reqs != [] {
      var n := Next(seqno);
      var (rec, s1, rest) := Serve(pid, n, s, reqs[0], inbox);
      ServesItsOwn(pid, n, s, reqs[0], inbox);
      SessionNumbers(pid, n, s1, reqs[1..], rest);
      forall i | 0 <= i < |reqs|
        ensures Session(pid, seqno, s, reqs, inbox)[i].seqno == Number(seqno, i)
        ensures TookItsOwn(pid, reqs[i], Session(pid, seqno, s, reqs, inbox)[i])
      {
        SessionStep(pid, seqno, s, reqs, inbox, i);
        NumberStep(seqno, i);
        assert i > 0 ==> reqs[i] == reqs[1..][i - 1];
      }
    }
  }

  /**
   * What a request does on a benign inbox: a conversation is settled as Settles says, and a dump ends as
   * EndsAt says, on the messages that are left for it.
   */
  ghost predicate EndsProperly<S>(pid: uint32, s: S, req: Request<S>, xs: seq<Delivery>, k: nat, rec: Record, s1: S)
  {
    match req
    case TalkRequest(_, _, _, _) =>
      rec.end.Talked? && Settles(ConversationOf(pid, rec.seqno, req), s, xs, k, Run(s1, rec.calls, rec.end.talk))
    case DumpRequest(_, _, _) =>
      && rec.end.Dumped?
      && D.EndsAt(DumpOf(pid, rec.seqno, req), s, xs, k, D.Run.Run(s1, rec.calls, rec.end.dump))
      && s1 == D.StateAfter(DumpOf(pid, rec.seqno, req), s, rec.calls)
  }

  lemma ServesProperly<S>(pid: uint32, n: uint32, s: S, req: Request<S>, inbox: seq<Recv>) returns (k: nat)
    requires req.sent && forall e | e in inbox :: Benign(e)
    ensures var (rec, s1, _) := Serve(pid, n, s, req, inbox);
      EndsProperly(pid, s, req, Flatten(inbox), k, rec, s1)
  {
    hide D.Script, Script, Settles, D.EndsAt, Benign;
    match req {
      case DumpRequest(_, _, _) => k := D.DumpMeaning(DumpOf(pid, n, req), s, inbox);
      case TalkRequest(_, _, _, _) => k := TalkMeaning(ConversationOf(pid, n, req), s, inbox);
    }
  }

  lemma ServeLeavesEnd<S>(pid: uint32, n: uint32, s: S, req: Request<S>, inbox: seq<Recv>)
    ensures var rest := Serve(pid, n, s, req, inbox).2;
      |rest| <= |inbox| && rest == inbox[|inbox| - |rest|..]
  {
    hide D.Script, Script;
    match req
    case DumpRequest(_, _, _) => D.RestIsEnd(DumpOf(pid, n, req), D.Run.Run(s, [], D.Waiting), inbox);
    case TalkRequest(_, _, _, _) => RestIsEnd(ConversationOf(pid, n, req), Run(s, [], Pending), inbox);
  }

  /** The caller's state and the inbox that a run of requests leaves. */
  function Reach<S>(pid: uint32, seqno: uint32, s: S, reqs: seq<Request<S>>, inbox: seq<Recv>): (S, seq<Recv>)
    decreases |reqs|
  {
    if reqs == [] then (s, inbox)
    else
      var (_, s1, rest) := Serve(pid, Next(seqno), s, reqs[0], inbox);
      Reach(pid, Next(seqno), s1, reqs[1..], rest)
  }

  /**
   * On a benign inbox every request of a session, under its own number, is decided by the first message
   * that is decisive for it among those that the requests before it left in the inbox; it starts from the
   * state that they left, and the next request starts from the state that it leaves.
   */
  lemma {:induction false} SessionMeaning<S>(pid: uint32, seqno: uint32, s: S, reqs: seq<Request<S>>, inbox: seq<Recv>,
                                             i: nat)
      returns (k: nat)
    requires i < |reqs| && reqs[i].sent && forall e | e in inbox :: Benign(e)
    ensures var rec := Session(pid, seqno, s, reqs, inbox)[i];
      var (before, left) := Reach(pid, seqno, s, reqs[..i], inbox);
      && |left| <= |inbox| && left == inbox[|inbox| - |left|..]
      && rec.seqno == Number(seqno, i)
      && EndsProperly(pid, before, reqs[i], Flatten(left), k, rec, Reach(pid, seqno, s, reqs[..i + 1], inbox).0)
    decreases i
  {
    hide Serve, EndsProperly, Benign, Flatten, Reach, Session;
    var n := Next(seqno);
    var (rec, s1, rest) := Serve(pid, n, s, reqs[0], inbox);
    SessionStep(pid, seqno, s, reqs, inbox, i);
    ReachStep(pid, seqno, s, reqs, inbox, i + 1);
    if i == 0 {
      ReachNone(pid, seqno, s, reqs, inbox);
      ReachNone(pid, n, s1, reqs[1..], rest);
      assert inbox[0..] == inbox;
      k := ServesProperly(pid, n, s, reqs[0], inbox);
    } else {
      ReachStep(pid, seqno, s, reqs, inbox, i);
      ServeLeavesEnd(pid, n, s, reqs[0], inbox);
      k := SessionMeaning(pid, n, s1, reqs[1..], rest, i - 1);
      EndOfEnd(inbox, |rest|, |Reach(pid, n, s1, reqs[1..][..i - 1], rest).1|);
    }
  }

  /** The same by the fields of the messages. */
  lemma SessionByFields<S>(pid: uint32, seqno: uint32, s: S, reqs: seq<Request<S>>, inbox: seq<Recv>, i: nat)
      returns (n: nat)
    requires i < |reqs| && reqs[i].sent && forall e | e in inbox :: Benign(e)
    ensures var rec := Session(pid, seqno, s, reqs, inbox)[i];
      var xs := Flatten(Reach(pid, seqno, s, reqs[..i], inbox).1);
      var s1 := Reach(pid, seqno, s, reqs[..i + 1], inbox).0;
      rec.seqno == Number(seqno, i)
      && match reqs[i]
         case TalkRequest(_, _, _, _) =>
           rec.end.Talked? && HandedOn(ConversationOf(pid, rec.seqno, reqs[i]), xs, n, Run(s1, rec.calls, rec.end.talk))
         case DumpRequest(_, _, _) =>
           && rec.end.Dumped?
           && D.HandedOn(DumpOf(pid, rec.seqno, reqs[i]), xs, n, D.Run.Run(s1, rec.calls, rec.end.dump))
  {
    hide Session, Reach, Flatten, Benign, Settles, D.EndsAt, HandedOn, D.HandedOn;
    var k := SessionMeaning(pid, seqno, s, reqs, inbox, i);
    var rec := Session(pid, seqno, s, reqs, inbox)[i];
    var (before, left) := Reach(pid, seqno, s, reqs[..i], inbox);
    var s1 := Reach(pid, seqno, s, reqs[..i + 1], inbox).0;
    match reqs[i] {
      case TalkRequest(_, _, _, _) =>
        n := SettlesByFields(ConversationOf(pid, rec.seqno, reqs[i]), before, Flatten(left), k,
                             Run(s1, rec.calls, rec.end.talk));
      case DumpRequest(_, _, _) =>
        n := D.EndsByFields(DumpOf(pid, rec.seqno, reqs[i]), before, Flatten(left), k,
                            D.Run.Run(s1, rec.calls, rec.end.dump));
    }
  }

  lemma SessionStep<S>(pid: uint32, seqno: uint32, s: S, reqs: seq<Request<S>>, inbox: seq<Recv>, i: nat)
    requires i < |reqs|
    ensures var (rec, s1, rest) := Serve(pid, Next(seqno), s, reqs[0], inbox);
      Session(pid, seqno, s, reqs, inbox)[i]
      == if i == 0 then rec else Session(pid, Next(seqno), s1, reqs[1..], rest)[i - 1]
  {
    hide Serve;
  }

  lemma ReachStep<S>(pid: uint32, seqno: uint32, s: S, reqs: seq<Request<S>>, inbox: seq<Recv>, i: nat)
    requires 0 < i <= |reqs|
    ensures var (_, s1, rest) := Serve(pid, Next(seqno), s, reqs[0], inbox);
      Reach(pid, seqno, s, reqs[..i], inbox) == Reach(pid, Next(seqno), s1, reqs[1..][..i - 1], rest)
  {
    hide Serve;
    assert reqs[..i][0] == reqs[0] && reqs[..i][1..] == reqs[1..][..i - 1];
  }

  lemma ReachNone<S>(pid: uint32, seqno: uint32, s: S, reqs: seq<Request<S>>, inbox: seq<Recv>)
    ensures Reach(pid, seqno, s, reqs[..0], inbox) == (s, inbox)
  {
  }

  /** The end of an end is an end. */
  lemma EndOfEnd(inbox: seq<Recv>, n: nat, m: nat)
    requires m <= n <= |inbox|
    ensures inbox[|inbox| - n..][n - m..] == inbox[|inbox| - m..]
  {
  }

  /**
   * Over fewer than 2^32 requests on one handle, whatever the socket delivers, no reply to one request
   * (a message carrying its number) is ever taken as the verdict on another, or handed to the filter of
   * another one's dump: all requests draw from one increasing counter.
   */
  lemma SessionNeverConfuses<S>(pid: uint32, seqno: uint32, s: S, reqs: seq<Request<S>>, inbox: seq<Recv>,
                                i: nat, j: nat, reply: Delivery)
    requires |reqs| < 0x1_0000_0000 && i < |reqs| && j < |reqs| && i != j
    requires var records := Session(pid, seqno, s, reqs, inbox);
      MsgSeq(reply.msg) == records[i].seqno
    ensures var other := Session(pid, seqno, s, reqs, inbox)[j];
      && other.end != Talked(Accepted(reply)) && other.end != Talked(Rejected(reply))
      && Filtered(reply) !in other.calls
  {
    SessionNumbers(pid, seqno, s, reqs, inbox);
    NumbersDiffer(seqno, i, j);
    TalkNeverFilters(pid, seqno, s, reqs, inbox, j);
  }

  /** A conversation calls the junk callback only. */
  lemma {:induction false} TalkNeverFilters<S>(pid: uint32, seqno: uint32, s: S, reqs: seq<Request<S>>,
                                               inbox: seq<Recv>, j: nat)
    requires j < |reqs|
    ensures reqs[j].TalkRequest? ==> forall x :: Filtered(x) !in Session(pid, seqno, s, reqs, inbox)[j].calls
    decreases j
  {
    hide Script;
    var n := Next(seqno);
    var (rec, s1, rest) := Serve(pid, n, s, reqs[0], inbox);
    if j == 0 {
      if reqs[0].TalkRequest? {
        ScriptJunks(ConversationOf(pid, n, reqs[0]), Run(s, [], Pending), inbox);
      }
    } else {
      TalkNeverFilters(pid, n, s1, reqs[1..], rest, j - 1);
    }
  }

  lemma {:induction false} ScriptJunks<S>(t: Conversation<S>, r: Run<S>, script: seq<Recv>)
    requires forall c | c in r.calls :: c.Junked?
    ensures forall c | c in Script(t, r, script).0.calls :: c.Junked?
    decreases |script|
  {
    hide Step;
    if script != [] && r.outcome.Pending? {
      var e := script[0];
      if e.Datagram? {
        StreamJunks(t, r, From(e.sender, Messages(e.bytes)));
      }
      ScriptJunks(t, Receive(t, r, e), script[1..]);
    }
  }

  lemma {:induction false} StreamJunks<S>(t: Conversation<S>, r: Run<S>, xs: seq<Delivery>)
    requires forall c | c in r.calls :: c.Junked?
    ensures forall c | c in Stream(t, r, xs).calls :: c.Junked?
    decreases |xs|
  {
    if xs != [] && r.outcome.Pending? {
      StreamJunks(t, Step(t, r, xs[0]), xs[1..]);
    }
  }

  lemma NumbersDiffer(n: nat, i: nat, j: nat)
    requires i != j && i < 0x1_0000_0000 && j < 0x1_0000_0000
    ensures (n + 1 + i) % 0x1_0000_0000 != (n + 1 + j) % 0x1_0000_0000
  {
  }
}
