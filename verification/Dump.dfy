/** rtnl_dump_filter: reading the answer to a dump request. */
module Dump {
  import opened Bytes
  import opened Attributes
  import opened Netlink

  /** How the loop ends: by returning, by exit(1), or not yet. */
  datatype Outcome = Waiting | Returned(code: int) | Exited

  /** The state that the callbacks share with their caller, every callback call made, and the outcome. */
  datatype Run<S> = Run(state: S, calls: seq<Call>, outcome: Outcome)

  /** What the loop compares with, and the callbacks. */
  datatype Dump<!S> = Dump(pid: uint32, dump: uint32, filter: Callback<S>, junk: Option<Callback<S>>)

  /** The answer to our own request, from the kernel. */
  predicate Own<S>(d: Dump<S>, x: Delivery)
  {
    x.sender == 0 && MsgPid(x.msg) == d.pid && MsgSeq(x.msg) == d.dump
  }

  predicate Final<S>(d: Dump<S>, x: Delivery)
  {
    Own(d, x) && (MsgType(x.msg) == NLMSG_DONE || MsgType(x.msg) == NLMSG_ERROR)
  }

  function Invoke<S>(d: Dump<S>, s: S, call: Call): (S, int)
  {
    match call
    case Filtered(x) => d.filter(s, x.sender, x.msg)
    case Junked(x) => if d.junk.Some? then d.junk.value(s, x.sender, x.msg) else (s, 0)
  }

  // ----- The loop as a function of the script ---------------------------------------------------

  function Called<S>(d: Dump<S>, r: Run<S>, call: Call): Run<S>
  {
    var (s, err) := Invoke(d, r.state, call);
    Run(s, r.calls + [call], if err < 0 then Returned(err) else Waiting)
  }

  function Step<S>(d: Dump<S>, r: Run<S>, x: Delivery): Run<S>
  {
    if !Own(d, x) then
      if d.junk.Some? then Called(d, r, Junked(x)) else r
    else if MsgType(x.msg) == NLMSG_DONE then r.(outcome := Returned(0))
    else if MsgType(x.msg) == NLMSG_ERROR then r.(outcome := Returned(-1))
    else Called(d, r, Filtered(x))
  }

  function Stream<S>(d: Dump<S>, r: Run<S>, xs: seq<Delivery>): Run<S>
    decreases |xs|
  {
    if xs == [] || !r.outcome.Waiting? then r else Stream(d, Step(d, r, xs[0]), xs[1..])
  }

  function AfterDatagram<S>(r: Run<S>, e: Recv): Run<S>
    requires e.Datagram?
  {
    if r.outcome.Waiting? && !e.truncated && Remnant(e.bytes) != 0 then r.(outcome := Exited) else r
  }

  function Receive<S>(d: Dump<S>, r: Run<S>, e: Recv): Run<S>
  {
    match e
    case Interrupted => r
    case Failed => r.(outcome := Returned(-1))
    case Datagram(sender, _, b) =>
      if |b| == 0 then r.(outcome := Returned(-1))
      else AfterDatagram(Stream(d, r, From(sender, Messages(b))), e)
  }

  function Script<S>(d: Dump<S>, r: Run<S>, script: seq<Recv>): (res: (Run<S>, seq<Recv>))
    decreases |script|
  {
    if script == [] || !r.outcome.Waiting? then (r, script) else Script(d, Receive(d, r, script[0]), script[1..])
  }

  // ----- The loop itself --------------------------------------------------------------------------

  lemma StreamAppend<S>(d: Dump<S>, r: Run<S>, xs: seq<Delivery>, ys: seq<Delivery>)
    ensures Stream(d, r, xs + ys) == Stream(d, Stream(d, r, xs), ys)
    decreases |xs|
  {
    hide Step;
    if xs == [] {
      assert xs + ys == ys;
    } else if r.outcome.Waiting? {
      assert (xs + ys)[1..] == xs[1..] + ys;
      StreamAppend(d, Step(d, r, xs[0]), xs[1..], ys);
    }
  }

  /** The bytes from `h` on, none when NLMSG_NEXT went past the end. */
  function Left(b: seq<byte>, h: nat): seq<byte>
  {
    if h <= |b| then b[h..] else []
  }

  /** One datagram: the inner while loop over pointer and signed status. */
  method ReadDatagram<S>(d: Dump<S>, start: Run<S>, e: Recv) returns (r: Run<S>)
    requires start.outcome.Waiting? && e.Datagram? && |e.bytes| > 0
    ensures r == Receive(d, start, e)
  {
    hide Align, Words, MsgLen, Step, From, Messages, Remnant, First;
    r := start;
    var h, status := 0, |e.bytes|;
    assert Left(e.bytes, 0) == e.bytes;
    while MsgOk(Left(e.bytes, h))
      invariant h + status == |e.bytes|
      invariant r.outcome.Waiting?
      invariant Stream(d, start, From(e.sender, Messages(e.bytes)))
             == Stream(d, r, From(e.sender, Messages(Left(e.bytes, h))))
      invariant Remnant(e.bytes) == if 0 <= status then Remnant(Left(e.bytes, h)) else status
      decreases status
    {
      var left := Left(e.bytes, h);
      VisitFirst(e.sender, left);
      r := Step(d, r, Delivery(e.sender, First(left)));
      if !r.outcome.Waiting? {
        return;
      }
      var n := Align(MsgLen(left));
      assert Rest(left) == Left(e.bytes, h + n);
      h, status := h + n, status - n;
    }
    VisitNone(e.sender, Left(e.bytes, h));
    if !e.truncated && status != 0 {
      r := r.(outcome := Exited);
    }
  }

  /** rtnl_dump_filter over what the socket delivers; `rest` is what it has not received yet. */
  method DumpFilter<S>(d: Dump<S>, s: S, script: seq<Recv>) returns (r: Run<S>, rest: seq<Recv>)
    ensures (r, rest) == Script(d, Run(s, [], Waiting), script)
  {
    r, rest := Run(s, [], Waiting), script;
    while rest != [] && r.outcome.Waiting?
      invariant Script(d, Run(s, [], Waiting), script) == Script(d, r, rest)
      decreases |rest|
    {
      var e := rest[0];
      rest := rest[1..];
      if e.Interrupted? {
        continue;
      }
      if e.Failed? || |e.bytes| == 0 {
        r := r.(outcome := Returned(-1));
        return;
      }
      r := ReadDatagram(d, r, e);
    }
  }

  // ----- What the loop means ------------------------------------------------------------------------

  /** Datagram boundaries and interrupted receives do not matter: only the stream of messages does. */
  lemma {:induction false} ScriptIsStream<S>(d: Dump<S>, r: Run<S>, script: seq<Recv>)
    requires forall e | e in script :: Benign(e)
    ensures Script(d, r, script).0 == Stream(d, r, Flatten(script))
    decreases |script|
  {
    hide Step;
    if script != [] && r.outcome.Waiting? {
      var e := script[0];
      assert Benign(e);
      ScriptIsStream(d, Receive(d, r, e), script[1..]);
      if e.Datagram? {
        var xs := From(e.sender, Messages(e.bytes));
        assert Receive(d, r, e) == Stream(d, r, xs);
        StreamAppend(d, r, xs, Flatten(script[1..]));
        assert Flatten(script) == xs + Flatten(script[1..]);
      } else {
        assert Flatten(script) == [] + Flatten(script[1..]) == Flatten(script[1..]);
      }
    }
  }

  lemma SplittingDoesNotMatter<S>(d: Dump<S>, s: S, one: seq<Recv>, other: seq<Recv>)
    requires forall e | e in one :: Benign(e)
    requires forall e | e in other :: Benign(e)
    requires Flatten(one) == Flatten(other)
    ensures Script(d, Run(s, [], Waiting), one).0 == Script(d, Run(s, [], Waiting), other).0
  {
    ScriptIsStream(d, Run(s, [], Waiting), one);
    ScriptIsStream(d, Run(s, [], Waiting), other);
  }

  /** The callback call that a message calls for, if any. */
  function CallFor<S>(d: Dump<S>, x: Delivery): (r: seq<Call>)
    ensures |r| <= 1
  {
    if Own(d, x) then [Filtered(x)] else if d.junk.Some? then [Junked(x)] else []
  }

  function CallsFor<S>(d: Dump<S>, xs: seq<Delivery>): seq<Call>
  {
    if xs == [] then [] else CallFor(d, xs[0]) + CallsFor(d, xs[1..])
  }

  /** The callers' state after a sequence of callback calls. */
  function StateAfter<S>(d: Dump<S>, s: S, calls: seq<Call>): S
  {
    if calls == [] then s else StateAfter(d, Invoke(d, s, calls[0]).0, calls[1..])
  }

  /** None of these calls, made in this order, returns a negative number. */
  predicate AllAccept<S>(d: Dump<S>, s: S, calls: seq<Call>)
  {
    calls == [] || (Invoke(d, s, calls[0]).1 >= 0 && AllAccept(d, Invoke(d, s, calls[0]).0, calls[1..]))
  }

  /** How a dump over the stream `xs` ends after its first `k` messages were passed on. */
  predicate EndsAt<S>(d: Dump<S>, s: S, xs: seq<Delivery>, k: nat, r: Run<S>)
  {
    && k <= |xs|
    && (forall i | 0 <= i < k :: !Final(d, xs[i]))
    && AllAccept(d, s, CallsFor(d, xs[..k]))
    && match r.outcome
       case Waiting => k == |xs| && r.calls == CallsFor(d, xs)
       case Exited => false
       case Returned(code) =>
         && k < |xs|
         && if Final(d, xs[k]) then
              && r.calls == CallsFor(d, xs[..k])
              && code == if MsgType(xs[k].msg) == NLMSG_DONE then 0 else -1
            else
              && r.calls == CallsFor(d, xs[..k]) + CallFor(d, xs[k])
              && CallFor(d, xs[k]) != []
              && code == Invoke(d, StateAfter(d, s, CallsFor(d, xs[..k])), CallFor(d, xs[k])[0]).1 < 0
  }

  lemma {:induction false} StateAppend<S>(d: Dump<S>, s: S, a: seq<Call>, b: seq<Call>)
    ensures StateAfter(d, s, a + b) == StateAfter(d, StateAfter(d, s, a), b)
    decreases |a|
  {
    if a == [] {
      assert a + b == b;
    } else {
      assert (a + b)[1..] == a[1..] + b;
      StateAppend(d, Invoke(d, s, a[0]).0, a[1..], b);
    }
  }

  /**
   * The filter is called on exactly the messages that answer our own dump, the junk callback (when
   * given) on exactly the others, in order of arrival, up to the first DONE, ERROR or refusal.
   */
  lemma {:induction false} StreamEnds<S>(d: Dump<S>, s: S, done: seq<Call>, xs: seq<Delivery>)
      returns (k: nat, r: Run<S>)
    ensures Stream(d, Run(s, done, Waiting), xs) == Run(r.state, done + r.calls, r.outcome)
    ensures EndsAt(d, s, xs, k, r)
    ensures r.state == StateAfter(d, s, r.calls)
    decreases |xs|
  {
    hide EndsAt, Own, MsgType;
    if xs == [] {
      EndsNow(d, s, xs, Run(s, [], Waiting));
      k, r := 0, Run(s, [], Waiting);
      assert done + [] == done;
    } else {
      var x := xs[0];
      var one := CallFor(d, x);
      if Final(d, x) {
        k, r := 0, Run(s, [], Step(d, Run(s, done, Waiting), x).outcome);
        assert done + [] == done;
        EndsNow(d, s, xs, r);
      } else if one == [] {
        k, r := StreamEnds(d, s, done, xs[1..]);
        k := k + 1;
        EndsLater(d, s, s, xs, k - 1, r, r);
      } else {
        var (s1, err) := Invoke(d, s, one[0]);
        if err < 0 {
          k, r := 0, Run(s1, one, Returned(err));
          assert one[1..] == [];
          EndsNow(d, s, xs, r);
        } else {
          var r1: Run<S>;
          k, r1 := StreamEnds(d, s1, done + one, xs[1..]);
          k, r := k + 1, r1.(calls := one + r1.calls);
          assert done + one + r1.calls == done + (one + r1.calls);
          assert (one + r1.calls)[1..] == r1.calls;
          EndsLater(d, s, s1, xs, k - 1, r1, r);
        }
      }
    }
  }

  /** The first message stops the loop, or there is none. */
  lemma EndsNow<S>(d: Dump<S>, s: S, xs: seq<Delivery>, r: Run<S>)
    requires if xs == [] then r.outcome == Waiting && r.calls == []
             else if Final(d, xs[0]) then
               r.calls == [] && r.outcome == Returned(if MsgType(xs[0].msg) == NLMSG_DONE then 0 else -1)
             else
               && CallFor(d, xs[0]) != [] && r.calls == CallFor(d, xs[0])
               && Invoke(d, s, CallFor(d, xs[0])[0]).1 < 0
               && r.outcome == Returned(Invoke(d, s, CallFor(d, xs[0])[0]).1)
    ensures EndsAt(d, s, xs, 0, r)
  {
    assert xs[..0] == [];
    assert forall c: seq<Call> :: [] + c == c;
  }

  lemma EndsLater<S>(d: Dump<S>, s: S, s1: S, xs: seq<Delivery>, k: nat, r1: Run<S>, r: Run<S>)
    requires xs != [] && !Final(d, xs[0]) && EndsAt(d, s1, xs[1..], k, r1)
    requires var one := CallFor(d, xs[0]);
      && r == r1.(calls := one + r1.calls)
      && if one == [] then s1 == s else Invoke(d, s, one[0]).1 >= 0 && s1 == Invoke(d, s, one[0]).0
    ensures EndsAt(d, s, xs, k + 1, r)
  {
    hide Own, Invoke, Final, CallFor;
    var one := CallFor(d, xs[0]);
    assert xs[..k + 1][1..] == xs[1..][..k] && xs[..k + 1][0] == xs[0];
    var tail := CallsFor(d, xs[1..][..k]);
    assert CallsFor(d, xs[..k + 1]) == one + tail;
    assert CallsFor(d, xs) == one + CallsFor(d, xs[1..]);
    if one == [] {
      assert one + tail == tail && one + r1.calls == r1.calls;
    } else {
      assert (one + tail)[1..] == tail;
    }
    assert StateAfter(d, s, one + tail) == StateAfter(d, s1, tail);
    forall i | 0 <= i < k + 1
      ensures !Final(d, xs[i])
    {
      if i > 0 {
        assert xs[i] == xs[1..][i - 1];
      }
    }
    if r.outcome.Returned? {
      assert xs[1..][k] == xs[k + 1];
      assert one + (tail + CallFor(d, xs[k + 1])) == one + tail + CallFor(d, xs[k + 1]);
    }
  }

  /** The loop and its meaning put together: a script of benign receives ends as EndsAt says. */
  lemma DumpMeaning<S>(d: Dump<S>, s: S, script: seq<Recv>) returns (k: nat)
    requires forall e | e in script :: Benign(e)
    ensures var r := Script(d, Run(s, [], Waiting), script).0;
      EndsAt(d, s, Flatten(script), k, r) && r.state == StateAfter(d, s, r.calls)
  {
    hide Stream, Script, EndsAt;
    ScriptIsStream(d, Run(s, [], Waiting), script);
    var r: Run<S>;
    k, r := StreamEnds(d, s, [], Flatten(script));
    assert [] + r.calls == r.calls;
  }

  // ----- The same by the fields of the messages -----------------------------------------------------------

  /** From the kernel, with the pid of the handle and the number of its last dump request. */
  function AnswersOf<S>(d: Dump<S>): Delivery -> bool
  {
    (x: Delivery) => x.sender == 0 && Get32(x.msg, 12) == d.pid && Get32(x.msg, 8) == d.dump
  }

  lemma {:induction false} CallsByFields<S>(d: Dump<S>, xs: seq<Delivery>)
    ensures FilteredOf(CallsFor(d, xs)) == Only(xs, AnswersOf(d), true)
    ensures JunkedOf(CallsFor(d, xs)) == if d.junk.None? then [] else Only(xs, AnswersOf(d), false)
  {
    hide FilteredOf, JunkedOf;
    if xs == [] {
      NoCalls();
    } else {
      var calls := CallsFor(d, xs[1..]);
      CallsByFields(d, xs[1..]);
      OneMoreCall(Filtered(xs[0]), calls);
      OneMoreCall(Junked(xs[0]), calls);
      assert [] + calls == calls;
    }
  }

  /** What the loop does with one message, by the bytes of the message. */
  lemma OneMessage<S>(d: Dump<S>, s: S, x: Delivery, pad: seq<byte>,
                      kind: uint16, flags: uint16, seqno: uint32, pid: uint32, p: seq<byte>)
    requires 16 + |p| < 0x1_0000_0000
    requires x.msg == Put32(16 + |p|) + Put16(kind) + Put16(flags) + Put32(seqno) + Put32(pid) + p
    requires |x.msg| + |pad| == Align(|x.msg|)
    ensures var r := Script(d, Run(s, [], Waiting), [Datagram(x.sender, false, x.msg + pad)]).0;
      if x.sender == 0 && pid == d.pid && seqno == d.dump then
        if kind == 3 then r == Run(s, [], Returned(0))
        else if kind == 2 then r == Run(s, [], Returned(-1))
        else
          var (s1, err) := d.filter(s, x.sender, x.msg);
          r == Run(s1, [Filtered(x)], if err < 0 then Returned(err) else Waiting)
      else if d.junk.Some? then
        var (s1, err) := d.junk.value(s, x.sender, x.msg);
        r == Run(s1, [Junked(x)], if err < 0 then Returned(err) else Waiting)
      else r == Run(s, [], Waiting)
  {
    hide Put16, Put32, Align, Words, Messages, Remnant, MsgLen, MsgOk, From;
    HeaderFields(x.msg, kind, flags, seqno, pid, p);
    OneInDatagram(x.msg, pad);
    var start, e := Run(s, [], Waiting), Datagram(x.sender, false, x.msg + pad);
    assert From(x.sender, [x.msg]) == [x];
    assert [x][1..] == [] && [e][1..] == [];
    var r := Step(d, start, x);
    assert Stream(d, r, []) == r && Stream(d, start, [x]) == r;
    assert Script(d, Receive(d, start, e), []).0 == Receive(d, start, e);
    assert [] + [Filtered(x)] == [Filtered(x)] && [] + [Junked(x)] == [Junked(x)];
  }

  lemma NoCalls()
    ensures FilteredOf([]) == [] && JunkedOf([]) == []
  {
  }

  lemma CallsSnoc<S>(d: Dump<S>, xs: seq<Delivery>, k: nat)
    requires k < |xs|
    ensures CallsFor(d, xs[..k + 1]) == CallsFor(d, xs[..k]) + CallFor(d, xs[k])
  {
    hide CallFor;
    if k == 0 {
      assert xs[..1] == [xs[0]] && xs[..0] == [] && xs[..1][1..] == [];
      assert CallsFor(d, []) == [] && CallsFor(d, xs[..1]) == CallFor(d, xs[0]) + [];
    } else {
      assert xs[..k + 1][1..] == xs[1..][..k] && xs[..k][1..] == xs[1..][..k - 1];
      CallsSnoc(d, xs[1..], k - 1);
    }
  }

  /**
   * The first `n` messages were handed on: the filter got exactly those that answer our dump, none of them
   * a final one, the junk callback, if given, exactly the others. The loop goes on for more messages, or
   * an answer of type DONE (0) or ERROR (-1) comes next, or the callback that got the last one refused it.
   */
  ghost predicate HandedOn<S>(d: Dump<S>, xs: seq<Delivery>, n: nat, r: Run<S>)
  {
    && n <= |xs|
    && (forall i | 0 <= i < n && AnswersOf(d)(xs[i]) :: Get16(xs[i].msg, 4) != 2 && Get16(xs[i].msg, 4) != 3)
    && FilteredOf(r.calls) == Only(xs[..n], AnswersOf(d), true)
    && JunkedOf(r.calls) == (if d.junk.None? then [] else Only(xs[..n], AnswersOf(d), false))
    && match r.outcome
       case Waiting => n == |xs|
       case Exited => false
       case Returned(code) =>
         || (n < |xs| && AnswersOf(d)(xs[n]) && Get16(xs[n].msg, 4) == 3 && code == 0)
         || (n < |xs| && AnswersOf(d)(xs[n]) && Get16(xs[n].msg, 4) == 2 && code == -1)
         || (0 < n && r.calls != [] && r.calls[|r.calls| - 1].d == xs[n - 1] && code < 0)
  }

  lemma FinalByFields<S>(d: Dump<S>, x: Delivery)
    ensures Final(d, x) <==> AnswersOf(d)(x) && (Get16(x.msg, 4) == 3 || Get16(x.msg, 4) == 2)
    ensures MsgType(x.msg) == Get16(x.msg, 4)
  {
  }

  lemma EndsByFields<S>(d: Dump<S>, s: S, xs: seq<Delivery>, k: nat, r: Run<S>) returns (n: nat)
    requires EndsAt(d, s, xs, k, r)
    ensures HandedOn(d, xs, n, r)
  {
    hide Own, Final, MsgType, Get16, Invoke, CallsFor, FilteredOf, JunkedOf, Only, AllAccept, StateAfter;
    n := k;
    forall i | 0 <= i < |xs|
      ensures Final(d, xs[i]) <==> AnswersOf(d)(xs[i]) && (Get16(xs[i].msg, 4) == 3 || Get16(xs[i].msg, 4) == 2)
      ensures MsgType(xs[i].msg) == Get16(xs[i].msg, 4)
    {
      FinalByFields(d, xs[i]);
    }
    if r.outcome.Returned? && !Final(d, xs[k]) {
      CallsSnoc(d, xs, k);
      n := k + 1;
    }
    assert r.outcome.Waiting? ==> xs[..n] == xs;
    CallsByFields(d, xs[..n]);
  }

  /** A script of benign receives, by the fields of its messages. */
  lemma DumpByFields<S>(d: Dump<S>, s: S, script: seq<Recv>) returns (n: nat)
    requires forall e | e in script :: Benign(e)
    ensures HandedOn(d, Flatten(script), n, Script(d, Run(s, [], Waiting), script).0)
  {
    hide Script, Flatten, EndsAt, HandedOn;
    var k := DumpMeaning(d, s, script);
    n := EndsByFields(d, s, Flatten(script), k, Script(d, Run(s, [], Waiting), script).0);
  }

  /** Every message that the filter can get to see, that is every own one before the first final one, is `ok`. */
  predicate Vouched<S>(d: Dump<S>, xs: seq<Delivery>, ok: Message -> bool)
  {
    || xs == []
    || Final(d, xs[0])
    || ((Own(d, xs[0]) ==> ok(xs[0].msg)) && Vouched(d, xs[1..], ok))
  }

  lemma {:induction false} VouchedBefore<S>(d: Dump<S>, xs: seq<Delivery>, k: nat, ok: Message -> bool)
    requires Vouched(d, xs, ok) && k <= |xs| && forall i | 0 <= i < k :: !Final(d, xs[i])
    ensures forall i | 0 <= i < k && Own(d, xs[i]) :: ok(xs[i].msg)
    decreases k
  {
    hide Final, Own;
    if k > 0 {
      VouchedBefore(d, xs[1..], k - 1, ok);
      forall i | 0 <= i < k && Own(d, xs[i])
        ensures ok(xs[i].msg)
      {
        if i > 0 {
          assert xs[i] == xs[1..][i - 1];
        }
      }
    }
  }

  /** The filter is called on answers to our dump only. */
  predicate FilteredOwn<S>(d: Dump<S>, calls: seq<Call>)
  {
    forall i | 0 <= i < |calls| && calls[i].Filtered? :: AnswersOf(d)(calls[i].d)
  }

  /** Whatever the socket delivers. */
  lemma {:induction false} ScriptFiltersOwn<S>(d: Dump<S>, r: Run<S>, script: seq<Recv>)
    requires FilteredOwn(d, r.calls)
    ensures FilteredOwn(d, Script(d, r, script).0.calls)
    decreases |script|
  {
    hide Own, FilteredOwn;
    if script != [] && r.outcome.Waiting? {
      var e := script[0];
      if e.Datagram? {
        StreamFiltersOwn(d, r, From(e.sender, Messages(e.bytes)));
      }
      ScriptFiltersOwn(d, Receive(d, r, e), script[1..]);
    }
  }

  lemma {:induction false} StreamFiltersOwn<S>(d: Dump<S>, r: Run<S>, xs: seq<Delivery>)
    requires FilteredOwn(d, r.calls)
    ensures FilteredOwn(d, Stream(d, r, xs).calls)
    decreases |xs|
  {
    if xs != [] && r.outcome.Waiting? {
      StreamFiltersOwn(d, Step(d, r, xs[0]), xs[1..]);
    }
  }

  lemma {:induction false} ScriptAppend<S>(d: Dump<S>, r: Run<S>, a: seq<Recv>, b: seq<Recv>)
    ensures Script(d, r, a + b).0 == Script(d, Script(d, r, a).0, b).0
    decreases |a|
  {
    hide Receive;
    if a == [] {
      assert a + b == b;
    } else if r.outcome.Waiting? {
      assert (a + b)[1..] == a[1..] + b && (a + b)[0] == a[0];
      ScriptAppend(d, Receive(d, r, a[0]), a[1..], b);
    } else {
      assert Script(d, r, b).0 == r;
    }
  }

  /**
   * The first receive that is not benign: unless the messages before it end the loop, a failed receive or
   * the end of the stream makes it return -1 at once, and anything left over behind the messages of a whole
   * datagram makes it exit after them; no callback sees a later message. What is left of a truncated
   * datagram is passed over.
   */
  lemma BadReceiveEnds<S>(d: Dump<S>, s: S, good: seq<Recv>, bad: Recv, more: seq<Recv>)
    requires forall e | e in good :: Benign(e)
    requires !Benign(bad)
    ensures var before := Stream(d, Run(s, [], Waiting), Flatten(good));
      var r := Script(d, Run(s, [], Waiting), good + [bad] + more).0;
      if !before.outcome.Waiting? then r == before
      else if bad.Failed? || |bad.bytes| == 0 then r == before.(outcome := Returned(-1))
      else
        var after := Stream(d, before, From(bad.sender, Messages(bad.bytes)));
        r == if !after.outcome.Waiting? then after else if bad.truncated then Script(d, after, more).0
             else after.(outcome := Exited)
  {
    hide Step, Stream, Remnant, Messages, From, Flatten;
    var start := Run(s, [], Waiting);
    ScriptIsStream(d, start, good);
    var before := Stream(d, start, Flatten(good));
    ScriptAppend(d, start, good, [bad] + more);
    assert good + [bad] + more == good + ([bad] + more);
    if before.outcome.Waiting? {
      assert ([bad] + more)[0] == bad && ([bad] + more)[1..] == more;
      assert Script(d, before, [bad] + more) == Script(d, Receive(d, before, bad), more);
    }
  }

  /** What is left of a script is its end. */
  lemma {:induction false} RestIsEnd<S>(d: Dump<S>, r: Run<S>, script: seq<Recv>)
    ensures var rest := Script(d, r, script).1;
      |rest| <= |script| && rest == script[|script| - |rest|..]
    decreases |script|
  {
    hide Receive;
    if script != [] && r.outcome.Waiting? {
      RestIsEnd(d, Receive(d, r, script[0]), script[1..]);
    }
  }
}
