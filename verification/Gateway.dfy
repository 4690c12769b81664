/** The default gateway: a route filter run by the dump loop. */
module Gateway {
  import opened Bytes
  import opened Attributes
  import opened Netlink
  import opened Dump
  import Parser

  const RTM_NEWROUTE := 24
  const RTM_DELROUTE := 25
  const AF_INET := 2
  const RT_TABLE_MAIN := 254
  const RTA_DST := 1
  const RTA_GATEWAY := 5
  const RTA_TABLE := 15

  // A struct rtmsg of 12 bytes lies between the message header and the attributes.
  const RTM_RTA := NLMSG_HDRLEN + 12

  predicate IsRoute(msg: Message)
  {
    (MsgType(msg) == RTM_NEWROUTE || MsgType(msg) == RTM_DELROUTE) && RTM_RTA <= |msg|
  }

  /** tb[t] after parse_rtattr on the attributes of a route. */
  function Find(msg: Message, t: int): Option<nat>
    requires RTM_RTA <= |msg|
  {
    LastOfType(msg, Walk(msg, RTM_RTA, |msg|), t)
  }

  /** The 32-bit load from RTA_DATA; a shorter attribute at the very end of the message yields 0 here. */
  function WordAt(msg: Message, o: nat): uint32
  {
    if o + 8 <= |msg| then Get32(msg, o + 4) else 0
  }

  predicate InMainTable(msg: Message)
    requires IsRoute(msg)
  {
    Find(msg, RTA_TABLE).None? || WordAt(msg, Find(msg, RTA_TABLE).value) == RT_TABLE_MAIN
  }

  /** Each attribute that the filter loads as a 32-bit word has four bytes inside the message. */
  predicate WordsInside(msg: Message)
  {
    IsRoute(msg) && msg[16] == AF_INET ==>
      && (Find(msg, RTA_TABLE).Some? ==> Find(msg, RTA_TABLE).value + 8 <= |msg|)
      && (InMainTable(msg) && Find(msg, RTA_DST).None? && Find(msg, RTA_GATEWAY).Some? ==>
            Find(msg, RTA_GATEWAY).value + 8 <= |msg|)
  }

  /**
   * The gateway an IPv4 route in the main table (or without a table attribute) announces for
   * destinations no other route covers.
   */
  function GatewayOf(msg: Message): Option<uint32>
  {
    if && IsRoute(msg)
       && msg[16] == AF_INET
       && InMainTable(msg)
       && Find(msg, RTA_DST).None?
       && Find(msg, RTA_GATEWAY).Some?
    then Some(WordAt(msg, Find(msg, RTA_GATEWAY).value))
    else None
  }

  /** _filter_default_gw as a callback on the address it overwrites. */
  function Filter(addr: uint32, sender: uint32, msg: Message): (uint32, int)
  {
    if !IsRoute(msg) then (addr, -1)
    else if GatewayOf(msg).Some? then (GatewayOf(msg).value, 0)
    else (addr, 0)
  }

  /**
   * The filter, from the bytes up. A route message is a header, a struct rtmsg whose first byte is the
   * family, and attributes; the address becomes the gateway exactly for an IPv4 route whose table is
   * missing or 254, without a destination and with a gateway. Of several attributes of a type the last
   * one counts.
   */
  lemma RouteFromBytes(addr: uint32, sender: uint32, msg: Message, kind: uint16, flags: uint16, seqno: uint32,
                       pid: uint32, rtm: seq<byte>, attrs: seq<Attr>, under: seq<byte>)
    requires |rtm| == 12 && |under| == SizeAll(attrs) && ShortAll(attrs) && 28 + |under| < 0x1_0000_0000
    requires msg == Put32(28 + |under|) + Put16(kind) + Put16(flags) + Put32(seqno) + Put32(pid)
                    + (rtm + SerialiseAll(attrs, under))
    requires forall t | t == 5 || t == 15 ::
      LastPayload(RawsOf(attrs, under), t).Some? ==> |LastPayload(RawsOf(attrs, under), t).value| >= 4
    ensures var table := LastPayload(RawsOf(attrs, under), 15);
      var dst := LastPayload(RawsOf(attrs, under), 1);
      var gateway := LastPayload(RawsOf(attrs, under), 5);
      var route := kind == 24 || kind == 25;
      var announced :=
        if && route
           && rtm[0] == 2
           && (table.None? || table.value[..4] == Put32(254))
           && dst.None?
           && gateway.Some?
        then Some(Get32(gateway.value, 0))
        else None;
      && GatewayOf(msg) == announced
      && Filter(addr, sender, msg)
         == (if announced.Some? then announced.value else addr, if route then 0 else -1)
  {
    hide Align, Words, Put16, Put32, Get32, SerialiseAll, RawsOf, LastPayload, ShortAll, SizeAll, LastOfType, Walk;
    var head := Put32(28 + |under|) + Put16(kind) + Put16(flags) + Put32(seqno) + Put32(pid);
    HeaderFields(msg, kind, flags, seqno, pid, rtm + SerialiseAll(attrs, under));
    assert msg == head + rtm + SerialiseAll(attrs, under) && msg[16] == rtm[0];
    LastSerialised(msg, head + rtm, attrs, under, 1);
    LastSerialised(msg, head + rtm, attrs, under, 5);
    LastSerialised(msg, head + rtm, attrs, under, 15);
    if kind == 24 || kind == 25 {
      WordOfPayload(msg, Find(msg, RTA_TABLE));
      WordOfPayload(msg, Find(msg, RTA_GATEWAY));
    }
  }

  lemma ShortRoute(addr: uint32, sender: uint32, msg: Message)
    requires |msg| < 28
    ensures Filter(addr, sender, msg) == (addr, -1) && GatewayOf(msg) == None
  {
  }

  /** The word that is loaded from an attribute is the first of its payload. */
  lemma WordOfPayload(msg: Message, o: Option<nat>)
    requires o.Some? ==> Within(msg, o.value, 0, |msg|) && |RawAt(msg, o.value).payload| >= 4
    ensures o.Some? ==>
      var p := RawAt(msg, o.value).payload;
      && WordAt(msg, o.value) == Get32(p, 0)
      && (p[..4] == Put32(254) <==> WordAt(msg, o.value) == 254)
  {
    if o.Some? {
      var p := RawAt(msg, o.value).payload;
      assert p[..4] == [p[0], p[1], p[2], p[3]];
      assert p[..4] == msg[o.value + 4..o.value + 8];
      assert forall i | 0 <= i < 4 :: p[i] == msg[o.value + 4 + i];
    }
  }

  class InAddr {
    var addr: uint32

    constructor ()
      ensures addr == 0
    {
      addr := 0;
    }

    /** _filter_default_gw, early returns and all; `rtaMax` is RTA_MAX of the system's headers. */
    method FilterDefaultGw(sender: uint32, n: Message, rtaMax: nat) returns (ret: int)
      requires RTA_TABLE <= rtaMax && WordsInside(n)
      modifies this
      ensures (addr, ret) == Filter(old(addr), sender, n)
    {
      if MsgType(n) != RTM_NEWROUTE && MsgType(n) != RTM_DELROUTE {
        return -1;
      }
      var len := |n| - RTM_RTA;
      if len < 0 {
        return -1;
      }
      var tb := new Option<nat>[rtaMax + 1];
      Parser.ParseRtattr(tb, rtaMax, n, RTM_RTA, len);
      hide LastOfType, Walk;
      if n[16] != AF_INET {
        return 0;
      }
      if tb[RTA_TABLE].Some? {
        var table := Get32(n, tb[RTA_TABLE].value + 4);
        if table != RT_TABLE_MAIN {
          return 0;
        }
      }
      if tb[RTA_DST].Some? {
        return 0;
      }
      if tb[RTA_GATEWAY].Some? {
        addr := Get32(n, tb[RTA_GATEWAY].value + 4);
      }
      return 0;
    }
  }

  // ----- The dump and the filter together -----------------------------------------------------------

  function GatewayDump(pid: uint32, seqno: uint32): Dump<uint32>
  {
    Dump(pid, seqno, Filter, None)
  }

  /** The gateway that the i-th message of a dump announces, if it belongs to the dump. */
  function Announced(pid: uint32, seqno: uint32, x: Delivery): Option<uint32>
  {
    if Own(GatewayDump(pid, seqno), x) then GatewayOf(x.msg) else None
  }

  /** `addr` is what the last announcing message says, or `initial` if no message announces any. */
  predicate LastAnnounced(pid: uint32, seqno: uint32, xs: seq<Delivery>, initial: uint32, addr: uint32)
  {
    || (addr == initial && forall i | 0 <= i < |xs| :: Announced(pid, seqno, xs[i]).None?)
    || exists i | 0 <= i < |xs| ::
         && Announced(pid, seqno, xs[i]) == Some(addr)
         && forall j | i < j < |xs| :: Announced(pid, seqno, xs[j]).None?
  }

  /** One message: the callback call it causes, if any, leaves what it announces. */
  lemma FirstAnnounces(pid: uint32, seqno: uint32, xs: seq<Delivery>, initial: uint32)
    requires xs != [] && AllAccept(GatewayDump(pid, seqno), initial, CallsFor(GatewayDump(pid, seqno), xs))
    ensures var d := GatewayDump(pid, seqno);
      var first := match Announced(pid, seqno, xs[0]) case Some(g) => g case None => initial;
      && AllAccept(d, first, CallsFor(d, xs[1..]))
      && StateAfter(d, initial, CallsFor(d, xs)) == StateAfter(d, first, CallsFor(d, xs[1..]))
  {
    hide GatewayOf, IsRoute;
    var d := GatewayDump(pid, seqno);
    var calls := CallsFor(d, xs[1..]);
    if Own(d, xs[0]) {
      assert CallsFor(d, xs) == [Filtered(xs[0])] + calls;
      assert ([Filtered(xs[0])] + calls)[1..] == calls;
    } else {
      assert CallsFor(d, xs) == [] + calls == calls;
    }
  }

  lemma LastOfRest(pid: uint32, seqno: uint32, xs: seq<Delivery>, initial: uint32, addr: uint32)
    requires xs != []
    requires LastAnnounced(pid, seqno, xs[1..],
               match Announced(pid, seqno, xs[0]) case Some(g) => g case None => initial, addr)
    ensures LastAnnounced(pid, seqno, xs, initial, addr)
  {
    hide Announced;
    var rest := xs[1..];
    assert forall i | 0 < i < |xs| :: xs[i] == rest[i - 1];
    if forall i | 0 <= i < |rest| :: Announced(pid, seqno, rest[i]).None? {
    } else {
      var i :| 0 <= i < |rest| && Announced(pid, seqno, rest[i]) == Some(addr)
        && forall j | i < j < |rest| :: Announced(pid, seqno, rest[j]).None?;
      assert Announced(pid, seqno, xs[i + 1]) == Some(addr);
    }
  }

  lemma {:induction false} FoldAnnounces(pid: uint32, seqno: uint32, xs: seq<Delivery>, initial: uint32)
    requires AllAccept(GatewayDump(pid, seqno), initial, CallsFor(GatewayDump(pid, seqno), xs))
    requires forall i | 0 <= i < |xs| && Own(GatewayDump(pid, seqno), xs[i]) :: WordsInside(xs[i].msg)
    ensures LastAnnounced(pid, seqno, xs, initial,
              StateAfter(GatewayDump(pid, seqno), initial, CallsFor(GatewayDump(pid, seqno), xs)))
    decreases |xs|
  {
    if xs != [] {
      hide Announced, LastAnnounced, AllAccept, StateAfter, CallsFor, WordsInside;
      FirstAnnounces(pid, seqno, xs, initial);
      var first := match Announced(pid, seqno, xs[0]) case Some(g) => g case None => initial;
      FoldAnnounces(pid, seqno, xs[1..], first);
      LastOfRest(pid, seqno, xs, initial,
        StateAfter(GatewayDump(pid, seqno), first, CallsFor(GatewayDump(pid, seqno), xs[1..])));
    }
  }

  /**
   * A dump that succeeds leaves the gateway of the last main-table default IPv4 route it reported,
   * or 0.0.0.0, in the caller's address.
   */
  lemma DumpYieldsGateway(pid: uint32, seqno: uint32, script: seq<Recv>) returns (k: nat)
    requires forall e | e in script :: Benign(e)
    requires Vouched(GatewayDump(pid, seqno), Flatten(script), WordsInside)
    requires Script(GatewayDump(pid, seqno), Run(0, [], Waiting), script).0.outcome == Returned(0)
    ensures var r := Script(GatewayDump(pid, seqno), Run(0, [], Waiting), script).0;
      var xs := Flatten(script);
      && k < |xs| && Own(GatewayDump(pid, seqno), xs[k]) && MsgType(xs[k].msg) == NLMSG_DONE
      && (forall i | 0 <= i < k :: !Final(GatewayDump(pid, seqno), xs[i]))
      && LastAnnounced(pid, seqno, xs[..k], 0, r.state)
  {
    hide Script, Flatten, LastAnnounced, WordsInside;
    var d := GatewayDump(pid, seqno);
    k := DumpMeaning(d, 0, script);
    var xs := Flatten(script);
    VouchedBefore(d, xs, k, WordsInside);
    FoldAnnounces(pid, seqno, xs[..k], 0);
  }

  /** What the caller of libamg_get_default_gw_ipaddr sees; the loop may also exit or go on waiting. */
  datatype Result = Result(code: int, addr: uint32) | NoReturn(addr: uint32)

  /** ++rth->seq, on the time at which the handle was opened. */
  function FirstNumber(time: uint32): (n: uint32)
    ensures n == (time + 1) % 0x1_0000_0000
  {
    if time == 0xFFFF_FFFF then 0 else time + 1
  }

  // A struct nlmsgerr of 20 bytes, whose first word is the error, lies behind the message header.
  const NLMSGERR_END := NLMSG_HDRLEN + 20

  /** What errno holds after the loop stopped at `x`, if it held `before`: a whole NLMSG_ERROR sets it. */
  function ErrnoAfter(d: Dump<uint32>, x: Delivery, before: int): int
  {
    if Final(d, x) && MsgType(x.msg) == NLMSG_ERROR && NLMSGERR_END <= |x.msg| then
      var error := Get32(x.msg, NLMSG_HDRLEN);
      -(if error < 0x8000_0000 then error else error - 0x1_0000_0000)
    else before
  }

  /** The result of libamg_get_default_gw_ipaddr for what the dump returned. */
  function ReturnCode(dumped: int, errno: int): int
  {
    if dumped < 0 then errno else 0
  }

  /**
   * When a return code of 0 does not mean a successful dump: on benign scripts the dump is decided by one
   * message `k`, and it succeeded exactly if that is DONE, but the code is also 0 if that is an error
   * message whose error is 0, or sets no errno and errno was 0.
   */
  lemma ZeroMayBeFailure(pid: uint32, seqno: uint32, script: seq<Recv>, before: int) returns (k: nat)
    requires forall e | e in script :: Benign(e)
    requires Script(GatewayDump(pid, seqno), Run(0, [], Waiting), script).0.outcome.Returned?
    ensures var d := GatewayDump(pid, seqno);
      var dumped := Script(d, Run(0, [], Waiting), script).0.outcome.code;
      var xs := Flatten(script);
      && k < |xs| && Own(d, xs[k]) && (forall i | 0 <= i < k :: !Final(d, xs[i]))
      && (dumped == 0 <==> MsgType(xs[k].msg) == NLMSG_DONE)
      && (ReturnCode(dumped, ErrnoAfter(d, xs[k], before)) == 0 <==>
            || MsgType(xs[k].msg) == NLMSG_DONE
            || if MsgType(xs[k].msg) == NLMSG_ERROR && NLMSGERR_END <= |xs[k].msg|
               then Get32(xs[k].msg, NLMSG_HDRLEN) == 0
               else before == 0)
  {
    hide Script, Flatten, Filter;
    k := DumpMeaning(GatewayDump(pid, seqno), 0, script);
  }

  /**
   * libamg_get_default_gw_ipaddr after rtnl_open set the handle's pid and first sequence number. On
   * success the address is that of the last announcement before the first final message, which is DONE.
   * `errno` is what errno holds when the call returns; if that is 0, a failed dump returns 0 too.
   */
  method GetDefaultGwIpaddr(isOpen: bool, sent: bool, errno: int, pid: uint32, time: uint32, script: seq<Recv>)
      returns (res: Result)
    requires isOpen && sent ==> Vouched(GatewayDump(pid, FirstNumber(time)), Flatten(script), WordsInside)
    ensures !isOpen ==> res == Result(-1, 0)
    ensures isOpen && !sent ==> res == Result(errno, 0)
    ensures isOpen && sent ==>
      var d := GatewayDump(pid, FirstNumber(time));
      var r := Script(d, Run(0, [], Waiting), script).0;
      && res.addr == r.state
      && (res.NoReturn? <==> !r.outcome.Returned?)
      && (res.Result? ==> res.code == ReturnCode(r.outcome.code, errno))
      && (res.Result? ==> (res.code == 0 <==> r.outcome.code >= 0 || errno == 0))
      && (r.outcome == Returned(0) && (forall e | e in script :: Benign(e)) ==>
            exists k | 0 <= k < |Flatten(script)| ::
              && Final(d, Flatten(script)[k]) && MsgType(Flatten(script)[k].msg) == NLMSG_DONE
              && (forall i | 0 <= i < k :: !Final(d, Flatten(script)[i]))
              && LastAnnounced(pid, FirstNumber(time), Flatten(script)[..k], 0, res.addr))
  {
    if !isOpen {
      return Result(-1, 0);
    }
    var seqno := FirstNumber(time);
    if !sent {
      return Result(errno, 0);
    }
    hide Script, LastAnnounced, Flatten, Vouched;
    var r, _ := DumpFilter(GatewayDump(pid, seqno), 0, script);
    if r.outcome == Returned(0) && forall e | e in script :: Benign(e) {
      ghost var k := DumpYieldsGateway(pid, seqno, script);
    }
    match r.outcome
    case Returned(code) => res := Result(ReturnCode(code, errno), r.state);
    case _ => res := NoReturn(r.state);
  }
}
