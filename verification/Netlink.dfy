/** Netlink messages and what a socket hands out: the common ground of the conversation loops. */
module Netlink {
  import opened Bytes
  import opened Attributes

  // struct nlmsghdr: length (4), type (2), flags (2), sequence number (4), port id (4).
  const NLMSG_HDRLEN := 16
  const NLMSG_ERROR := 2
  const NLMSG_DONE := 3

  function MsgLen(b: seq<byte>): uint32
    requires NLMSG_HDRLEN <= |b|
  {
    Get32(b, 0)
  }

  function MsgType(b: seq<byte>): uint16
    requires NLMSG_HDRLEN <= |b|
  {
    Get16(b, 4)
  }

  function MsgSeq(b: seq<byte>): uint32
    requires NLMSG_HDRLEN <= |b|
  {
    Get32(b, 8)
  }

  function MsgPid(b: seq<byte>): uint32
    requires NLMSG_HDRLEN <= |b|
  {
    Get32(b, 12)
  }

  /** NLMSG_OK on everything that is left of a datagram. */
  predicate MsgOk(b: seq<byte>)
  {
    NLMSG_HDRLEN <= |b| && NLMSG_HDRLEN <= MsgLen(b) <= |b|
  }

  /** The header fields of a message, by the bytes that the kernel writes. */
  lemma HeaderFields(msg: seq<byte>, kind: uint16, flags: uint16, seqno: uint32, pid: uint32, p: seq<byte>)
    requires 16 + |p| < 0x1_0000_0000
    requires msg == Put32(16 + |p|) + Put16(kind) + Put16(flags) + Put32(seqno) + Put32(pid) + p
    ensures |msg| == 16 + |p| && MsgOk(msg) && MsgLen(msg) == |msg| && msg[16..] == p
    ensures MsgType(msg) == kind && MsgSeq(msg) == seqno && MsgPid(msg) == pid
  {
    hide Put16, Put32, Get16, Get32;
    Get16At(msg, 4, Put32(16 + |p|), kind, Put16(flags) + Put32(seqno) + Put32(pid) + p);
    Get32At(msg, 0, [], 16 + |p|, Put16(kind) + Put16(flags) + Put32(seqno) + Put32(pid) + p);
    Get32At(msg, 8, Put32(16 + |p|) + Put16(kind) + Put16(flags), seqno, Put32(pid) + p);
    Get32At(msg, 12, Put32(16 + |p|) + Put16(kind) + Put16(flags) + Put32(seqno), pid, p);
  }

  /** What one recvmsg call reports. A datagram of no bytes is the end of the stream. */
  datatype Recv = Interrupted | Failed | Datagram(sender: uint32, truncated: bool, bytes: seq<byte>)

  /** A whole message: at least a header, and exactly as long as its length field says. */
  type Message = b: seq<byte> | MsgOk(b) && MsgLen(b) == |b| witness Put32(16) + Put32(0) + Put32(0) + Put32(0)

  /** The messages NLMSG_OK / NLMSG_NEXT visit in a datagram. */
  function Messages(b: seq<byte>): (r: seq<Message>)
    decreases |b|
  {
    if MsgOk(b) then [First(b)] + Messages(Rest(b)) else []
  }

  function First(b: seq<byte>): (m: Message)
    requires MsgOk(b)
  {
    assert b[..MsgLen(b)][..NLMSG_HDRLEN] == b[..NLMSG_HDRLEN];
    b[..MsgLen(b)]
  }

  /** What is left behind the first message and its padding. */
  function Rest(b: seq<byte>): seq<byte>
    requires MsgOk(b)
  {
    if Align(MsgLen(b)) <= |b| then b[Align(MsgLen(b))..] else []
  }

  /** The signed byte count left when the visit ends; below zero if padding was missing. */
  function Remnant(b: seq<byte>): int
    decreases |b|
  {
    if !MsgOk(b) then |b|
    else if Align(MsgLen(b)) <= |b| then Remnant(b[Align(MsgLen(b))..])
    else |b| - Align(MsgLen(b))
  }

  /** A message as the loops see it, with the port id of the datagram's sender. */
  datatype Delivery = Delivery(sender: uint32, msg: Message)

  function From(sender: uint32, msgs: seq<Message>): (r: seq<Delivery>)
    ensures |r| == |msgs| && forall i | 0 <= i < |r| :: r[i] == Delivery(sender, msgs[i])
  {
    seq(|msgs|, i requires 0 <= i < |msgs| => Delivery(sender, msgs[i]))
  }

  lemma VisitFirst(sender: uint32, b: seq<byte>)
    requires MsgOk(b)
    ensures var xs := From(sender, Messages(b));
      xs != [] && xs[0] == Delivery(sender, First(b)) && xs[1..] == From(sender, Messages(Rest(b)))
    ensures Remnant(b) == if Align(MsgLen(b)) <= |b| then Remnant(Rest(b)) else |b| - Align(MsgLen(b))
  {
    hide Align, Words, MsgLen, First, Rest, Remnant, From;
    FromFirst(sender, First(b), Messages(Rest(b)));
    RemnantUnfolds(b);
  }

  lemma FromFirst(sender: uint32, m: Message, ms: seq<Message>)
    ensures var xs := From(sender, [m] + ms);
      xs != [] && xs[0] == Delivery(sender, m) && xs[1..] == From(sender, ms)
  {
    hide MsgOk, MsgLen;
  }

  lemma RemnantUnfolds(b: seq<byte>)
    requires MsgOk(b)
    ensures Remnant(b) == if Align(MsgLen(b)) <= |b| then Remnant(Rest(b)) else |b| - Align(MsgLen(b))
  {
    hide Align, Words, MsgLen;
  }

  lemma VisitNone(sender: uint32, b: seq<byte>)
    requires !MsgOk(b)
    ensures From(sender, Messages(b)) == [] && Remnant(b) == |b|
  {
  }

  /** A datagram that holds one padded message. */
  lemma OneInDatagram(msg: Message, pad: seq<byte>)
    requires |msg| + |pad| == Align(|msg|)
    ensures Messages(msg + pad) == [msg] && Remnant(msg + pad) == 0
  {
    hide Align, Words;
    var b := msg + pad;
    assert b[..NLMSG_HDRLEN] == msg[..NLMSG_HDRLEN];
    assert MsgLen(b) == |msg| && b[..|msg|] == msg && b[|b|..] == [];
  }

  /** A receive that the kernel is expected to produce: interrupted, or a datagram of whole padded messages. */
  predicate Benign(e: Recv)
  {
    e.Interrupted? || (e.Datagram? && !e.truncated && |e.bytes| > 0 && Remnant(e.bytes) == 0)
  }

  /** All messages of a script in order of arrival; where the datagrams begin and end is forgotten. */
  function Flatten(script: seq<Recv>): seq<Delivery>
  {
    if script == [] then []
    else (if script[0].Datagram? then From(script[0].sender, Messages(script[0].bytes)) else []) + Flatten(script[1..])
  }

  /** A callback: how it changes the caller's state, and what it returns. */
  type Callback<!S> = (S, uint32, Message) -> (S, int)

  datatype Call = Filtered(d: Delivery) | Junked(d: Delivery)

  /** The messages that a sequence of calls handed to the filter, and those it handed to the junk callback. */
  function FilteredOf(calls: seq<Call>): seq<Delivery>
  {
    if calls == [] then [] else (if calls[0].Filtered? then [calls[0].d] else []) + FilteredOf(calls[1..])
  }

  function JunkedOf(calls: seq<Call>): seq<Delivery>
  {
    if calls == [] then [] else (if calls[0].Junked? then [calls[0].d] else []) + JunkedOf(calls[1..])
  }

  /** The messages that have a property, or those that do not, in order. */
  function Only(xs: seq<Delivery>, has: Delivery -> bool, want: bool): seq<Delivery>
  {
    if xs == [] then [] else (if has(xs[0]) == want then [xs[0]] else []) + Only(xs[1..], has, want)
  }

  lemma OneMoreCall(c: Call, calls: seq<Call>)
    ensures FilteredOf([c] + calls) == (if c.Filtered? then [c.d] else []) + FilteredOf(calls)
    ensures JunkedOf([c] + calls) == (if c.Junked? then [c.d] else []) + JunkedOf(calls)
  {
    hide MsgOk, MsgLen;
    assert ([c] + calls)[1..] == calls;
  }
}
