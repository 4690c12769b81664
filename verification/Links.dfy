/** What the interface index table must remember: pure chains, a plain map, and how they agree. */
module Links {
  import opened Bytes
  import opened Attributes
  import opened Netlink

  const RTM_NEWLINK := 16
  const IFLA_ADDRESS := 1
  const IFLA_IFNAME := 3
  const BUCKETS := 16

  // A struct ifinfomsg of 16 bytes lies between the message header and the attributes.
  const IFLA_RTA := NLMSG_HDRLEN + 16

  /** One interface. `addr` holds the bytes that were copied: at most eight, whatever `alen` says. */
  datatype Link = Link(index: uint32, kind: uint16, flags: uint32, alen: nat, addr: seq<byte>, name: seq<byte>)

  type Chains = c: seq<seq<Link>> | |c| == BUCKETS witness seq(BUCKETS, _ => [])

  const Empty: Chains := seq(BUCKETS, _ => [])

  /** A C string: the bytes before the first NUL. */
  function CString(p: seq<byte>): (r: seq<byte>)
    ensures 0 !in r && |r| <= |p| && r == p[..|r|] && (|r| < |p| ==> p[|r|] == 0)
  {
    if p == [] || p[0] == 0 then [] else [p[0]] + CString(p[1..])
  }

  function Find(msg: Message, t: int): Option<nat>
    requires IFLA_RTA <= |msg|
  {
    LastOfType(msg, Walk(msg, IFLA_RTA, |msg|), t)
  }

  /** How ll_remember_index takes a message. */
  datatype Verdict = Ignored | TooShort | News(link: Link)

  function CopiedAddress(msg: Message): (nat, seq<byte>)
    requires IFLA_RTA <= |msg|
  {
    match Find(msg, IFLA_ADDRESS)
    case None => (0, [])
    case Some(o) => var p := RawAt(msg, o).payload; (|p|, if |p| <= 8 then p else p[..8])
  }

  /**
   * The length test uses the size of a pointer, `ptr`, not that of the structure; a message that
   * passes it without room for the structure has no attributes and is ignored.
   */
  function Read(msg: Message, ptr: nat): Verdict
  {
    if MsgType(msg) != RTM_NEWLINK then Ignored
    else if |msg| < NLMSG_HDRLEN + ptr then TooShort
    else if |msg| < IFLA_RTA then Ignored
    else
      match Find(msg, IFLA_IFNAME)
      case None => Ignored
      case Some(o) =>
        News(Link(Get32(msg, 20), Get16(msg, 18), Get32(msg, 24),
                  CopiedAddress(msg).0, CopiedAddress(msg).1, CString(RawAt(msg, o).payload)))
  }

  /**
   * What is read, from the bytes up. A link message is a header, a struct ifinfomsg (family, padding, type,
   * index, flags, change) and attributes: the last address (1) and the last name (3) count.
   */
  lemma NewsFromBytes(ptr: nat, msg: Message, kind: uint16, flags: uint16, seqno: uint32, pid: uint32, family: byte,
                      hole: byte, arp: uint16, index: uint32, ifFlags: uint32, change: uint32, attrs: seq<Attr>,
                      under: seq<byte>)
    requires |under| == SizeAll(attrs) && ShortAll(attrs) && 32 + |under| < 0x1_0000_0000
    requires msg == Put32(32 + |under|) + Put16(kind) + Put16(flags) + Put32(seqno) + Put32(pid)
                    + ([family, hole] + Put16(arp) + Put32(index) + Put32(ifFlags) + Put32(change)
                       + SerialiseAll(attrs, under))
    ensures var address := LastPayload(RawsOf(attrs, under), 1);
      var name := LastPayload(RawsOf(attrs, under), 3);
      Read(msg, ptr)
      == if kind != 16 then Ignored
         else if 32 + |under| < 16 + ptr then TooShort
         else if name.None? then Ignored
         else
           var (alen, addr) := match address case None => (0, []) case Some(p) => (|p|, if |p| <= 8 then p else p[..8]);
           News(Link(index, arp, ifFlags, alen, addr, CString(name.value)))
  {
    hide Align, Words, Put16, Put32, Get16, Get32, SerialiseAll, RawsOf, LastPayload, ShortAll, SizeAll, LastOfType;
    hide Walk, CString;
    var head := Put32(32 + |under|) + Put16(kind) + Put16(flags) + Put32(seqno) + Put32(pid);
    var info := [family, hole] + Put16(arp) + Put32(index) + Put32(ifFlags) + Put32(change);
    var tail := SerialiseAll(attrs, under);
    HeaderFields(msg, kind, flags, seqno, pid, info + tail);
    assert msg == head + info + tail;
    assert info + tail == [family, hole] + Put16(arp) + Put32(index) + Put32(ifFlags) + (Put32(change) + tail);
    InfoFields(msg, head, family, hole, arp, index, ifFlags, Put32(change) + tail);
    LastSerialised(msg, head + info, attrs, under, 1);
    LastSerialised(msg, head + info, attrs, under, 3);
  }

  lemma InfoFields(msg: seq<byte>, head: seq<byte>, family: byte, hole: byte, arp: uint16, index: uint32,
                   ifFlags: uint32, rest: seq<byte>)
    requires |head| == 16
    requires msg == head + ([family, hole] + Put16(arp) + Put32(index) + Put32(ifFlags) + rest)
    ensures Get16(msg, 18) == arp && Get32(msg, 20) == index && Get32(msg, 24) == ifFlags
  {
    hide Put16, Put32, Get16, Get32;
    var start := head + [family, hole];
    Get16At(msg, 18, start, arp, Put32(index) + Put32(ifFlags) + rest);
    Get32At(msg, 20, start + Put16(arp), index, Put32(ifFlags) + rest);
    Get32At(msg, 24, start + Put16(arp) + Put32(index), ifFlags, rest);
  }

  /** If the name attribute is copied, it is a C string that fits name[16]. */
  predicate NameFits(msg: Message, ptr: nat)
  {
    Read(msg, ptr).News? ==>
      var p := RawAt(msg, Find(msg, IFLA_IFNAME).value).payload;
      |CString(p)| < |p| && |CString(p)| < 16
  }

  /** Update the entry of the same index where it stands, or add one at the end of the chain. */
  function Put(chain: seq<Link>, l: Link): (r: seq<Link>)
    ensures |chain| <= |r|
  {
    if chain == [] then [l]
    else if chain[0].index == l.index then [l] + chain[1..]
    else [chain[0]] + Put(chain[1..], l)
  }

  function Hash(index: uint32): nat
    ensures Hash(index) < BUCKETS
  {
    index % 16
  }

  function Store(c: Chains, l: Link): Chains
  {
    c[Hash(l.index) := Put(c[Hash(l.index)], l)]
  }

  /** ll_remember_index as a dump callback on the table. */
  function Remember(ptr: nat, c: Chains, sender: uint32, msg: Message): (Chains, int)
  {
    match Read(msg, ptr)
    case Ignored => (c, 0)
    case TooShort => (c, -1)
    case News(l) => (Store(c, l), 0)
  }

  /** -1 exactly for a link message without room for a pointer behind its header. */
  lemma CodeOfRemember(ptr: nat, c: Chains, sender: uint32, msg: Message)
    ensures Remember(ptr, c, sender, msg).1 == if Get16(msg, 4) == 16 && |msg| < 16 + ptr then -1 else 0
  {
  }

  function RememberAll(ptr: nat, c: Chains, msgs: seq<Message>): Chains
    decreases |msgs|
  {
    if msgs == [] then c else RememberAll(ptr, Remember(ptr, c, 0, msgs[0]).0, msgs[1..])
  }

  function FindIn(chain: seq<Link>, index: uint32): Option<Link>
  {
    if chain == [] then None
    else if chain[0].index == index then Some(chain[0])
    else FindIn(chain[1..], index)
  }

  function Lookup(c: Chains, index: uint32): Option<Link>
  {
    FindIn(c[Hash(index)], index)
  }

  // ----- Agreement with a plain map ----------------------------------------------------------------

  /** The last accepted link per index. */
  function LastLinks(ptr: nat, m: map<uint32, Link>, msgs: seq<Message>): map<uint32, Link>
    decreases |msgs|
  {
    if msgs == [] then m
    else
      match Read(msgs[0], ptr)
      case News(l) => LastLinks(ptr, m[l.index := l], msgs[1..])
      case _ => LastLinks(ptr, m, msgs[1..])
  }

  ghost predicate Agrees(c: Chains, m: map<uint32, Link>)
  {
    forall index: uint32 :: Lookup(c, index) == if index in m then Some(m[index]) else None
  }

  lemma {:induction false} FindPut(chain: seq<Link>, l: Link, index: uint32)
    ensures FindIn(Put(chain, l), index) == if index == l.index then Some(l) else FindIn(chain, index)
  {
    if chain != [] {
      FindPut(chain[1..], l, index);
    }
  }

  lemma StoreAgrees(c: Chains, m: map<uint32, Link>, l: Link)
    requires Agrees(c, m)
    ensures Agrees(Store(c, l), m[l.index := l])
  {
    forall index: uint32
      ensures Lookup(Store(c, l), index) == if index == l.index then Some(l) else Lookup(c, index)
    {
      FindPut(c[Hash(l.index)], l, index);
    }
  }

  /** After any run of messages, looking up an index finds the last accepted link with that index. */
  lemma {:induction false} RunAgrees(ptr: nat, c: Chains, m: map<uint32, Link>, msgs: seq<Message>)
    requires Agrees(c, m) && forall i | 0 <= i < |msgs| :: NameFits(msgs[i], ptr)
    ensures Agrees(RememberAll(ptr, c, msgs), LastLinks(ptr, m, msgs))
    decreases |msgs|
  {
    hide Read, Agrees, NameFits;
    if msgs != [] {
      match Read(msgs[0], ptr)
      case News(l) =>
        StoreAgrees(c, m, l);
        RunAgrees(ptr, Store(c, l), m[l.index := l], msgs[1..]);
      case _ =>
        RunAgrees(ptr, c, m, msgs[1..]);
    }
  }

  // ----- The invariant of the chains -----------------------------------------------------------------

  /** Every bucket holds only indexes of its own hash, each at most once. */
  ghost predicate WellFormed(c: Chains)
  {
    && (forall h, i | 0 <= h < BUCKETS && 0 <= i < |c[h]| :: Hash(c[h][i].index) == h)
    && (forall h, i, j | 0 <= h < BUCKETS && 0 <= i < j < |c[h]| :: c[h][i].index != c[h][j].index)
  }

  /** The first position of `index` in a chain, or the end of the chain. */
  function Slot(chain: seq<Link>, index: uint32): (k: nat)
    ensures k <= |chain| && (k < |chain| ==> chain[k].index == index)
    ensures forall i | 0 <= i < k :: chain[i].index != index
  {
    if chain == [] || chain[0].index == index then 0 else 1 + Slot(chain[1..], index)
  }

  /** Where an update happens: at the entry of that index, or behind all entries. */
  lemma {:induction false} PutShape(chain: seq<Link>, l: Link)
    ensures var k := Slot(chain, l.index);
      Put(chain, l) == if k < |chain| then chain[k := l] else chain + [l]
  {
    if chain != [] && chain[0].index != l.index {
      PutShape(chain[1..], l);
      var k, rest := Slot(chain[1..], l.index), chain[1..];
      if k < |rest| {
        assert [chain[0]] + rest[k := l] == chain[k + 1 := l];
      } else {
        assert [chain[0]] + (rest + [l]) == chain + [l];
      }
    }
  }

  lemma StoreKeepsForm(c: Chains, l: Link)
    requires WellFormed(c)
    ensures WellFormed(Store(c, l))
  {
    hide Store;
    StoreAt(c, l);
  }

  /** Entries never move or disappear: each keeps its bucket, its position and its index. */
  ghost predicate Extends(c: Chains, c': Chains)
  {
    forall h | 0 <= h < BUCKETS ::
      |c[h]| <= |c'[h]| && forall i | 0 <= i < |c[h]| :: c'[h][i].index == c[h][i].index
  }

  lemma StoreExtends(c: Chains, l: Link)
    ensures Extends(c, Store(c, l))
  {
    PutShape(c[Hash(l.index)], l);
  }

  lemma {:induction false} RunKeeps(ptr: nat, c: Chains, msgs: seq<Message>)
    requires WellFormed(c)
    ensures WellFormed(RememberAll(ptr, c, msgs)) && Extends(c, RememberAll(ptr, c, msgs))
    decreases |msgs|
  {
    hide Read, WellFormed, Store;
    if msgs != [] {
      var c1 := Remember(ptr, c, 0, msgs[0]).0;
      if Read(msgs[0], ptr).News? {
        StoreKeepsForm(c, Read(msgs[0], ptr).link);
        StoreExtends(c, Read(msgs[0], ptr).link);
      }
      RunKeeps(ptr, c1, msgs[1..]);
    }
  }

  // ----- Scanning for a name ----------------------------------------------------------------------------

  /** The scan order of ll_name_to_index: bucket by bucket, each from its head. */
  predicate Before(h: nat, i: nat, h': nat, i': nat)
  {
    h < h' || (h == h' && i < i')
  }

  /** The scan for `name` stops at position `i` of bucket `h`. */
  ghost predicate StopsAt(c: Chains, name: seq<byte>, h: nat, i: nat)
  {
    && h < BUCKETS && i < |c[h]| && c[h][i].name == name
    && forall h', i' | 0 <= h' < BUCKETS && 0 <= i' < |c[h']| && Before(h', i', h, i) :: c[h'][i'].name != name
  }

  ghost predicate NotFound(c: Chains, name: seq<byte>)
  {
    forall h, i | 0 <= h < BUCKETS && 0 <= i < |c[h]| :: c[h][i].name != name
  }

  /** The full scan answers `index`. */
  ghost predicate ScanFinds(c: Chains, name: seq<byte>, index: uint32)
  {
    exists h: nat, i: nat :: StopsAt(c, name, h, i) && c[h][i].index == index
  }

  /** This news renames the interface `index`, or gives its name to another one. */
  predicate Disturbs(v: Verdict, name: seq<byte>, index: uint32)
  {
    v.News? && (v.link.index == index) != (v.link.name == name)
  }

  /**
   * Exactly when one piece of news leaves the scan's answer alone: the answered interface keeps the
   * name, and no interface scanned before it takes the name.
   */
  lemma ScanAfterStore(c: Chains, l: Link, name: seq<byte>, h: nat, i: nat)
    requires WellFormed(c) && StopsAt(c, name, h, i)
    ensures ScanFinds(Store(c, l), name, c[h][i].index) <==>
      if l.index == c[h][i].index then l.name == name
      else l.name == name ==> !Before(Hash(l.index), Slot(c[Hash(l.index)], l.index), h, i)
  {
    hide Store, WellFormed, ScanFinds, StopsAt;
    StoreKeepsForm(c, l);
    StoreAt(c, l);
    assert i < |c[h]| && h < BUCKETS by { StopsInside(c, name, h, i); }
    SameIndex(c, l, h, i);
    OnlyHere(Store(c, l), name, h, i);
    StopsAfterStore(c, l, name, h, i);
  }

  lemma StopsInside(c: Chains, name: seq<byte>, h: nat, i: nat)
    requires StopsAt(c, name, h, i)
    ensures h < BUCKETS && i < |c[h]|
  {
  }

  /** What stands where after a store: only the slot of the index holds something else. */
  lemma StoreAt(c: Chains, l: Link)
    ensures var g, c' := Hash(l.index), Store(c, l);
      var k := Slot(c[g], l.index);
      && |c'[g]| == (if k < |c[g]| then |c[g]| else |c[g]| + 1) && c'[g][k] == l
      && (forall h | 0 <= h < BUCKETS && h != g :: c'[h] == c[h])
      && (forall i | 0 <= i < |c[g]| && i != k :: c'[g][i] == c[g][i])
  {
    PutShape(c[Hash(l.index)], l);
  }

  lemma SameIndex(c: Chains, l: Link, h: nat, i: nat)
    requires h < BUCKETS && i < |c[h]|
    ensures i < |Store(c, l)[h]| && Store(c, l)[h][i].index == c[h][i].index
  {
    hide Store;
    StoreAt(c, l);
  }

  lemma StopsAfterStore(c: Chains, l: Link, name: seq<byte>, h: nat, i: nat)
    requires WellFormed(c) && StopsAt(c, name, h, i)
    ensures StopsAt(Store(c, l), name, h, i) <==>
      if l.index == c[h][i].index then l.name == name
      else l.name == name ==> !Before(Hash(l.index), Slot(c[Hash(l.index)], l.index), h, i)
  {
    hide Store;
    StoreAt(c, l);
    var g := Hash(l.index);
    var k := Slot(c[g], l.index);
    if l.index == c[h][i].index {
      assert g == h && k == i;
    }
    assert Store(c, l)[g][k].name == l.name;
  }

  /** An index stands in one place only, so the scan can find it only there. */
  lemma OnlyHere(c: Chains, name: seq<byte>, h: nat, i: nat)
    requires WellFormed(c) && h < BUCKETS && i < |c[h]|
    ensures ScanFinds(c, name, c[h][i].index) <==> StopsAt(c, name, h, i)
  {
  }

  lemma StoreKeepsScan(c: Chains, l: Link, name: seq<byte>, index: uint32)
    requires WellFormed(c) && ScanFinds(c, name, index) && !Disturbs(News(l), name, index)
    ensures ScanFinds(Store(c, l), name, index)
  {
    var h: nat, i: nat :| StopsAt(c, name, h, i) && c[h][i].index == index;
    ScanAfterStore(c, l, name, h, i);
  }

  /**
   * A cached pair (name, index) stays what the full scan would answer as long as no message renames
   * that index or gives its name to another one.
   */
  lemma {:induction false} CacheStaysRight(ptr: nat, c: Chains, msgs: seq<Message>, name: seq<byte>, index: uint32)
    requires WellFormed(c) && ScanFinds(c, name, index)
    requires forall i | 0 <= i < |msgs| :: !Disturbs(Read(msgs[i], ptr), name, index)
    ensures ScanFinds(RememberAll(ptr, c, msgs), name, index)
    decreases |msgs|
  {
    hide Read, ScanFinds, Store, WellFormed;
    if msgs != [] {
      if Read(msgs[0], ptr).News? {
        StoreKeepsScan(c, Read(msgs[0], ptr).link, name, index);
        StoreKeepsForm(c, Read(msgs[0], ptr).link);
      }
      assert forall i | 0 <= i < |msgs[1..]| :: msgs[1..][i] == msgs[i + 1];
      CacheStaysRight(ptr, Remember(ptr, c, 0, msgs[0]).0, msgs[1..], name, index);
    }
  }

  // ----- Lookups and messages in any order --------------------------------------------------------------

  /** The first position of a name in a chain, or the end of the chain. */
  function Named(chain: seq<Link>, name: seq<byte>): (k: nat)
    ensures k <= |chain| && (k < |chain| ==> chain[k].name == name)
    ensures forall i | 0 <= i < k :: chain[i].name != name
  {
    if chain == [] || chain[0].name == name then 0 else 1 + Named(chain[1..], name)
  }

  /** What the scan from bucket `h` on answers. */
  function Scan(c: Chains, name: seq<byte>, h: nat): Option<uint32>
    requires h <= BUCKETS
    decreases BUCKETS - h
  {
    if h == BUCKETS then None
    else
      var k := Named(c[h], name);
      if k < |c[h]| then Some(c[h][k].index) else Scan(c, name, h + 1)
  }

  lemma ScanHere(c: Chains, name: seq<byte>, h: nat, k: nat)
    requires h < BUCKETS && k < |c[h]| && c[h][k].name == name && forall i | 0 <= i < k :: c[h][i].name != name
    ensures Scan(c, name, h) == Some(c[h][k].index)
  {
  }

  lemma ScanOn(c: Chains, name: seq<byte>, h: nat)
    requires h < BUCKETS && forall i | 0 <= i < |c[h]| :: c[h][i].name != name
    ensures Scan(c, name, h) == Scan(c, name, h + 1)
  {
  }

  lemma ScanEnds(c: Chains, name: seq<byte>)
    ensures Scan(c, name, BUCKETS) == None
  {
  }

  lemma {:induction false} ScanFrom(c: Chains, name: seq<byte>, h: nat)
    requires h <= BUCKETS && forall g, i | 0 <= g < h && 0 <= i < |c[g]| :: c[g][i].name != name
    ensures match Scan(c, name, h) case None => NotFound(c, name) case Some(index) => ScanFinds(c, name, index)
    decreases BUCKETS - h
  {
    if h < BUCKETS {
      var k := Named(c[h], name);
      if k < |c[h]| {
        assert StopsAt(c, name, h, k);
      } else {
        ScanFrom(c, name, h + 1);
      }
    }
  }

  /** The scan as a function answers what the scan as a search can stop at, and nothing else. */
  lemma ScanIsSearch(c: Chains, name: seq<byte>)
    ensures Scan(c, name, 0) == None <==> NotFound(c, name)
    ensures forall index: uint32 :: Scan(c, name, 0) == Some(index) <==> ScanFinds(c, name, index)
  {
    ScanFrom(c, name, 0);
  }

  /** The chains together with the two statics of ll_name_to_index. */
  datatype Memory = Memory(chains: Chains, ncache: seq<byte>, icache: uint32)

  /** ll_name_to_index for a name, where if_nametoindex would say `kernel`. */
  function Asked(m: Memory, name: seq<byte>, kernel: uint32): (Memory, uint32)
  {
    if m.icache != 0 && name == m.ncache then (m, m.icache)
    else
      match Scan(m.chains, name, 0)
      case Some(index) => (m.(ncache := name, icache := index), index)
      case None => (m, kernel)
  }

  /** What a lookup without the cache answers. */
  function FullScan(c: Chains, name: seq<byte>, kernel: uint32): uint32
  {
    match Scan(c, name, 0) case Some(index) => index case None => kernel
  }

  /** A message for ll_remember_index, or a lookup. */
  datatype Event = Tell(msg: Message) | Ask(name: seq<byte>, kernel: uint32)

  function After(ptr: nat, m: Memory, e: Event): Memory
  {
    match e
    case Tell(msg) => m.(chains := Remember(ptr, m.chains, 0, msg).0)
    case Ask(name, kernel) => Asked(m, name, kernel).0
  }

  /** The answers of a run of messages and lookups. */
  function Answers(ptr: nat, m: Memory, run: seq<Event>): seq<uint32>
    decreases |run|
  {
    if run == [] then []
    else
      (match run[0] case Tell(_) => [] case Ask(name, kernel) => [Asked(m, name, kernel).1])
      + Answers(ptr, After(ptr, m, run[0]), run[1..])
  }

  /** The answers of the same run if nothing were cached. */
  function FullAnswers(ptr: nat, c: Chains, run: seq<Event>): seq<uint32>
    decreases |run|
  {
    if run == [] then []
    else
      match run[0]
      case Tell(msg) => FullAnswers(ptr, Remember(ptr, c, 0, msg).0, run[1..])
      case Ask(name, kernel) => [FullScan(c, name, kernel)] + FullAnswers(ptr, c, run[1..])
  }

  /** The cached index, if there is one, is what the scan for the cached name answers. */
  predicate CacheRight(m: Memory)
  {
    m.icache != 0 ==> Scan(m.chains, m.ncache, 0) == Some(m.icache)
  }

  /** No message of the run renames the interface cached at that moment or gives its name to another one. */
  predicate Undisturbed(ptr: nat, m: Memory, run: seq<Event>)
    decreases |run|
  {
    run != [] ==>
      && (run[0].Tell? && m.icache != 0 ==> !Disturbs(Read(run[0].msg, ptr), m.ncache, m.icache))
      && Undisturbed(ptr, After(ptr, m, run[0]), run[1..])
  }

  lemma TellKeepsCache(ptr: nat, m: Memory, msg: Message)
    requires WellFormed(m.chains) && CacheRight(m)
    requires m.icache != 0 ==> !Disturbs(Read(msg, ptr), m.ncache, m.icache)
    ensures var m' := After(ptr, m, Tell(msg)); WellFormed(m'.chains) && CacheRight(m')
  {
    hide Read, ScanFinds, NotFound, Store, WellFormed, Scan;
    if Read(msg, ptr).News? {
      var l := Read(msg, ptr).link;
      StoreKeepsForm(m.chains, l);
      if m.icache != 0 {
        ScanIsSearch(m.chains, m.ncache);
        StoreKeepsScan(m.chains, l, m.ncache, m.icache);
        ScanIsSearch(Store(m.chains, l), m.ncache);
      }
    }
  }

  /**
   * Over any interleaving of messages and lookups, every lookup answers as the full scan would, and the
   * cache ends up right, if no message disturbed the pair that was cached when it came.
   */
  lemma {:induction false} LookupsAreScans(ptr: nat, m: Memory, run: seq<Event>)
    requires WellFormed(m.chains) && CacheRight(m) && Undisturbed(ptr, m, run)
    ensures Answers(ptr, m, run) == FullAnswers(ptr, m.chains, run)
    decreases |run|
  {
    hide Read, WellFormed, Store, Scan, Disturbs;
    if run != [] {
      if run[0].Tell? {
        TellKeepsCache(ptr, m, run[0].msg);
      }
      LookupsAreScans(ptr, After(ptr, m, run[0]), run[1..]);
    }
  }

  /**
   * The condition is needed: once a name was looked up and cached, news that renames its interface leaves
   * the old answer in place, though the scan no longer finds that interface under the name.
   */
  lemma RenamedIsStale(ptr: nat, m: Memory, name: seq<byte>, kernel: uint32, index: uint32, msg: Message)
    requires WellFormed(m.chains) && CacheRight(m) && Scan(m.chains, name, 0) == Some(index) && index != 0
    requires Read(msg, ptr).News? && Read(msg, ptr).link.index == index && Read(msg, ptr).link.name != name
    ensures var m2 := After(ptr, After(ptr, m, Ask(name, kernel)), Tell(msg));
      Asked(m2, name, kernel).1 == index && Scan(m2.chains, name, 0) != Some(index)
  {
    hide Read, NotFound, Store, WellFormed, Scan;
    var c, l := m.chains, Read(msg, ptr).link;
    ScanIsSearch(c, name);
    ScanIsSearch(Store(c, l), name);
    var h: nat, i: nat :| StopsAt(c, name, h, i) && c[h][i].index == index;
    ScanAfterStore(c, l, name, h, i);
  }
}
