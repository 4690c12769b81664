/** The interface index table in memory: sixteen chained buckets and a one-entry name cache. */
module LinkTable {
  import opened Bytes
  import opened Attributes
  import opened Netlink
  import opened Links
  import opened Dump
  import Parser

  /** A struct idxmap. `home` and `pos` say where the node stands; they keep nodes of the table apart. */
  class Node {
    var next: Node?
    const index: uint32
    var kind: uint16
    var flags: uint32
    var alen: nat
    var addr: seq<byte>
    var name: seq<byte>
    ghost const home: nat
    ghost const pos: nat

    /** malloc: apart from the index, the contents are whatever was there. */
    constructor (index: uint32, ghost home: nat, ghost pos: nat)
      ensures this.index == index && this.home == home && this.pos == pos && next == null && |addr| == 8
    {
      this.index, this.home, this.pos := index, home, pos;
      next := null;
      var kind: uint16, flags: uint32, alen: nat, name: seq<byte> := *, *, *, *;
      this.kind, this.flags, this.alen, this.name := kind, flags, alen, name;
      assert |seq(8, _ => 0 as byte)| == 8;
      var garbage: seq<byte> :| |garbage| == 8;
      addr := garbage;
    }

    /** The bytes of `addr` that mean something are those that were copied. */
    function Get(): Link
      requires |addr| == 8
      reads this
    {
      Link(index, kind, flags, alen, addr[..if alen <= 8 then alen else 8], name)
    }
  }

  /** The node stands at position `i` of bucket `h`, is followed by `next` and holds `l`. */
  ghost predicate NodeOk(n: Node, h: nat, i: nat, next: Node?, l: Link)
    reads n
  {
    n.home == h && n.pos == i && n.next == next && |n.addr| == 8 && n.Get() == l
  }

  function NodeAt(chain: seq<Node>, i: nat): Node?
  {
    if i < |chain| then chain[i] else null
  }

  class Table {
    const buckets: array<Node?>
    const ptr: nat       // sizeof(struct ifinfomsg *)
    const iflaMax: nat   // IFLA_MAX of the system's headers
    var ncache: seq<byte>
    var icache: uint32
    ghost var chains: seq<seq<Node>>
    ghost var view: Chains
    ghost var repr: set<Node>

    ghost predicate ChainOk(h: nat)
      requires h < BUCKETS && buckets.Length == BUCKETS && |chains| == BUCKETS
      reads this, buckets, repr
    {
      && |view[h]| == |chains[h]|
      && buckets[h] == NodeAt(chains[h], 0)
      && forall i | 0 <= i < |chains[h]| ::
           && chains[h][i] in repr
           && NodeOk(chains[h][i], h, i, NodeAt(chains[h], i + 1), view[h][i])
    }

    ghost predicate Valid()
      reads this, buckets, repr
    {
      && buckets.Length == BUCKETS && |chains| == BUCKETS && IFLA_IFNAME <= iflaMax
      && (forall h | 0 <= h < BUCKETS :: ChainOk(h))
      && WellFormed(view)
    }

    constructor (ptr: nat, iflaMax: nat)
      requires IFLA_IFNAME <= iflaMax
      ensures Valid() && view == Empty && icache == 0 && fresh(buckets) && repr == {}
      ensures this.ptr == ptr && this.iflaMax == iflaMax
    {
      this.ptr, this.iflaMax := ptr, iflaMax;
      ncache, icache := [], 0;
      chains, view, repr := seq(BUCKETS, _ => []), Empty, {};
      buckets := new Node?[BUCKETS](_ => null);
    }

    /** The search along one bucket: `im` is the node of that index or null, `prev` the node before it. */
    method Search(h: nat, index: uint32) returns (prev: Node?, im: Node?)
      requires Valid() && h == Hash(index)
      ensures |chains[h]| == |view[h]|
      ensures var k := Slot(view[h], index);
        im == NodeAt(chains[h], k) && prev == if k == 0 then null else chains[h][k - 1]
    {
      assert ChainOk(h);
      prev, im := null, buckets[h];
      ghost var i := 0;
      while im != null && im.index != index
        invariant 0 <= i <= |chains[h]| && im == NodeAt(chains[h], i)
        invariant prev == if i == 0 then null else chains[h][i - 1]
        invariant i <= Slot(view[h], index)
        decreases |chains[h]| - i
      {
        assert view[h][i] == chains[h][i].Get();
        prev, im := im, im.next;
        i := i + 1;
      }
      if im != null {
        assert view[h][i] == chains[h][i].Get();
      }
    }

    static twostate predicate Kept(n: Node)
      reads n
    {
      unchanged(n)
    }

    /** A bucket whose nodes and head were not touched is still in order. */
    twostate lemma Untouched(g: nat)
      requires g < BUCKETS && old(Valid()) && buckets.Length == BUCKETS && |chains| == BUCKETS
      requires chains[g] == old(chains[g]) && view[g] == old(view[g]) && buckets[g] == old(buckets[g])
      requires old(repr) <= repr
      requires forall i | 0 <= i < |chains[g]| :: Kept(chains[g][i])
      ensures ChainOk(g)
    {
      assert old(ChainOk(g));
      forall i | 0 <= i < |chains[g]|
        ensures NodeOk(chains[g][i], g, i, NodeAt(chains[g], i + 1), view[g][i])
      {
        assert old(NodeOk(chains[g][i], g, i, NodeAt(chains[g], i + 1), view[g][i]));
      }
    }

    /** A bucket whose nodes were not changed, wherever they stand, is still in order. */
    twostate lemma OtherStays(g: nat)
      requires g < BUCKETS && old(Valid()) && buckets.Length == BUCKETS && |chains| == BUCKETS && old(repr) <= repr
      requires forall n | n in old(repr) && n.home == g :: Kept(n)
      requires chains[g] == old(chains[g]) && view[g] == old(view[g]) && buckets[g] == old(buckets[g])
      ensures ChainOk(g)
    {
      hide WellFormed;
      assert old(ChainOk(g));
      forall i | 0 <= i < |chains[g]|
        ensures Kept(chains[g][i])
      {
        assert old(NodeOk(chains[g][i], g, i, NodeAt(chains[g], i + 1), view[g][i]));
        assert chains[g][i] in old(repr);
      }
      Untouched(g);
    }

    /** No bucket but `h`, and no node of another bucket, has changed. */
    twostate predicate OnlyBucket(h: nat)
      requires buckets.Length == BUCKETS && |chains| == |old(chains)| == BUCKETS && old(repr) <= repr
      reads this, buckets, repr
    {
      && (forall n | n in old(repr) && n.home != h :: Kept(n))
      && (forall g | 0 <= g < BUCKETS && g != h ::
            chains[g] == old(chains)[g] && view[g] == old(view)[g] && buckets[g] == old(buckets[g]))
    }

    twostate lemma OthersStay(h: nat)
      requires old(Valid()) && buckets.Length == BUCKETS && |chains| == BUCKETS && old(repr) <= repr
      requires OnlyBucket(h)
      ensures forall g | 0 <= g < BUCKETS && g != h :: ChainOk(g)
    {
      hide WellFormed;
      forall g | 0 <= g < BUCKETS && g != h
        ensures ChainOk(g)
      {
        OtherStays(g);
      }
    }

    /** A node of bucket `h` keeps its place, and either nothing happened to it or it was overwritten. */
    twostate predicate KeptOrFilled(h: nat, i: nat)
      requires h < BUCKETS && |chains| == |old(chains)| == BUCKETS && chains[h] == old(chains)[h]
      requires i < |chains[h]| && i < |view[h]| && i < |old(view)[h]|
      reads this, repr, chains[h][i]
    {
      var n: Node := chains[h][i];
      || (Kept(n) && view[h][i] == old(view)[h][i])
      || (unchanged(n`next) && |n.addr| == 8 && n.Get() == view[h][i])
    }

    twostate predicate AllKeptOrFilled(h: nat)
      requires h < BUCKETS && |chains| == |old(chains)| == BUCKETS && chains[h] == old(chains)[h]
      requires |view[h]| == |old(view)[h]| == |chains[h]|
      reads this, repr, set n | n in chains[h]
    {
      forall i | 0 <= i < |chains[h]| :: KeptOrFilled(h, i)
    }

    /** A bucket in which nodes were overwritten in place is in order. */
    twostate lemma Refilled(h: nat)
      requires h < BUCKETS && old(Valid()) && buckets.Length == BUCKETS && |chains| == BUCKETS && old(repr) <= repr
      requires chains[h] == old(chains[h]) && |view[h]| == |chains[h]| && buckets[h] == old(buckets[h])
      requires |old(view)[h]| == |view[h]| && |old(chains)| == BUCKETS
      requires AllKeptOrFilled(h)
      ensures ChainOk(h)
    {
      hide WellFormed;
      assert old(ChainOk(h));
      forall i | 0 <= i < |chains[h]|
        ensures NodeOk(chains[h][i], h, i, NodeAt(chains[h], i + 1), view[h][i])
      {
        assert old(NodeOk(chains[h][i], h, i, NodeAt(chains[h], i + 1), view[h][i]));
        assert KeptOrFilled(h, i);
      }
    }

    /** The assignments to the fields; without an address attribute `addr` is zeroed. */
    static method Overwrite(im: Node, l: Link, hasAddress: bool)
      requires im.index == l.index && |im.addr| == 8
      requires (|l.addr| == if l.alen <= 8 then l.alen else 8) && (hasAddress || l.alen == 0)
      modifies im`kind, im`flags, im`alen, im`addr, im`name
      ensures |im.addr| == 8 && im.Get() == l
      ensures !hasAddress ==> im.addr == seq(8, _ => 0)
    {
      im.kind := l.kind;
      im.flags := l.flags;
      im.alen := l.alen;
      if hasAddress {
        im.addr := l.addr + im.addr[|l.addr|..];
      } else {
        im.addr := seq(8, _ => 0);
      }
      im.name := l.name;
    }

    /** Overwrite a node of the table: storing the link where its index stands. */
    method Fill(im: Node, l: Link, hasAddress: bool)
      requires Valid() && im in repr && im.index == l.index
      requires var h, k := Hash(l.index), Slot(view[Hash(l.index)], l.index);
        k < |chains[h]| && im == chains[h][k]
      requires (|l.addr| == if l.alen <= 8 then l.alen else 8) && (hasAddress || l.alen == 0)
      modifies this`view, im
      ensures Valid() && view == Store(old(view), l)
      ensures !hasAddress ==> im.addr == seq(8, _ => 0)
    {
      hide WellFormed, Store, NodeOk, Slot;
      ghost var h, k := Hash(l.index), Slot(view[Hash(l.index)], l.index);
      assert ChainOk(h);
      NodeHere(h, k);
      assert forall i | 0 <= i < |chains[h]| && i != k :: chains[h][i] != im by { OneOfEach(h, k); }
      Overwrite(im, l, hasAddress);
      assert forall n | n in repr && n != im :: Kept(n);
      Stored(view, l);
      StoreKeepsForm(view, l);
      view := Store(view, l);
      assert view[h] == old(view)[h][k := l];
      assert OnlyBucket(h);
      assert AllKeptOrFilled(h) by {
        assert KeptOrFilled(h, k);
      }
      Refilled(h);
      OthersStay(h);
    }

    lemma NodeHere(h: nat, i: nat)
      requires Valid() && h < BUCKETS && i < |chains[h]|
      ensures |view[h]| == |chains[h]| && chains[h][i].home == h && |chains[h][i].addr| == 8
    {
      hide WellFormed;
      assert ChainOk(h);
      assert NodeOk(chains[h][i], h, i, NodeAt(chains[h], i + 1), view[h][i]);
    }

    lemma OneOfEach(h: nat, k: nat)
      requires Valid() && h < BUCKETS && k < |chains[h]|
      ensures forall i | 0 <= i < |chains[h]| && i != k :: chains[h][i] != chains[h][k]
    {
      hide WellFormed;
      assert ChainOk(h);
      assert NodeOk(chains[h][k], h, k, NodeAt(chains[h], k + 1), view[h][k]);
      forall i | 0 <= i < |chains[h]| && i != k
        ensures chains[h][i] != chains[h][k]
      {
        assert NodeOk(chains[h][i], h, i, NodeAt(chains[h], i + 1), view[h][i]);
      }
    }

    /** What storing does when the index is there, and when it is not. */
    static lemma Stored(c: Chains, l: Link)
      ensures var h, k := Hash(l.index), Slot(c[Hash(l.index)], l.index);
        Store(c, l) == c[h := if k < |c[h]| then c[h][k := l] else c[h] + [l]]
    {
      PutShape(c[Hash(l.index)], l);
    }

    /** A new node stands behind the last one of bucket `h`, and nothing else happened to the old nodes. */
    twostate predicate Grown(h: nat)
      requires h < BUCKETS && old(Valid()) && buckets.Length == BUCKETS && |chains| == BUCKETS && old(repr) <= repr
      reads this, buckets, repr
    {
      var n := |old(chains)[h]|;
      && |chains[h]| == n + 1 && chains[h][..n] == old(chains)[h]
      && |view[h]| == n + 1 && view[h][..n] == old(view)[h]
      && chains[h][n] in repr && NodeOk(chains[h][n], h, n, null, view[h][n])
      && (forall m | m in old(repr) && (n > 0 ==> m != old(chains)[h][n - 1]) :: Kept(m))
      && (n == 0 ==> buckets[h] == chains[h][0])
      && (n > 0 ==>
            && buckets[h] == old(buckets[h]) && chains[h][n - 1] in repr
            && Relinked(chains[h][n - 1]) && chains[h][n - 1].next == chains[h][n])
    }

    /** The bucket then is in order again: first its old nodes, */
    twostate lemma GrownFront(h: nat)
      requires h < BUCKETS && old(Valid()) && buckets.Length == BUCKETS && |chains| == BUCKETS && old(repr) <= repr
      requires Grown(h)
      ensures forall i | 0 <= i < |chains[h]| - 1 ::
                chains[h][i] in repr && NodeOk(chains[h][i], h, i, NodeAt(chains[h], i + 1), view[h][i])
    {
      hide WellFormed;
      assert old(ChainOk(h));
      ghost var n := |old(chains)[h]|;
      forall i | 0 <= i < n
        ensures chains[h][i] in repr && NodeOk(chains[h][i], h, i, NodeAt(chains[h], i + 1), view[h][i])
      {
        ghost var m, last := chains[h][i], chains[h][n - 1];
        assert m == old(chains)[h][i] && view[h][i] == old(view)[h][i] && last == old(chains)[h][n - 1];
        assert old(NodeOk(m, h, i, NodeAt(chains[h], i + 1), view[h][i]));
        assert old(NodeOk(last, h, n - 1, NodeAt(chains[h], n), view[h][n - 1]));
        if i < n - 1 {
          assert m != last && m in old(repr);
          assert Kept(m);
        }
      }
    }

    /** and then the new one. */
    twostate lemma Extended(h: nat)
      requires h < BUCKETS && old(Valid()) && buckets.Length == BUCKETS && |chains| == BUCKETS && old(repr) <= repr
      requires Grown(h)
      ensures ChainOk(h)
    {
      hide WellFormed, NodeOk;
      assert old(ChainOk(h));
      GrownFront(h);
      assert chains[h][0] == if |chains[h]| == 1 then chains[h][|chains[h]| - 1] else old(chains)[h][0];
    }

    /** Nothing but perhaps the link of `n` was changed. */
    static twostate predicate Relinked(n: Node)
      reads n
    {
      unchanged(n`kind, n`flags, n`alen, n`addr, n`name)
    }

    /** malloc a node and hang it behind `prev`, the last node of its bucket. */
    method NewNode(h: nat, prev: Node?, index: uint32) returns (im: Node)
      requires Valid() && h == Hash(index)
      requires prev == if |chains[h]| == 0 then null else chains[h][|chains[h]| - 1]
      modifies buckets, repr
      ensures fresh(im) && im.index == index && |im.addr| == 8 && NodeOk(im, h, |chains[h]|, null, im.Get())
      ensures forall m | m in repr && m != prev :: Kept(m)
      ensures forall g | 0 <= g < BUCKETS && g != h :: buckets[g] == old(buckets[g])
      ensures if prev == null then buckets[h] == im
              else buckets[h] == old(buckets[h]) && Relinked(prev) && prev.next == im
    {
      hide WellFormed;
      assert ChainOk(h);
      im := new Node(index, h, |chains[h]|);
      if prev == null {
        buckets[h] := im;
      } else {
        prev.next := im;
      }
    }

    static lemma Snoc<T>(s: seq<T>, x: T)
      ensures |s + [x]| == |s| + 1 && (s + [x])[..|s|] == s && (s + [x])[|s|] == x
    {
    }

    /** Link a new node behind the last one of its bucket; the view shows what malloc left in it. */
    method Append(h: nat, prev: Node?, index: uint32) returns (im: Node)
      requires Valid() && h == Hash(index) && Slot(view[h], index) == |view[h]|
      requires prev == if |chains[h]| == 0 then null else chains[h][|chains[h]| - 1]
      modifies this`chains, this`view, this`repr, buckets, repr
      ensures Valid() && fresh(im) && repr == old(repr) + {im} && |im.addr| == 8
      ensures chains == old(chains)[h := old(chains)[h] + [im]] && im.index == index
      ensures view == Store(old(view), im.Get())
    {
      hide WellFormed, Store, Slot, NodeOk, Kept, Relinked;
      assert ChainOk(h);
      assert prev != null ==> prev.home == h by {
        if prev != null {
          NodeHere(h, |chains[h]| - 1);
        }
      }
      im := NewNode(h, prev, index);
      ghost var l := im.Get();
      Stored(view, l);
      StoreKeepsForm(view, l);
      chains := chains[h := chains[h] + [im]];
      repr := repr + {im};
      view := Store(view, l);
      Snoc(old(chains)[h], im);
      Snoc(old(view)[h], l);
      assert chains[h] == old(chains)[h] + [im] && view[h] == old(view)[h] + [l];
      assert Grown(h);
      assert OnlyBucket(h);
      hide Grown, OnlyBucket, ChainOk;
      Extended(h);
      OthersStay(h);
    }

    /** ll_remember_index. */
    method RememberIndex(n: Message) returns (ret: int)
      requires Valid() && NameFits(n, ptr)
      modifies this`chains, this`view, this`repr, buckets, repr
      ensures Valid() && fresh(repr - old(repr))
      ensures (view, ret) == Remember(ptr, old(view), 0, n)
    {
      hide LastOfType, Walk, WellFormed, Store, Read, NameFits, Get16, Get32, CString;
      if MsgType(n) != RTM_NEWLINK {
        assert Read(n, ptr) == Ignored by { NotRead(n, ptr); }
        return 0;
      }
      if |n| < NLMSG_HDRLEN + ptr {
        assert Read(n, ptr) == TooShort by { NotRead(n, ptr); }
        return -1;
      }
      var tb := new Option<nat>[iflaMax + 1];
      Parser.ParseRtattr(tb, iflaMax, n, IFLA_RTA, |n| - IFLA_RTA);
      if tb[IFLA_IFNAME].None? {
        assert Read(n, ptr) == Ignored by { Unnamed(n, ptr); }
        return 0;
      }
      SomeIsInside(n);
      var alen, addr := 0, [];
      if tb[IFLA_ADDRESS].Some? {
        var p := RawAt(n, tb[IFLA_ADDRESS].value).payload;
        alen, addr := |p|, if |p| <= 8 then p else p[..8];
      }
      var l := Link(Get32(n, 20), Get16(n, 18), Get32(n, 24), alen, addr,
                    CString(RawAt(n, tb[IFLA_IFNAME].value).payload));
      ReadsNews(n, ptr, l);
      Keep(l, tb[IFLA_ADDRESS].Some?);
      ret := 0;
    }

    static lemma NotRead(n: Message, ptr: nat)
      ensures MsgType(n) != RTM_NEWLINK ==> Read(n, ptr) == Ignored
      ensures MsgType(n) == RTM_NEWLINK && |n| < NLMSG_HDRLEN + ptr ==> Read(n, ptr) == TooShort
    {
    }

    static lemma SomeIsInside(n: Message)
      ensures LastOfType(n, Walk(n, IFLA_RTA, |n|), IFLA_IFNAME).Some? ==> IFLA_RTA <= |n|
    {
    }

    static lemma Unnamed(n: Message, ptr: nat)
      requires MsgType(n) == RTM_NEWLINK && |n| >= NLMSG_HDRLEN + ptr
      requires LastOfType(n, Walk(n, IFLA_RTA, |n|), IFLA_IFNAME).None?
      ensures Read(n, ptr) == Ignored
    {
      hide LastOfType, Walk;
    }

    static lemma ReadsNews(n: Message, ptr: nat, l: Link)
      requires MsgType(n) == RTM_NEWLINK && |n| >= NLMSG_HDRLEN + ptr && IFLA_RTA <= |n|
      requires Find(n, IFLA_IFNAME).Some?
      requires l == Link(Get32(n, 20), Get16(n, 18), Get32(n, 24), CopiedAddress(n).0, CopiedAddress(n).1,
                         CString(RawAt(n, Find(n, IFLA_IFNAME).value).payload))
      ensures Read(n, ptr) == News(l)
    {
      hide LastOfType, Walk, CopiedAddress, Get16, Get32, CString;
    }

    /** The second half of ll_remember_index: find or make the entry, then overwrite it. */
    method Keep(l: Link, hasAddress: bool)
      requires Valid() && (|l.addr| == if l.alen <= 8 then l.alen else 8) && (hasAddress || l.alen == 0)
      modifies this`chains, this`view, this`repr, buckets, repr
      ensures Valid() && fresh(repr - old(repr)) && view == Store(old(view), l)
    {
      hide WellFormed, Store;
      var h := l.index % 16;
      assert ChainOk(h);
      var prev, im := Search(h, l.index);
      if im == null {
        im := Append(h, prev, l.index);
        StoredTwice(old(view), im.Get(), l);
      }
      Fill(im, l, hasAddress);
    }

    static lemma StoredTwice(c: Chains, a: Link, b: Link)
      requires a.index == b.index
      ensures Store(Store(c, a), b) == Store(c, b)
      ensures var h := Hash(a.index);
        Slot(c[h], a.index) < |Store(c, a)[h]| && Slot(Store(c, a)[h], a.index) == Slot(c[h], a.index)
    {
      PutTwice(c[Hash(a.index)], a, b);
    }

    static lemma {:induction false} PutTwice(chain: seq<Link>, a: Link, b: Link)
      requires a.index == b.index
      ensures Put(Put(chain, a), b) == Put(chain, b)
      ensures Slot(chain, a.index) < |Put(chain, a)| && Slot(Put(chain, a), a.index) == Slot(chain, a.index)
    {
      if chain != [] && chain[0].index != a.index {
        PutTwice(chain[1..], a, b);
      }
    }

    /** The loop that ll_idx_n2a, ll_index_to_type and ll_index_to_flags share. */
    method FindNode(index: uint32) returns (im: Node?)
      requires Valid()
      ensures im == null <==> Lookup(view, index).None?
      ensures im != null ==> im in repr && |im.addr| == 8 && Lookup(view, index) == Some(im.Get())
    {
      var h := index % 16;
      assert ChainOk(h);
      im := buckets[h];
      ghost var i := 0;
      assert view[h][0..] == view[h];
      while im != null && im.index != index
        invariant 0 <= i <= |chains[h]| && im == NodeAt(chains[h], i)
        invariant FindIn(view[h], index) == FindIn(view[h][i..], index)
        decreases |chains[h]| - i
      {
        assert view[h][i] == chains[h][i].Get();
        assert view[h][i..][1..] == view[h][i + 1..];
        im := im.next;
        i := i + 1;
      }
      if im != null {
        assert view[h][i] == chains[h][i].Get();
      }
    }

    /** ll_index_to_type. */
    method IndexToType(index: uint32) returns (r: int)
      requires Valid()
      ensures r == if index != 0 && Lookup(view, index).Some? then Lookup(view, index).value.kind else -1
    {
      if index == 0 {
        return -1;
      }
      var im := FindNode(index);
      r := if im != null then im.kind else -1;
    }

    /** ll_index_to_flags. */
    method IndexToFlags(index: uint32) returns (r: uint32)
      requires Valid()
      ensures r == if index != 0 && Lookup(view, index).Some? then Lookup(view, index).value.flags else 0
    {
      if index == 0 {
        return 0;
      }
      var im := FindNode(index);
      r := if im != null then im.flags else 0;
    }

    /** ll_idx_n2a. */
    method IdxN2A(index: uint32) returns (r: IfName)
      requires Valid()
      ensures index == 0 ==> r == Star
      ensures index != 0 && Lookup(view, index).Some? ==> r == Known(Lookup(view, index).value.name)
      ensures index != 0 && Lookup(view, index).None? ==> r == Numbered(index)
    {
      if index == 0 {
        return Star;
      }
      var im := FindNode(index);
      r := if im != null then Known(im.name) else Numbered(index);
    }

    /**
     * ll_name_to_index: the cached answer for the cached name, else the first entry of that name in
     * scan order, which is cached, else `kernel`, the answer of if_nametoindex. A null name yields 0.
     */
    method NameToIndex(name: Option<seq<byte>>, kernel: uint32) returns (r: uint32)
      requires Valid()
      modifies this`ncache, this`icache
      ensures Valid()
      ensures name.None? ==> r == 0
      ensures name.Some? && old(icache) != 0 && name.value == old(ncache) ==> r == old(icache)
      ensures name.Some? && !(old(icache) != 0 && name.value == old(ncache)) ==>
        if NotFound(view, name.value) then r == kernel else ScanFinds(view, name.value, r)
      ensures (ncache, icache) ==
        if name.None? || (old(icache) != 0 && name.value == old(ncache)) || NotFound(view, name.value)
        then old((ncache, icache)) else (name.value, r)
      ensures name.Some? ==>
        (Memory(view, ncache, icache), r) == Asked(Memory(view, old(ncache), old(icache)), name.value, kernel)
    {
      hide WellFormed, Scan, ScanFinds, NotFound;
      if name.None? {
        return 0;
      }
      ScanIsSearch(view, name.value);
      if icache != 0 && name.value == ncache {
        return icache;
      }
      var im := FindName(name.value);
      if im == null {
        return kernel;
      }
      icache := im.index;
      ncache := name.value;
      r := im.index;
      forall h | 0 <= h < BUCKETS
        ensures ChainOk(h)
      {
        assert old(ChainOk(h));
      }
    }

    lemma ChainHead(h: nat)
      requires Valid() && h < BUCKETS
      ensures buckets[h] == NodeAt(chains[h], 0) && |view[h]| == |chains[h]|
    {
      assert ChainOk(h);
    }

    lemma ChainNode(h: nat, k: nat)
      requires Valid() && h < BUCKETS && k < |chains[h]|
      ensures |view[h]| == |chains[h]| && chains[h][k] in repr && chains[h][k].next == NodeAt(chains[h], k + 1)
      ensures chains[h][k].name == view[h][k].name && chains[h][k].index == view[h][k].index
    {
      assert ChainOk(h);
      assert view[h][k] == chains[h][k].Get();
    }

    /** The scan of ll_name_to_index over all buckets, each from its head. */
    method FindName(name: seq<byte>) returns (im: Node?)
      requires Valid()
      ensures Scan(view, name, 0) == if im == null then None else Some(im.index)
      ensures im != null ==> im in repr && im.name == name
    {
      hide WellFormed, Scan, ChainOk, NodeOk;
      for h := 0 to BUCKETS
        invariant Scan(view, name, h) == Scan(view, name, 0)
      {
        ChainHead(h);
        im := buckets[h];
        ghost var k := 0;
        while im != null
          invariant 0 <= k <= |chains[h]| && im == NodeAt(chains[h], k)
          invariant forall i | 0 <= i < k :: view[h][i].name != name
          decreases |chains[h]| - k
        {
          ChainNode(h, k);
          if im.name == name {
            ScanHere(view, name, h, k);
            return;
          }
          im := im.next;
          k := k + 1;
        }
        ScanOn(view, name, h);
      }
      ScanEnds(view, name);
      im := null;
    }
  }

  /** What ll_idx_n2a prints: "*", the remembered name, or "if" and the number. */
  datatype IfName = Star | Known(name: seq<byte>) | Numbered(index: uint32)

  // ----- ll_init_map: the table and the dump loop together ------------------------------------------------

  function LinkDump(pid: uint32, seqno: uint32, ptr: nat): Dump<Chains>
  {
    Dump(pid, seqno, (c: Chains, sender: uint32, msg: Message) => Remember(ptr, c, sender, msg), None)
  }

  /** The messages of a stream that answer the dump. */
  function OwnMessages(d: Dump<Chains>, xs: seq<Delivery>): seq<Message>
  {
    if xs == [] then [] else (if Own(d, xs[0]) then [xs[0].msg] else []) + OwnMessages(d, xs[1..])
  }

  lemma {:induction false} DumpRemembers(pid: uint32, seqno: uint32, ptr: nat, c: Chains, xs: seq<Delivery>)
    ensures var d := LinkDump(pid, seqno, ptr);
      StateAfter(d, c, CallsFor(d, xs)) == RememberAll(ptr, c, OwnMessages(d, xs))
    decreases |xs|
  {
    hide Remember;
    var d := LinkDump(pid, seqno, ptr);
    if xs != [] {
      var calls, msgs := CallsFor(d, xs[1..]), OwnMessages(d, xs[1..]);
      if Own(d, xs[0]) {
        var c1 := Remember(ptr, c, 0, xs[0].msg).0;
        assert CallsFor(d, xs) == [Filtered(xs[0])] + calls && ([Filtered(xs[0])] + calls)[1..] == calls;
        assert OwnMessages(d, xs) == [xs[0].msg] + msgs && ([xs[0].msg] + msgs)[1..] == msgs;
        DumpRemembers(pid, seqno, ptr, c1, xs[1..]);
      } else {
        assert CallsFor(d, xs) == [] + calls == calls && OwnMessages(d, xs) == [] + msgs == msgs;
        DumpRemembers(pid, seqno, ptr, c, xs[1..]);
      }
    }
  }

  lemma {:induction false} OwnFit(d: Dump<Chains>, ptr: nat, xs: seq<Delivery>)
    requires forall i | 0 <= i < |xs| && Own(d, xs[i]) :: NameFits(xs[i].msg, ptr)
    ensures forall i | 0 <= i < |OwnMessages(d, xs)| :: NameFits(OwnMessages(d, xs)[i], ptr)
  {
    hide NameFits, Own;
    if xs != [] {
      OwnFit(d, ptr, xs[1..]);
    }
  }

  /**
   * ll_init_map on a table that agrees with the map `m`: when the dump succeeds, index lookups agree
   * with `m` updated by the last accepted RTM_NEWLINK per index among the kernel's answers up to DONE,
   * and the chains are well formed. A table that was never filled agrees with the empty map.
   */
  lemma InitMapAgrees(pid: uint32, seqno: uint32, ptr: nat, c: Chains, m: map<uint32, Link>, script: seq<Recv>)
      returns (k: nat)
    requires Agrees(c, m) && WellFormed(c)
    requires forall e | e in script :: Benign(e)
    requires Vouched(LinkDump(pid, seqno, ptr), Flatten(script), (msg: Message) => NameFits(msg, ptr))
    requires Script(LinkDump(pid, seqno, ptr), Run(c, [], Waiting), script).0.outcome == Returned(0)
    ensures k < |Flatten(script)|
    ensures var d := LinkDump(pid, seqno, ptr);
      var xs := Flatten(script);
      var c' := Script(d, Run(c, [], Waiting), script).0.state;
      && Own(d, xs[k]) && MsgType(xs[k].msg) == NLMSG_DONE && (forall i | 0 <= i < k :: !Final(d, xs[i]))
      && Agrees(c', LastLinks(ptr, m, OwnMessages(d, xs[..k]))) && WellFormed(c')
  {
    hide Script, Flatten, Agrees, WellFormed, Remember, NameFits;
    var d := LinkDump(pid, seqno, ptr);
    k := DumpMeaning(d, c, script);
    var xs := Flatten(script);
    assert MsgType(xs[k].msg) == NLMSG_DONE by {
      DoneOnly(ptr, c, d, xs, k, Script(d, Run(c, [], Waiting), script).0);
    }
    DumpRemembers(pid, seqno, ptr, c, xs[..k]);
    VouchedBefore(d, xs, k, (msg: Message) => NameFits(msg, ptr));
    OwnFit(d, ptr, xs[..k]);
    RunAgrees(ptr, c, m, OwnMessages(d, xs[..k]));
    RunKeeps(ptr, c, OwnMessages(d, xs[..k]));
  }

  lemma DoneOnly(ptr: nat, c: Chains, d: Dump<Chains>, xs: seq<Delivery>, k: nat, r: Run<Chains>)
    requires EndsAt(d, c, xs, k, r) && r.outcome == Returned(0)
    ensures k < |xs| && Own(d, xs[k]) && MsgType(xs[k].msg) == NLMSG_DONE && r.calls == CallsFor(d, xs[..k])
  {
  }

  lemma EmptyAgrees()
    ensures Agrees(Empty, map[]) && WellFormed(Empty)
  {
  }

  /** The first ll_init_map of a process: afterwards a lookup finds exactly what the dump said last about an index. */
  lemma InitMapFresh(pid: uint32, seqno: uint32, ptr: nat, script: seq<Recv>) returns (k: nat)
    requires forall e | e in script :: Benign(e)
    requires Vouched(LinkDump(pid, seqno, ptr), Flatten(script), (msg: Message) => NameFits(msg, ptr))
    requires Script(LinkDump(pid, seqno, ptr), Run(Empty, [], Waiting), script).0.outcome == Returned(0)
    ensures k < |Flatten(script)|
    ensures var d := LinkDump(pid, seqno, ptr);
      var xs := Flatten(script);
      var c' := Script(d, Run(Empty, [], Waiting), script).0.state;
      var last := LastLinks(ptr, map[], OwnMessages(d, xs[..k]));
      && MsgType(xs[k].msg) == NLMSG_DONE && (forall i | 0 <= i < k :: !Final(d, xs[i]))
      && forall index: uint32 :: Lookup(c', index) == if index in last then Some(last[index]) else None
  {
    hide Script, Flatten, WellFormed, Remember, NameFits, Vouched, Lookup, LastLinks;
    EmptyAgrees();
    k := InitMapAgrees(pid, seqno, ptr, Empty, map[], script);
  }
}
