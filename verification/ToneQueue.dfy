/** The tone event queue: a sentinel-headed list relinked in place, one atomic step per critical section. */
module ToneQueue {
  import opened Attributes

  datatype Tone = Tone(conn: int, tone: int)

  // ----- The queue as a sequence -----------------------------------------------------------------------

  /** The position of the first event of a connection, or the end. */
  function First(q: seq<Tone>, conn: int): (k: nat)
    ensures k <= |q| && (k < |q| ==> q[k].conn == conn)
    ensures forall i | 0 <= i < k :: q[i].conn != conn
  {
    if q == [] || q[0].conn == conn then 0 else 1 + First(q[1..], conn)
  }

  function Without(q: seq<Tone>, k: nat): seq<Tone>
  {
    if k < |q| then q[..k] + q[k + 1..] else q
  }

  /** One critical section. A queue call whose allocation fails never enters it. */
  datatype Step = Queue(tone: Tone, gotNode: bool) | Dequeue(conn: int)

  /** The queue afterwards, and the event a dequeue hands out. */
  function Apply(q: seq<Tone>, s: Step): (seq<Tone>, Option<Tone>)
  {
    match s
    case Queue(t, gotNode) => (if gotNode then q + [t] else q, None)
    case Dequeue(conn) =>
      var k := First(q, conn);
      (Without(q, k), if k < |q| then Some(q[k]) else None)
  }

  function Run(q: seq<Tone>, steps: seq<Step>): seq<Tone>
    decreases |steps|
  {
    if steps == [] then q else Run(Apply(q, steps[0]).0, steps[1..])
  }

  /** The tones of one connection, in order. */
  function TonesOf(q: seq<Tone>, conn: int): seq<int>
  {
    if q == [] then [] else (if q[0].conn == conn then [q[0].tone] else []) + TonesOf(q[1..], conn)
  }

  function Queued(steps: seq<Step>, conn: int): seq<int>
  {
    if steps == [] then []
    else
      (if steps[0].Queue? && steps[0].gotNode && steps[0].tone.conn == conn then [steps[0].tone.tone] else [])
      + Queued(steps[1..], conn)
  }

  function Dequeued(q: seq<Tone>, steps: seq<Step>, conn: int): seq<int>
    decreases |steps|
  {
    if steps == [] then []
    else
      var (q1, out) := Apply(q, steps[0]);
      (if out.Some? && out.value.conn == conn then [out.value.tone] else []) + Dequeued(q1, steps[1..], conn)
  }

  lemma {:induction false} TonesOfAppend(a: seq<Tone>, b: seq<Tone>, conn: int)
    ensures TonesOf(a + b, conn) == TonesOf(a, conn) + TonesOf(b, conn)
  {
    if a == [] {
      assert a + b == b;
    } else {
      assert (a + b)[1..] == a[1..] + b;
      TonesOfAppend(a[1..], b, conn);
      Associative(if a[0].conn == conn then [a[0].tone] else [], TonesOf(a[1..], conn), TonesOf(b, conn));
    }
  }

  lemma Associative(a: seq<int>, b: seq<int>, c: seq<int>)
    ensures a + (b + c) == a + b + c
  {
  }

  lemma Rearranged(a: seq<int>, b: seq<int>, c: seq<int>)
    requires a == [] || b == []
    ensures a + (b + c) == b + (a + c)
  {
  }

  lemma {:induction false} NoTones(q: seq<Tone>, conn: int)
    requires forall i | 0 <= i < |q| :: q[i].conn != conn
    ensures TonesOf(q, conn) == []
  {
    if q != [] {
      NoTones(q[1..], conn);
    }
  }

  /** A dequeue takes the first tone of its own connection and leaves every other connection alone. */
  lemma DequeueTakesFirst(q: seq<Tone>, conn: int, other: int)
    ensures var (q1, out) := Apply(q, Dequeue(conn));
      && (out.Some? ==> out.value.conn == conn)
      && TonesOf(q, other) == (if out.Some? && other == conn then [out.value.tone] else []) + TonesOf(q1, other)
  {
    hide TonesOf, First;
    var k := First(q, conn);
    if k < |q| {
      var front, rest := q[..k], q[k + 1..];
      assert q == front + ([q[k]] + rest);
      TonesOfAppend(front, [q[k]] + rest, other);
      TonesOfAppend([q[k]], rest, other);
      TonesOfAppend(front, rest, other);
      TonesOfOne(q[k], other);
      if other == conn {
        NoTones(front, other);
      }
      Rearranged(TonesOf(front, other), TonesOf([q[k]], other), TonesOf(rest, other));
    }
  }

  lemma TonesOfOne(t: Tone, conn: int)
    ensures TonesOf([t], conn) == if t.conn == conn then [t.tone] else []
  {
  }

  /**
   * First in, first out per connection, whatever the interleaving of the critical sections: the tones
   * handed out to a connection, followed by those still queued, are the tones queued for it, in order.
   */
  lemma {:induction false} FifoPerConnection(q: seq<Tone>, steps: seq<Step>, conn: int)
    ensures Dequeued(q, steps, conn) + TonesOf(Run(q, steps), conn) == TonesOf(q, conn) + Queued(steps, conn)
    decreases |steps|
  {
    if steps != [] {
      var (q1, out) := Apply(q, steps[0]);
      FifoPerConnection(q1, steps[1..], conn);
      hide TonesOf, Apply;
      StepBalances(q, steps[0], conn);
      Balance(if out.Some? && out.value.conn == conn then [out.value.tone] else [],
              Dequeued(q1, steps[1..], conn), TonesOf(Run(q1, steps[1..]), conn),
              TonesOf(q1, conn), Queued(steps[1..], conn), TonesOf(q, conn),
              if steps[0].Queue? && steps[0].gotNode && steps[0].tone.conn == conn then [steps[0].tone.tone] else []);
    }
  }

  lemma Balance(taken: seq<int>, out: seq<int>, left: seq<int>, after: seq<int>, later: seq<int>, before: seq<int>,
                put: seq<int>)
    requires out + left == after + later && taken + after == before + put
    ensures (taken + out) + left == before + (put + later)
  {
    assert (taken + out) + left == taken + (out + left);
    assert taken + (after + later) == (taken + after) + later;
    assert (before + put) + later == before + (put + later);
  }

  /** What one critical section takes out and what it puts in account for the difference it makes. */
  lemma StepBalances(q: seq<Tone>, s: Step, conn: int)
    ensures var (q1, out) := Apply(q, s);
      (if out.Some? && out.value.conn == conn then [out.value.tone] else []) + TonesOf(q1, conn)
      == TonesOf(q, conn) + (if s.Queue? && s.gotNode && s.tone.conn == conn then [s.tone.tone] else [])
  {
    hide TonesOf;
    match s
    case Queue(t, gotNode) =>
      if gotNode {
        TonesOfAppend(q, [t], conn);
        TonesOfOne(t, conn);
      }
    case Dequeue(c) =>
      DequeueTakesFirst(q, c, conn);
  }

  /** A dequeue unlinks one event at most and keeps the order of all the others. */
  lemma DequeueRemovesOne(q: seq<Tone>, conn: int)
    ensures var (q1, out) := Apply(q, Dequeue(conn));
      if out.None? then q1 == q && TonesOf(q, conn) == []
      else exists k | 0 <= k < |q| :: q[k] == out.value && q1 == q[..k] + q[k + 1..]
  {
    if First(q, conn) == |q| {
      NoTones(q, conn);
    }
  }

  // ----- The list in memory ------------------------------------------------------------------------------

  /** A struct tone_event_t. */
  class Node {
    var conn: int
    var tone: int
    var next: Node?

    constructor (conn: int, tone: int)
      ensures this.conn == conn && this.tone == tone && next == null
    {
      this.conn, this.tone, this.next := conn, tone, null;
    }
  }

  function NodeAt(nodes: seq<Node>, i: nat): Node?
  {
    if i < |nodes| then nodes[i] else null
  }

  class List {
    const base: Node
    ghost var nodes: seq<Node>     // the sentinel, then the queued events
    ghost var contents: seq<Tone>
    ghost var freed: set<Node>

    /** Node `i` is alive and followed by the next one; `all` are the nodes in order. */
    ghost predicate Linked(all: seq<Node>, i: nat)
      requires i < |all|
      reads this, all[i]
    {
      all[i] !in freed && all[i].next == NodeAt(all, i + 1)
    }

    ghost predicate Valid()
      reads this, nodes
    {
      && |nodes| == |contents| + 1 && nodes[0] == base
      && base.conn == -1
      && (forall i | 0 <= i < |nodes| :: Linked(nodes, i))
      && (forall i, j | 0 <= i < j < |nodes| :: nodes[i] != nodes[j])
      && (forall i | 0 <= i < |contents| :: contents[i] == Tone(nodes[i + 1].conn, nodes[i + 1].tone))
    }

    constructor ()
      ensures Valid() && contents == [] && freed == {} && fresh(nodes)
    {
      base := new Node(-1, -1);
      contents, freed := [], {};
      new;
      nodes := [base];
    }

    /** libamg_dsp_queue_tone_event. */
    method QueueToneEvent(tone: Tone, gotNode: bool) returns (ret: int)
      requires Valid()
      modifies this`nodes, this`contents, nodes
      ensures Valid()
      ensures contents == Apply(old(contents), Queue(tone, gotNode)).0
      ensures ret == if gotNode then 0 else -1
      ensures |nodes| >= |old(nodes)| && nodes[..|old(nodes)|] == old(nodes)
      ensures forall i | |old(nodes)| <= i < |nodes| :: fresh(nodes[i])
    {
      if !gotNode {
        return -1;
      }
      ghost var n := |nodes|;
      var tmp := base;
      ghost var k := 0;
      assert Linked(nodes, 0);
      while tmp.next != null
        invariant 0 <= k < n && tmp == nodes[k] && Linked(nodes, k)
        decreases n - k
      {
        tmp := tmp.next;
        k := k + 1;
        assert Linked(nodes, k);
      }
      var t := new Node(tone.conn, tone.tone);
      tmp.next := t;
      nodes := nodes + [t];
      contents := contents + [tone];
      forall i | 0 <= i < |nodes|
        ensures Linked(nodes, i)
      {
        if i < n {
          assert old(Linked(nodes, i));
        }
      }
      ret := 0;
    }

    /**
     * libamg_dsp_dequeue_tone_event for a connection other than the sentinel's -1: the matching node
     * is unlinked and freed; it is not the sentinel and had not been freed before.
     */
    method DequeueToneEvent(conn: int) returns (tone: int)
      requires Valid() && conn != -1
      modifies this, nodes
      ensures Valid()
      ensures var (after, out) := Apply(old(contents), Dequeue(conn));
        && contents == after
        && tone == (if out.Some? then out.value.tone else -1)
        && nodes == (if out.Some? then Cut(old(nodes), First(old(contents), conn) + 1) else old(nodes))
        && freed == old(freed) + (if out.Some? then {old(nodes)[First(old(contents), conn) + 1]} else {})
        && (out.Some? ==> old(nodes)[First(old(contents), conn) + 1] !in old(freed))
      ensures base !in freed
    {
      hide First;
      tone := -1;
      var t: Node?, p := base, base;
      ghost var k := 0;
      assert Linked(nodes, 0);
      while t != null
        invariant 0 <= k <= |nodes| && t == NodeAt(nodes, k)
        invariant k > 0 ==> p == nodes[k - 1] && k - 1 <= First(contents, conn)
        decreases |nodes| - k
      {
        assert Linked(nodes, k);
        if t.conn == conn {
          assert contents[k - 1].conn == conn;
          tone := t.tone;
          Unlink(p, t, k);
          return;
        }
        assert k > 0 ==> contents[k - 1].conn != conn;
        p, t := t, t.next;
        k := k + 1;
      }
    }

    /** p->next = t->next; free(t) */
    method Unlink(p: Node, t: Node, ghost k: nat)
      requires Valid() && 0 < k < |nodes| && p == nodes[k - 1] && t == nodes[k]
      modifies this, nodes
      ensures Valid() && nodes == Cut(old(nodes), k) && freed == old(freed) + {t} && t !in old(freed) && t != base
      ensures contents == Without(old(contents), k - 1)
    {
      hide Cut, Without;
      assert Linked(nodes, k) && Linked(nodes, k - 1) && Linked(nodes, 0);
      CutShape(nodes, k);
      CutDistinct(nodes, k);
      WithoutShape(contents, k - 1);
      p.next := t.next;
      freed := freed + {t};
      contents := Without(contents, k - 1);
      nodes := Cut(nodes, k);
      forall i | 0 <= i < |nodes|
        ensures Linked(nodes, i)
      {
        var was := if i < k then i else i + 1;
        assert old(Linked(nodes, was));
        assert nodes[i] == old(nodes)[was] && nodes[i] != t;
        if i != k - 1 {
          assert nodes[i] != p;
        }
      }
      forall i | 0 <= i < |contents|
        ensures contents[i] == Tone(nodes[i + 1].conn, nodes[i + 1].tone)
      {
        var was := if i < k - 1 then i else i + 1;
        assert nodes[i + 1] == old(nodes)[was + 1] && contents[i] == old(contents)[was];
      }
    }
  }

  function Cut(nodes: seq<Node>, k: nat): seq<Node>
  {
    if k < |nodes| then nodes[..k] + nodes[k + 1..] else nodes
  }

  lemma CutShape(nodes: seq<Node>, k: nat)
    requires k < |nodes|
    ensures |Cut(nodes, k)| == |nodes| - 1
    ensures forall i | 0 <= i < |nodes| - 1 :: Cut(nodes, k)[i] == nodes[if i < k then i else i + 1]
  {
    var front, rest := nodes[..k], nodes[k + 1..];
    assert forall i | 0 <= i < |nodes| - 1 :: (front + rest)[i] == if i < k then front[i] else rest[i - k];
  }

  lemma WithoutShape(q: seq<Tone>, k: nat)
    requires k < |q|
    ensures |Without(q, k)| == |q| - 1
    ensures forall i | 0 <= i < |q| - 1 :: Without(q, k)[i] == q[if i < k then i else i + 1]
  {
    var front, rest := q[..k], q[k + 1..];
    assert forall i | 0 <= i < |q| - 1 :: (front + rest)[i] == if i < k then front[i] else rest[i - k];
  }

  lemma CutDistinct(nodes: seq<Node>, k: nat)
    requires k < |nodes| && forall i, j | 0 <= i < j < |nodes| :: nodes[i] != nodes[j]
    ensures forall i, j | 0 <= i < j < |Cut(nodes, k)| :: Cut(nodes, k)[i] != Cut(nodes, k)[j]
  {
    hide Cut;
    CutShape(nodes, k);
  }
}
