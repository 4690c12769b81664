/** Routing attributes: what an attribute tree means as bytes, and how the parsers walk bytes. */
module Attributes {
  import opened Bytes

  datatype Option<+T> = None | Some(value: T)

  // ----- Reading one level ------------------------------------------------------------

  function RtaLen(s: seq<byte>, off: nat): uint16
    requires off + 4 <= |s|
  {
    Get16(s, off)
  }

  function RtaType(s: seq<byte>, off: nat): uint16
    requires off + 4 <= |s|
  {
    Get16(s, off + 2)
  }

  /** RTA_OK on the bytes from `off` to `hi`; `hi - off` is the signed length left, maybe negative. */
  predicate RtaOk(s: seq<byte>, off: nat, hi: int)
    requires hi <= |s|
  {
    4 <= hi - off && 4 <= RtaLen(s, off) <= hi - off
  }

  /** The attribute at `o` has its header and its payload between `lo` and `hi`. */
  predicate Within(s: seq<byte>, o: nat, lo: nat, hi: int)
  {
    lo <= o && o + 4 <= hi <= |s| && 4 <= RtaLen(s, o) && o + RtaLen(s, o) <= hi
  }

  /** The offsets of the attributes that RTA_OK / RTA_NEXT visit between `off` and `hi`. */
  function Walk(s: seq<byte>, off: nat, hi: int): (w: seq<nat>)
    requires hi <= |s|
    ensures forall i | 0 <= i < |w| :: Within(s, w[i], off, hi)
    decreases hi - off
  {
    if RtaOk(s, off, hi) then [off] + Walk(s, off + Align(RtaLen(s, off)), hi) else []
  }

  /** The last of the offsets `w` whose attribute has type `t`: what parse_rtattr leaves in tb[t]. */
  function LastOfType(s: seq<byte>, w: seq<nat>, t: int): (r: Option<nat>)
    requires forall i | 0 <= i < |w| :: w[i] + 4 <= |s|
    ensures r.None? ==> forall i | 0 <= i < |w| :: RtaType(s, w[i]) != t
    ensures r.Some? ==> exists i | 0 <= i < |w| ::
      w[i] == r.value && RtaType(s, w[i]) == t && forall j | i < j < |w| :: RtaType(s, w[j]) != t
  {
    if w == [] then None
    else if RtaType(s, w[|w| - 1]) == t then Some(w[|w| - 1])
    else LastOfType(s, w[..|w| - 1], t)
  }

  /** One attribute as a parser reports it: its type and its payload. */
  datatype Raw = Raw(kind: uint16, payload: seq<byte>)

  /** All attributes of one level of a region that holds nothing else. */
  function Level(s: seq<byte>): (r: seq<Raw>)
    decreases |s|
  {
    if RtaOk(s, 0, |s|) then
      var n := RtaLen(s, 0);
      [Raw(RtaType(s, 0), s[4..n])] + Level(if Align(n) <= |s| then s[Align(n)..] else [])
    else []
  }

  function RawAt(s: seq<byte>, o: nat): Raw
    requires Within(s, o, 0, |s|)
  {
    Raw(RtaType(s, o), s[o + 4..o + RtaLen(s, o)])
  }

  /** The attributes that the walk over a larger buffer visits. */
  function WalkRaws(s: seq<byte>, off: nat, hi: int): (r: seq<Raw>)
    requires hi <= |s|
    ensures |r| == |Walk(s, off, hi)|
    ensures forall i | 0 <= i < |r| :: r[i] == RawAt(s, Walk(s, off, hi)[i])
    decreases hi - off
  {
    if RtaOk(s, off, hi) then [RawAt(s, off)] + WalkRaws(s, off + Align(RtaLen(s, off)), hi) else []
  }

  /** The bytes from `lo` to `hi`, none if RTA_NEXT went past the end. */
  function Region(s: seq<byte>, lo: nat, hi: int): seq<byte>
    requires hi <= |s|
  {
    if lo <= hi then s[lo..hi] else []
  }

  lemma LevelStep(s: seq<byte>, off: nat, hi: int)
    requires hi <= |s| && RtaOk(s, off, hi)
    ensures Level(Region(s, off, hi)) == [RawAt(s, off)] + Level(Region(s, off + Align(RtaLen(s, off)), hi))
  {
    var r, n, len := s[off..hi], RtaLen(s, off), hi - off;
    assert RtaLen(r, 0) == n && RtaType(r, 0) == RtaType(s, off);
    SliceOfSlice(s, off, hi, 4, n);
    if Align(n) <= len {
      SliceOfSlice(s, off, hi, Align(n), len);
      assert r[Align(n)..] == r[Align(n)..len];
    }
  }

  lemma LevelStop(s: seq<byte>, off: nat, hi: int)
    requires hi <= |s| && !RtaOk(s, off, hi)
    ensures Level(Region(s, off, hi)) == []
  {
    if 4 <= hi - off {
      assert RtaLen(s[off..hi], 0) == RtaLen(s, off);
    }
  }

  /** The offset walk over a region of a larger buffer sees exactly the attributes of that region. */
  lemma {:induction false} WalkIsLevel(s: seq<byte>, off: nat, hi: int)
    requires hi <= |s|
    ensures WalkRaws(s, off, hi) == Level(Region(s, off, hi))
    decreases hi - off
  {
    if RtaOk(s, off, hi) {
      WalkIsLevel(s, off + Align(RtaLen(s, off)), hi);
      LevelStep(s, off, hi);
    } else {
      LevelStop(s, off, hi);
    }
  }

  /** The payload of the last attribute of type `t`. */
  function LastPayload(raws: seq<Raw>, t: int): Option<seq<byte>>
  {
    if raws == [] then None
    else if raws[|raws| - 1].kind == t then Some(raws[|raws| - 1].payload)
    else LastPayload(raws[..|raws| - 1], t)
  }

  /** tb[t] points at the last payload of type `t` in the region that was parsed. */
  lemma TableHoldsLast(s: seq<byte>, off: nat, hi: int, t: int)
    requires hi <= |s|
    ensures var o := LastOfType(s, Walk(s, off, hi), t);
      LastPayload(Level(Region(s, off, hi)), t) == if o.Some? then Some(RawAt(s, o.value).payload) else None
  {
    WalkIsLevel(s, off, hi);
    LastAmong(s, Walk(s, off, hi), WalkRaws(s, off, hi), t);
  }

  lemma {:induction false} LastAmong(s: seq<byte>, w: seq<nat>, raws: seq<Raw>, t: int)
    requires |w| == |raws|
    requires forall i | 0 <= i < |w| :: w[i] + 4 <= |s| && Within(s, w[i], 0, |s|) && raws[i] == RawAt(s, w[i])
    ensures var o := LastOfType(s, w, t);
      LastPayload(raws, t) == if o.Some? then Some(RawAt(s, o.value).payload) else None
    decreases |w|
  {
    if w != [] && RtaType(s, w[|w| - 1]) != t {
      LastAmong(s, w[..|w| - 1], raws[..|w| - 1], t);
    }
  }

  // ----- Trees and their serialisation -------------------------------------------------

  /** A tree of attributes: plain, nested, or nested behind a fixed structure (compat). */
  datatype Attr =
    | Leaf(kind: uint16, payload: seq<byte>)
    | Nest(kind: uint16, children: seq<Attr>)
    | Compat(kind: uint16, fixed: seq<byte>, children: seq<Attr>)

  /** The value rta_len must have: header and payload, without the trailing padding. */
  function Length(a: Attr): (n: nat)
    ensures n >= 4
    decreases a, 1
  {
    match a
    case Leaf(_, p) => 4 + |p|
    case Nest(_, cs) => 4 + SizeAll(cs)
    case Compat(_, f, cs) => 4 + Align(|f|) + 4 + SizeAll(cs)
  }

  /** The bytes an attribute occupies, padding included. */
  function Size(a: Attr): nat
    decreases a, 2
  {
    Align(Length(a))
  }

  function SizeAll(attrs: seq<Attr>): (n: nat)
    ensures Align(n) == n
    decreases attrs, 0
  {
    if attrs == [] then 0 else Size(attrs[0]) + SizeAll(attrs[1..])
  }

  /** Every length of the tree fits the 16-bit field rta_len. */
  predicate Short(a: Attr)
    decreases a, 1
  {
    && Length(a) <= 0xFFFF
    && match a
       case Leaf(_, _) => true
       case Nest(_, cs) => ShortAll(cs)
       case Compat(_, _, cs) => ShortAll(cs)
  }

  predicate ShortAll(attrs: seq<Attr>)
    decreases attrs, 0
  {
    attrs == [] || (Short(attrs[0]) && ShortAll(attrs[1..]))
  }

  function Header(len: int, kind: int): (h: seq<byte>)
    ensures |h| == 4
  {
    Put16(Low16(len)) + Put16(Low16(kind))
  }

  lemma NestLength(kind: uint16, cs: seq<Attr>)
    ensures Length(Nest(kind, cs)) == Size(Nest(kind, cs)) == 4 + SizeAll(cs)
  {
    hide Align, Words, SizeAll;
    AlignedSum(4, SizeAll(cs));
  }

  lemma CompatLength(kind: uint16, f: seq<byte>, cs: seq<Attr>)
    ensures Length(Compat(kind, f, cs)) == Size(Compat(kind, f, cs)) == 4 + Align(|f|) + 4 + SizeAll(cs)
  {
    hide Align, Words, SizeAll;
    AlignedTwice(|f|);
    AlignedSum(4, Align(|f|));
    AlignedSum(4 + Align(|f|), 4);
    AlignedSum(4 + Align(|f|) + 4, SizeAll(cs));
  }

  lemma AlignedTwice(n: nat)
    ensures Align(Align(n)) == Align(n) && Align(4) == 4
  {
  }

  lemma AlignedSum(a: nat, b: nat)
    requires Align(a) == a && Align(b) == b
    ensures Align(a + b) == a + b
  {
  }

  /**
   * The bytes of a tree laid over `under`, the bytes that were there before: padding is not written,
   * so it keeps what `under` holds.
   */
  function Serialise(a: Attr, under: seq<byte>): (s: seq<byte>)
    requires |under| == Size(a)
    ensures |s| == Size(a)
    decreases a, 2
  {
    Header(Length(a), a.kind) + Payload(a, under) + under[Length(a)..]
  }

  function Payload(a: Attr, under: seq<byte>): (s: seq<byte>)
    requires |under| == Size(a)
    ensures |s| == Length(a) - 4
    decreases a, 1
  {
    match a
    case Leaf(_, p) => p
    case Nest(_, cs) =>
      NestLength(a.kind, cs);
      SerialiseAll(cs, under[4..])
    case Compat(k, f, cs) =>
      CompatLength(k, f, cs);
      BehindFixed(k, f, cs, under)
  }

  /** The payload of a compat nest: the fixed structure, padding that is not written, and the nest behind it. */
  function BehindFixed(kind: uint16, f: seq<byte>, cs: seq<Attr>, under: seq<byte>): (s: seq<byte>)
    requires |under| == 4 + Align(|f|) + 4 + SizeAll(cs)
    ensures |s| == Align(|f|) + 4 + SizeAll(cs)
    decreases cs, 2
  {
    f + under[4 + |f|..4 + Align(|f|)] + InnerNest(kind, cs, under[4 + Align(|f|)..])
  }

  /** The nest behind a fixed structure; it carries the type of the attribute around it. */
  function InnerNest(kind: uint16, children: seq<Attr>, under: seq<byte>): (s: seq<byte>)
    requires |under| == 4 + SizeAll(children)
    ensures |s| == 4 + SizeAll(children)
    decreases children, 1
  {
    Header(4 + SizeAll(children), kind) + SerialiseAll(children, under[4..])
  }

  function SerialiseAll(attrs: seq<Attr>, under: seq<byte>): (s: seq<byte>)
    requires |under| == SizeAll(attrs)
    ensures |s| == SizeAll(attrs)
    decreases attrs, 0
  {
    if attrs == [] then []
    else Serialise(attrs[0], under[..Size(attrs[0])]) + SerialiseAll(attrs[1..], under[Size(attrs[0])..])
  }

  lemma SerialiseNest(kind: uint16, cs: seq<Attr>, under: seq<byte>)
    requires |under| == 4 + SizeAll(cs)
    ensures Length(Nest(kind, cs)) == Size(Nest(kind, cs)) == |under|
    ensures Serialise(Nest(kind, cs), under) == InnerNest(kind, cs, under)
  {
    hide Align, Words, Header, Put16;
    assert under[|under|..] == [];
  }

  lemma SerialiseCompat(kind: uint16, f: seq<byte>, cs: seq<Attr>, under: seq<byte>)
    requires |under| == 4 + Align(|f|) + 4 + SizeAll(cs)
    ensures Length(Compat(kind, f, cs)) == Size(Compat(kind, f, cs)) == |under|
    ensures Serialise(Compat(kind, f, cs), under)
         == Header(|under|, kind) + (f + under[4 + |f|..4 + Align(|f|)] + InnerNest(kind, cs, under[4 + Align(|f|)..]))
  {
    hide Align, Words, Header, InnerNest, SizeAll, Length, Size, Serialise;
    CompatLength(kind, f, cs);
    SerialiseUnpadded(Compat(kind, f, cs), under);
  }

  lemma SerialiseUnpadded(a: Attr, under: seq<byte>)
    requires |under| == Size(a) == Length(a)
    ensures Serialise(a, under) == Header(|under|, a.kind) + Payload(a, under)
  {
    hide Align, Words, Header, Payload, Length;
    assert under[|under|..] == [];
  }

  /** A plain attribute in memory: length, type, payload, and the padding that was there before. */
  lemma LeafBytes(kind: uint16, p: seq<byte>, under: seq<byte>)
    requires |under| == Align(4 + |p|) && 4 + |p| <= 0xFFFF
    ensures Size(Leaf(kind, p)) == |under|
    ensures Serialise(Leaf(kind, p), under) == Put16(4 + |p|) + Put16(kind) + p + under[4 + |p|..]
  {
    hide Align, Words, Put16;
  }

  /** A nest in memory: a header that carries the length of the children behind it. */
  lemma NestBytes(kind: uint16, cs: seq<Attr>, under: seq<byte>)
    requires |under| == 4 + SizeAll(cs) <= 0xFFFF
    ensures Size(Nest(kind, cs)) == |under|
    ensures Serialise(Nest(kind, cs), under)
         == Put16(4 + SizeAll(cs)) + Put16(kind) + SerialiseAll(cs, under[4..])
  {
    hide Align, Words, Put16, SizeAll, SerialiseAll, Serialise, Size, Length;
    SerialiseNest(kind, cs, under);
  }

  /** A compat nest in memory: the fixed structure, its padding, and a nest of the same type. */
  lemma CompatBytes(kind: uint16, f: seq<byte>, cs: seq<Attr>, under: seq<byte>)
    requires |under| == 8 + Align(|f|) + SizeAll(cs) <= 0xFFFF
    ensures Size(Compat(kind, f, cs)) == |under|
    ensures Serialise(Compat(kind, f, cs), under)
         == Put16(8 + Align(|f|) + SizeAll(cs)) + Put16(kind)
            + (f + under[4 + |f|..4 + Align(|f|)]
               + (Put16(4 + SizeAll(cs)) + Put16(kind) + SerialiseAll(cs, under[4 + Align(|f|) + 4..])))
  {
    hide Align, Words, Put16, Low16, Header, SizeAll, SerialiseAll, Serialise, Size, Length, InnerNest;
    SerialiseCompat(kind, f, cs, under);
    HeaderBytes(|under|, kind);
    InnerBytes(kind, cs, under[4 + Align(|f|)..]);
    SliceOfRest(under, 4 + Align(|f|));
  }

  lemma SliceOfRest(under: seq<byte>, k: nat)
    requires k + 4 <= |under|
    ensures under[k..][4..] == under[k + 4..]
  {
  }

  lemma InnerBytes(kind: uint16, cs: seq<Attr>, under: seq<byte>)
    requires |under| == 4 + SizeAll(cs) <= 0xFFFF
    ensures InnerNest(kind, cs, under) == Put16(4 + SizeAll(cs)) + Put16(kind) + SerialiseAll(cs, under[4..])
  {
    hide Put16, Low16, Header, SizeAll, SerialiseAll;
    HeaderBytes(4 + SizeAll(cs), kind);
  }

  lemma HeaderBytes(len: uint16, kind: uint16)
    ensures Header(len, kind) == Put16(len) + Put16(kind)
  {
  }

  // ----- Reading a tree back level by level ---------------------------------------------

  /** What a reader knows beforehand: which attributes nest, and the size of each fixed structure. */
  datatype Shape = LeafShape | NestShape(children: seq<Shape>) | CompatShape(fixed: nat, children: seq<Shape>)

  function ShapeOf(a: Attr): Shape
    decreases a, 1
  {
    match a
    case Leaf(_, _) => LeafShape
    case Nest(_, cs) => NestShape(ShapesOf(cs))
    case Compat(_, f, cs) => CompatShape(|f|, ShapesOf(cs))
  }

  function ShapesOf(attrs: seq<Attr>): (r: seq<Shape>)
    ensures |r| == |attrs|
    decreases attrs, 0
  {
    if attrs == [] then [] else [ShapeOf(attrs[0])] + ShapesOf(attrs[1..])
  }

  /** Parse one level, then each nest by another call on its payload, as parse_rtattr_nested does. */
  function Decode(s: seq<byte>, shapes: seq<Shape>): Option<seq<Attr>>
    decreases shapes, 2
  {
    if |Level(s)| != |shapes| then None else DecodeAll(Level(s), shapes)
  }

  function DecodeAll(raws: seq<Raw>, shapes: seq<Shape>): Option<seq<Attr>>
    requires |raws| == |shapes|
    decreases shapes, 1
  {
    if raws == [] then Some([])
    else
      match (DecodeOne(raws[0], shapes[0]), DecodeAll(raws[1..], shapes[1..]))
      case (Some(a), Some(rest)) => Some([a] + rest)
      case _ => None
  }

  function DecodeOne(r: Raw, shape: Shape): Option<Attr>
    decreases shape, 3
  {
    match shape
    case LeafShape => Some(Leaf(r.kind, r.payload))
    case NestShape(cs) =>
      (match Decode(r.payload, cs) case Some(xs) => Some(Nest(r.kind, xs)) case None => None)
    case CompatShape(n, cs) =>
      match CompatBody(r.payload, n)
      case None => None
      case Some(body) =>
        match Decode(body, cs) case Some(xs) => Some(Compat(r.kind, r.payload[..n], xs)) case None => None
  }

  /**
   * Where __parse_rtattr_nested_compat finds the attributes: in the attribute behind the aligned
   * fixed structure of `n` bytes, nowhere if there is no room for one, and an error if the payload
   * is shorter than the structure.
   */
  function CompatBody(payload: seq<byte>, n: nat): (r: Option<seq<byte>>)
    ensures r.Some? ==> n <= |payload|
  {
    if |payload| < n then None
    else if |payload| >= Align(n) + 4 then
      var inner := payload[Align(n)..];
      if 4 <= RtaLen(inner, 0) <= |inner| then Some(inner[4..RtaLen(inner, 0)]) else None
    else Some([])
  }

  // ----- Round trip -----------------------------------------------------------------------

  lemma HeaderReads(len: uint16, kind: uint16, rest: seq<byte>)
    ensures RtaLen(Header(len, kind) + rest, 0) == len && RtaType(Header(len, kind) + rest, 0) == kind
  {
  }

  function RawOf(a: Attr, under: seq<byte>): Raw
    requires |under| == Size(a)
  {
    Raw(a.kind, Payload(a, under))
  }

  /** The parser takes one serialised attribute off the front and goes on right behind its padding. */
  lemma LevelOfFirst(a: Attr, under: seq<byte>, rest: seq<byte>)
    requires |under| == Size(a) && Length(a) <= 0xFFFF
    ensures Level(Serialise(a, under) + rest) == [RawOf(a, under)] + Level(rest)
  {
    var s := Serialise(a, under) + rest;
    assert s == Header(Length(a), a.kind) + s[4..];
    HeaderReads(Length(a), a.kind, s[4..]);
    assert s[4..Length(a)] == Payload(a, under);
    assert s[Size(a)..] == rest;
  }

  function RawsOf(attrs: seq<Attr>, under: seq<byte>): (r: seq<Raw>)
    requires |under| == SizeAll(attrs)
    ensures |r| == |attrs|
  {
    if attrs == [] then []
    else [RawOf(attrs[0], under[..Size(attrs[0])])] + RawsOf(attrs[1..], under[Size(attrs[0])..])
  }

  lemma {:induction false} LevelOfAll(attrs: seq<Attr>, under: seq<byte>)
    requires |under| == SizeAll(attrs) && ShortAll(attrs)
    ensures Level(SerialiseAll(attrs, under)) == RawsOf(attrs, under)
    decreases |attrs|
  {
    if attrs != [] {
      var n := Size(attrs[0]);
      LevelOfFirst(attrs[0], under[..n], SerialiseAll(attrs[1..], under[n..]));
      LevelOfAll(attrs[1..], under[n..]);
    }
  }

  /**
   * Round trip for trees of any depth: reading the serialised bytes level by level gives back every
   * type, payload and fixed structure, in order, whatever the padding bytes are.
   */
  lemma {:induction false} DecodeSerialised(attrs: seq<Attr>, under: seq<byte>)
    requires |under| == SizeAll(attrs) && ShortAll(attrs)
    ensures Decode(SerialiseAll(attrs, under), ShapesOf(attrs)) == Some(attrs)
    decreases attrs, 2
  {
    LevelOfAll(attrs, under);
    DecodeRaws(attrs, under);
  }

  lemma {:induction false} DecodeRaws(attrs: seq<Attr>, under: seq<byte>)
    requires |under| == SizeAll(attrs) && ShortAll(attrs)
    ensures DecodeAll(RawsOf(attrs, under), ShapesOf(attrs)) == Some(attrs)
    decreases attrs, 1
  {
    if attrs != [] {
      var n := Size(attrs[0]);
      DecodeRaw(attrs[0], under[..n]);
      DecodeRaws(attrs[1..], under[n..]);
      assert [attrs[0]] + attrs[1..] == attrs;
    }
  }

  lemma {:induction false} DecodeRaw(a: Attr, under: seq<byte>)
    requires |under| == Size(a) && Short(a)
    ensures DecodeOne(RawOf(a, under), ShapeOf(a)) == Some(a)
    decreases a, 3
  {
    hide Align, Words, Header, Level, CompatBody, SerialiseAll;
    match a
    case Leaf(_, _) =>
    case Nest(_, cs) =>
      DecodeSerialised(cs, under[4..]);
    case Compat(k, f, cs) =>
      var pad, rest := under[4 + |f|..4 + Align(|f|)], under[4 + Align(|f|)..];
      CompatBodyOf(f, pad, k, cs, rest);
      assert Payload(a, under) == f + pad + InnerNest(k, cs, rest);
      assert Payload(a, under)[..|f|] == f;
      DecodeSerialised(cs, rest[4..]);
  }

  /** Behind a fixed structure of any length, aligned or not, the compat parser finds the nest's body. */
  lemma CompatBodyOf(f: seq<byte>, pad: seq<byte>, kind: uint16, cs: seq<Attr>, under: seq<byte>)
    requires |f| + |pad| == Align(|f|)
    requires |under| == 4 + SizeAll(cs) <= 0xFFFF
    ensures CompatBody(f + pad + InnerNest(kind, cs, under), |f|) == Some(SerialiseAll(cs, under[4..]))
  {
    var inner := InnerNest(kind, cs, under);
    var body := SerialiseAll(cs, under[4..]);
    assert (f + pad + inner)[Align(|f|)..] == inner;
    HeaderReads(4 + |body|, kind, body);
    assert inner[4..4 + |body|] == body;
  }

  /** The table entry of type `t` after parsing a serialised forest that stands behind `head`. */
  lemma LastSerialised(msg: seq<byte>, head: seq<byte>, attrs: seq<Attr>, under: seq<byte>, t: int)
    requires |under| == SizeAll(attrs) && ShortAll(attrs) && msg == head + SerialiseAll(attrs, under)
    ensures var o := LastOfType(msg, Walk(msg, |head|, |msg|), t);
      LastPayload(RawsOf(attrs, under), t) == if o.Some? then Some(RawAt(msg, o.value).payload) else None
  {
    hide Align, Words, Level, Walk, LastOfType, SerialiseAll, RawsOf, LastPayload, RtaLen, RtaType;
    assert Region(msg, |head|, |msg|) == SerialiseAll(attrs, under);
    TableHoldsLast(msg, |head|, |msg|, t);
    LevelOfAll(attrs, under);
  }
}
