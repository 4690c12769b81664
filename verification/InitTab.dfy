/** Switching programs on and off in inittab and inetd.conf by editing one character in place. */
module InitTab {
  import opened Fgets

  // fgets(buf, 255, f) delivers at most this many characters at a time.
  const CHUNK := 254

  function ChunkLen(s: string): nat
  {
    Take(s, CHUNK)
  }

  /** The pieces the loops see. */
  function Chunks(s: string): (r: seq<string>)
    ensures forall i | 0 <= i < |r| :: r[i] != ""
  {
    Pieces(s, CHUNK)
  }

  function Tail(s: string): (r: string)
    ensures |r| == |s| - ChunkLen(s)
  {
    Rest(s, CHUNK)
  }

  lemma ChunksUnfold(s: string)
    requires s != ""
    ensures |Chunks(s)| == 1 + |Chunks(Tail(s))| && Chunks(s)[0] == s[..ChunkLen(s)] && 0 < ChunkLen(s) <= |s|
    ensures Chunks(s)[1..] == Chunks(Tail(s))
  {
    PiecesUnfold(s, CHUNK);
  }

  predicate OccursAt(s: string, prog: string, i: nat)
  {
    i + |prog| <= |s| && s[i..i + |prog|] == prog
  }

  /** strstr finds something. */
  predicate Contains(s: string, prog: string)
  {
    exists i | 0 <= i <= |s| :: OccursAt(s, prog, i)
  }

  /** The first chunk that contains `prog`, or their number. */
  function Match(chunks: seq<string>, prog: string): (k: nat)
    ensures k <= |chunks| && (k < |chunks| ==> Contains(chunks[k], prog))
    ensures forall i | 0 <= i < k :: !Contains(chunks[i], prog)
  {
    if chunks == [] || Contains(chunks[0], prog) then 0 else 1 + Match(chunks[1..], prog)
  }

  /** Where chunk `k` begins in the file. */
  function Start(s: string, k: nat): (n: nat)
    requires k <= |Chunks(s)|
    ensures n <= |s| && (k < |Chunks(s)| ==> n < |s| && s[n] == Chunks(s)[k][0])
    decreases k
  {
    if k == 0 then 0
    else
      ChunksUnfold(s);
      assert k < |Chunks(s)| ==> Chunks(s)[k] == Chunks(s)[1..][k - 1];
      ChunkLen(s) + Start(Tail(s), k - 1)
  }

  /** The file with its first matching chunk beginning with `c`; unchanged if no chunk matches. */
  function Edited(s: string, prog: string, c: char): (r: string)
    ensures |r| == |s|
  {
    var k := Match(Chunks(s), prog);
    if k < |Chunks(s)| then s[Start(s, k) := c] else s
  }

  // ----- The loops ------------------------------------------------------------------------------------------

  class File {
    const data: array<char>

    constructor (data: array<char>)
      ensures this.data == data
    {
      this.data := data;
    }

    /** fgets at the cursor: how far it gets, and whether it ran into the end of the file. */
    method Fgets(pos: nat) returns (n: nat, eof: bool)
      requires pos <= data.Length
      ensures n == ChunkLen(data[pos..])
      ensures eof <==> n < CHUNK && (n == 0 || data[pos + n - 1] != '\n')
    {
      n := 0;
      assert data[pos..][0..] == data[pos..];
      while n < CHUNK && pos + n < data.Length
        invariant 0 <= n <= CHUNK && pos + n <= data.Length
        invariant ChunkLen(data[pos..]) == n + Take(data[pos..][n..], CHUNK - n)
        invariant n > 0 ==> data[pos + n - 1] != '\n'
      {
        assert data[pos..][n] == data[pos + n] && data[pos..][n..][1..] == data[pos..][n + 1..];
        n := n + 1;
        if data[pos + n - 1] == '\n' {
          eof := false;
          return;
        }
      }
      eof := n < CHUNK;
    }

    /**
     * The search loop all four functions share: chunk by chunk until one contains `prog`; `at` is where
     * fseek by minus the length of the buffer then puts the cursor. The file is not empty (or the
     * buffer would be read before it is filled) and holds no NUL.
     */
    method Search(prog: string) returns (found: bool, at: nat)
      requires data.Length > 0 && '\0' !in data[..]
      ensures var k := Match(Chunks(data[..]), prog);
        found == (k < |Chunks(data[..])|) && (found ==> at == Start(data[..], k))
    {
      hide Chunks, Take, ChunkLen, Start, Contains;
      var pos, eof, buf := 0, false, "";
      found, at := false, 0;
      ghost var k, s := 0, data[..];
      SearchBegins(s);
      while !eof && !found
        invariant data[..] == s && 0 <= pos <= |s| && (pos == 0 ==> !eof) && (eof && !found ==> pos == |s|)
        invariant k <= |Chunks(s)| && forall i | 0 <= i < k :: !Contains(Chunks(s)[i], prog)
        invariant !found ==> Chunks(s)[k..] == Chunks(s[pos..]) && pos == Start(s, k)
        invariant !found && pos > 0 ==> !Contains(buf, prog)
        invariant found ==> k < |Chunks(s)| && Contains(Chunks(s)[k], prog) && at == Start(s, k)
        decreases !found, |s| - pos, !eof
      {
        var n;
        n, eof := Fgets(pos);
        FgetsProgress(s, pos);
        if n > 0 {
          StartNext(s, k, pos);
          buf := data[pos..pos + n];
          assert s[pos..][..n] == buf;
          pos := pos + n;
        }
        if Contains(buf, prog) {
          at := pos - |buf|;
          found := true;
        } else if n > 0 {
          k := k + 1;
        }
      }
      if !found {
        assert s[pos..] == "";
        EmptyHasNone();
      }
      MatchIs(Chunks(s), prog, k);
    }

    /** _set_init_program up to telinit, and _process_set_inetd_program up to the signal. */
    method SetFirst(prog: string, c: char) returns (found: bool)
      requires data.Length > 0 && '\0' !in data[..]
      modifies data
      ensures data[..] == Edited(old(data[..]), prog, c)
      ensures found == (Match(Chunks(old(data[..])), prog) < |Chunks(old(data[..]))|)
    {
      var at;
      found, at := Search(prog);
      if found {
        data[at] := c;
      }
    }

    /** libamg_process_check_daemon. */
    method CheckDaemon(prog: string) returns (on: bool)
      requires data.Length > 0 && '\0' !in data[..]
      ensures on == DaemonOn(data[..], prog)
      ensures on <==> exists k | 0 <= k < |Chunks(data[..])| ::
        && Chunks(data[..])[k][0] == 'u' && Contains(Chunks(data[..])[k], prog)
        && forall i | 0 <= i < k :: !Contains(Chunks(data[..])[i], prog)
    {
      hide Chunks, Contains, Start;
      var found, at := Search(prog);
      on := found && data[at] == 'u';
      DaemonMeans(data[..], prog);
    }

    /** libamg_process_check_inetd_program: here commented chunks are passed over. */
    method CheckInetdProgram(prog: string) returns (found: bool)
      requires data.Length > 0 && '\0' !in data[..]
      ensures found == InetdOn(data[..], prog)
      ensures found <==> exists k | 0 <= k < |Chunks(data[..])| ::
        Chunks(data[..])[k][0] != '#' && Contains(Chunks(data[..])[k], prog)
    {
      hide Chunks, Take, ChunkLen, Start, Contains;
      var pos, eof, buf := 0, false, "";
      found := false;
      ghost var k, s := 0, data[..];
      SearchBegins(s);
      while !eof && !found
        invariant data[..] == s && 0 <= pos <= |s| && (pos == 0 ==> !eof) && (eof && !found ==> pos == |s|)
        invariant k <= |Chunks(s)| && forall i | 0 <= i < k :: !Active(Chunks(s)[i], prog)
        invariant !found ==> Chunks(s)[k..] == Chunks(s[pos..]) && pos == Start(s, k)
        invariant !found && pos > 0 ==> buf != "" && !Active(buf, prog)
        invariant found ==> k < |Chunks(s)| && Active(Chunks(s)[k], prog)
        decreases !found, |s| - pos, !eof
      {
        var n;
        n, eof := Fgets(pos);
        FgetsProgress(s, pos);
        if n > 0 {
          StartNext(s, k, pos);
          buf := data[pos..pos + n];
          assert s[pos..][..n] == buf;
          pos := pos + n;
        }
        if buf[0] != '#' && Contains(buf, prog) {
          found := true;
        } else if n > 0 {
          k := k + 1;
        }
      }
      if !found {
        assert s[pos..] == "";
        EmptyHasNone();
      }
    }
  }

  lemma SearchBegins(s: string)
    ensures Chunks(s)[0..] == Chunks(s[0..]) && Start(s, 0) == 0
  {
    assert s[0..] == s;
  }

  lemma FgetsProgress(s: string, pos: nat)
    requires pos <= |s|
    ensures pos < |s| ==> ChunkLen(s[pos..]) > 0
    ensures var n := ChunkLen(s[pos..]);
      pos + n <= |s| && n <= CHUNK && (n < CHUNK && (n == 0 || s[pos + n - 1] != '\n') ==> pos + n == |s|)
  {
  }

  lemma StartNext(s: string, k: nat, pos: nat)
    requires k <= |Chunks(s)| && pos == Start(s, k) < |s| && Chunks(s)[k..] == Chunks(s[pos..])
    ensures k < |Chunks(s)| && Chunks(s)[k] == s[pos..][..ChunkLen(s[pos..])]
    ensures Chunks(s)[k + 1..] == Chunks(s[pos + ChunkLen(s[pos..])..])
    ensures Start(s, k + 1) == pos + ChunkLen(s[pos..])
  {
    hide Chunks, Take, ChunkLen, Start;
    ChunksUnfold(s[pos..]);
    assert Chunks(s)[k..][0] == Chunks(s)[k] && Chunks(s)[k..][1..] == Chunks(s)[k + 1..];
    assert Tail(s[pos..]) == s[pos + ChunkLen(s[pos..])..];
    StartAdds(s, k);
  }

  lemma {:induction false} StartAdds(s: string, k: nat)
    requires k < |Chunks(s)|
    ensures Start(s, k + 1) == Start(s, k) + ChunkLen(s[Start(s, k)..])
    decreases k
  {
    hide Chunks, Take, ChunkLen, Pieces, Tail, Rest;
    EmptyHasNone();
    ChunksUnfold(s);
    if k == 0 {
      assert s[0..] == s;
      assert Start(Tail(s), 0) == 0;
    } else {
      StartAdds(Tail(s), k - 1);
      TailFrom(s, Start(Tail(s), k - 1));
    }
  }

  lemma TailFrom(s: string, j: nat)
    requires j <= |Tail(s)|
    ensures Tail(s)[j..] == s[ChunkLen(s) + j..]
  {
    hide Take;
  }

  lemma EmptyHasNone()
    ensures Chunks("") == []
  {
  }

  lemma MatchIs(chunks: seq<string>, prog: string, k: nat)
    requires k <= |chunks| && (k < |chunks| ==> Contains(chunks[k], prog))
    requires forall i | 0 <= i < k :: !Contains(chunks[i], prog)
    ensures Match(chunks, prog) == k
  {
  }

  predicate DaemonOn(s: string, prog: string)
  {
    var k := Match(Chunks(s), prog);
    k < |Chunks(s)| && Chunks(s)[k][0] == 'u'
  }

  lemma DaemonMeans(s: string, prog: string)
    ensures DaemonOn(s, prog) <==> exists k | 0 <= k < |Chunks(s)| ::
      && Chunks(s)[k][0] == 'u' && Contains(Chunks(s)[k], prog)
      && forall i | 0 <= i < k :: !Contains(Chunks(s)[i], prog)
  {
    hide Chunks, Contains;
    var k := Match(Chunks(s), prog);
    if j :| 0 <= j < |Chunks(s)| && Contains(Chunks(s)[j], prog)
            && forall i | 0 <= i < j :: !Contains(Chunks(s)[i], prog) {
      MatchIs(Chunks(s), prog, j);
    }
  }

  predicate Active(chunk: string, prog: string)
    requires chunk != ""
  {
    chunk[0] != '#' && Contains(chunk, prog)
  }

  predicate InetdOn(s: string, prog: string)
  {
    exists i | 0 <= i < |Chunks(s)| :: Active(Chunks(s)[i], prog)
  }

  // ----- What one edit does -------------------------------------------------------------------------------------

  /** `prog` stands in the first chunk that contains it without that chunk's first character. */
  predicate PastFirst(s: string, prog: string)
  {
    var k := Match(Chunks(s), prog);
    prog != "" && k < |Chunks(s)| && Contains(Chunks(s)[k][1..], prog)
  }

  lemma {:induction false} EditChunk(s: string, k: nat, c: char)
    requires k < |Chunks(s)| && |Chunks(s)[k]| > 1 && c != '\n'
    ensures Chunks(s[Start(s, k) := c]) == Chunks(s)[k := [c] + Chunks(s)[k][1..]]
    decreases k
  {
    hide Chunks, Take, Start;
    EmptyHasNone();
    ChunksUnfold(s);
    StartUnfold(s, k);
    var n, t := ChunkLen(s), s[Start(s, k) := c];
    ChunksUnfold(t);
    if k == 0 {
      HeadEdited(s, c);
      assert t[..n] == [c] + s[..n][1..] && Tail(t) == Tail(s);
    } else {
      assert Chunks(s)[k] == Chunks(s)[1..][k - 1];
      EditChunk(Tail(s), k - 1, c);
      TakeSame(s, t, n, CHUNK);
      assert t[..n] == s[..n] && Tail(t) == Tail(s)[Start(Tail(s), k - 1) := c];
    }
    assert Chunks(t) == [t[..n]] + Chunks(Tail(t)) && Chunks(s) == [s[..n]] + Chunks(Tail(s));
  }

  lemma StartUnfold(s: string, k: nat)
    requires k < |Chunks(s)| && s != ""
    ensures Start(s, k) == if k == 0 then 0 else ChunkLen(s) + Start(Tail(s), k - 1)
  {
  }

  lemma HeadEdited(s: string, c: char)
    requires ChunkLen(s) > 1 && c != '\n'
    ensures ChunkLen(s[0 := c]) == ChunkLen(s)
  {
    assert s[0 := c][1..] == s[1..];
  }

  lemma ContainsTail(c: char, tail: string, prog: string)
    requires Contains(tail, prog)
    ensures Contains([c] + tail, prog)
  {
    var i :| 0 <= i <= |tail| && OccursAt(tail, prog, i);
    assert ([c] + tail)[i + 1..i + 1 + |prog|] == tail[i..i + |prog|];
    assert OccursAt([c] + tail, prog, i + 1);
  }

  lemma ContainsNeedsRoom(s: string, prog: string)
    requires Contains(s, prog)
    ensures |prog| <= |s|
  {
  }

  /**
   * One start or stop call: the file keeps its length and all its chunks but the first character of
   * the matching one, and the next search finds the same chunk.
   */
  lemma EditKeepsStructure(s: string, prog: string, c: char)
    requires PastFirst(s, prog) && c != '\n'
    ensures var t, k := Edited(s, prog, c), Match(Chunks(s), prog);
      && Chunks(t) == Chunks(s)[k := [c] + Chunks(s)[k][1..]]
      && Match(Chunks(t), prog) == k
      && PastFirst(t, prog)
  {
    var k := Match(Chunks(s), prog);
    var chunk := Chunks(s)[k];
    ContainsNeedsRoom(chunk[1..], prog);
    EditChunk(s, k, c);
    ContainsTail(c, chunk[1..], prog);
    var t := Edited(s, prog, c);
    MatchIs(Chunks(t), prog, k);
    assert ([c] + chunk[1..])[1..] == chunk[1..];
  }

  // ----- Runs ------------------------------------------------------------------------------------------------------

  /** A run of start (true) and stop (false) calls for one program. */
  function Switched(s: string, prog: string, calls: seq<bool>): string
    decreases |calls|
  {
    if calls == [] then s else Switched(Edited(s, prog, if calls[0] then 'u' else '#'), prog, calls[1..])
  }

  /** After any run of calls the check reports the last one, and only that one character differs. */
  lemma {:induction false} DaemonReportsLast(s: string, prog: string, calls: seq<bool>)
    requires PastFirst(s, prog) && calls != []
    ensures var t, k, last := Switched(s, prog, calls), Match(Chunks(s), prog), calls[|calls| - 1];
      && t == Edited(s, prog, if last then 'u' else '#')
      && DaemonOn(t, prog) == last
    decreases |calls|
  {
    hide Chunks, Edited, Contains, Match;
    var c := if calls[0] then 'u' else '#';
    var t := Edited(s, prog, c);
    EditKeepsStructure(s, prog, c);
    if |calls| == 1 {
      assert calls[1..] == [];
    } else {
      DaemonReportsLast(t, prog, calls[1..]);
      EditTwice(s, prog, c, if calls[|calls| - 1] then 'u' else '#');
    }
  }

  /** A later edit of the same chunk overwrites the earlier one. */
  lemma EditTwice(s: string, prog: string, c: char, d: char)
    requires PastFirst(s, prog) && c != '\n'
    ensures Edited(Edited(s, prog, c), prog, d) == Edited(s, prog, d)
  {
    EditKeepsStructure(s, prog, c);
    var k, t := Match(Chunks(s), prog), Edited(s, prog, c);
    StartSame(s, t, k);
  }

  lemma {:induction false} StartSame(s: string, t: string, k: nat)
    requires k <= |Chunks(s)| && |Chunks(t)| == |Chunks(s)|
    requires forall i | 0 <= i < |Chunks(s)| :: |Chunks(t)[i]| == |Chunks(s)[i]|
    ensures Start(t, k) == Start(s, k)
    decreases k
  {
    hide Chunks, Take, ChunkLen, Start;
    StartSteps(s, k);
    StartSteps(t, k);
    if k > 0 {
      EmptyHasNone();
      ChunksUnfold(s);
      ChunksUnfold(t);
      assert |Chunks(s)[0]| == |Chunks(t)[0]|;
      assert forall i | 0 <= i < |Chunks(s)| - 1 ::
          Chunks(s)[i + 1] == Chunks(s)[1..][i] && Chunks(t)[i + 1] == Chunks(t)[1..][i];
      StartSame(Tail(s), Tail(t), k - 1);
    }
  }

  lemma StartSteps(s: string, k: nat)
    requires k <= |Chunks(s)|
    ensures k == 0 ==> Start(s, k) == 0
    ensures k > 0 ==> s != "" && k - 1 <= |Chunks(Tail(s))| && Start(s, k) == ChunkLen(s) + Start(Tail(s), k - 1)
  {
    hide Chunks;
    EmptyHasNone();
    if k > 0 {
      ChunksUnfold(s);
    }
  }

  // Several programs, possibly on one line.

  datatype Call = Call(prog: string, start: bool)

  function SwitchedAll(s: string, calls: seq<Call>): string
    decreases |calls|
  {
    if calls == [] then s else SwitchedAll(Edited(s, calls[0].prog, if calls[0].start then 'u' else '#'), calls[1..])
  }

  /** As PastFirst, and no earlier chunk would match whichever way its first character is switched. */
  predicate Steady(s: string, prog: string)
  {
    && PastFirst(s, prog)
    && forall j | 0 <= j < Match(Chunks(s), prog) ::
         !Contains(['u'] + Chunks(s)[j][1..], prog) && !Contains(['#'] + Chunks(s)[j][1..], prog)
  }

  /** Switching one program leaves the line of every other steady program where it is. */
  lemma EditKeepsOthers(s: string, p: string, c: char, q: string)
    requires Steady(s, p) && Steady(s, q) && (c == 'u' || c == '#')
    ensures var t := Edited(s, p, c);
      && Steady(t, q) && Match(Chunks(t), q) == Match(Chunks(s), q)
      && DaemonOn(t, q) == if Match(Chunks(s), p) == Match(Chunks(s), q) then c == 'u' else DaemonOn(s, q)
  {
    hide Chunks, Contains, Edited;
    var t, k, j := Edited(s, p, c), Match(Chunks(s), p), Match(Chunks(s), q);
    EditKeepsStructure(s, p, c);
    assert forall i | 0 <= i < |Chunks(s)| :: Chunks(t)[i][1..] == Chunks(s)[i][1..];
    if k == j {
      ContainsTail(c, Chunks(s)[k][1..], q);
    }
    MatchIs(Chunks(t), q, j);
  }

  /** The last call in a run that switches line `k`, or `initial` if there is none. */
  function LastFor(chunks: seq<string>, calls: seq<Call>, k: nat, initial: bool): bool
    decreases |calls|
  {
    if calls == [] then initial
    else LastFor(chunks, calls[1..], k, if Match(chunks, calls[0].prog) == k then calls[0].start else initial)
  }

  /** After any run of calls for any steady programs the check reports the last call for that line. */
  lemma {:induction false} EachReportsLast(s: string, calls: seq<Call>, prog: string)
    requires Steady(s, prog) && forall i | 0 <= i < |calls| :: Steady(s, calls[i].prog)
    ensures var t, k := SwitchedAll(s, calls), Match(Chunks(s), prog);
      && Steady(t, prog) && Match(Chunks(t), prog) == k && |t| == |s|
      && DaemonOn(t, prog) == LastFor(Chunks(s), calls, k, DaemonOn(s, prog))
    decreases |calls|
  {
    hide Steady, Edited, Chunks, DaemonOn;
    if calls != [] {
      var c := if calls[0].start then 'u' else '#';
      var t := Edited(s, calls[0].prog, c);
      EditKeepsOthers(s, calls[0].prog, c, prog);
      forall i | 0 <= i < |calls[1..]|
        ensures Steady(t, calls[1..][i].prog)
        ensures Match(Chunks(t), calls[1..][i].prog) == Match(Chunks(s), calls[1..][i].prog)
      {
        assert calls[1..][i] == calls[i + 1];
        EditKeepsOthers(s, calls[0].prog, c, calls[i + 1].prog);
      }
      EachReportsLast(t, calls[1..], prog);
      SameLast(Chunks(s), Chunks(t), calls[1..], Match(Chunks(s), prog), DaemonOn(t, prog));
    }
  }

  lemma {:induction false} SameLast(a: seq<string>, b: seq<string>, calls: seq<Call>, k: nat, initial: bool)
    requires forall i | 0 <= i < |calls| :: Match(a, calls[i].prog) == Match(b, calls[i].prog)
    ensures LastFor(a, calls, k, initial) == LastFor(b, calls, k, initial)
    decreases |calls|
  {
    if calls != [] {
      assert forall i | 0 <= i < |calls| - 1 :: calls[1..][i] == calls[i + 1];
      SameLast(a, b, calls[1..], k, if Match(a, calls[0].prog) == k then calls[0].start else initial);
    }
  }

  /** Starting a program in inetd.conf makes the check succeed. */
  lemma InetdStart(s: string, prog: string)
    requires PastFirst(s, prog)
    ensures InetdOn(Edited(s, prog, ' '), prog)
  {
    EditKeepsStructure(s, prog, ' ');
    var k, t := Match(Chunks(s), prog), Edited(s, prog, ' ');
    assert Active(Chunks(t)[k], prog);
  }

  /** Stopping it makes the check fail exactly when no other chunk offers the program uncommented. */
  lemma InetdStop(s: string, prog: string)
    requires PastFirst(s, prog)
    ensures InetdOn(Edited(s, prog, '#'), prog) <==>
      exists i | 0 <= i < |Chunks(s)| :: i != Match(Chunks(s), prog) && Active(Chunks(s)[i], prog)
  {
    hide Chunks, Contains, PastFirst;
    EditKeepsStructure(s, prog, '#');
    var k, t := Match(Chunks(s), prog), Edited(s, prog, '#');
    assert !Active(Chunks(t)[k], prog);
    assert forall i | 0 <= i < |Chunks(s)| && i != k :: Chunks(t)[i] == Chunks(s)[i];
  }
}
