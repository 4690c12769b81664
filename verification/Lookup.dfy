/** Looking a key up in a printed file, whether or not the library's own parser reads it. */
module Lookup {
  import opened Attributes
  import opened Text

  // A value is everything from the first '=' to the end of its line.
  const LINE_END: set<char> := {'\n'}

  function Collect(key: string): Apply<seq<string>>
  {
    (found: seq<string>, k: string, v: string) => if k == key then found + [v] else found
  }

  /** The values that the lines of a file give to `key`, in order. */
  function ValuesOf(text: string, key: string, max: nat): seq<string>
    requires max > 0
  {
    ParseText(Collect(key), LINE_END, max, [], text)
  }

  function ValueIn(r: Rec, key: string): seq<string>
  {
    match r case Setting(k, v) => if k == key then [Reread(v, LINE_END)] else [] case Plain(_) => []
  }

  function ValuesIn(recs: seq<Rec>, key: string): seq<string>
  {
    if recs == [] then [] else ValueIn(recs[0], key) + ValuesIn(recs[1..], key)
  }

  lemma CollectOne(found: seq<string>, r: Rec, key: string)
    ensures ApplyRec(Collect(key), LINE_END, found, r) == found + ValueIn(r, key)
  {
    hide Reread;
    assert found + [] == found;
  }

  lemma {:induction false} CollectAll(found: seq<string>, recs: seq<Rec>, key: string)
    ensures ApplyRecs(Collect(key), LINE_END, found, recs) == found + ValuesIn(recs, key)
    decreases |recs|
  {
    hide ApplyRec, ValueIn, Collect;
    if recs == [] {
      assert found + [] == found;
    } else {
      var one := ValueIn(recs[0], key);
      CollectOne(found, recs[0], key);
      CollectAll(found + one, recs[1..], key);
      assert found + one + ValuesIn(recs[1..], key) == found + (one + ValuesIn(recs[1..], key));
    }
  }

  /** A printed file gives a key the values of its records. */
  lemma ValuesRead(recs: seq<Rec>, key: string, max: nat)
    requires max > 1 && AllOk(recs, max)
    ensures ValuesOf(RenderAll(recs), key, max) == ValuesIn(recs, key)
  {
    hide ApplyRecs, ValuesIn, RecOk, RenderAll, ParseText;
    ReadRecords(Collect(key), LINE_END, max, [], recs);
    CollectAll([], recs, key);
    assert [] + ValuesIn(recs, key) == ValuesIn(recs, key);
  }

  lemma {:induction false} ValuesAppend(a: seq<Rec>, b: seq<Rec>, key: string)
    ensures ValuesIn(a + b, key) == ValuesIn(a, key) + ValuesIn(b, key)
  {
    hide ValueIn;
    if a == [] {
      assert a + b == b;
    } else {
      assert (a + b)[1..] == a[1..] + b;
      ValuesAppend(a[1..], b, key);
    }
  }

  /** No record sets the key. */
  predicate Lacks(recs: seq<Rec>, key: string)
  {
    forall i | 0 <= i < |recs| :: recs[i].Setting? ==> recs[i].key != key
  }

  lemma {:induction false} NoValues(recs: seq<Rec>, key: string)
    requires Lacks(recs, key)
    ensures ValuesIn(recs, key) == []
  {
    hide Reread;
    if recs != [] {
      assert forall i | 0 <= i < |recs[1..]| :: recs[1..][i] == recs[i + 1];
      NoValues(recs[1..], key);
    }
  }

  lemma LacksAppend(a: seq<Rec>, b: seq<Rec>, key: string)
    requires Lacks(a, key) && Lacks(b, key)
    ensures Lacks(a + b, key)
  {
  }

  /** The last record sets the key, and the others do not. */
  lemma LastValue(a: seq<Rec>, key: string, v: string)
    requires Lacks(a, key)
    ensures ValuesIn(a + [Setting(key, v)], key) == [Reread(v, LINE_END)]
  {
    hide Reread, Lacks;
    ValuesAppend(a, [Setting(key, v)], key);
    NoValues(a, key);
    assert [Setting(key, v)][1..] == [];
  }
}
