/** No script of single deletions and insertions is shorter than the one `ContextDiff.Diff` gives. */
module DiffMinimal {
  import opened Wrappers
  import opened Subsequences
  import opened ChatItems
  import opened Lcs
  import opened ContextDiff

  /** Any single change of an id list, at any position. */
  datatype Edit = Delete(at: nat) | Insert(at: nat, id: string)

  function Apply(ids: seq<string>, e: Edit): Option<seq<string>> {
    match e
    case Delete(at) => if at < |ids| then Some(ids[..at] + ids[at + 1..]) else None
    case Insert(at, id) => if at <= |ids| then Some(ids[..at] + [id] + ids[at..]) else None
  }

  function Run(ids: seq<string>, script: seq<Edit>): Option<seq<string>>
    decreases |script|
  {
    if script == [] then Some(ids)
    else match Apply(ids, script[0])
      case None => None
      case Some(next) => Run(next, script[1..])
  }

  function Deletes(script: seq<Edit>): nat {
    if script == [] then 0 else (if script[0].Delete? then 1 else 0) + Deletes(script[1..])
  }

  function Inserts(script: seq<Edit>): nat {
    if script == [] then 0 else (if script[0].Insert? then 1 else 0) + Inserts(script[1..])
  }

  lemma DropOne<T>(a: seq<T>, x: T, b: seq<T>)
    ensures Subseq(a + b, a + [x] + b)
    decreases |b|
  {
    var whole := a + [x] + b;
    if b == [] {
      assert DropLast(whole) == a + b;
      SubseqRefl(a + b);
    } else {
      DropOne(a, x, DropLast(b));
      assert DropLast(whole) == a + [x] + DropLast(b);
      assert DropLast(a + b) == a + DropLast(b);
    }
  }

  /** What a script never deletes stays in order: a common subsequence of its two ends. */
  lemma {:induction false} Survivors(ids: seq<string>, script: seq<Edit>) returns (c: seq<string>)
    requires Run(ids, script).Some?
    ensures Common(c, ids, Run(ids, script).value)
    ensures |c| >= |ids| - Deletes(script)
    ensures |Run(ids, script).value| == |ids| - Deletes(script) + Inserts(script)
    decreases |script|
  {
    if script == [] {
      c := ids;
      SubseqRefl(ids);
    } else {
      var next := Apply(ids, script[0]).value;
      var d := Survivors(next, script[1..]);
      match script[0]
      case Delete(at) =>
        DropOne(ids[..at], ids[at], ids[at + 1..]);
        assert ids == ids[..at] + [ids[at]] + ids[at + 1..];
        SubseqTrans(d, next, ids);
        c := d;
      case Insert(at, id) =>
        c := SubseqSkip(d, ids[..at], id, ids[at..]);
        assert ids == ids[..at] + ids[at..];
        SubseqTrans(c, d, Run(ids, script).value);
    }
  }

  lemma {:induction false} SplitLengths(items: seq<ChatItem>, kept: set<string>)
    ensures |Removed(items, kept)| + |Keep(Ids(items), kept)| == |items|
    ensures |Created(items, kept)| + |Keep(Ids(items), kept)| == |items|
  {
    if items != [] {
      SplitLengths(DropLast(items), kept);
      assert Ids(DropLast(items)) == DropLast(Ids(items));
    }
  }

  lemma {:induction false} KeepsAtLeast<T>(a: seq<T>, s: seq<T>, keep: set<T>)
    requires Subseq(a, s) && SetOf(a) <= keep
    ensures |Keep(s, keep)| >= |a|
  {
    if s != [] {
      if Subseq(a, DropLast(s)) {
        KeepsAtLeast(a, DropLast(s), keep);
      } else {
        assert Last(s) in SetOf(a);
        assert SetOf(DropLast(a)) <= SetOf(a);
        KeepsAtLeast(DropLast(a), DropLast(s), keep);
      }
    }
  }

  /**
    Whatever script of single edits leads from the old ids to the new ones, it deletes at least as
    often as the diff removes and inserts at least as often as the diff creates.
   */
  lemma DiffIsMinimal(oldItems: seq<ChatItem>, newItems: seq<ChatItem>, script: seq<Edit>)
    requires Run(Ids(oldItems), script) == Some(Ids(newItems))
    ensures |Diff(oldItems, newItems).toRemove| <= Deletes(script)
    ensures |Diff(oldItems, newItems).toCreate| <= Inserts(script)
  {
    var kept := KeptIds(oldItems, newItems);
    var lcs := LcsOf(Ids(oldItems), Ids(newItems));
    var c := Survivors(Ids(oldItems), script);
    LcsCorrect(Ids(oldItems), Ids(newItems));
    KeepsAtLeast(lcs, Ids(oldItems), kept);
    KeepsAtLeast(lcs, Ids(newItems), kept);
    SplitLengths(oldItems, kept);
    SplitLengths(newItems, kept);
  }

  lemma {:induction false} CountsAddUp(script: seq<Edit>)
    ensures Deletes(script) + Inserts(script) == |script|
  {
    if script != [] {
      CountsAddUp(script[1..]);
    }
  }

  /** In total: no shorter script exists. */
  lemma DiffIsShortest(oldItems: seq<ChatItem>, newItems: seq<ChatItem>, script: seq<Edit>)
    requires Run(Ids(oldItems), script) == Some(Ids(newItems))
    ensures |Diff(oldItems, newItems).toRemove| + |Diff(oldItems, newItems).toCreate| <= |script|
  {
    DiffIsMinimal(oldItems, newItems, script);
    CountsAddUp(script);
  }
}
