/**
  The longest-common-subsequence table of `_compute_lcs` and the walk back through it
  (agent/livekit/agents/llm/utils.py).
 */
module Lcs {
  import opened Subsequences

  function Max(a: nat, b: nat): nat {
    if a >= b then a else b
  }

  /** The table entry at row `i`, column `j`. */
  function Entry<T(==)>(a: seq<T>, b: seq<T>, i: nat, j: nat): nat
    requires i <= |a| && j <= |b|
  {
    if i == 0 || j == 0 then 0
    else if a[i - 1] == b[j - 1] then Entry(a, b, i - 1, j - 1) + 1
    else Max(Entry(a, b, i - 1, j), Entry(a, b, i, j - 1))
  }

  /** What the walk back from row `i`, column `j` collects, in list order, ties going to the left. */
  function Walk<T(==)>(a: seq<T>, b: seq<T>, i: nat, j: nat): seq<T>
    requires i <= |a| && j <= |b|
  {
    if i == 0 || j == 0 then []
    else if a[i - 1] == b[j - 1] then Walk(a, b, i - 1, j - 1) + [a[i - 1]]
    else if Entry(a, b, i - 1, j) > Entry(a, b, i, j - 1) then Walk(a, b, i - 1, j)
    else Walk(a, b, i, j - 1)
  }

  function LcsOf<T(==)>(a: seq<T>, b: seq<T>): seq<T> {
    Walk(a, b, |a|, |b|)
  }

  ghost predicate Common<T>(c: seq<T>, a: seq<T>, b: seq<T>) {
    Subseq(c, a) && Subseq(c, b)
  }

  lemma PrefixStep<T>(s: seq<T>, i: nat)
    requires 0 < i <= |s|
    ensures s[..i] != [] && Last(s[..i]) == s[i - 1] && DropLast(s[..i]) == s[..i - 1]
  {
  }

  /** The walk collects a common subsequence, as long as the table entry it starts from. */
  lemma {:induction false} WalkIsCommon<T>(a: seq<T>, b: seq<T>, i: nat, j: nat)
    requires i <= |a| && j <= |b|
    ensures Common(Walk(a, b, i, j), a[..i], b[..j])
    ensures |Walk(a, b, i, j)| == Entry(a, b, i, j)
  {
    if i == 0 || j == 0 {
      SubseqEmpty(a[..i]);
      SubseqEmpty(b[..j]);
    } else {
      PrefixStep(a, i);
      PrefixStep(b, j);
      if a[i - 1] == b[j - 1] {
        WalkIsCommon(a, b, i - 1, j - 1);
        assert DropLast(Walk(a, b, i, j)) == Walk(a, b, i - 1, j - 1);
      } else {
        WalkIsCommon(a, b, i - 1, j);
        WalkIsCommon(a, b, i, j - 1);
      }
    }
  }

  /** No common subsequence of two prefixes is longer than their table entry. */
  lemma {:induction false} EntryIsLongest<T>(c: seq<T>, a: seq<T>, b: seq<T>, i: nat, j: nat)
    requires i <= |a| && j <= |b|
    requires Common(c, a[..i], b[..j])
    ensures |c| <= Entry(a, b, i, j)
  {
    SubseqLength(c, a[..i]);
    SubseqLength(c, b[..j]);
    if c != [] {
      PrefixStep(a, i);
      PrefixStep(b, j);
      if a[i - 1] == b[j - 1] {
        ShortenedFits(c, a[..i]);
        ShortenedFits(c, b[..j]);
        EntryIsLongest(DropLast(c), a, b, i - 1, j - 1);
      } else if Subseq(c, a[..i - 1]) {
        EntryIsLongest(c, a, b, i - 1, j);
      } else {
        EntryIsLongest(c, a, b, i, j - 1);
      }
    }
  }

  lemma ShortenedFits<T>(c: seq<T>, s: seq<T>)
    requires c != [] && s != [] && Subseq(c, s)
    ensures Subseq(DropLast(c), DropLast(s))
  {
    if Subseq(c, DropLast(s)) {
      SubseqShrink(c, DropLast(s));
    }
  }

  /** `_compute_lcs` returns a common subsequence of both inputs, and none is longer. */
  lemma LcsCorrect<T>(a: seq<T>, b: seq<T>)
    ensures Common(LcsOf(a, b), a, b)
    ensures forall c :: Common(c, a, b) ==> |c| <= |LcsOf(a, b)|
  {
    assert a[..|a|] == a && b[..|b|] == b;
    WalkIsCommon(a, b, |a|, |b|);
    forall c | Common(c, a, b)
      ensures |c| <= |LcsOf(a, b)|
    {
      EntryIsLongest(c, a, b, |a|, |b|);
    }
  }

  function Reversed<T>(s: seq<T>): seq<T> {
    if s == [] then [] else [Last(s)] + Reversed(DropLast(s))
  }

  ghost predicate RowIs<T>(dp: array2<nat>, a: seq<T>, b: seq<T>, p: nat)
    requires dp.Length0 == |a| + 1 && dp.Length1 == |b| + 1 && p <= |a|
    reads dp
  {
    forall q :: 0 <= q <= |b| ==> dp[p, q] == Entry(a, b, p, q)
  }

  ghost predicate IsTable<T>(dp: array2<nat>, a: seq<T>, b: seq<T>)
    reads dp
  {
    && dp.Length0 == |a| + 1 && dp.Length1 == |b| + 1
    && forall p :: 0 <= p <= |a| ==> RowIs(dp, a, b, p)
  }

  /** One turn of the walk decides by table entries as `Walk` does. */
  lemma WalkStep<T>(dp: array2<nat>, a: seq<T>, b: seq<T>, i: nat, j: nat)
    requires 0 < i <= |a| && 0 < j <= |b| && IsTable(dp, a, b)
    ensures Walk(a, b, i, j) ==
            if a[i - 1] == b[j - 1] then Walk(a, b, i - 1, j - 1) + [a[i - 1]]
            else if dp[i - 1, j] > dp[i, j - 1] then Walk(a, b, i - 1, j)
            else Walk(a, b, i, j - 1)
  {
    assert RowIs(dp, a, b, i - 1) && RowIs(dp, a, b, i);
  }

  /** The table filled by the nested loops. */
  method FillTable<T(==)>(oldIds: seq<T>, newIds: seq<T>) returns (dp: array2<nat>)
    ensures fresh(dp) && IsTable(dp, oldIds, newIds)
  {
    var n, m := |oldIds|, |newIds|;
    dp := new nat[n + 1, m + 1]((i, j) => 0);
    for i := 1 to n + 1
      invariant forall p :: 0 <= p < i ==> RowIs(dp, oldIds, newIds, p)
      invariant forall p :: i <= p <= n ==> dp[p, 0] == 0
    {
      label before:
      FillRow(dp, oldIds, newIds, i);
      forall p | 0 <= p < i
        ensures RowIs(dp, oldIds, newIds, p)
      {
        assert old@before(RowIs(dp, oldIds, newIds, p));
      }
    }
  }

  method FillRow<T(==)>(dp: array2<nat>, oldIds: seq<T>, newIds: seq<T>, i: nat)
    requires dp.Length0 == |oldIds| + 1 && dp.Length1 == |newIds| + 1 && 0 < i <= |oldIds|
    requires RowIs(dp, oldIds, newIds, i - 1)
    requires dp[i, 0] == 0
    modifies dp
    ensures RowIs(dp, oldIds, newIds, i)
    ensures forall p, q :: 0 <= p <= |oldIds| && 0 <= q <= |newIds| && p != i ==> dp[p, q] == old(dp[p, q])
  {
    for j := 1 to |newIds| + 1
      invariant forall p, q :: 0 <= p <= |oldIds| && 0 <= q <= |newIds| && p != i ==> dp[p, q] == old(dp[p, q])
      invariant forall q :: 0 <= q < j ==> dp[i, q] == Entry(oldIds, newIds, i, q)
    {
      if oldIds[i - 1] == newIds[j - 1] {
        dp[i, j] := dp[i - 1, j - 1] + 1;
      } else {
        dp[i, j] := Max(dp[i - 1, j], dp[i, j - 1]);
      }
    }
  }

  lemma ReversedStep<T>(s: seq<T>, x: T, front: seq<T>)
    ensures front + Reversed(s + [x]) == front + [x] + Reversed(s)
  {
    assert DropLast(s + [x]) == s;
  }

  /** `_compute_lcs`: fill the table, walk back, reverse. */
  method ComputeLcs<T(==)>(oldIds: seq<T>, newIds: seq<T>) returns (lcsIds: seq<T>)
    ensures lcsIds == LcsOf(oldIds, newIds)
  {
    var dp := FillTable(oldIds, newIds);
    var collected: seq<T> := [];
    var i, j := |oldIds|, |newIds|;
    while i > 0 && j > 0
      invariant 0 <= i <= |oldIds| && 0 <= j <= |newIds|
      invariant IsTable(dp, oldIds, newIds)
      invariant Walk(oldIds, newIds, i, j) + Reversed(collected) == LcsOf(oldIds, newIds)
      decreases i + j
    {
      WalkStep(dp, oldIds, newIds, i, j);
      if oldIds[i - 1] == newIds[j - 1] {
        ReversedStep(collected, oldIds[i - 1], Walk(oldIds, newIds, i - 1, j - 1));
        collected := collected + [oldIds[i - 1]];
        i := i - 1;
        j := j - 1;
      } else if dp[i - 1, j] > dp[i, j - 1] {
        i := i - 1;
      } else {
        j := j - 1;
      }
    }
    lcsIds := Reversed(collected);
  }
}
