/** Where a word is cut: what the patterns that match around a place say about it. */
module HyphenPlaces {
  import opened Strings
  import opened Subsequences
  import opened HyphenPatterns
  import opened HyphenPieces
  import opened Hyphenator

  /** A piece ends behind the first `k` letters, and another follows. */
  ghost predicate CutBehind(pieces: seq<string>, k: nat) {
    exists j :: 0 < j < |pieces| && |Concat(pieces[..j])| == k
  }

  lemma {:induction false} ConcatGrows(parts: seq<string>, j: nat)
    requires j <= |parts|
    ensures |Concat(parts[..j])| <= |Concat(parts)|
  {
    if j == |parts| {
      assert parts[..j] == parts;
    } else {
      ConcatGrows(DropLast(parts), j);
      assert DropLast(parts)[..j] == parts[..j];
    }
  }

  /** One more letter on the last piece, and perhaps a new piece: the cuts in front stay. */
  lemma CutsStay(q: seq<string>, c: char, r: seq<string>, odd: bool, k: nat)
    requires q != [] && r == DropLast(q) + [Last(q) + [c]] + (if odd then [""] else [])
    requires k <= |Concat(q)|
    ensures CutBehind(r, k) <==> CutBehind(q, k)
  {
    forall j | 0 < j < |q|
      ensures r[..j] == q[..j]
    {
    }
    assert r[..|q|] == DropLast(q) + [Last(q) + [c]];
    assert DropLast(r[..|q|]) == DropLast(q);
    assert |Concat(r[..|q|])| == |Concat(q)| + 1;
    if CutBehind(q, k) {
      var j :| 0 < j < |q| && |Concat(q[..j])| == k;
      assert |Concat(r[..j])| == k;
    }
    if CutBehind(r, k) {
      var j :| 0 < j < |r| && |Concat(r[..j])| == k;
      assert j < |q|;
      assert |Concat(q[..j])| == k;
    }
  }

  /** The letter just added: there is a cut behind it exactly when a new piece is begun. */
  lemma CutAdded(q: seq<string>, c: char, r: seq<string>, odd: bool)
    requires q != [] && r == DropLast(q) + [Last(q) + [c]] + (if odd then [""] else [])
    ensures CutBehind(r, |Concat(q)| + 1) <==> odd
  {
    var whole := DropLast(q) + [Last(q) + [c]];
    assert DropLast(whole) == DropLast(q);
    if odd {
      assert r[..|q|] == whole;
      assert |Concat(r[..|q|])| == |Concat(q)| + 1;
    } else {
      assert r == whole;
      forall j | 0 < j < |r|
        ensures |Concat(r[..j])| <= |Concat(q)|
      {
        assert r[..j] == DropLast(q)[..j];
        ConcatGrows(DropLast(q), j);
      }
    }
  }

  /** A letter ends its piece exactly when its mark is odd. */
  lemma {:induction false} CutsAtMarks(word: string, marks: seq<nat>, n: nat, k: nat)
    requires n <= |word| && n <= |marks| && 0 < k <= n
    ensures CutBehind(Pieces(word, marks, n), k) <==> marks[k - 1] % 2 == 1
  {
    var q := Pieces(word, marks, n - 1);
    PiecesSpell(word, marks, n - 1);
    var odd := marks[n - 1] % 2 == 1;
    if k == n {
      CutAdded(q, word[n - 1], Pieces(word, marks, n), odd);
    } else {
      CutsAtMarks(word, marks, n - 1, k);
      CutsStay(q, word[n - 1], Pieces(word, marks, n), odd, k);
    }
  }

  // ----- what the patterns say

  /** The pattern that counts among those with its letters: the last. */
  ghost predicate Counts(patterns: seq<string>, p: nat) {
    && p < |patterns| && Letters(patterns[p]) != ""
    && forall q :: p < q < |patterns| ==> Letters(patterns[q]) != Letters(patterns[p])
  }

  /** Pattern `p` stands at `s` in `work` and has the value `v` for place `m`. */
  ghost predicate Matches(patterns: seq<string>, work: string, p: nat, s: nat, m: nat, v: nat) {
    && Counts(patterns, p) && s + |Letters(patterns[p])| <= |work|
    && work[s..s + |Letters(patterns[p])|] == Letters(patterns[p])
    && s <= m <= s + |Letters(patterns[p])| && Points(patterns[p])[m - s] == v
  }

  /** The largest value of all matches at place `m`, zero when there is none. */
  ghost predicate Largest(patterns: seq<string>, work: string, m: nat, v: nat) {
    && (v > 0 ==> exists p: nat, s: nat :: Matches(patterns, work, p, s, m, v))
    && forall p: nat, s: nat, u: nat :: Matches(patterns, work, p, s, m, u) ==> u <= v
  }

  lemma {:induction false} TableKeeps(patterns: seq<string>, p: nat)
    requires Counts(patterns, p)
    ensures Letters(patterns[p]) in TableOf(patterns) && TableOf(patterns)[Letters(patterns[p])] == Points(patterns[p])
  {
    if p < |patterns| - 1 {
      var front := DropLast(patterns);
      assert front[p] == patterns[p] && Counts(front, p);
      TableKeeps(front, p);
    }
  }

  lemma {:induction false} TableFrom(patterns: seq<string>, l: string) returns (p: nat)
    requires l in TableOf(patterns) && l != ""
    ensures Counts(patterns, p) && Letters(patterns[p]) == l
  {
    if Letters(Last(patterns)) == l {
      p := |patterns| - 1;
    } else {
      p := TableFrom(DropLast(patterns), l);
      assert DropLast(patterns)[p] == patterns[p];
      forall q | p < q < |patterns|
        ensures Letters(patterns[q]) != l
      {
        assert q < |patterns| - 1 ==> DropLast(patterns)[q] == patterns[q];
      }
    }
  }

  lemma MatchSays(patterns: seq<string>, work: string, p: nat, s: nat, m: nat, u: nat)
    requires Matches(patterns, work, p, s, m, u)
    ensures s < |work| && Says(TableOf(patterns), work, s, |Letters(patterns[p])|, m) == u
  {
    TableKeeps(patterns, p);
  }

  lemma SaysMatch(patterns: seq<string>, work: string, s: nat, k: nat, m: nat) returns (p: nat)
    requires 0 < k && s + k <= |work| && Says(TableOf(patterns), work, s, k, m) > 0
    ensures Matches(patterns, work, p, s, m, Says(TableOf(patterns), work, s, k, m))
  {
    var l := Window(work, s, k);
    p := TableFrom(patterns, l);
    TableKeeps(patterns, p);
  }

  lemma LargestIsBest(patterns: seq<string>, work: string, m: nat, v: nat)
    requires Largest(patterns, work, m, v)
    ensures Best(TableOf(patterns), work, m) == v
  {
    var table := TableOf(patterns);
    BestIsMaximum(table, work, m);
    if v > 0 {
      var p: nat, s: nat :| Matches(patterns, work, p, s, m, v);
      MatchSays(patterns, work, p, s, m, v);
    }
    if Best(table, work, m) > 0 {
      var s, k :| 0 <= s < |work| && 0 < k <= |work| - s && Says(table, work, s, k, m) == Best(table, work, m);
      var p := SaysMatch(patterns, work, s, k, m);
    }
  }

  lemma MarkIs(table: map<string, seq<nat>>, work: string, key: string, i: nat)
    requires work == Dotted(key) && i < |key|
    ensures |PatternMarks(table, work)| == |key| + 1
    ensures PatternMarks(table, work)[i] ==
            if i == 0 || i == |key| - 1 || i == |key| - 2 then 0 else Best(table, work, i + 2)
  {
  }

  lemma MarkOdd(patterns: seq<string>, work: string, key: string, k: nat, v: nat)
    requires work == Dotted(key) && 0 < k < |key| && Largest(patterns, work, k + 1, v)
    ensures |PatternMarks(TableOf(patterns), work)| == |key| + 1
    ensures PatternMarks(TableOf(patterns), work)[k - 1] % 2 == 1 <==> 2 <= k <= |key| - 2 && v % 2 == 1
  {
    LargestIsBest(patterns, work, k + 1, v);
    MarkIs(TableOf(patterns), work, key, k - 1);
  }

  /**
    On the pattern path a word is cut behind its first `k` letters exactly when at least two letters stand on
    either side, in lower case, and the largest value of all matching patterns there is odd. So an even value
    forbids the cut over every smaller odd one.
   */
  lemma CutIff(lower: string -> string, patterns: seq<string>, entries: map<string, string>, word: string, k: nat,
               v: nat)
    requires Lowers(lower) && |word| > 4 && lower(word) !in entries && 0 < k < |word|
    requires Largest(patterns, Dotted(lower(word)), k + 1, v)
    ensures CutBehind(Hyphenated(lower, TableOf(patterns), entries, word), k) <==>
            2 <= k <= |lower(word)| - 2 && v % 2 == 1
  {
    var key := lower(word);
    MarkOdd(patterns, Dotted(key), key, k, v);
    CutsAtMarks(word, PatternMarks(TableOf(patterns), Dotted(key)), |word|, k);
  }
}
