/** What a list of hyphenation patterns says about a word, without any tree. */
module HyphenPatterns {
  import opened Subsequences

  predicate IsDigit(c: char) {
    '0' <= c <= '9'
  }

  /** `re.sub("[0-9]", "", pattern)`. */
  function Letters(pattern: string): string {
    if pattern == "" then ""
    else Letters(DropLast(pattern)) + (if IsDigit(Last(pattern)) then "" else [Last(pattern)])
  }

  /** The numbers between the letters, 0 where there is none: `[int(d or 0) for d in re.split("[.a-z]", pattern)]`. */
  function Points(pattern: string): (r: seq<nat>)
    ensures |r| == |Letters(pattern)| + 1
  {
    if pattern == "" then [0]
    else
      var r := Points(DropLast(pattern));
      var c := Last(pattern);
      if IsDigit(c) then DropLast(r) + [10 * Last(r) + (c as int - '0' as int)] else r + [0]
  }

  /** The points stored under each pattern's letters; a later pattern with the same letters wins. */
  function TableOf(patterns: seq<string>): map<string, seq<nat>> {
    if patterns == [] then map[]
    else TableOf(DropLast(patterns))[Letters(Last(patterns)) := Points(Last(patterns))]
  }

  ghost predicate WellFormed(table: map<string, seq<nat>>) {
    forall l :: l in table ==> |table[l]| == |l| + 1
  }

  lemma {:induction false} TableWellFormed(patterns: seq<string>)
    ensures WellFormed(TableOf(patterns))
  {
    if patterns != [] {
      TableWellFormed(DropLast(patterns));
    }
  }

  function Max(a: nat, b: nat): nat {
    if a >= b then a else b
  }

  function Window(work: string, i: nat, n: nat): string
    requires i + n <= |work|
  {
    work[i..i + n]
  }

  /** What the pattern matching `n` characters of `work` from `i` on, if any, says at position `m`. */
  function Says(table: map<string, seq<nat>>, work: string, i: nat, n: nat, m: nat): nat
    requires i + n <= |work|
  {
    var l := Window(work, i, n);
    if n > 0 && l in table && i <= m < i + |table[l]| then table[l][m - i] else 0
  }

  /** The largest such value over matches of at most `n` characters from `i` on. */
  function BestFrom(table: map<string, seq<nat>>, work: string, i: nat, n: nat, m: nat): nat
    requires i + n <= |work|
  {
    if n == 0 then 0 else Max(BestFrom(table, work, i, n - 1, m), Says(table, work, i, n, m))
  }

  /** The largest over every match beginning before `i`. */
  function BestBefore(table: map<string, seq<nat>>, work: string, i: nat, m: nat): nat
    requires i <= |work|
  {
    if i == 0 then 0 else Max(BestBefore(table, work, i - 1, m), BestFrom(table, work, i - 1, |work| - (i - 1), m))
  }

  /** The largest value any stored pattern says at position `m`, wherever it matches. */
  function Best(table: map<string, seq<nat>>, work: string, m: nat): nat {
    BestBefore(table, work, |work|, m)
  }

  lemma {:induction false} BestFromBounds(table: map<string, seq<nat>>, work: string, i: nat, n: nat, m: nat)
    requires i + n <= |work|
    ensures forall k :: 0 < k <= n ==> Says(table, work, i, k, m) <= BestFrom(table, work, i, n, m)
    ensures BestFrom(table, work, i, n, m) > 0 ==>
              exists k :: 0 < k <= n && Says(table, work, i, k, m) == BestFrom(table, work, i, n, m)
  {
    if n > 0 {
      BestFromBounds(table, work, i, n - 1, m);
      assert Says(table, work, i, n, m) <= BestFrom(table, work, i, n, m);
    }
  }

  lemma {:induction false} BestBeforeBounds(table: map<string, seq<nat>>, work: string, i: nat, m: nat)
    requires i <= |work|
    ensures forall s, k :: 0 <= s < i && 0 < k <= |work| - s ==>
            Says(table, work, s, k, m) <= BestBefore(table, work, i, m)
    ensures BestBefore(table, work, i, m) > 0 ==>
              exists s, k :: 0 <= s < i && 0 < k <= |work| - s &&
                  Says(table, work, s, k, m) == BestBefore(table, work, i, m)
  {
    if i > 0 {
      BestBeforeBounds(table, work, i - 1, m);
      BestFromBounds(table, work, i - 1, |work| - (i - 1), m);
    }
  }

  /**
    `Best` is the maximum over every stored pattern tried at every offset: no match says more at `m`,
    and if it is not zero some match says exactly that.
   */
  lemma BestIsMaximum(table: map<string, seq<nat>>, work: string, m: nat)
    ensures forall s, k :: 0 <= s < |work| && 0 < k <= |work| - s ==> Says(table, work, s, k, m) <= Best(table, work, m)
    ensures Best(table, work, m) > 0 ==>
              exists s, k :: 0 <= s < |work| && 0 < k <= |work| - s &&
                  Says(table, work, s, k, m) == Best(table, work, m)
  {
    BestBeforeBounds(table, work, |work|, m);
  }

  /** Where no match is longer than `n`, longer tries add nothing. */
  lemma {:induction false} NothingLonger(table: map<string, seq<nat>>, work: string, i: nat, n: nat, to: nat, m: nat)
    requires n <= to && i + to <= |work|
    requires forall k :: n < k <= to ==> Window(work, i, k) !in table
    ensures BestFrom(table, work, i, to, m) == BestFrom(table, work, i, n, m)
  {
    if n < to {
      assert Window(work, i, to) !in table;
      NothingLonger(table, work, i, n, to - 1, m);
    }
  }
}
