/** Subsequences of a list: what remains after crossing elements out. */
module Subsequences {

  ghost predicate Distinct<T>(s: seq<T>) {
    forall i, j :: 0 <= i < j < |s| ==> s[i] != s[j]
  }

  function DropLast<T>(s: seq<T>): seq<T>
    requires s != []
  {
    s[..|s| - 1]
  }

  function Last<T>(s: seq<T>): T
    requires s != []
  {
    s[|s| - 1]
  }

  /** `a` can be obtained from `b` by crossing out elements. */
  ghost predicate Subseq<T>(a: seq<T>, b: seq<T>) {
    if b == [] then a == []
    else Subseq(a, DropLast(b)) || (a != [] && Last(a) == Last(b) && Subseq(DropLast(a), DropLast(b)))
  }

  lemma {:induction false} SubseqEmpty<T>(b: seq<T>)
    ensures Subseq([], b)
  {
    if b != [] {
      SubseqEmpty(DropLast(b));
    }
  }

  lemma {:induction false} SubseqRefl<T>(b: seq<T>)
    ensures Subseq(b, b)
  {
    if b != [] {
      SubseqRefl(DropLast(b));
    }
  }

  /** A subsequence without its last element is one still. */
  lemma {:induction false} SubseqShrink<T>(a: seq<T>, b: seq<T>)
    requires a != [] && Subseq(a, b)
    ensures Subseq(DropLast(a), b)
  {
    if Subseq(a, DropLast(b)) {
      SubseqShrink(a, DropLast(b));
    }
  }

  lemma {:induction false} SubseqTrans<T>(a: seq<T>, b: seq<T>, c: seq<T>)
    requires Subseq(a, b) && Subseq(b, c)
    ensures Subseq(a, c)
    decreases |c|, |b|
  {
    if c != [] && b != [] {
      if Subseq(b, DropLast(c)) {
        SubseqTrans(a, b, DropLast(c));
      } else if Subseq(a, DropLast(b)) {
        SubseqTrans(a, DropLast(b), DropLast(c));
      } else {
        SubseqTrans(DropLast(a), DropLast(b), DropLast(c));
      }
    }
  }

  lemma {:induction false} SubseqLength<T>(a: seq<T>, b: seq<T>)
    requires Subseq(a, b)
    ensures |a| <= |b|
    ensures |a| == |b| ==> a == b
  {
    if b != [] {
      if Subseq(a, DropLast(b)) {
        SubseqLength(a, DropLast(b));
      } else {
        SubseqLength(DropLast(a), DropLast(b));
      }
    }
  }

  /** Dropping one element of `b` costs a subsequence of `b` at most one element. */
  lemma {:induction false} SubseqSkip<T>(c: seq<T>, a: seq<T>, x: T, b: seq<T>) returns (d: seq<T>)
    requires Subseq(c, a + [x] + b)
    ensures Subseq(d, a + b) && Subseq(d, c) && |d| >= |c| - 1
    decreases |b|
  {
    var whole := a + [x] + b;
    if b == [] {
      assert DropLast(whole) == a == a + b;
      if Subseq(c, DropLast(whole)) {
        d := c;
        SubseqRefl(c);
      } else {
        d := DropLast(c);
        SubseqRefl(c);
        SubseqShrink(c, c);
      }
    } else {
      assert DropLast(whole) == a + [x] + DropLast(b);
      assert DropLast(a + b) == a + DropLast(b);
      if Subseq(c, DropLast(whole)) {
        d := SubseqSkip(c, a, x, DropLast(b));
      } else {
        var e := SubseqSkip(DropLast(c), a, x, DropLast(b));
        d := e + [Last(c)];
        assert DropLast(d) == e;
      }
    }
  }

  /** The elements of `s` that are in `keep`, in order. */
  function Keep<T(==)>(s: seq<T>, keep: set<T>): (r: seq<T>) {
    if s == [] then []
    else Keep(DropLast(s), keep) + (if Last(s) in keep then [Last(s)] else [])
  }

  function SetOf<T(==)>(s: seq<T>): set<T> {
    set x | x in s
  }

  lemma {:induction false} SubseqMembers<T>(a: seq<T>, b: seq<T>)
    requires Subseq(a, b)
    ensures forall x :: x in a ==> x in b
    ensures Distinct(b) ==> Distinct(a)
  {
    if b != [] {
      if Subseq(a, DropLast(b)) {
        SubseqMembers(a, DropLast(b));
      } else {
        SubseqMembers(DropLast(a), DropLast(b));
        assert a == DropLast(a) + [Last(a)];
        assert b == DropLast(b) + [Last(b)];
        if Distinct(b) {
          assert Last(b) !in DropLast(b);
        }
      }
    }
  }

  /** Keeping more of what does not occur changes nothing. */
  lemma {:induction false} KeepSameOn<T>(s: seq<T>, k1: set<T>, k2: set<T>)
    requires forall x :: x in s ==> (x in k1 <==> x in k2)
    ensures Keep(s, k1) == Keep(s, k2)
  {
    if s != [] {
      KeepSameOn(DropLast(s), k1, k2);
    }
  }

  /** A subsequence of a list of distinct elements is exactly what a filter keeps. */
  lemma {:induction false} KeepSubseq<T>(a: seq<T>, s: seq<T>)
    requires Distinct(s) && Subseq(a, s)
    ensures Keep(s, SetOf(a)) == a
  {
    if s != [] {
      var front := DropLast(s);
      assert s == front + [Last(s)];
      assert Last(s) !in front;
      if Subseq(a, front) {
        SubseqMembers(a, front);
        KeepSubseq(a, front);
      } else {
        SubseqMembers(DropLast(a), front);
        KeepSubseq(DropLast(a), front);
        assert a == DropLast(a) + [Last(a)];
        KeepSameOn(front, SetOf(a), SetOf(DropLast(a)));
      }
    }
  }
}
