/** Putting strings together. */
module Strings {
  import opened Subsequences

  function Concat<T>(parts: seq<seq<T>>): seq<T> {
    if parts == [] then [] else Concat(DropLast(parts)) + Last(parts)
  }

  lemma ConcatSnoc<T>(parts: seq<seq<T>>, i: nat)
    requires i < |parts|
    ensures Concat(parts[..i + 1]) == Concat(parts[..i]) + parts[i]
  {
    assert DropLast(parts[..i + 1]) == parts[..i];
  }

  lemma ConcatOne<T>(s: seq<T>)
    ensures Concat([s]) == s
  {
    assert DropLast([s]) == [] && [] + s == s;
  }

  lemma {:induction false} ConcatJoin<T>(a: seq<seq<T>>, b: seq<seq<T>>)
    ensures Concat(a + b) == Concat(a) + Concat(b)
  {
    if b == [] {
      assert a + b == a && Concat(a) + [] == Concat(a);
    } else {
      assert DropLast(a + b) == a + DropLast(b) && Last(a + b) == Last(b);
      ConcatJoin(a, DropLast(b));
      assert Concat(a) + Concat(DropLast(b)) + Last(b) == Concat(a) + (Concat(DropLast(b)) + Last(b));
    }
  }

  /** Python's `sep.join(parts)`. */
  function Join(sep: string, parts: seq<string>): string {
    if parts == [] then ""
    else if |parts| == 1 then parts[0]
    else Join(sep, DropLast(parts)) + sep + Last(parts)
  }

  lemma JoinSnoc(sep: string, a: seq<string>, t: string)
    ensures Join(sep, a + [t]) == if a == [] then t else Join(sep, a) + sep + t
  {
    assert DropLast(a + [t]) == a;
  }

  lemma {:induction false} JoinConcat(sep: string, a: seq<string>, b: seq<string>)
    requires a != [] && b != []
    ensures Join(sep, a + b) == Join(sep, a) + sep + Join(sep, b)
  {
    if |b| == 1 {
      assert a + b == a + [b[0]];
      JoinSnoc(sep, a, b[0]);
    } else {
      var front := DropLast(b);
      JoinConcat(sep, a, front);
      assert a + b == (a + front) + [Last(b)];
      JoinSnoc(sep, a + front, Last(b));
      assert Join(sep, a) + sep + Join(sep, front) + sep + Last(b) ==
             Join(sep, a) + sep + (Join(sep, front) + sep + Last(b));
    }
  }
}
