/** Chat items in the order of their creation times: what inserting and merging make of a list. */
module ChatTimeline {
  import opened Subsequences
  import opened ChatItems

  ghost predicate Sorted(items: seq<ChatItem>) {
    forall i, j :: 0 <= i < j < |items| ==> items[i].createdAt <= items[j].createdAt
  }

  /** `find_insertion_index`: behind the last item that is not younger. */
  function InsertionIndex(items: seq<ChatItem>, createdAt: real): (k: nat)
    ensures k <= |items|
    ensures k > 0 ==> items[k - 1].createdAt <= createdAt
    ensures forall i :: k <= i < |items| ==> items[i].createdAt > createdAt
  {
    if items == [] || Last(items).createdAt <= createdAt then |items|
    else InsertionIndex(DropLast(items), createdAt)
  }

  function InsertOne(items: seq<ChatItem>, x: ChatItem): seq<ChatItem> {
    var k := InsertionIndex(items, x.createdAt);
    items[..k] + [x] + items[k..]
  }

  /** `insert` of a list, one item after the other. */
  function InsertMany(items: seq<ChatItem>, xs: seq<ChatItem>): seq<ChatItem> {
    if xs == [] then items else InsertOne(InsertMany(items, DropLast(xs)), Last(xs))
  }

  lemma InsertOneStep(items: seq<ChatItem>, x: ChatItem)
    ensures InsertOne(items, x) == if items == [] || Last(items).createdAt <= x.createdAt then items + [x]
                                   else InsertOne(DropLast(items), x) + [Last(items)]
  {
    if items == [] || Last(items).createdAt <= x.createdAt {
    } else {
      var k := InsertionIndex(items, x.createdAt);
      assert items[k..] == DropLast(items)[k..] + [Last(items)];
      assert items[..k] == DropLast(items)[..k];
    }
  }

  /** The items of one instant, in order. */
  function At(items: seq<ChatItem>, t: real): seq<ChatItem> {
    if items == [] then []
    else At(DropLast(items), t) + (if Last(items).createdAt == t then [Last(items)] else [])
  }

  lemma AtSnoc(items: seq<ChatItem>, x: ChatItem, t: real)
    ensures At(items + [x], t) == At(items, t) + (if x.createdAt == t then [x] else [])
  {
    assert DropLast(items + [x]) == items;
  }

  lemma {:induction false} AtJoin(a: seq<ChatItem>, b: seq<ChatItem>, t: real)
    ensures At(a + b, t) == At(a, t) + At(b, t)
  {
    if b == [] {
      assert a + b == a;
    } else {
      assert DropLast(a + b) == a + DropLast(b);
      AtJoin(a, DropLast(b), t);
    }
  }

  lemma {:induction false} AtMember(items: seq<ChatItem>, x: ChatItem, t: real)
    ensures x in At(items, t) <==> x in items && x.createdAt == t
  {
    if items != [] {
      AtMember(DropLast(items), x, t);
      assert items == DropLast(items) + [Last(items)];
    }
  }

  /** `r` is `s` put in the order of creation, items of the same instant left as they were. */
  ghost predicate IsStableSort(r: seq<ChatItem>, s: seq<ChatItem>) {
    Sorted(r) && forall t :: At(r, t) == At(s, t)
  }

  lemma SortedFront(items: seq<ChatItem>)
    requires Sorted(items) && items != []
    ensures Sorted(DropLast(items)) && forall x :: x in items ==> x.createdAt <= Last(items).createdAt
  {
  }

  /** Which determines it. */
  lemma {:induction false} StableSortUnique(a: seq<ChatItem>, b: seq<ChatItem>, s: seq<ChatItem>)
    requires IsStableSort(a, s) && IsStableSort(b, s)
    ensures a == b
  {
    SameEverywhere(a, b);
  }

  lemma {:induction false} SameEverywhere(a: seq<ChatItem>, b: seq<ChatItem>)
    requires Sorted(a) && Sorted(b) && forall t :: At(a, t) == At(b, t)
    ensures a == b
  {
    if a == [] || b == [] {
      if a != [] {
        AtMember(a, Last(a), Last(a).createdAt);
      }
      if b != [] {
        AtMember(b, Last(b), Last(b).createdAt);
      }
    } else {
      SortedFront(a);
      SortedFront(b);
      SameLast(a, b);
      forall t
        ensures At(DropLast(a), t) == At(DropLast(b), t)
      {
        assert At(a, t) == At(b, t);
        Cancel(At(DropLast(a), t), At(DropLast(b), t), if Last(a).createdAt == t then [Last(a)] else []);
      }
      SameEverywhere(DropLast(a), DropLast(b));
      assert a == DropLast(a) + [Last(a)] == DropLast(b) + [Last(b)] == b;
    }
  }

  lemma Cancel<T>(a: seq<T>, b: seq<T>, c: seq<T>)
    requires a + c == b + c
    ensures a == b
  {
    assert |a + c| == |b + c|;
    assert (a + c)[..|a|] == a && (b + c)[..|b|] == b;
  }

  lemma SameLast(a: seq<ChatItem>, b: seq<ChatItem>)
    requires a != [] && b != [] && Sorted(a) && Sorted(b) && forall t :: At(a, t) == At(b, t)
    ensures Last(a) == Last(b)
  {
    var s, t := Last(a).createdAt, Last(b).createdAt;
    SortedFront(a);
    SortedFront(b);
    AtMember(a, Last(a), s);
    AtMember(b, Last(a), s);
    AtMember(b, Last(b), t);
    AtMember(a, Last(b), t);
    assert s == t;
    assert Last(At(a, s)) == Last(a) && Last(At(b, s)) == Last(b);
  }

  // ----- one insertion

  lemma {:induction false} InsertOneAt(items: seq<ChatItem>, x: ChatItem, t: real)
    ensures At(InsertOne(items, x), t) == At(items, t) + (if x.createdAt == t then [x] else [])
  {
    InsertOneStep(items, x);
    if items == [] || Last(items).createdAt <= x.createdAt {
      AtSnoc(items, x, t);
    } else {
      InsertOneAt(DropLast(items), x, t);
      AtSnoc(InsertOne(DropLast(items), x), Last(items), t);
    }
  }

  lemma InsertOneMembers(items: seq<ChatItem>, x: ChatItem)
    ensures forall y :: y in InsertOne(items, x) <==> y == x || y in items
  {
    var k := InsertionIndex(items, x.createdAt);
    assert items == items[..k] + items[k..];
  }

  lemma InsertOneIds(items: seq<ChatItem>, x: ChatItem)
    ensures SetOf(Ids(InsertOne(items, x))) == SetOf(Ids(items)) + {x.id}
    ensures Distinct(Ids(items)) && x.id !in Ids(items) ==> Distinct(Ids(InsertOne(items, x)))
  {
    var k := InsertionIndex(items, x.createdAt);
    var ids := Ids(items);
    assert Ids(InsertOne(items, x)) == ids[..k] + [x.id] + ids[k..];
    assert ids == ids[..k] + ids[k..];
    PutIn(ids[..k], x.id, ids[k..]);
  }

  lemma PutIn(a: seq<string>, x: string, b: seq<string>)
    ensures SetOf(a + [x] + b) == SetOf(a + b) + {x}
    ensures Distinct(a + b) && x !in a + b ==> Distinct(a + [x] + b)
  {
    if Distinct(a + b) && x !in a + b {
      var r := a + [x] + b;
      forall i, j | 0 <= i < j < |r|
        ensures r[i] != r[j]
      {
        if i != |a| && j != |a| {
          var i', j' := if i < |a| then i else i - 1, if j < |a| then j else j - 1;
          assert (a + b)[i'] == r[i] && (a + b)[j'] == r[j];
        }
      }
    }
  }

  lemma {:induction false} InsertOneSorted(items: seq<ChatItem>, x: ChatItem)
    requires Sorted(items)
    ensures Sorted(InsertOne(items, x))
  {
    InsertOneStep(items, x);
    if items != [] {
      SortedFront(items);
      if Last(items).createdAt > x.createdAt {
        InsertOneSorted(DropLast(items), x);
        InsertOneMembers(DropLast(items), x);
        SortedSnoc(InsertOne(DropLast(items), x), Last(items));
      } else {
        SortedSnoc(items, x);
      }
    }
  }

  lemma SortedSnoc(items: seq<ChatItem>, x: ChatItem)
    requires Sorted(items) && forall y :: y in items ==> y.createdAt <= x.createdAt
    ensures Sorted(items + [x])
  {
  }

  lemma {:induction false} InsertOneSubseq(items: seq<ChatItem>, x: ChatItem)
    ensures Subseq(items, InsertOne(items, x))
  {
    InsertOneStep(items, x);
    if items == [] || Last(items).createdAt <= x.createdAt {
      assert DropLast(items + [x]) == items;
      SubseqRefl(items);
    } else {
      InsertOneSubseq(DropLast(items), x);
      assert DropLast(InsertOne(DropLast(items), x) + [Last(items)]) == InsertOne(DropLast(items), x);
    }
  }

  // ----- many insertions

  /** Items of one instant stay in the order in which they came, sorted context or not. */
  lemma {:induction false} InsertManyAt(items: seq<ChatItem>, xs: seq<ChatItem>, t: real)
    ensures At(InsertMany(items, xs), t) == At(items + xs, t)
  {
    AtJoin(items, xs, t);
    if xs != [] {
      InsertManyAt(items, DropLast(xs), t);
      AtJoin(items, DropLast(xs), t);
      InsertOneAt(InsertMany(items, DropLast(xs)), Last(xs), t);
    }
  }

  lemma {:induction false} InsertManySorted(items: seq<ChatItem>, xs: seq<ChatItem>)
    requires Sorted(items)
    ensures Sorted(InsertMany(items, xs))
  {
    if xs != [] {
      InsertManySorted(items, DropLast(xs));
      InsertOneSorted(InsertMany(items, DropLast(xs)), Last(xs));
    }
  }

  /** The items that were there keep their order. */
  lemma {:induction false} InsertManySubseq(items: seq<ChatItem>, xs: seq<ChatItem>)
    ensures Subseq(items, InsertMany(items, xs))
  {
    if xs == [] {
      SubseqRefl(items);
    } else {
      InsertManySubseq(items, DropLast(xs));
      InsertOneSubseq(InsertMany(items, DropLast(xs)), Last(xs));
      SubseqTrans(items, InsertMany(items, DropLast(xs)), InsertMany(items, xs));
    }
  }

  lemma {:induction false} SubseqSorted(a: seq<ChatItem>, b: seq<ChatItem>)
    requires Subseq(a, b) && Sorted(b)
    ensures Sorted(a)
  {
    if b != [] {
      SortedFront(b);
      if Subseq(a, DropLast(b)) {
        SubseqSorted(a, DropLast(b));
      } else {
        SubseqSorted(DropLast(a), DropLast(b));
        SubseqMembers(DropLast(a), DropLast(b));
        SortedSnoc(DropLast(a), Last(a));
        assert a == DropLast(a) + [Last(a)];
      }
    }
  }

  /** Inserting a list is a stable sort of the old items followed by the new, exactly when the context was sorted. */
  lemma InsertIsStableSort(items: seq<ChatItem>, xs: seq<ChatItem>)
    ensures IsStableSort(InsertMany(items, xs), items + xs) <==> Sorted(items)
  {
    forall t
      ensures At(InsertMany(items, xs), t) == At(items + xs, t)
    {
      InsertManyAt(items, xs, t);
    }
    if Sorted(items) {
      InsertManySorted(items, xs);
    }
    if Sorted(InsertMany(items, xs)) {
      InsertManySubseq(items, xs);
      SubseqSorted(items, InsertMany(items, xs));
    }
  }

  lemma {:induction false} InsertManyMembers(items: seq<ChatItem>, xs: seq<ChatItem>)
    ensures forall y :: y in InsertMany(items, xs) <==> y in xs || y in items
  {
    if xs != [] {
      InsertManyMembers(items, DropLast(xs));
      InsertOneMembers(InsertMany(items, DropLast(xs)), Last(xs));
      assert xs == DropLast(xs) + [Last(xs)];
    }
  }

  lemma IdsSnoc(items: seq<ChatItem>, x: ChatItem)
    ensures Ids(items + [x]) == Ids(items) + [x.id]
  {
  }

  lemma {:induction false} InsertManyIds(items: seq<ChatItem>, xs: seq<ChatItem>)
    ensures SetOf(Ids(InsertMany(items, xs))) == SetOf(Ids(items)) + SetOf(Ids(xs))
    ensures Distinct(Ids(items) + Ids(xs)) ==> Distinct(Ids(InsertMany(items, xs)))
  {
    if xs == [] {
      assert Ids(items) + Ids(xs) == Ids(items);
    } else {
      var front := DropLast(xs);
      assert xs == front + [Last(xs)];
      IdsSnoc(front, Last(xs));
      InsertManyIds(items, front);
      InsertOneIds(InsertMany(items, front), Last(xs));
      if Distinct(Ids(items) + Ids(xs)) {
        assert Ids(items) + Ids(xs) == (Ids(items) + Ids(front)) + [Last(xs).id];
        DistinctSnoc(Ids(items) + Ids(front), Last(xs).id);
        assert Last(xs).id !in SetOf(Ids(InsertMany(items, front)));
      }
    }
  }

  lemma DistinctSnoc(s: seq<string>, x: string)
    ensures Distinct(s + [x]) <==> Distinct(s) && x !in s
  {
    if Distinct(s + [x]) {
      forall i, j | 0 <= i < j < |s|
        ensures s[i] != s[j]
      {
        assert (s + [x])[i] != (s + [x])[j];
      }
      forall i | 0 <= i < |s|
        ensures s[i] != x
      {
        assert (s + [x])[i] != (s + [x])[|s|];
      }
    }
  }

  // ----- merging

  /** What `merge` is told to leave out. */
  datatype Exclude = Exclude(functionCalls: bool, instructions: bool) {
    predicate Skips(item: ChatItem) {
      (functionCalls && !item.Message?) || (instructions && item.IsInstruction())
    }
  }

  /** The items of `other` that a context with these ids takes over. */
  function Fresh(known: set<string>, other: seq<ChatItem>, ex: Exclude): seq<ChatItem> {
    if other == [] then []
    else
      var rest := Fresh(known, DropLast(other), ex);
      if ex.Skips(Last(other)) || Last(other).id in known || Last(other).id in Ids(rest) then rest
      else rest + [Last(other)]
  }

  function Merged(items: seq<ChatItem>, other: seq<ChatItem>, ex: Exclude): seq<ChatItem> {
    InsertMany(items, Fresh(SetOf(Ids(items)), other, ex))
  }

  lemma InsertManySnoc(items: seq<ChatItem>, xs: seq<ChatItem>, x: ChatItem)
    ensures InsertMany(items, xs + [x]) == InsertOne(InsertMany(items, xs), x)
  {
    assert DropLast(xs + [x]) == xs;
  }

  lemma MergedStep(items: seq<ChatItem>, other: seq<ChatItem>, ex: Exclude, x: ChatItem)
    ensures var r := Merged(items, other, ex);
            Merged(items, other + [x], ex) == if ex.Skips(x) || x.id in Ids(r) then r else InsertOne(r, x)
  {
    var known := SetOf(Ids(items));
    var rest := Fresh(known, other, ex);
    assert DropLast(other + [x]) == other;
    InsertManyIds(items, rest);
    assert x.id in SetOf(Ids(Merged(items, other, ex))) <==> x.id in known + SetOf(Ids(rest));
    InsertManySnoc(items, rest, x);
  }


  lemma {:induction false} FreshIds(known: set<string>, other: seq<ChatItem>, ex: Exclude)
    ensures var f := Fresh(known, other, ex);
            && Distinct(Ids(f)) && (forall id :: id in Ids(f) ==> id !in known)
            && (forall y :: y in f ==> y in other && !ex.Skips(y))
            && (forall y :: y in other && !ex.Skips(y) ==> y.id in known || y.id in Ids(f))
  {
    if other != [] {
      var x := Last(other);
      var rest := Fresh(known, DropLast(other), ex);
      FreshIds(known, DropLast(other), ex);
      assert other == DropLast(other) + [x];
      IdsSnoc(rest, x);
      DistinctSnoc(Ids(rest), x.id);
    }
  }

  lemma {:induction false} FreshSubseq(known: set<string>, other: seq<ChatItem>, ex: Exclude)
    ensures Subseq(Fresh(known, other, ex), other)
  {
    if other != [] {
      var rest := Fresh(known, DropLast(other), ex);
      FreshSubseq(known, DropLast(other), ex);
      assert DropLast(rest + [Last(other)]) == rest;
    }
  }

  /** Merging keeps the context sorted, its ids unique and its items in their order. */
  lemma MergeKeeps(items: seq<ChatItem>, other: seq<ChatItem>, ex: Exclude)
    ensures Sorted(items) <==> Sorted(Merged(items, other, ex))
    ensures Distinct(Ids(items)) ==> Distinct(Ids(Merged(items, other, ex)))
    ensures Subseq(items, Merged(items, other, ex))
  {
    var known := SetOf(Ids(items));
    var f := Fresh(known, other, ex);
    InsertIsStableSort(items, f);
    InsertManySubseq(items, f);
    if Sorted(Merged(items, other, ex)) {
      SubseqSorted(items, Merged(items, other, ex));
    }
    FreshIds(known, other, ex);
    InsertManyIds(items, f);
    if Distinct(Ids(items)) {
      DistinctJoin(Ids(items), Ids(f));
    }
  }

  lemma DistinctJoin(a: seq<string>, b: seq<string>)
    requires Distinct(a) && Distinct(b) && forall x :: x in b ==> x !in a
    ensures Distinct(a + b)
  {
    forall i, j | 0 <= i < j < |a + b|
      ensures (a + b)[i] != (a + b)[j]
    {
      if i < |a| <= j {
        assert a[i] in a && b[j - |a|] in b;
      }
    }
  }

  /**
    What merging brings in, and nothing else: every item not excluded is there by its id, the new ones
    come from `other`, in its order, and items of one instant stand behind the old ones.
   */
  lemma MergeCovers(items: seq<ChatItem>, other: seq<ChatItem>, ex: Exclude) returns (added: seq<ChatItem>)
    ensures forall y :: y in other && !ex.Skips(y) ==> y.id in Ids(Merged(items, other, ex))
    ensures Subseq(added, other) && Distinct(Ids(added))
    ensures forall y :: y in added ==> !ex.Skips(y) && y.id !in Ids(items)
    ensures forall y :: y in Merged(items, other, ex) <==> y in added || y in items
    ensures forall t :: At(Merged(items, other, ex), t) == At(items + added, t)
  {
    var known := SetOf(Ids(items));
    added := Fresh(known, other, ex);
    FreshIds(known, other, ex);
    FreshSubseq(known, other, ex);
    InsertManyMembers(items, added);
    InsertManyIds(items, added);
    assert SetOf(Ids(Merged(items, other, ex))) == known + SetOf(Ids(added));
    forall y | y in other && !ex.Skips(y)
      ensures y.id in Ids(Merged(items, other, ex))
    {
      assert y.id in known + SetOf(Ids(added));
    }
    forall y | y in added
      ensures !ex.Skips(y) && y.id !in Ids(items)
    {
      MemberId(added, y);
    }
    forall t
      ensures At(Merged(items, other, ex), t) == At(items + added, t)
    {
      InsertManyAt(items, added, t);
    }
  }

  lemma MemberId(items: seq<ChatItem>, y: ChatItem)
    requires y in items
    ensures y.id in Ids(items) && y.id in SetOf(Ids(items))
  {
    var i :| 0 <= i < |items| && items[i] == y;
    assert Ids(items)[i] == y.id;
  }

  /** A merge changes nothing exactly when every item not excluded is known already. */
  lemma MergeIdleIff(items: seq<ChatItem>, other: seq<ChatItem>, ex: Exclude)
    ensures Merged(items, other, ex) == items <==> forall y :: y in other && !ex.Skips(y) ==> y.id in Ids(items)
  {
    var known := SetOf(Ids(items));
    var f := Fresh(known, other, ex);
    FreshIds(known, other, ex);
    InsertManyIds(items, f);
    if f == [] {
    } else {
      assert Last(f) in f;
      MemberId(f, Last(f));
      assert Last(f).id in SetOf(Ids(Merged(items, other, ex)));
      assert Last(f).id !in Ids(items);
    }
  }

  /** So the second merge of the same context changes nothing. */
  lemma MergeTwice(items: seq<ChatItem>, other: seq<ChatItem>, ex: Exclude)
    ensures Merged(Merged(items, other, ex), other, ex) == Merged(items, other, ex)
  {
    var added := MergeCovers(items, other, ex);
    MergeIdleIff(Merged(items, other, ex), other, ex);
  }

  lemma {:induction false} FreshTakes(known: set<string>, other: seq<ChatItem>, ex: Exclude, i: nat)
    requires i < |other| && !ex.Skips(other[i]) && other[i].id !in known
    requires forall j :: 0 <= j < i ==> other[j].id != other[i].id
    ensures other[i] in Fresh(known, other, ex)
  {
    var front := DropLast(other);
    if i < |other| - 1 {
      FreshTakes(known, front, ex, i);
    } else {
      FreshSubseq(known, front, ex);
      SubseqMembers(Fresh(known, front, ex), front);
      var rest := Fresh(known, front, ex);
      forall k | 0 <= k < |rest|
        ensures Ids(rest)[k] != other[i].id
      {
        assert rest[k] in rest && rest[k] in front;
      }
    }
  }

  /**
    An item of the other context with a new id, the first there with it, is taken over exactly when function
    calls and their outputs are not excluded or it is none, and likewise for instructions.
   */
  lemma MergeTakes(items: seq<ChatItem>, other: seq<ChatItem>, ex: Exclude, i: nat)
    requires i < |other| && other[i].id !in Ids(items) && forall j :: 0 <= j < i ==> other[j].id != other[i].id
    ensures var x := other[i];
            x in Merged(items, other, ex) <==>
              !(ex.functionCalls && (x.FunctionCall? || x.FunctionCallOutput?))
              && !(ex.instructions && x.Message? && (x.role == System || x.role == Developer))
  {
    var x := other[i];
    var added := MergeCovers(items, other, ex);
    if x in items {
      MemberId(items, x);
    }
    InsertManyMembers(items, Fresh(SetOf(Ids(items)), other, ex));
    if !ex.Skips(x) {
      FreshTakes(SetOf(Ids(items)), other, ex, i);
    }
  }
}
