/** The edit script of `ContextDiff.Diff` really turns the old context into the new one. */
module DiffTransforms {
  import opened Wrappers
  import opened Subsequences
  import opened ChatItems
  import opened Lcs
  import opened ContextEdits
  import opened ContextDiff

  /** All removals, then all creations. */
  function Script(oldItems: seq<ChatItem>, ops: DiffOps, source: seq<ChatItem>): Edited {
    match DeleteAll(oldItems, ops.toRemove)
    case Rejected(e) => Rejected(e)
    case Ok(rest) => InsertAll(rest, ops.toCreate, source)
  }

  function KeepItems(items: seq<ChatItem>, kept: set<string>): seq<ChatItem> {
    if items == [] then []
    else KeepItems(DropLast(items), kept) + (if Last(items).id in kept then [Last(items)] else [])
  }

  lemma {:induction false} KeepItemsIds(items: seq<ChatItem>, kept: set<string>)
    ensures Ids(KeepItems(items, kept)) == Keep(Ids(items), kept)
    ensures forall x :: x in KeepItems(items, kept) ==> x in items
  {
    if items != [] {
      KeepItemsIds(DropLast(items), kept);
      assert Ids(DropLast(items)) == DropLast(Ids(items));
    }
  }

  lemma {:induction false} DeleteRemoved(a: seq<ChatItem>, b: seq<ChatItem>, kept: set<string>)
    requires Distinct(Ids(a + b))
    ensures DeleteAll(a + b, Removed(a, kept)) == Ok(KeepItems(a, kept) + b)
  {
    if a == [] {
      assert a + b == b;
    } else {
      var front, x := DropLast(a), Last(a);
      assert a + b == front + ([x] + b);
      DeleteRemoved(front, [x] + b, kept);
      DeleteAllKeepsDistinct(a + b, Removed(front, kept));
      DeleteOneMore(a + b, Removed(front, kept), KeepItems(front, kept), x, b);
      LastItem(a, kept);
    }
  }

  lemma LastItem(a: seq<ChatItem>, kept: set<string>)
    requires a != []
    ensures Last(a).id in kept ==>
              Removed(a, kept) == Removed(DropLast(a), kept) &&
                  KeepItems(a, kept) == KeepItems(DropLast(a), kept) + [Last(a)]
    ensures Last(a).id !in kept ==>
              Removed(a, kept) == Removed(DropLast(a), kept) + [Last(a).id] &&
                  KeepItems(a, kept) == KeepItems(DropLast(a), kept)
  {
  }

  lemma DeleteOneMore(items: seq<ChatItem>, ids: seq<string>, a: seq<ChatItem>, x: ChatItem, b: seq<ChatItem>)
    requires DeleteAll(items, ids) == Ok(a + ([x] + b)) && Distinct(Ids(a + ([x] + b)))
    ensures DeleteAll(items, ids) == Ok(a + [x] + b)
    ensures DeleteAll(items, ids + [x.id]) == Ok(a + b)
  {
    assert a + ([x] + b) == a + [x] + b;
    DeleteMiddle(a, x, b);
    assert DropLast(ids + [x.id]) == ids;
  }

  /** The new list with every kept item in its old version. */
  function Target(oldItems: seq<ChatItem>, newItems: seq<ChatItem>): (r: seq<ChatItem>)
    ensures |r| == |newItems|
  {
    var kept := KeptIds(oldItems, newItems);
    KeptIsCommon(oldItems, newItems);
    seq(|newItems|, k requires 0 <= k < |newItems| =>
      if newItems[k].id in kept then ById(oldItems)[newItems[k].id] else newItems[k])
  }

  lemma TargetIds(oldItems: seq<ChatItem>, newItems: seq<ChatItem>)
    ensures Ids(Target(oldItems, newItems)) == Ids(newItems)
  {
    KeptIsCommon(oldItems, newItems);
    ByIdMembers(oldItems);
  }

  /** What is left of the kept old items once the first `k` new ones are in place. */
  function Rest(oldItems: seq<ChatItem>, newItems: seq<ChatItem>, k: nat): seq<ChatItem>
    requires k <= |newItems|
  {
    var kept := KeptIds(oldItems, newItems);
    var keptItems := KeepItems(oldItems, kept);
    var c := |Keep(Ids(newItems)[..k], kept)|;
    if c <= |keptItems| then keptItems[c..] else []
  }

  lemma {:induction false} KeepPrefix<T>(s: seq<T>, keep: set<T>, k: nat)
    requires k <= |s|
    ensures Keep(s[..k], keep) <= Keep(s, keep)
  {
    if k == |s| {
      assert s[..k] == s;
    } else {
      KeepPrefix(DropLast(s), keep, k);
      assert DropLast(s)[..k] == s[..k];
    }
  }

  /** The kept ids, in old order and in new order, are the longest common subsequence. */
  lemma KeptInOrder(oldItems: seq<ChatItem>, newItems: seq<ChatItem>)
    requires Distinct(Ids(oldItems)) && Distinct(Ids(newItems))
    ensures Ids(KeepItems(oldItems, KeptIds(oldItems, newItems))) == LcsOf(Ids(oldItems), Ids(newItems))
    ensures Keep(Ids(newItems), KeptIds(oldItems, newItems)) == LcsOf(Ids(oldItems), Ids(newItems))
  {
    var lcs := LcsOf(Ids(oldItems), Ids(newItems));
    LcsCorrect(Ids(oldItems), Ids(newItems));
    KeepItemsIds(oldItems, KeptIds(oldItems, newItems));
    KeepSubseq(lcs, Ids(oldItems));
    KeepSubseq(lcs, Ids(newItems));
  }

  /** A kept old item is what `ById` finds under its id. */
  lemma KeptItemIsOld(oldItems: seq<ChatItem>, kept: set<string>, c: nat)
    requires Distinct(Ids(oldItems)) && c < |KeepItems(oldItems, kept)|
    ensures var x := KeepItems(oldItems, kept)[c]; x.id in ById(oldItems) && ById(oldItems)[x.id] == x
  {
    var x := KeepItems(oldItems, kept)[c];
    KeepItemsIds(oldItems, kept);
    ByIdMembers(oldItems);
    assert x in oldItems;
    var p :| 0 <= p < |oldItems| && oldItems[p] == x;
    assert ById(oldItems)[Ids(oldItems)[p]] == x;
  }

  lemma KeepPrefixStep<T>(s: seq<T>, keep: set<T>, k: nat)
    requires k < |s|
    ensures Keep(s[..k + 1], keep) == Keep(s[..k], keep) + (if s[k] in keep then [s[k]] else [])
  {
    assert DropLast(s[..k + 1]) == s[..k];
  }

  /** A kept new item stands next in line among the remaining old ones. */
  lemma RestStep(oldItems: seq<ChatItem>, newItems: seq<ChatItem>, k: nat)
    requires Distinct(Ids(oldItems)) && Distinct(Ids(newItems)) && k < |newItems|
    ensures newItems[k].id in KeptIds(oldItems, newItems) ==>
              Rest(oldItems, newItems, k) == [Target(oldItems, newItems)[k]] + Rest(oldItems, newItems, k + 1)
    ensures newItems[k].id !in KeptIds(oldItems, newItems) ==>
              Rest(oldItems, newItems, k) == Rest(oldItems, newItems, k + 1)
  {
    var kept, ids := KeptIds(oldItems, newItems), Ids(newItems);
    KeepPrefixStep(ids, kept, k);
    if ids[k] in kept {
      var keptItems := KeepItems(oldItems, kept);
      var c := |Keep(ids[..k], kept)|;
      NextKept(oldItems, newItems, k);
      assert Target(oldItems, newItems)[k] == keptItems[c];
      assert keptItems[c..] == [keptItems[c]] + keptItems[c + 1..];
    }
  }

  lemma NextKept(oldItems: seq<ChatItem>, newItems: seq<ChatItem>, k: nat)
    requires Distinct(Ids(oldItems)) && Distinct(Ids(newItems)) && k < |newItems|
    requires newItems[k].id in KeptIds(oldItems, newItems)
    ensures var kept := KeptIds(oldItems, newItems);
            var c := |Keep(Ids(newItems)[..k], kept)|;
            && c < |KeepItems(oldItems, kept)|
            && newItems[k].id in ById(oldItems)
            && KeepItems(oldItems, kept)[c] == ById(oldItems)[newItems[k].id]
  {
    var kept, ids := KeptIds(oldItems, newItems), Ids(newItems);
    var c := |Keep(ids[..k], kept)|;
    KeptInOrder(oldItems, newItems);
    KeepPrefixStep(ids, kept, k);
    KeepPrefix(ids, kept, k + 1);
    assert Keep(ids, kept)[c] == ids[k];
    assert Ids(KeepItems(oldItems, kept))[c] == ids[k];
    KeptItemIsOld(oldItems, kept, c);
  }

  lemma {:induction false} KeepMembers<T>(s: seq<T>, keep: set<T>)
    ensures forall x :: x in Keep(s, keep) ==> x in keep
  {
    if s != [] {
      KeepMembers(DropLast(s), keep);
    }
  }

  lemma RestIds(oldItems: seq<ChatItem>, newItems: seq<ChatItem>, k: nat)
    requires k <= |newItems|
    ensures forall id :: id in Ids(Rest(oldItems, newItems, k)) ==> id in KeptIds(oldItems, newItems)
  {
    var kept := KeptIds(oldItems, newItems);
    KeepItemsIds(oldItems, kept);
    KeepMembers(Ids(oldItems), kept);
    var rest := Rest(oldItems, newItems, k);
    forall id | id in Ids(rest)
      ensures id in kept
    {
      var j :| 0 <= j < |rest| && rest[j].id == id;
      var c := |KeepItems(oldItems, kept)| - |rest|;
      assert rest[j] == KeepItems(oldItems, kept)[c + j];
      assert Ids(KeepItems(oldItems, kept))[c + j] == id;
    }
  }

  /** The list after the creations among the first `k` new items. */
  function Progress(oldItems: seq<ChatItem>, newItems: seq<ChatItem>, k: nat): seq<ChatItem>
    requires k <= |newItems|
  {
    Target(oldItems, newItems)[..k] + Rest(oldItems, newItems, k)
  }

  /** Creating item `k`: it goes right after item `k - 1`. */
  lemma CreateStep(oldItems: seq<ChatItem>, newItems: seq<ChatItem>, k: nat)
    requires Distinct(Ids(oldItems)) && Distinct(Ids(newItems)) && k < |newItems|
    requires newItems[k].id !in KeptIds(oldItems, newItems)
    ensures InsertNamed(Progress(oldItems, newItems, k), (PrevId(newItems[..k]), newItems[k].id), newItems)
         == Ok(Progress(oldItems, newItems, k + 1))
  {
    TargetIds(oldItems, newItems);
    RestIds(oldItems, newItems, k);
    CreateBehind(newItems, Target(oldItems, newItems), Rest(oldItems, newItems, k), k);
    RestStep(oldItems, newItems, k);
  }

  lemma CreateBehind(newItems: seq<ChatItem>, target: seq<ChatItem>, rest: seq<ChatItem>, k: nat)
    requires Distinct(Ids(newItems)) && Ids(target) == Ids(newItems)
    requires k < |newItems| && target[k] == newItems[k] && newItems[k].id !in Ids(rest)
    ensures InsertNamed(target[..k] + rest, (PrevId(newItems[..k]), newItems[k].id), newItems) ==
            Ok(target[..k + 1] + rest)
  {
    var a, ids := target[..k], Ids(newItems);
    assert Ids(a) == ids[..k] && Ids(a + rest) == Ids(a) + Ids(rest);
    assert k > 0 ==> Last(a).id == ids[k - 1] == Last(newItems[..k]).id;
    assert ids[k] !in ids[..k];
    InsertBetween(a, rest, newItems[k]);
    NamedItself(newItems, k);
    assert target[..k + 1] == a + [newItems[k]];
  }

  lemma NamedItself(items: seq<ChatItem>, k: nat)
    requires Distinct(Ids(items)) && k < |items|
    ensures GetById(items, items[k].id) == Some(items[k])
  {
    assert Ids(items)[k] == items[k].id;
    IndexOfDistinct(Ids(items), k);
  }

  lemma KeepStep(oldItems: seq<ChatItem>, newItems: seq<ChatItem>, k: nat)
    requires Distinct(Ids(oldItems)) && Distinct(Ids(newItems)) && k < |newItems|
    requires newItems[k].id in KeptIds(oldItems, newItems)
    ensures Progress(oldItems, newItems, k + 1) == Progress(oldItems, newItems, k)
  {
    var target := Target(oldItems, newItems);
    RestStep(oldItems, newItems, k);
    assert target[..k + 1] == target[..k] + [target[k]];
  }

  lemma CreatedStep(items: seq<ChatItem>, kept: set<string>, k: nat)
    requires k < |items|
    ensures Created(items[..k + 1], kept) ==
            Created(items[..k], kept) + (if items[k].id !in kept then [(PrevId(items[..k]), items[k].id)] else [])
  {
    PrefixItem(items, k);
  }

  lemma CreateOne(base: seq<ChatItem>, oldItems: seq<ChatItem>, newItems: seq<ChatItem>, kept: set<string>, k: nat)
    requires Distinct(Ids(oldItems)) && Distinct(Ids(newItems)) && k < |newItems|
    requires kept == KeptIds(oldItems, newItems)
    requires InsertAll(base, Created(newItems[..k], kept), newItems) == Ok(Progress(oldItems, newItems, k))
    ensures InsertAll(base, Created(newItems[..k + 1], kept), newItems) == Ok(Progress(oldItems, newItems, k + 1))
  {
    CreatedStep(newItems, kept, k);
    var pairs := Created(newItems[..k], kept);
    if newItems[k].id in kept {
      assert Created(newItems[..k + 1], kept) == pairs;
      KeepStep(oldItems, newItems, k);
    } else {
      var pair := (PrevId(newItems[..k]), newItems[k].id);
      InsertAllSnoc(base, pairs, pair, newItems);
      CreateStep(oldItems, newItems, k);
    }
  }

  lemma {:induction false} CreatePrefix(base: seq<ChatItem>, oldItems: seq<ChatItem>, newItems: seq<ChatItem>,
                                        kept: set<string>, k: nat)
    requires Distinct(Ids(oldItems)) && Distinct(Ids(newItems)) && k <= |newItems|
    requires kept == KeptIds(oldItems, newItems) && base == Progress(oldItems, newItems, 0)
    ensures InsertAll(base, Created(newItems[..k], kept), newItems) == Ok(Progress(oldItems, newItems, k))
  {
    if k > 0 {
      CreatePrefix(base, oldItems, newItems, kept, k - 1);
      CreateOne(base, oldItems, newItems, kept, k - 1);
    }
  }

  lemma AllInPlace(oldItems: seq<ChatItem>, newItems: seq<ChatItem>)
    requires Distinct(Ids(oldItems)) && Distinct(Ids(newItems))
    ensures Progress(oldItems, newItems, |newItems|) == Target(oldItems, newItems)
  {
    KeptInOrder(oldItems, newItems);
    assert Ids(newItems)[..|newItems|] == Ids(newItems);
    assert Rest(oldItems, newItems, |newItems|) == [];
  }

  /**
    On contexts with distinct ids the script is never rejected and leaves exactly the new ids, in the
    new order, each created item in its new version and each kept one in its old version.
   */
  lemma ScriptTransforms(oldItems: seq<ChatItem>, newItems: seq<ChatItem>)
    requires Distinct(Ids(oldItems)) && Distinct(Ids(newItems))
    ensures Script(oldItems, Diff(oldItems, newItems), newItems) == Ok(Target(oldItems, newItems))
    ensures Ids(Target(oldItems, newItems)) == Ids(newItems)
  {
    var kept := KeptIds(oldItems, newItems);
    assert oldItems + [] == oldItems;
    DeleteRemoved(oldItems, [], kept);
    assert KeepItems(oldItems, kept) + [] == KeepItems(oldItems, kept);
    var base := KeepItems(oldItems, kept);
    assert Progress(oldItems, newItems, 0) == base;
    CreatePrefix(base, oldItems, newItems, kept, |newItems|);
    assert newItems[..|newItems|] == newItems;
    AllInPlace(oldItems, newItems);
    TargetIds(oldItems, newItems);
  }

  /**
    The exact condition: starting from distinct old ids, the script arrives at the new id list if and
    only if the new ids are distinct.
   */
  lemma ScriptTransformsIff(oldItems: seq<ChatItem>, newItems: seq<ChatItem>)
    requires Distinct(Ids(oldItems))
    ensures var r := Script(oldItems, Diff(oldItems, newItems), newItems);
            (r.Ok? && Ids(r.items) == Ids(newItems)) <==> Distinct(Ids(newItems))
  {
    var ops := Diff(oldItems, newItems);
    if Distinct(Ids(newItems)) {
      ScriptTransforms(oldItems, newItems);
    } else {
      DeleteAllKeepsDistinct(oldItems, ops.toRemove);
      match DeleteAll(oldItems, ops.toRemove)
      case Rejected(_) =>
      case Ok(rest) => InsertAllKeepsDistinct(rest, ops.toCreate, newItems);
    }
  }

  /** New item `j` was kept with a different text, and `pair` names it behind its new predecessor. */
  ghost predicate NeedsUpdate(newItems: seq<ChatItem>, kept: set<string>, oldById: map<string, ChatItem>,
                              j: nat, pair: (Option<string>, string))
    requires kept <= oldById.Keys
  {
    && j < |newItems|
    && pair == (PrevId(newItems[..j]), newItems[j].id)
    && newItems[j].id in kept
    && TextDiffers(oldById[newItems[j].id], newItems[j])
  }

  lemma {:induction false} UpdatedPrefix(newItems: seq<ChatItem>, kept: set<string>, oldById: map<string, ChatItem>,
                                         k: nat, pair: (Option<string>, string))
    requires k <= |newItems| && kept <= oldById.Keys
    ensures pair in Updated(newItems[..k], kept, oldById) <==>
            exists j :: 0 <= j < k && NeedsUpdate(newItems, kept, oldById, j, pair)
  {
    if k > 0 {
      UpdatedPrefix(newItems, kept, oldById, k - 1, pair);
      UpdatedStep(newItems, kept, oldById, k - 1, pair);
      assert (exists j :: 0 <= j < k && NeedsUpdate(newItems, kept, oldById, j, pair)) <==>
        (exists j :: 0 <= j < k - 1 && NeedsUpdate(newItems, kept, oldById, j, pair))
        || NeedsUpdate(newItems, kept, oldById, k - 1, pair);
    }
  }

  lemma UpdatedStep(newItems: seq<ChatItem>, kept: set<string>, oldById: map<string, ChatItem>,
                    k: nat, pair: (Option<string>, string))
    requires k < |newItems| && kept <= oldById.Keys
    ensures pair in Updated(newItems[..k + 1], kept, oldById) <==>
            pair in Updated(newItems[..k], kept, oldById) || NeedsUpdate(newItems, kept, oldById, k, pair)
  {
    PrefixItem(newItems, k);
  }

  /** The update list names exactly the kept messages whose text differs. */
  lemma UpdatedExactly(oldItems: seq<ChatItem>, newItems: seq<ChatItem>, pair: (Option<string>, string))
    ensures KeptIds(oldItems, newItems) <= ById(oldItems).Keys
    ensures pair in Diff(oldItems, newItems).toUpdate <==>
            exists j :: 0 <= j < |newItems| &&
                NeedsUpdate(newItems, KeptIds(oldItems, newItems), ById(oldItems), j, pair)
  {
    KeptIsCommon(oldItems, newItems);
    UpdatedPrefix(newItems, KeptIds(oldItems, newItems), ById(oldItems), |newItems|, pair);
    assert newItems[..|newItems|] == newItems;
  }
}
