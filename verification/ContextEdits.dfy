/** The edits a remote chat context accepts, on the list of items it holds. */
module ContextEdits {
  import opened Wrappers
  import opened Subsequences
  import opened ChatItems

  datatype EditError = AlreadyExists(id: string) | NotFound(id: string)

  datatype Edited = Ok(items: seq<ChatItem>) | Rejected(error: EditError)

  /** `RemoteChatContext.insert`: after the item with id `prev`, at the front when there is none. */
  function InsertAfter(items: seq<ChatItem>, prev: Option<string>, item: ChatItem): Edited {
    if item.id in Ids(items) then Rejected(AlreadyExists(item.id))
    else match prev
      case None => Ok([item] + items)
      case Some(p) =>
        if p !in Ids(items) then Rejected(NotFound(p))
        else
          var k := IndexOf(Ids(items), p);
          Ok(items[..k + 1] + [item] + items[k + 1..])
  }

  /** `RemoteChatContext.delete`. */
  function DeleteId(items: seq<ChatItem>, id: string): Edited {
    if id !in Ids(items) then Rejected(NotFound(id))
    else
      var k := IndexOf(Ids(items), id);
      Ok(items[..k] + items[k + 1..])
  }

  /** Every id of `ids` deleted, in order, stopping at the first rejection. */
  function DeleteAll(items: seq<ChatItem>, ids: seq<string>): Edited {
    if ids == [] then Ok(items)
    else match DeleteAll(items, DropLast(ids))
      case Rejected(e) => Rejected(e)
      case Ok(rest) => DeleteId(rest, Last(ids))
  }

  /** Every `(previous id, id)` pair inserted, in order, the items looked up in `source`. */
  function InsertAll(items: seq<ChatItem>, pairs: seq<(Option<string>, string)>, source: seq<ChatItem>): Edited {
    if pairs == [] then Ok(items)
    else match InsertAll(items, DropLast(pairs), source)
      case Rejected(e) => Rejected(e)
      case Ok(rest) => InsertNamed(rest, Last(pairs), source)
  }

  function InsertNamed(items: seq<ChatItem>, pair: (Option<string>, string), source: seq<ChatItem>): Edited {
    match GetById(source, pair.1)
    case None => Rejected(NotFound(pair.1))
    case Some(item) => InsertAfter(items, pair.0, item)
  }

  lemma InsertAllSnoc(items: seq<ChatItem>, pairs: seq<(Option<string>, string)>, pair: (Option<string>, string),
                      source: seq<ChatItem>)
    requires InsertAll(items, pairs, source).Ok?
    ensures InsertAll(items, pairs + [pair], source) == InsertNamed(InsertAll(items, pairs, source).items, pair, source)
  {
    assert DropLast(pairs + [pair]) == pairs;
  }

  function PrevId(items: seq<ChatItem>): Option<string> {
    if items == [] then None else Some(Last(items).id)
  }

  /** Inserting behind the last item of a prefix lands right after that prefix. */
  lemma InsertBetween(a: seq<ChatItem>, b: seq<ChatItem>, item: ChatItem)
    requires Distinct(Ids(a)) && item.id !in Ids(a + b)
    ensures InsertAfter(a + b, PrevId(a), item) == Ok(a + [item] + b)
  {
    if a == [] {
      assert a + b == b && a + [item] + b == [item] + b;
    } else {
      var k := |a| - 1;
      assert Ids(a + b) == Ids(a) + Ids(b);
      assert Ids(a + b)[k] == Last(a).id;
      assert IndexOf(Ids(a + b), Last(a).id) == k;
      assert (a + b)[..k + 1] == a && (a + b)[k + 1..] == b;
    }
  }

  lemma DeleteMiddle(a: seq<ChatItem>, x: ChatItem, b: seq<ChatItem>)
    requires Distinct(Ids(a + [x] + b))
    ensures DeleteId(a + [x] + b, x.id) == Ok(a + b)
  {
    var whole := a + [x] + b;
    assert Ids(whole)[|a|] == x.id;
    IndexOfDistinct(Ids(whole), |a|);
    assert whole[..|a|] == a && whole[|a| + 1..] == b;
  }

  lemma InsertKeepsDistinct(items: seq<ChatItem>, prev: Option<string>, item: ChatItem)
    requires Distinct(Ids(items))
    ensures InsertAfter(items, prev, item).Ok? ==> Distinct(Ids(InsertAfter(items, prev, item).items))
  {
    if InsertAfter(items, prev, item).Ok? {
      var after := InsertAfter(items, prev, item).items;
      var k := if prev == None then 0 else IndexOf(Ids(items), prev.value) + 1;
      assert Ids(after) == Ids(items)[..k] + [item.id] + Ids(items)[k..];
    }
  }

  lemma DeleteKeepsDistinct(items: seq<ChatItem>, id: string)
    requires Distinct(Ids(items))
    ensures DeleteId(items, id).Ok? ==> Distinct(Ids(DeleteId(items, id).items))
  {
    if id in Ids(items) {
      var k := IndexOf(Ids(items), id);
      assert Ids(DeleteId(items, id).items) == Ids(items)[..k] + Ids(items)[k + 1..];
    }
  }

  lemma {:induction false} DeleteAllKeepsDistinct(items: seq<ChatItem>, ids: seq<string>)
    requires Distinct(Ids(items))
    ensures DeleteAll(items, ids).Ok? ==> Distinct(Ids(DeleteAll(items, ids).items))
  {
    if ids != [] {
      DeleteAllKeepsDistinct(items, DropLast(ids));
      match DeleteAll(items, DropLast(ids))
      case Rejected(_) =>
      case Ok(rest) => DeleteKeepsDistinct(rest, Last(ids));
    }
  }

  lemma {:induction false} InsertAllKeepsDistinct(items: seq<ChatItem>, pairs: seq<(Option<string>, string)>,
                                                  source: seq<ChatItem>)
    requires Distinct(Ids(items))
    ensures InsertAll(items, pairs, source).Ok? ==> Distinct(Ids(InsertAll(items, pairs, source).items))
  {
    if pairs != [] {
      InsertAllKeepsDistinct(items, DropLast(pairs), source);
      match InsertAll(items, DropLast(pairs), source)
      case Rejected(_) =>
      case Ok(rest) =>
        var named := GetById(source, Last(pairs).1);
        if named.Some? {
          InsertKeepsDistinct(rest, Last(pairs).0, named.value);
        }
    }
  }

  // ----- what an edit answers

  ghost predicate Has(items: seq<ChatItem>, id: string) {
    exists i :: 0 <= i < |items| && items[i].id == id
  }

  lemma HasId(items: seq<ChatItem>, id: string)
    ensures Has(items, id) <==> id in Ids(items)
  {
    if Has(items, id) {
      var i :| 0 <= i < |items| && items[i].id == id;
      assert Ids(items)[i] == id;
    }
  }

  /** The first item with an id, at the end of a prefix without it. */
  lemma FirstAt(a: seq<ChatItem>, x: ChatItem, b: seq<ChatItem>)
    requires !Has(a, x.id)
    ensures x.id in Ids(a + [x] + b) && IndexOf(Ids(a + [x] + b), x.id) == |a|
  {
    var whole := a + [x] + b;
    assert Ids(whole)[|a|] == x.id;
    forall j | 0 <= j < |a|
      ensures Ids(whole)[j] != x.id
    {
      assert whole[j] == a[j];
    }
  }

  /** Only an unknown id cannot be deleted, and the answer names it; of a known one the first item goes. */
  lemma DeleteAnswers(items: seq<ChatItem>, id: string)
    ensures !Has(items, id) ==> DeleteId(items, id) == Rejected(NotFound(id))
    ensures forall a, x, b :: items == a + [x] + b && x.id == id && !Has(a, id) ==> DeleteId(items, id) == Ok(a + b)
  {
    HasId(items, id);
    forall a, x: ChatItem, b | items == a + [x] + b && x.id == id && !Has(a, id)
      ensures DeleteId(items, id) == Ok(a + b)
    {
      FirstAt(a, x, b);
      assert items[..|a|] == a && items[|a| + 1..] == b;
    }
  }

  /**
    An id that is there already is refused before anything else, then a previous id that is not there; a new item
    goes right behind the first item with the previous id, or to the front.
   */
  lemma InsertAnswers(items: seq<ChatItem>, prev: Option<string>, item: ChatItem)
    ensures Has(items, item.id) ==> InsertAfter(items, prev, item) == Rejected(AlreadyExists(item.id))
    ensures !Has(items, item.id) && prev.Some? && !Has(items, prev.value) ==>
              InsertAfter(items, prev, item) == Rejected(NotFound(prev.value))
    ensures !Has(items, item.id) && prev == None ==> InsertAfter(items, prev, item) == Ok([item] + items)
    ensures forall a, x, b :: !Has(items, item.id) && items == a + [x] + b && prev == Some(x.id) && !Has(a, x.id) ==>
                                InsertAfter(items, prev, item) == Ok(a + [x] + [item] + b)
  {
    HasId(items, item.id);
    if prev.Some? {
      HasId(items, prev.value);
    }
    forall a, x: ChatItem, b | !Has(items, item.id) && items == a + [x] + b && prev == Some(x.id) && !Has(a, x.id)
      ensures InsertAfter(items, prev, item) == Ok(a + [x] + [item] + b)
    {
      FirstAt(a, x, b);
      assert items[..|a| + 1] == a + [x] && items[|a| + 1..] == b;
    }
  }
}
