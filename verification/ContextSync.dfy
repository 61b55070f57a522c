/** A diff computed from two contexts and carried out on the linked list holding the old one. */
module ContextSync {
  import opened Wrappers
  import opened Subsequences
  import opened ChatItems
  import opened ContextEdits
  import opened ContextDiff
  import opened DiffTransforms
  import opened RemoteChatContext

  /** Deletes each id in turn, stopping at the first error. */
  method DeleteEach(remote: RemoteChatContext, ids: seq<string>) returns (error: Option<EditError>)
    requires remote.Valid()
    modifies remote.Repr
    ensures remote.Valid() && remote.Repr == old(remote.Repr)
    ensures match DeleteAll(old(remote.Items), ids)
            case Ok(items) => error == None && remote.Items == items
            case Rejected(e) => error == Some(e)
  {
    error := None;
    for i := 0 to |ids|
      invariant error == None
      invariant remote.Valid() && remote.Repr == old(remote.Repr)
      invariant DeleteAll(old(remote.Items), ids[..i]) == Ok(remote.Items)
    {
      DeletePrefix(old(remote.Items), ids, i);
      error := remote.Delete(ids[i]);
      if error != None {
        DeleteStops(old(remote.Items), ids, i + 1);
        return;
      }
    }
    assert ids[..|ids|] == ids;
  }

  lemma DeletePrefix(items: seq<ChatItem>, ids: seq<string>, i: nat)
    requires i < |ids|
    ensures DeleteAll(items, ids[..i + 1]) ==
            match DeleteAll(items, ids[..i]) case Rejected(e) => Rejected(e) case Ok(rest) => DeleteId(rest, ids[i])
  {
    assert DropLast(ids[..i + 1]) == ids[..i];
  }

  /** An error met on a prefix is the outcome of the whole list. */
  lemma {:induction false} DeleteStops(items: seq<ChatItem>, ids: seq<string>, i: nat)
    requires i <= |ids| && DeleteAll(items, ids[..i]).Rejected?
    ensures DeleteAll(items, ids) == DeleteAll(items, ids[..i])
    decreases |ids| - i
  {
    if i == |ids| {
      assert ids[..i] == ids;
    } else {
      DeletePrefix(items, ids, i);
      DeleteStops(items, ids, i + 1);
    }
  }

  lemma InsertPrefix(items: seq<ChatItem>, pairs: seq<(Option<string>, string)>, source: seq<ChatItem>, i: nat)
    requires i < |pairs|
    ensures InsertAll(items, pairs[..i + 1], source) ==
            match InsertAll(items, pairs[..i], source)
            case Rejected(e) => Rejected(e)
            case Ok(rest) => InsertNamed(rest, pairs[i], source)
  {
    assert DropLast(pairs[..i + 1]) == pairs[..i];
  }

  lemma {:induction false} InsertStops(items: seq<ChatItem>, pairs: seq<(Option<string>, string)>,
                                       source: seq<ChatItem>, i: nat)
    requires i <= |pairs| && InsertAll(items, pairs[..i], source).Rejected?
    ensures InsertAll(items, pairs, source) == InsertAll(items, pairs[..i], source)
    decreases |pairs| - i
  {
    if i == |pairs| {
      assert pairs[..i] == pairs;
    } else {
      InsertPrefix(items, pairs, source, i);
      InsertStops(items, pairs, source, i + 1);
    }
  }

  /** Inserts each named item behind its predecessor, stopping at the first error. */
  method InsertEach(remote: RemoteChatContext, pairs: seq<(Option<string>, string)>, source: seq<ChatItem>)
    returns (error: Option<EditError>)
    requires remote.Valid()
    modifies remote.Repr
    ensures remote.Valid() && fresh(remote.Repr - old(remote.Repr))
    ensures match InsertAll(old(remote.Items), pairs, source)
            case Ok(items) => error == None && remote.Items == items
            case Rejected(e) => error == Some(e)
  {
    error := None;
    for i := 0 to |pairs|
      invariant error == None
      invariant remote.Valid() && fresh(remote.Repr - old(remote.Repr))
      invariant InsertAll(old(remote.Items), pairs[..i], source) == Ok(remote.Items)
    {
      InsertPrefix(old(remote.Items), pairs, source, i);
      var named := GetById(source, pairs[i].1);
      error := Some(NotFound(pairs[i].1));
      if named.Some? {
        error := remote.Insert(pairs[i].0, named.value);
      }
      if error != None {
        InsertStops(old(remote.Items), pairs, source, i + 1);
        return;
      }
    }
    assert pairs[..|pairs|] == pairs;
  }

  /**
    The round trip: read the list off the nodes, diff it against `newItems`, carry the script out.
    It succeeds with exactly the new ids if and only if the new ids are distinct.
   */
  method SyncTo(remote: RemoteChatContext, newItems: seq<ChatItem>) returns (error: Option<EditError>)
    requires remote.Valid()
    modifies remote.Repr
    ensures remote.Valid() && fresh(remote.Repr - old(remote.Repr))
    ensures error == None && Ids(remote.Items) == Ids(newItems) <==> Distinct(Ids(newItems))
    ensures Distinct(Ids(newItems)) ==> remote.Items == Target(old(remote.Items), newItems)
  {
    var oldItems := remote.ToChatCtx();
    var ops := ComputeChatCtxDiff(oldItems, newItems);
    ScriptTransformsIff(oldItems, newItems);
    error := DeleteEach(remote, ops.toRemove);
    if error == None {
      error := InsertEach(remote, ops.toCreate, newItems);
    }
    if Distinct(Ids(newItems)) {
      ScriptTransforms(oldItems, newItems);
    }
  }
}
