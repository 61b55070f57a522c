/**
  `compute_chat_ctx_diff` (agent/livekit/agents/llm/utils.py): its edit script transforms the old
  context into the new one and is as short as any script can be.
 */
module ContextDiff {
  import opened Wrappers
  import opened Subsequences
  import opened ChatItems
  import opened Lcs
  import opened ContextEdits

  datatype DiffOps = DiffOps(
    toRemove: seq<string>,
    toCreate: seq<(Option<string>, string)>,
    toUpdate: seq<(Option<string>, string)>)

  /** `{item.id: item for item in items}`: the last item with an id wins. */
  function ById(items: seq<ChatItem>): map<string, ChatItem> {
    if items == [] then map[] else ById(DropLast(items))[Last(items).id := Last(items)]
  }

  lemma {:induction false} ByIdMembers(items: seq<ChatItem>)
    ensures forall id :: id in ById(items) <==> id in Ids(items)
    ensures forall id :: id in ById(items) ==> ById(items)[id] in items && ById(items)[id].id == id
    ensures Distinct(Ids(items)) ==> forall k :: 0 <= k < |items| ==> ById(items)[Ids(items)[k]] == items[k]
  {
    if items != [] {
      ByIdMembers(DropLast(items));
      assert Ids(items) == Ids(DropLast(items)) + [Last(items).id];
      assert items == DropLast(items) + [Last(items)];
    }
  }

  function Removed(items: seq<ChatItem>, kept: set<string>): seq<string> {
    if items == [] then []
    else Removed(DropLast(items), kept) + (if Last(items).id !in kept then [Last(items).id] else [])
  }

  function Created(items: seq<ChatItem>, kept: set<string>): seq<(Option<string>, string)> {
    if items == [] then []
    else
      Created(DropLast(items), kept) +
      (if Last(items).id !in kept then [(PrevId(DropLast(items)), Last(items).id)] else [])
  }

  /** Both sides are messages and their texts differ. */
  predicate TextDiffers(oldItem: ChatItem, newItem: ChatItem) {
    newItem.Message? && oldItem.Message? && newItem.TextContent() != oldItem.TextContent()
  }

  function Updated(items: seq<ChatItem>, kept: set<string>, oldById: map<string, ChatItem>)
    : seq<(Option<string>, string)>
    requires kept <= oldById.Keys
  {
    if items == [] then []
    else
      var last := Last(items);
      Updated(DropLast(items), kept, oldById) +
      (if last.id in kept && TextDiffers(oldById[last.id], last) then [(PrevId(DropLast(items)), last.id)] else [])
  }

  function KeptIds(oldItems: seq<ChatItem>, newItems: seq<ChatItem>): set<string> {
    SetOf(LcsOf(Ids(oldItems), Ids(newItems)))
  }

  lemma KeptIsCommon(oldItems: seq<ChatItem>, newItems: seq<ChatItem>)
    ensures forall id :: id in KeptIds(oldItems, newItems) ==> id in Ids(oldItems) && id in Ids(newItems)
    ensures KeptIds(oldItems, newItems) <= ById(oldItems).Keys
  {
    var lcs := LcsOf(Ids(oldItems), Ids(newItems));
    LcsCorrect(Ids(oldItems), Ids(newItems));
    SubseqMembers(lcs, Ids(oldItems));
    SubseqMembers(lcs, Ids(newItems));
    ByIdMembers(oldItems);
  }

  function Diff(oldItems: seq<ChatItem>, newItems: seq<ChatItem>): DiffOps {
    var kept := KeptIds(oldItems, newItems);
    KeptIsCommon(oldItems, newItems);
    DiffOps(Removed(oldItems, kept), Created(newItems, kept), Updated(newItems, kept, ById(oldItems)))
  }

  lemma PrefixItem(items: seq<ChatItem>, i: nat)
    requires i < |items|
    ensures Last(items[..i + 1]) == items[i] && DropLast(items[..i + 1]) == items[..i]
  {
  }

  method IdsOf(items: seq<ChatItem>) returns (ids: seq<string>)
    ensures ids == Ids(items)
  {
    ids := [];
    for i := 0 to |items|
      invariant ids == Ids(items[..i])
    {
      PrefixItem(items, i);
      ids := ids + [items[i].id];
    }
    assert items[..|items|] == items;
  }

  method IndexById(items: seq<ChatItem>) returns (byId: map<string, ChatItem>)
    ensures byId == ById(items)
  {
    byId := map[];
    for i := 0 to |items|
      invariant byId == ById(items[..i])
    {
      PrefixItem(items, i);
      byId := byId[items[i].id := items[i]];
    }
    assert items[..|items|] == items;
  }

  method CollectRemoved(items: seq<ChatItem>, kept: set<string>) returns (toRemove: seq<string>)
    ensures toRemove == Removed(items, kept)
  {
    toRemove := [];
    for i := 0 to |items|
      invariant toRemove == Removed(items[..i], kept)
    {
      PrefixItem(items, i);
      if items[i].id !in kept {
        toRemove := toRemove + [items[i].id];
      }
    }
    assert items[..|items|] == items;
  }

  /** `compute_chat_ctx_diff`. */
  method ComputeChatCtxDiff(oldItems: seq<ChatItem>, newItems: seq<ChatItem>) returns (ops: DiffOps)
    ensures ops == Diff(oldItems, newItems)
  {
    var oldIds := IdsOf(oldItems);
    var newIds := IdsOf(newItems);
    var lcs := ComputeLcs(oldIds, newIds);
    var kept := SetOf(lcs);
    var oldById := IndexById(oldItems);
    KeptIsCommon(oldItems, newItems);

    var toRemove := CollectRemoved(oldItems, kept);
    var toCreate: seq<(Option<string>, string)> := [];
    var toUpdate: seq<(Option<string>, string)> := [];
    var prevId: Option<string> := None;
    for i := 0 to |newItems|
      invariant prevId == PrevId(newItems[..i])
      invariant toCreate == Created(newItems[..i], kept)
      invariant toUpdate == Updated(newItems[..i], kept, oldById)
    {
      PrefixItem(newItems, i);
      var newMsg := newItems[i];
      if newMsg.id !in kept {
        toCreate := toCreate + [(prevId, newMsg.id)];
      } else {
        var oldMsg := oldById[newMsg.id];
        if newMsg.Message? && oldMsg.Message? {
          if newMsg.TextContent() != oldMsg.TextContent() {
            toUpdate := toUpdate + [(prevId, newMsg.id)];
          }
        }
      }
      prevId := Some(newMsg.id);
    }
    assert newItems[..|newItems|] == newItems;
    ops := DiffOps(toRemove, toCreate, toUpdate);
  }
}
