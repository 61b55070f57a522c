/** `ChatContext` of agent/livekit/agents/llm/chat_context.py: the operations that keep it ordered by time. */
module ChatContexts {
  import opened Subsequences
  import opened ChatItems
  import opened ChatTimeline

  class ChatContext {
    var items: seq<ChatItem>

    constructor (items: seq<ChatItem>)
      ensures this.items == items
    {
      this.items := items;
    }

    /** `find_insertion_index`. */
    method FindInsertionIndex(createdAt: real) returns (k: nat)
      ensures k == InsertionIndex(items, createdAt)
    {
      var i := |items|;
      assert items[..i] == items;
      while i > 0
        invariant 0 <= i <= |items|
        invariant InsertionIndex(items[..i], createdAt) == InsertionIndex(items, createdAt)
      {
        i := i - 1;
        assert DropLast(items[..i + 1]) == items[..i];
        if items[i].createdAt <= createdAt {
          return i + 1;
        }
      }
      k := 0;
    }

    /** `list.insert` at the insertion index. */
    method InsertItem(item: ChatItem)
      modifies this
      ensures items == InsertOne(old(items), item)
    {
      var k := FindInsertionIndex(item.createdAt);
      items := items[..k] + [item] + items[k..];
    }

    /** `insert`. */
    method Insert(xs: seq<ChatItem>)
      modifies this
      ensures items == InsertMany(old(items), xs)
    {
      for i := 0 to |xs|
        invariant items == InsertMany(old(items), xs[..i])
      {
        assert xs[..i + 1] == xs[..i] + [xs[i]];
        InsertManySnoc(old(items), xs[..i], xs[i]);
        InsertItem(xs[i]);
      }
      assert xs[..|xs|] == xs;
    }

    /** `add_message`: without a time, the message goes to the end. */
    method AddMessage(message: ChatItem, timed: bool)
      modifies this
      ensures items == if timed then InsertOne(old(items), message) else old(items) + [message]
    {
      if timed {
        InsertItem(message);
      } else {
        items := items + [message];
      }
    }

    /** `merge`; `other` may be this very context, whose list the loop then reads as it is. */
    method Merge(other: ChatContext, ex: Exclude)
      modifies this
      ensures items == Merged(old(items), old(other.items), ex)
    {
      var existingIds := SetOf(Ids(items));
      ghost var list := other.items;
      var i := 0;
      while i < |other.items|
        invariant 0 <= i <= |other.items| && other.items == list
        invariant existingIds == SetOf(Ids(items))
        invariant items == Merged(old(items), list[..i], ex)
        invariant other == this ==> items == list
      {
        var item := other.items[i];
        assert list[..i + 1] == list[..i] + [item];
        MergedStep(old(items), list[..i], ex, item);
        i := i + 1;
        if ex.Skips(item) {
          continue;
        }
        if item.id !in existingIds {
          MemberId(other.items, item);
          InsertOneIds(items, item);
          InsertItem(item);
          existingIds := existingIds + {item.id};
        }
      }
      assert list[..|list|] == list;
    }
  }
}
