/**
  The doubly linked list with an id index of agent/livekit/agents/llm/remote_chat_context.py, proved
  to implement the list edits of `ContextEdits`.
 */
module RemoteChatContext {
  import opened Wrappers
  import opened Subsequences
  import opened ChatItems
  import opened ContextEdits

  class RemoteChatItem {
    const item: ChatItem
    var prev: RemoteChatItem?
    var next: RemoteChatItem?

    constructor (item: ChatItem)
      ensures this.item == item && prev == null && next == null
    {
      this.item := item;
      prev, next := null, null;
    }
  }

  ghost function ItemsOf(nodes: seq<RemoteChatItem>): (items: seq<ChatItem>)
    ensures |items| == |nodes|
  {
    seq(|nodes|, i requires 0 <= i < |nodes| => nodes[i].item)
  }

  /** The ids are distinct and the index holds every node under its id, and nothing else. */
  ghost predicate Indexed(nodes: seq<RemoteChatItem>, index: map<string, RemoteChatItem>) {
    && Distinct(Ids(ItemsOf(nodes)))
    && (forall id :: id in index ==> index[id] in nodes && index[id].item.id == id)
    && (forall i :: 0 <= i < |nodes| ==> nodes[i].item.id in index)
  }

  /** Nodes, index, abstract items and footprint belong together. */
  ghost predicate Consistent(nodes: seq<RemoteChatItem>, index: map<string, RemoteChatItem>, items: seq<ChatItem>,
                             repr: set<object>) {
    Indexed(nodes, index) && items == ItemsOf(nodes) && forall n :: n in nodes ==> n in repr
  }

  ghost function Inserted<T>(s: seq<T>, k: nat, x: T): seq<T>
    requires k <= |s|
  {
    s[..k] + [x] + s[k..]
  }

  ghost function Removed<T>(s: seq<T>, k: nat): seq<T>
    requires k < |s|
  {
    s[..k] + s[k + 1..]
  }

  lemma InsertConsistent(before: seq<RemoteChatItem>, index: map<string, RemoteChatItem>, items: seq<ChatItem>,
                         repr: set<object>, newNode: RemoteChatItem, k: nat)
    requires Consistent(before, index, items, repr)
    requires k <= |before| && newNode.item.id !in Ids(items)
    ensures Consistent(Inserted(before, k, newNode), index[newNode.item.id := newNode],
                       Inserted(items, k, newNode.item), repr + {newNode})
  {
    var nodes := Inserted(before, k, newNode);
    assert Ids(ItemsOf(nodes)) == Inserted(Ids(items), k, newNode.item.id);
    forall n | n in before
      ensures n in nodes
    {
      var i :| 0 <= i < |before| && before[i] == n;
      assert nodes[if i < k then i else i + 1] == n;
    }
    assert nodes[k] == newNode;
  }

  lemma RemoveConsistent(before: seq<RemoteChatItem>, index: map<string, RemoteChatItem>, items: seq<ChatItem>,
                         repr: set<object>, k: nat)
    requires Consistent(before, index, items, repr) && k < |before|
    ensures Consistent(Removed(before, k), index - {before[k].item.id}, Removed(items, k), repr)
  {
    var nodes, after := Removed(before, k), index - {before[k].item.id};
    var ids := Ids(items);
    assert Ids(ItemsOf(nodes)) == Removed(ids, k);
    forall i | 0 <= i < |nodes|
      ensures nodes[i].item.id in after
    {
      var j := if i < k then i else i + 1;
      assert nodes[i] == before[j] && ids[j] != ids[k];
    }
    forall id | id in after
      ensures after[id] in nodes
    {
      var j :| 0 <= j < |before| && before[j] == index[id];
      assert nodes[if j < k then j else j - 1] == before[j];
    }
  }

  /** The index finds the node at its position. */
  lemma NodeAt(nodes: seq<RemoteChatItem>, index: map<string, RemoteChatItem>, id: string) returns (k: nat)
    requires Indexed(nodes, index)
    ensures id in index <==> id in Ids(ItemsOf(nodes))
    ensures id in index ==> k < |nodes| && nodes[k] == index[id] && k == IndexOf(Ids(ItemsOf(nodes)), id)
  {
    k := 0;
    var ids := Ids(ItemsOf(nodes));
    if id in index {
      k :| 0 <= k < |nodes| && nodes[k] == index[id];
      assert ids[k] == id;
      IndexOfDistinct(ids, k);
    }
    if id in ids {
      var i :| 0 <= i < |nodes| && ids[i] == id;
      assert nodes[i].item.id in index;
    }
  }

  class RemoteChatContext {
    var head: RemoteChatItem?
    var tail: RemoteChatItem?
    var idToItem: map<string, RemoteChatItem>
    ghost var nodes: seq<RemoteChatItem>
    ghost var Items: seq<ChatItem>
    ghost var Repr: set<object>

    /** Ends and pointers describe the sequence `nodes`. */
    ghost predicate Linked()
      reads `head, `tail, `nodes, nodes
    {
      && Distinct(nodes)
      && (head == if nodes == [] then null else nodes[0])
      && (tail == if nodes == [] then null else Last(nodes))
      && (forall i {:trigger nodes[i].prev} :: 0 <= i < |nodes| ==>
          nodes[i].prev == if i == 0 then null else nodes[i - 1])
      && (forall i {:trigger nodes[i].next} :: 0 <= i < |nodes| ==>
          nodes[i].next == if i == |nodes| - 1 then null else nodes[i + 1])
    }

    ghost predicate Valid()
      reads this, Repr
      ensures Valid() ==> this in Repr
    {
      && this in Repr
      && Consistent(nodes, idToItem, Items, Repr)
      && Linked()
    }

    constructor ()
      ensures Valid() && fresh(Repr) && Items == []
    {
      head, tail := null, null;
      idToItem := map[];
      nodes, Items := [], [];
      Repr := {this};
    }

    /** `to_chat_ctx`: follow the next pointers from the head. */
    method ToChatCtx() returns (items: seq<ChatItem>)
      requires Valid()
      ensures items == Items
    {
      items := [];
      var current := head;
      ghost var i := 0;
      while current != null
        invariant 0 <= i <= |nodes|
        invariant current == if i == |nodes| then null else nodes[i]
        invariant items == Items[..i]
        decreases |nodes| - i
      {
        items := items + [current.item];
        current := current.next;
        i := i + 1;
      }
    }

    /** `get`. */
    method Get(id: string) returns (node: RemoteChatItem?)
      requires Valid()
      ensures node == null <==> id !in Ids(Items)
      ensures node != null ==> node in nodes && Some(node.item) == GetById(Items, id)
    {
      ghost var k := NodeAt(nodes, idToItem, id);
      node := if id in idToItem then idToItem[id] else null;
    }

    /** `insert`: the error cases leave everything as it was. */
    method Insert(previousItemId: Option<string>, message: ChatItem) returns (error: Option<EditError>)
      requires Valid()
      modifies Repr
      ensures Valid() && fresh(Repr - old(Repr))
      ensures match InsertAfter(old(Items), previousItemId, message)
              case Ok(items) => error == None && Items == items
              case Rejected(e) => error == Some(e) && Items == old(Items)
    {
      ghost var k := NodeAt(nodes, idToItem, message.id);
      if message.id in idToItem {
        return Some(AlreadyExists(message.id));
      }
      if previousItemId == None {
        InsertHead(message);
        return None;
      }
      error := InsertAfterId(previousItemId.value, message);
    }

    /** The lookup of the previous item, and the insertion behind it. */
    method InsertAfterId(previousItemId: string, message: ChatItem) returns (error: Option<EditError>)
      requires Valid() && message.id !in Ids(Items)
      modifies Repr
      ensures Valid() && fresh(Repr - old(Repr))
      ensures match InsertAfter(old(Items), Some(previousItemId), message)
              case Ok(items) => error == None && Items == items
              case Rejected(e) => error == Some(e) && Items == old(Items)
    {
      ghost var k := NodeAt(nodes, idToItem, previousItemId);
      if previousItemId !in idToItem {
        return Some(NotFound(previousItemId));
      }
      InsertBehind(idToItem[previousItemId], message, k);
      return None;
    }

    method InsertHead(message: ChatItem)
      requires Valid() && message.id !in Ids(Items)
      modifies Repr
      ensures Valid() && fresh(Repr - old(Repr)) && Items == Inserted(old(Items), 0, message)
    {
      var newNode := new RemoteChatItem(message);
      InsertConsistent(nodes, idToItem, Items, Repr, newNode, 0);
      idToItem := idToItem[message.id := newNode];
      Items := Inserted(Items, 0, message);
      Repr := Repr + {newNode};
      LinkHead(newNode);
    }

    method InsertBehind(prevNode: RemoteChatItem, message: ChatItem, ghost k: nat)
      requires Valid() && message.id !in Ids(Items)
      requires k < |nodes| && nodes[k] == prevNode
      modifies Repr
      ensures Valid() && fresh(Repr - old(Repr)) && Items == Inserted(old(Items), k + 1, message)
    {
      var newNode := new RemoteChatItem(message);
      InsertConsistent(nodes, idToItem, Items, Repr, newNode, k + 1);
      idToItem := idToItem[message.id := newNode];
      Items := Inserted(Items, k + 1, message);
      Repr := Repr + {newNode};
      LinkBehind(prevNode, newNode, k);
    }

    method LinkHead(newNode: RemoteChatItem)
      requires Linked() && newNode !in nodes && newNode.prev == null && newNode.next == null
      modifies `head, `tail, `nodes, nodes, newNode
      ensures Linked() && nodes == Inserted(old(nodes), 0, newNode)
    {
      if head != null {
        newNode.next := head;
        head.prev := newNode;
      } else {
        tail := newNode;
      }
      head := newNode;
      nodes := Inserted(nodes, 0, newNode);
    }

    method LinkBehind(prevNode: RemoteChatItem, newNode: RemoteChatItem, ghost k: nat)
      requires Linked() && newNode !in nodes
      requires k < |nodes| && nodes[k] == prevNode
      modifies `head, `tail, `nodes, nodes, newNode
      ensures Linked() && nodes == Inserted(old(nodes), k + 1, newNode)
    {
      newNode.prev := prevNode;
      newNode.next := prevNode.next;
      prevNode.next := newNode;
      if newNode.next != null {
        newNode.next.prev := newNode;
      } else {
        tail := newNode;
      }
      ghost var before := nodes;
      nodes := Inserted(nodes, k + 1, newNode);
      forall i | 0 <= i < |nodes|
        ensures nodes[i].prev == (if i == 0 then null else nodes[i - 1])
        ensures nodes[i].next == (if i == |nodes| - 1 then null else nodes[i + 1])
      {
        assert i <= k ==> nodes[i] == before[i];
        assert i > k + 1 ==> nodes[i] == before[i - 1];
      }
    }

    /** `delete`. */
    method Delete(itemId: string) returns (error: Option<EditError>)
      requires Valid()
      modifies Repr
      ensures Valid() && Repr == old(Repr)
      ensures match DeleteId(old(Items), itemId)
              case Ok(items) => error == None && Items == items
              case Rejected(e) => error == Some(e) && Items == old(Items)
    {
      ghost var k := NodeAt(nodes, idToItem, itemId);
      if itemId !in idToItem {
        return Some(NotFound(itemId));
      }
      RemoveNode(idToItem[itemId], k);
      return None;
    }

    method RemoveNode(node: RemoteChatItem, ghost k: nat)
      requires Valid() && k < |nodes| && nodes[k] == node
      modifies Repr
      ensures Valid() && Repr == old(Repr) && Items == Removed(old(Items), k)
    {
      RemoveConsistent(nodes, idToItem, Items, Repr, k);
      idToItem := idToItem - {node.item.id};
      Items := Removed(Items, k);
      Unlink(node, k);
    }

    method Unlink(node: RemoteChatItem, ghost k: nat)
      requires Linked() && k < |nodes| && nodes[k] == node
      modifies `head, `tail, `nodes, nodes
      ensures Linked() && nodes == Removed(old(nodes), k)
    {
      var prevNode := node.prev;
      var nextNode := node.next;
      if head == node {
        head := nextNode;
        if head != null {
          head.prev := null;
        }
      } else if prevNode != null {
        prevNode.next := nextNode;
      }
      if tail == node {
        tail := prevNode;
        if tail != null {
          tail.next := null;
        }
      } else if nextNode != null {
        nextNode.prev := prevNode;
      }
      nodes := Removed(nodes, k);
    }
  }
}
