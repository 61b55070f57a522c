/** What the text of a message is, and when a diff reports it as changed. */
module ChatText {
  import opened Strings
  import opened Subsequences
  import opened Wrappers
  import opened ChatItems
  import opened Lcs
  import opened ContextDiff
  import opened DiffTransforms

  ghost predicate NoText(content: seq<Content>) {
    forall i :: 0 <= i < |content| ==> !content[i].Text?
  }

  lemma {:induction false} PartsOfNone(content: seq<Content>)
    ensures TextParts(content) == [] <==> NoText(content)
  {
    if content != [] {
      PartsOfNone(DropLast(content));
      assert NoText(content) <==> NoText(DropLast(content)) && !Last(content).Text?;
    }
  }

  /** There is no text exactly when no content is one. */
  lemma NoTextIff(m: ChatItem)
    requires m.Message?
    ensures m.TextContent() == None <==> NoText(m.content)
  {
    PartsOfNone(m.content);
  }

  /** A text behind others goes on a new line; the first one stands for itself. */
  lemma TextAppended(m: ChatItem, t: string)
    requires m.Message?
    ensures var longer := m.(content := m.content + [Text(t)]);
            if NoText(m.content) then longer.TextContent() == Some(t)
            else m.TextContent().Some? && longer.TextContent() == Some(m.TextContent().value + "\n" + t)
  {
    assert DropLast(m.content + [Text(t)]) == m.content;
    PartsOfNone(m.content);
    JoinSnoc("\n", TextParts(m.content), t);
  }

  /** Other content changes nothing. */
  lemma OtherAppended(m: ChatItem, c: Content)
    requires m.Message? && !c.Text?
    ensures m.(content := m.content + [c]).TextContent() == m.TextContent()
  {
    assert DropLast(m.content + [c]) == m.content;
    assert TextParts(m.content + [c]) == TextParts(m.content);
  }

  lemma {:induction false} OthersBehind(m: ChatItem, rest: seq<Content>)
    requires m.Message? && NoText(rest)
    ensures m.(content := m.content + rest).TextContent() == m.TextContent()
  {
    if rest == [] {
      assert m.content + rest == m.content;
    } else {
      OthersBehind(m, DropLast(rest));
      var front := m.(content := m.content + DropLast(rest));
      OtherAppended(front, Last(rest));
      assert front.content + [Last(rest)] == m.content + rest;
      assert front.(content := front.content + [Last(rest)]) == m.(content := m.content + rest);
    }
  }

  /** The one text of a message, whatever stands before and behind it. */
  ghost predicate OneText(m: ChatItem, t: string) {
    && m.Message?
    && exists k :: && 0 <= k < |m.content| && m.content[k] == Text(t)
                   && NoText(m.content[..k]) && NoText(m.content[k + 1..])
  }

  lemma OneTextBetween(m: ChatItem, before: seq<Content>, t: string, after: seq<Content>)
    requires m.Message? && m.content == before + [Text(t)] + after && NoText(before) && NoText(after)
    ensures m.TextContent() == Some(t)
  {
    var front := m.(content := before);
    TextAppended(front, t);
    var longer := front.(content := before + [Text(t)]);
    OthersBehind(longer, after);
    assert longer.(content := longer.content + after) == m;
  }

  lemma OneTextIs(m: ChatItem, t: string)
    requires OneText(m, t)
    ensures m.TextContent() == Some(t)
  {
    var k :| 0 <= k < |m.content| && m.content[k] == Text(t) && NoText(m.content[..k]) && NoText(m.content[k + 1..]);
    assert m.content == m.content[..k] + [Text(t)] + m.content[k + 1..];
    OneTextBetween(m, m.content[..k], t, m.content[k + 1..]);
  }

  /** The message behind an id of the old context: the last one with it. */
  ghost predicate LastWith(items: seq<ChatItem>, i: nat) {
    i < |items| && forall k :: i < k < |items| ==> items[k].id != items[i].id
  }

  lemma {:induction false} ByIdLast(items: seq<ChatItem>, i: nat)
    requires LastWith(items, i)
    ensures items[i].id in ById(items) && ById(items)[items[i].id] == items[i]
  {
    if i < |items| - 1 {
      assert LastWith(DropLast(items), i) && DropLast(items)[i] == items[i];
      ByIdLast(DropLast(items), i);
    }
  }

  lemma PositionUnique(ids: seq<string>, i: nat, j: nat)
    requires Distinct(ids) && i < |ids| && j < |ids| && ids[i] == ids[j]
    ensures i == j
  {
  }

  /**
    A pair of messages with one id and one text each: the diff reports the id, behind the id that stands
    before it, exactly when it is kept and the two texts are not the same.
   */
  lemma ChangedTextReported(oldItems: seq<ChatItem>, newItems: seq<ChatItem>, i: nat, j: nat, a: string, b: string)
    requires Distinct(Ids(newItems)) && LastWith(oldItems, i) && j < |newItems| && newItems[j].id == oldItems[i].id
    requires OneText(oldItems[i], a) && OneText(newItems[j], b)
    ensures (if j == 0 then None else Some(newItems[j - 1].id), newItems[j].id) in Diff(oldItems, newItems).toUpdate
       <==> newItems[j].id in LcsOf(Ids(oldItems), Ids(newItems)) && a != b
  {
    OneTextIs(oldItems[i], a);
    OneTextIs(newItems[j], b);
    ReportedIff(oldItems, newItems, i, j);
  }

  /** In general: exactly when it is kept, both are messages, and what `text_content` gives differs. */
  lemma ReportedIff(oldItems: seq<ChatItem>, newItems: seq<ChatItem>, i: nat, j: nat)
    requires Distinct(Ids(newItems)) && LastWith(oldItems, i) && j < |newItems| && newItems[j].id == oldItems[i].id
    ensures (if j == 0 then None else Some(newItems[j - 1].id), newItems[j].id) in Diff(oldItems, newItems).toUpdate
       <==> (&& newItems[j].id in LcsOf(Ids(oldItems), Ids(newItems)) && oldItems[i].Message? && newItems[j].Message?
             && oldItems[i].TextContent() != newItems[j].TextContent())
  {
    var pair := (if j == 0 then None else Some(newItems[j - 1].id), newItems[j].id);
    var kept, byId := KeptIds(oldItems, newItems), ById(oldItems);
    UpdatedExactly(oldItems, newItems, pair);
    ByIdLast(oldItems, i);
    assert NeedsUpdate(newItems, kept, byId, j, pair) <==>
           newItems[j].id in kept && TextDiffers(oldItems[i], newItems[j]);
    forall k | 0 <= k < |newItems| && NeedsUpdate(newItems, kept, byId, k, pair)
      ensures k == j
    {
      assert Ids(newItems)[k] == Ids(newItems)[j];
      PositionUnique(Ids(newItems), k, j);
    }
  }
}
