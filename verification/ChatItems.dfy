/** Chat items (agent/livekit/agents/llm/chat_context.py). */
module ChatItems {
  import opened Wrappers
  import opened Strings
  import opened Subsequences

  datatype Role = Developer | System | User | Assistant

  datatype Content = Text(text: string) | Image(url: string) | Audio(transcript: Option<string>)

  datatype ChatItem =
    | Message(id: string, role: Role, content: seq<Content>, interrupted: bool, createdAt: real)
    | FunctionCall(id: string, callId: string, name: string, arguments: string, createdAt: real)
    | FunctionCallOutput(id: string, callId: string, name: string, output: string, isError: bool, createdAt: real)
  {
    predicate IsInstruction() {
      Message? && (role == System || role == Developer)
    }

    /** The text parts joined by newlines, `None` when there is no text part. */
    function TextContent(): Option<string>
      requires Message?
    {
      var parts := TextParts(content);
      if parts == [] then None else Some(Join("\n", parts))
    }
  }

  function TextParts(content: seq<Content>): seq<string> {
    if content == [] then []
    else TextParts(DropLast(content)) + (if Last(content).Text? then [Last(content).text] else [])
  }

  function Ids(items: seq<ChatItem>): (ids: seq<string>)
    ensures |ids| == |items|
  {
    seq(|items|, i requires 0 <= i < |items| => items[i].id)
  }

  /** The first position holding `x`. */
  function IndexOf<T(==)>(s: seq<T>, x: T): (k: nat)
    requires x in s
    ensures k < |s| && s[k] == x
    ensures forall j :: 0 <= j < k ==> s[j] != x
  {
    if s[0] == x then 0 else IndexOf(s[1..], x) + 1
  }

  lemma IndexOfDistinct<T>(s: seq<T>, k: nat)
    requires Distinct(s) && k < |s|
    ensures IndexOf(s, s[k]) == k
  {
  }

  /** `ChatContext.get_by_id`: the first item with that id. */
  function GetById(items: seq<ChatItem>, id: string): Option<ChatItem> {
    if id in Ids(items) then Some(items[IndexOf(Ids(items), id)]) else None
  }
}
