/** How the words of a segment are put together to tokens. */
module StreamGroups {
  import opened Strings
  import opened Subsequences
  import opened WordScanner
  import opened TokenStream
  import opened StreamLaws

  /** Long enough, and no earlier word made it so. */
  ghost predicate JustLong(minLen: nat, g: seq<string>) {
    g != [] && |Join(" ", g)| >= minLen && forall k :: 0 < k < |g| ==> |Join(" ", g[..k])| < minLen
  }

  ghost predicate TooShort(minLen: nat, g: seq<string>) {
    forall k :: 0 < k <= |g| ==> |Join(" ", g[..k])| < minLen
  }

  /** The words joined, group by group. */
  ghost predicate Joined(sent: seq<string>, groups: seq<seq<string>>) {
    |sent| == |groups| && forall i :: 0 <= i < |groups| ==> sent[i] == Join(" ", groups[i])
  }

  lemma JoinFilled(parts: seq<string>)
    requires Filled(parts)
    ensures Join(" ", parts) == "" <==> parts == []
  {
    if |parts| > 1 {
      assert |Join(" ", parts)| >= 1;
    }
  }

  lemma GlueIsJoin(open: seq<string>, t: string)
    requires Filled(open)
    ensures Glue(Join(" ", open), t) == Join(" ", open + [t])
  {
    JoinFilled(open);
    JoinSnoc(" ", open, t);
    if open == [] {
      assert "" + t == t;
    }
  }

  lemma OpenGrows(minLen: nat, open: seq<string>, t: string)
    requires TooShort(minLen, open)
    ensures if |Join(" ", open + [t])| >= minLen then JustLong(minLen, open + [t]) else TooShort(minLen, open + [t])
  {
    var g := open + [t];
    assert g[..|g|] == g;
    forall k | 0 < k < |g|
      ensures |Join(" ", g[..k])| < minLen
    {
      assert g[..k] == open[..k];
    }
  }

  ghost predicate Grouped(minLen: nat, tokens: seq<string>, g: Grouping, groups: seq<seq<string>>, open: seq<string>) {
    && Concat(groups) + open == tokens && Filled(open)
    && Joined(g.sent, groups) && g.held == Join(" ", open)
    && (forall i :: 0 <= i < |groups| ==> JustLong(minLen, groups[i])) && TooShort(minLen, open)
  }

  lemma StillOpen(minLen: nat, tokens: seq<string>, t: string, g: Grouping, groups: seq<seq<string>>, open: seq<string>)
    requires tokens != [] && t == Last(tokens) && Grouped(minLen, DropLast(tokens), g, groups, open)
    requires t != "" && |Glue(g.held, t)| < minLen
    ensures Grouped(minLen, tokens, Grouping(g.sent, Glue(g.held, t)), groups, open + [t])
  {
    GlueIsJoin(open, t);
    OpenGrows(minLen, open, t);
    assert tokens == DropLast(tokens) + [t] == Concat(groups) + (open + [t]);
  }

  lemma ConcatMore(tokens: seq<string>, groups: seq<seq<string>>, open: seq<string>, t: string)
    requires tokens != [] && t == Last(tokens) && Concat(groups) + open == DropLast(tokens)
    ensures Concat(groups + [open + [t]]) + [] == tokens
  {
    assert DropLast(groups + [open + [t]]) == groups;
    assert tokens == DropLast(tokens) + [t] == Concat(groups) + (open + [t]);
  }

  lemma GroupEnds(minLen: nat, tokens: seq<string>, t: string, g: Grouping, groups: seq<seq<string>>, open: seq<string>)
    requires tokens != [] && t == Last(tokens) && Grouped(minLen, DropLast(tokens), g, groups, open)
    requires t != "" && |Glue(g.held, t)| >= minLen
    ensures Grouped(minLen, tokens, Grouping(g.sent + [Glue(g.held, t)], ""), groups + [open + [t]], [])
  {
    GlueIsJoin(open, t);
    OpenGrows(minLen, open, t);
    ConcatMore(tokens, groups, open, t);
  }

  lemma NothingGrouped(minLen: nat)
    ensures Grouped(minLen, [], Grouping([], ""), [], [])
  {
  }

  lemma OneMore(minLen: nat, tokens: seq<string>, t: string, g: Grouping, groups: seq<seq<string>>, open: seq<string>)
    returns (next: Grouping, groups': seq<seq<string>>, open': seq<string>)
    requires tokens != [] && t == Last(tokens) && Grouped(minLen, DropLast(tokens), g, groups, open) && t != ""
    ensures next == if |Glue(g.held, t)| >= minLen then Grouping(g.sent + [Glue(g.held, t)], "")
                    else Grouping(g.sent, Glue(g.held, t))
    ensures Grouped(minLen, tokens, next, groups', open')
  {
    if |Glue(g.held, t)| >= minLen {
      GroupEnds(minLen, tokens, t, g, groups, open);
      next, groups', open' := Grouping(g.sent + [Glue(g.held, t)], ""), groups + [open + [t]], [];
    } else {
      StillOpen(minLen, tokens, t, g, groups, open);
      next, groups', open' := Grouping(g.sent, Glue(g.held, t)), groups, open + [t];
    }
  }

  /**
    The words fall into groups, each ended by the first word that makes it long enough, and a rest that is too
    short.
   */
  lemma {:induction false} Groups(minLen: nat, tokens: seq<string>)
    returns (groups: seq<seq<string>>, open: seq<string>)
    requires Filled(tokens)
    ensures Grouped(minLen, tokens, Group(minLen, tokens), groups, open)
  {
    if tokens == [] {
      groups, open := [], [];
      NothingGrouped(minLen);
    } else {
      groups, open := Groups(minLen, DropLast(tokens));
      var next;
      next, groups, open := OneMore(minLen, tokens, Last(tokens), Group(minLen, DropLast(tokens)), groups, open);
      assert next == Group(minLen, tokens);
    }
  }

  lemma RestJoined(sent: seq<string>, groups: seq<seq<string>>, open: seq<string>, held: string)
    requires Joined(sent, groups) && held == Join(" ", open) && Filled(open)
    ensures Joined(sent + (if held == "" then [] else [held]), groups + (if open == [] then [] else [open]))
  {
    JoinFilled(open);
  }

  /**
    The tokens of a segment: its words in groups joined by spaces, each group ended by the first word that makes it
    long enough, and a last one, too short, for the words that are left, if any.
   */
  lemma BatchIs(s: Settings, text: string) returns (groups: seq<seq<string>>, open: seq<string>)
    ensures Concat(groups) + open == Texts(Words(text, s.options))
    ensures Joined(Batch(s, text), groups + (if open == [] then [] else [open]))
    ensures (forall i :: 0 <= i < |groups| ==> JustLong(s.minTokenLen, groups[i])) && TooShort(s.minTokenLen, open)
  {
    WordsNonEmpty(text, s.options);
    var tokens := Texts(Words(text, s.options));
    groups, open := Groups(s.minTokenLen, tokens);
    var g := Group(s.minTokenLen, tokens);
    RestJoined(g.sent, groups, open, g.held);
  }
}
