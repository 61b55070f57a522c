/** However a text is chunked, the stream emits what the whole text would give. */
module StreamLaws {
  import opened Strings
  import opened Subsequences
  import opened WordScanner
  import opened WordLaws
  import opened TokenStream

  /** Tokens sent and text still held back when words are glued together until long enough. */
  datatype Grouping = Grouping(sent: seq<string>, held: string)

  function Group(minLen: nat, tokens: seq<string>): Grouping {
    if tokens == [] then Grouping([], "")
    else
      var g := Group(minLen, DropLast(tokens));
      var out := Glue(g.held, Last(tokens));
      if |out| >= minLen then Grouping(g.sent + [out], "") else Grouping(g.sent, out)
  }

  /** The tokens one segment should give: its words, glued until long enough, and the rest. */
  function Batch(s: Settings, text: string): seq<string> {
    var g := Group(s.minTokenLen, Texts(Words(text, s.options)));
    g.sent + (if g.held == "" then [] else [g.held])
  }

  function Tag(segment: nat, tokens: seq<string>): seq<TokenData> {
    seq(|tokens|, i requires 0 <= i < |tokens| => TokenData(segment, tokens[i]))
  }

  /** `done` are the words taken off the front so far: whatever text follows, they and the buffer give its words. */
  ghost predicate Ahead(o: Options, text: string, done: seq<string>, inBuf: string) {
    forall more :: Texts(Words(text + more, o)) == done + Texts(Words(inBuf + more, o))
  }

  lemma TextsShift(words: seq<Word>, k: nat)
    ensures Texts(Shift(words, k)) == Texts(words)
  {
  }

  lemma TextsCons(w: Word, words: seq<Word>)
    ensures Texts([w] + words) == [w.text] + Texts(words)
  {
  }

  /** The first word of the buffer, the words behind it, and more text. */
  lemma FirstThenRest(o: Options, inBuf: string, more: string, w: Word, rest: string)
    requires |Words(inBuf, o)| >= 2 && w == Words(inBuf, o)[0] && w.end <= |inBuf| && rest == inBuf[w.end..]
    ensures Texts(Words(inBuf + more, o)) == [w.text] + Texts(Words(rest + more, o))
  {
    FirstStable(inBuf, more, o, 0, 0);
    CutFirst(inBuf + more, o);
    assert (inBuf + more)[w.end..] == rest + more;
    var words := Words(rest + more, o);
    TextsShift(words, w.end);
    TextsCons(w, Shift(words, w.end));
  }

  lemma Between<T>(a: seq<T>, x: T, b: seq<T>)
    ensures a + ([x] + b) == a + [x] + b
  {
  }

  lemma NothingBefore<T>(a: seq<T>)
    ensures [] + a == a
  {
  }

  /** The first word leaves the buffer: it can no longer change. */
  lemma AheadMoves(o: Options, text: string, done: seq<string>, inBuf: string)
    requires Ahead(o, text, done, inBuf) && |Words(inBuf, o)| >= 2
    ensures var w := Words(inBuf, o)[0];
            && 0 < w.end <= |inBuf| && w.text != ""
            && Ahead(o, text, done + [w.text], inBuf[w.end..])
  {
    var w := Words(inBuf, o)[0];
    CutFirst(inBuf, o);
    var rest := inBuf[w.end..];
    forall more
      ensures Texts(Words(text + more, o)) == done + [w.text] + Texts(Words(rest + more, o))
    {
      FirstThenRest(o, inBuf, more, w, rest);
      Between(done, w.text, Texts(Words(rest + more, o)));
    }
  }

  /** The stream in the middle of a segment whose text so far is `text`. */
  ghost predicate Follows(s: Settings, st: State, before: seq<TokenData>, text: string, done: seq<string>) {
    && Ahead(s.options, text, done, st.inBuf)
    && st.outBuf == Group(s.minTokenLen, done).held
    && st.events == before + Tag(st.segment, Group(s.minTokenLen, done).sent)
    && forall i :: 0 <= i < |done| ==> done[i] != ""
  }

  lemma TagSnoc(segment: nat, tokens: seq<string>, t: string)
    ensures Tag(segment, tokens + [t]) == Tag(segment, tokens) + [TokenData(segment, t)]
  {
  }

  lemma MoveFollows(s: Settings, st: State, before: seq<TokenData>, text: string, done: seq<string>)
    requires Follows(s, st, before, text, done) && |Words(st.inBuf, s.options)| >= 2
    ensures Words(st.inBuf, s.options)[0].end <= |st.inBuf|
    ensures Follows(s, MoveFirst(s, st), before, text, done + [Words(st.inBuf, s.options)[0].text])
  {
    var w := Words(st.inBuf, s.options)[0];
    AheadMoves(s.options, text, done, st.inBuf);
    assert DropLast(done + [w.text]) == done;
    TagSnoc(st.segment, Group(s.minTokenLen, done).sent, Glue(st.outBuf, w.text));
  }

  lemma {:induction false} DrainFollows(s: Settings, st: State, before: seq<TokenData>, text: string, done: seq<string>)
    returns (done': seq<string>)
    requires Follows(s, st, before, text, done)
    ensures Follows(s, Drain(s, st), before, text, done') && Drain(s, st).segment == st.segment
    ensures |Words(Drain(s, st).inBuf, s.options)| <= 1
    decreases |st.inBuf|
  {
    done' := done;
    if |Words(st.inBuf, s.options)| > 1 {
      CutFirst(st.inBuf, s.options);
      MoveFollows(s, st, before, text, done);
      done' := DrainFollows(s, MoveFirst(s, st), before, text, done + [Words(st.inBuf, s.options)[0].text]);
    }
  }

  lemma AheadGrows(o: Options, text: string, done: seq<string>, inBuf: string, chunk: string)
    requires Ahead(o, text, done, inBuf)
    ensures Ahead(o, text + chunk, done, inBuf + chunk)
  {
    forall more
      ensures Texts(Words(text + chunk + more, o)) == done + Texts(Words(inBuf + chunk + more, o))
    {
      assert text + chunk + more == text + (chunk + more);
      assert inBuf + chunk + more == inBuf + (chunk + more);
    }
  }

  lemma PushFollows(s: Settings, st: State, before: seq<TokenData>, text: string, done: seq<string>, chunk: string)
    returns (done': seq<string>)
    requires Follows(s, st, before, text, done)
    ensures Follows(s, Push(s, st, chunk), before, text + chunk, done')
    ensures Push(s, st, chunk).segment == st.segment
    ensures |Words(Push(s, st, chunk).inBuf, s.options)| <= 1 || |Push(s, st, chunk).inBuf| < s.minCtxLen
  {
    AheadGrows(s.options, text, done, st.inBuf, chunk);
    var grown := st.(inBuf := st.inBuf + chunk);
    done' := done;
    if |grown.inBuf| >= s.minCtxLen {
      done' := DrainFollows(s, grown, before, text + chunk, done);
    }
  }

  /** With nothing more to come, the words are the ones taken and the ones in the buffer. */
  lemma AheadEnds(o: Options, text: string, done: seq<string>, inBuf: string)
    requires Ahead(o, text, done, inBuf)
    ensures Texts(Words(text, o)) == done + Texts(Words(inBuf, o))
  {
    assert text + "" == text && inBuf + "" == inBuf;
  }

  // ----- exactly the words, when at most one is left to flush

  lemma OneWordLeft(s: Settings, st: State, before: seq<TokenData>, text: string, done: seq<string>)
    requires Follows(s, st, before, text, done) && |Words(st.inBuf, s.options)| <= 1
    ensures Flush(s, st).events == before + Tag(st.segment, Batch(s, text))
  {
    var o := s.options;
    AheadEnds(o, text, done, st.inBuf);
    var words := Words(st.inBuf, o);
    var g := Group(s.minTokenLen, done);
    if words == [] {
      assert Texts(Words(text, o)) == done;
      assert g.held == "" ==> Batch(s, text) == g.sent;
      TagSnoc(st.segment, g.sent, g.held);
    } else {
      var tok := words[0].text;
      assert Texts(words) == [tok];
      CutFirst(st.inBuf, o);
      assert DropLast(done + [tok]) == done;
      TagSnoc(st.segment, g.sent, Glue(g.held, tok));
      assert Batch(s, text) == g.sent + [Glue(g.held, tok)];
    }
  }

  // ----- the same words, joined, for every setting

  function Collected(g: Grouping): seq<string> {
    g.sent + (if g.held == "" then [] else [g.held])
  }

  lemma {:induction false} GroupJoins(minLen: nat, tokens: seq<string>)
    requires forall i :: 0 <= i < |tokens| ==> tokens[i] != ""
    ensures Join(" ", Collected(Group(minLen, tokens))) == Join(" ", tokens)
    ensures tokens == [] <==> Collected(Group(minLen, tokens)) == []
  {
    if tokens != [] {
      var front, t := DropLast(tokens), Last(tokens);
      var g := Group(minLen, front);
      GroupJoins(minLen, front);
      assert tokens == front + [t];
      JoinSnoc(" ", front, t);
      assert Collected(Group(minLen, tokens)) == g.sent + [Glue(g.held, t)];
      GlueJoins(g.sent, g.held, t);
      assert front == [] ==> Collected(g) == [];
    }
  }

  /** Glued or separate, the joined text is the same. */
  lemma GlueJoins(sent: seq<string>, held: string, t: string)
    ensures Join(" ", sent + [Glue(held, t)]) ==
            if Collected(Grouping(sent, held)) == [] then t else Join(" ", Collected(Grouping(sent, held))) + " " + t
  {
    JoinSnoc(" ", sent, Glue(held, t));
    JoinSnoc(" ", sent, held);
    assert sent + [] == sent;
    if held != "" && sent != [] {
      assert Join(" ", sent) + " " + (held + " " + t) == Join(" ", sent) + " " + held + " " + t;
    }
  }

  lemma FlushSends(s: Settings, st: State, before: seq<TokenData>, sent: seq<string>)
    requires st.events == before + Tag(st.segment, sent)
    ensures var r := Remainder(s, st);
            Flush(s, st).events == before + Tag(st.segment, sent + (if r == "" then [] else [r]))
  {
    var r := Remainder(s, st);
    TagSnoc(st.segment, sent, r);
    assert sent + [] == sent;
  }

  /** Words sent and held back, and the words of the rest, joined. */
  lemma RestJoins(g: Grouping, done: seq<string>, rest: seq<string>)
    requires rest != [] && Join(" ", Collected(g)) == Join(" ", done) && (done == [] <==> Collected(g) == [])
    ensures Join(" ", g.sent + [Glue(g.held, Join(" ", rest))]) == Join(" ", done + rest)
  {
    GlueJoins(g.sent, g.held, Join(" ", rest));
    assert Grouping(g.sent, g.held) == g;
    if done == [] {
      assert done + rest == rest;
    } else {
      JoinConcat(" ", done, rest);
    }
  }

  /** Whatever the settings, the tokens of a segment joined by spaces are its words joined by spaces. */
  lemma SegmentJoins(s: Settings, st: State, before: seq<TokenData>, text: string, done: seq<string>)
    returns (tokens: seq<string>)
    requires Follows(s, st, before, text, done)
    ensures Flush(s, st).events == before + Tag(st.segment, tokens)
    ensures Join(" ", tokens) == Join(" ", Texts(Words(text, s.options)))
  {
    var g := Group(s.minTokenLen, done);
    var rest := Texts(Words(st.inBuf, s.options));
    var r := Remainder(s, st);
    AheadEnds(s.options, text, done, st.inBuf);
    FlushSends(s, st, before, g.sent);
    GroupJoins(s.minTokenLen, done);
    tokens := g.sent + (if r == "" then [] else [r]);
    if rest == [] {
      assert done + rest == done && g.sent + [] == g.sent;
    } else {
      WordsNonEmpty(st.inBuf, s.options);
      JoinNonEmpty(rest);
      RestJoins(g, done, rest);
    }
  }

  lemma WordsNonEmpty(text: string, o: Options)
    ensures forall i :: 0 <= i < |Words(text, o)| ==> Texts(Words(text, o))[i] != ""
  {
    ScanInOrder(text, o, 0, 0);
  }

  lemma JoinNonEmpty(tokens: seq<string>)
    requires tokens != [] && forall i :: 0 <= i < |tokens| ==> tokens[i] != ""
    ensures Join(" ", tokens) != ""
  {
  }

  // ----- the flush glues all that is left: when that shows

  /** Glued twice is glued once. */
  lemma GlueTwice(held: string, a: string, b: string)
    requires a != ""
    ensures Glue(Glue(held, a), b) == Glue(held, a + " " + b)
  {
    if held != "" {
      assert held + " " + a + " " + b == held + " " + (a + " " + b);
    }
  }

  lemma GroupSnoc(minLen: nat, tokens: seq<string>, t: string)
    ensures var g, out := Group(minLen, tokens), Glue(Group(minLen, tokens).held, t);
            Group(minLen, tokens + [t]) ==
              if |out| >= minLen then Grouping(g.sent + [out], "") else Grouping(g.sent, out)
  {
    assert DropLast(tokens + [t]) == tokens;
  }

  ghost predicate Filled(tokens: seq<string>) {
    forall i :: 0 <= i < |tokens| ==> tokens[i] != ""
  }

  lemma GlueFront(held: string, rest: seq<string>)
    requires |rest| > 1 && Filled(rest)
    ensures Glue(held, Join(" ", rest)) == Glue(Glue(held, Join(" ", DropLast(rest))), Last(rest))
    ensures |Glue(held, Join(" ", DropLast(rest)))| < |Glue(held, Join(" ", rest))|
  {
    JoinNonEmpty(DropLast(rest));
    GlueTwice(held, Join(" ", DropLast(rest)), Last(rest));
  }

  lemma ShortStep(minLen: nat, tokens: seq<string>, g: Grouping, t: string, all: seq<string>)
    requires Group(minLen, tokens) == g && all == tokens + [t] && |Glue(g.held, t)| < minLen
    ensures Group(minLen, all) == Grouping(g.sent, Glue(g.held, t))
  {
    GroupSnoc(minLen, tokens, t);
  }

  /** As long as what is glued is too short, nothing is sent. */
  lemma {:induction false} StillShort(minLen: nat, done: seq<string>, rest: seq<string>)
    requires rest != [] && Filled(rest) && |Glue(Group(minLen, done).held, Join(" ", rest))| < minLen
    ensures Group(minLen, done + rest) ==
            Grouping(Group(minLen, done).sent, Glue(Group(minLen, done).held, Join(" ", rest)))
  {
    var g := Group(minLen, done);
    var front, t := DropLast(rest), Last(rest);
    if front == [] {
      ShortStep(minLen, done, g, t, done + rest);
    } else {
      GlueFront(g.held, rest);
      StillShort(minLen, done, front);
      ShortStep(minLen, done + front, Grouping(g.sent, Glue(g.held, Join(" ", front))), t, done + rest);
    }
  }

  lemma {:induction false} SentStays(minLen: nat, done: seq<string>, rest: seq<string>)
    ensures |Group(minLen, done + rest).sent| >= |Group(minLen, done).sent|
  {
    if rest == [] {
      assert done + rest == done;
    } else {
      assert done + rest == done + DropLast(rest) + [Last(rest)];
      GroupSnoc(minLen, done + DropLast(rest), Last(rest));
      SentStays(minLen, done, DropLast(rest));
    }
  }

  /** Once it is long enough, something has been sent. */
  lemma {:induction false} LongIsSent(minLen: nat, done: seq<string>, rest: seq<string>)
    requires rest != [] && Filled(rest) && |Glue(Group(minLen, done).held, Join(" ", rest))| >= minLen
    ensures |Group(minLen, done + rest).sent| > |Group(minLen, done).sent|
  {
    var front, t := DropLast(rest), Last(rest);
    assert done + rest == done + front + [t];
    GroupSnoc(minLen, done + front, t);
    if front == [] {
      assert done + front == done;
    } else {
      GlueFront(Group(minLen, done).held, rest);
      if |Glue(Group(minLen, done).held, Join(" ", front))| >= minLen {
        LongIsSent(minLen, done, front);
      } else {
        StillShort(minLen, done, front);
      }
    }
  }

  /**
    A flush lumps together what the whole text would give in several tokens: more than one word is left, and
    all but the last are long enough to be sent.
   */
  predicate Lumps(s: Settings, st: State) {
    var rest := Texts(Words(st.inBuf, s.options));
    |rest| > 1 && |Glue(st.outBuf, Join(" ", DropLast(rest)))| >= s.minTokenLen
  }

  /** Several words left, too short to be sent before the last: glued now or glued one by one. */
  lemma ShortRest(minLen: nat, done: seq<string>, rest: seq<string>)
    requires |rest| > 1 && Filled(rest) && |Glue(Group(minLen, done).held, Join(" ", DropLast(rest)))| < minLen
    ensures Collected(Group(minLen, done + rest)) ==
            Group(minLen, done).sent + [Glue(Group(minLen, done).held, Join(" ", rest))]
  {
    StillShort(minLen, done, DropLast(rest));
    GlueFront(Group(minLen, done).held, rest);
    assert done + rest == done + DropLast(rest) + [Last(rest)];
    GroupSnoc(minLen, done + DropLast(rest), Last(rest));
    assert forall x: seq<string> :: x + [] == x;
  }

  lemma LongRest(minLen: nat, done: seq<string>, rest: seq<string>)
    requires |rest| > 1 && Filled(rest) && |Glue(Group(minLen, done).held, Join(" ", DropLast(rest)))| >= minLen
    ensures |Collected(Group(minLen, done + rest))| > |Group(minLen, done).sent| + 1
  {
    LongIsSent(minLen, done, DropLast(rest));
    assert done + rest == done + DropLast(rest) + [Last(rest)];
    GroupSnoc(minLen, done + DropLast(rest), Last(rest));
  }

  /** A flush gives what the whole text gives, if and only if it does not lump; if it does, it gives fewer tokens. */
  lemma FlushMatchesIff(s: Settings, st: State, before: seq<TokenData>, text: string, done: seq<string>)
    requires Follows(s, st, before, text, done)
    ensures Flush(s, st).events == before + Tag(st.segment, Batch(s, text)) <==> !Lumps(s, st)
    ensures Lumps(s, st) ==> |Flush(s, st).events| < |before| + |Batch(s, text)|
  {
    var g := Group(s.minTokenLen, done);
    var rest := Texts(Words(st.inBuf, s.options));
    if |rest| <= 1 {
      OneWordLeft(s, st, before, text, done);
    } else {
      AheadEnds(s.options, text, done, st.inBuf);
      WordsNonEmpty(st.inBuf, s.options);
      JoinNonEmpty(rest);
      FlushSends(s, st, before, g.sent);
      if Lumps(s, st) {
        LongRest(s.minTokenLen, done, rest);
      } else {
        ShortRest(s.minTokenLen, done, rest);
      }
    }
  }

  // ----- whole runs

  datatype Op = PushOp(chunk: string) | FlushOp

  function Step(s: Settings, st: State, op: Op): State {
    match op
    case PushOp(chunk) => Push(s, st, chunk)
    case FlushOp => Flush(s, st)
  }

  function Run(s: Settings, ops: seq<Op>): State {
    if ops == [] then INITIAL else Step(s, Run(s, DropLast(ops)), Last(ops))
  }

  /** The chunks pushed since the last flush, put together. */
  function OpenText(ops: seq<Op>): string {
    if ops == [] then ""
    else match Last(ops)
      case PushOp(chunk) => OpenText(DropLast(ops)) + chunk
      case FlushOp => ""
  }

  function Flushes(ops: seq<Op>): nat {
    if ops == [] then 0 else Flushes(DropLast(ops)) + (if Last(ops).FlushOp? then 1 else 0)
  }

  /** What the flushed segments should have given, each from its whole text. */
  function Expected(s: Settings, ops: seq<Op>): seq<TokenData> {
    if ops == [] then []
    else
      var front := DropLast(ops);
      if Last(ops).PushOp? then Expected(s, front)
      else Expected(s, front) + Tag(Flushes(front), Batch(s, OpenText(front)))
  }

  /** No flush of the run lumps. */
  predicate NoLump(s: Settings, ops: seq<Op>) {
    ops == [] || (NoLump(s, DropLast(ops)) && (Last(ops).FlushOp? ==> !Lumps(s, Run(s, DropLast(ops)))))
  }

  lemma {:induction false} RunFollows(s: Settings, ops: seq<Op>) returns (before: seq<TokenData>, done: seq<string>)
    ensures Follows(s, Run(s, ops), before, OpenText(ops), done)
    ensures Run(s, ops).segment == Flushes(ops)
    ensures ops == [] || Last(ops).FlushOp? ==> done == []
    ensures if NoLump(s, ops) then before == Expected(s, ops) else |before| < |Expected(s, ops)|
    ensures |Words(Run(s, ops).inBuf, s.options)| <= 1 || |Run(s, ops).inBuf| < s.minCtxLen
  {
    if ops == [] {
      before, done := [], [];
    } else {
      var st := Run(s, DropLast(ops));
      var text := OpenText(DropLast(ops));
      before, done := RunFollows(s, DropLast(ops));
      match Last(ops)
      case PushOp(chunk) =>
        done := PushFollows(s, st, before, text, done, chunk);
      case FlushOp =>
        FlushMatchesIff(s, st, before, text, done);
        FlushAtMost(s, st, before, text, done);
        before, done := Flush(s, st).events, [];
    }
  }

  lemma FlushAtMost(s: Settings, st: State, before: seq<TokenData>, text: string, done: seq<string>)
    requires Follows(s, st, before, text, done)
    ensures |Flush(s, st).events| <= |before| + |Batch(s, text)|
  {
    FlushMatchesIff(s, st, before, text, done);
  }

  /**
    When chunking shows: whatever the settings and the run of pushes and flushes, the flushed segments have
    emitted exactly what each segment's whole text gives, tagged with its segment, in order, if and only if
    no flush lumped.
   */
  lemma ChunkingShowsIff(s: Settings, ops: seq<Op>)
    requires ops != [] && Last(ops).FlushOp?
    ensures Run(s, ops).events == Expected(s, ops) <==> NoLump(s, ops)
  {
    var before, done := RunFollows(s, ops);
    assert Tag(Flushes(ops), []) == [];
  }

  // ----- for which settings it never shows

  /**
    The longest context for which no flush can find two words: two that are one character each, or that a space
    separates.
   */
  function SafeContext(o: Options): nat {
    if o.splitCharacter then 2 else 3
  }

  lemma ShortText(text: string, o: Options)
    requires |text| < SafeContext(o)
    ensures |Words(text, o)| <= 1
  {
    var words := Words(text, o);
    ScanInOrder(text, o, 0, 0);
    if |words| > 1 {
      assert words[0].end <= words[1].start;
      assert words[0] in words && words[1] in words;
      WordsExactly(text, o, words[0]);
      WordsExactly(text, o, words[1]);
    }
  }

  lemma {:induction false} NeverLumps(s: Settings, ops: seq<Op>)
    requires s.minCtxLen <= SafeContext(s.options)
    ensures NoLump(s, ops)
  {
    if ops != [] {
      NeverLumps(s, DropLast(ops));
      var before, done := RunFollows(s, DropLast(ops));
      var inBuf := Run(s, DropLast(ops)).inBuf;
      if |inBuf| < s.minCtxLen {
        ShortText(inBuf, s.options);
      }
    }
  }

  /** For such a context length chunking is invisible, in every run and for every token length. */
  lemma ChunkingInvisible(s: Settings, ops: seq<Op>)
    requires s.minCtxLen <= SafeContext(s.options) && ops != [] && Last(ops).FlushOp?
    ensures Run(s, ops).events == Expected(s, ops)
  {
    NeverLumps(s, ops);
    ChunkingShowsIff(s, ops);
  }

  // ----- and for which it does

  /** The words of two characters with a blank between them. */
  lemma BlankBetween(x: char, y: char, o: Options)
    requires !Breaks(x, o) && !Breaks(y, o) && Clean([x], o) == [x] && Clean([y], o) == [y]
    ensures Words([x, ' ', y], o) == [Word([x], 0, 1), Word([y], 2, 3)]
  {
    var text := [x, ' ', y];
    assert text[0..1] == [x] && text[2..3] == [y];
    ScanNext(text, o, 0, 0);
    ScanNext(text, o, 1, 0);
    ScanNext(text, o, 2, 2);
    assert Next(text, o, 0, 0) == 0 && Next(text, o, 1, 0) == 2 && Next(text, o, 2, 2) == 2;
    assert CommitsAt(text, o, 0, 0) == [] && CommitsAt(text, o, 1, 0) == [Word([x], 0, 1)] &&
           CommitsAt(text, o, 2, 2) == [];
    assert Scan(text, o, 3, 2) == [Word([y], 2, 3)];
  }

  /** The words of two characters that are words of their own. */
  lemma SideBySide(x: char, y: char, o: Options)
    requires o.splitCharacter && IsCharBased(x) && IsCharBased(y) && !IsSpace(x) && !IsSpace(y)
    requires Clean([x], o) == [x] && Clean([y], o) == [y]
    ensures Words([x, y], o) == [Word([x], 0, 1), Word([y], 1, 2)]
  {
    var text := [x, y];
    assert text[0..1] == [x] && text[1..2] == [y];
    ScanNext(text, o, 0, 0);
    ScanNext(text, o, 1, 1);
    assert Next(text, o, 0, 0) == 1 && Next(text, o, 1, 1) == 2;
    assert CommitsAt(text, o, 0, 0) == [Word([x], 0, 1)] && CommitsAt(text, o, 1, 1) == [Word([y], 1, 2)];
    EmptyCommit(text, o, 2);
    assert Scan(text, o, 2, 2) == [];
  }

  /** Two words that fit below the context length, pushed and flushed: one token, where the text gives two. */
  lemma TwoWordsLump(s: Settings, text: string, x: Word, y: Word, ops: seq<Op>)
    requires s.minTokenLen <= 1 && |text| < s.minCtxLen && Words(text, s.options) == [x, y] && x.text != ""
    requires ops == [PushOp(text), FlushOp]
    ensures Run(s, ops).events != Expected(s, ops)
  {
    var push := [PushOp(text)];
    assert DropLast(push) == [] && DropLast(ops) == push && "" + text == text;
    assert Run(s, push) == INITIAL.(inBuf := text);
    assert Texts([x, y]) == [x.text, y.text] && DropLast([x.text, y.text]) == [x.text];
    assert Lumps(s, Run(s, push));
    assert !NoLump(s, ops);
    ChunkingShowsIff(s, ops);
  }

  /** Cleaning leaves letters alone, and the ideograph used here. */
  lemma CleanOne(c: char, ignorePunctuation: bool, splitCharacter: bool)
    requires c !in PUNCTUATIONS
    ensures Clean([c], OptionsOf(ignorePunctuation, splitCharacter)) == [c]
  {
    assert Strip([c]) == [c] + Strip([c][1..]) && [c][1..] == "";
  }

  /**
    When single words are sent, as in a word stream, chunking never shows if and only if the context length is
    at most 3, or 2 when characters can be words of their own.
   */
  lemma ChunkingThreshold(s: Settings, ignorePunctuation: bool)
    requires s.minTokenLen <= 1 && s.options == OptionsOf(ignorePunctuation, s.options.splitCharacter)
    ensures (forall ops: seq<Op> :: ops != [] && Last(ops).FlushOp? ==> Run(s, ops).events == Expected(s, ops))
            <==> s.minCtxLen <= SafeContext(s.options)
  {
    if s.minCtxLen <= SafeContext(s.options) {
      forall ops: seq<Op> | ops != [] && Last(ops).FlushOp?
        ensures Run(s, ops).events == Expected(s, ops)
      {
        ChunkingInvisible(s, ops);
      }
    } else {
      var ops := ShowsUp(s, ignorePunctuation);
      assert Run(s, ops).events != Expected(s, ops);
    }
  }

  lemma PlainLetter(o: Options)
    ensures !Breaks('a', o)
  {
  }

  lemma LetterClean(ignorePunctuation: bool, o: Options)
    requires o == OptionsOf(ignorePunctuation, false)
    ensures Clean(['a'], o) == ['a']
  {
    CleanOne('a', ignorePunctuation, false);
  }

  lemma IdeographClean(ignorePunctuation: bool, o: Options)
    requires o == OptionsOf(ignorePunctuation, true)
    ensures Clean(['\U{4e00}'], o) == ['\U{4e00}']
  {
    CleanOne('\U{4e00}', ignorePunctuation, true);
  }

  lemma TwoWordsFound(ignorePunctuation: bool, o: Options) returns (x: Word, y: Word)
    requires o == OptionsOf(ignorePunctuation, o.splitCharacter)
    ensures Words(TwoWords(o.splitCharacter), o) == [x, y] && x.text != ""
  {
    if o.splitCharacter {
      IdeographClean(ignorePunctuation, o);
      SideBySide('\U{4e00}', '\U{4e00}', o);
      x, y := Word(['\U{4e00}'], 0, 1), Word(['\U{4e00}'], 1, 2);
    } else {
      LetterClean(ignorePunctuation, o);
      PlainLetter(o);
      BlankBetween('a', 'a', o);
      x, y := Word(['a'], 0, 1), Word(['a'], 2, 3);
    }
  }

  /** `a a`, or an ideograph twice where it is a word of its own. */
  function TwoWords(splitCharacter: bool): string {
    if splitCharacter then ['\U{4e00}', '\U{4e00}'] else ['a', ' ', 'a']
  }

  /** The failing runs: these two words, pushed and flushed. */
  lemma ShowsUp(s: Settings, ignorePunctuation: bool) returns (ops: seq<Op>)
    requires s.minTokenLen <= 1 && s.options == OptionsOf(ignorePunctuation, s.options.splitCharacter)
    requires s.minCtxLen > SafeContext(s.options)
    ensures ops == [PushOp(TwoWords(s.options.splitCharacter)), FlushOp]
    ensures Run(s, ops).events != Expected(s, ops)
  {
    var x, y := TwoWordsFound(ignorePunctuation, s.options);
    ops := [PushOp(TwoWords(s.options.splitCharacter)), FlushOp];
    TwoWordsLump(s, TwoWords(s.options.splitCharacter), x, y, ops);
  }

  /** `WordTokenizer.stream`: with both lengths 1, what a segment gives is just its words. */
  lemma WordStreamBatch(s: Settings, text: string)
    requires s.minTokenLen <= 1
    ensures Batch(s, text) == Texts(Words(text, s.options))
  {
    WordsNonEmpty(text, s.options);
    GroupSingles(s.minTokenLen, Texts(Words(text, s.options)));
  }

  lemma {:induction false} GroupSingles(minLen: nat, tokens: seq<string>)
    requires minLen <= 1 && forall i :: 0 <= i < |tokens| ==> tokens[i] != ""
    ensures Group(minLen, tokens) == Grouping(tokens, "")
  {
    if tokens != [] {
      GroupSingles(minLen, DropLast(tokens));
      assert Glue("", Last(tokens)) == Last(tokens);
      assert tokens == DropLast(tokens) + [Last(tokens)];
    }
  }

  // ----- one segment under any settings

  function PushAll(s: Settings, st: State, chunks: seq<string>): State {
    if chunks == [] then st else Push(s, PushAll(s, st, DropLast(chunks)), Last(chunks))
  }

  lemma {:induction false} PushAllFollows(s: Settings, chunks: seq<string>) returns (done: seq<string>)
    ensures Follows(s, PushAll(s, INITIAL, chunks), [], Concat(chunks), done)
    ensures PushAll(s, INITIAL, chunks).segment == 0
    ensures |Words(PushAll(s, INITIAL, chunks).inBuf, s.options)| <= 1 ||
            |PushAll(s, INITIAL, chunks).inBuf| < s.minCtxLen
  {
    if chunks == [] {
      done := [];
    } else {
      done := PushAllFollows(s, DropLast(chunks));
      done := PushFollows(s, PushAll(s, INITIAL, DropLast(chunks)), [], Concat(DropLast(chunks)), done, Last(chunks));
    }
  }

  /** The word stream: for every chunking of a text, pushing the chunks and flushing emits exactly its words. */
  lemma EmitsExactlyTheWords(o: Options, chunks: seq<string>)
    ensures var s := Settings(o, 1, 1);
            Flush(s, PushAll(s, INITIAL, chunks)).events == Tag(0, Texts(Words(Concat(chunks), o)))
  {
    var s := Settings(o, 1, 1);
    var done := PushAllFollows(s, chunks);
    if PushAll(s, INITIAL, chunks).inBuf == "" {
      ShortText("", o);
    }
    OneWordLeft(s, PushAll(s, INITIAL, chunks), [], Concat(chunks), done);
    WordStreamBatch(s, Concat(chunks));
    NothingBefore(Tag(0, Texts(Words(Concat(chunks), o))));
  }

  /** For every setting and chunking, the emitted tokens joined by spaces are the words joined by spaces. */
  lemma WordsPreserved(s: Settings, chunks: seq<string>) returns (tokens: seq<string>)
    ensures Flush(s, PushAll(s, INITIAL, chunks)).events == Tag(0, tokens)
    ensures Join(" ", tokens) == Join(" ", Texts(Words(Concat(chunks), s.options)))
  {
    var st := PushAll(s, INITIAL, chunks);
    var done := PushAllFollows(s, chunks);
    tokens := SegmentJoins(s, st, [], Concat(chunks), done);
    NothingBefore(Tag(0, tokens));
  }
}
