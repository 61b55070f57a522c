/** `replace_words` on a stream: for every chunking, the yields put together are the batch result. */
module ReplaceStream {
  import opened Strings
  import opened Subsequences
  import opened WordScanner
  import opened WordLaws
  import opened ReplaceWords

  /** `all` is `w` with `words` behind it, the latter found in the text cut off at the end of `w`. */
  ghost predicate Behind(text: string, w: Word, cut: string, words: seq<Word>, all: seq<Word>) {
    && w.end <= |text| && cut == text[w.end..]
    && WordsIn(cut, words) && WordsIn(text, all)
    && all == [w] + Shift(words, w.end)
  }

  lemma BehindAt(text: string, w: Word, cut: string, words: seq<Word>, all: seq<Word>, h: nat, i: nat)
    requires Behind(text, w, cut, words, all) && h < |words| && i == h + 1
    ensures EndAt(words, h) <= words[h].start <= words[h].end <= |cut|
    ensures i < |all| && EndAt(all, i) == EndAt(words, h) + w.end <= all[i].start <= |text|
    ensures text[EndAt(all, i)..all[i].start] == cut[EndAt(words, h)..words[h].start]
    ensures all[i].text == words[h].text
  {
    assert Fits(cut, words, h) && Fits(text, all, i);
    assert all[i] == Word(words[h].text, words[h].start + w.end, words[h].end + w.end);
    assert h > 0 ==> all[h] == Word(words[h - 1].text, words[h - 1].start + w.end, words[h - 1].end + w.end);
    CutSlice(text, cut, w.end, EndAt(words, h), words[h].start);
  }

  /** One more word rebuilt on both sides; `h`, `i` and `j` are successive. */
  lemma ConsStep(t: Table, text: string, w: Word, cut: string, words: seq<Word>, all: seq<Word>, h: nat, i: nat, j: nat,
                 first: string, here: string, there: string)
    requires Behind(text, w, cut, words, all) && h < |words| && i == h + 1 && j == i + 1
    requires here == UpTo(t, cut, words, h) && i <= |all| && there == UpTo(t, text, all, i) && there == first + here
    ensures j <= |all| && UpTo(t, text, all, j) == first + UpTo(t, cut, words, i)
  {
    BehindAt(text, w, cut, words, all, h, i);
    var gap, r := cut[EndAt(words, h)..words[h].start], ReplaceOne(t, words[h].text);
    UpToStep(t, text, all, i, j, there, gap, r);
    UpToStep(t, cut, words, h, i, here, gap, r);
    Assemble3(first, here, gap, r);
  }

  lemma BehindFirst(text: string, w: Word, cut: string, words: seq<Word>, all: seq<Word>)
    requires Behind(text, w, cut, words, all)
    ensures w.start <= w.end <= |text| && |all| == |words| + 1 && all[0] == w
  {
    assert Fits(text, all, 0);
  }

  lemma ConsFirst(t: Table, text: string, w: Word, cut: string, words: seq<Word>, all: seq<Word>, first: string)
    requires Behind(text, w, cut, words, all) && w.start <= w.end <= |text| &&
             first == text[..w.start] + ReplaceOne(t, w.text)
    ensures |all| >= 1 && UpTo(t, text, all, 1) == first + UpTo(t, cut, words, 0)
  {
    BehindFirst(text, w, cut, words, all);
    FirstRebuilt(t, text, all);
  }

  /** Rebuilding behind a first word, `first` with its gap, is rebuilding the text cut off there. */
  lemma {:induction false} RebuildCons(t: Table, text: string, w: Word, cut: string, words: seq<Word>, all: seq<Word>,
                                       i: nat, j: nat, first: string)
    requires Behind(text, w, cut, words, all) && i <= |words| && j == i + 1
    requires w.start <= w.end <= |text| && first == text[..w.start] + ReplaceOne(t, w.text)
    ensures j <= |all| && UpTo(t, text, all, j) == first + UpTo(t, cut, words, i)
  {
    if i == 0 {
      ConsFirst(t, text, w, cut, words, all, first);
    } else {
      var h := i - 1;
      RebuildCons(t, text, w, cut, words, all, h, i, first);
      ConsStep(t, text, w, cut, words, all, h, i, j, first, UpTo(t, cut, words, h), UpTo(t, text, all, i));
    }
  }

  lemma EndBehind(text: string, w: Word, cut: string, words: seq<Word>, all: seq<Word>)
    requires Behind(text, w, cut, words, all)
    ensures |all| == |words| + 1 && EndAt(words, |words|) <= |cut|
    ensures EndAt(all, |all|) == EndAt(words, |words|) + w.end <= |text|
    ensures text[EndAt(all, |all|)..] == cut[EndAt(words, |words|)..]
  {
    EndInText(cut, words, |words|);
    assert words != [] ==> Last(all) == Word(Last(words).text, Last(words).start + w.end, Last(words).end + w.end);
    var e := EndAt(words, |words|);
    assert text[e + w.end..] == text[w.end..][e..];
  }

  lemma FirstRebuilt(t: Table, text: string, words: seq<Word>)
    requires WordsIn(text, words) && words != []
    ensures words[0].start <= |text| &&
            UpTo(t, text, words, 1) == text[..words[0].start] + ReplaceOne(t, words[0].text) + ""
  {
    assert Fits(text, words, 0);
    var gap, r := text[..words[0].start], ReplaceOne(t, words[0].text);
    assert text[EndAt(words, 0)..words[0].start] == gap;
    assert UpTo(t, text, words, 0) + gap == gap;
    assert gap + r + "" == gap + r;
  }

  lemma CutSlice(text: string, cut: string, k: nat, i: nat, j: nat)
    requires k <= |text| && cut == text[k..] && i <= j <= |cut|
    ensures cut[i..j] == text[i + k..j + k]
  {
  }

  lemma Assemble3(a: string, x: string, gap: string, r: string)
    ensures (a + x) + gap + r == a + (x + gap + r)
  {
  }

  lemma Assemble(a: string, b: string, c: string, d: string)
    ensures (a + b + c) + d == a + b + (c + d)
  {
  }

  /** The first word of a text and what follows it are replaced separately. */
  lemma PeelFirst(t: Table, text: string)
    requires Words(text, PLAIN) != []
    ensures var w := Words(text, PLAIN)[0];
            && w.start <= w.end <= |text|
            && ReplaceAll(t, text) == text[..w.start] + ReplaceOne(t, w.text) + ReplaceAll(t, text[w.end..])
  {
    var w := Words(text, PLAIN)[0];
    CutFirst(text, PLAIN);
    var rest := text[w.end..];
    var words := Words(rest, PLAIN);
    AllWordsIn(text);
    AllWordsIn(rest);
    BehindFirst(text, w, rest, words, Words(text, PLAIN));
    RebuildCons(t, text, w, rest, words, Words(text, PLAIN), |words|, |words| + 1,
                text[..w.start] + ReplaceOne(t, w.text));
    EndBehind(text, w, rest, words, Words(text, PLAIN));
    Assemble(text[..w.start], ReplaceOne(t, w.text), UpTo(t, rest, words, |words|), rest[EndAt(words, |words|)..]);
  }

  /** A first word with a successor is replaced alike whatever text arrives behind. */
  lemma PeelStable(t: Table, text: string, more: string)
    requires |Words(text, PLAIN)| >= 2
    ensures var w := Words(text, PLAIN)[0];
            && w.start <= w.end <= |text|
            && ReplaceAll(t, text + more) ==
               text[..w.start] + ReplaceOne(t, w.text) + ReplaceAll(t, text[w.end..] + more)
  {
    var w := Words(text, PLAIN)[0];
    CutFirst(text, PLAIN);
    ScanInOrder(text, PLAIN, 0, 0);
    FirstStable(text, more, PLAIN, 0, 0);
    assert Words(text + more, PLAIN)[0] == w;
    PeelFirst(t, text + more);
    CutBehind(text, more, w.start, w.end);
  }

  lemma CutBehind(text: string, more: string, i: nat, j: nat)
    requires i <= j <= |text|
    ensures (text + more)[j..] == text[j..] + more && (text + more)[..i] == text[..i]
  {
  }

  /** All words of the text but the last, which more text could still lengthen. */
  function Settled(text: string): seq<Word>
    requires Words(text, PLAIN) != []
  {
    DropLast(Words(text, PLAIN))
  }

  lemma SettledIn(text: string)
    requires Words(text, PLAIN) != []
    ensures WordsIn(text, Settled(text)) && EndAt(Settled(text), |Settled(text)|) <= |text|
  {
    var words, settled := Words(text, PLAIN), Settled(text);
    AllWordsIn(text);
    forall i | 0 <= i < |settled|
      ensures Fits(text, settled, i)
    {
      assert Fits(text, words, i);
    }
    EndInText(text, settled, |settled|);
  }

  lemma SettledCons(text: string)
    requires |Words(text, PLAIN)| >= 2
    ensures var w := Words(text, PLAIN)[0];
            && w.end <= |text| && |Words(text[w.end..], PLAIN)| == |Words(text, PLAIN)| - 1
            && Settled(text) == [w] + Shift(Settled(text[w.end..]), w.end)
  {
    CutFirst(text, PLAIN);
  }

  /** The settled words rebuilt, and what is left of the text behind them. */
  ghost function SettledText(t: Table, text: string): string
    requires Words(text, PLAIN) != []
  {
    SettledIn(text);
    UpTo(t, text, Settled(text), |Settled(text)|)
  }

  ghost function Unsettled(text: string): string
    requires Words(text, PLAIN) != []
  {
    SettledIn(text);
    text[EndAt(Settled(text), |Settled(text)|)..]
  }

  lemma SettledPeel(t: Table, text: string)
    requires |Words(text, PLAIN)| >= 2
    ensures var w := Words(text, PLAIN)[0];
            && w.start <= w.end <= |text| && |Words(text[w.end..], PLAIN)| == |Words(text, PLAIN)| - 1
            && SettledText(t, text) == text[..w.start] + ReplaceOne(t, w.text) + SettledText(t, text[w.end..])
            && Unsettled(text) == Unsettled(text[w.end..])
  {
    var w := Words(text, PLAIN)[0];
    SettledIn(text);
    SettledCons(text);
    var rest := text[w.end..];
    SettledIn(rest);
    BehindFirst(text, w, rest, Settled(rest), Settled(text));
    RebuildCons(t, text, w, rest, Settled(rest), Settled(text), |Settled(rest)|, |Settled(rest)| + 1,
                text[..w.start] + ReplaceOne(t, w.text));
    EndBehind(text, w, rest, Settled(rest), Settled(text));
  }

  lemma SettledNone(t: Table, text: string)
    requires |Words(text, PLAIN)| == 1
    ensures SettledText(t, text) == "" && Unsettled(text) == text
  {
    SettledIn(text);
    assert Settled(text) == [];
  }

  /** All words but the last are settled: they can be yielded, and the rest be kept. */
  lemma {:induction false} SettledWords(t: Table, text: string, more: string)
    requires Words(text, PLAIN) != []
    ensures ReplaceAll(t, text + more) == SettledText(t, text) + ReplaceAll(t, Unsettled(text) + more)
    decreases |Words(text, PLAIN)|
  {
    if |Words(text, PLAIN)| == 1 {
      SettledNone(t, text);
    } else {
      var w := Words(text, PLAIN)[0];
      PeelStable(t, text, more);
      SettledPeel(t, text);
      var rest := text[w.end..];
      SettledWords(t, rest, more);
      Assemble(text[..w.start], ReplaceOne(t, w.text), SettledText(t, rest), ReplaceAll(t, Unsettled(rest) + more));
    }
  }

  /** Yields so far and the buffer: whatever text follows, together they give what `f` makes of it all. */
  ghost predicate Streamed(f: string -> string, text: string, yielded: string, buffer: string) {
    forall more :: f(text + more) == yielded + f(buffer + more)
  }

  lemma StreamedGrows(f: string -> string, text: string, yielded: string, buffer: string, chunk: string)
    requires Streamed(f, text, yielded, buffer)
    ensures Streamed(f, text + chunk, yielded, buffer + chunk)
  {
    forall more
      ensures f(text + chunk + more) == yielded + f(buffer + chunk + more)
    {
      assert text + chunk + more == text + (chunk + more);
      assert buffer + chunk + more == buffer + (chunk + more);
    }
  }

  lemma StreamedTrans(f: string -> string, text: string, y1: string, mid: string, y2: string, buffer: string)
    requires Streamed(f, text, y1, mid) && Streamed(f, mid, y2, buffer)
    ensures Streamed(f, text, y1 + y2, buffer)
  {
    forall more
      ensures f(text + more) == y1 + y2 + f(buffer + more)
    {
      assert y1 + (y2 + f(buffer + more)) == y1 + y2 + f(buffer + more);
    }
  }

  ghost function Replacer(t: Table): string -> string {
    text => ReplaceAll(t, text)
  }

  lemma StreamedYields(t: Table, buffer: string)
    requires Words(buffer, PLAIN) != []
    ensures Streamed(Replacer(t), buffer, SettledText(t, buffer), Unsettled(buffer))
  {
    forall more
      ensures Replacer(t)(buffer + more) == SettledText(t, buffer) + Replacer(t)(Unsettled(buffer) + more)
    {
      SettledWords(t, buffer, more);
    }
  }

  lemma SplitEdited(edited: string, done: string, rest: string)
    requires edited == done + rest
    ensures edited[..|done|] == done && edited[|done|..] == rest
  {
  }

  /** What one buffer yields, at most one piece, and the part of it that is kept. */
  method TakeSettled(t: Table, buffer: string) returns (pieces: seq<string>, rest: string)
    ensures Streamed(Replacer(t), buffer, Concat(pieces), rest)
  {
    var words := SplitWords(buffer, PLAIN);
    if |words| <= 1 {
      pieces, rest := [], buffer;
      StreamedSelf(Replacer(t), buffer);
      return;
    }
    StreamedYields(t, buffer);
    SettledIn(buffer);
    var edited, processed := ProcessWords(t, buffer, DropLast(words));
    SplitEdited(edited, SettledText(t, buffer), Unsettled(buffer));
    pieces := [edited[..processed]];
    rest := edited[processed..];
    ConcatOne(edited[..processed]);
  }

  /** The generator: chunks in, yields out. */
  method ReplaceWordsStream(t: Table, chunks: seq<string>) returns (pieces: seq<string>)
    ensures Concat(pieces) == ReplaceAll(t, Concat(chunks))
  {
    pieces := [];
    var buffer := "";
    StreamedSelf(Replacer(t), "");
    for i := 0 to |chunks|
      invariant Streamed(Replacer(t), Concat(chunks[..i]), Concat(pieces), buffer)
    {
      ConcatSnoc(chunks, i);
      StreamedGrows(Replacer(t), Concat(chunks[..i]), Concat(pieces), buffer, chunks[i]);
      var more, rest := TakeSettled(t, buffer + chunks[i]);
      StreamedTrans(Replacer(t), Concat(chunks[..i + 1]), Concat(pieces), buffer + chunks[i], Concat(more), rest);
      ConcatJoin(pieces, more);
      pieces, buffer := pieces + more, rest;
    }
    ReplaceNothing(t);
    Applied(t, "");
    Applied(t, buffer);
    Applied(t, Concat(chunks));
    StreamedEnds(Replacer(t), chunks, Concat(pieces), buffer);
    if buffer != "" {
      var edited := ReplaceWordsIn(t, buffer);
      ConcatJoin(pieces, [edited]);
      ConcatOne(edited);
      pieces := pieces + [edited];
    }
  }

  lemma StreamedSelf(f: string -> string, text: string)
    ensures Streamed(f, text, "", text)
  {
    forall more
      ensures f(text + more) == "" + f(text + more)
    {
    }
  }

  lemma StreamedNow(f: string -> string, text: string, yielded: string, buffer: string)
    requires Streamed(f, text, yielded, buffer)
    ensures f(text) == yielded + f(buffer)
  {
    assert text + "" == text && buffer + "" == buffer;
    assert f(text + "") == yielded + f(buffer + "");
  }

  lemma ReplaceNothing(t: Table)
    ensures ReplaceAll(t, "") == ""
  {
  }

  lemma StreamedEnds(f: string -> string, chunks: seq<string>, yielded: string, buffer: string)
    requires Streamed(f, Concat(chunks[..|chunks|]), yielded, buffer) && f("") == ""
    ensures f(Concat(chunks)) == yielded + f(buffer)
    ensures buffer == "" ==> f(Concat(chunks)) == yielded
  {
    assert chunks[..|chunks|] == chunks;
    StreamedNow(f, Concat(chunks), yielded, buffer);
    assert yielded + "" == yielded;
  }

  lemma Applied(t: Table, text: string)
    ensures Replacer(t)(text) == ReplaceAll(t, text)
  {
  }

  /** `replace_words` on a whole text. */
  method ReplaceWordsIn(t: Table, text: string) returns (replaced: string)
    ensures replaced == ReplaceAll(t, text)
  {
    var words := SplitWords(text, PLAIN);
    AllWordsIn(text);
    var edited, _ := ProcessWords(t, text, words);
    replaced := edited;
  }

  // ----- the table

  /** `{k.lower(): v for k, v in replacements.items()}`. */
  function LoweredKeys(lower: string -> string, replacements: seq<(string, string)>): map<string, string> {
    if replacements == [] then map[]
    else LoweredKeys(lower, DropLast(replacements))[lower(Last(replacements).0) := Last(replacements).1]
  }

  ghost predicate LastFor(lower: string -> string, replacements: seq<(string, string)>, key: string, i: nat) {
    && i < |replacements| && lower(replacements[i].0) == key
    && forall j :: i < j < |replacements| ==> lower(replacements[j].0) != key
  }

  /** A key stands for the last replacement whose word lowers to it, and for nothing when there is none. */
  lemma {:induction false} LastWins(lower: string -> string, replacements: seq<(string, string)>, key: string)
    returns (i: nat)
    ensures key in LoweredKeys(lower, replacements) <==>
            exists j :: 0 <= j < |replacements| && lower(replacements[j].0) == key
    ensures key in LoweredKeys(lower, replacements) ==>
              LastFor(lower, replacements, key, i) && LoweredKeys(lower, replacements)[key] == replacements[i].1
  {
    i := 0;
    if replacements != [] {
      var front := DropLast(replacements);
      i := LastWins(lower, front, key);
      assert forall j :: 0 <= j < |front| ==> front[j] == replacements[j];
      if lower(Last(replacements).0) == key {
        i := |front|;
      }
    }
  }

  method LowerKeys(lower: string -> string, replacements: seq<(string, string)>) returns (entries: map<string, string>)
    ensures entries == LoweredKeys(lower, replacements)
  {
    entries := map[];
    for i := 0 to |replacements|
      invariant entries == LoweredKeys(lower, replacements[..i])
    {
      assert DropLast(replacements[..i + 1]) == replacements[..i];
      entries := entries[lower(replacements[i].0) := replacements[i].1];
    }
    assert replacements[..|replacements|] == replacements;
  }

  /** `replace_words` called with a text. */
  method ReplaceInText(lower: string -> string, replacements: seq<(string, string)>, text: string)
    returns (replaced: string)
    ensures replaced == ReplaceAll(Table(lower, LoweredKeys(lower, replacements)), text)
  {
    var entries := LowerKeys(lower, replacements);
    replaced := ReplaceWordsIn(Table(lower, entries), text);
  }

  /** `replace_words` called with chunks. */
  method ReplaceInChunks(lower: string -> string, replacements: seq<(string, string)>, chunks: seq<string>)
    returns (pieces: seq<string>)
    ensures Concat(pieces) == ReplaceAll(Table(lower, LoweredKeys(lower, replacements)), Concat(chunks))
  {
    var entries := LowerKeys(lower, replacements);
    pieces := ReplaceWordsStream(Table(lower, entries), chunks);
  }
}
