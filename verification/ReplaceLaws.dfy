/** What replacing words does to a text, in terms of its gaps, the cores of its words and their trailing punctuation. */
module ReplaceLaws {
  import opened Subsequences
  import opened WordScanner
  import opened WordLaws
  import opened ReplaceWords
  import opened ReplaceStream

  /** Where a word ends in its core: all punctuation behind, none at the end. */
  predicate IsCore(core: string, tail: string) {
    (forall i :: 0 <= i < |tail| ==> tail[i] in PUNCTUATIONS) && (core == "" || Last(core) !in PUNCTUATIONS)
  }

  lemma {:induction false} CoreFound(core: string, tail: string)
    requires IsCore(core, tail)
    ensures RStrip(core + tail) == core
  {
    if tail == "" {
      assert core + tail == core;
    } else {
      assert DropLast(core + tail) == core + DropLast(tail);
      CoreFound(core, DropLast(tail));
    }
  }


  /** Every word is a core and a tail in just one way, its core alone is looked up, and the tail stays. */
  lemma CoreReplaced(t: Table, core: string, tail: string)
    requires IsCore(core, tail)
    ensures var key := t.lower(core);
            ReplaceOne(t, core + tail) ==
            if key in t.entries && t.entries[key] != "" then t.entries[key] + tail else core + tail
  {
    CoreFound(core, tail);
    assert (core + tail)[|core|..] == tail;
  }

  lemma TailGrows(core: string, tail: string, c: char)
    requires IsCore(core, tail) && c in PUNCTUATIONS
    ensures IsCore(core, tail + [c])
  {
  }

  lemma {:induction false} EveryWordHasACore(word: string) returns (core: string, tail: string)
    ensures word == core + tail && IsCore(core, tail)
    decreases |word|, 1
  {
    if word == "" || Last(word) !in PUNCTUATIONS {
      core, tail := word, "";
    } else {
      core, tail := WithMark(word);
    }
  }

  lemma {:induction false} WithMark(word: string) returns (core: string, tail: string)
    requires word != "" && Last(word) in PUNCTUATIONS
    ensures word == core + tail && IsCore(core, tail)
    decreases |word|, 0
  {
    core, tail := EveryWordHasACore(DropLast(word));
    TailGrows(core, tail, Last(word));
    tail := tail + [Last(word)];
  }

  ghost predicate AllSpace(s: string) {
    forall i :: 0 <= i < |s| ==> IsSpace(s[i])
  }

  ghost predicate NoSpace(s: string) {
    forall i :: 0 <= i < |s| ==> !IsSpace(s[i])
  }

  /** The first word of a text stands behind its first gap. */
  lemma FirstWord(gap: string, word: string, more: string, text: string)
    requires text == gap + word + more && AllSpace(gap) && NoSpace(word) && word != ""
    requires more == "" || IsSpace(more[0])
    ensures Words(text, PLAIN) != [] && Words(text, PLAIN)[0] == Word(word, |gap|, |gap| + |word|)
  {
    var w := Word(word, |gap|, |gap| + |word|);
    WordIsChunk(gap, word, more, text);
    WordsExactly(text, PLAIN, w);
    var words := Words(text, PLAIN);
    ScanInOrder(text, PLAIN, 0, 0);
    var i :| 0 <= i < |words| && words[i] == w;
    WordsExactly(text, PLAIN, words[0]);
    assert text[..|gap|] == gap;
    EndsBehindGap(gap, text, words[0]);
  }

  lemma EndsBehindGap(gap: string, text: string, v: Word)
    requires gap <= text && AllSpace(gap) && IsWord(text, PLAIN, v)
    ensures v.end > |gap|
  {
    forall k | 0 <= k < |gap|
      ensures IsSpace(text[k])
    {
      assert text[k] == gap[k];
    }
    assert !Breaks(text[v.start], PLAIN);
  }

  lemma WordIsChunk(gap: string, word: string, more: string, text: string)
    requires text == gap + word + more && AllSpace(gap) && NoSpace(word) && word != ""
    requires more == "" || IsSpace(more[0])
    ensures IsWord(text, PLAIN, Word(word, |gap|, |gap| + |word|))
  {
    var s, e := |gap|, |gap| + |word|;
    assert text[s..e] == word;
    forall k | s <= k < e
      ensures !IsSpace(text[k])
    {
      assert text[k] == word[k - s];
    }
    assert s > 0 ==> text[s - 1] == gap[s - 1];
    assert e < |text| ==> text[e] == more[0];
  }

  lemma FirstOfText(t: Table, gap: string, word: string, more: string, text: string)
    requires text == gap + word + more && AllSpace(gap) && NoSpace(word) && word != ""
    requires more == "" || IsSpace(more[0])
    ensures ReplaceAll(t, text) == gap + ReplaceOne(t, word) + ReplaceAll(t, more)
  {
    FirstWord(gap, word, more, text);
    PeelFirst(t, text);
    assert text[..|gap|] == gap && text[|gap| + |word|..] == more;
  }

  lemma Assembled(a: string, b: string, c: string, d: string)
    ensures a + b + c + d == a + (b + c) + d
  {
  }

  /** A text is replaced word by word: its first gap stays, and what follows the word is a text of its own. */
  lemma FirstReplaced(t: Table, gap: string, core: string, tail: string, more: string)
    requires AllSpace(gap) && core + tail != "" && NoSpace(core + tail) && IsCore(core, tail)
    requires more == "" || IsSpace(more[0])
    ensures var key := t.lower(core);
            var put := if key in t.entries && t.entries[key] != "" then t.entries[key] else core;
            ReplaceAll(t, gap + core + tail + more) == gap + put + tail + ReplaceAll(t, more)
  {
    var key := t.lower(core);
    var put := if key in t.entries && t.entries[key] != "" then t.entries[key] else core;
    var word := core + tail;
    CoreReplaced(t, core, tail);
    FirstOfText(t, gap, word, more, gap + word + more);
    Assembled(gap, core, tail, more);
    Assembled(gap, put, tail, ReplaceAll(t, more));
  }

  /** A text without words stays. */
  lemma GapStays(t: Table, gap: string)
    requires AllSpace(gap)
    ensures ReplaceAll(t, gap) == gap
  {
    var words := Words(gap, PLAIN);
    if words != [] {
      WordsExactly(gap, PLAIN, words[0]);
      EndsBehindGap(gap, gap, words[0]);
    }
    AllWordsIn(gap);
  }
}
