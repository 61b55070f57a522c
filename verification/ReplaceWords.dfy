/** `replace_words` of agent/livekit/agents/tokenize/utils.py, on a whole text and on a stream of chunks. */
module ReplaceWords {
  import opened Subsequences
  import opened WordScanner
  import opened WordLaws

  const PLAIN := OptionsOf(false, false)

  /** The replacements, keyed by lower-cased word, and Python's `str.lower`. */
  datatype Table = Table(lower: string -> string, entries: map<string, string>)

  /** `word.rstrip(punctuations)`. */
  function RStrip(s: string): (r: string)
    ensures r <= s
  {
    if s != "" && Last(s) in PUNCTUATIONS then RStrip(DropLast(s)) else s
  }

  /** A word with its core replaced when the table has something for it, trailing punctuation kept. */
  function ReplaceOne(t: Table, word: string): string {
    var core := RStrip(word);
    var key := t.lower(core);
    if key in t.entries && t.entries[key] != "" then t.entries[key] + word[|core|..] else word
  }

  /** Where word `i` may begin: at the end of the word before it. */
  function EndAt(words: seq<Word>, i: nat): nat
    requires i <= |words|
  {
    if i == 0 then 0 else words[i - 1].end
  }

  /** Word `i` begins no earlier than the word before it ends, and spells its own span. */
  ghost predicate Fits(text: string, words: seq<Word>, i: nat)
    requires i < |words|
  {
    EndAt(words, i) <= words[i].start <= words[i].end <= |text| && words[i].text == text[words[i].start..words[i].end]
  }

  ghost predicate WordsIn(text: string, words: seq<Word>) {
    forall i :: 0 <= i < |words| ==> Fits(text, words, i)
  }

  /** The text to the end of the first `i` words, rebuilt gap by gap and word by word. */
  ghost function UpTo(t: Table, text: string, words: seq<Word>, i: nat): string
    requires WordsIn(text, words) && i <= |words|
  {
    if i == 0 then ""
    else
      assert Fits(text, words, i - 1);
      UpTo(t, text, words, i - 1) + text[EndAt(words, i - 1)..words[i - 1].start] + ReplaceOne(t, words[i - 1].text)
  }

  lemma EndInText(text: string, words: seq<Word>, i: nat)
    requires WordsIn(text, words) && i <= |words|
    ensures EndAt(words, i) <= |text|
  {
    assert i > 0 ==> Fits(text, words, i - 1);
  }

  lemma UpToStep(t: Table, text: string, words: seq<Word>, i: nat, j: nat, before: string, gap: string, r: string)
    requires WordsIn(text, words) && i < |words| && j == i + 1 && before == UpTo(t, text, words, i)
    requires EndAt(words, i) <= words[i].start <= |text| && gap == text[EndAt(words, i)..words[i].start]
    requires r == ReplaceOne(t, words[i].text)
    ensures UpTo(t, text, words, j) == before + gap + r
  {
    assert Fits(text, words, i);
  }

  /** The text with every one of `words` replaced, gaps and the tail kept. */
  ghost function Rebuild(t: Table, text: string, words: seq<Word>): string
    requires WordsIn(text, words)
  {
    EndInText(text, words, |words|);
    UpTo(t, text, words, |words|) + text[EndAt(words, |words|)..]
  }

  lemma {:induction false} ScanSpells(text: string, pos: nat, wordStart: nat)
    requires wordStart <= pos <= |text|
    ensures forall w :: w in Scan(text, PLAIN, pos, wordStart) ==>
            w.start <= w.end <= |text| && w.text == text[w.start..w.end]
    decreases |text| - pos
  {
    if pos < |text| {
      ScanSpells(text, pos + 1, Next(text, PLAIN, pos, wordStart));
    }
  }

  lemma AllWordsIn(text: string)
    ensures WordsIn(text, Words(text, PLAIN))
  {
    var words := Words(text, PLAIN);
    ScanInOrder(text, PLAIN, 0, 0);
    ScanSpells(text, 0, 0);
    forall i | 0 <= i < |words|
      ensures Fits(text, words, i)
    {
      assert words[i] in words;
      assert i > 0 ==> words[i - 1].end <= words[i].start;
    }
  }

  /** The whole text with every word replaced. */
  ghost function ReplaceAll(t: Table, text: string): string {
    AllWordsIn(text);
    Rebuild(t, text, Words(text, PLAIN))
  }

  // ----- `_process_words`

  /** Replacing the core of a word standing between `before` and `after`. */
  lemma EditInPlace(edited: string, before: string, word: string, after: string, core: nat, replacement: string)
    requires edited == before + (word + after) && core <= |word|
    ensures edited[..|before|] + replacement + edited[|before| + core..] ==
            before + (replacement + word[core..]) + after
  {
    assert edited[..|before|] == before;
    assert edited[|before| + core..] == word[core..] + after;
  }

  /** The edit of one word whose text begins at `start + offset`. */
  method EditWord(t: Table, edited: string, w: Word, offset: int, ghost before: string, ghost after: string)
    returns (r: string, newOffset: int)
    requires edited == before + (w.text + after)
    requires w.end == w.start + |w.text| && w.start + offset == |before|
    ensures r == before + ReplaceOne(t, w.text) + after
    ensures newOffset == offset + |ReplaceOne(t, w.text)| - |w.text|
  {
    var noPunctuation := RStrip(w.text);
    var punctuationOff := |w.text| - |noPunctuation|;
    var key := t.lower(noPunctuation);
    r, newOffset := edited, offset;
    if key in t.entries && t.entries[key] != "" {
      var replacement := t.entries[key];
      EditInPlace(edited, before, w.text, after, |noPunctuation|, replacement);
      r := edited[..w.start + offset] + replacement + edited[w.end + offset - punctuationOff..];
      newOffset := offset + |replacement| - |w.text| + punctuationOff;
    } else {
      assert before + w.text + after == before + (w.text + after);
    }
  }

  lemma Regroup(done: string, text: string, at: nat, w: Word)
    requires at <= w.start <= w.end <= |text| && w.text == text[w.start..w.end]
    ensures done + text[at..] == done + text[at..w.start] + (w.text + text[w.end..])
  {
    assert text[at..] == text[at..w.start] + (w.text + text[w.end..]);
  }

  /** `_process_words`: edits the text in place, keeping a running offset. */
  method ProcessWords(t: Table, text: string, words: seq<Word>) returns (edited: string, processed: nat)
    requires WordsIn(text, words)
    ensures edited == Rebuild(t, text, words)
    ensures processed == |UpTo(t, text, words, |words|)|
  {
    edited, processed := text, 0;
    var offset := 0;
    ghost var done := "";
    for i := 0 to |words|
      invariant done == UpTo(t, text, words, i) && EndAt(words, i) <= |text|
      invariant edited == done + text[EndAt(words, i)..]
      invariant offset == |done| - EndAt(words, i) && processed == |done|
    {
      assert Fits(text, words, i);
      var w := words[i];
      Regroup(done, text, EndAt(words, i), w);
      ghost var before := done + text[EndAt(words, i)..w.start];
      edited, offset := EditWord(t, edited, w, offset, before, text[w.end..]);
      done := before + ReplaceOne(t, w.text);
      processed := w.end + offset;
    }
  }
}
