/** What the cleaning of `split_words` does to a word, and so which words are reported with and without it. */
module WordCleaning {
  import opened WordScanner
  import opened WordLaws

  // ----- the tables

  predicate IsAsciiMark(c: char) {
    '!' <= c <= '/' || ':' <= c <= '@' || '[' <= c <= '`' || '{' <= c <= '~'
  }

  const OTHER_MARKS := "\U{b1}\U{2014}\U{2018}\U{2019}\U{201c}\U{201d}\U{2026}"

  lemma AsciiListed(c: char)
    requires IsAsciiMark(c)
    ensures c in PUNCTUATIONS
  {
    var n := c as int;
    var i := if n <= 47 then n - 33 else if n <= 64 then n - 43 else if n <= 96 then n - 69 else n - 95;
    assert PUNCTUATIONS[i] == c;
  }

  lemma OthersListed(c: char)
    requires c in OTHER_MARKS
    ensures c in PUNCTUATIONS
  {
    assert PUNCTUATIONS[32..] == OTHER_MARKS;
    var i :| 0 <= i < |OTHER_MARKS| && OTHER_MARKS[i] == c;
    assert PUNCTUATIONS[32 + i] == c;
  }

  lemma AsciiAt(i: nat)
    requires i < 32
    ensures PUNCTUATIONS[i] as int == if i < 15 then i + 33 else if i < 22 then i + 43 else if i < 28 then i + 69
            else i + 95
  {
  }

  lemma ListedIsMark(c: char)
    requires c in PUNCTUATIONS
    ensures IsAsciiMark(c) || c in OTHER_MARKS
  {
    var i :| 0 <= i < |PUNCTUATIONS| && PUNCTUATIONS[i] == c;
    if i < 32 {
      AsciiAt(i);
    } else {
      assert PUNCTUATIONS[32..] == OTHER_MARKS;
      assert OTHER_MARKS[i - 32] == c;
    }
  }

  /** The punctuation crossed out is that of ASCII and seven marks more, and nothing else. */
  lemma PunctuationsAre(c: char)
    ensures c in PUNCTUATIONS <==> IsAsciiMark(c) || c in OTHER_MARKS
  {
    if c in PUNCTUATIONS {
      ListedIsMark(c);
    } else if IsAsciiMark(c) {
      AsciiListed(c);
    } else if c in OTHER_MARKS {
      OthersListed(c);
    }
  }

  /** The code points that are spaces, one by one. */
  const SPACES := "\t\n\U{b}\U{c}\r\U{1c}\U{1d}\U{1e}\U{1f} \U{85}\U{a0}\U{1680}"
                  + "\U{2000}\U{2001}\U{2002}\U{2003}\U{2004}\U{2005}\U{2006}\U{2007}\U{2008}\U{2009}\U{200a}"
                  + "\U{2028}\U{2029}\U{202f}\U{205f}\U{3000}"

  lemma SpacesAre(c: char)
    ensures IsSpace(c) <==> c in SPACES
  {
    if IsSpace(c) {
      SpaceListed(c);
    }
  }

  lemma SpaceListed(c: char)
    requires IsSpace(c)
    ensures c in SPACES
  {
    var n := c as int;
    var i :=
      if n <= 13 then n - 9 else if n <= 32 then n - 23 else if n == 0x85 then 10 else if n == 0xa0 then 11
      else if n == 0x1680 then 12 else if n <= 0x200a then n - 0x2000 + 13 else if n == 0x2028 then 24
      else if n == 0x2029 then 25 else if n == 0x202f then 26 else if n == 0x205f then 27 else 28;
    assert SPACES[i] == c;
  }

  /** The scripts without spaces by their blocks of 64 code points. */
  lemma ScriptBlocks(c: char)
    ensures IsCharBased(c) <==>
            var block := c as int / 64;
            0x38 <= block <= 0x39 || 0xc1 <= block <= 0xc3 || 0xd0 <= block <= 0x136 || 0x138 <= block <= 0x27f
  {
  }

  // ----- what is crossed out of a word

  /** Crossing out goes through a text piece by piece. */
  lemma {:induction false} StripJoin(a: string, b: string)
    ensures Strip(a + b) == Strip(a) + Strip(b)
  {
    if a == "" {
      assert a + b == b;
    } else {
      assert (a + b)[0] == a[0] && (a + b)[1..] == a[1..] + b;
      StripJoin(a[1..], b);
    }
  }

  lemma HeadCounts(s: string, crossed: bool, stripped: string, marked: bool, c: char)
    requires s != "" && multiset(stripped)[c] == (if marked then 0 else multiset(s[1..])[c])
    requires s[0] == c ==> crossed == marked
    ensures multiset((if crossed then "" else [s[0]]) + stripped)[c] == if marked then 0 else multiset(s)[c]
  {
    assert "" + stripped == stripped;
    assert s == [s[0]] + s[1..];
  }

  /** No punctuation is left, and every other character as often as it was. */
  lemma {:induction false} StripCounts(s: string, c: char)
    ensures multiset(Strip(s))[c] == if c in PUNCTUATIONS then 0 else multiset(s)[c]
  {
    if s != "" {
      StripCounts(s[1..], c);
      HeadCounts(s, s[0] in PUNCTUATIONS, Strip(s[1..]), c in PUNCTUATIONS, c);
    }
  }

  ghost predicate NoPunctuation(s: string) {
    forall i :: 0 <= i < |s| ==> s[i] !in PUNCTUATIONS
  }

  ghost predicate AllPunctuation(s: string) {
    forall i :: 0 <= i < |s| ==> s[i] in PUNCTUATIONS
  }

  lemma {:induction false} StripLeaves(s: string)
    ensures NoPunctuation(Strip(s))
    ensures NoPunctuation(s) ==> Strip(s) == s
    ensures Strip(s) == "" <==> AllPunctuation(s)
  {
    if s != "" {
      StripLeaves(s[1..]);
      assert s == [s[0]] + s[1..];
    }
  }

  // ----- the words reported

  /**
    With punctuation ignored a word holds none, and each of its characters as often as its span; a chunk of the
    text is reported exactly when it is not all punctuation.
   */
  lemma WithoutPunctuation(text: string, splitCharacter: bool, w: Word)
    requires w in Words(text, OptionsOf(true, splitCharacter))
    ensures w.start < w.end <= |text| && NoPunctuation(w.text)
    ensures forall c :: c !in PUNCTUATIONS ==> multiset(w.text)[c] == multiset(text[w.start..w.end])[c]
  {
    var o := OptionsOf(true, splitCharacter);
    WordsExactly(text, o, w);
    var span := text[w.start..w.end];
    StripLeaves(span);
    assert w.text == Strip(span);
    forall c: char | c !in PUNCTUATIONS
      ensures multiset(w.text)[c] == multiset(span)[c]
    {
      StripCounts(span, c);
    }
  }

  ghost predicate Reported(text: string, o: Options, s: nat, e: nat) {
    exists w :: w in Words(text, o) && w.start == s && w.end == e
  }

  lemma ReportedIff(text: string, o: Options, s: nat, e: nat)
    requires s <= e <= |text|
    ensures Reported(text, o, s, e) <==> IsChunk(text, o, s, e) && Clean(text[s..e], o) != ""
  {
    var w := Word(Clean(text[s..e], o), s, e);
    WordsExactly(text, o, w);
    if Reported(text, o, s, e) {
      var v :| v in Words(text, o) && v.start == s && v.end == e;
      WordsExactly(text, o, v);
    }
  }

  lemma PunctuationNotReported(text: string, splitCharacter: bool, s: nat, e: nat)
    requires s <= e <= |text|
    ensures Reported(text, OptionsOf(true, splitCharacter), s, e) <==>
            IsChunk(text, OptionsOf(true, splitCharacter), s, e) && !AllPunctuation(text[s..e])
  {
    var o := OptionsOf(true, splitCharacter);
    ReportedIff(text, o, s, e);
    StripLeaves(text[s..e]);
    assert text[s..e] != "" ==> Clean(text[s..e], o) == Strip(text[s..e]);
    assert IsChunk(text, o, s, e) ==> text[s..e] != "";
  }

  /** With punctuation kept every word is its span, and every chunk is reported. */
  lemma WithPunctuation(text: string, splitCharacter: bool, s: nat, e: nat, w: Word)
    requires s <= e <= |text|
    ensures w in Words(text, OptionsOf(false, splitCharacter)) ==>
              w.start <= w.end <= |text| && w.text == text[w.start..w.end]
    ensures Reported(text, OptionsOf(false, splitCharacter), s, e) <==>
            IsChunk(text, OptionsOf(false, splitCharacter), s, e)
  {
    var o := OptionsOf(false, splitCharacter);
    WordsExactly(text, o, w);
    ReportedIff(text, o, s, e);
    assert Clean(text[s..e], o) == text[s..e];
    assert IsChunk(text, o, s, e) ==> text[s..e] != "";
  }

  /** Without characters as words of their own the chunks are what stands between spaces. */
  lemma ChunksBetweenSpaces(text: string, ignorePunctuation: bool, s: nat, e: nat)
    requires s < e <= |text|
    ensures IsChunk(text, OptionsOf(ignorePunctuation, false), s, e) <==>
            && (forall k :: s <= k < e ==> text[k] !in SPACES)
            && (s == 0 || text[s - 1] in SPACES) && (e == |text| || text[e] in SPACES)
  {
    forall c: char
      ensures Breaks(c, OptionsOf(ignorePunctuation, false)) <==> c in SPACES
    {
      SpacesAre(c);
    }
  }

  predicate StandsApart(c: char) {
    c in SPACES || IsCharBased(c)
  }

  /** With them, each character of those scripts is a chunk, and what stands between those and spaces. */
  lemma ChunksOfScripts(text: string, ignorePunctuation: bool, s: nat, e: nat)
    requires s < e <= |text|
    ensures IsChunk(text, OptionsOf(ignorePunctuation, true), s, e) <==>
            || (e == s + 1 && IsCharBased(text[s]))
            || (&& (forall k :: s <= k < e ==> !StandsApart(text[k]))
                && (s == 0 || StandsApart(text[s - 1])) && (e == |text| || StandsApart(text[e])))
  {
    forall c: char
      ensures Breaks(c, OptionsOf(ignorePunctuation, true)) <==> StandsApart(c)
      ensures IsCharBased(c) ==> !IsSpace(c)
    {
      SpacesAre(c);
      ScriptBlocks(c);
    }
  }
}
