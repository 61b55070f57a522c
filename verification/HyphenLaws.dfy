/** What `hyphenate_word` guarantees about its pieces. */
module HyphenLaws {
  import opened Strings
  import opened Subsequences
  import opened HyphenPatterns
  import opened HyphenPieces
  import opened Hyphenator

  lemma {:induction false} EntriesKeyed(exceptions: seq<string>)
    ensures forall key :: key in EntriesOf(exceptions) ==> Key(EntriesOf(exceptions)[key]) == key
    ensures forall key :: key in EntriesOf(exceptions) ==> EntriesOf(exceptions)[key] in exceptions
  {
    if exceptions != [] {
      EntriesKeyed(DropLast(exceptions));
    }
  }

  /** Every entry of the list is found by its letters, the last of those with the same. */
  lemma {:induction false} LastEntryWins(exceptions: seq<string>, i: nat)
    requires i < |exceptions| && forall j :: i < j < |exceptions| ==> Key(exceptions[j]) != Key(exceptions[i])
    ensures Key(exceptions[i]) in EntriesOf(exceptions) && EntriesOf(exceptions)[Key(exceptions[i])] == exceptions[i]
  {
    if i < |exceptions| - 1 {
      assert DropLast(exceptions)[i] == exceptions[i];
      LastEntryWins(DropLast(exceptions), i);
    }
  }

  lemma {:induction false} SplitGrows(ex: string, mid: string)
    requires forall i :: 0 <= i < |mid| ==> !IsLetter(mid[i])
    ensures SplitLetters(ex + mid) == DropLast(SplitLetters(ex)) + [Last(SplitLetters(ex)) + mid]
  {
    if mid == "" {
      assert ex + mid == ex && Last(SplitLetters(ex)) + mid == Last(SplitLetters(ex));
    } else {
      assert DropLast(ex + mid) == ex + DropLast(mid);
      SplitGrows(ex, DropLast(mid));
      assert Last(SplitLetters(ex)) + mid == Last(SplitLetters(ex)) + DropLast(mid) + [Last(mid)];
    }
  }

  /** What stands behind a part stays when letters follow. */
  lemma {:induction false} SplitStays(ex: string, b: string)
    requires b != "" && IsLetter(b[0])
    ensures |SplitLetters(ex + b)| > |SplitLetters(ex)|
    ensures forall i :: 0 <= i < |SplitLetters(ex)| ==> SplitLetters(ex + b)[i] == SplitLetters(ex)[i]
  {
    assert DropLast(ex + b) == ex + DropLast(b);
    if |b| > 1 {
      SplitStays(ex, DropLast(b));
    } else {
      assert ex + DropLast(b) == ex;
    }
  }

  /** The mark of an entry behind one of its letters is odd exactly when a single hyphen stands before the next. */
  lemma EntryMarkIs(a: string, c: char, mid: string, b: string)
    requires IsLetter(c) && (forall i :: 0 <= i < |mid| ==> !IsLetter(mid[i])) && (b == "" || IsLetter(b[0]))
    ensures LetterCount(a) < |EntryMarks(a + [c] + mid + b)|
    ensures EntryMarks(a + [c] + mid + b)[LetterCount(a)] == if mid == "-" then 1 else 0
  {
    var front := a + [c];
    assert DropLast(front) == a;
    MarksCount(a);
    SplitGrows(front, mid);
    assert "" + mid == mid;
    if b == "" {
      assert front + mid + b == front + mid;
    } else {
      SplitStays(front + mid, b);
    }
  }

  /** What a key is: an entry without its hyphens, everything else in place. */
  lemma KeyIs(a: string, c: char)
    ensures Key("") == "" && Key(a + [c]) == if c == '-' then Key(a) else Key(a) + [c]
  {
    assert DropLast(a + [c]) == a;
  }

  lemma {:induction false} EveryMark(ex: string)
    ensures (forall i :: 0 <= i < |ex| ==> ex[i] == '-' || IsLetter(ex[i])) ==> |EntryMarks(ex)| == |Key(ex)|
  {
    if ex != "" {
      EveryMark(DropLast(ex));
      assert ex == DropLast(ex) + [Last(ex)];
    }
  }

  /**
    The pieces put together are the word, unless an exception entry has fewer letters a-z than the word is
    long: then, and only then, letters are lost.
   */
  lemma PiecesAreTheWord(lower: string -> string, table: map<string, seq<nat>>, entries: map<string, string>,
                         word: string)
    requires Lowers(lower)
    ensures var key := lower(word);
            Concat(Hyphenated(lower, table, entries, word)) == word <==>
            (|word| <= 4 || key !in entries || LetterCount(entries[key]) >= |word|)
  {
    if |word| <= 4 {
      ConcatOne(word);
    } else {
      var marks := MarksFor(lower, table, entries, word);
      var n := Min(|word|, |marks|);
      PiecesSpell(word, marks, n);
      WholeOrLess(word, n);
      if lower(word) in entries {
        MarksCount(entries[lower(word)]);
      }
    }
  }

  lemma WholeOrLess(word: string, n: nat)
    requires n <= |word|
    ensures word[..n] == word <==> n == |word|
  {
    assert |word[..n]| == n;
  }

  /**
    For a word as long as its key, that is when the entry holds a character that is neither a hyphen nor a
    letter a-z.
   */
  lemma LettersLost(exceptions: seq<string>, key: string)
    requires key in EntriesOf(exceptions)
    ensures var ex := EntriesOf(exceptions)[key];
            LetterCount(ex) >= |key| <==> forall i :: 0 <= i < |ex| ==> ex[i] == '-' || IsLetter(ex[i])
  {
    var ex := EntriesOf(exceptions)[key];
    EntriesKeyed(exceptions);
    MarksCount(ex);
    KeyPlain(ex);
    EveryMark(ex);
  }

  /**
    On the pattern path the first piece has at least two letters and no piece but perhaps the last is empty.
    The last has at least two letters just when the points behind the last two letters are even, which they
    are whenever lower-casing keeps the length of the word.
   */
  lemma PatternPieces(lower: string -> string, table: map<string, seq<nat>>, entries: map<string, string>, word: string)
    requires Lowers(lower) && |word| > 4 && lower(word) !in entries
    ensures var pieces := Hyphenated(lower, table, entries, word);
            var marks := PatternMarks(table, Dotted(lower(word)));
            var n := |word|;
            && |pieces[0]| >= 2 && (forall i :: 0 <= i < |pieces| - 1 ==> pieces[i] != "")
            && (|Last(pieces)| >= 2 <==> marks[n - 2] % 2 == 0 && marks[n - 1] % 2 == 0)
            && (|lower(word)| == n ==> |Last(pieces)| >= 2)
  {
    var marks := PatternMarks(table, Dotted(lower(word)));
    PiecesFilled(word, marks, |word|);
    EndPieces(word, marks, |word|);
  }

  /**
    A word cut by its exception entry and joined by hyphens is that entry, exactly when the word is in lower
    case and the entry is made of letters a-z and single hyphens, none of them in front.
   */
  lemma ExceptionPieces(lower: string -> string, exceptions: seq<string>, table: map<string, seq<nat>>, word: string)
    requires Lowers(lower) && |word| > 4 && lower(word) in EntriesOf(exceptions)
    ensures var ex := EntriesOf(exceptions)[lower(word)];
            Join("-", Hyphenated(lower, table, EntriesOf(exceptions), word)) == ex <==>
                WellHyphenated(ex) && word == lower(word)
  {
    var key := lower(word);
    var ex := EntriesOf(exceptions)[key];
    EntriesKeyed(exceptions);
    if word == key {
      EntryRoundTrip(ex);
    } else {
      var marks := EntryMarks(ex);
      var n := Min(|word|, |marks|);
      PiecesSpell(word, marks, n);
      InsertedKey(word, marks, n);
      KeyLength(word[..n]);
      WholeOrLess(word, n);
    }
  }

  // ----- where letters are lost, and where the last piece is short

  /**
    With a letter outside a-z in its exception entry the word "naive" spelled with a diaeresis loses its last
    letter.
   */
  lemma LastLetterLost(lower: string -> string, table: map<string, seq<nat>>)
    requires Lowers(lower) && lower(NAIVE) == NAIVE
    ensures Concat(Hyphenated(lower, table, EntriesOf([NAIVE]), NAIVE)) == NAIVE[..4] != NAIVE
  {
    NaiveEntry();
    MarksCount(NAIVE);
    assert DropLast([NAIVE]) == [];
    PiecesSpell(NAIVE, EntryMarks(NAIVE), 4);
  }

  const NAIVE := "na\U{00EF}ve"

  lemma NaiveEntry()
    ensures Key(NAIVE) == NAIVE && LetterCount(NAIVE) == 4
  {
    var s4, s3, s2, s1 := NAIVE[..4], NAIVE[..3], NAIVE[..2], NAIVE[..1];
    assert DropLast(NAIVE) == s4 && DropLast(s4) == s3 && DropLast(s3) == s2 && DropLast(s2) == s1 &&
           DropLast(s1) == "";
    assert Key(s1) == s1 && Key(s2) == s2 && Key(s3) == s3 && Key(s4) == s4;
    assert LetterCount(s1) == 1 && LetterCount(s2) == 2 && LetterCount(s3) == 2 && LetterCount(s4) == 3;
  }

  /** A word whose last letter lowers to two characters, with a point in front of it. */
  const DOTTED_I := "abcd\U{0130}"

  const LOWERED := "abcdi\U{0307}"

  /** The point of the pattern "d1i" is cleared for words that keep their length; here it cuts off the last letter. */
  lemma LastPieceShort(lower: string -> string)
    requires Lowers(lower) && lower(DOTTED_I) == LOWERED
    ensures var pieces := Hyphenated(lower, TableOf(["d1i"]), map[], DOTTED_I); |Last(pieces)| == 1
  {
    var table := TableOf(["d1i"]);
    TableOfOne();
    var work := Dotted(LOWERED);
    var marks := PatternMarks(table, work);
    BestIsMaximum(table, work, 5);
    assert Window(work, 4, 2) == "di";
    assert Says(table, work, 4, 2, 5) == 1;
    assert forall s, k :: 0 <= s < |work| && 0 < k <= |work| - s ==> Says(table, work, s, k, 5) <= 1;
    assert marks[3] == 1 && marks[4] == 0;
    PiecesFilled(DOTTED_I, marks, 5);
    EndPieces(DOTTED_I, marks, 5);
  }

  lemma TableOfOne()
    ensures TableOf(["d1i"]) == map["di" := [0, 1, 0]]
  {
    assert DropLast(["d1i"]) == [] && DropLast("d1i") == "d1" && DropLast("d1") == "d" && DropLast("d") == "";
    assert Letters("d") == "d" && Letters("d1") == "d" && Letters("d1i") == "di";
    assert Points("d") == [0, 0] && Points("d1") == [0, 1] && Points("d1i") == [0, 1, 0];
  }
}
