/** Cutting a word at its hyphenation points, and the points of an exception entry. */
module HyphenPieces {
  import opened Strings
  import opened Subsequences

  /** The pieces after the first `n` letters; an odd mark behind a letter ends its piece. */
  function Pieces(word: string, marks: seq<nat>, n: nat): (r: seq<string>)
    requires n <= |word| && n <= |marks|
    ensures r != []
  {
    if n == 0 then [""]
    else
      var q := Pieces(word, marks, n - 1);
      DropLast(q) + [Last(q) + [word[n - 1]]] + (if marks[n - 1] % 2 == 1 then [""] else [])
  }

  /** The first `n` letters with a hyphen behind every letter whose mark is odd. */
  function InsertHyphens(word: string, marks: seq<nat>, n: nat): string
    requires n <= |word| && n <= |marks|
  {
    if n == 0 then ""
    else InsertHyphens(word, marks, n - 1) + [word[n - 1]] + (if marks[n - 1] % 2 == 1 then "-" else "")
  }

  function Min(a: nat, b: nat): nat {
    if a <= b then a else b
  }

  /** The final loop of `hyphenate_word`: letters zipped with marks. */
  method Cut(word: string, marks: seq<nat>) returns (pieces: seq<string>)
    ensures pieces == Pieces(word, marks, Min(|word|, |marks|))
  {
    pieces := [""];
    for i := 0 to Min(|word|, |marks|)
      invariant pieces == Pieces(word, marks, i)
    {
      pieces := pieces[|pieces| - 1 := pieces[|pieces| - 1] + [word[i]]];
      if marks[i] % 2 == 1 {
        pieces := pieces + [""];
      }
    }
  }

  lemma ExtendedConcat(a: seq<string>, t: string, c: char)
    ensures Concat(a + [t + [c]]) == Concat(a + [t]) + [c]
  {
    assert DropLast(a + [t + [c]]) == a && DropLast(a + [t]) == a;
    assert Concat(a) + (t + [c]) == Concat(a) + t + [c];
  }

  lemma ExtendedJoin(a: seq<string>, t: string, c: char)
    ensures Join("-", a + [t + [c]]) == Join("-", a + [t]) + [c]
  {
    JoinSnoc("-", a, t);
    JoinSnoc("-", a, t + [c]);
    if a != [] {
      assert Join("-", a) + "-" + (t + [c]) == Join("-", a) + "-" + t + [c];
    }
  }

  lemma AppendEmpty(a: seq<string>)
    requires a != []
    ensures Concat(a + [""]) == Concat(a) && Join("-", a + [""]) == Join("-", a) + "-"
  {
    assert DropLast(a + [""]) == a;
    assert Concat(a) + "" == Concat(a);
    JoinSnoc("-", a, "");
    assert Join("-", a) + "-" + "" == Join("-", a) + "-";
  }

  lemma PieceStep(word: string, marks: seq<nat>, n: nat)
    requires 0 < n <= |word| && n <= |marks|
    ensures Concat(Pieces(word, marks, n)) == Concat(Pieces(word, marks, n - 1)) + [word[n - 1]]
    ensures Join("-", Pieces(word, marks, n)) ==
            Join("-", Pieces(word, marks, n - 1)) + [word[n - 1]] + (if marks[n - 1] % 2 == 1 then "-" else "")
  {
    var q := Pieces(word, marks, n - 1);
    var a, t, c := DropLast(q), Last(q), word[n - 1];
    assert q == a + [t];
    ExtendedConcat(a, t, c);
    ExtendedJoin(a, t, c);
    if marks[n - 1] % 2 == 1 {
      AppendEmpty(a + [t + [c]]);
    } else {
      assert Pieces(word, marks, n) == a + [t + [c]];
      assert Join("-", q) + [c] + "" == Join("-", q) + [c];
    }
  }

  /** No letter is lost, and joining the pieces by hyphens marks exactly the odd places. */
  lemma {:induction false} PiecesSpell(word: string, marks: seq<nat>, n: nat)
    requires n <= |word| && n <= |marks|
    ensures Concat(Pieces(word, marks, n)) == word[..n]
    ensures Join("-", Pieces(word, marks, n)) == InsertHyphens(word, marks, n)
  {
    if n == 0 {
      ConcatOne("");
    } else {
      PiecesSpell(word, marks, n - 1);
      PieceStep(word, marks, n);
      assert word[..n] == word[..n - 1] + [word[n - 1]];
    }
  }

  /** Only the last piece can be empty, and it is just when the last letter is marked. */
  lemma {:induction false} PiecesFilled(word: string, marks: seq<nat>, n: nat)
    requires n <= |word| && n <= |marks|
    ensures forall i :: 0 <= i < |Pieces(word, marks, n)| - 1 ==> Pieces(word, marks, n)[i] != ""
    ensures Last(Pieces(word, marks, n)) == "" <==> n == 0 || marks[n - 1] % 2 == 1
    ensures |Pieces(word, marks, n)[0]| >= Min(n, 1)
  {
    if n > 0 {
      PiecesFilled(word, marks, n - 1);
    }
  }

  /**
    With the first letter unmarked the first piece has two letters; with the last two unmarked, and only then,
    so has the last.
   */
  lemma {:induction false} EndPieces(word: string, marks: seq<nat>, n: nat)
    requires 2 <= n <= |word| && n <= |marks| && marks[0] % 2 == 0
    ensures |Pieces(word, marks, n)[0]| >= 2
    ensures |Last(Pieces(word, marks, n))| >= 2 <==> marks[n - 2] % 2 == 0 && marks[n - 1] % 2 == 0
  {
    if n == 2 {
      assert Pieces(word, marks, 0) == [""];
      assert "" + [word[0]] == [word[0]];
      assert Pieces(word, marks, 1) == [[word[0]]];
    } else {
      EndPieces(word, marks, n - 1);
      PiecesFilled(word, marks, n - 1);
    }
  }

  // ----- exception entries

  predicate IsLetter(c: char) {
    'a' <= c <= 'z'
  }

  /** `ex.replace("-", "")`. */
  function Key(ex: string): string {
    if ex == "" then "" else Key(DropLast(ex)) + (if Last(ex) == '-' then "" else [Last(ex)])
  }

  /** `re.split("[a-z]", ex)`. */
  function SplitLetters(ex: string): (r: seq<string>)
    ensures r != []
  {
    if ex == "" then [""]
    else
      var r := SplitLetters(DropLast(ex));
      if IsLetter(Last(ex)) then r + [""] else DropLast(r) + [Last(r) + [Last(ex)]]
  }

  /** `[int(h == "-") for h in parts]`. */
  function Bits(parts: seq<string>): (r: seq<nat>)
    ensures |r| == |parts|
  {
    seq(|parts|, i requires 0 <= i < |parts| => if parts[i] == "-" then 1 else 0)
  }

  /** The stored point array of an entry. */
  function EntryPoints(ex: string): (r: seq<nat>)
    ensures |r| >= 2
  {
    [0] + Bits(SplitLetters(ex))
  }

  /** What the cut uses of it: the bit behind each letter. */
  function EntryMarks(ex: string): seq<nat> {
    EntryPoints(ex)[2..]
  }

  function LetterCount(ex: string): nat {
    if ex == "" then 0 else LetterCount(DropLast(ex)) + (if IsLetter(Last(ex)) then 1 else 0)
  }

  lemma {:induction false} MarksCount(ex: string)
    ensures |SplitLetters(ex)| == LetterCount(ex) + 1 && |EntryMarks(ex)| == LetterCount(ex)
  {
    if ex != "" {
      MarksCount(DropLast(ex));
    }
  }

  /** Letters a-z with single hyphens, none of them in front. */
  ghost predicate WellHyphenated(ex: string) {
    (forall i :: 0 <= i < |ex| ==> ex[i] == '-' || IsLetter(ex[i])) && SingleHyphens(ex)
  }

  ghost predicate SingleHyphens(s: string) {
    && (s != "" ==> s[0] != '-')
    && (forall i {:trigger s[i]} :: 0 < i < |s| ==> !(s[i - 1] == '-' && s[i] == '-'))
  }

  lemma {:induction false} InsertSame(w1: string, m1: seq<nat>, w2: string, m2: seq<nat>, n: nat)
    requires n <= |w1| && n <= |m1| && n <= |w2| && n <= |m2|
    requires forall i :: 0 <= i < n ==> w1[i] == w2[i] && m1[i] == m2[i]
    ensures InsertHyphens(w1, m1, n) == InsertHyphens(w2, m2, n)
  {
    if n > 0 {
      InsertSame(w1, m1, w2, m2, n - 1);
    }
  }

  /** One more letter, followed by `tail`, which is nothing or a hyphen. */
  lemma OneMoreLetter(g: string, c: char, tail: string, ex: string)
    requires IsLetter(c) && tail in {"", "-"} && ex == g + [c] + tail
    ensures Key(ex) == Key(g) + [c]
    ensures SplitLetters(ex) == SplitLetters(g) + [tail]
    ensures EntryMarks(ex) == EntryMarks(g) + [if tail == "-" then 1 else 0]
  {
    assert DropLast(g + [c]) == g && Last(g + [c]) == c;
    if tail == "-" {
      assert DropLast(ex) == g + [c] && Last(ex) == '-';
      var r := SplitLetters(g) + [""];
      assert SplitLetters(ex) == DropLast(r) + [Last(r) + ['-']];
      assert "" + ['-'] == "-";
    } else {
      assert ex == g + [c];
    }
  }

  lemma InsertOneMore(word: string, marks: seq<nat>, c: char, bit: nat)
    requires |word| == |marks| && bit <= 1
    ensures InsertHyphens(word + [c], marks + [bit], |word| + 1)
         == InsertHyphens(word, marks, |word|) + [c] + (if bit == 1 then "-" else "")
  {
    InsertSame(word, marks, word + [c], marks + [bit], |word|);
  }

  lemma LastLetter(ex: string, tail: string) returns (g: string, c: char)
    requires WellHyphenated(ex) && ex != "" && tail == if Last(ex) == '-' then "-" else ""
    ensures ex == g + [c] + tail && |g| < |ex| && IsLetter(c) && WellHyphenated(g)
  {
    var n := |ex| - 1 - |tail|;
    g, c := ex[..n], ex[n];
  }

  lemma {:induction false} EntryComesBack(ex: string)
    requires WellHyphenated(ex)
    ensures |Key(ex)| == |EntryMarks(ex)|
    ensures InsertHyphens(Key(ex), EntryMarks(ex), |Key(ex)|) == ex
    decreases |ex|
  {
    if ex != "" {
      var tail := if Last(ex) == '-' then "-" else "";
      var g, c := LastLetter(ex, tail);
      EntryComesBack(g);
      OneMoreLetter(g, c, tail, ex);
      InsertOneMore(Key(g), EntryMarks(g), c, |tail|);
    }
  }

  lemma {:induction false} KeyConcat(a: string, b: string)
    ensures Key(a + b) == Key(a) + Key(b)
  {
    if b == "" {
      assert a + b == a;
    } else {
      assert DropLast(a + b) == a + DropLast(b) && Last(a + b) == Last(b);
      KeyConcat(a, DropLast(b));
    }
  }

  lemma {:induction false} KeyPlain(ex: string)
    ensures forall i :: 0 <= i < |Key(ex)| ==> Key(ex)[i] != '-'
    ensures |EntryMarks(ex)| <= |Key(ex)|
    ensures |EntryMarks(ex)| == |Key(ex)| ==> forall i :: 0 <= i < |ex| ==> ex[i] == '-' || IsLetter(ex[i])
  {
    if ex != "" {
      KeyPlain(DropLast(ex));
    }
  }

  /** What hyphens are inserted into is found again. */
  lemma {:induction false} InsertKey(word: string, marks: seq<nat>, n: nat)
    requires n <= |word| && n <= |marks| && forall i :: 0 <= i < |word| ==> word[i] != '-'
    ensures Key(InsertHyphens(word, marks, n)) == word[..n]
  {
    if n > 0 {
      InsertKey(word, marks, n - 1);
      var s, c := InsertHyphens(word, marks, n - 1), word[n - 1];
      var tail := if marks[n - 1] % 2 == 1 then "-" else "";
      KeyConcat(s + [c], tail);
      KeyConcat(s, [c]);
      assert DropLast([c]) == "" && Key([c]) == [c];
      assert DropLast("-") == "" && Key(tail) == "";
      assert word[..n] == word[..n - 1] + [c];
    }
  }

  lemma {:induction false} KeyLength(s: string)
    ensures |Key(s)| <= |s| && (|Key(s)| == |s| ==> Key(s) == s)
  {
    if s != "" {
      KeyLength(DropLast(s));
      assert s == DropLast(s) + [Last(s)];
    }
  }

  /** Whatever hyphens are inserted into, taking hyphens out forgets them. */
  lemma {:induction false} InsertedKey(word: string, marks: seq<nat>, n: nat)
    requires n <= |word| && n <= |marks|
    ensures Key(InsertHyphens(word, marks, n)) == Key(word[..n])
  {
    if n > 0 {
      InsertedKey(word, marks, n - 1);
      var s, c := InsertHyphens(word, marks, n - 1), word[n - 1];
      var tail := if marks[n - 1] % 2 == 1 then "-" else "";
      KeyConcat(s + [c], tail);
      KeyConcat(s, [c]);
      KeyConcat(word[..n - 1], [c]);
      assert DropLast("-") == "" && Key(tail) == "";
      assert word[..n] == word[..n - 1] + [c];
    }
  }

  lemma SingleStep(s: string, c: char, tail: string)
    requires SingleHyphens(s) && c != '-' && tail in {"", "-"}
    ensures SingleHyphens(s + [c] + tail)
  {
    var r := s + [c] + tail;
    forall i | 0 < i < |r|
      ensures !(r[i - 1] == '-' && r[i] == '-')
    {
      assert r[|s|] == c;
    }
  }

  /** Inserted hyphens stand single and never in front. */
  lemma {:induction false} InsertSingle(word: string, marks: seq<nat>, n: nat)
    requires n <= |word| && n <= |marks| && forall i :: 0 <= i < |word| ==> word[i] != '-'
    ensures SingleHyphens(InsertHyphens(word, marks, n))
  {
    if n > 0 {
      InsertSingle(word, marks, n - 1);
      SingleStep(InsertHyphens(word, marks, n - 1), word[n - 1], if marks[n - 1] % 2 == 1 then "-" else "");
    }
  }

  /**
    Hyphenating the key of an entry by its stored points and joining by hyphens gives the entry back
    exactly when the entry consists of letters a-z and single hyphens, none in front.
   */
  lemma EntryRoundTrip(ex: string)
    ensures var n := Min(|Key(ex)|, |EntryMarks(ex)|);
            Join("-", Pieces(Key(ex), EntryMarks(ex), n)) == ex <==> WellHyphenated(ex)
  {
    var n := Min(|Key(ex)|, |EntryMarks(ex)|);
    var s := InsertHyphens(Key(ex), EntryMarks(ex), n);
    PiecesSpell(Key(ex), EntryMarks(ex), n);
    KeyPlain(ex);
    if WellHyphenated(ex) {
      EntryComesBack(ex);
    }
    InsertKey(Key(ex), EntryMarks(ex), n);
    InsertSingle(Key(ex), EntryMarks(ex), n);
    if s == ex {
      assert |Key(ex)[..n]| == n;
    }
  }
}
