/** What the words of a text are, and how they behave when the text is cut or grows. */
module WordLaws {
  import opened WordScanner

  /** A character that is a word of its own, or a maximal run without any break. */
  ghost predicate IsChunk(text: string, o: Options, s: nat, e: nat) {
    && s < e <= |text|
    && ((e == s + 1 && Breaks(text[s], o) && !IsSpace(text[s]))
        || ((forall k :: s <= k < e ==> !Breaks(text[k], o))
            && (s == 0 || Breaks(text[s - 1], o))
            && (e == |text| || Breaks(text[e], o))))
  }

  /** The text of the word is that of its span, cleaned, and something is left of it. */
  ghost predicate Spells(text: string, o: Options, w: Word) {
    w.start <= w.end <= |text| && w.text == Clean(text[w.start..w.end], o) && w.text != ""
  }

  ghost predicate IsWord(text: string, o: Options, w: Word) {
    IsChunk(text, o, w.start, w.end) && Spells(text, o, w)
  }

  /** The state of a scan: no break since `wordStart`, and one right before it. */
  ghost predicate Scanning(text: string, o: Options, pos: nat, wordStart: nat) {
    && wordStart <= pos <= |text|
    && (forall k :: wordStart <= k < pos ==> !Breaks(text[k], o))
    && (wordStart == 0 || Breaks(text[wordStart - 1], o))
  }

  lemma CommitMember(text: string, o: Options, s: nat, e: nat, w: Word)
    requires s <= e <= |text|
    ensures w in Commit(text, o, s, e) <==> w.start == s && w.end == e && Spells(text, o, w)
  {
  }

  /** The chunks that a break at `pos` ends. */
  lemma ChunksEnded(text: string, o: Options, pos: nat, wordStart: nat, s: nat, e: nat)
    requires Scanning(text, o, pos, wordStart) && pos < |text| && Breaks(text[pos], o) && wordStart <= s <= pos
    ensures IsChunk(text, o, s, e) <==>
            (s == wordStart < pos && e == pos) || (s == pos && e == pos + 1 && !IsSpace(text[pos]))
  {
    assert wordStart < s <= pos ==> !Breaks(text[s - 1], o);
  }

  lemma EmptySpellsNothing(text: string, o: Options, w: Word)
    requires Spells(text, o, w)
    ensures w.start < w.end
  {
    var span := text[w.start..w.end];
    assert span == "" ==> Clean(span, o) == "";
  }

  lemma CommitsSplit(text: string, o: Options, pos: nat, wordStart: nat, w: Word)
    requires wordStart <= pos < |text|
    ensures w in CommitsAt(text, o, pos, wordStart) <==>
            && Breaks(text[pos], o)
            && Spells(text, o, w)
            && ((w.start == wordStart < pos && w.end == pos) ||
                (w.start == pos && w.end == pos + 1 && !IsSpace(text[pos])))
  {
    CommitMember(text, o, wordStart, pos, w);
    CommitMember(text, o, pos, pos + 1, w);
    if Spells(text, o, w) {
      EmptySpellsNothing(text, o, w);
    }
  }

  /** Which words the character at `pos` adds. */
  lemma CommitsMember(text: string, o: Options, pos: nat, wordStart: nat, w: Word)
    requires Scanning(text, o, pos, wordStart) && pos < |text|
    ensures w in CommitsAt(text, o, pos, wordStart) <==>
            Breaks(text[pos], o) && wordStart <= w.start <= pos && IsWord(text, o, w)
  {
    CommitsSplit(text, o, pos, wordStart, w);
    if Breaks(text[pos], o) && wordStart <= w.start <= pos {
      ChunksEnded(text, o, pos, wordStart, w.start, w.end);
    }
  }

  /** Which word the end of the text adds. */
  lemma LastMember(text: string, o: Options, wordStart: nat, w: Word)
    requires Scanning(text, o, |text|, wordStart)
    ensures w in Commit(text, o, wordStart, |text|) <==> wordStart <= w.start && IsWord(text, o, w)
  {
    CommitMember(text, o, wordStart, |text|, w);
    if Spells(text, o, w) {
      EmptySpellsNothing(text, o, w);
      assert wordStart < w.start ==> !Breaks(text[w.start - 1], o);
    }
  }

  lemma {:induction false} ScanMembers(text: string, o: Options, pos: nat, wordStart: nat, w: Word)
    requires Scanning(text, o, pos, wordStart)
    ensures w in Scan(text, o, pos, wordStart) <==> wordStart <= w.start && IsWord(text, o, w)
    decreases |text| - pos
  {
    if pos == |text| {
      LastMember(text, o, wordStart, w);
    } else {
      CommitsMember(text, o, pos, wordStart, w);
      ScanMembers(text, o, pos + 1, if Breaks(text[pos], o) then pos + 1 else wordStart, w);
    }
  }

  /** `split_words` reports exactly the words of the text. */
  lemma WordsExactly(text: string, o: Options, w: Word)
    ensures w in Words(text, o) <==> IsWord(text, o, w)
  {
    ScanMembers(text, o, 0, 0, w);
  }

  /** Words in reading order, not overlapping, none of them empty. */
  ghost predicate InOrder(words: seq<Word>, from: nat, to: nat) {
    && (forall i :: 0 <= i < |words| ==> from <= words[i].start < words[i].end <= to && words[i].text != "")
    && (forall i, j :: 0 <= i < j < |words| ==> words[i].end <= words[j].start)
  }

  lemma CommitInOrder(text: string, o: Options, s: nat, e: nat)
    requires s <= e <= |text|
    ensures InOrder(Commit(text, o, s, e), s, e)
  {
    assert s == e ==> text[s..e] == "";
  }

  lemma JoinInOrder(a: seq<Word>, b: seq<Word>, from: nat, mid: nat, to: nat)
    requires InOrder(a, from, mid) && InOrder(b, mid, to) && from <= mid <= to
    ensures InOrder(a + b, from, to)
  {
  }

  lemma CommitsInOrder(text: string, o: Options, pos: nat, wordStart: nat)
    requires wordStart <= pos < |text|
    ensures InOrder(CommitsAt(text, o, pos, wordStart), wordStart, Next(text, o, pos, wordStart))
  {
    CommitInOrder(text, o, wordStart, pos);
    CommitInOrder(text, o, pos, pos + 1);
  }

  lemma {:induction false} ScanInOrder(text: string, o: Options, pos: nat, wordStart: nat)
    requires wordStart <= pos <= |text|
    ensures InOrder(Scan(text, o, pos, wordStart), wordStart, |text|)
    decreases |text| - pos
  {
    if pos == |text| {
      CommitInOrder(text, o, wordStart, pos);
    } else {
      var next := Next(text, o, pos, wordStart);
      CommitsInOrder(text, o, pos, wordStart);
      ScanInOrder(text, o, pos + 1, next);
      JoinInOrder(CommitsAt(text, o, pos, wordStart), Scan(text, o, pos + 1, next), wordStart, next, |text|);
    }
  }

  // ----- cutting the front off

  function Shift(words: seq<Word>, k: nat): (r: seq<Word>)
    ensures |r| == |words|
  {
    seq(|words|, i requires 0 <= i < |words| => Word(words[i].text, words[i].start + k, words[i].end + k))
  }

  ghost predicate Moved(w: Word, v: Word, k: nat) {
    w == Word(v.text, v.start + k, v.end + k)
  }

  /** The words `a` are the words `b`, their spans moved by `k`. */
  ghost predicate Shifted(a: seq<Word>, b: seq<Word>, k: nat) {
    |a| == |b| && forall i :: 0 <= i < |a| ==> Moved(a[i], b[i], k)
  }

  lemma ShiftedSum(x: seq<Word>, a: seq<Word>, b: seq<Word>, y: seq<Word>, c: seq<Word>, d: seq<Word>, k: nat)
    requires x == a + b && y == c + d && Shifted(a, c, k) && Shifted(b, d, k)
    ensures Shifted(x, y, k)
  {
  }

  lemma ShiftedIsShift(a: seq<Word>, b: seq<Word>, k: nat)
    requires Shifted(a, b, k)
    ensures a == Shift(b, k)
  {
    assert forall i :: 0 <= i < |a| ==> Moved(a[i], b[i], k);
  }

  /** `cut` is what is left of `text` behind `k`. */
  ghost predicate IsRest(text: string, k: nat, cut: string) {
    k + |cut| == |text| && forall i {:trigger cut[i]} :: 0 <= i < |cut| ==> text[k + i] == cut[i]
  }

  // positions `p`, `s`, `e` in the text are `q`, `r`, `f` in what is left of it

  lemma ShiftCommit(text: string, o: Options, k: nat, cut: string, s: nat, e: nat, r: nat, f: nat)
    requires IsRest(text, k, cut) && r <= f <= |cut| && s == k + r && e == k + f
    ensures Shifted(Commit(text, o, s, e), Commit(cut, o, r, f), k)
  {
    assert text[s..e] == cut[r..f];
  }

  lemma ShiftCommits(text: string, o: Options, k: nat, cut: string, p: nat, s: nat, q: nat, r: nat)
    requires IsRest(text, k, cut) && r <= q < |cut| && p == k + q && s == k + r
    ensures Shifted(CommitsAt(text, o, p, s), CommitsAt(cut, o, q, r), k)
    ensures Next(text, o, p, s) == k + Next(cut, o, q, r)
  {
    assert text[p] == cut[q];
    var a, b := Commit(text, o, s, p), Commit(text, o, p, p + 1);
    var c, d := Commit(cut, o, r, q), Commit(cut, o, q, q + 1);
    ShiftCommit(text, o, k, cut, s, p, r, q);
    ShiftCommit(text, o, k, cut, p, p + 1, q, q + 1);
    ShiftedSum(a + b, a, b, c + d, c, d, k);
    ShiftedSum([] + b, [], b, [] + d, [], d, k);
  }

  lemma ScanNext(text: string, o: Options, pos: nat, wordStart: nat)
    requires wordStart <= pos < |text|
    ensures Scan(text, o, pos, wordStart) ==
            CommitsAt(text, o, pos, wordStart) + Scan(text, o, pos + 1, Next(text, o, pos, wordStart))
  {
  }

  /** Scanning a text from `k` on is scanning what is left behind `k`. */
  lemma {:induction false} ShiftScan(text: string, o: Options, k: nat, cut: string, p: nat, s: nat, q: nat, r: nat)
    requires IsRest(text, k, cut) && r <= q <= |cut| && p == k + q && s == k + r
    ensures Shifted(Scan(text, o, p, s), Scan(cut, o, q, r), k)
    decreases |cut| - q
  {
    if q == |cut| {
      ShiftCommit(text, o, k, cut, s, p, r, q);
    } else {
      var t, u := Next(text, o, p, s), Next(cut, o, q, r);
      ShiftCommits(text, o, k, cut, p, s, q, r);
      ShiftScan(text, o, k, cut, p + 1, t, q + 1, u);
      ScanNext(text, o, p, s);
      ScanNext(cut, o, q, r);
      ShiftedSum(Scan(text, o, p, s), CommitsAt(text, o, p, s), Scan(text, o, p + 1, t),
                 Scan(cut, o, q, r), CommitsAt(cut, o, q, r), Scan(cut, o, q + 1, u), k);
    }
  }

  /** The words from a break at `e` on, `rest` being those behind it. */
  lemma FromBreak(text: string, o: Options, e: nat, rest: seq<Word>)
    requires e < |text| && Breaks(text[e], o) && rest == Scan(text, o, e + 1, e + 1)
    ensures Scan(text, o, e, e) == CommitsAt(text, o, e, e) + rest
  {
    assert Next(text, o, e, e) == e + 1;
    ScanNext(text, o, e, e);
  }

  /** At a break: what it commits behind the first word is found again from the end of that word. */
  lemma AfterCommits(text: string, o: Options, pos: nat, wordStart: nat, commits: seq<Word>, rest: seq<Word>)
    requires wordStart <= pos < |text| && commits == CommitsAt(text, o, pos, wordStart) != [] &&
             rest == Scan(text, o, pos + 1, pos + 1)
    ensures Breaks(text[pos], o) && commits[0].end <= |text| &&
            commits[1..] + rest == Scan(text, o, commits[0].end, commits[0].end)
  {
    if commits[0].end == pos {
      FirstCommit(text, o, pos, wordStart);
      FromBreak(text, o, pos, rest);
    } else {
      OnlyCommit(text, o, pos, wordStart);
      NoneBefore(rest);
    }
  }

  lemma NoneBefore(rest: seq<Word>)
    ensures [] + rest == rest
  {
  }

  /** The word a break ends comes first; what is behind it is what the break commits on its own. */
  lemma FirstCommit(text: string, o: Options, pos: nat, wordStart: nat)
    requires wordStart <= pos < |text| && CommitsAt(text, o, pos, wordStart) != [] &&
             CommitsAt(text, o, pos, wordStart)[0].end == pos
    ensures Breaks(text[pos], o) && CommitsAt(text, o, pos, wordStart)[1..] == CommitsAt(text, o, pos, pos)
  {
    EmptyCommit(text, o, pos);
  }

  lemma OnlyCommit(text: string, o: Options, pos: nat, wordStart: nat)
    requires wordStart <= pos < |text| && CommitsAt(text, o, pos, wordStart) != [] &&
             CommitsAt(text, o, pos, wordStart)[0].end != pos
    ensures Breaks(text[pos], o) && CommitsAt(text, o, pos, wordStart)[0].end == pos + 1 &&
            CommitsAt(text, o, pos, wordStart)[1..] == []
  {
  }

  lemma EmptyCommit(text: string, o: Options, pos: nat)
    requires pos <= |text|
    ensures Commit(text, o, pos, pos) == []
  {
    assert text[pos..pos] == "" && Clean("", o) == "";
  }

  lemma BehindHead<T>(a: seq<T>, b: seq<T>)
    requires a != []
    ensures (a + b)[0] == a[0] && (a + b)[1..] == a[1..] + b
  {
  }

  lemma AfterEnd(text: string, o: Options, wordStart: nat)
    requires wordStart <= |text| && Scan(text, o, |text|, wordStart) != []
    ensures var words := Scan(text, o, |text|, wordStart);
            words[0].end == |text| && words[1..] == Scan(text, o, |text|, |text|)
  {
    EmptyCommit(text, o, |text|);
  }

  lemma NothingCommitted(text: string, o: Options, pos: nat, wordStart: nat)
    requires wordStart <= pos < |text| && CommitsAt(text, o, pos, wordStart) == []
    ensures Scan(text, o, pos, wordStart) == Scan(text, o, pos + 1, Next(text, o, pos, wordStart))
  {
  }

  lemma AfterHead(text: string, o: Options, pos: nat, wordStart: nat)
    requires wordStart <= pos < |text| && CommitsAt(text, o, pos, wordStart) != []
    ensures var words := Scan(text, o, pos, wordStart);
            words != [] && words[0].end <= |text| && words[1..] == Scan(text, o, words[0].end, words[0].end)
  {
    var commits, rest := CommitsAt(text, o, pos, wordStart), Scan(text, o, pos + 1, pos + 1);
    AfterCommits(text, o, pos, wordStart, commits, rest);
    assert Next(text, o, pos, wordStart) == pos + 1;
    ScanNext(text, o, pos, wordStart);
    BehindHead(commits, rest);
  }

  /** Scanning on from the end of the first word finds the others. */
  lemma {:induction false} AfterFirst(text: string, o: Options, pos: nat, wordStart: nat)
    requires wordStart <= pos <= |text| && Scan(text, o, pos, wordStart) != []
    ensures var words := Scan(text, o, pos, wordStart);
            words[0].end <= |text| && words[1..] == Scan(text, o, words[0].end, words[0].end)
    decreases |text| - pos
  {
    if pos == |text| {
      AfterEnd(text, o, wordStart);
    } else {
      var next := Next(text, o, pos, wordStart);
      if CommitsAt(text, o, pos, wordStart) == [] {
        NothingCommitted(text, o, pos, wordStart);
        AfterFirst(text, o, pos + 1, next);
      } else {
        AfterHead(text, o, pos, wordStart);
      }
    }
  }

  // ----- text arriving behind

  lemma CommitsGrown(text: string, more: string, o: Options, pos: nat, wordStart: nat)
    requires wordStart <= pos < |text|
    ensures CommitsAt(text + more, o, pos, wordStart) == CommitsAt(text, o, pos, wordStart)
  {
    assert (text + more)[wordStart..pos] == text[wordStart..pos];
    assert (text + more)[pos..pos + 1] == text[pos..pos + 1];
  }

  /** A first word that has a successor is complete: text arriving behind does not change it. */
  lemma {:induction false} FirstStable(text: string, more: string, o: Options, pos: nat, wordStart: nat)
    requires wordStart <= pos <= |text| && |Scan(text, o, pos, wordStart)| >= 2
    ensures Scan(text + more, o, pos, wordStart) != []
    ensures Scan(text + more, o, pos, wordStart)[0] == Scan(text, o, pos, wordStart)[0]
    decreases |text| - pos
  {
    if pos < |text| {
      CommitsGrown(text, more, o, pos, wordStart);
      if CommitsAt(text, o, pos, wordStart) == [] {
        FirstStable(text, more, o, pos + 1, Next(text, o, pos, wordStart));
      }
    }
  }

  /** The words of `text`, cut behind its first word. */
  lemma CutFirst(text: string, o: Options)
    requires Words(text, o) != []
    ensures var w := Words(text, o)[0];
            0 < w.end <= |text| && w.text != "" && Words(text, o) == [w] + Shift(Words(text[w.end..], o), w.end)
  {
    var words := Words(text, o);
    ScanInOrder(text, o, 0, 0);
    AfterFirst(text, o, 0, 0);
    var cut := text[words[0].end..];
    ShiftScan(text, o, words[0].end, cut, words[0].end, words[0].end, 0, 0);
    ShiftedIsShift(words[1..], Words(cut, o), words[0].end);
    assert words == [words[0]] + words[1..];
  }
}
