/** How a pattern is read: its letters and the decimal numbers between them. */
module HyphenNumerals {
  import opened Subsequences
  import opened HyphenPatterns
  import opened HyphenPieces
  import opened Hyphenator

  /** A number in decimal, nothing for zero. */
  function Numeral(n: nat): string {
    if n == 0 then "" else Numeral(n / 10) + [('0' as int + n % 10) as char]
  }

  /** Letters with a number in front of, between and behind them. */
  function Pattern(letters: string, values: seq<nat>): string
    requires |values| == |letters| + 1
  {
    if letters == "" then Numeral(values[0])
    else Pattern(DropLast(letters), DropLast(values)) + [Last(letters)] + Numeral(Last(values))
  }

  lemma DigitRead(p: string, d: nat)
    requires d < 10
    ensures var c := ('0' as int + d) as char;
            && Letters(p + [c]) == Letters(p)
            && Points(p + [c]) == DropLast(Points(p)) + [10 * Last(Points(p)) + d]
  {
    assert DropLast(p + [('0' as int + d) as char]) == p;
  }

  lemma {:induction false} NumeralRead(p: string, n: nat)
    requires Last(Points(p)) == 0
    ensures Letters(p + Numeral(n)) == Letters(p) && Points(p + Numeral(n)) == DropLast(Points(p)) + [n]
  {
    if n == 0 {
      assert p + Numeral(n) == p;
    } else {
      NumeralRead(p, n / 10);
      DigitRead(p + Numeral(n / 10), n % 10);
      assert p + Numeral(n) == p + Numeral(n / 10) + [('0' as int + n % 10) as char];
    }
  }

  lemma NumberAlone(n: nat)
    ensures Letters(Numeral(n)) == "" && Points(Numeral(n)) == [n]
  {
    NumeralRead("", n);
    assert "" + Numeral(n) == Numeral(n);
    assert DropLast([0]) + [n] == [n];
  }

  lemma LetterRead(front: string, c: char, n: nat)
    requires !IsDigit(c)
    ensures Letters(front + [c] + Numeral(n)) == Letters(front) + [c]
    ensures Points(front + [c] + Numeral(n)) == Points(front) + [n]
  {
    var p := front + [c];
    assert DropLast(p) == front;
    NumeralRead(p, n);
    assert DropLast(Points(front) + [0]) == Points(front);
  }

  ghost predicate ReadsAs(p: string, letters: string, values: seq<nat>) {
    Letters(p) == letters && Points(p) == values
  }

  lemma LetterAdded(p: string, letters: string, values: seq<nat>, c: char, n: nat)
    requires ReadsAs(p, letters, values) && !IsDigit(c)
    ensures ReadsAs(p + [c] + Numeral(n), letters + [c], values + [n])
  {
    LetterRead(p, c, n);
  }

  lemma Regained<T>(s: seq<T>)
    requires s != []
    ensures DropLast(s) + [Last(s)] == s
  {
  }

  /** Whatever is written between letters is read back: the letters, and every number in its place. */
  lemma {:induction false} PatternRead(letters: string, values: seq<nat>)
    requires |values| == |letters| + 1 && forall c :: c in letters ==> !IsDigit(c)
    ensures Letters(Pattern(letters, values)) == letters && Points(Pattern(letters, values)) == values
  {
    if letters == "" {
      NumberAlone(values[0]);
      assert [values[0]] == values;
    } else {
      PatternRead(DropLast(letters), DropLast(values));
      LetterAdded(Pattern(DropLast(letters), DropLast(values)), DropLast(letters), DropLast(values), Last(letters),
                  Last(values));
      Regained(letters);
      Regained(values);
    }
  }

  lemma {:induction false} NumeralReadable(n: nat)
    ensures forall i :: 0 <= i < |Numeral(n)| ==> IsDigit(Numeral(n)[i])
  {
    if n > 0 {
      NumeralReadable(n / 10);
    }
  }

  /** Made of letters a-z and dots, such a pattern does not raise. */
  lemma {:induction false} PatternReadable(letters: string, values: seq<nat>)
    requires |values| == |letters| + 1 && forall i :: 0 <= i < |letters| ==> IsLetter(letters[i]) || letters[i] == '.'
    ensures Readable(Pattern(letters, values))
  {
    NumeralReadable(Last(values));
    if letters != "" {
      PatternReadable(DropLast(letters), DropLast(values));
    }
  }
}
