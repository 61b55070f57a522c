/** `split_words`, the word scanner of agent/livekit/agents/tokenize/_basic_word.py. */
module WordScanner {

  /** A word as reported: its text and the half-open span of the input it came from. */
  datatype Word = Word(text: string, start: nat, end: nat)

  /** Python's `str.isspace` on one code point. */
  predicate IsSpace(c: char) {
    || '\t' <= c <= '\r' || '\U{1c}' <= c <= ' ' || c == '\U{85}' || c == '\U{a0}' || c == '\U{1680}'
    || '\U{2000}' <= c <= '\U{200a}' || c == '\U{2028}' || c == '\U{2029}' || c == '\U{202f}'
    || c == '\U{205f}' || c == '\U{3000}'
  }

  /** The scripts written without spaces: CJK ideographs, kana, Thai. */
  predicate IsCharBased(c: char) {
    || '\U{4e00}' <= c <= '\U{9fff}' || '\U{3040}' <= c <= '\U{30ff}'
    || '\U{3400}' <= c <= '\U{4dbf}' || '\U{0e00}' <= c <= '\U{0e7f}'
  }

  const PUNCTUATIONS := "!\"#$%&'()*+,-./:;<=>?@[\\]^_`{|}~\U{b1}\U{2014}\U{2018}\U{2019}\U{201c}\U{201d}\U{2026}"

  /** `word.translate(table)`: the punctuation crossed out. */
  function Strip(s: string): string {
    if s == "" then ""
    else (if s[0] in PUNCTUATIONS then "" else [s[0]]) + Strip(s[1..])
  }

  /** What is done to a word, and whether the characters of scripts without spaces are words of their own. */
  datatype Options = Options(clean: string -> string, splitCharacter: bool)

  /** `split_words(..., ignore_punctuation, split_character)`. */
  function OptionsOf(ignorePunctuation: bool, splitCharacter: bool): Options {
    Options(if ignorePunctuation then Strip else Same, splitCharacter)
  }

  function Same(s: string): string {
    s
  }

  function Clean(s: string, o: Options): string {
    if s == "" then "" else o.clean(s)
  }

  /** `_add_current_word`: at most one word. */
  function Commit(text: string, o: Options, start: nat, end: nat): seq<Word>
    requires start <= end <= |text|
  {
    var word := Clean(text[start..end], o);
    if word == "" then [] else [Word(word, start, end)]
  }

  /** A position at which the current word ends without being part of it. */
  predicate Breaks(c: char, o: Options) {
    IsSpace(c) || (o.splitCharacter && IsCharBased(c))
  }

  /** What the character at `pos` adds: the word it ends, and itself when it is a word of its own. */
  function CommitsAt(text: string, o: Options, pos: nat, wordStart: nat): seq<Word>
    requires wordStart <= pos < |text|
  {
    if IsSpace(text[pos]) then Commit(text, o, wordStart, pos)
    else if o.splitCharacter && IsCharBased(text[pos]) then
      (if wordStart < pos then Commit(text, o, wordStart, pos) else []) + Commit(text, o, pos, pos + 1)
    else []
  }

  /** Where the current word begins after the character at `pos`. */
  function Next(text: string, o: Options, pos: nat, wordStart: nat): (r: nat)
    requires wordStart <= pos < |text|
    ensures wordStart <= r <= pos + 1
  {
    if Breaks(text[pos], o) then pos + 1 else wordStart
  }

  /** The words the scan still has to report from `pos`, the current word having begun at `wordStart`. */
  function Scan(text: string, o: Options, pos: nat, wordStart: nat): seq<Word>
    requires wordStart <= pos <= |text|
    decreases |text| - pos
  {
    if pos == |text| then Commit(text, o, wordStart, |text|)
    else
      CommitsAt(text, o, pos, wordStart) +
      Scan(text, o, pos + 1, Next(text, o, pos, wordStart))
  }

  function Words(text: string, o: Options): seq<Word> {
    Scan(text, o, 0, 0)
  }

  method AddCurrentWord(words: seq<Word>, text: string, o: Options, start: nat, end: nat) returns (r: seq<Word>)
    requires start <= end <= |text|
    ensures r == words + Commit(text, o, start, end)
  {
    var word := text[start..end];
    if word != "" {
      word := o.clean(word);
    }
    r := words;
    if word != "" {
      r := words + [Word(word, start, end)];
    }
  }

  lemma ScanStep(words: seq<Word>, text: string, o: Options, pos: nat, wordStart: nat)
    requires wordStart <= pos < |text|
    ensures words + Scan(text, o, pos, wordStart) ==
            words + CommitsAt(text, o, pos, wordStart)
            + Scan(text, o, pos + 1, Next(text, o, pos, wordStart))
  {
  }

  method AddCharacter(words: seq<Word>, text: string, o: Options, wordStart: nat, pos: nat)
    returns (r: seq<Word>, next: nat)
    requires wordStart <= pos < |text|
    ensures r == words + CommitsAt(text, o, pos, wordStart)
    ensures next == Next(text, o, pos, wordStart)
  {
    r, next := words, wordStart;
    if IsSpace(text[pos]) {
      r := AddCurrentWord(words, text, o, wordStart, pos);
      next := pos + 1;
      return;
    }
    if o.splitCharacter && IsCharBased(text[pos]) {
      if wordStart < pos {
        r := AddCurrentWord(words, text, o, wordStart, pos);
      }
      r := AddCurrentWord(r, text, o, pos, pos + 1);
      next := pos + 1;
    }
  }

  method SplitWords(text: string, o: Options) returns (words: seq<Word>)
    ensures words == Words(text, o)
  {
    words := [];
    var wordStart := 0;
    for pos := 0 to |text|
      invariant 0 <= wordStart <= pos
      invariant words + Scan(text, o, pos, wordStart) == Words(text, o)
    {
      ScanStep(words, text, o, pos, wordStart);
      words, wordStart := AddCharacter(words, text, o, wordStart, pos);
    }
    words := AddCurrentWord(words, text, o, wordStart, |text|);
  }
}
