/** `BufferedTokenStream` of agent/livekit/agents/tokenize/token_stream.py, over the word scanner. */
module TokenStream {
  import opened Strings
  import opened WordScanner
  import opened WordLaws

  datatype TokenData = TokenData(segment: nat, token: string)

  datatype Settings = Settings(options: Options, minTokenLen: nat, minCtxLen: nat)

  /** `_in_buf`, `_out_buf`, the number of segments flushed so far, and the events sent. */
  datatype State = State(inBuf: string, outBuf: string, segment: nat, events: seq<TokenData>)

  const INITIAL := State("", "", 0, [])

  function Texts(words: seq<Word>): (r: seq<string>)
    ensures |r| == |words|
  {
    seq(|words|, i requires 0 <= i < |words| => words[i].text)
  }

  /** A token put behind what the output buffer holds. */
  function Glue(out: string, token: string): string {
    (if out != "" then out + " " else "") + token
  }

  /** The first word of the input buffer moved to the output buffer, which is sent once long enough. */
  function MoveFirst(s: Settings, st: State): State
    requires Words(st.inBuf, s.options) != [] && Words(st.inBuf, s.options)[0].end <= |st.inBuf|
  {
    var first := Words(st.inBuf, s.options)[0];
    var out := Glue(st.outBuf, first.text);
    var rest := st.inBuf[first.end..];
    if |out| >= s.minTokenLen
    then State(rest, "", st.segment, st.events + [TokenData(st.segment, out)])
    else State(rest, out, st.segment, st.events)
  }

  /** The loop of `push_text`: the last word stays in the buffer. */
  function Drain(s: Settings, st: State): State
    decreases |st.inBuf|
  {
    if |Words(st.inBuf, s.options)| <= 1 then st
    else
      CutFirst(st.inBuf, s.options);
      Drain(s, MoveFirst(s, st))
  }

  function Push(s: Settings, st: State, text: string): State {
    var grown := st.(inBuf := st.inBuf + text);
    if |grown.inBuf| < s.minCtxLen then grown else Drain(s, grown)
  }

  /** The output buffer of `flush`, after the remaining words are joined to it. */
  function Remainder(s: Settings, st: State): string {
    var words := Words(st.inBuf, s.options);
    if words == [] then st.outBuf else Glue(st.outBuf, Join(" ", Texts(words)))
  }

  function Flush(s: Settings, st: State): State {
    var out := Remainder(s, st);
    State("", "", st.segment + 1, if out == "" then st.events else st.events + [TokenData(st.segment, out)])
  }

  class BufferedTokenStream {
    const settings: Settings
    var inBuf: string
    var outBuf: string
    var segment: nat
    var events: seq<TokenData>
    var closed: bool

    ghost function Value(): State
      reads this
    {
      State(inBuf, outBuf, segment, events)
    }

    constructor (settings: Settings)
      ensures this.settings == settings && Value() == INITIAL && !closed
    {
      this.settings := settings;
      inBuf, outBuf, segment, events, closed := "", "", 0, [], false;
    }

    /** `push_text`; `ok` is false when the stream is closed, which raises. */
    method PushText(text: string) returns (ok: bool)
      modifies this
      ensures ok == !old(closed) && closed == old(closed)
      ensures Value() == if ok then Push(settings, old(Value()), text) else old(Value())
    {
      if closed {
        return false;
      }
      ok := true;
      inBuf := inBuf + text;
      if |inBuf| < settings.minCtxLen {
        return;
      }
      ghost var grown := Value();
      var tokens := SplitWords(inBuf, settings.options);
      while |tokens| > 1
        invariant !closed && tokens == Words(inBuf, settings.options)
        invariant Drain(settings, Value()) == Drain(settings, grown)
        decreases |inBuf|
      {
        CutFirst(inBuf, settings.options);
        var tok := tokens[0];
        if outBuf != "" {
          outBuf := outBuf + " ";
        }
        outBuf := outBuf + tok.text;
        if |outBuf| >= settings.minTokenLen {
          events := events + [TokenData(segment, outBuf)];
          outBuf := "";
        }
        inBuf := inBuf[tok.end..];
        tokens := SplitWords(inBuf, settings.options);
      }
    }

    /** `flush`. */
    method FlushSegment() returns (ok: bool)
      modifies this
      ensures ok == !old(closed) && closed == old(closed)
      ensures Value() == if ok then Flush(settings, old(Value())) else old(Value())
    {
      if closed {
        return false;
      }
      ok := true;
      if inBuf != "" || outBuf != "" {
        var tokens := SplitWords(inBuf, settings.options);
        if tokens != [] {
          if outBuf != "" {
            outBuf := outBuf + " ";
          }
          outBuf := outBuf + Join(" ", Texts(tokens));
        }
        if outBuf != "" {
          events := events + [TokenData(segment, outBuf)];
        }
      }
      segment := segment + 1;
      inBuf := "";
      outBuf := "";
    }

    /** `end_input`: flush, then close. */
    method EndInput() returns (ok: bool)
      modifies this
      ensures ok == !old(closed) && closed
      ensures Value() == if ok then Flush(settings, old(Value())) else old(Value())
    {
      ok := FlushSegment();
      closed := true;
    }
  }
}
