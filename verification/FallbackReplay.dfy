/**
  `FallbackSynthesizeStream` of agent/livekit/agents/tts/fallback_adapter.py: one task forwards the input to
  the channel of the current provider while another moves from provider to provider, replaying what came
  before. A step is what runs between two awaits of either.
 */
module FallbackReplay {
  import opened Wrappers
  import opened Subsequences

  /** What the input carries: a token, maybe empty, or a flush mark. */
  datatype Item = Token(text: string) | FlushMark

  datatype Channel = Channel(sent: seq<Item>, closed: bool)

  /** Where the run over the providers stands. */
  datatype Pc =
    | Between(next: nat)
    | Trying(provider: nat)
    | Returned
    | Failed     // every provider failed

  /**
    `received` is all the forwarding task has taken from the input, over all runs, and `tried` the providers
    tried in this run; both only record the past.
   */
  datatype State = State(
    channel: Option<Channel>, pushed: seq<string>, inputDone: bool, available: seq<bool>, allFailed: bool, pc: Pc,
    received: seq<Item>, tried: seq<nat>)

  datatype Event =
    | Input(item: Item)      // the forwarding task takes an item
    | InputEnds              // it finds the input closed
    | Advance                // the loop over the providers reaches the next one to try, or its end
    | Succeeds
    | Fails(hadAudio: bool)  // the provider raised, with or without audio counted so far
    | Recovers(provider: nat)
    | Restart                // `_run` is called again after it raised, or returned without the audio expected

  function Start(available: seq<bool>, pushed: seq<string>, received: seq<Item>): State {
    State(None, pushed, false, available, forall i :: 0 <= i < |available| ==> !available[i], Between(0), received, [])
  }

  predicate Running(st: State) {
    st.pc.Between? || st.pc.Trying?
  }

  predicate Enabled(st: State, e: Event) {
    match e
    case Input(_) => Running(st) && !st.inputDone
    case InputEnds => Running(st) && !st.inputDone
    case Advance => st.pc.Between?
    case Succeeds => st.pc.Trying?
    case Fails(_) => st.pc.Trying? && st.pc.provider < |st.available|
    case Recovers(p) => p < |st.available|
    case Restart => !Running(st)
  }

  /** `send_nowait`: `None` when the channel is closed. */
  function Send(ch: Channel, item: Item): Option<Channel> {
    if ch.closed then None else Some(ch.(sent := ch.sent + [item]))
  }

  function Replay(texts: seq<string>): seq<Item> {
    seq(|texts|, i requires 0 <= i < |texts| => Token(texts[i]))
  }

  /** The first provider from `i` on that is to be tried. */
  function NextTo(st: State, i: nat): (k: nat)
    ensures i <= |st.available| ==> i <= k <= |st.available|
    decreases |st.available| - i
  {
    if i >= |st.available| || st.available[i] || st.allFailed then i else NextTo(st, i + 1)
  }

  /** `None` when something is sent on a closed channel. */
  function Next(st: State, e: Event): Option<State>
    requires Enabled(st, e)
  {
    match e
    case Input(item) =>
      var got := st.(received := st.received + [item],
                     pushed := if item.Token? && item.text != "" then st.pushed + [item.text] else st.pushed);
      if st.channel == None then Some(got)
      else
        (match Send(st.channel.value, item)
         case None => None
         case Some(ch) => Some(got.(channel := Some(ch))))
    case InputEnds =>
      var ch := if st.channel == None then None else Some(st.channel.value.(closed := true));
      Some(st.(inputDone := true, channel := ch))
    case Advance =>
      var k := NextTo(st, st.pc.next);
      if k >= |st.available| then Some(st.(pc := Failed))
      else Some(st.(pc := Trying(k), channel := Some(Channel(Replay(st.pushed), st.inputDone)),
                    tried := st.tried + [k]))
    case Succeeds => Some(st.(pc := Returned))
    case Fails(hadAudio) =>
      var p := st.pc.provider;
      Some(st.(available := st.available[p := false], pc := if hadAudio then Returned else Between(p + 1)))
    case Recovers(p) => Some(st.(available := st.available[p := true]))
    case Restart => Some(Start(st.available, st.pushed, st.received))
  }

  /** A run of events; `None` when a step was not possible or raised `ChanClosed`. */
  function Run(st: State, events: seq<Event>): Option<State> {
    if events == [] then Some(st)
    else match Run(st, DropLast(events))
      case None => None
      case Some(mid) => if Enabled(mid, Last(events)) then Next(mid, Last(events)) else None
  }

  /** The text that counts: the tokens that are not empty. */
  function Texts(items: seq<Item>): seq<string> {
    if items == [] then []
    else Texts(DropLast(items)) + (if Last(items).Token? && Last(items).text != "" then [Last(items).text] else [])
  }

  lemma TextsSnoc(items: seq<Item>, x: Item)
    ensures Texts(items + [x]) == Texts(items) + (if x.Token? && x.text != "" then [x.text] else [])
  {
    assert DropLast(items + [x]) == items;
  }

  lemma {:induction false} TextsReplay(texts: seq<string>)
    requires NonEmpty(texts)
    ensures Texts(Replay(texts)) == texts
  {
    if texts == [] {
      assert Replay(texts) == [];
    } else {
      var front := DropLast(texts);
      assert texts == front + [Last(texts)];
      assert Last(texts) in texts && forall t :: t in front ==> t in texts;
      TextsReplay(front);
      assert Replay(texts) == Replay(front) + [Token(Last(texts))];
      TextsSnoc(Replay(front), Token(Last(texts)));
    }
  }

  ghost predicate NonEmpty(texts: seq<string>) {
    forall t :: t in texts ==> t != ""
  }

  ghost predicate TextOk(pushed: seq<string>, received: seq<Item>, channel: Option<Channel>, inputDone: bool) {
    && pushed == Texts(received) && NonEmpty(pushed)
    && (channel.Some? ==> Texts(channel.value.sent) == pushed && (channel.value.closed <==> inputDone))
  }

  ghost predicate Increasing(s: seq<nat>, bound: nat) {
    && (forall i :: 0 <= i < |s| ==> s[i] < bound)
    && (forall i, j :: 0 <= i < j < |s| ==> s[i] < s[j])
  }

  ghost predicate OrderOk(pc: Pc, n: nat, tried: seq<nat>) {
    match pc
    case Between(k) => k <= n && Increasing(tried, k)
    case Trying(p) => p < n && Increasing(tried, p + 1)
    case _ => Increasing(tried, n)
  }

  ghost predicate Inv(st: State) {
    && TextOk(st.pushed, st.received, st.channel, st.inputDone) && OrderOk(st.pc, |st.available|, st.tried)
    && (st.pc.Trying? ==> st.channel.Some?)
  }

  lemma InputKeeps(st: State, item: Item)
    requires Inv(st) && Enabled(st, Input(item))
    ensures Next(st, Input(item)).Some? && Inv(Next(st, Input(item)).value)
  {
    TextsSnoc(st.received, item);
    if st.channel.Some? {
      TextsSnoc(st.channel.value.sent, item);
    }
  }

  lemma IncreasingSnoc(s: seq<nat>, k: nat, bound: nat)
    requires Increasing(s, k) && k < bound
    ensures Increasing(s + [k], bound)
  {
  }

  lemma IncreasingUp(s: seq<nat>, k: nat, bound: nat)
    requires Increasing(s, k) && k <= bound
    ensures Increasing(s, bound)
  {
  }

  lemma AdvanceKeeps(st: State)
    requires Inv(st) && Enabled(st, Advance)
    ensures Inv(Next(st, Advance).value)
  {
    TextsReplay(st.pushed);
    var k := NextTo(st, st.pc.next);
    IncreasingUp(st.tried, st.pc.next, k);
    if k < |st.available| {
      IncreasingSnoc(st.tried, k, k + 1);
    }
  }

  lemma StepKeeps(st: State, e: Event)
    requires Inv(st) && Enabled(st, e)
    ensures Next(st, e).Some? && Inv(Next(st, e).value)
  {
    match e
    case Input(item) => InputKeeps(st, item);
    case Advance => AdvanceKeeps(st);
    case Succeeds => IncreasingUp(st.tried, st.pc.provider + 1, |st.available|);
    case Fails(_) => IncreasingUp(st.tried, st.pc.provider + 1, |st.available|);
    case _ =>
  }

  /** A run whose steps are all possible when their turn comes. */
  ghost predicate Possible(st: State, events: seq<Event>) {
    events == [] || (Possible(st, DropLast(events)) &&
                     (Run(st, DropLast(events)).Some? ==> Enabled(Run(st, DropLast(events)).value, Last(events))))
  }

  lemma {:induction false} RunKeeps(st: State, events: seq<Event>)
    requires Inv(st) && Possible(st, events)
    ensures Run(st, events).Some? && Inv(Run(st, events).value)
  {
    if events != [] {
      RunKeeps(st, DropLast(events));
      StepKeeps(Run(st, DropLast(events)).value, Last(events));
    }
  }

  /**
    At every moment, whatever failed and however the input came: the current provider's channel has been sent
    exactly the text received so far, in order, and is closed exactly when the input has ended. So nothing is
    ever sent on a closed channel.
   */
  lemma ReplayComplete(available: seq<bool>, events: seq<Event>)
    requires Possible(Start(available, [], []), events)
    ensures var run := Run(Start(available, [], []), events);
            && run.Some?
            && (run.value.channel.Some? ==>
                  && Texts(run.value.channel.value.sent) == Texts(run.value.received)
                  && (run.value.channel.value.closed <==> run.value.inputDone))
            && (run.value.pc.Trying? ==> run.value.channel.Some?)
  {
    RunKeeps(Start(available, [], []), events);
  }

  /** Within one run the providers are tried in their order, each at most once. */
  lemma TriedInOrder(available: seq<bool>, events: seq<Event>)
    requires Possible(Start(available, [], []), events)
    ensures var run := Run(Start(available, [], []), events);
            run.Some? && forall i, j :: 0 <= i < j < |run.value.tried| ==> run.value.tried[i] < run.value.tried[j]
  {
    RunKeeps(Start(available, [], []), events);
  }

  // ----- which provider is tried

  lemma {:induction false} NextToIs(st: State, i: nat)
    requires i <= |st.available|
    ensures var k := NextTo(st, i);
            && (k < |st.available| ==> st.available[k] || st.allFailed)
            && forall j :: i <= j < k ==> !st.available[j] && !st.allFailed
    decreases |st.available| - i
  {
    if i < |st.available| && !st.available[i] && !st.allFailed {
      NextToIs(st, i + 1);
    }
  }

  /**
    The loop goes on to the first provider that is available, or to the very next one when none was at the start of
    the run; it raises exactly when none is left.
   */
  lemma AdvanceTries(st: State)
    requires Inv(st) && Enabled(st, Advance)
    ensures var next := Next(st, Advance).value;
            var from, n := st.pc.next, |st.available|;
            match next.pc
            case Trying(p) => && from <= p < n && (st.available[p] || st.allFailed)
                              && (forall j :: from <= j < p ==> !st.available[j] && !st.allFailed)
                              && next.tried == st.tried + [p]
            case Failed => forall j :: from <= j < n ==> !st.available[j] && !st.allFailed
            case _ => false
  {
    NextToIs(st, st.pc.next);
  }

  /** At the start of a run `all_failed` says that no provider is available. */
  lemma AllFailedAtStart(available: seq<bool>, pushed: seq<string>, received: seq<Item>)
    ensures Start(available, pushed, received).allFailed <==> true !in available
  {
  }

  /**
    A provider that raises is not available afterwards; the others are as they were. The next one is tried
    unless audio went out.
   */
  lemma FailureIs(st: State, hadAudio: bool)
    requires Inv(st) && Enabled(st, Fails(hadAudio))
    ensures var next := Next(st, Fails(hadAudio)).value;
            && |next.available| == |st.available|
            && (forall i :: 0 <= i < |st.available| ==> (next.available[i] <==> st.available[i] && i != st.pc.provider))
            && next.pc == (if hadAudio then Returned else Between(st.pc.provider + 1))
  {
  }

  /** A provider that recovers is available, for the rest of this run and for the next. */
  lemma RecoveredIsTried(st: State, p: nat)
    requires Inv(st) && Enabled(st, Recovers(p))
    ensures var next := Next(st, Recovers(p)).value;
            && next.available == st.available[p := true] && next.pc == st.pc && next.tried == st.tried
            && (st.pc == Between(p) ==> Next(next, Advance).value.pc == Trying(p))
  {
  }

  /** Once audio went out no other provider is tried in that run, whatever happens. */
  lemma {:induction false} AudioEndsRun(st: State, events: seq<Event>)
    requires Inv(st) && Enabled(st, Fails(true)) && Possible(Next(st, Fails(true)).value, events)
    requires Restart !in events
    ensures Run(Next(st, Fails(true)).value, events).Some?
    ensures Run(Next(st, Fails(true)).value, events).value.tried == st.tried
    ensures Run(Next(st, Fails(true)).value, events).value.pc == Returned
  {
    var ended := Next(st, Fails(true)).value;
    StepKeeps(st, Fails(true));
    if events != [] {
      var front := DropLast(events);
      assert events == front + [Last(events)];
      assert Restart !in front && Last(events) in events;
      AudioEndsRun(st, front);
      RunKeeps(ended, front);
      assert Enabled(Run(ended, front).value, Last(events));
    }
  }

  // ----- the classes

  class Chan {
    var sent: seq<Item>
    var closed: bool

    ghost function Value(): Channel
      reads this
    {
      Channel(sent, closed)
    }

    constructor ()
      ensures Value() == Channel([], false)
    {
      sent, closed := [], false;
    }

    /** `ok` false when it raises `ChanClosed`. */
    method SendNowait(item: Item) returns (ok: bool)
      modifies this
      ensures ok <==> Send(old(Value()), item).Some?
      ensures ok ==> Value() == Send(old(Value()), item).value
      ensures !ok ==> Value() == old(Value())
    {
      if closed {
        return false;
      }
      sent := sent + [item];
      ok := true;
    }

    method Close()
      modifies this
      ensures Value() == old(Value()).(closed := true)
    {
      closed := true;
    }
  }

  class FallbackSynthesizeStream {
    var newInputCh: Chan?
    var pushedTokens: seq<string>
    var inputDone: bool
    var available: seq<bool>
    var allFailed: bool
    ghost var model: State

    /** The fields are those of the machine's state. */
    ghost predicate Valid()
      reads this, newInputCh
    {
      && model.channel == (if newInputCh == null then None else Some(newInputCh.Value()))
      && model.pushed == pushedTokens && model.inputDone == inputDone
      && model.available == available && model.allFailed == allFailed
    }

    /** The start of `_run`: the tokens of an earlier run are kept. */
    constructor (available: seq<bool>, pushedTokens: seq<string>, ghost received: seq<Item>)
      ensures Valid() && model == Start(available, pushedTokens, received)
    {
      newInputCh, inputDone := null, false;
      this.pushedTokens, this.available := pushedTokens, available;
      this.allFailed := forall i :: 0 <= i < |available| ==> !available[i];
      model := Start(available, pushedTokens, received);
    }

    /** One item in `_forward_input_task`. */
    method Forward(data: Item) returns (ok: bool)
      requires Valid() && Enabled(model, Event.Input(data))
      modifies `pushedTokens, `model, newInputCh
      ensures ok <==> Next(old(model), Event.Input(data)).Some?
      ensures ok ==> Valid() && model == Next(old(model), Event.Input(data)).value
    {
      if newInputCh != null {
        ok := newInputCh.SendNowait(data);
        if !ok {
          return;
        }
      }
      if data.Token? && data.text != "" {
        pushedTokens := pushedTokens + [data.text];
      }
      model := Next(model, Event.Input(data)).value;
      ok := true;
    }

    /** The end of `_forward_input_task`. */
    method ForwardEnds()
      requires Valid() && Enabled(model, InputEnds)
      modifies `inputDone, `model, newInputCh
      ensures Valid() && model == Next(old(model), InputEnds).value
    {
      if newInputCh != null {
        newInputCh.Close();
      }
      inputDone := true;
      model := Next(model, InputEnds).value;
    }

    /** A new channel with the tokens so far. */
    method NewChannel() returns (ch: Chan)
      requires Valid()
      ensures fresh(ch) && ch.Value() == Channel(Replay(pushedTokens), inputDone)
    {
      ch := new Chan();
      for i := 0 to |pushedTokens|
        invariant ch.Value() == Channel(Replay(pushedTokens[..i]), false)
      {
        var _ := ch.SendNowait(Token(pushedTokens[i]));
        assert Replay(pushedTokens[..i + 1]) == Replay(pushedTokens[..i]) + [Token(pushedTokens[i])];
      }
      assert pushedTokens[..|pushedTokens|] == pushedTokens;
      if inputDone {
        ch.Close();
      }
    }

    /** The loop over the providers, up to the next one tried; past the last, `_run` raises. */
    method TryNext(from: nat) returns (provider: nat)
      requires Valid() && model.pc == Between(from) && from <= |available|
      modifies `newInputCh, `model
      ensures Valid() && model == Next(old(model), Advance).value
      ensures if provider < |available| then model.pc == Trying(provider) else model.pc == Failed
    {
      provider := from;
      while provider < |available| && !available[provider] && !allFailed
        invariant from <= provider <= |available| && NextTo(model, provider) == NextTo(model, from)
      {
        provider := provider + 1;
      }
      if provider < |available| {
        newInputCh := NewChannel();
      }
      model := Next(model, Advance).value;
    }

    /** The `except` branch. */
    method ProviderFailed(provider: nat, hadAudio: bool)
      requires Valid() && model.pc == Trying(provider) && provider < |available|
      modifies `available, `model
      ensures Valid() && model == Next(old(model), Event.Fails(hadAudio)).value
    {
      if available[provider] {
        available := available[provider := false];
      }
      model := Next(model, Event.Fails(hadAudio)).value;
    }
  }
}
