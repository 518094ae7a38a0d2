/**
 * The local typing-indicator state machine of a chat window
 * (`RegisterTypingActivity` and the polling `TypingMonitorLoopAsync`).
 * Time is an integer number of milliseconds; each wake-up of the monitor
 * after its 500 ms delay is an explicit `Tick`.
 */
module TypingIndicator {
  import opened ChatLog

  /**
   * `lastTypingStateSent` is true while composing (typing-start sent, stop not yet);
   * `typingMonitorRunning` is true while a monitor loop exists.
   */
  datatype TypingState = TypingState(lastTypingStateSent: bool, lastTypingActivity: int, typingMonitorRunning: bool)

  /** A transition: the new state and the typing tokens handed to the transport. */
  datatype TypingStep = TypingStep(state: TypingState, tokens: seq<string>)

  /** Initially idle, no monitor. */
  const Idle := TypingState(false, 0, false)

  /** While composing, a monitor exists that will eventually send typing-stop. */
  predicate MonitorCovers(t: TypingState) {
    t.lastTypingStateSent ==> t.typingMonitorRunning
  }

  /** The tokens of one transition agree with the change of the composing flag. */
  predicate FlagFollowsTokens(before: bool, after: bool, tokens: seq<string>) {
    || (tokens == [] && after == before)
    || (tokens == [TypingStartToken] && !before && after)
    || (tokens == [TypingStopToken] && before && !after)
  }

  /** `RegisterTypingActivity`, after an edit that leaves the outgoing text non-blank (`hasText`) or blank. */
  function Activity(t: TypingState, hasText: bool, now: int): (r: TypingStep)
    ensures r.state.lastTypingStateSent == hasText
    ensures FlagFollowsTokens(t.lastTypingStateSent, hasText, r.tokens)
    ensures hasText ==> r.state.lastTypingActivity == now
    ensures !hasText ==> r.state.lastTypingActivity == t.lastTypingActivity
    ensures !hasText ==> r.state.typingMonitorRunning == t.typingMonitorRunning
    ensures hasText && !t.lastTypingStateSent ==> r.state.typingMonitorRunning
    ensures hasText && t.lastTypingStateSent ==> r.state.typingMonitorRunning == t.typingMonitorRunning
    ensures MonitorCovers(t) ==> MonitorCovers(r.state)
  {
    if hasText then
      var touched := t.(lastTypingActivity := now);
      if !touched.lastTypingStateSent then
        TypingStep(touched.(lastTypingStateSent := true, typingMonitorRunning := true), [TypingStartToken])
      else
        TypingStep(touched, [])
    else if t.lastTypingStateSent then
      TypingStep(t.(lastTypingStateSent := false), [TypingStopToken])
    else
      TypingStep(t, [])
  }

  /** One wake-up of the monitor loop: it ends when composing stopped, or sends stop after 2000 ms idle. */
  function Tick(t: TypingState, now: int): (r: TypingStep)
    ensures r.tokens == [TypingStopToken] <==>
      t.typingMonitorRunning && t.lastTypingStateSent && now - t.lastTypingActivity >= TypingIdleMs
    ensures FlagFollowsTokens(t.lastTypingStateSent, r.state.lastTypingStateSent, r.tokens)
    ensures !t.typingMonitorRunning ==> r == TypingStep(t, [])
    ensures r.state.lastTypingActivity == t.lastTypingActivity
    ensures r.state.typingMonitorRunning ==> t.typingMonitorRunning && r.state.lastTypingStateSent
    ensures MonitorCovers(t) ==> MonitorCovers(r.state)
  {
    if !t.typingMonitorRunning then TypingStep(t, [])
    else if !t.lastTypingStateSent then TypingStep(t.(typingMonitorRunning := false), [])
    else if now - t.lastTypingActivity >= TypingIdleMs then
      TypingStep(t.(lastTypingStateSent := false, typingMonitorRunning := false), [TypingStopToken])
    else TypingStep(t, [])
  }

  /** An input to the machine: an edit of the outgoing text, or a wake-up of the monitor. */
  datatype TypingEvent = Edited(hasText: bool, at: int) | Woke(at: int)

  function Apply(t: TypingState, e: TypingEvent): TypingStep {
    match e
    case Edited(hasText, at) => Activity(t, hasText, at)
    case Woke(at) => Tick(t, at)
  }

  /** The state after a sequence of events and every token sent on the way. */
  function Run(t: TypingState, events: seq<TypingEvent>): TypingStep
    decreases |events|
  {
    if events == [] then TypingStep(t, [])
    else
      var first := Apply(t, events[0]);
      var rest := Run(first.state, events[1..]);
      TypingStep(rest.state, first.tokens + rest.tokens)
  }

  /** Tokens alternate, starting with stop when already composing and with start otherwise. */
  predicate Alternating(tokens: seq<string>, composing: bool) {
    forall i :: 0 <= i < |tokens| ==>
      tokens[i] == (if (i % 2 == 0) != composing then TypingStartToken else TypingStopToken)
  }

  // ---------------------------------------------------------------------------
  // Properties
  // ---------------------------------------------------------------------------

  /**
   * Over any run, typing-start and typing-stop strictly alternate, and the
   * machine is composing at the end exactly when the tokens leave it so.
   */
  lemma {:induction false} RunAlternates(t: TypingState, events: seq<TypingEvent>)
    ensures Alternating(Run(t, events).tokens, t.lastTypingStateSent)
    ensures Run(t, events).state.lastTypingStateSent ==
      (t.lastTypingStateSent != (|Run(t, events).tokens| % 2 == 1))
    decreases |events|
  {
    if events != [] {
      var first := Apply(t, events[0]);
      var rest := Run(first.state, events[1..]);
      RunAlternates(first.state, events[1..]);
      var tokens := first.tokens + rest.tokens;
      assert Run(t, events).tokens == tokens;
      if first.tokens != [] {
        assert first.state.lastTypingStateSent == !t.lastTypingStateSent;
        forall i | 0 <= i < |tokens|
          ensures tokens[i] == (if (i % 2 == 0) != t.lastTypingStateSent then TypingStartToken else TypingStopToken)
        {
          if i > 0 {
            assert tokens[i] == rest.tokens[i - 1];
            assert ((i - 1) % 2 == 0) == !(i % 2 == 0);
          }
        }
      }
    }
  }

  /** Over any run, a composing machine always has its monitor. */
  lemma {:induction false} RunKeepsMonitor(t: TypingState, events: seq<TypingEvent>)
    requires MonitorCovers(t)
    ensures MonitorCovers(Run(t, events).state)
    decreases |events|
  {
    if events != [] {
      RunKeepsMonitor(Apply(t, events[0]).state, events[1..]);
    }
  }

  /** Starting idle, typing, pausing 2000 ms and waking sends exactly start then stop and ends the monitor. */
  lemma IdleStopsTyping(typedAt: int, wokeAt: int)
    requires wokeAt - typedAt >= TypingIdleMs
    ensures Run(Idle, [Edited(true, typedAt), Woke(wokeAt)]) ==
      TypingStep(TypingState(false, typedAt, false), [TypingStartToken, TypingStopToken])
  {
    var events := [Edited(true, typedAt), Woke(wokeAt)];
    assert events[1..] == [Woke(wokeAt)] && events[1..][1..] == [];
    var composing := TypingState(true, typedAt, true);
    assert Apply(Idle, events[0]) == TypingStep(composing, [TypingStartToken]);
    assert Run(composing, [Woke(wokeAt)]) == TypingStep(TypingState(false, typedAt, false), [TypingStopToken]);
  }

  /**
   * A record of sent tokens that alternates from start, and whose parity is the
   * composing flag, stays so when one transition's tokens are appended.
   */
  lemma AlternatingExtend(sent: seq<string>, before: bool, after: bool, tokens: seq<string>)
    requires Alternating(sent, false) && before == (|sent| % 2 == 1)
    requires FlagFollowsTokens(before, after, tokens)
    ensures Alternating(sent + tokens, false) && after == (|sent + tokens| % 2 == 1)
  {
  }
}
