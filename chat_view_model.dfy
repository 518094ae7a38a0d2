/**
 * The view model of one chat window (`ChatWindowViewModel`): the conversation
 * log with its typing entry and nudge burst, sending, the typing indicator and
 * the history.
 *
 * Each change of the log is first a function on a `LogState` value, and the
 * properties are lemmas about those functions; the class's methods change its
 * fields and promise that the new fields are that function of the old ones.
 * `now` is the clock reading (milliseconds) the source takes from
 * `DateTime.Now` and `DateTime.UtcNow`.
 */
module ChatViewModel {
  import opened Wrappers
  import opened Text
  import opened LineTrimming
  import opened ChatLog
  import opened TypingIndicator
  import opened Transport

  /**
   * The log part of the view model: `Messages`, the typing entry and nudge
   * anchor (by id), the burst count, and the id the next new entry gets.
   */
  datatype LogState = LogState(
    messages: seq<ChatMessage>,
    typingMessage: Option<nat>,
    pendingNudgeCount: int,
    lastNudgeMessage: Option<nat>,
    nextId: nat)

  /**
   * Ids are unique and below `nextId`; an entry is a typing entry exactly when
   * `typingMessage` names it; the burst count is zero exactly when there is no
   * anchor. The typing entry and the anchor may be missing from the log.
   */
  predicate LogInvariant(s: LogState) {
    && DistinctIds(s.messages)
    && IdsBelow(s.messages, s.nextId)
    && (forall i :: 0 <= i < |s.messages| ==> (s.messages[i].isTyping <==> s.typingMessage == Some(s.messages[i].id)))
    && (s.typingMessage.Some? ==> s.typingMessage.value < s.nextId)
    && s.pendingNudgeCount >= 0
    && (s.pendingNudgeCount == 0 <==> s.lastNudgeMessage.None?)
    && (s.lastNudgeMessage.Some? ==> s.lastNudgeMessage.value < s.nextId)
  }

  const Empty := LogState([], None, 0, None, 0)

  /** `ClearPendingNudge`: the burst ends; the anchor entry itself stays in the log. */
  function ClearedNudge(s: LogState): LogState {
    s.(pendingNudgeCount := 0, lastNudgeMessage := None)
  }

  function IncomingEntry(id: nat, text: string, now: int): ChatMessage {
    ChatMessage(id, text, false, now, false, true)
  }

  function TypingEntry(id: nat, now: int): ChatMessage {
    ChatMessage(id, TypingText, false, now, true, false)
  }

  /**
   * `AddIncomingMessage`: the burst ends; the normalised text is a typing-start
   * (a typing entry appears unless one is tracked), a typing-stop (the tracked
   * entry goes), null (nothing), or text (a delivered incoming entry).
   */
  function Incoming(s: LogState, text: Option<string>, nl: NewLine, now: int): LogState {
    var c := ClearedNudge(s);
    var t := NormalizeMessage(text, nl);
    if t == Some(TypingStartToken) then
      if c.typingMessage.None? then
        c.(messages := c.messages + [TypingEntry(c.nextId, now)], typingMessage := Some(c.nextId), nextId := c.nextId + 1)
      else c
    else if t == Some(TypingStopToken) then
      if c.typingMessage.Some? then c.(messages := RemoveId(c.messages, c.typingMessage.value), typingMessage := None)
      else c
    else if t.None? then c
    else c.(messages := c.messages + [IncomingEntry(c.nextId, t.value, now)], nextId := c.nextId + 1)
  }

  /**
   * `AddIncomingNudge`: the burst count goes up; the first nudge of a burst
   * appends a "Nudge" entry (the anchor), later ones relabel the anchor and
   * move its timestamp.
   */
  function Nudge(s: LogState, now: int): LogState {
    var count := s.pendingNudgeCount + 1;
    if s.lastNudgeMessage.None? then
      s.(pendingNudgeCount := count, messages := s.messages + [ChatMessage(s.nextId, "Nudge", false, now, false, false)],
         lastNudgeMessage := Some(s.nextId), nextId := s.nextId + 1)
    else
      s.(pendingNudgeCount := count, messages := Retext(s.messages, s.lastNudgeMessage.value, NudgeLabel(count), now))
  }

  /** Nudges arriving at the given times, in order. */
  function Nudges(s: LogState, times: seq<int>): LogState
    decreases |times|
  {
    if times == [] then s else Nudge(Nudges(s, times[..|times| - 1]), times[|times| - 1])
  }

  /** What `SendAsync` sends for the outgoing text: normalised, then without blank edge lines. */
  function SendText(outgoing: Option<string>, nl: NewLine): Option<string> {
    if outgoing.None? then None
    else Some(Join(nl, EdgeTrimmed(Lines(NormalizeMessage(outgoing, nl).value))))
  }

  /**
   * `SendAsync` on the log: the burst ends; a blank text adds nothing,
   * otherwise an own entry is appended, delivered when the send succeeded.
   */
  function Sent(s: LogState, outgoing: Option<string>, nl: NewLine, delivered: bool, now: int): LogState {
    var c := ClearedNudge(s);
    var text := SendText(outgoing, nl);
    if IsBlank(text) then c
    else c.(messages := c.messages + [ChatMessage(c.nextId, text.value, true, now, false, delivered)], nextId := c.nextId + 1)
  }

  /**
   * `LoadHistoryAsync` once the file is read: without a history key or without
   * a readable document nothing changes; otherwise the log is replaced by one
   * entry per record. The typing entry and anchor references are kept.
   */
  function Loaded(s: LogState, key: Option<string>, loaded: Option<seq<HistoryRecord>>): LogState {
    if key.None? || loaded.None? then s
    else s.(messages := Rebuilt(loaded.value, s.nextId), nextId := s.nextId + |loaded.value|)
  }

  /** `ClearAsync` on the log: no entries, no burst; the typing reference is kept. */
  function Cleared(s: LogState): LogState {
    ClearedNudge(s.(messages := []))
  }

  // ---------------------------------------------------------------------------
  // Properties of the log
  // ---------------------------------------------------------------------------

  /** The log never shows two typing entries. */
  lemma AtMostOneTypingEntry(s: LogState)
    requires LogInvariant(s)
    ensures AtMostOneTyping(s.messages)
  {
    forall i, j | 0 <= i < |s.messages| && 0 <= j < |s.messages| && s.messages[i].isTyping && s.messages[j].isTyping
      ensures i == j
    {
      assert s.messages[i].id == s.messages[j].id;
    }
  }

  /** Every incoming payload ends the nudge burst and keeps the invariant. */
  lemma IncomingKeepsInvariant(s: LogState, text: Option<string>, nl: NewLine, now: int)
    requires LogInvariant(s)
    ensures var r := Incoming(s, text, nl, now);
      LogInvariant(r) && r.pendingNudgeCount == 0 && r.lastNudgeMessage.None?
  {
    var c := ClearedNudge(s);
    var t := NormalizeMessage(text, nl);
    if t == Some(TypingStopToken) && c.typingMessage.Some? {
      TypingStopRemovesTypingEntry(s, text, nl, now);
      var r := Incoming(s, text, nl, now);
      forall i, j | 0 <= i < j < |r.messages|
        ensures r.messages[i].id != r.messages[j].id
      {
        var k := IndexOfId(s.messages, s.typingMessage.value);
        var i', j' := if i < k then i else i + 1, if j < k then j else j + 1;
        assert r.messages[i] == s.messages[i'] && r.messages[j] == s.messages[j'];
      }
      forall i | 0 <= i < |r.messages|
        ensures r.messages[i].id < r.nextId
      {
        var k := IndexOfId(s.messages, s.typingMessage.value);
        assert r.messages[i] == s.messages[if i < k then i else i + 1];
      }
    }
  }

  /** A typing-start with no tracked typing entry appends exactly one typing entry. */
  lemma TypingStartAppendsEntry(s: LogState, text: Option<string>, nl: NewLine, now: int)
    requires LogInvariant(s) && s.typingMessage.None?
    requires NormalizeMessage(text, nl) == Some(TypingStartToken)
    ensures var r := Incoming(s, text, nl, now);
      r.messages == s.messages + [TypingEntry(s.nextId, now)] && r.typingMessage == Some(s.nextId)
      && AtMostOneTyping(r.messages)
  {
    IncomingKeepsInvariant(s, text, nl, now);
    AtMostOneTypingEntry(Incoming(s, text, nl, now));
  }

  /** A typing-stop removes every typing entry and nothing else. */
  lemma TypingStopRemovesTypingEntry(s: LogState, text: Option<string>, nl: NewLine, now: int)
    requires LogInvariant(s)
    requires NormalizeMessage(text, nl) == Some(TypingStopToken)
    ensures var r := Incoming(s, text, nl, now);
      r.messages == NonTyping(s.messages) && r.typingMessage.None?
  {
    if s.typingMessage.Some? {
      RemoveIdIsFilter(s.messages, s.typingMessage.value);
    } else {
      NonTypingOfClean(s.messages);
    }
  }

  /** Incoming text other than the typing tokens is appended as a delivered incoming entry. */
  lemma IncomingTextAppends(s: LogState, text: Option<string>, nl: NewLine, now: int)
    requires NormalizeMessage(text, nl).Some?
    requires NormalizeMessage(text, nl).value != TypingStartToken && NormalizeMessage(text, nl).value != TypingStopToken
    ensures var r := Incoming(s, text, nl, now);
      r.messages == s.messages + [IncomingEntry(s.nextId, NormalizeMessage(text, nl).value, now)]
      && r.typingMessage == s.typingMessage
  {
  }

  /**
   * A typing-start arriving after the log was cleared under a shown typing
   * entry shows nothing: the reference to the removed entry is kept.
   */
  lemma TypingStartAfterClearShowsNothing(s: LogState, nl: NewLine, now: int)
    requires s.typingMessage.Some?
    ensures Incoming(Cleared(s), Some(TypingStartToken), nl, now).messages == []
  {
    NormalizeMessageKeepsSingleLine(TypingStartToken, nl);
  }

  /** Nudges are appended and relabelled so that the invariant is kept. */
  lemma NudgeKeepsInvariant(s: LogState, now: int)
    requires LogInvariant(s)
    ensures LogInvariant(Nudge(s, now))
  {
    var r := Nudge(s, now);
    if s.lastNudgeMessage.Some? {
      var k := IndexOfId(s.messages, s.lastNudgeMessage.value);
      assert forall i :: 0 <= i < |s.messages| ==> r.messages[i].id == s.messages[i].id;
      assert forall i :: 0 <= i < |s.messages| ==> r.messages[i].isTyping == s.messages[i].isTyping;
    }
  }

  /**
   * A burst of n nudges starting with no anchor leaves one entry, appended at
   * the end, reading "Nudge" for n = 1 and "Nudge xn" beyond, stamped with the
   * last nudge's time.
   */
  lemma {:induction false} NudgeBurst(s: LogState, times: seq<int>)
    requires LogInvariant(s) && s.lastNudgeMessage.None? && |times| >= 1
    ensures var r := Nudges(s, times);
      r.messages == s.messages + [ChatMessage(s.nextId, NudgeLabel(|times|), false, times[|times| - 1], false, false)]
      && r.pendingNudgeCount == |times| && r.lastNudgeMessage == Some(s.nextId) && r.nextId == s.nextId + 1
    decreases |times|
  {
    var n := |times|;
    if n > 1 {
      var before := times[..n - 1];
      NudgeBurst(s, before);
      assert before[|before| - 1] == times[n - 2];
      var p := Nudges(s, before);
      var anchor := ChatMessage(s.nextId, NudgeLabel(n - 1), false, times[n - 2], false, false);
      IndexOfAppended(s.messages, anchor);
      var k := IndexOfId(p.messages, s.nextId);
      assert k == |s.messages|;
      var r := Nudges(s, times);
      assert r.messages == Retext(p.messages, s.nextId, NudgeLabel(n), times[n - 1]);
      assert r.messages[k] == anchor.(text := NudgeLabel(n), timestamp := times[n - 1]);
    }
  }

  /** `SendAsync` skips a message exactly when the outgoing text is blank. */
  lemma SendTextBlankIffOutgoingBlank(outgoing: Option<string>, nl: NewLine)
    ensures IsBlank(SendText(outgoing, nl)) <==> IsBlank(outgoing)
  {
    if outgoing.Some? {
      var t := outgoing.value;
      var normalized := LfTo(CrLfToLf(t), nl);
      var sent := Join(nl, EdgeTrimmed(Lines(normalized)));
      VisibleIsNotBlank(t);
      VisibleIsNotBlank(sent);
      if HasVisible(t) {
        NormalizeMessageKeepsVisible(t, nl);
        EdgeTrimmedKeepsVisible(normalized, nl);
      } else {
        NormalizeMessageKeepsBlank(t, nl);
        EdgeTrimmedOfBlank(normalized, nl);
      }
    }
  }

  /**
   * Sending ends the burst; it appends one own entry carrying the trimmed text,
   * delivered exactly when the send succeeded, unless the outgoing text is
   * blank, when the log is unchanged.
   */
  lemma SentAppendsOwnEntry(s: LogState, outgoing: Option<string>, nl: NewLine, delivered: bool, now: int)
    requires LogInvariant(s)
    ensures LogInvariant(Sent(s, outgoing, nl, delivered, now))
    ensures IsBlank(outgoing) ==> Sent(s, outgoing, nl, delivered, now) == ClearedNudge(s)
    ensures !IsBlank(outgoing) ==>
      !IsBlank(SendText(outgoing, nl))
      && Sent(s, outgoing, nl, delivered, now) == ClearedNudge(s).(
           messages := s.messages + [ChatMessage(s.nextId, SendText(outgoing, nl).value, true, now, false, delivered)],
           nextId := s.nextId + 1)
  {
    SendTextBlankIffOutgoingBlank(outgoing, nl);
    var c := ClearedNudge(s);
    assert LogInvariant(c);
    var text := SendText(outgoing, nl);
    if !IsBlank(text) {
      var m := ChatMessage(c.nextId, text.value, true, now, false, delivered);
      AppendFreshKeepsInvariant(c, m);
      assert Sent(s, outgoing, nl, delivered, now) == c.(messages := c.messages + [m], nextId := c.nextId + 1);
    }
  }

  /** Loading keeps the invariant; the loaded entries are exactly the history's records. */
  lemma LoadedRestoresHistory(s: LogState, key: string, records: seq<HistoryRecord>)
    requires LogInvariant(s)
    ensures var r := Loaded(s, Some(key), Some(records));
      LogInvariant(r) && Projection(r.messages) == records
      && forall i :: 0 <= i < |r.messages| ==> !r.messages[i].isTyping
  {
    SaveAfterLoad(records, s.nextId);
  }

  /** Without a history key, or without a readable history, loading changes nothing. */
  lemma LoadedWithoutHistory(s: LogState, key: Option<string>, loaded: Option<seq<HistoryRecord>>)
    requires key.None? || loaded.None?
    ensures Loaded(s, key, loaded) == s
  {
  }

  /**
   * After a load under a running burst, the anchor is no longer in the log,
   * so the next nudge changes no entry.
   */
  lemma NudgeAfterLoadChangesNoEntry(s: LogState, key: string, records: seq<HistoryRecord>, now: int)
    requires LogInvariant(s) && s.lastNudgeMessage.Some?
    ensures var l := Loaded(s, Some(key), Some(records));
      Nudge(l, now).messages == l.messages
  {
    var l := Loaded(s, Some(key), Some(records));
    assert IndexOfId(l.messages, s.lastNudgeMessage.value) == |l.messages|;
  }

  /** Appending a non-typing entry with the next id keeps the invariant. */
  lemma AppendFreshKeepsInvariant(s: LogState, m: ChatMessage)
    requires LogInvariant(s) && m.id == s.nextId && !m.isTyping
    ensures LogInvariant(s.(messages := s.messages + [m], nextId := s.nextId + 1))
  {
  }

  /** Clearing empties the log, ends the burst and keeps the invariant. */
  lemma ClearedKeepsInvariant(s: LogState)
    requires LogInvariant(s)
    ensures LogInvariant(Cleared(s)) && Cleared(s).messages == [] && Cleared(s).lastNudgeMessage.None?
  {
  }

  // ---------------------------------------------------------------------------
  // The view model object
  // ---------------------------------------------------------------------------

  class ChatWindowViewModel {
    const chatService: ChatService
    const remoteAddress: Option<string>
    const remotePort: int
    /** The file-name part of the history path; absent when there is no history file. */
    const historyKey: Option<string>
    /** `Environment.NewLine`. */
    const newLine: NewLine

    var messages: seq<ChatMessage>
    var typingMessage: Option<nat>
    var pendingNudgeCount: int
    var lastNudgeMessage: Option<nat>
    var nextId: nat

    var outgoingText: Option<string>
    var lastTypingStateSent: bool
    var lastTypingActivity: int
    var typingMonitorRunning: bool
    /** The typing tokens this view model has handed to the transport, in order. */
    ghost var typingTokensSent: seq<string>

    ghost function Log(): LogState
      reads this
    {
      LogState(messages, typingMessage, pendingNudgeCount, lastNudgeMessage, nextId)
    }

    ghost function Typing(): TypingState
      reads this
    {
      TypingState(lastTypingStateSent, lastTypingActivity, typingMonitorRunning)
    }

    /** The packets that carry the given payloads to the peer; none when the address is blank. */
    function ToPeer(payloads: seq<string>): seq<Packet> {
      if IsBlank(remoteAddress) then []
      else seq(|payloads|, i requires 0 <= i < |payloads| => Packet(remoteAddress.value, remotePort, payloads[i]))
    }

    /** Typing tokens reach the transport only when the address is not blank. */
    function Wire(tokens: seq<string>): seq<string> {
      if IsBlank(remoteAddress) then [] else tokens
    }

    /**
     * The log invariant; a monitor runs while composing; the typing tokens sent
     * so far alternate start, stop, start, … and (with an address) end in a
     * start exactly while composing.
     */
    ghost predicate Valid()
      reads this
    {
      && LogInvariant(Log())
      && MonitorCovers(Typing())
      && Alternating(typingTokensSent, false)
      && (IsBlank(remoteAddress) ==> typingTokensSent == [])
      && (!IsBlank(remoteAddress) ==> lastTypingStateSent == (|typingTokensSent| % 2 == 1))
    }

    constructor (deviceId: Option<string>, address: Option<string>, service: ChatService, port: int, nl: NewLine)
      ensures Valid()
      ensures chatService == service && remoteAddress == address && remotePort == port && newLine == nl
      ensures historyKey == HistoryKey(deviceId, address)
      ensures Log() == Empty && Typing() == Idle && outgoingText.None? && typingTokensSent == []
    {
      chatService := service;
      remoteAddress := address;
      remotePort := port;
      historyKey := HistoryKey(deviceId, address);
      newLine := nl;
      messages := [];
      typingMessage := None;
      pendingNudgeCount := 0;
      lastNudgeMessage := None;
      nextId := 0;
      outgoingText := None;
      lastTypingStateSent := false;
      lastTypingActivity := 0;
      typingMonitorRunning := false;
      typingTokensSent := [];
    }

    /** `SendCommand`'s can-execute test. */
    predicate CanSend()
      reads this
    {
      !IsBlank(outgoingText)
    }

    method ClearPendingNudge()
      requires Valid()
      modifies this`pendingNudgeCount, this`lastNudgeMessage
      ensures Valid()
      ensures Log() == ClearedNudge(old(Log()))
    {
      pendingNudgeCount := 0;
      lastNudgeMessage := None;
    }

    method AddIncomingMessage(text: Option<string>, now: int)
      requires Valid()
      modifies this`messages, this`typingMessage, this`pendingNudgeCount, this`lastNudgeMessage, this`nextId
      ensures Valid()
      ensures Log() == Incoming(old(Log()), text, newLine, now)
    {
      IncomingKeepsInvariant(Log(), text, newLine, now);
      ghost var target := Incoming(Log(), text, newLine, now);
      ClearPendingNudge();
      var t := NormalizeMessage(text, newLine);
      if t == Some(TypingStartToken) {
        if typingMessage.None? {
          messages := messages + [TypingEntry(nextId, now)];
          typingMessage := Some(nextId);
          nextId := nextId + 1;
        }
        assert Log() == target;
        return;
      }
      if t == Some(TypingStopToken) {
        if typingMessage.Some? {
          messages := RemoveId(messages, typingMessage.value);
          typingMessage := None;
        }
        assert Log() == target;
        return;
      }
      if t.None? {
        assert Log() == target;
        return;
      }
      messages := messages + [IncomingEntry(nextId, t.value, now)];
      nextId := nextId + 1;
      assert Log() == target;
    }

    method AddIncomingNudge(now: int)
      requires Valid()
      modifies this`messages, this`pendingNudgeCount, this`lastNudgeMessage, this`nextId
      ensures Valid()
      ensures Log() == Nudge(old(Log()), now)
    {
      NudgeKeepsInvariant(Log(), now);
      ghost var target := Nudge(Log(), now);
      pendingNudgeCount := pendingNudgeCount + 1;
      if lastNudgeMessage.None? {
        messages := messages + [ChatMessage(nextId, "Nudge", false, now, false, false)];
        lastNudgeMessage := Some(nextId);
        nextId := nextId + 1;
      } else {
        messages := Retext(messages, lastNudgeMessage.value, NudgeLabel(pendingNudgeCount), now);
      }
      assert Log() == target;
    }

    /** `RegisterTypingActivity`: one `Activity` step; its tokens go to the peer. */
    method RegisterTypingActivity(now: int)
      requires Valid()
      modifies this`lastTypingStateSent, this`lastTypingActivity, this`typingMonitorRunning, this`typingTokensSent, chatService
      ensures Valid()
      ensures var step := Activity(old(Typing()), !IsBlank(outgoingText), now);
        Typing() == step.state
        && typingTokensSent == old(typingTokensSent) + Wire(step.tokens)
        && chatService.attempted == old(chatService.attempted) + ToPeer(step.tokens)
    {
      var hasText := !IsBlank(outgoingText);
      ghost var step := Activity(Typing(), hasText, now);
      if !IsBlank(remoteAddress) {
        AlternatingExtend(typingTokensSent, lastTypingStateSent, hasText, step.tokens);
      }
      if hasText {
        lastTypingActivity := now;
        if !lastTypingStateSent {
          lastTypingStateSent := true;
          if !IsBlank(remoteAddress) {
            chatService.Post(remoteAddress.value, remotePort, TypingStartToken);
            typingTokensSent := typingTokensSent + [TypingStartToken];
          }
          if !typingMonitorRunning {
            typingMonitorRunning := true;
          }
        }
      } else if lastTypingStateSent {
        lastTypingStateSent := false;
        if !IsBlank(remoteAddress) {
          chatService.Post(remoteAddress.value, remotePort, TypingStopToken);
          typingTokensSent := typingTokensSent + [TypingStopToken];
        }
      }
    }

    /** One wake-up of `TypingMonitorLoopAsync` after its delay: one `Tick` step. */
    method MonitorTick(now: int)
      requires Valid()
      modifies this`lastTypingStateSent, this`typingMonitorRunning, this`typingTokensSent, chatService
      ensures Valid()
      ensures var step := Tick(old(Typing()), now);
        Typing() == step.state
        && typingTokensSent == old(typingTokensSent) + Wire(step.tokens)
        && chatService.attempted == old(chatService.attempted) + ToPeer(step.tokens)
    {
      ghost var step := Tick(Typing(), now);
      if !IsBlank(remoteAddress) {
        AlternatingExtend(typingTokensSent, lastTypingStateSent, step.state.lastTypingStateSent, step.tokens);
      }
      if !typingMonitorRunning {
        return;
      }
      if !lastTypingStateSent {
        typingMonitorRunning := false;
        return;
      }
      if now - lastTypingActivity >= TypingIdleMs {
        lastTypingStateSent := false;
        if !IsBlank(remoteAddress) {
          chatService.Post(remoteAddress.value, remotePort, TypingStopToken);
          typingTokensSent := typingTokensSent + [TypingStopToken];
        }
        typingMonitorRunning := false;
      }
    }

    /** The `OutgoingText` setter: a change of value is typing activity. */
    method SetOutgoingText(value: Option<string>, now: int)
      requires Valid()
      modifies this`outgoingText, this`lastTypingStateSent, this`lastTypingActivity, this`typingMonitorRunning,
        this`typingTokensSent, chatService
      ensures Valid() && outgoingText == value
      ensures value == old(outgoingText) ==>
        Typing() == old(Typing()) && typingTokensSent == old(typingTokensSent)
        && chatService.attempted == old(chatService.attempted)
      ensures value != old(outgoingText) ==>
        var step := Activity(old(Typing()), !IsBlank(value), now);
        Typing() == step.state
        && typingTokensSent == old(typingTokensSent) + Wire(step.tokens)
        && chatService.attempted == old(chatService.attempted) + ToPeer(step.tokens)
    {
      if value != outgoingText {
        outgoingText := value;
        RegisterTypingActivity(now);
      }
    }

    /**
     * `SendAsync`, with `reachable` standing for the transport's outcome: the
     * log changes as `Sent` says; a non-blank text empties the outgoing text
     * (a typing-stop goes first if composing), then the text goes to the peer.
     */
    method Send(now: int, reachable: bool)
      requires Valid()
      modifies this`messages, this`pendingNudgeCount, this`lastNudgeMessage, this`nextId, this`outgoingText,
        this`lastTypingStateSent, this`lastTypingActivity, this`typingMonitorRunning, this`typingTokensSent, chatService
      ensures Valid()
      ensures Log() == Sent(old(Log()), old(outgoingText), newLine, !IsBlank(remoteAddress) && reachable, now)
      ensures IsBlank(old(outgoingText)) ==>
        outgoingText == old(outgoingText) && Typing() == old(Typing())
        && typingTokensSent == old(typingTokensSent) && chatService.attempted == old(chatService.attempted)
      ensures !IsBlank(old(outgoingText)) ==>
        var step := Activity(old(Typing()), false, now);
        outgoingText == Some("") && Typing() == step.state
        && typingTokensSent == old(typingTokensSent) + Wire(step.tokens)
        && chatService.attempted == old(chatService.attempted) + ToPeer(step.tokens + [SendText(old(outgoingText), newLine).value])
    {
      ghost var before, outgoing := Log(), outgoingText;
      SentAppendsOwnEntry(before, outgoing, newLine, !IsBlank(remoteAddress) && reachable, now);
      SendTextBlankIffOutgoingBlank(outgoing, newLine);
      ClearPendingNudge();
      var text := NormalizeMessage(outgoingText, newLine);
      text := TrimEdgesEmptyLines(text, newLine);
      assert text == SendText(outgoing, newLine);
      if IsBlank(text) {
        return;
      }
      SendOwnMessage(text.value, now, reachable);
    }

    /**
     * The part of `SendAsync` after the blank check: the own entry is appended,
     * the outgoing text is emptied, the text goes to the peer, and the entry
     * is marked delivered when the send succeeded.
     */
    method SendOwnMessage(text: string, now: int, reachable: bool)
      requires Valid() && !IsBlank(outgoingText)
      modifies this`messages, this`nextId, this`outgoingText,
        this`lastTypingStateSent, this`lastTypingActivity, this`typingMonitorRunning, this`typingTokensSent, chatService
      ensures Valid()
      ensures Log() == old(Log()).(
        messages := old(messages) + [ChatMessage(old(nextId), text, true, now, false, !IsBlank(remoteAddress) && reachable)],
        nextId := old(nextId) + 1)
      ensures var step := Activity(old(Typing()), false, now);
        outgoingText == Some("") && Typing() == step.state
        && typingTokensSent == old(typingTokensSent) + Wire(step.tokens)
        && chatService.attempted == old(chatService.attempted) + ToPeer(step.tokens + [text])
    {
      ghost var step := Activity(Typing(), false, now);
      var id := AppendOwnMessage(text, now);
      SetOutgoingText(Some(""), now);
      DeliverOwnMessage(id, text, now, reachable);
      ToPeerAppend(step.tokens, [text]);
    }

    /**
     * The end of `SendAsync`: the text goes to the peer when the address is
     * not blank, the new entry is marked delivered when that succeeded, and
     * the final typing activity finds nothing to send (the text is empty and
     * typing-stop already went out).
     */
    method DeliverOwnMessage(id: nat, text: string, now: int, reachable: bool)
      requires Valid() && outgoingText == Some("") && !lastTypingStateSent
      requires |messages| > 0 && messages[|messages| - 1].id == id && nextId == id + 1
      modifies this`messages, this`lastTypingStateSent, this`lastTypingActivity, this`typingMonitorRunning,
        this`typingTokensSent, chatService
      ensures Valid()
      ensures messages == if !IsBlank(remoteAddress) && reachable
        then old(messages)[|old(messages)| - 1 := old(messages)[|old(messages)| - 1].(isDelivered := true)]
        else old(messages)
      ensures Typing() == old(Typing()) && typingTokensSent == old(typingTokensSent)
      ensures chatService.attempted == old(chatService.attempted) + ToPeer([text])
    {
      if !IsBlank(remoteAddress) {
        var ok := chatService.SendMessage(remoteAddress.value, remotePort, text, reachable);
        if ok {
          MarkOwnDelivered(id);
        }
      }
      assert Activity(Typing(), false, now) == TypingStep(Typing(), []);
      RegisterTypingActivity(now);
    }

    /** The own entry `SendAsync` adds, not yet delivered; the result is its id. */
    method AppendOwnMessage(text: string, now: int) returns (id: nat)
      requires Valid()
      modifies this`messages, this`nextId
      ensures Valid()
      ensures id == old(nextId) && nextId == id + 1
      ensures messages == old(messages) + [ChatMessage(id, text, true, now, false, false)]
    {
      id := nextId;
      AppendFreshKeepsInvariant(Log(), ChatMessage(id, text, true, now, false, false));
      messages := messages + [ChatMessage(id, text, true, now, false, false)];
      nextId := nextId + 1;
    }

    /** `message.IsDelivered = true` for the entry just appended. */
    method MarkOwnDelivered(id: nat)
      requires Valid() && |messages| > 0 && messages[|messages| - 1].id == id && nextId == id + 1
      modifies this`messages
      ensures Valid()
      ensures messages == old(messages)[|old(messages)| - 1 := old(messages)[|old(messages)| - 1].(isDelivered := true)]
    {
      var prefix := messages[..|messages| - 1];
      assert messages == prefix + [messages[|messages| - 1]];
      assert IdsBelow(prefix, id) by {
        forall i | 0 <= i < |prefix|
          ensures prefix[i].id < id
        {
          assert prefix[i].id != messages[|messages| - 1].id;
        }
      }
      IndexOfAppended(prefix, messages[|messages| - 1]);
      messages := MarkDelivered(messages, id);
      assert forall i :: 0 <= i < |messages| ==> messages[i].id == old(messages)[i].id;
    }

    lemma ToPeerAppend(a: seq<string>, b: seq<string>)
      ensures ToPeer(a + b) == ToPeer(a) + ToPeer(b)
    {
    }

    /**
     * `LoadHistoryAsync`, with `loaded` standing for the deserialised file
     * (absent when the file is missing, unreadable or holds null).
     */
    method LoadHistory(loaded: Option<seq<HistoryRecord>>)
      requires Valid()
      modifies this`messages, this`nextId
      ensures Valid()
      ensures Log() == Loaded(old(Log()), historyKey, loaded)
    {
      if historyKey.None? || loaded.None? {
        return;
      }
      LoadedRestoresHistory(Log(), historyKey.value, loaded.value);
      var log := RebuildEntries(loaded.value, nextId);
      messages := log;
      nextId := nextId + |loaded.value|;
    }

    /** The loop of `LoadHistoryAsync`: one new non-typing entry per record, with ids from `firstId`. */
    static method RebuildEntries(items: seq<HistoryRecord>, firstId: nat) returns (log: seq<ChatMessage>)
      ensures log == Rebuilt(items, firstId)
    {
      log := [];
      var i := 0;
      while i < |items|
        invariant 0 <= i <= |items|
        invariant log == Rebuilt(items[..i], firstId)
      {
        RebuiltSnoc(items[..i], items[i], firstId);
        assert items[..i + 1] == items[..i] + [items[i]];
        log := log + [ChatMessage(firstId + i, items[i].text, items[i].isOwn, items[i].timestamp, false, items[i].isDelivered)];
        i := i + 1;
      }
      assert items[..i] == items;
    }

    /**
     * `SaveHistoryAsync` up to serialisation: the records it writes, absent
     * when there is no history file.
     */
    method SaveHistory() returns (records: Option<seq<HistoryRecord>>)
      ensures historyKey.None? ==> records.None?
      ensures historyKey.Some? ==> records == Some(Projection(messages))
    {
      if historyKey.None? {
        return None;
      }
      var list: seq<HistoryRecord> := [];
      var i := 0;
      while i < |messages|
        invariant 0 <= i <= |messages|
        invariant list == Projection(messages[..i])
      {
        ProjectionAppend(messages[..i], [messages[i]]);
        assert messages[..i + 1] == messages[..i] + [messages[i]];
        if !messages[i].isTyping {
          list := list + [ToRecord(messages[i])];
        }
        i := i + 1;
      }
      assert messages[..i] == messages;
      return Some(list);
    }

    /** `ClearAsync` on the log (the file deletion is not modelled). */
    method Clear()
      requires Valid()
      modifies this`messages, this`pendingNudgeCount, this`lastNudgeMessage
      ensures Valid()
      ensures Log() == Cleared(old(Log()))
    {
      messages := [];
      ClearPendingNudge();
    }
  }
}
