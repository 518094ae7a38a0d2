/**
 * The chat window (`ChatWindow`): what it does with each line the transport
 * delivers (nudge, typing token, or text merged into the previous incoming
 * entry) and what its action button does.
 */
module ChatWindowView {
  import opened Wrappers
  import opened Text
  import opened ChatLog
  import opened ChatViewModel
  import opened Transport
  import opened TypingIndicator

  /** The TCP port every ChattyBuddy instance listens on and sends to. */
  const ChatPort := 54545

  /** The newest entry takes more text: not own, not a typing entry, and at most 300 ms old. */
  predicate Mergeable(s: LogState, now: int) {
    |s.messages| > 0
    && !s.messages[|s.messages| - 1].isOwn
    && !s.messages[|s.messages| - 1].isTyping
    && now - s.messages[|s.messages| - 1].timestamp <= MergeWindowMs
  }

  /** The newest entry's text with one more line. */
  function MergedText(previous: string, text: string, nl: NewLine): string {
    if previous == "" then text else previous + nl + text
  }

  /**
   * `MergeOrAddIncomingMessage`: typing tokens go to `AddIncomingMessage`
   * as they are; otherwise the line is normalised and either merged into the
   * newest entry or handed to `AddIncomingMessage` (which normalises again).
   */
  function Merge(s: LogState, raw: Option<string>, nl: NewLine, now: int): LogState {
    if raw == Some(TypingStartToken) || raw == Some(TypingStopToken) then Incoming(s, raw, nl, now)
    else
      var text := NormalizeMessage(raw, nl);
      if text.None? then s
      else if Mergeable(s, now) then
        var n := |s.messages|;
        s.(messages := s.messages[n - 1 := s.messages[n - 1].(text := MergedText(s.messages[n - 1].text, text.value, nl), timestamp := now)])
      else Incoming(s, text, nl, now)
  }

  /** The transport's callback: the nudge token nudges, every other line is merged or added. */
  function Dispatch(s: LogState, line: Option<string>, nl: NewLine, now: int): LogState {
    if line == Some(NudgeToken) then Nudge(s, now) else Merge(s, line, nl, now)
  }

  // ---------------------------------------------------------------------------
  // Properties
  // ---------------------------------------------------------------------------

  /** Merging keeps the log invariant. */
  lemma MergeKeepsInvariant(s: LogState, raw: Option<string>, nl: NewLine, now: int)
    requires LogInvariant(s)
    ensures LogInvariant(Merge(s, raw, nl, now))
  {
    var text := NormalizeMessage(raw, nl);
    if raw == Some(TypingStartToken) || raw == Some(TypingStopToken) {
      IncomingKeepsInvariant(s, raw, nl, now);
    } else if text.Some? && Mergeable(s, now) {
      var r := Merge(s, raw, nl, now);
      assert forall i :: 0 <= i < |s.messages| ==> r.messages[i].id == s.messages[i].id && r.messages[i].isTyping == s.messages[i].isTyping;
    } else if text.Some? {
      IncomingKeepsInvariant(s, text, nl, now);
    }
  }

  /** Every line the window receives keeps the log invariant. */
  lemma DispatchKeepsInvariant(s: LogState, line: Option<string>, nl: NewLine, now: int)
    requires LogInvariant(s)
    ensures LogInvariant(Dispatch(s, line, nl, now))
  {
    if line == Some(NudgeToken) {
      NudgeKeepsInvariant(s, now);
    } else {
      MergeKeepsInvariant(s, line, nl, now);
    }
  }

  /**
   * A text line arriving within the window of the newest incoming entry adds
   * no entry: that entry gets the text as a new line and the new time, and
   * the nudge burst is not ended.
   */
  lemma MergeExtendsNewest(s: LogState, raw: string, nl: NewLine, now: int)
    requires raw != TypingStartToken && raw != TypingStopToken
    requires Mergeable(s, now)
    ensures var r := Merge(s, Some(raw), nl, now);
      var n := |s.messages|;
      |r.messages| == n
      && r.messages[..n - 1] == s.messages[..n - 1]
      && r.messages[n - 1].text == MergedText(s.messages[n - 1].text, NormalizeMessage(Some(raw), nl).value, nl)
      && r.messages[n - 1].timestamp == now
      && r.pendingNudgeCount == s.pendingNudgeCount && r.lastNudgeMessage == s.lastNudgeMessage
  {
  }

  /**
   * With CRLF newlines, a text line that cannot be merged is appended as one
   * incoming entry, normalised once (the second normalisation changes nothing).
   */
  lemma UnmergedLineAppends(s: LogState, raw: string, now: int)
    requires !Mergeable(s, now)
    requires raw != TypingStartToken && raw != TypingStopToken && raw != NudgeToken
    requires NormalizeMessage(Some(raw), "\r\n").value != TypingStartToken
    requires NormalizeMessage(Some(raw), "\r\n").value != TypingStopToken
    ensures Dispatch(s, Some(raw), "\r\n", now).messages ==
      s.messages + [IncomingEntry(s.nextId, NormalizeMessage(Some(raw), "\r\n").value, now)]
  {
    NormalizeMessageIdempotentOnCrLf(Some(raw));
  }

  /**
   * Text merged into the nudge anchor is overwritten by the next nudge of the
   * burst: the anchor's text becomes the nudge label again.
   */
  lemma NudgeOverwritesMergedText(s: LogState, raw: string, nl: NewLine, now: int, later: int)
    requires LogInvariant(s) && raw != TypingStartToken && raw != TypingStopToken
    requires Mergeable(s, now)
    requires s.lastNudgeMessage == Some(s.messages[|s.messages| - 1].id)
    ensures var r := Nudge(Merge(s, Some(raw), nl, now), later);
      |r.messages| == |s.messages|
      && r.messages[|s.messages| - 1].text == NudgeLabel(s.pendingNudgeCount + 1)
  {
    var m := Merge(s, Some(raw), nl, now);
    var n := |s.messages|;
    var anchor := s.messages[n - 1].id;
    assert m.messages[n - 1].id == anchor;
    assert forall i :: 0 <= i < n - 1 ==> m.messages[i].id == s.messages[i].id != anchor;
    assert IndexOfId(m.messages, anchor) == n - 1;
    assert m.lastNudgeMessage == Some(anchor) && m.pendingNudgeCount == s.pendingNudgeCount;
    var text := NudgeLabel(s.pendingNudgeCount + 1);
    assert Nudge(m, later).messages == Retext(m.messages, anchor, text, later);
  }

  /** The first text line of an empty log becomes its only entry. */
  lemma FirstLine(raw: string, nl: NewLine, now: int)
    requires '\r' !in raw && '\n' !in raw && raw != NudgeToken && raw != TypingStartToken && raw != TypingStopToken
    ensures Dispatch(Empty, Some(raw), nl, now) == Empty.(messages := [IncomingEntry(0, raw, now)], nextId := 1)
  {
    NormalizeMessageKeepsSingleLine(raw, nl);
  }

  /** Two single lines at most 300 ms apart make one entry of two lines, stamped with the second time. */
  lemma QuickLinesMerge(first: string, second: string, nl: NewLine, t1: int, t2: int)
    requires first != "" && '\r' !in first && '\n' !in first
    requires first != NudgeToken && first != TypingStartToken && first != TypingStopToken
    requires '\r' !in second && '\n' !in second
    requires second != NudgeToken && second != TypingStartToken && second != TypingStopToken
    requires t2 - t1 <= MergeWindowMs
    ensures Dispatch(Dispatch(Empty, Some(first), nl, t1), Some(second), nl, t2).messages ==
      [ChatMessage(0, first + nl + second, false, t2, false, true)]
  {
    FirstLine(first, nl, t1);
    NormalizeMessageKeepsSingleLine(second, nl);
  }

  /** Two single lines more than 300 ms apart stay two entries. */
  lemma SlowLinesStaySeparate(first: string, second: string, nl: NewLine, t1: int, t2: int)
    requires '\r' !in first && '\n' !in first
    requires first != NudgeToken && first != TypingStartToken && first != TypingStopToken
    requires '\r' !in second && '\n' !in second
    requires second != NudgeToken && second != TypingStartToken && second != TypingStopToken
    requires t2 - t1 > MergeWindowMs
    ensures Dispatch(Dispatch(Empty, Some(first), nl, t1), Some(second), nl, t2).messages ==
      [IncomingEntry(0, first, t1), IncomingEntry(1, second, t2)]
  {
    FirstLine(first, nl, t1);
    NormalizeMessageKeepsSingleLine(second, nl);
  }

  // ---------------------------------------------------------------------------
  // The window object
  // ---------------------------------------------------------------------------

  class ChatWindow {
    const chatService: ChatService
    const viewModel: ChatWindowViewModel

    ghost predicate Valid()
      reads this, viewModel
    {
      viewModel.Valid() && viewModel.chatService == chatService && viewModel.remotePort == ChatPort
    }

    /** The window for a device: its own transport and a view model talking to the chat port. */
    constructor (deviceId: Option<string>, address: Option<string>, nl: NewLine)
      ensures Valid() && fresh(chatService) && fresh(viewModel)
      ensures viewModel.remoteAddress == address && viewModel.historyKey == HistoryKey(deviceId, address)
      ensures viewModel.Log() == Empty && chatService.attempted == []
    {
      var service := new ChatService();
      chatService := service;
      viewModel := new ChatWindowViewModel(deviceId, address, service, ChatPort, nl);
    }

    /** The callback the window gives the transport, run on the UI thread. */
    method OnLineReceived(line: Option<string>, now: int)
      requires Valid()
      modifies viewModel`messages, viewModel`typingMessage, viewModel`pendingNudgeCount, viewModel`lastNudgeMessage,
        viewModel`nextId
      ensures Valid()
      ensures viewModel.Log() == Dispatch(old(viewModel.Log()), line, viewModel.newLine, now)
    {
      if line == Some(NudgeToken) {
        viewModel.AddIncomingNudge(now);
      } else {
        MergeOrAddIncomingMessage(line, now);
      }
    }

    method MergeOrAddIncomingMessage(raw: Option<string>, now: int)
      requires Valid()
      modifies viewModel`messages, viewModel`typingMessage, viewModel`pendingNudgeCount, viewModel`lastNudgeMessage,
        viewModel`nextId
      ensures Valid()
      ensures viewModel.Log() == Merge(old(viewModel.Log()), raw, viewModel.newLine, now)
    {
      if raw == Some(TypingStartToken) || raw == Some(TypingStopToken) {
        viewModel.AddIncomingMessage(raw, now);
        return;
      }
      var text := NormalizeMessage(raw, viewModel.newLine);
      if text.None? {
        return;
      }
      var n := |viewModel.messages|;
      if n > 0 {
        var last := viewModel.messages[n - 1];
        if !last.isOwn && !last.isTyping && now - last.timestamp <= MergeWindowMs {
          MergeKeepsInvariant(viewModel.Log(), raw, viewModel.newLine, now);
          var merged := if last.text == "" then text.value else last.text + viewModel.newLine + text.value;
          viewModel.messages := viewModel.messages[n - 1 := last.(text := merged, timestamp := now)];
          return;
        }
      }
      viewModel.AddIncomingMessage(text, now);
    }

    /**
     * The action button: with a blank outgoing text it sends the nudge token
     * (when the address is not blank) and changes no entry; otherwise it runs
     * the send command.
     */
    method ActionButtonClick(now: int, reachable: bool)
      requires Valid()
      modifies viewModel`messages, viewModel`pendingNudgeCount, viewModel`lastNudgeMessage, viewModel`nextId,
        viewModel`outgoingText, viewModel`lastTypingStateSent, viewModel`lastTypingActivity,
        viewModel`typingMonitorRunning, viewModel`typingTokensSent, chatService
      ensures Valid()
      ensures IsBlank(old(viewModel.outgoingText)) ==>
        viewModel.Log() == old(viewModel.Log()) && viewModel.outgoingText == old(viewModel.outgoingText)
        && viewModel.Typing() == old(viewModel.Typing()) && viewModel.typingTokensSent == old(viewModel.typingTokensSent)
        && chatService.attempted == old(chatService.attempted)
             + (if IsBlank(viewModel.remoteAddress) then [] else [Packet(viewModel.remoteAddress.value, ChatPort, NudgeToken)])
      ensures !IsBlank(old(viewModel.outgoingText)) ==>
        var step := Activity(old(viewModel.Typing()), false, now);
        && viewModel.Log() == Sent(old(viewModel.Log()), old(viewModel.outgoingText), viewModel.newLine,
                                   !IsBlank(viewModel.remoteAddress) && reachable, now)
        && viewModel.outgoingText == Some("") && viewModel.Typing() == step.state
        && viewModel.typingTokensSent == old(viewModel.typingTokensSent) + viewModel.Wire(step.tokens)
        && chatService.attempted == old(chatService.attempted)
             + viewModel.ToPeer(step.tokens + [SendText(old(viewModel.outgoingText), viewModel.newLine).value])
    {
      if IsBlank(viewModel.outgoingText) {
        if !IsBlank(viewModel.remoteAddress) {
          var _ := chatService.SendMessage(viewModel.remoteAddress.value, ChatPort, NudgeToken, reachable);
        }
      } else if viewModel.CanSend() {
        viewModel.Send(now, reachable);
      }
    }
  }
}
