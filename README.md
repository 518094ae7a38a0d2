# ChattyBuddy conversation logic in Dafny

ChattyBuddy is a small Windows chat client for machines on one Tailscale
network. It lists the peers reported by `tailscale status --json` and lets the
user pick one. It then opens a chat window that exchanges one line per message
over TCP port 54545. Besides plain text, three reserved payloads travel on that
line protocol:
- `__nudge__`: a nudge;
- `__typing__:start` and `__typing__:stop`: the peer started or stopped composing.

This project models the logic behind those windows as Dafny state and proves
what it guarantees:

- **The conversation log** (`ChatViewModel`, `ChatWindowView`). Incoming lines
  are dispatched and update the log as follows:
  - a nudge joins a burst shown as one "Nudge" / "Nudge xN" entry;
  - the typing tokens show or remove a single "Typing..." entry;
  - text younger than 300 ms than the newest incoming entry is merged into it;
  - any other text is appended.

  Sending appends an own, undelivered entry that becomes delivered only when the
  transport succeeds. Saving and loading the history drops typing entries. Each
  change of the log is a function on a `LogState` value with lemmas about it. The
  `ChatWindowViewModel` and `ChatWindow` classes change their fields exactly as
  those functions say. They keep an invariant: ids are unique, at most one
  typing entry exists, and the burst count is zero exactly when there is no
  anchor.
- **The local typing indicator** (`TypingIndicator`). The view model sends
  typing-start when the outgoing text becomes non-blank and typing-stop when it
  becomes blank. A polling monitor also sends typing-stop after 2000 ms without
  typing. The monitor's wake-ups are explicit `Tick` steps. Over any run of edits
  and wake-ups the tokens strictly alternate.
- **Text helpers** (`Text`, `LineTrimming`, `ChatLog.HistoryKey`). These are
  newline normalisation, the trimming of blank edge lines from an outgoing text,
  and the sanitised history key.
- **The update check** (`UpdateService`). It compares a release tag with the
  running version component by component and picks the first `.exe` asset URL.
- **Peer listing** (`Tailscale`). This builds a device from each peer record
  (display name, address, online flag) and looks up whether a device is online,
  ignoring case.
- **Device selection** (`DeviceSelection`). The device list is refilled from a
  fetch, the status line follows from the result, and the busy flag is cleared
  after every operation. At start-up the saved device can be auto-connected.

Clock readings (`now`, in milliseconds), the transport's outcome, the platform
newline, the peers reported by Tailscale and the deserialised history file are
parameters.

## Model

| member | source | states |
|---|---|---|
| Text.NormalizeMessage | ChattyBuddy.Wpf/ViewModels/ChatWindowViewModel.cs:369-376 | null stays null and text stays text |
| Text.NormalizeMessageIdempotentOnCrLf | ChattyBuddy.Wpf/ViewModels/ChatWindowViewModel.cs:369-376 | with CRLF as the platform newline, normalising twice equals normalising once |
| Text.NormalizeMessageNotIdempotentOnLf | ChattyBuddy.Wpf/ViewModels/ChatWindowViewModel.cs:369-376 | with LF as the platform newline, "\r\r\n" normalises to "\r\n" and then to "\n", so normalisation is not idempotent there |
| Text.CrLfToLfUndoesLfToCrLf | ChattyBuddy.Wpf/ViewModels/ChatWindowViewModel.cs:374-375 | replacing LF by CRLF and then CRLF by LF gives back the original string |
| Text.NormalizeMessageKeepsSingleLine | ChattyBuddy.Wpf/ChatWindow.xaml.cs:284-291 | a line without CR or LF (what the transport delivers) is left unchanged by normalisation |
| Text.NormalizeMessageKeepsVisible | ChattyBuddy.Wpf/ViewModels/ChatWindowViewModel.cs:369-376 | a text with a visible character stays non-blank after normalisation |
| Text.NormalizeMessageKeepsBlank | ChattyBuddy.Wpf/ViewModels/ChatWindowViewModel.cs:369-376 | a white-space-only text stays white-space-only after normalisation |
| Text.ReplaceChar | ChattyBuddy.Wpf/ViewModels/ChatWindowViewModel.cs:363 | character replacement keeps the length and changes exactly the occurrences of the replaced character |
| Text.Split | ChattyBuddy.Wpf/ViewModels/ChatWindowViewModel.cs:384 | a split yields at least one piece and no piece contains the separator |
| Text.JoinSplit | ChattyBuddy.Wpf/ViewModels/ChatWindowViewModel.cs:398-399 | joining the pieces of a split with the separator gives back the string |
| Text.EqualsIgnoreCaseIsEquivalence | ChattyBuddy.Wpf/Services/TailscaleService.cs:88 | ordinal ignore-case equality is reflexive, symmetric and transitive |
| Text.EqualsIgnoreCaseOneChange | ChattyBuddy.Wpf/Services/TailscaleService.cs:88 | replacing one character of a string keeps it equal ignoring case exactly when the new character is the old one in upper or lower case |
| LineTrimming.FirstNonBlank | ChattyBuddy.Wpf/ViewModels/ChatWindowViewModel.cs:402-403 | every line before the result is blank, and the line at the result is not |
| LineTrimming.LastNonBlankEnd | ChattyBuddy.Wpf/ViewModels/ChatWindowViewModel.cs:385-387 | every line from the result on is blank, and the line before it is not |
| LineTrimming.EdgeTrimmed | ChattyBuddy.Wpf/ViewModels/ChatWindowViewModel.cs:400-408 | no line survives exactly when all lines are blank; otherwise the first and last kept lines are non-blank and the kept lines are a contiguous, unchanged slice |
| LineTrimming.TailTrimmed | ChattyBuddy.Wpf/ViewModels/ChatWindowViewModel.cs:385-390 | the kept lines are a prefix whose last line is non-blank, every dropped line is blank, and nothing is kept exactly when all lines are blank |
| LineTrimming.TrimEdgesEmptyLines | ChattyBuddy.Wpf/ViewModels/ChatWindowViewModel.cs:393-409 | null stays null; otherwise the result is the edge-trimmed lines joined with the platform newline ("" when none is left) |
| LineTrimming.TrimTrailingEmptyLines | ChattyBuddy.Wpf/ViewModels/ChatWindowViewModel.cs:378-391 | null stays null; otherwise the result is the tail-trimmed lines joined with the platform newline |
| LineTrimming.EdgeTrimmedKeepsVisible | ChattyBuddy.Wpf/ViewModels/ChatWindowViewModel.cs:393-409 | a text with a visible character is non-blank after trimming |
| LineTrimming.EdgeTrimmedOfBlank | ChattyBuddy.Wpf/ViewModels/ChatWindowViewModel.cs:406-407 | a white-space-only text trims to "" |
| ChatLog.IndexOfId | ChattyBuddy.Wpf/ViewModels/ChatWindowViewModel.cs:136 | the result is the position of the first entry with the id, or the log length when no entry has it |
| ChatLog.RemoveId | ChattyBuddy.Wpf/ViewModels/ChatWindowViewModel.cs:136 | removing an entry drops exactly the first entry with the id and keeps the others in order; the log is unchanged when no entry has the id |
| ChatLog.Retext | ChattyBuddy.Wpf/ViewModels/ChatWindowViewModel.cs:170-171 | only the entry with the id gets the new text and timestamp; every other entry is unchanged |
| ChatLog.MarkDelivered | ChattyBuddy.Wpf/ViewModels/ChatWindowViewModel.cs:199-200 | only the entry with the id becomes delivered; every other entry is unchanged |
| ChatLog.NonTyping | ChattyBuddy.Wpf/ViewModels/ChatWindowViewModel.cs:311-312 | the result holds no typing entry and is no longer than the log |
| ChatLog.IndexOfAppended | ChattyBuddy.Wpf/ViewModels/ChatWindowViewModel.cs:166 | an entry appended with a fresh id is found at the end of the log |
| ChatLog.RemoveIdIsFilter | ChattyBuddy.Wpf/ViewModels/ChatWindowViewModel.cs:132-139 | with unique ids, when the tracked entry is the only typing entry, removing it equals filtering out all typing entries |
| ChatLog.Decimal | ChattyBuddy.Wpf/ViewModels/ChatWindowViewModel.cs:170 | the count is printed as a non-empty string of decimal digits that reads back as the count, with no leading zero |
| ChatLog.Projection | ChattyBuddy.Wpf/ViewModels/ChatWindowViewModel.cs:308-321 | the saved records are never more than the entries; for a log without typing entries there is one record per entry, with that entry's fields, in order |
| ChatLog.Rebuilt | ChattyBuddy.Wpf/ViewModels/ChatWindowViewModel.cs:280-290 | loading builds one non-typing entry per record, in order, with the record's fields and fresh consecutive ids |
| ChatLog.RebuiltSnoc | ChattyBuddy.Wpf/ViewModels/ChatWindowViewModel.cs:281-290 | loading one more record appends exactly one more entry |
| ChatLog.ProjectionAppend | ChattyBuddy.Wpf/ViewModels/ChatWindowViewModel.cs:309-321 | the projection of a concatenation is the concatenation of the projections |
| ChatLog.ProjectionDropsTyping | ChattyBuddy.Wpf/ViewModels/ChatWindowViewModel.cs:311-312 | a typing entry anywhere in the log never reaches the saved history |
| ChatLog.SaveAfterLoad | ChattyBuddy.Wpf/ViewModels/ChatWindowViewModel.cs:280-321 | loading records and saving again writes the same records |
| ChatLog.LoadAfterSave | ChattyBuddy.Wpf/ViewModels/ChatWindowViewModel.cs:280-321 | saving and then loading restores every non-typing entry's text, ownership, timestamp and delivery, in order, as non-typing entries |
| ChatLog.HistoryKey | ChattyBuddy.Wpf/ViewModels/ChatWindowViewModel.cs:357-363 | the key is absent exactly when both id and address are blank; otherwise it is the id if non-blank, else the address, of the same length, with ':', '/' and '\\' turned into '_', and it contains none of them |
| TypingIndicator.Activity | ChattyBuddy.Wpf/ViewModels/ChatWindowViewModel.cs:206-235 | after an edit the composing flag equals "text is non-blank"; start is sent only on false to true and stop only on true to false; the activity time moves only with text; the monitor is started when composing begins |
| TypingIndicator.Tick | ChattyBuddy.Wpf/ViewModels/ChatWindowViewModel.cs:237-264 | a wake-up sends stop exactly when a running monitor sees composing idle for at least 2000 ms; a monitor that stopped does nothing; a monitor still running afterwards means still composing |
| TypingIndicator.RunAlternates | ChattyBuddy.Wpf/ViewModels/ChatWindowViewModel.cs:206-264 | over any sequence of edits and wake-ups the tokens sent strictly alternate, and the final composing flag matches their parity |
| TypingIndicator.RunKeepsMonitor | ChattyBuddy.Wpf/ViewModels/ChatWindowViewModel.cs:219-223 | over any run, while composing, a monitor is running |
| TypingIndicator.IdleStopsTyping | ChattyBuddy.Wpf/ViewModels/ChatWindowViewModel.cs:250-257 | typing once and waking 2000 ms later sends start then stop, and the monitor ends |
| TypingIndicator.AlternatingExtend | ChattyBuddy.Wpf/ViewModels/ChatWindowViewModel.cs:214-233 | appending one transition's tokens to an alternating record keeps it alternating, with the new composing flag as its parity |
| ChatViewModel.AtMostOneTypingEntry | ChattyBuddy.Wpf/ViewModels/ChatWindowViewModel.cs:116-140 | under the log invariant the log shows at most one typing entry |
| ChatViewModel.IncomingKeepsInvariant | ChattyBuddy.Wpf/ViewModels/ChatWindowViewModel.cs:110-152 | every incoming payload ends the nudge burst and keeps the log invariant |
| ChatViewModel.TypingStartAppendsEntry | ChattyBuddy.Wpf/ViewModels/ChatWindowViewModel.cs:116-130 | typing-start with no tracked entry appends exactly one "Typing..." entry, tracks it, and still at most one typing entry exists |
| ChatViewModel.TypingStopRemovesTypingEntry | ChattyBuddy.Wpf/ViewModels/ChatWindowViewModel.cs:132-140 | typing-stop leaves exactly the non-typing entries, in order, and tracks none |
| ChatViewModel.IncomingTextAppends | ChattyBuddy.Wpf/ViewModels/ChatWindowViewModel.cs:142-151 | a non-token text appends one incoming, delivered, non-typing entry with the normalised text |
| ChatViewModel.TypingStartAfterClearShowsNothing | ChattyBuddy.Wpf/ViewModels/ChatWindowViewModel.cs:331-334 | after clearing under a shown typing entry, the kept reference makes the next typing-start show nothing |
| ChatViewModel.NudgeKeepsInvariant | ChattyBuddy.Wpf/ViewModels/ChatWindowViewModel.cs:154-173 | a nudge keeps the log invariant |
| ChatViewModel.NudgeBurst | ChattyBuddy.Wpf/ViewModels/ChatWindowViewModel.cs:154-173 | n nudges with no reset add exactly one entry at the end, reading "Nudge" for n = 1 and "Nudge xn" otherwise, stamped with the last nudge's time |
| ChatViewModel.SendTextBlankIffOutgoingBlank | ChattyBuddy.Wpf/ViewModels/ChatWindowViewModel.cs:179-182 | normalising and trimming yields a blank text exactly when the outgoing text was blank |
| ChatViewModel.SentAppendsOwnEntry | ChattyBuddy.Wpf/ViewModels/ChatWindowViewModel.cs:175-204 | sending keeps the invariant and ends the burst; a blank text adds nothing; otherwise one own entry with the trimmed text is appended, delivered exactly when the send succeeded |
| ChatViewModel.LoadedRestoresHistory | ChattyBuddy.Wpf/ViewModels/ChatWindowViewModel.cs:280-290 | loading keeps the invariant and the log's projection is exactly the loaded records, with no typing entries |
| ChatViewModel.LoadedWithoutHistory | ChattyBuddy.Wpf/ViewModels/ChatWindowViewModel.cs:268-278 | without a history key or a readable document, loading changes nothing |
| ChatViewModel.NudgeAfterLoadChangesNoEntry | ChattyBuddy.Wpf/ViewModels/ChatWindowViewModel.cs:158-171 | after a load during a burst the anchor is gone from the log, so the next nudge changes no entry |
| ChatViewModel.AppendFreshKeepsInvariant | ChattyBuddy.Wpf/ViewModels/ChatWindowViewModel.cs:192 | appending a non-typing entry with the next id keeps the invariant |
| ChatViewModel.ClearedKeepsInvariant | ChattyBuddy.Wpf/ViewModels/ChatWindowViewModel.cs:331-335 | clearing empties the log, ends the burst and keeps the invariant |
| ChatViewModel.ChatWindowViewModel.constructor | ChattyBuddy.Wpf/ViewModels/ChatWindowViewModel.cs:100-108 | a new view model has an empty log, is idle, has no outgoing text, and gets its history key from the device id and address |
| ChatViewModel.ChatWindowViewModel.ClearPendingNudge | ChattyBuddy.Wpf/ViewModels/ChatWindowViewModel.cs:351-355 | the burst count becomes 0 and the anchor reference is dropped |
| ChatViewModel.ChatWindowViewModel.AddIncomingMessage | ChattyBuddy.Wpf/ViewModels/ChatWindowViewModel.cs:110-152 | the fields change as the incoming-payload function says, and the view model's invariant is kept |
| ChatViewModel.ChatWindowViewModel.AddIncomingNudge | ChattyBuddy.Wpf/ViewModels/ChatWindowViewModel.cs:154-173 | the fields change as the nudge function says, and the invariant is kept |
| ChatViewModel.ChatWindowViewModel.RegisterTypingActivity | ChattyBuddy.Wpf/ViewModels/ChatWindowViewModel.cs:206-235 | the typing fields take one activity step; its tokens go to the peer when the address is not blank; the sent tokens keep alternating |
| ChatViewModel.ChatWindowViewModel.MonitorTick | ChattyBuddy.Wpf/ViewModels/ChatWindowViewModel.cs:243-263 | one monitor wake-up takes one tick step, sends its token to the peer, and keeps the tokens alternating |
| ChatViewModel.ChatWindowViewModel.SetOutgoingText | ChattyBuddy.Wpf/ViewModels/ChatWindowViewModel.cs:84-96 | only a changed value counts as typing activity; setting the same value sends nothing |
| ChatViewModel.ChatWindowViewModel.Send | ChattyBuddy.Wpf/ViewModels/ChatWindowViewModel.cs:175-204 | a blank outgoing text leaves the log and the outgoing text unchanged; otherwise one own entry is appended, delivered exactly when the send succeeded, the outgoing text becomes "", typing-stop goes out first when composing, then the text goes to the peer |
| ChatViewModel.ChatWindowViewModel.SendOwnMessage | ChattyBuddy.Wpf/ViewModels/ChatWindowViewModel.cs:184-203 | the own entry is appended, the outgoing text is emptied, the text is sent, and the entry is delivered only on success |
| ChatViewModel.ChatWindowViewModel.AppendOwnMessage | ChattyBuddy.Wpf/ViewModels/ChatWindowViewModel.cs:184-192 | one own, undelivered entry is appended with a fresh id |
| ChatViewModel.ChatWindowViewModel.DeliverOwnMessage | ChattyBuddy.Wpf/ViewModels/ChatWindowViewModel.cs:196-203 | with a non-blank address the text goes to the peer and the newest entry is delivered exactly when the send succeeded; the closing typing activity changes no typing state and sends no token |
| ChatViewModel.ChatWindowViewModel.MarkOwnDelivered | ChattyBuddy.Wpf/ViewModels/ChatWindowViewModel.cs:199-200 | only the newest entry becomes delivered |
| ChatViewModel.ChatWindowViewModel.ToPeerAppend | ChattyBuddy.Wpf/ViewModels/ChatWindowViewModel.cs:196-199 | packets for two payload lists in a row are the packets of each list in turn |
| ChatViewModel.ChatWindowViewModel.LoadHistory | ChattyBuddy.Wpf/ViewModels/ChatWindowViewModel.cs:266-295 | the log is replaced by one entry per loaded record when there is a history key and a document, and is unchanged otherwise |
| ChatViewModel.ChatWindowViewModel.RebuildEntries | ChattyBuddy.Wpf/ViewModels/ChatWindowViewModel.cs:280-290 | the log becomes one entry per loaded record, in order, with consecutive fresh ids |
| ChatViewModel.ChatWindowViewModel.SaveHistory | ChattyBuddy.Wpf/ViewModels/ChatWindowViewModel.cs:297-329 | with a history key the records written are the projection of the log; without one nothing is written |
| ChatViewModel.ChatWindowViewModel.Clear | ChattyBuddy.Wpf/ViewModels/ChatWindowViewModel.cs:331-349 | the log becomes empty and the burst ends; the typing reference is kept |
| ChatWindowView.MergeKeepsInvariant | ChattyBuddy.Wpf/ChatWindow.xaml.cs:293-322 | merging or adding a line keeps the log invariant |
| ChatWindowView.DispatchKeepsInvariant | ChattyBuddy.Wpf/ChatWindow.xaml.cs:90-105 | every line the window receives keeps the log invariant |
| ChatWindowView.MergeExtendsNewest | ChattyBuddy.Wpf/ChatWindow.xaml.cs:305-316 | a text within 300 ms of a newest incoming, non-typing entry adds no entry; that entry gets the text as a new line ("text" alone if it was empty) and the new time; earlier entries and the nudge burst are unchanged |
| ChatWindowView.UnmergedLineAppends | ChattyBuddy.Wpf/ChatWindow.xaml.cs:318-320 | a text that cannot be merged grows the log by one incoming entry with the normalised text |
| ChatWindowView.NudgeOverwritesMergedText | ChattyBuddy.Wpf/ChatWindow.xaml.cs:306-316 | text merged into a nudge anchor is overwritten by the next nudge, which relabels the anchor |
| ChatWindowView.FirstLine | ChattyBuddy.Wpf/ChatWindow.xaml.cs:301-320 | the first text line of an empty log becomes its only entry |
| ChatWindowView.QuickLinesMerge | ChattyBuddy.Wpf/ChatWindow.xaml.cs:305-316 | two single lines at most 300 ms apart become one entry holding both lines, stamped with the second time |
| ChatWindowView.SlowLinesStaySeparate | ChattyBuddy.Wpf/ChatWindow.xaml.cs:318-320 | two single lines more than 300 ms apart stay two entries |
| ChatWindowView.ChatWindow.constructor | ChattyBuddy.Wpf/ChatWindow.xaml.cs:56-69 | the window owns a fresh transport and a view model that talks to port 54545 |
| ChatWindowView.ChatWindow.OnLineReceived | ChattyBuddy.Wpf/ChatWindow.xaml.cs:90-105 | a line equal to the nudge token nudges; every other line is merged or added |
| ChatWindowView.ChatWindow.MergeOrAddIncomingMessage | ChattyBuddy.Wpf/ChatWindow.xaml.cs:293-322 | typing tokens go to the view model unchanged; null changes nothing; otherwise the newest entry is extended or the line is added |
| ChatWindowView.ChatWindow.ActionButtonClick | ChattyBuddy.Wpf/ChatWindow.xaml.cs:191-204 | a blank outgoing text sends the nudge token when the address is not blank and changes no entry, typing state or token; otherwise the send command runs: the log gains the own entry, the outgoing text becomes empty, the closing typing activity takes place and its tokens and then the text go to the peer |
| Transport.ChatService.SendMessage | ChattyBuddy.Wpf/Services/ChatService.cs:74-89 | a send is recorded, and its result is whether the peer was reachable |
| Transport.ChatService.Post | ChattyBuddy.Wpf/ViewModels/ChatWindowViewModel.cs:218 | a send whose result is ignored is recorded |
| UpdateService.BeforeSuffix | ChattyBuddy.Wpf/Services/UpdateService.cs:115 | the result is the longest prefix without '-' or '+' |
| UpdateService.NormalizeVersion | ChattyBuddy.Wpf/Services/UpdateService.cs:111-117 | a blank version is returned as it is; otherwise one leading 'v' or 'V' is dropped, then everything from the first '-' or '+' |
| UpdateService.ParseInt32 | ChattyBuddy.Wpf/Services/UpdateService.cs:102-103 | a parsed component always fits in 32 bits |
| UpdateService.ParseInt32OfNumber | ChattyBuddy.Wpf/Services/UpdateService.cs:102-103 | white space, an optional sign, digits and white space parse as the signed value of the digits when it fits in 32 bits, and fail otherwise |
| UpdateService.ParseInt32RejectsForeign | ChattyBuddy.Wpf/Services/UpdateService.cs:102-103 | a character that is neither white space, a sign nor a digit makes the parse fail |
| UpdateService.ParseInt32NeedsDigit | ChattyBuddy.Wpf/Services/UpdateService.cs:102-103 | text without a digit never parses |
| UpdateService.PartValueOfDigits | ChattyBuddy.Wpf/Services/UpdateService.cs:102-103 | a component of digits counts as its value when that fits in 32 bits |
| UpdateService.PartValueOfNonNumeric | ChattyBuddy.Wpf/Services/UpdateService.cs:102-103 | a component without digits, or with a character foreign to numbers, counts as 0 |
| UpdateService.Values | ChattyBuddy.Wpf/Services/UpdateService.cs:102-103 | each component has the value it parses to, 0 when it does not parse |
| UpdateService.IsNewer | ChattyBuddy.Wpf/Services/UpdateService.cs:92-109 | true exactly when both versions are non-blank and the first differing component is greater in the latest tag, with missing or non-numeric components counting as 0 |
| UpdateService.ComponentOf | ChattyBuddy.Wpf/Services/UpdateService.cs:102-103 | the component at an index is its parsed value, or 0 past the end |
| UpdateService.NotGreaterPast | ChattyBuddy.Wpf/Services/UpdateService.cs:105 | once the current version is greater at the first difference, the latest tag is greater nowhere |
| UpdateService.NewerIrreflexive | ChattyBuddy.Wpf/Services/UpdateService.cs:92-109 | a version is never newer than itself |
| UpdateService.NewerAsymmetric | ChattyBuddy.Wpf/Services/UpdateService.cs:92-109 | two versions are never each newer than the other |
| UpdateService.NewerTransitive | ChattyBuddy.Wpf/Services/UpdateService.cs:92-109 | newer than a version that is newer than a third is newer than the third |
| UpdateService.ComponentsGreaterTransitive | ChattyBuddy.Wpf/Services/UpdateService.cs:100-107 | the component order is transitive |
| UpdateService.TrailingZeroIgnored | ChattyBuddy.Wpf/Services/UpdateService.cs:100-103 | appending ".0" to a version changes no comparison in either direction, so "1.2" and "1.2.0" are equal |
| UpdateService.ZeroPartAppended | ChattyBuddy.Wpf/Services/UpdateService.cs:97-99 | appending ".0" appends exactly one component, of value 0 |
| UpdateService.PaddingWithZero | ChattyBuddy.Wpf/Services/UpdateService.cs:100-103 | a trailing zero component compares exactly like a missing one |
| UpdateService.PrefixAndSuffixIgnored | ChattyBuddy.Wpf/Services/UpdateService.cs:111-117 | "v" + core + "-" + suffix has the same components as core |
| UpdateService.FirstInstaller | ChattyBuddy.Wpf/Services/UpdateService.cs:46-54 | the result is absent exactly when no URL is accepted; otherwise it is the first accepted one |
| UpdateService.SelectInstallerUrl | ChattyBuddy.Wpf/Services/UpdateService.cs:44-60 | without an assets array there is no URL; otherwise the first non-blank URL ending in ".exe" (any case) is chosen, or none |
| Tailscale.IndexOfChar | ChattyBuddy.Wpf/Services/TailscaleService.cs:100 | -1 exactly when the character is absent; otherwise its first position |
| Tailscale.ExtractDeviceName | ChattyBuddy.Wpf/Services/TailscaleService.cs:95-105 | a blank name is returned as it is; a non-blank name gives a non-empty prefix of itself |
| Tailscale.ExtractDeviceNameCutsAtFirstDot | ChattyBuddy.Wpf/Services/TailscaleService.cs:100-104 | a name with a dot past its first character is cut before the first dot and has no dot left; any other name is kept whole |
| Tailscale.ExtractDeviceNameIdempotent | ChattyBuddy.Wpf/Services/TailscaleService.cs:95-105 | truncating twice equals truncating once |
| Tailscale.PreferredName | ChattyBuddy.Wpf/Services/TailscaleService.cs:33-37 | the name is DNSName when non-blank, else HostName when non-blank, else the peer id |
| Tailscale.PeerAddress | ChattyBuddy.Wpf/Services/TailscaleService.cs:41-49 | the address is the first TailscaleIPs element when there is one, else "" |
| Tailscale.DeviceOf | ChattyBuddy.Wpf/Services/TailscaleService.cs:26-51 | the device keeps the peer id and address, and is online exactly when "Online" is true (false when missing) |
| Tailscale.DeviceNameIsFirstLabel | ChattyBuddy.Wpf/Services/TailscaleService.cs:33-48 | the display name is a prefix of the preferred name: the part before its first dot, or the whole name |
| Tailscale.StatusDevices | ChattyBuddy.Wpf/Services/TailscaleService.cs:16-52 | blank output or no "Peer" object gives no devices; otherwise one device per peer, in order, offline ones included |
| Tailscale.GetOnlineDevices | ChattyBuddy.Wpf/Services/TailscaleService.cs:13-55 | the loop builds exactly the devices of the status |
| Tailscale.FindOnline | ChattyBuddy.Wpf/Services/TailscaleService.cs:86-92 | true exactly when some device's id equals the query ignoring case and that device is online |
| Tailscale.IsDeviceOnline | ChattyBuddy.Wpf/Services/TailscaleService.cs:83-93 | true exactly when the status lists an online device with that id, ignoring case |
| Tailscale.OnlineIgnoresCase | ChattyBuddy.Wpf/Services/TailscaleService.cs:88 | queries that differ only in letter case give the same answer |
| Tailscale.OfflinePeerNotOnline | ChattyBuddy.Wpf/Services/TailscaleService.cs:83-93 | when no matching peer reports "Online" as true, the lookup is false |
| DeviceSelection.FirstWithId | ChattyBuddy.Wpf/ViewModels/DeviceSelectionViewModel.cs:71 | absent exactly when no device id matches ignoring case; otherwise the first matching device |
| DeviceSelection.StatusAfterLoad | ChattyBuddy.Wpf/ViewModels/DeviceSelectionViewModel.cs:91-98 | a failure gives "Failed to load devices.", an empty list gives "No Tailscale devices found.", otherwise "" |
| DeviceSelection.DeviceSelectionViewModel.constructor | ChattyBuddy.Wpf/ViewModels/DeviceSelectionViewModel.cs:17-21 | no devices, not busy, no status and no selection |
| DeviceSelection.DeviceSelectionViewModel.SelectDevice | ChattyBuddy.Wpf/ViewModels/DeviceSelectionViewModel.cs:23-31 | the selection is set, and connect becomes enabled exactly when not busy and a device is selected |
| DeviceSelection.DeviceSelectionViewModel.LoadDevices | ChattyBuddy.Wpf/ViewModels/DeviceSelectionViewModel.cs:80-104 | the list becomes exactly the fetched devices, in order (empty on failure); the status follows the result; the view model is no longer busy |
| DeviceSelection.DeviceSelectionViewModel.Connect | ChattyBuddy.Wpf/ViewModels/DeviceSelectionViewModel.cs:106-124 | without a selection nothing changes; otherwise its id is saved, Connected is raised for it, the status reads "Connecting..." and the view model is no longer busy |
| DeviceSelection.DeviceSelectionViewModel.Initialize | ChattyBuddy.Wpf/ViewModels/DeviceSelectionViewModel.cs:62-78 | after loading, with auto-connect requested and a non-blank saved id, the first device matching ignoring case is selected and connected; with no match nothing more happens |
| DeviceSelection.AutoConnectTargetMatches | ChattyBuddy.Wpf/ViewModels/DeviceSelectionViewModel.cs:71 | when some device matches the saved id, auto-connect finds a matching device no later than it |
| DeviceSelection.FirstWithIdIgnoresCase | ChattyBuddy.Wpf/ViewModels/DeviceSelectionViewModel.cs:71 | saved ids that differ only in letter case select the same device |

## Left out

- File and JSON I/O: reading, writing and deleting the history file, and the
  settings file of `SelectedDeviceStore`. The deserialised history is a
  parameter of `LoadHistory` and the saved records are the result of
  `SaveHistory`. The saved device id is a parameter of `Initialize`; the ids
  handed to the store are recorded in `savedIds`.
- The TCP transport (`ChatService.Start`/`Stop`, the accept loop and the line
  reader). A received line is a parameter of `OnLineReceived`, and a send's
  outcome is a parameter.
- Running `tailscale status --json`, running `powershell` for downloads, and the
  HTTP requests to GitHub: `GetLatestTagAsync`, `DownloadWithBitsAsync` and
  `GetCurrentVersion`. The peers, the command output and the asset URLs are
  parameters.
- Exceptions from JSON accessors: a non-boolean "Online", a non-string
  "DNSName", "HostName" or IP, a "Peer" that is not an object, and malformed
  status output, which aborts `GetOnlineDevicesAsync`. In the update check, a
  non-string `browser_download_url` makes the whole search return null. None of
  these is modelled.
- An exception from saving the selected device inside `ConnectAsync` is not
  modelled; the save always succeeds.
- WPF and Win32 plumbing: sounds, window flashing, scrolling, themes, the
  action button's icon, `Dispatcher.Invoke`, and `RelayCommand`'s
  event raising. The command enablement tests are modelled as predicates.
- Async interleaving. Every operation runs to completion before the next
  begins. The monitor loop's 500 ms delay is modelled as separate `MonitorTick`
  calls. The fire-and-forget history save after a merge is not modelled.
- `DateTime.Now` and `DateTime.UtcNow` are one integer clock in milliseconds,
  with no fractional milliseconds.
- Merge-time normalisation: a merged line goes through `NormalizeMessageLocal`
  and then, when appended, through `NormalizeMessage` again. That is the model's
  behaviour too. The lemma that the second pass changes nothing holds only for
  a CRLF platform newline.
- Text.NormalizeMessageIdempotentOnCrLf: idempotence is proved only for a CRLF
  newline, because with LF it is false (`NormalizeMessageNotIdempotentOnLf`).
- UpdateService.ParseInt32: models `int.TryParse` with ASCII white space, one
  optional sign and ASCII digits. Culture-specific signs, trailing NUL
  characters, and the white-space set of other cultures are not modelled.
- Text.EqualsIgnoreCase: folds only ASCII letters. `OrdinalIgnoreCase` also
  folds non-ASCII letters by invariant upper-casing.
- A history record whose text is null, or a null element in the history list,
  is not modelled. Record texts are strings.
- Entry identity: entries are values with a unique id instead of objects. A
  reference to an entry that is no longer in the log is an id that matches no
  entry, so changing it changes no entry.
