/**
 * The conversation log of a chat window: its entries, the reserved payloads,
 * the history projection that is persisted, and the history key.
 *
 * A C# `ChatMessage` is an object whose identity matters (the typing entry and
 * the nudge anchor are references to log entries). Here each entry carries an
 * `id`, unique within its view model; a reference is an id, which may name an
 * entry no longer in the log.
 */
module ChatLog {
  import opened Wrappers
  import opened Text

  datatype ChatMessage = ChatMessage(
    id: nat,
    text: string,
    isOwn: bool,
    timestamp: int,     // milliseconds
    isTyping: bool,
    isDelivered: bool)

  /** One element of the persisted history document. */
  datatype HistoryRecord = HistoryRecord(text: string, isOwn: bool, timestamp: int, isDelivered: bool)

  const NudgeToken := "__nudge__"
  const TypingStartToken := "__typing__:start"
  const TypingStopToken := "__typing__:stop"
  const TypingText := "Typing..."
  /** Incoming text younger than this is merged into the previous incoming entry. */
  const MergeWindowMs := 300
  /** The typing monitor sends typing-stop after this much inactivity. */
  const TypingIdleMs := 2000

  predicate DistinctIds(log: seq<ChatMessage>) {
    forall i, j :: 0 <= i < j < |log| ==> log[i].id != log[j].id
  }

  predicate IdsBelow(log: seq<ChatMessage>, bound: nat) {
    forall i :: 0 <= i < |log| ==> log[i].id < bound
  }

  predicate AtMostOneTyping(log: seq<ChatMessage>) {
    forall i, j :: 0 <= i < |log| && 0 <= j < |log| && log[i].isTyping && log[j].isTyping ==> i == j
  }

  /** Position of the first entry with this id, or `|log|` when there is none. */
  function IndexOfId(log: seq<ChatMessage>, id: nat): (k: nat)
    ensures k <= |log|
    ensures forall i :: 0 <= i < k ==> log[i].id != id
    ensures k < |log| ==> log[k].id == id
  {
    if |log| == 0 || log[0].id == id then 0 else 1 + IndexOfId(log[1..], id)
  }

  /** `Messages.Remove(entry)`: the first entry with this id goes, the rest keep their order. */
  function RemoveId(log: seq<ChatMessage>, id: nat): (r: seq<ChatMessage>)
    ensures IndexOfId(log, id) == |log| ==> r == log
    ensures IndexOfId(log, id) < |log| ==> |r| == |log| - 1
    ensures forall i :: 0 <= i < IndexOfId(log, id) && i < |r| ==> r[i] == log[i]
    ensures forall i :: IndexOfId(log, id) <= i < |r| ==> r[i] == log[i + 1]
  {
    var k := IndexOfId(log, id);
    if k < |log| then log[..k] + log[k + 1..] else log
  }

  /** Setting `Text` and `Timestamp` of the entry with this id; nothing visible changes when it is not in the log. */
  function Retext(log: seq<ChatMessage>, id: nat, text: string, timestamp: int): (r: seq<ChatMessage>)
    ensures |r| == |log|
    ensures forall i :: 0 <= i < |log| && i != IndexOfId(log, id) ==> r[i] == log[i]
    ensures IndexOfId(log, id) < |log| ==>
      r[IndexOfId(log, id)] == log[IndexOfId(log, id)].(text := text, timestamp := timestamp)
  {
    var k := IndexOfId(log, id);
    if k < |log| then log[k := log[k].(text := text, timestamp := timestamp)] else log
  }

  /** Setting `IsDelivered` of the entry with this id. */
  function MarkDelivered(log: seq<ChatMessage>, id: nat): (r: seq<ChatMessage>)
    ensures |r| == |log|
    ensures forall i :: 0 <= i < |log| && i != IndexOfId(log, id) ==> r[i] == log[i]
    ensures IndexOfId(log, id) < |log| ==> r[IndexOfId(log, id)] == log[IndexOfId(log, id)].(isDelivered := true)
  {
    var k := IndexOfId(log, id);
    if k < |log| then log[k := log[k].(isDelivered := true)] else log
  }

  /** The entries that are not typing entries, in order. */
  function NonTyping(log: seq<ChatMessage>): (r: seq<ChatMessage>)
    ensures |r| <= |log|
    ensures forall i :: 0 <= i < |r| ==> !r[i].isTyping
  {
    if log == [] then []
    else (if log[0].isTyping then [] else [log[0]]) + NonTyping(log[1..])
  }

  /** A fresh entry appended to the log is found at the end. */
  lemma {:induction false} IndexOfAppended(log: seq<ChatMessage>, m: ChatMessage)
    requires IdsBelow(log, m.id)
    ensures IndexOfId(log + [m], m.id) == |log|
  {
    if log != [] {
      assert (log + [m])[1..] == log[1..] + [m];
      IndexOfAppended(log[1..], m);
    }
  }

  /**
   * When exactly the entries with id `id` are typing entries and ids are
   * unique, removing that entry is filtering out the typing entries.
   */
  lemma {:induction false} RemoveIdIsFilter(log: seq<ChatMessage>, id: nat)
    requires DistinctIds(log)
    requires forall i :: 0 <= i < |log| ==> (log[i].isTyping <==> log[i].id == id)
    ensures RemoveId(log, id) == NonTyping(log)
  {
    if log != [] {
      var rest := log[1..];
      assert forall i :: 0 <= i < |rest| ==> rest[i] == log[i + 1];
      if log[0].id == id {
        forall i | 0 <= i < |rest|
          ensures !rest[i].isTyping
        {
          assert log[0].id != log[i + 1].id;
        }
        NonTypingOfClean(rest);
        assert RemoveId(log, id) == rest;
      } else {
        assert DistinctIds(rest) by {
          forall i, j | 0 <= i < j < |rest|
            ensures rest[i].id != rest[j].id
          {
            assert log[i + 1].id != log[j + 1].id;
          }
        }
        RemoveIdIsFilter(rest, id);
        RemoveIdPastHead(log, id);
        assert NonTyping(log) == [log[0]] + NonTyping(rest);
      }
    }
  }

  lemma RemoveIdPastHead(log: seq<ChatMessage>, id: nat)
    requires log != [] && log[0].id != id
    ensures RemoveId(log, id) == [log[0]] + RemoveId(log[1..], id)
  {
    var rest := log[1..];
    var k := IndexOfId(rest, id);
    assert IndexOfId(log, id) == 1 + k;
    if k < |rest| {
      assert log[..1 + k] == [log[0]] + rest[..k];
      assert log[1 + k + 1..] == rest[k + 1..];
    }
  }

  lemma {:induction false} NonTypingOfClean(log: seq<ChatMessage>)
    requires forall i :: 0 <= i < |log| ==> !log[i].isTyping
    ensures NonTyping(log) == log
  {
    if log != [] {
      assert forall i :: 0 <= i < |log[1..]| ==> log[1..][i] == log[i + 1];
      NonTypingOfClean(log[1..]);
    }
  }

  /**
   * Decimal digits of a natural number, as `$"{n}"` prints it: they read back
   * as `n`, with no leading zero.
   */
  function Decimal(n: nat): (s: string)
    ensures |s| >= 1
    ensures forall i :: 0 <= i < |s| ==> IsDigit(s[i])
    ensures DigitsValue(s) == n
    ensures s[0] != '0' || n == 0
  {
    var digit := ['0' + (n % 10) as char];
    if n < 10 then digit else Decimal(n / 10) + digit
  }

  /** Text of the nudge anchor after `count` nudges. */
  function NudgeLabel(count: int): string {
    if count > 1 then "Nudge x" + Decimal(count) else "Nudge"
  }

  // ---------------------------------------------------------------------------
  // History projection (SaveHistoryAsync / LoadHistoryAsync without the file)
  // ---------------------------------------------------------------------------

  function ToRecord(m: ChatMessage): HistoryRecord {
    HistoryRecord(m.text, m.isOwn, m.timestamp, m.isDelivered)
  }

  /** What `SaveHistoryAsync` writes: the non-typing entries, in order, without ids. */
  function Projection(log: seq<ChatMessage>): (records: seq<HistoryRecord>)
    ensures |records| <= |log|
    ensures (forall i :: 0 <= i < |log| ==> !log[i].isTyping) ==>
      |records| == |log| && forall i :: 0 <= i < |log| ==> records[i] == ToRecord(log[i])
  {
    if log == [] then []
    else (if log[0].isTyping then [] else [ToRecord(log[0])]) + Projection(log[1..])
  }

  /** What `LoadHistoryAsync` puts in the log: one non-typing entry per record, ids from `firstId`. */
  function Rebuilt(records: seq<HistoryRecord>, firstId: nat): (log: seq<ChatMessage>)
    ensures |log| == |records|
    ensures forall i :: 0 <= i < |log| ==> !log[i].isTyping && log[i].id == firstId + i
    ensures forall i :: 0 <= i < |log| ==> ToRecord(log[i]) == records[i]
  {
    seq(|records|, i requires 0 <= i < |records| =>
      ChatMessage(firstId + i, records[i].text, records[i].isOwn, records[i].timestamp, false, records[i].isDelivered))
  }

  /** Loading one more record appends one more entry. */
  lemma RebuiltSnoc(records: seq<HistoryRecord>, r: HistoryRecord, firstId: nat)
    ensures Rebuilt(records + [r], firstId) ==
      Rebuilt(records, firstId) + [ChatMessage(firstId + |records|, r.text, r.isOwn, r.timestamp, false, r.isDelivered)]
  {
  }

  /** The projection of a concatenation is the concatenation of the projections. */
  lemma {:induction false} ProjectionAppend(a: seq<ChatMessage>, b: seq<ChatMessage>)
    ensures Projection(a + b) == Projection(a) + Projection(b)
  {
    if a == [] {
      assert a + b == b;
    } else {
      assert (a + b)[0] == a[0] && (a + b)[1..] == a[1..] + b;
      ProjectionAppend(a[1..], b);
    }
  }

  /** Typing entries never reach the history. */
  lemma {:induction false} ProjectionDropsTyping(a: seq<ChatMessage>, m: ChatMessage, b: seq<ChatMessage>)
    requires m.isTyping
    ensures Projection(a + [m] + b) == Projection(a + b)
  {
    ProjectionAppend(a + [m], b);
    ProjectionAppend(a, [m]);
    ProjectionAppend(a, b);
    assert Projection([m]) == [];
  }

  /** Loading a saved history and saving it again gives the same records. */
  lemma {:induction false} SaveAfterLoad(records: seq<HistoryRecord>, firstId: nat)
    ensures Projection(Rebuilt(records, firstId)) == records
  {
    var log := Rebuilt(records, firstId);
    assert forall i :: 0 <= i < |log| ==> !log[i].isTyping;
  }

  /** Saving then loading restores every non-typing entry's fields, in order, as non-typing entries. */
  lemma LoadAfterSave(log: seq<ChatMessage>, firstId: nat)
    ensures var back := Rebuilt(Projection(log), firstId);
      Projection(back) == Projection(log) && forall i :: 0 <= i < |back| ==> !back[i].isTyping
  {
    SaveAfterLoad(Projection(log), firstId);
  }

  // ---------------------------------------------------------------------------
  // History key (the file-name part of BuildHistoryFilePath)
  // ---------------------------------------------------------------------------

  predicate PathUnsafe(c: char) {
    c == ':' || c == '/' || c == '\\'
  }

  /**
   * The history key: the device id if it is not blank, else the address, with
   * ':', '/' and '\' each replaced by '_'; absent when both are blank.
   */
  function HistoryKey(deviceId: Option<string>, address: Option<string>): (key: Option<string>)
    ensures key.None? <==> IsBlank(deviceId) && IsBlank(address)
    ensures key.Some? ==>
      var source := if !IsBlank(deviceId) then deviceId.value else address.value;
      |key.value| == |source| &&
      forall i :: 0 <= i < |source| ==> key.value[i] == (if PathUnsafe(source[i]) then '_' else source[i])
    ensures key.Some? ==> forall i :: 0 <= i < |key.value| ==> !PathUnsafe(key.value[i])
  {
    if IsBlank(deviceId) && IsBlank(address) then None
    else
      var source := if !IsBlank(deviceId) then deviceId.value else address.value;
      Some(ReplaceChar(ReplaceChar(ReplaceChar(source, ':', '_'), '/', '_'), '\\', '_'))
  }
}
