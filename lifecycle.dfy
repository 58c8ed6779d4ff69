/**
 * The lifecycle record of one tracked packet and, as functions of the record
 * before and the chain data observed, what each step of the two frame
 * handlers makes of it. These functions are the specification the imperative
 * Tracker is proved against; the lemmas state what the steps promise.
 */
module Lifecycle {
  import opened Wrappers
  import opened Events

  /** The frame state: every field is undefined (None) until a step assigns it. */
  datatype Record = Record(sendTxId: Option<TxHash>, sequence: Option<nat>, sendTime: Option<nat>,
                           recvTx: Option<TxHash>, recvTime: Option<nat>,
                           ackTx: Option<TxHash>, ackTime: Option<nat>)

  /** The frame server's initial state `{}`. */
  const INITIAL: Record := Record(None, None, None, None, None, None, None)

  /** The label of the button that asks for the receive check. */
  const VERIFY_RECEIPT_BUTTON: string := "verify-packet-receipt"

  /** `later - earlier` in seconds; JavaScript yields NaN (None) when either time is undefined. */
  function Elapsed(later: nat, earlier: Option<nat>): (d: Option<int>)
    ensures d.Some? <==> earlier.Some?
    ensures d.Some? ==> earlier.value + d.value == later
  {
    if earlier.Some? then Some(later - earlier.value) else None
  }

  datatype RecvOutcome = Received(txHash: TxHash, latency: Option<int>) | NotYetReceived
  datatype AckOutcome = Acknowledged(txHash: TxHash, latency: Option<int>) | NotYetAcknowledged

  /** What the /verify-recv-packet frame shows: the send confirmation, or the result of the receive poll. */
  datatype RecvScreen = SendShown(shownSequence: Option<nat>) | RecvPolled(outcome: RecvOutcome)

  predicate IsSendPacket(decoded: Option<DecodedEvent>)
  {
    decoded.Some? && IsKind(decoded.value, SendEvent)
  }

  /** Index of the last log of the receipt that decodes to SendPacket. */
  function LastSendIndex(logs: seq<Log>, parse: Log -> Option<DecodedEvent>): (k: Option<nat>)
    ensures k.Some? ==> k.value < |logs| && IsSendPacket(parse(logs[k.value]))
    ensures k.Some? ==> forall j :: k.value < j < |logs| ==> !IsSendPacket(parse(logs[j]))
    ensures k.None? ==> forall j :: 0 <= j < |logs| ==> !IsSendPacket(parse(logs[j]))
  {
    if logs == [] then None
    else if IsSendPacket(parse(logs[|logs| - 1])) then Some(|logs| - 1)
    else LastSendIndex(logs[..|logs| - 1], parse)
  }

  /** Index of the first log that matches `target` as an event of `kind`. */
  function FirstMatch(logs: seq<Log>, parse: Log -> Option<DecodedEvent>, kind: EventKind, target: Option<nat>)
    : (k: Option<nat>)
    ensures k.Some? ==> k.value < |logs| && Matches(parse, logs[k.value], kind, target)
    ensures k.Some? ==> forall j :: 0 <= j < k.value ==> !Matches(parse, logs[j], kind, target)
    ensures k.None? ==> forall j :: 0 <= j < |logs| ==> !Matches(parse, logs[j], kind, target)
  {
    if logs == [] then None
    else if Matches(parse, logs[0], kind, target) then Some(0)
    else
      match FirstMatch(logs[1..], parse, kind, target)
      case None => None
      case Some(k) => Some(k + 1)
  }

  /** deriveState: the transaction id of this request, when truthy, becomes `sendTxId`. */
  function AfterDerive(r: Record, transactionId: Option<TxHash>): (d: Record)
    ensures d.(sendTxId := r.sendTxId) == r
    ensures transactionId.Some? && transactionId.value != "" ==> d.sendTxId == transactionId
    ensures transactionId.None? || transactionId.value == "" ==> d == r
  {
    if transactionId.Some? && transactionId.value != "" then r.(sendTxId := transactionId) else r
  }

  /** The send step over a list of receipt logs in a block with timestamp `time`. */
  function ApplySendLogs(r: Record, logs: seq<Log>, time: nat, parse: Log -> Option<DecodedEvent>): (d: Record)
    ensures d.(sequence := r.sequence, sendTime := r.sendTime) == r
    ensures (forall j :: 0 <= j < |logs| ==> !IsSendPacket(parse(logs[j]))) ==> d == r
    ensures (exists j :: 0 <= j < |logs| && IsSendPacket(parse(logs[j]))) ==>
              d.sendTime == Some(time)
              && exists k :: 0 <= k < |logs| && IsSendPacket(parse(logs[k]))
                             && d.sequence == Some(parse(logs[k]).value.sequence)
  {
    match LastSendIndex(logs, parse)
    case None => r
    case Some(k) =>
      SequenceReadByPosition(parse(logs[k]), SendEvent);
      r.(sequence := SequenceOf(parse(logs[k]), SendEvent), sendTime := Some(time))
  }

  /** The send step: an absent receipt is scanned as an empty log list. */
  function AfterSend(r: Record, receipt: Option<Receipt>, parse: Log -> Option<DecodedEvent>): (d: Record)
    ensures d.(sequence := r.sequence, sendTime := r.sendTime) == r
    ensures receipt.None? ==> d == r
  {
    if receipt.None? then r else ApplySendLogs(r, receipt.value.logs, receipt.value.blockTimestamp, parse)
  }

  /** The receive poll over the logs the RecvPacket query returned. */
  function AfterRecv(r: Record, logs: seq<Log>, parse: Log -> Option<DecodedEvent>): (p: (Record, RecvOutcome))
    ensures p.0.(recvTx := r.recvTx, recvTime := r.recvTime) == r
    ensures p.1.NotYetReceived? ==> p.0 == r
    ensures p.1.Received? ==> p.0.recvTx == Some(p.1.txHash) && p.0.recvTime.Some?
                              && p.1.latency == Elapsed(p.0.recvTime.value, r.sendTime)
  {
    match FirstMatch(logs, parse, RecvEvent, r.sequence)
    case None => (r, NotYetReceived)
    case Some(k) =>
      (r.(recvTx := Some(logs[k].transactionHash), recvTime := Some(logs[k].blockTimestamp)),
       Received(logs[k].transactionHash, Elapsed(logs[k].blockTimestamp, r.sendTime)))
  }

  /** The acknowledgement poll over the logs the Acknowledgement query returned. */
  function AfterAck(r: Record, logs: seq<Log>, parse: Log -> Option<DecodedEvent>): (p: (Record, AckOutcome))
    ensures p.0.(ackTx := r.ackTx, ackTime := r.ackTime) == r
    ensures p.1.NotYetAcknowledged? ==> p.0 == r
    ensures p.1.Acknowledged? ==> p.0.ackTx == Some(p.1.txHash) && p.0.ackTime.Some?
                                  && p.1.latency == Elapsed(p.0.ackTime.value, r.sendTime)
  {
    match FirstMatch(logs, parse, AckEvent, r.sequence)
    case None => (r, NotYetAcknowledged)
    case Some(k) =>
      (r.(ackTx := Some(logs[k].transactionHash), ackTime := Some(logs[k].blockTimestamp)),
       Acknowledged(logs[k].transactionHash, Elapsed(logs[k].blockTimestamp, r.sendTime)))
  }

  /** The sequence the send confirmation shows: only a truthy one (neither unset nor 0). */
  function ShownSequence(sequence: Option<nat>): (shown: Option<nat>)
    ensures shown.Some? <==> sequence.Some? && sequence.value != 0
    ensures shown.Some? ==> shown == sequence
  {
    if sequence.Some? && sequence.value != 0 then sequence else None
  }

  /**
   * The whole /verify-recv-packet handler: derive the state, then, when the
   * receive check was asked for, the send step on the receipt of `sendTxId`
   * followed by the receive poll; otherwise the send confirmation.
   */
  function HandleVerifyRecv(r: Record, transactionId: Option<TxHash>, buttonValue: Option<string>,
                            receipt: Option<Receipt>, recvLogs: seq<Log>,
                            parse: Log -> Option<DecodedEvent>): (p: (Record, RecvScreen))
    ensures p.1.SendShown? <==> buttonValue != Some(VERIFY_RECEIPT_BUTTON)
    ensures p.1.SendShown? ==> p.0.(sendTxId := r.sendTxId) == r
                               && p.1.shownSequence == ShownSequence(p.0.sequence)
    ensures p.0.ackTx == r.ackTx && p.0.ackTime == r.ackTime
  {
    var derived := AfterDerive(r, transactionId);
    if buttonValue == Some(VERIFY_RECEIPT_BUTTON) then
      var polled := AfterRecv(AfterSend(derived, receipt, parse), recvLogs, parse);
      (polled.0, RecvPolled(polled.1))
    else
      (derived, SendShown(ShownSequence(derived.sequence)))
  }

  // ---------------------------------------------------------------- send step

  /**
   * The last SendPacket log of the receipt decides: `sequence` becomes its
   * sequence field and `sendTime` the receipt block's timestamp; nothing else
   * in the record changes.
   */
  lemma SendTakesLastSendPacket(r: Record, receipt: Receipt, parse: Log -> Option<DecodedEvent>, k: nat)
    requires k < |receipt.logs| && IsSendPacket(parse(receipt.logs[k]))
    requires forall j :: k < j < |receipt.logs| ==> !IsSendPacket(parse(receipt.logs[j]))
    ensures AfterSend(r, Some(receipt), parse)
         == r.(sequence := Some(parse(receipt.logs[k]).value.sequence), sendTime := Some(receipt.blockTimestamp))
  {
  }

  /** An absent receipt, or one without a SendPacket log, leaves the record as it was. */
  lemma SendWithoutSendPacketKeepsRecord(r: Record, receipt: Option<Receipt>, parse: Log -> Option<DecodedEvent>)
    requires receipt.Some? ==> forall j :: 0 <= j < |receipt.value.logs| ==> !IsSendPacket(parse(receipt.value.logs[j]))
    ensures AfterSend(r, receipt, parse) == r
  {
  }

  /**
   * A log that does not decode to SendPacket changes nothing, wherever it
   * stands in the receipt.
   */
  lemma {:induction false} SendIgnoresOtherLog(r: Record, logs: seq<Log>, p: nat, x: Log, time: nat,
                                               parse: Log -> Option<DecodedEvent>)
    requires p <= |logs| && !IsSendPacket(parse(x))
    ensures ApplySendLogs(r, logs[..p] + [x] + logs[p..], time, parse) == ApplySendLogs(r, logs, time, parse)
  {
    var longer := logs[..p] + [x] + logs[p..];
    assert forall j :: 0 <= j < p ==> longer[j] == logs[j];
    assert forall j :: p < j < |longer| ==> longer[j] == logs[j - 1];
    var before := LastSendIndex(logs, parse);
    if before.Some? {
      var b := before.value;
      var shifted := if b < p then b else b + 1;
      assert longer[shifted] == logs[b];
    }
  }

  /** Repeating the send step on the same receipt yields the same record. */
  lemma SendIdempotent(r: Record, receipt: Option<Receipt>, parse: Log -> Option<DecodedEvent>)
    ensures AfterSend(AfterSend(r, receipt, parse), receipt, parse) == AfterSend(r, receipt, parse)
  {
  }

  // ------------------------------------------------------------- receive poll

  /**
   * Receipt is recorded exactly when some RecvPacket log in the window carries
   * the recorded sequence; otherwise the record is unchanged and the outcome
   * is "yet to be received". Only the receive fields ever change.
   */
  lemma RecvRecordedIffMatchingLog(r: Record, logs: seq<Log>, parse: Log -> Option<DecodedEvent>)
    ensures AfterRecv(r, logs, parse).1.Received?
        <==> exists j :: 0 <= j < |logs| && Matches(parse, logs[j], RecvEvent, r.sequence)
    ensures AfterRecv(r, logs, parse).1.NotYetReceived? ==> AfterRecv(r, logs, parse).0 == r
    ensures AfterRecv(r, logs, parse).0.(recvTx := r.recvTx, recvTime := r.recvTime) == r
  {
  }

  /**
   * The first matching log in query order is taken: its transaction hash and
   * block time become `recvTx` and `recvTime`, and the reported latency is
   * measured from `sendTime`.
   */
  lemma RecvTakesFirstMatch(r: Record, logs: seq<Log>, parse: Log -> Option<DecodedEvent>, k: nat)
    requires k < |logs| && Matches(parse, logs[k], RecvEvent, r.sequence)
    requires forall j :: 0 <= j < k ==> !Matches(parse, logs[j], RecvEvent, r.sequence)
    ensures parse(logs[k]).Some? && parse(logs[k]).value.RecvPacket?
         && Some(parse(logs[k]).value.sequence) == r.sequence
    ensures AfterRecv(r, logs, parse)
         == (r.(recvTx := Some(logs[k].transactionHash), recvTime := Some(logs[k].blockTimestamp)),
             Received(logs[k].transactionHash, Elapsed(logs[k].blockTimestamp, r.sendTime)))
  {
  }

  /** With no sequence recorded, no log matches and the receive poll changes nothing. */
  lemma RecvUnsetSequenceNeverMatches(r: Record, logs: seq<Log>, parse: Log -> Option<DecodedEvent>)
    requires r.sequence.None?
    ensures AfterRecv(r, logs, parse) == (r, NotYetReceived)
  {
  }

  /** The scan stops at the first match: logs after a matching prefix are never consulted. */
  lemma RecvStopsAtFirstMatch(r: Record, prefix: seq<Log>, rest: seq<Log>, parse: Log -> Option<DecodedEvent>)
    requires exists j :: 0 <= j < |prefix| && Matches(parse, prefix[j], RecvEvent, r.sequence)
    ensures AfterRecv(r, prefix + rest, parse) == AfterRecv(r, prefix, parse)
  {
    var k := FirstMatch(prefix, parse, RecvEvent, r.sequence).value;
    var logs := prefix + rest;
    assert logs[k] == prefix[k];
    assert forall j :: 0 <= j < k ==> logs[j] == prefix[j];
    RecvTakesFirstMatch(r, logs, parse, k);
  }

  /** Polling again on the same window gives the same record and the same outcome. */
  lemma RecvIdempotent(r: Record, logs: seq<Log>, parse: Log -> Option<DecodedEvent>)
    ensures AfterRecv(AfterRecv(r, logs, parse).0, logs, parse) == AfterRecv(r, logs, parse)
  {
  }

  // ------------------------------------------------------- acknowledgement poll

  /**
   * Acknowledgement is recorded exactly when some Acknowledgement log in the
   * window carries the recorded sequence; the first such log is taken, and
   * only the ack fields change.
   */
  lemma AckRecordedIffMatchingLog(r: Record, logs: seq<Log>, parse: Log -> Option<DecodedEvent>)
    ensures AfterAck(r, logs, parse).1.Acknowledged?
        <==> exists j :: 0 <= j < |logs| && Matches(parse, logs[j], AckEvent, r.sequence)
    ensures AfterAck(r, logs, parse).1.NotYetAcknowledged? ==> AfterAck(r, logs, parse).0 == r
    ensures AfterAck(r, logs, parse).0.(ackTx := r.ackTx, ackTime := r.ackTime) == r
  {
  }

  /** The first matching Acknowledgement log in query order gives `ackTx` and `ackTime`. */
  lemma AckTakesFirstMatch(r: Record, logs: seq<Log>, parse: Log -> Option<DecodedEvent>, k: nat)
    requires k < |logs| && Matches(parse, logs[k], AckEvent, r.sequence)
    requires forall j :: 0 <= j < k ==> !Matches(parse, logs[j], AckEvent, r.sequence)
    ensures parse(logs[k]).Some? && parse(logs[k]).value.Acknowledgement?
         && Some(parse(logs[k]).value.sequence) == r.sequence
    ensures AfterAck(r, logs, parse)
         == (r.(ackTx := Some(logs[k].transactionHash), ackTime := Some(logs[k].blockTimestamp)),
             Acknowledged(logs[k].transactionHash, Elapsed(logs[k].blockTimestamp, r.sendTime)))
  {
  }

  /**
   * The acknowledgement poll does not look at the receive fields: whether or
   * not a receive was recorded, it records the same acknowledgement and reports
   * the same latency, measured from `sendTime`.
   */
  lemma AckIgnoresReceiveStage(r: Record, recvTx: Option<TxHash>, recvTime: Option<nat>,
                               logs: seq<Log>, parse: Log -> Option<DecodedEvent>)
    ensures AfterAck(r.(recvTx := recvTx, recvTime := recvTime), logs, parse).1 == AfterAck(r, logs, parse).1
    ensures AfterAck(r.(recvTx := recvTx, recvTime := recvTime), logs, parse).0
         == AfterAck(r, logs, parse).0.(recvTx := recvTx, recvTime := recvTime)
  {
  }

  /** With no sequence recorded the acknowledgement poll changes nothing; it is not an error. */
  lemma AckUnsetSequenceNeverMatches(r: Record, logs: seq<Log>, parse: Log -> Option<DecodedEvent>)
    requires r.sequence.None?
    ensures AfterAck(r, logs, parse) == (r, NotYetAcknowledged)
  {
  }

  /** Polling again on the same window gives the same record and the same outcome. */
  lemma AckIdempotent(r: Record, logs: seq<Log>, parse: Log -> Option<DecodedEvent>)
    ensures AfterAck(AfterAck(r, logs, parse).0, logs, parse) == AfterAck(r, logs, parse)
  {
  }

  // ------------------------------------------------------------ whole handler

  /**
   * Pressing "Verify Packet Receipt" again, with no new transaction id and the
   * same chain data, shows the same frame and leaves the record as the first
   * press left it.
   */
  lemma VerifyRecvRepeatable(r: Record, transactionId: Option<TxHash>, again: Option<TxHash>,
                             buttonValue: Option<string>, receipt: Option<Receipt>,
                             recvLogs: seq<Log>, parse: Log -> Option<DecodedEvent>)
    requires again.None? || again == transactionId
    ensures var first := HandleVerifyRecv(r, transactionId, buttonValue, receipt, recvLogs, parse);
            HandleVerifyRecv(first.0, again, buttonValue, receipt, recvLogs, parse) == first
  {
  }
}
