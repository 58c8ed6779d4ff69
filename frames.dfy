/**
 * The two frame handlers of the tracker, /verify-recv-packet and /verify-ack,
 * working on the frame state in place. Every method is proved to leave the
 * state the corresponding Lifecycle function prescribes.
 */
module Frames {
  import opened Wrappers
  import opened Events
  import opened Queries
  import opened Lifecycle

  /** The frame state of one tracked packet; JavaScript's undefined is None. */
  class Tracker {
    var sendTxId: Option<TxHash>
    var sequence: Option<nat>
    var sendTime: Option<nat>
    var recvTx: Option<TxHash>
    var recvTime: Option<nat>
    var ackTx: Option<TxHash>
    var ackTime: Option<nat>

    /** The state as a value. */
    function Snapshot(): Record
      reads this
    {
      Record(sendTxId, sequence, sendTime, recvTx, recvTime, ackTx, ackTime)
    }

    /** The initial state `{}`. */
    constructor ()
      ensures Snapshot() == INITIAL
    {
      sendTxId, sequence, sendTime := None, None, None;
      recvTx, recvTime, ackTx, ackTime := None, None, None, None;
    }

    /** deriveState: a truthy transaction id of the request becomes `sendTxId`. */
    method DeriveState(transactionId: Option<TxHash>)
      modifies this
      ensures Snapshot() == AfterDerive(old(Snapshot()), transactionId)
    {
      if transactionId.Some? && transactionId.value != "" {
        sendTxId := transactionId;
      }
    }

    /**
     * The send step: every receipt log that decodes to SendPacket overwrites
     * `sequence` and `sendTime`, so the last one wins; an absent receipt is
     * scanned as no logs.
     */
    method RecordSend(receipt: Option<Receipt>, parse: Log -> Option<DecodedEvent>)
      modifies this
      ensures Snapshot() == AfterSend(old(Snapshot()), receipt, parse)
    {
      var logs := if receipt.Some? then receipt.value.logs else [];
      var time := if receipt.Some? then receipt.value.blockTimestamp else 0;
      var i := 0;
      while i < |logs|
        invariant 0 <= i <= |logs|
        invariant Snapshot() == ApplySendLogs(old(Snapshot()), logs[..i], time, parse)
      {
        var decoded := parse(logs[i]);
        if decoded.Some? && decoded.value.SendPacket? {
          var args := decoded.value.Args();
          sequence := Some(args[3].n);
          sendTime := Some(time);
        }
        assert logs[..i + 1][..i] == logs[..i];
        i := i + 1;
      }
      assert logs[..|logs|] == logs;
    }

    /**
     * The receive poll: scan the RecvPacket logs of the destination chain's
     * window in query order and record the first one whose sequence equals the
     * recorded sequence, reporting the time since the send.
     */
    method PollReceive(cfg: Config, opHeight: int, queryFilter: LogFilter -> seq<Log>,
                       parse: Log -> Option<DecodedEvent>) returns (outcome: RecvOutcome)
      modifies this
      ensures (Snapshot(), outcome) == AfterRecv(old(Snapshot()), queryFilter(RecvFilter(cfg, opHeight)), parse)
    {
      var logs := queryFilter(RecvFilter(cfg, opHeight));
      var i := 0;
      while i < |logs|
        invariant 0 <= i <= |logs|
        invariant Snapshot() == old(Snapshot())
        invariant forall j :: 0 <= j < i ==> !Matches(parse, logs[j], RecvEvent, sequence)
      {
        var decoded := parse(logs[i]);
        if decoded.Some? && decoded.value.RecvPacket? {
          var recvSeq := decoded.value.Args()[2];
          if Some(recvSeq.n) == sequence {
            recvTx := Some(logs[i].transactionHash);
            recvTime := Some(logs[i].blockTimestamp);
            outcome := Received(logs[i].transactionHash, Elapsed(recvTime.value, sendTime));
            return;
          }
        }
        i := i + 1;
      }
      outcome := NotYetReceived;
    }

    /**
     * The /verify-ack handler: scan the Acknowledgement logs of the source
     * chain's window in query order and record the first one whose sequence
     * equals the recorded sequence, reporting the time since the send. Nothing
     * is required of the receive stage.
     */
    method PollAck(cfg: Config, baseHeight: int, queryFilter: LogFilter -> seq<Log>,
                   parse: Log -> Option<DecodedEvent>) returns (outcome: AckOutcome)
      modifies this
      ensures (Snapshot(), outcome) == AfterAck(old(Snapshot()), queryFilter(AckFilter(cfg, baseHeight)), parse)
    {
      var logs := queryFilter(AckFilter(cfg, baseHeight));
      var i := 0;
      while i < |logs|
        invariant 0 <= i <= |logs|
        invariant Snapshot() == old(Snapshot())
        invariant forall j :: 0 <= j < i ==> !Matches(parse, logs[j], AckEvent, sequence)
      {
        var decoded := parse(logs[i]);
        if decoded.Some? && decoded.value.Acknowledgement? {
          var ackSeq := decoded.value.Args()[2];
          if Some(ackSeq.n) == sequence {
            ackTx := Some(logs[i].transactionHash);
            ackTime := Some(logs[i].blockTimestamp);
            outcome := Acknowledged(logs[i].transactionHash, Elapsed(ackTime.value, sendTime));
            return;
          }
        }
        i := i + 1;
      }
      outcome := NotYetAcknowledged;
    }

    /**
     * The /verify-recv-packet handler. `receipt` is the source chain's answer
     * for the receipt of `sendTxId` as derived; the destination chain is
     * queried through `queryFilter` at height `opHeight`.
     */
    method VerifyRecvPacket(transactionId: Option<TxHash>, buttonValue: Option<string>,
                            receipt: Option<Receipt>, cfg: Config, opHeight: int,
                            queryFilter: LogFilter -> seq<Log>, parse: Log -> Option<DecodedEvent>)
      returns (screen: RecvScreen)
      modifies this
      ensures (Snapshot(), screen)
           == HandleVerifyRecv(old(Snapshot()), transactionId, buttonValue, receipt,
                               queryFilter(RecvFilter(cfg, opHeight)), parse)
    {
      DeriveState(transactionId);
      if buttonValue == Some(VERIFY_RECEIPT_BUTTON) {
        RecordSend(receipt, parse);
        var outcome := PollReceive(cfg, opHeight, queryFilter, parse);
        screen := RecvPolled(outcome);
      } else {
        screen := SendShown(ShownSequence(sequence));
      }
    }
  }
}
