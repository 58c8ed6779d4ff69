/**
 * Concrete runs of the tracker: the end-to-end path of one packet, and the
 * places where the handlers behave differently from a strict
 * PENDING -> SENT -> RECEIVED -> ACKNOWLEDGED state machine.
 */
module Scenarios {
  import opened Wrappers
  import opened Events
  import opened Queries
  import opened Lifecycle

  /** A decoder that knows the listed logs and decodes every other log to nothing. */
  function Decoder(known: map<Log, DecodedEvent>): Log -> Option<DecodedEvent>
  {
    l => if l in known then Some(known[l]) else None
  }

  function LogIn(txHash: TxHash, time: nat): Log
  {
    Log(BASE_DISPATCHER, [], [], txHash, time)
  }

  const PORT: Address := "0x7586d4f401288f129E765675a9Cc3869e996B573"

  function Send(sequence: nat): DecodedEvent
  {
    SendPacket(PORT, OP_CHANNEL, [], sequence, 36000)
  }

  /**
   * A receipt with one SendPacket of sequence 42 at time 1000 records both;
   * a RecvPacket of 42 at 1060 is then received with a latency of 60 seconds,
   * while a window holding only sequence 41 leaves the record unchanged.
   */
  lemma EndToEndReceive()
    ensures var sendLog := LogIn("0xa1", 1000);
            var parse := Decoder(map[sendLog := Send(42)]);
            AfterSend(INITIAL, Some(Receipt([sendLog], 1000)), parse)
              == INITIAL.(sequence := Some(42), sendTime := Some(1000))
    ensures var sent := INITIAL.(sequence := Some(42), sendTime := Some(1000));
            var recv42 := LogIn("0xb2", 1060);
            var recv41 := LogIn("0xb1", 1030);
            var parse := Decoder(map[recv42 := RecvPacket(PORT, OP_CHANNEL, 42),
                                     recv41 := RecvPacket(PORT, OP_CHANNEL, 41)]);
            AfterRecv(sent, [recv41, recv42], parse)
              == (sent.(recvTx := Some("0xb2"), recvTime := Some(1060)), Received("0xb2", Some(60)))
            && AfterRecv(sent, [recv41], parse) == (sent, NotYetReceived)
  {
  }

  /** Two SendPacket logs in one receipt: the later one's sequence is kept. */
  lemma LastSendPacketWins()
    ensures var first := LogIn("0xa1", 500);
            var other := LogIn("0xa2", 500);
            var second := LogIn("0xa3", 500);
            var parse := Decoder(map[first := Send(5), other := Other("Transfer"), second := Send(6)]);
            AfterSend(INITIAL, Some(Receipt([first, other, second], 500)), parse).sequence == Some(6)
  {
  }

  /**
   * Acknowledgement is recorded without any receive having been recorded, and
   * its time may even precede the send time: the handlers enforce no ordering
   * between the stages.
   */
  lemma AckRecordedWithoutReceive()
    ensures var sent := INITIAL.(sequence := Some(7), sendTime := Some(100));
            var ack := LogIn("0xc1", 50);
            var parse := Decoder(map[ack := Acknowledgement(PORT, BASE_CHANNEL, 7)]);
            var polled := AfterAck(sent, [ack], parse);
            polled.0.ackTime == Some(50) && polled.0.recvTime.None?
            && polled.1 == Acknowledged("0xc1", Some(-50))
  {
  }

  /** A packet with sequence 0 is confirmed without its sequence, since 0 is falsy. */
  lemma SequenceZeroNotShown(parse: Log -> Option<DecodedEvent>)
    ensures HandleVerifyRecv(INITIAL.(sequence := Some(0)), Some("0xa1"), None, None, [], parse)
         == (INITIAL.(sendTxId := Some("0xa1"), sequence := Some(0)), SendShown(None))
  {
  }
}
