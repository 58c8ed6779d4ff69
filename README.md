# Packet-lifecycle tracker of the Polymer Farcaster frame

This project models the packet-lifecycle tracker of the Polymer cross-chain
Farcaster frame. The tracker follows one universal packet through three stages:

1. **Send.** The frame reads the receipt of the send transaction on Base Sepolia.
   Every log that decodes to the dispatcher's `SendPacket` event sets the frame
   state's `sequence` and `sendTime`. The loop does not stop at a match, so the
   last such log wins.
2. **Receive.** The frame queries the Optimism Sepolia dispatcher for `RecvPacket`
   logs. The query filters on the middleware port and `channel-10` and starts
   3600 blocks below the current height. The first log whose sequence equals the
   recorded one gives `recvTx` and `recvTime`. If none matches, the frame says
   "yet to be received".
3. **Acknowledge.** The frame runs the same kind of scan over the Base Sepolia
   dispatcher's `Acknowledgement` logs on `channel-11` and records `ackTx` and
   `ackTime`.

The frame state (`State`) is a record that the handlers update in place. It is
modelled as the class `Frames.Tracker`. A field is `None` while the JavaScript
value is `undefined`. Each handler step is a method on this class, and each
method is proved to leave `Snapshot()` equal to a pure function of the old state
(`Lifecycle.AfterDerive`, `AfterSend`, `AfterRecv`, `AfterAck`,
`HandleVerifyRecv`). Those functions are built on two scans with declarative
contracts:
- `LastSendIndex` returns the last SendPacket log.
- `FirstMatch` returns the first matching log.

The lemmas in `Lifecycle` state what the steps promise.

Modules:
- `Events`: the decoded dispatcher events with their ABI field layouts, and the
  positional read of `sequence`.
- `Queries`: the chain constants, the bytes32 channel names, and the two log
  filters with their 3600-block window.
- `Lifecycle`: the record and the step functions, with their lemmas.
- `Frames`: the in-place handlers.
- `Scenarios`: concrete runs.

External calls become parameters:
- ethers' `interface.parseLog` is a total function `parse: Log -> Option<DecodedEvent>`.
- `queryFilter` on a dispatcher contract is a function `LogFilter -> seq<Log>`.
  The filter passed to it is part of each method's contract.
- A receipt, a block height and a block timestamp are plain input values.

The code differs from a strict PENDING → SENT → RECEIVED → ACKNOWLEDGED
lifecycle, and the model follows the code:
- A strict lifecycle would take the first SendPacket log of the receipt. The
  code keeps the *last* one (`Scenarios.LastSendPacketWins`).
- A strict lifecycle would treat polling before the send is recorded as an
  error. In the code, an unset `sequence` simply never matches and the poll
  reports "not yet" (`Lifecycle.RecvUnsetSequenceNeverMatches`,
  `Lifecycle.AckUnsetSequenceNeverMatches`).
- A strict lifecycle would record receive before acknowledgement, and both
  after send in time. The code enforces neither. An acknowledgement is recorded
  without a receive, with a negative latency if the chain data says so
  (`Scenarios.AckRecordedWithoutReceive`, `Lifecycle.AckIgnoresReceiveStage`).
- A strict lifecycle would set `sequence` and the times once. The code
  overwrites them on every press. Repeating a press is idempotent only for the
  same chain data (`Lifecycle.SendIdempotent`, `Lifecycle.VerifyRecvRepeatable`).

## Model

| member | source | states |
|---|---|---|
| Events.SequenceReadByPosition | api/index.tsx:111-113 | reading `args[3]` of SendPacket, or `args[2]` of RecvPacket or Acknowledgement, yields exactly that event's `sequence` field; any other event yields nothing |
| Queries.EncodeBytes32String | api/index.tsx:18-19 | a channel name becomes 32 bytes: its ASCII bytes and then zeros, with a final zero terminator; a name longer than 31 bytes is refused |
| Queries.Bytes32StringRoundTrip | api/index.tsx:18-19 | decoding the bytes32 encoding gives back every ASCII name of at most 31 characters that has no NUL |
| Queries.QueryWindows | api/index.tsx:119-121 | the RecvPacket query and the Acknowledgement query (api/index.tsx:182-184) look back the same 3600 blocks from the queried chain's height, but on different chains, dispatchers and channels |
| Queries.WindowStart | api/index.tsx:121 | the search window starts LOOKBACK_BLOCKS = 3600 blocks below the current height, so it includes the current block |
| Queries.RecvFilter | api/index.tsx:119-121 | the receive query targets the OP Sepolia dispatcher's RecvPacket event, filters on the OP middleware port and a channel that decodes to "channel-10", and starts 3600 blocks below the OP height |
| Queries.AckFilter | api/index.tsx:182-184 | the ack query targets the Base Sepolia dispatcher's Acknowledgement event, filters on the Base middleware port and a channel that decodes to "channel-11", and starts 3600 blocks below the Base height |
| Lifecycle.Elapsed | api/index.tsx:132 | a latency exists exactly when the earlier time is set (otherwise NaN), and then earlier + latency = later |
| Lifecycle.AfterDerive | api/index.tsx:103-105 | deriving the state changes only `sendTxId`; a truthy transaction id replaces it, and an absent or empty one leaves the record unchanged |
| Lifecycle.ApplySendLogs | api/index.tsx:110-117 | the send step changes only `sequence` and `sendTime`; with no SendPacket log it changes nothing; with one, `sendTime` is the block time and `sequence` is some SendPacket log's sequence field |
| Lifecycle.AfterSend | api/index.tsx:107-117 | the send step on the receipt's logs (none when the receipt is absent) changes only `sequence` and `sendTime`, and an absent receipt changes nothing |
| Lifecycle.AfterRecv | api/index.tsx:119-156 | the receive poll changes only the receive fields; "yet to be received" leaves the record unchanged; "received" reports the hash recorded as `recvTx` and the latency `recvTime - sendTime` |
| Lifecycle.AfterAck | api/index.tsx:182-219 | the ack poll changes only the ack fields; "yet to be acknowledged" leaves the record unchanged; "acknowledged" reports the hash recorded as `ackTx` and the latency `ackTime - sendTime` |
| Lifecycle.ShownSequence | api/index.tsx:159-162 | the confirmation shows a sequence exactly when one is set and non-zero (truthy), and then it shows the recorded one |
| Lifecycle.HandleVerifyRecv | api/index.tsx:100-175 | the handler shows the send confirmation exactly when the button was not "verify-packet-receipt", and then changes only `sendTxId` and shows the truthy sequence; it never touches the ack fields |
| Lifecycle.LastSendIndex | api/index.tsx:110-117 | the index found is a SendPacket log and no later log is one; no index means the receipt holds no SendPacket log |
| Lifecycle.FirstMatch | api/index.tsx:123-147 | the index found is a log of the wanted event whose sequence equals the target, and no earlier log is one; no index means no log matches |
| Lifecycle.SendTakesLastSendPacket | api/index.tsx:110-117 | after the send step, `sequence` is the sequence field of the last SendPacket log and `sendTime` is the receipt block's timestamp; no other field changes |
| Lifecycle.SendWithoutSendPacketKeepsRecord | api/index.tsx:109-112 | an absent receipt, or one without a SendPacket log, leaves the record unchanged |
| Lifecycle.SendIgnoresOtherLog | api/index.tsx:110-112 | inserting a log that decodes to nothing or to another event, at any position in the receipt, does not change the send step's result |
| Lifecycle.SendIdempotent | api/index.tsx:107-117 | running the send step twice on the same receipt gives the same record as running it once |
| Lifecycle.RecvRecordedIffMatchingLog | api/index.tsx:123-156 | the outcome is "received" if and only if some RecvPacket log in the window carries the recorded sequence; otherwise the record is unchanged; only `recvTx` and `recvTime` ever change |
| Lifecycle.RecvTakesFirstMatch | api/index.tsx:123-134 | the first matching log is a RecvPacket with the recorded sequence; its hash and block time become `recvTx` and `recvTime`; the latency reported is `recvTime - sendTime` |
| Lifecycle.RecvUnsetSequenceNeverMatches | api/index.tsx:127 | with `sequence` unset, the receive poll changes nothing and reports "yet to be received", not an error |
| Lifecycle.RecvStopsAtFirstMatch | api/index.tsx:127-145 | once a prefix of the window holds a match, the logs after that prefix do not affect the result |
| Lifecycle.RecvIdempotent | api/index.tsx:119-156 | polling again on the same window gives the same record and the same outcome |
| Lifecycle.AckRecordedIffMatchingLog | api/index.tsx:186-219 | the outcome is "acknowledged" if and only if some Acknowledgement log carries the recorded sequence; otherwise the record is unchanged; only `ackTx` and `ackTime` change |
| Lifecycle.AckTakesFirstMatch | api/index.tsx:186-197 | the first matching Acknowledgement log gives `ackTx` and `ackTime`; the latency reported is `ackTime - sendTime`, measured from the send and not from the receive |
| Lifecycle.AckIgnoresReceiveStage | api/index.tsx:177-195 | the ack poll gives the same outcome and the same ack fields whatever the receive fields hold, so there is no stage precondition |
| Lifecycle.AckUnsetSequenceNeverMatches | api/index.tsx:190 | with `sequence` unset, the ack poll changes nothing and reports "yet to be acknowledged" |
| Lifecycle.AckIdempotent | api/index.tsx:182-219 | polling for the acknowledgement again on the same window gives the same record and the same outcome |
| Lifecycle.VerifyRecvRepeatable | api/index.tsx:100-156 | pressing "Verify Packet Receipt" again, with no new transaction id and the same chain data, shows the same frame and keeps the record as the first press left it |
| Frames.Tracker.constructor | api/index.tsx:42-46 | the state starts with every field unset |
| Frames.Tracker.DeriveState | api/index.tsx:103-105 | `sendTxId` is overwritten only when the request carries a truthy transaction id |
| Frames.Tracker.RecordSend | api/index.tsx:107-117 | the in-place loop over the receipt logs leaves exactly the state `AfterSend` prescribes (the last SendPacket wins) |
| Frames.Tracker.PollReceive | api/index.tsx:119-156 | the in-place scan with early return queries RecvFilter(height) and leaves the state and outcome that `AfterRecv` prescribes (the first match wins) |
| Frames.Tracker.PollAck | api/index.tsx:177-220 | the in-place scan with early return queries AckFilter(height) and leaves the state and outcome that `AfterAck` prescribes |
| Frames.Tracker.VerifyRecvPacket | api/index.tsx:100-175 | the whole handler: derive the state, then either the send step followed by the receive poll, or the send confirmation, as `HandleVerifyRecv` prescribes |
| Scenarios.EndToEndReceive | api/index.tsx:107-156 | a receipt with SendPacket 42 at time 1000 records both values; a RecvPacket 42 at time 1060 is received with latency 60; a window holding only sequence 41 changes nothing |
| Scenarios.LastSendPacketWins | api/index.tsx:110-117 | with SendPacket logs 5 and 6 in one receipt, the recorded sequence is 6 |
| Scenarios.AckRecordedWithoutReceive | api/index.tsx:182-195 | an acknowledgement is recorded while `recvTime` is unset, and with a block time before `sendTime` it reports a negative latency |
| Scenarios.SequenceZeroNotShown | api/index.tsx:159-162 | the send confirmation omits a sequence of 0, because 0 is falsy |

## Left out

- The network is not modelled. This covers the RPC providers, `getTransactionReceipt`, `getBlockNumber`, `queryFilter`, `getBlock` and the dotenv configuration. Their results are inputs: a receipt value, a block height, a query function and a timestamp carried by each log. A failed RPC call aborts the handler in the source; the model has no failure path for it.
- Which logs a node returns for a filter is not modelled. The model states which filter is issued. The logs the query returns are taken as given.
- ethers' ABI decoding (`interface.parseLog`) is a function parameter. A log that matches an event signature but fails to decode is not modelled.
- Events are tested by constructor (`SendPacket?`) in place of `decoded.name == "SendPacket"`. This is equivalent because event names in the dispatcher ABI are unique.
- `Number(sequence)` is not modelled. The source converts the uint64 sequence to a JavaScript number, which rounds values at or above 2^53. The model keeps the sequence as an exact `nat`. Above 2^53 the two can differ in both directions. The model may match a log that carries the exact sequence, which the source misses because it compares against the rounded value. The source may match a log that carries the rounded value, which the model misses. For example, 2^53+1 is stored as 2^53, and a RecvPacket with sequence 2^53 then matches (`9007199254740992n == 9007199254740992`). The send confirmation also shows the rounded value.
- The `ethers.encodeBytes32String` model covers ASCII names only. Multi-byte UTF-8 is not modelled.
- A negative query start (height below 3600) is kept as a negative `fromBlock`. ethers would read it relative to the latest block; the model does not.
- The UI is not modelled. This covers the rendered images, buttons, links, the `/send` transaction builder, devtools and the handler exports. Outcomes are reduced to the screen kinds and the values they show: latency, transaction hash and shown sequence.
- The `sendTx` field of `State` is never assigned in the source and is not part of the record.
- The `contractAbi` import does not exist in the ABI module. This is a build defect, not behaviour.
- api/abi.ts is not part of this model. Only the three event layouts it declares shape `DecodedEvent`.
