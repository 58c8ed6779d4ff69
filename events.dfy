/**
 * The dispatcher events the tracker reads, as the ethers ABI decoder hands them
 * over: a decoded log carries its event and its arguments in ABI order, and the
 * tracker picks the packet sequence out of that argument list by position.
 */
module Events {
  import opened Wrappers

  newtype byte = x: int | 0 <= x < 256

  type Address = string
  type TxHash = string

  /** One decoded ABI argument. */
  datatype AbiValue =
    | AddressArg(addr: Address)
    | Bytes32Arg(word: seq<byte>)
    | BytesArg(bytes: seq<byte>)
    | UintArg(n: nat)

  /**
   * The dispatcher events the tracker distinguishes, with the field layouts of
   * the dispatcher ABI. `Other` stands for every other event of that ABI
   * (channel handshakes, ownership transfers, ...), which the tracker skips.
   */
  datatype DecodedEvent =
    | SendPacket(sourcePortAddress: Address, sourceChannelId: seq<byte>, packet: seq<byte>,
                 sequence: nat, timeoutTimestamp: nat)
    | RecvPacket(destPortAddress: Address, destChannelId: seq<byte>, sequence: nat)
    | Acknowledgement(sourcePortAddress: Address, sourceChannelId: seq<byte>, sequence: nat)
    | Other(name: string)
  {
    /** The positional argument list `decoded.args`, in the order the ABI declares the fields. */
    function Args(): seq<AbiValue>
    {
      match this
      case SendPacket(port, channel, packet, sequence, timeout) =>
        [AddressArg(port), Bytes32Arg(channel), BytesArg(packet), UintArg(sequence), UintArg(timeout)]
      case RecvPacket(port, channel, sequence) =>
        [AddressArg(port), Bytes32Arg(channel), UintArg(sequence)]
      case Acknowledgement(port, channel, sequence) =>
        [AddressArg(port), Bytes32Arg(channel), UintArg(sequence)]
      case Other(_) => []
    }
  }

  /** A log entry as the chain returns it, with the timestamp of the block that holds it. */
  datatype Log = Log(address: Address, topics: seq<seq<byte>>, data: seq<byte>,
                     transactionHash: TxHash, blockTimestamp: nat)

  /** A transaction receipt: its logs in order and the timestamp of its block. */
  datatype Receipt = Receipt(logs: seq<Log>, blockTimestamp: nat)

  /** The three events the tracker looks for, one per lifecycle stage. */
  datatype EventKind = SendEvent | RecvEvent | AckEvent

  /** Position of `sequence` in the argument list: fourth for SendPacket, third for the other two. */
  function SequencePosition(kind: EventKind): nat
  {
    if kind == SendEvent then 3 else 2
  }

  predicate IsKind(ev: DecodedEvent, kind: EventKind)
  {
    match kind
    case SendEvent => ev.SendPacket?
    case RecvEvent => ev.RecvPacket?
    case AckEvent => ev.Acknowledgement?
  }

  /** Destructuring an argument list: an unsigned integer at position `i`, if there is one. */
  function UintAt(args: seq<AbiValue>, i: nat): Option<nat>
  {
    if i < |args| && args[i].UintArg? then Some(args[i].n) else None
  }

  /**
   * The sequence the tracker reads from a decoded log when it looks for `kind`:
   * nothing when the log did not decode or decoded to another event, otherwise
   * the argument at that kind's position.
   */
  function SequenceOf(decoded: Option<DecodedEvent>, kind: EventKind): Option<nat>
  {
    if decoded.Some? && IsKind(decoded.value, kind)
    then UintAt(decoded.value.Args(), SequencePosition(kind))
    else None
  }

  /**
   * Reading by position picks exactly the event's named `sequence` field, for
   * each of the three events; any other event yields nothing.
   */
  lemma SequenceReadByPosition(decoded: Option<DecodedEvent>, kind: EventKind)
    ensures SequenceOf(decoded, kind).Some?
        <==> decoded.Some? && IsKind(decoded.value, kind)
    ensures SequenceOf(decoded, kind).Some? ==> SequenceOf(decoded, kind).value == decoded.value.sequence
  {
  }

  /**
   * A log matches when it decodes to an event of `kind` whose sequence equals
   * the recorded one; an unset recorded sequence matches nothing.
   */
  predicate Matches(parse: Log -> Option<DecodedEvent>, log: Log, kind: EventKind, target: Option<nat>)
  {
    target.Some? && SequenceOf(parse(log), kind) == target
  }
}
