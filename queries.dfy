/**
 * The fixed chain configuration of the frame server and the two log queries
 * the tracker issues: RecvPacket on the destination chain (Optimism Sepolia)
 * and Acknowledgement on the source chain (Base Sepolia), each over a window
 * reaching back LOOKBACK_BLOCKS blocks from that chain's current height.
 */
module Queries {
  import opened Wrappers
  import opened Events

  const LOOKBACK_BLOCKS: nat := 3600

  const OP_CHAIN_ID: nat := 11155420
  const BASE_CHAIN_ID: nat := 84532
  const OP_DISPATCHER: Address := "0x6C9427E8d770Ad9e5a493D201280Cc178125CEc0"
  const BASE_DISPATCHER: Address := "0x0dE926fE2001B2c96e9cA6b79089CEB276325E9F"

  predicate IsAscii(s: string)
  {
    forall i :: 0 <= i < |s| ==> s[i] < 128 as char
  }

  /**
   * ethers' encodeBytes32String on an ASCII string: the string's bytes followed
   * by zero bytes up to 32; a string of more than 31 bytes is refused (ethers
   * throws), so that a zero terminator always remains.
   */
  function EncodeBytes32String(s: string): (r: Option<seq<byte>>)
    requires IsAscii(s)
    ensures r.Some? <==> |s| <= 31
    ensures r.Some? ==> |r.value| == 32 && r.value[31] == 0
    ensures r.Some? ==> forall i :: 0 <= i < |s| ==> r.value[i] as int == s[i] as int
    ensures r.Some? ==> forall i :: |s| <= i < 32 ==> r.value[i] == 0
  {
    if |s| > 31 then None
    else Some(seq(|s|, i requires 0 <= i < |s| => s[i] as int as byte) + seq(32 - |s|, _ => 0))
  }

  /** `b` with its trailing zero bytes removed. */
  function TrimTrailingZeros(b: seq<byte>): (r: seq<byte>)
    ensures |r| <= |b| && r == b[..|r|]
    ensures r == [] || r[|r| - 1] != 0
    ensures forall i :: |r| <= i < |b| ==> b[i] == 0
  {
    if b != [] && b[|b| - 1] == 0 then TrimTrailingZeros(b[..|b| - 1]) else b
  }

  /**
   * ethers' decodeBytes32String, the inverse of the encoding: a 32-byte word
   * whose last byte is the zero terminator, read up to its trailing zeros.
   * Bytes beyond ASCII (UTF-8 sequences) are refused here.
   */
  function DecodeBytes32String(word: seq<byte>): Option<string>
  {
    if |word| != 32 || word[31] != 0 then None
    else
      var text := TrimTrailingZeros(word);
      if forall i :: 0 <= i < |text| ==> text[i] < 128 then
        Some(seq(|text|, i requires 0 <= i < |text| => text[i] as int as char))
      else None
  }

  lemma {:induction false} TrimPadding(text: seq<byte>, n: nat)
    requires text == [] || text[|text| - 1] != 0
    ensures TrimTrailingZeros(text + seq(n, _ => 0)) == text
  {
    if n > 0 {
      var padded := text + seq(n, _ => 0 as byte);
      assert padded[..|padded| - 1] == text + seq(n - 1, _ => 0);
      TrimPadding(text, n - 1);
    } else {
      assert text + seq(n, _ => 0) == text;
    }
  }

  /**
   * Decoding undoes encoding for every ASCII string of at most 31 characters
   * that holds no NUL character, so a channel name is carried by its bytes32
   * topic without loss.
   */
  lemma Bytes32StringRoundTrip(s: string)
    requires IsAscii(s) && |s| <= 31
    requires forall i :: 0 <= i < |s| ==> s[i] != 0 as char
    ensures EncodeBytes32String(s).Some?
    ensures DecodeBytes32String(EncodeBytes32String(s).value) == Some(s)
  {
    var text := seq(|s|, i requires 0 <= i < |s| => s[i] as int as byte);
    assert EncodeBytes32String(s).value == text + seq(32 - |s|, _ => 0);
    TrimPadding(text, 32 - |s|);
    var decoded := seq(|text|, i requires 0 <= i < |text| => text[i] as int as char);
    assert decoded == s;
  }

  /** The channel names of the two dispatchers, as bytes32 topics. */
  const OP_CHANNEL: seq<byte> := EncodeBytes32String("channel-10").value
  const BASE_CHANNEL: seq<byte> := EncodeBytes32String("channel-11").value

  /** The Universal Channel middleware addresses, read from the environment (possibly unset). */
  datatype Config = Config(opUCAddress: Option<Address>, baseUCAddress: Option<Address>)

  /**
   * An ethers event query: logs of `eventName` emitted by `contract` on chain
   * `chainId` from block `fromBlock` to the latest block, whose first indexed
   * topic is `port` (None: any port, as ethers treats an undefined filter
   * argument) and whose second indexed topic is `channel`.
   */
  datatype LogFilter = LogFilter(chainId: nat, contract: Address, eventName: string,
                                 port: Option<Address>, channel: seq<byte>, fromBlock: int)

  /** First block of the search window of a chain whose current height is `height`. */
  function WindowStart(height: int): (from: int)
    ensures from < height && height - from == LOOKBACK_BLOCKS
  {
    height - LOOKBACK_BLOCKS
  }

  /** The RecvPacket query issued on the destination chain. */
  function RecvFilter(cfg: Config, opHeight: int): (f: LogFilter)
    ensures f.chainId == OP_CHAIN_ID && f.contract == OP_DISPATCHER && f.eventName == "RecvPacket"
    ensures f.port == cfg.opUCAddress
    ensures DecodeBytes32String(f.channel) == Some("channel-10")
    ensures opHeight - f.fromBlock == LOOKBACK_BLOCKS
  {
    Bytes32StringRoundTrip("channel-10");
    LogFilter(OP_CHAIN_ID, OP_DISPATCHER, "RecvPacket", cfg.opUCAddress, OP_CHANNEL, WindowStart(opHeight))
  }

  /** The Acknowledgement query issued on the source chain. */
  function AckFilter(cfg: Config, baseHeight: int): (f: LogFilter)
    ensures f.chainId == BASE_CHAIN_ID && f.contract == BASE_DISPATCHER && f.eventName == "Acknowledgement"
    ensures f.port == cfg.baseUCAddress
    ensures DecodeBytes32String(f.channel) == Some("channel-11")
    ensures baseHeight - f.fromBlock == LOOKBACK_BLOCKS
  {
    Bytes32StringRoundTrip("channel-11");
    LogFilter(BASE_CHAIN_ID, BASE_DISPATCHER, "Acknowledgement", cfg.baseUCAddress, BASE_CHANNEL, WindowStart(baseHeight))
  }

  /**
   * The two queries look back equally far from the height of the chain they
   * query, but never on the same chain, dispatcher or channel.
   */
  lemma QueryWindows(cfg: Config, opHeight: int, baseHeight: int)
    ensures opHeight - RecvFilter(cfg, opHeight).fromBlock == baseHeight - AckFilter(cfg, baseHeight).fromBlock == 3600
    ensures RecvFilter(cfg, opHeight).chainId != AckFilter(cfg, baseHeight).chainId
    ensures RecvFilter(cfg, opHeight).contract != AckFilter(cfg, baseHeight).contract
    ensures RecvFilter(cfg, opHeight).channel != AckFilter(cfg, baseHeight).channel
  {
    var recv := RecvFilter(cfg, opHeight);
    var ack := AckFilter(cfg, baseHeight);
    assert DecodeBytes32String(recv.channel) != DecodeBytes32String(ack.channel) by {
      assert "channel-10"[9] != "channel-11"[9];
    }
  }
}
