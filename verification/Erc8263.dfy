/** The ERC-8263 binding: what an anchor carries in `aux`, and how an AnchorProof log is read. */
module Erc8263 {
  import opened Bytes
  import opened Outcomes

  const TOPIC0: Word := [
    0x9f, 0xe8, 0x32, 0xd8, 0x3a, 0x52, 0xf8, 0x3b, 0xd7, 0xd5, 0x41, 0x81, 0xe4, 0xcc, 0x7f, 0xf8,
    0xb4, 0xe2, 0x27, 0xcc, 0x1d, 0x3a, 0x01, 0x44, 0x37, 0x68, 0x94, 0xb5, 0xdf, 0x6c, 0x23, 0xcc]
  const SELECTOR_SINGLE: Bytes := [0xf0, 0xb2, 0xfc, 0xb5]
  const SELECTOR_BATCH: Bytes := [0xbc, 0x7d, 0xb8, 0x84]

  datatype Aux = Single(signature: Bytes) | Batch(bundleHash: Bytes)

  function EncodeSingleAux(signature: Bytes): Result<Bytes> {
    if |signature| != 65 then Err("signature must be 65 bytes") else Ok(SELECTOR_SINGLE + signature)
  }

  function EncodeBatchAux(bundleHash: Bytes): Result<Bytes> {
    if |bundleHash| != 32 then Err("bundleHash must be 32 bytes") else Ok(SELECTOR_BATCH + bundleHash)
  }

  function DecodeAux(aux: Bytes): Result<Aux> {
    var selector := if |aux| >= 4 then aux[..4] else [];
    if selector == SELECTOR_SINGLE && |aux| == 69 then Ok(Single(aux[4..]))
    else if selector == SELECTOR_BATCH && |aux| == 36 then Ok(Batch(aux[4..]))
    else Err("aux is not an rxm-pog-v2 payload")
  }

  /** Exactly the encoded payloads decode, each to what was encoded. */
  lemma AuxRoundTrip(aux: Bytes, a: Aux)
    ensures DecodeAux(aux) == Ok(a)
      <==> match a
           case Single(signature) => EncodeSingleAux(signature) == Ok(aux)
           case Batch(bundleHash) => EncodeBatchAux(bundleHash) == Ok(aux)
  {
    match a
    case Single(signature) =>
      if EncodeSingleAux(signature) == Ok(aux) {
        assert aux[..4] == SELECTOR_SINGLE && aux[4..] == signature;
      }
      if DecodeAux(aux) == Ok(a) {
        assert aux == aux[..4] + aux[4..];
      }
    case Batch(bundleHash) =>
      assert SELECTOR_BATCH[0] != SELECTOR_SINGLE[0];
      if EncodeBatchAux(bundleHash) == Ok(aux) {
        assert aux[..4] == SELECTOR_BATCH && aux[4..] == bundleHash;
      }
      if DecodeAux(aux) == Ok(a) {
        assert aux == aux[..4] + aux[4..];
      }
  }

  /** The non-indexed part of an AnchorProof event, once ABI-decoded. */
  datatype EventData = EventData(agentIdScheme: int, aux: Bytes)

  /** A log as an RPC returns it. `data` is absent when it does not ABI-decode as an AnchorProof. */
  datatype Log = Log(
    address: Bytes, topics: seq<Word>, data: Option<EventData>,
    blockNumber: Option<nat>, logIndex: Option<nat>, transactionHash: Option<nat>)

  datatype AnchorEvent = AnchorEvent(
    contract: Bytes, agentIdScheme: int, agentId: Word, proofHash: Word, operator: Word, aux: Bytes,
    blockNumber: nat, logIndex: nat, transactionHash: nat)

  function DecodeAnchorLog(log: Log): Result<AnchorEvent> {
    if log.topics == [] || log.topics[0] != TOPIC0 then Err("not an AnchorProof log")
    else if |log.topics| != 4 || log.data.None? then Err("log does not decode as AnchorProof")
    else if log.blockNumber.None? || log.logIndex.None? || log.transactionHash.None? then Err("pending log")
    else Ok(AnchorEvent(
      log.address, log.data.value.agentIdScheme, log.topics[1], log.topics[2], log.topics[3], log.data.value.aux,
      log.blockNumber.value, log.logIndex.value, log.transactionHash.value))
  }

  /** The log of an event, as the contract emits it and an RPC returns it. */
  function LogOf(ev: AnchorEvent): Log {
    Log(ev.contract, [TOPIC0, ev.agentId, ev.proofHash, ev.operator], Some(EventData(ev.agentIdScheme, ev.aux)),
        Some(ev.blockNumber), Some(ev.logIndex), Some(ev.transactionHash))
  }

  /** Exactly the logs of events decode, each to its event. */
  lemma LogRoundTrip(log: Log, ev: AnchorEvent)
    ensures DecodeAnchorLog(log) == Ok(ev) <==> log == LogOf(ev)
  {
    if DecodeAnchorLog(log) == Ok(ev) {
      assert log.topics == [log.topics[0], log.topics[1], log.topics[2], log.topics[3]];
    }
  }
}
