/** The executor's own operation record and hash preimage (transmitter-common/src/data.rs). */
module TransmitterData {
  import opened Wrappers
  import opened Bytes
  import PD = ProtocolData

  datatype OperationData = OperationData(
    protocolId: Bytes32,
    meta: Bytes32,
    srcChainId: u128,
    srcBlockNumber: u64,
    srcOpTxId: seq<byte>,
    nonce: u64,
    destChainId: u128,
    protocolAddr: seq<byte>,
    functionSelector: seq<byte>,
    params: seq<byte>,
    reserved: seq<byte>)

  function OpDataEvm(op: OperationData): seq<byte> {
    op.protocolId
    + op.meta
    + U128ToBytes32(op.srcChainId)
    + U64ToBytes32(op.srcBlockNumber)
    + op.srcOpTxId
    + U64ToBytes32(op.nonce)
    + U128ToBytes32(op.destChainId)
    + op.protocolAddr
    + op.functionSelector
    + op.params
    + op.reserved
  }

  /** `op_data_evm` extends a buffer field by field. */
  method BuildOpDataEvm(op: OperationData) returns (buf: seq<byte>)
    ensures buf == OpDataEvm(op)
  {
    buf := [];
    buf := buf + op.protocolId;
    buf := buf + op.meta;
    var word := FillU128(op.srcChainId);
    buf := buf + word[..];
    word := FillU64(op.srcBlockNumber);
    buf := buf + word[..];
    buf := buf + op.srcOpTxId;
    word := FillU64(op.nonce);
    buf := buf + word[..];
    word := FillU128(op.destChainId);
    buf := buf + word[..];
    buf := buf + op.protocolAddr;
    buf := buf + op.functionSelector;
    buf := buf + op.params;
    buf := buf + op.reserved;
  }

  /** `TryFrom` to the on-chain record. */
  function ToOnChain(isUtf8: seq<byte> -> bool, op: OperationData): Result<PD.OperationData, PD.SelectorError> {
    if |op.protocolAddr| != 32 then Err(PD.Malformed)
    else match PD.SelectorFromBytes(isUtf8, op.functionSelector)
      case Err(e) => Err(e)
      case Ok(selector) => Ok(PD.OperationData(op.protocolId, op.meta, op.srcChainId, op.srcBlockNumber,
        op.srcOpTxId, op.nonce, op.destChainId, op.protocolAddr, selector, op.params, op.reserved))
  }

  /** The executor and the contract hash the same bytes exactly when the selector's length byte is honest. */
  lemma PreimagesAgree(isUtf8: seq<byte> -> bool, op: OperationData)
    requires ToOnChain(isUtf8, op).Ok?
    ensures Some(OpDataEvm(op)) == PD.OpDataEvm(ToOnChain(isUtf8, op).value)
            <==> op.functionSelector[1] == (|op.functionSelector| - 2) % 256
  {
    var on := ToOnChain(isUtf8, op).value;
    Layout(isUtf8, op);
    SameMiddle(PD.HeadBytes(on), op.functionSelector, PD.SelectorBytes(on.functionSelector), op.params + op.reserved);
  }

  /** Both preimages differ at most in the selector, and there at most in its second byte. */
  lemma Layout(isUtf8: seq<byte> -> bool, op: OperationData)
    requires ToOnChain(isUtf8, op).Ok?
    ensures var on := ToOnChain(isUtf8, op).value;
            var mine, theirs, tail := op.functionSelector, PD.SelectorBytes(on.functionSelector), op.params + op.reserved;
            && OpDataEvm(op) == PD.HeadBytes(on) + (mine + tail)
            && PD.OpDataEvm(on) == Some(PD.HeadBytes(on) + (theirs + tail))
            && |mine| >= 2 && |theirs| == |mine| && theirs[0] == mine[0] && theirs[2..] == mine[2..]
            && theirs[1] == (|mine| - 2) % 256
  {
  }

  lemma SameMiddle(head: seq<byte>, a: seq<byte>, b: seq<byte>, tail: seq<byte>)
    requires |a| == |b| >= 2 && a[0] == b[0] && a[2..] == b[2..]
    ensures head + (a + tail) == head + (b + tail) <==> a[1] == b[1]
  {
    if head + (a + tail) == head + (b + tail) {
      AppendInjective(head, a + tail, head, b + tail);
      assert (a + tail)[1] == a[1] && (b + tail)[1] == b[1];
    }
    if a[1] == b[1] {
      assert a == [a[0], a[1]] + a[2..] && b == [b[0], b[1]] + b[2..];
    }
  }

  /** It happens: a selector of one byte of code that says it has five is converted and hashed differently on the two sides. */
  lemma PreimagesDiffer(isUtf8: seq<byte> -> bool, op: OperationData)
    requires op.functionSelector == [0, 5, 1] && |op.protocolAddr| == 32
    ensures ToOnChain(isUtf8, op).Ok? && ToOnChain(isUtf8, op).value.functionSelector == PD.ByCode([1])
    ensures Some(OpDataEvm(op)) != PD.OpDataEvm(ToOnChain(isUtf8, op).value)
  {
    assert op.functionSelector[2..] == [1];
    PreimagesAgree(isUtf8, op);
  }

  /** A selector written by the contract's `to_bytes` is always hashed alike on both sides. */
  lemma PreimagesAgreeOnWrittenSelector(isUtf8: seq<byte> -> bool, op: OperationData, s: PD.FunctionSelector)
    requires !s.Dummy? && PD.ToBytes(s) == Ok(op.functionSelector) && |op.protocolAddr| == 32
    requires s.ByName? ==> isUtf8(s.name)
    ensures ToOnChain(isUtf8, op).Ok? && ToOnChain(isUtf8, op).value.functionSelector == s
    ensures Some(OpDataEvm(op)) == PD.OpDataEvm(ToOnChain(isUtf8, op).value)
  {
    PD.SelectorRoundTrip(isUtf8, s);
    PreimagesAgree(isUtf8, op);
  }
}
