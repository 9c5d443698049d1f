/** Operations, their selectors and the bytes that are hashed (programs/entangle-photon-sol/src/protocol_data.rs). */
module ProtocolData {
  import opened Wrappers
  import opened Bytes

  datatype OpStatus = None_ | Init | Signed | Executed {
    function Rank(): nat {
      match this
      case None_ => 0
      case Init => 1
      case Signed => 2
      case Executed => 3
    }
  }

  /** A `ByName` selector carries the UTF-8 bytes of its name. */
  datatype FunctionSelector = ByCode(code: seq<byte>) | ByName(name: seq<byte>) | Dummy {
    function Payload(): seq<byte> {
      match this
      case ByCode(code) => code
      case ByName(name) => name
      case Dummy => []
    }

    function Kind(): byte {
      match this
      case ByCode(_) => 0
      case ByName(_) => 1
      case Dummy => 2
    }
  }

  datatype SelectorError = TooBig | Malformed | UnexpectedKind

  datatype OperationData = OperationData(
    protocolId: seq<byte>,
    meta: Bytes32,
    srcChainId: u128,
    srcBlockNumber: u64,
    srcOpTxId: seq<byte>,
    nonce: u64,
    destChainId: u128,
    protocolAddr: Pubkey,
    functionSelector: FunctionSelector,
    params: seq<byte>,
    reserved: seq<byte>)

  datatype Signature = Signature(v: byte, r: seq<byte>, s: seq<byte>)

  /** The hash function and the public-key recovery, left uninterpreted. */
  datatype Crypto = Crypto(
    keccak: seq<byte> -> Bytes32,
    recover: (seq<byte>, byte, seq<byte>) -> Option<seq<byte>>)

  function ToBytes(s: FunctionSelector): Result<seq<byte>, SelectorError> {
    match s
    case ByCode(code) =>
      if |code| > 32 then Err(TooBig) else Ok([0, |code|] + code)
    case ByName(name) =>
      if |name| > 32 then Err(TooBig) else Ok([1, |name|] + name)
    case Dummy => Ok([2, 0])
  }

  /** `TryFrom<&[u8]>`; an unknown kind byte panics. */
  function SelectorFromBytes(isUtf8: seq<byte> -> bool, v: seq<byte>): Result<FunctionSelector, SelectorError> {
    if |v| == 0 then Err(Malformed)
    else if v[0] == 0 then
      if |v| < 2 then Err(Malformed) else Ok(ByCode(v[2..]))
    else if v[0] == 1 then
      if |v| < 2 then Err(Malformed)
      else if isUtf8(v[2..]) then Ok(ByName(v[2..]))
      else Err(Malformed)
    else Err(UnexpectedKind)
  }

  /** Exactly the code and name selectors of at most 32 bytes survive `to_bytes` then `try_from`. */
  lemma SelectorRoundTrip(isUtf8: seq<byte> -> bool, s: FunctionSelector)
    requires s.ByName? ==> isUtf8(s.name)
    ensures ToBytes(s).Ok? && SelectorFromBytes(isUtf8, ToBytes(s).value) == Ok(s)
            <==> !s.Dummy? && |s.Payload()| <= 32
    ensures ToBytes(s).Err? <==> |s.Payload()| > 32
    ensures ToBytes(s).Ok? ==>
              match s
              case ByCode(code) => ToBytes(s).value == [0, |code|] + code
              case ByName(name) => ToBytes(s).value == [1, |name|] + name
              case Dummy => ToBytes(s).value == [2, 0]
  {
    if ToBytes(s).Ok? {
      assert ToBytes(s).value[2..] == s.Payload();
    }
  }

  /** Everything before the selector in the hashed bytes. */
  function HeadBytes(op: OperationData): seq<byte> {
    op.protocolId
    + (op.meta
    + (U128ToBytes32(op.srcChainId)
    + (U64ToBytes32(op.srcBlockNumber)
    + (op.srcOpTxId
    + (U64ToBytes32(op.nonce)
    + (U128ToBytes32(op.destChainId)
    + op.protocolAddr))))))
  }

  /** The selector as hashed: kind, length truncated to a byte, payload. */
  function SelectorBytes(s: FunctionSelector): seq<byte> {
    [s.Kind(), |s.Payload()| % 256] + s.Payload()
  }

  /** `op_data_evm`; None is the panic on an uninitialised selector. */
  function OpDataEvm(op: OperationData): Option<seq<byte>> {
    if op.functionSelector.Dummy? then None
    else Some(HeadBytes(op) + (SelectorBytes(op.functionSelector) + (op.params + op.reserved)))
  }

  method BuildOpDataEvm(op: OperationData) returns (r: Option<seq<byte>>)
    ensures r == OpDataEvm(op)
  {
    var buf := [];
    buf := buf + op.protocolId;
    buf := buf + op.meta;
    var word := FillU128(op.srcChainId);
    buf := buf + word[..];
    word := FillU64(op.srcBlockNumber);
    buf := buf + word[..];
    buf := buf + op.srcOpTxId;
    word := FillU64(op.nonce);
    buf := buf + word[..];
    word := FillU128(op.destChainId);
    buf := buf + word[..];
    buf := buf + op.protocolAddr;
    assert buf == HeadBytes(op);
    ghost var head := buf;
    match op.functionSelector {
      case ByCode(code) => buf := buf + [0, |code| % 256] + code;
      case ByName(name) => buf := buf + [1, |name| % 256] + name;
      case Dummy => return None;
    }
    assert buf == head + SelectorBytes(op.functionSelector);
    buf := buf + op.params + op.reserved;
    assert buf == head + (SelectorBytes(op.functionSelector) + (op.params + op.reserved));
    return Some(buf);
  }

  /** Four pieces, the first n long and the others words, and something after. */
  lemma FourPieces(a: seq<byte>, b: Bytes32, c: Bytes32, d: Bytes32, rest: seq<byte>)
    ensures var s, n := a + (b + (c + (d + rest))), |a|;
            && |s| == n + 96 + |rest| && s[..n] == a && s[n..n + 32] == b && s[n + 32..n + 64] == c && s[n + 64..n + 96] == d
            && s[n + 96..] == rest
  {
  }

  lemma HeadLayout(op: OperationData)
    requires |op.protocolId| == 32
    ensures var h, t := HeadBytes(op), |op.srcOpTxId|;
            && |h| == 224 + t
            && h[..32] == op.protocolId && h[32..64] == op.meta
            && h[64..96] == U128ToBytes32(op.srcChainId) && h[96..128] == U64ToBytes32(op.srcBlockNumber)
            && h[128..][..t] == op.srcOpTxId
            && h[128..][t..t + 32] == U64ToBytes32(op.nonce) && h[128..][t + 32..t + 64] == U128ToBytes32(op.destChainId)
            && h[128..][t + 64..] == op.protocolAddr
  {
    var last := op.protocolAddr;
    var back := op.srcOpTxId + (U64ToBytes32(op.nonce) + (U128ToBytes32(op.destChainId) + (last + [])));
    assert last + [] == last;
    FourPieces(op.srcOpTxId, U64ToBytes32(op.nonce), U128ToBytes32(op.destChainId), last, []);
    FourPieces(op.protocolId, op.meta, U128ToBytes32(op.srcChainId), U64ToBytes32(op.srcBlockNumber), back);
  }

  /** Where each field is in the hashed bytes of an operation with a 32-byte protocol id. */
  lemma EncodingLayout(op: OperationData)
    requires |op.protocolId| == 32 && !op.functionSelector.Dummy?
    ensures OpDataEvm(op).Some? && |OpDataEvm(op).value| >= 226 + |op.srcOpTxId|
    ensures var b, t := OpDataEvm(op).value, |op.srcOpTxId|;
            && b[..32] == op.protocolId && b[32..64] == op.meta
            && FromBigEndian(b[64..96]) == op.srcChainId && FromBigEndian(b[96..128]) == op.srcBlockNumber
            && b[128..128 + t] == op.srcOpTxId
            && FromBigEndian(b[128 + t..160 + t]) == op.nonce && FromBigEndian(b[160 + t..192 + t]) == op.destChainId
            && b[192 + t..224 + t] == op.protocolAddr
    ensures var b, t, f := OpDataEvm(op).value, |op.srcOpTxId|, op.functionSelector;
            && b[224 + t] == (if f.ByCode? then 0 else 1) && b[225 + t] == |f.Payload()| % 256
            && b[226 + t..] == f.Payload() + op.params + op.reserved
  {
    U128WordValue(op.srcChainId);
    U64WordValue(op.srcBlockNumber);
    U64WordValue(op.nonce);
    U128WordValue(op.destChainId);
    HeadLayout(op);
    var b, h, t, f := OpDataEvm(op).value, HeadBytes(op), |op.srcOpTxId|, op.functionSelector;
    var tail := SelectorBytes(f) + (op.params + op.reserved);
    InFront(h, tail, 0, 32);
    InFront(h, tail, 32, 64);
    InFront(h, tail, 64, 96);
    InFront(h, tail, 96, 128);
    InFront(h, tail, 128, 128 + t);
    InFront(h, tail, 128 + t, 160 + t);
    InFront(h, tail, 160 + t, 192 + t);
    InFront(h, tail, 192 + t, 224 + t);
    assert b[224 + t] == tail[0] && b[225 + t] == tail[1];
    assert b[226 + t..] == tail[2..] == f.Payload() + op.params + op.reserved;
  }

  lemma InFront(h: seq<byte>, tail: seq<byte>, i: nat, j: nat)
    requires i <= j <= |h|
    ensures (h + tail)[i..j] == h[i..j]
    ensures i >= 128 ==> h[i..j] == h[128..][i - 128..j - 128]
  {
    if i >= 128 {
      var a, b := h[i..j], h[128..][i - 128..j - 128];
      assert forall x :: 0 <= x < j - i ==> a[x] == h[i + x] == b[x];
    }
  }

  predicate SameUpToTailSplit(a: OperationData, b: OperationData) {
    && a.(params := [], reserved := []) == b.(params := [], reserved := [])
    && a.params + a.reserved == b.params + b.reserved
  }

  /** The two length conditions under which the encoding is unambiguous. */
  predicate Comparable(a: OperationData, b: OperationData) {
    && |a.protocolId| == |b.protocolId| == 32
    && |a.srcOpTxId| == |b.srcOpTxId|
    && |a.functionSelector.Payload()| < 256 && |b.functionSelector.Payload()| < 256
  }

  lemma WordsInjective(x: u128, y: u128, u: u64, v: u64)
    ensures U128ToBytes32(x) == U128ToBytes32(y) ==> x == y
    ensures U64ToBytes32(u) == U64ToBytes32(v) ==> u == v
  {
    U128WordValue(x);
    U128WordValue(y);
    U64WordValue(u);
    U64WordValue(v);
  }

  lemma HeadInjective(a: OperationData, b: OperationData)
    requires Comparable(a, b) && HeadBytes(a) == HeadBytes(b)
    ensures a.(functionSelector := Dummy, params := [], reserved := [])
         == b.(functionSelector := Dummy, params := [], reserved := [])
  {
    var a7, b7 := a.protocolAddr, b.protocolAddr;
    var a6, b6 := U128ToBytes32(a.destChainId) + a7, U128ToBytes32(b.destChainId) + b7;
    var a5, b5 := U64ToBytes32(a.nonce) + a6, U64ToBytes32(b.nonce) + b6;
    var a4, b4 := a.srcOpTxId + a5, b.srcOpTxId + b5;
    var a3, b3 := U64ToBytes32(a.srcBlockNumber) + a4, U64ToBytes32(b.srcBlockNumber) + b4;
    var a2, b2 := U128ToBytes32(a.srcChainId) + a3, U128ToBytes32(b.srcChainId) + b3;
    AppendInjective(a.protocolId, a.meta + a2, b.protocolId, b.meta + b2);
    AppendInjective(a.meta, a2, b.meta, b2);
    AppendInjective(U128ToBytes32(a.srcChainId), a3, U128ToBytes32(b.srcChainId), b3);
    AppendInjective(U64ToBytes32(a.srcBlockNumber), a4, U64ToBytes32(b.srcBlockNumber), b4);
    AppendInjective(a.srcOpTxId, a5, b.srcOpTxId, b5);
    AppendInjective(U64ToBytes32(a.nonce), a6, U64ToBytes32(b.nonce), b6);
    AppendInjective(U128ToBytes32(a.destChainId), a7, U128ToBytes32(b.destChainId), b7);
    WordsInjective(a.srcChainId, b.srcChainId, a.srcBlockNumber, b.srcBlockNumber);
    WordsInjective(a.destChainId, b.destChainId, a.nonce, b.nonce);
  }

  lemma SelectorInjective(s: FunctionSelector, t: FunctionSelector, x: seq<byte>, y: seq<byte>)
    requires SelectorBytes(s) + x == SelectorBytes(t) + y
    requires !s.Dummy? && !t.Dummy? && |s.Payload()| < 256 && |t.Payload()| < 256
    ensures s == t && x == y
  {
    assert (SelectorBytes(s) + x)[0] == s.Kind() && (SelectorBytes(t) + y)[0] == t.Kind();
    assert (SelectorBytes(s) + x)[1] == |s.Payload()| && (SelectorBytes(t) + y)[1] == |t.Payload()|;
    AppendInjective(SelectorBytes(s), x, SelectorBytes(t), y);
    assert SelectorBytes(s)[2..] == s.Payload() && SelectorBytes(t)[2..] == t.Payload();
  }

  /** The hashed bytes determine the operation, up to where params end and reserved begins. */
  lemma EncodingDeterminesOperation(a: OperationData, b: OperationData)
    requires Comparable(a, b) && OpDataEvm(a).Some? && OpDataEvm(b).Some?
    ensures OpDataEvm(a) == OpDataEvm(b) <==> SameUpToTailSplit(a, b)
  {
    var sa := SelectorBytes(a.functionSelector) + (a.params + a.reserved);
    var sb := SelectorBytes(b.functionSelector) + (b.params + b.reserved);
    if OpDataEvm(a) == OpDataEvm(b) {
      AppendInjective(HeadBytes(a), sa, HeadBytes(b), sb);
      HeadInjective(a, b);
      SelectorInjective(a.functionSelector, b.functionSelector, a.params + a.reserved, b.params + b.reserved);
    }
  }

  /** What is hashed between the transaction id and the params. */
  function MiddleBytes(op: OperationData): seq<byte> {
    U64ToBytes32(op.nonce) + (U128ToBytes32(op.destChainId) + (op.protocolAddr + SelectorBytes(op.functionSelector)))
  }

  lemma HeadAroundTxId(op: OperationData, more: seq<byte>)
    requires OpDataEvm(op).Some?
    ensures var before := op.protocolId + (op.meta + (U128ToBytes32(op.srcChainId) + (U64ToBytes32(op.srcBlockNumber) + op.srcOpTxId)));
            && OpDataEvm(op).value == before + (MiddleBytes(op) + (op.params + op.reserved))
            && OpDataEvm(op.(srcOpTxId := op.srcOpTxId + more)).value == before + (more + (MiddleBytes(op) + (op.params + op.reserved)))
  {
  }

  /**
    Equal transaction id lengths are needed: any operation gives two that are hashed over the same bytes,
    alike in every field a load checks, when what follows the transaction id is repeated once in the
    params and once in the transaction id.
  */
  lemma TxIdLengthsMatter(op: OperationData)
    requires !op.functionSelector.Dummy?
    ensures var x, y := op.(params := MiddleBytes(op) + op.params), op.(srcOpTxId := op.srcOpTxId + MiddleBytes(op));
            && OpDataEvm(x) == OpDataEvm(y) && x.srcOpTxId != y.srcOpTxId
            && x.protocolId == y.protocolId && x.destChainId == y.destChainId && x.protocolAddr == y.protocolAddr
  {
    var mid := MiddleBytes(op);
    var x := op.(params := mid + op.params);
    HeadAroundTxId(op, mid);
    HeadAroundTxId(x, mid);
    assert (mid + op.params) + op.reserved == mid + (op.params + op.reserved);
    assert |op.srcOpTxId + mid| > |op.srcOpTxId|;
  }

  /** Selectors under 256 bytes are needed: 256 more bytes of code are hashed like the same bytes in front of the params. */
  lemma SelectorLengthsMatter(op: OperationData, more: seq<byte>)
    requires op.functionSelector.ByCode? && |more| == 256
    ensures var x := op.(functionSelector := ByCode(op.functionSelector.code + more));
            var y := op.(params := more + op.params);
            OpDataEvm(x) == OpDataEvm(y) && x.functionSelector != y.functionSelector
  {
    var code := op.functionSelector.code;
    var x, y := op.(functionSelector := ByCode(code + more)), op.(params := more + op.params);
    assert |code + more| % 256 == |code| % 256;
    var head, tail := HeadBytes(op), op.params + op.reserved;
    assert SelectorBytes(x.functionSelector) + tail == SelectorBytes(y.functionSelector) + (y.params + y.reserved);
    assert HeadBytes(x) == head == HeadBytes(y);
    assert |code + more| != |code|;
  }

  /** "\x19Ethereum Signed Message:\n32" */
  const MSG: seq<byte> := [
    0x19, 0x45, 0x74, 0x68, 0x65, 0x72, 0x65, 0x75, 0x6D, 0x20, 0x53, 0x69, 0x67, 0x6E, 0x65, 0x64,
    0x20, 0x4D, 0x65, 0x73, 0x73, 0x61, 0x67, 0x65, 0x3A, 0x0A, 0x33, 0x32]

  function HashWithMessage(crypto: Crypto, data: Bytes32): Bytes32 {
    crypto.keccak(MSG + data)
  }

  /** `hash_with_message` fills a fixed buffer with the prefix and the data, then hashes it. */
  method BuildHashWithMessage(crypto: Crypto, data: Bytes32) returns (h: Bytes32)
    ensures h == HashWithMessage(crypto, data)
  {
    var buf := new byte[32 + |MSG|](_ => 0);
    CopyInto(buf, 0, MSG);
    assert buf[..|MSG|] == MSG;
    CopyInto(buf, |MSG|, data);
    assert buf[..] == MSG + data;
    h := crypto.keccak(buf[..]);
  }

  /** `op_hash_with_message`; None is the panic of `op_data_evm`. */
  function OpHash(crypto: Crypto, op: OperationData): Option<Bytes32> {
    match OpDataEvm(op)
    case None => None
    case Some(buf) => Some(HashWithMessage(crypto, crypto.keccak(buf)))
  }

  /** The hash of an operation: the hash of its bytes, behind the prefix of ERC-191's version 0x45, hashed again. */
  lemma HashPrefix(crypto: Crypto, op: OperationData)
    requires !op.functionSelector.Dummy?
    ensures OpHash(crypto, op)
         == Some(crypto.keccak([0x19] + Ascii("Ethereum Signed Message:\n32") + crypto.keccak(OpDataEvm(op).value)))
  {
    PrefixText();
  }

  lemma PrefixText()
    ensures MSG == [0x19] + Ascii("Ethereum Signed Message:\n32")
  {
  }

  /** Two different inputs of the hash function with one output. */
  predicate Collides(crypto: Crypto, x: seq<byte>, y: seq<byte>) {
    x != y && crypto.keccak(x) == crypto.keccak(y)
  }

  /** One hash stands for one operation, unless these very bytes are a collision of the hash function itself. */
  lemma HashDeterminesOperation(crypto: Crypto, a: OperationData, b: OperationData)
    requires Comparable(a, b) && OpDataEvm(a).Some? && OpDataEvm(b).Some?
    ensures var x, y := OpDataEvm(a).value, OpDataEvm(b).value;
            OpHash(crypto, a) == OpHash(crypto, b)
            <==> || SameUpToTailSplit(a, b)
                 || Collides(crypto, x, y)
                 || Collides(crypto, MSG + crypto.keccak(x), MSG + crypto.keccak(y))
  {
    var x, y := OpDataEvm(a).value, OpDataEvm(b).value;
    var kx, ky := crypto.keccak(x), crypto.keccak(y);
    assert MSG + kx == MSG + ky <==> kx == ky by {
      if MSG + kx == MSG + ky {
        AppendInjective(MSG, kx, MSG, ky);
      }
    }
    EncodingDeterminesOperation(a, b);
  }

  function DeriveEthAddress(crypto: Crypto, publicKey: seq<byte>): EthAddress
    requires |publicKey| > 0
  {
    crypto.keccak(publicKey[1..])[12..]
  }

  /** None is a malformed or unrecoverable signature. */
  function Ecrecover(crypto: Crypto, opHash: seq<byte>, sig: Signature): Option<EthAddress> {
    var signature := sig.r + sig.s;
    if |signature| != 64 then None
    else match crypto.recover(opHash, sig.v % 27, signature)
      case None => None
      case Some(pk) => Some(DeriveEthAddress(crypto, [0x04] + pk))
  }

  /** Exactly which signatures recover, and to which address: the last 20 bytes of the hash of the recovered key. */
  lemma RecoversExactly(crypto: Crypto, h: seq<byte>, sig: Signature)
    ensures Ecrecover(crypto, h, sig).Some?
            <==> |sig.r| + |sig.s| == 64 && crypto.recover(h, sig.v % 27, sig.r + sig.s).Some?
    ensures Ecrecover(crypto, h, sig).Some? ==>
              var key := crypto.recover(h, sig.v % 27, sig.r + sig.s).value;
              |crypto.keccak(key)| == 32 && Ecrecover(crypto, h, sig).value == crypto.keccak(key)[12..32]
  {
    if Ecrecover(crypto, h, sig).Some? {
      var key := crypto.recover(h, sig.v % 27, sig.r + sig.s).value;
      assert ([0x04] + key)[1..] == key;
    }
  }

  /** Both conventions for the recovery id are accepted: v and v + 27 recover alike. */
  lemma RecoveryIds(crypto: Crypto, h: seq<byte>, sig: Signature)
    requires sig.v + 27 < 256
    ensures Ecrecover(crypto, h, sig.(v := sig.v + 27)) == Ecrecover(crypto, h, sig)
  {
    assert (sig.v + 27) % 27 == sig.v % 27;
  }
}
