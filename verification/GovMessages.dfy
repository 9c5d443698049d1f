/** What each governance message does, by its literal code and its decoded parameters (programs/entangle-photon-sol/src/gov.rs:81-555). */
module GovMessages {
  import opened Wrappers
  import opened Bytes
  import opened FixedList
  import opened ProtocolData
  import opened State
  import opened Gov

  /** The message of this operation, applied under its own code. */
  predicate Message(op: OperationData, a: byte, b: byte, c: byte, d: byte) {
    && op.functionSelector.ByCode? && |op.functionSelector.code| >= 4
    && op.functionSelector.code[..4] == [a, b, c, d]
  }

  function Handled(env: Env, config: Config, info: ProtocolInfo, op: OperationData): Result<Effect, Error>
    requires op.functionSelector.ByCode?
  {
    HandleGov(env, config, info, op.functionSelector.code, op)
  }

  /** The message leaves the configuration alone, emits nothing, and puts this record in the place of the target's. */
  predicate Gives(r: Result<Effect, Error>, config: Config, info: ProtocolInfo) {
    r == Ok(Effect(config, info, []))
  }

  /** The literal codes. */
  function Code(gov: GovOperation): seq<byte> {
    match gov
    case AddAllowedProtocol => [0x45, 0xa0, 0x04, 0xb9]
    case AddAllowedProtocolAddress => [0xd2, 0x96, 0xa0, 0xff]
    case RemoveAllowedProtocolAddress => [0xb0, 0xa4, 0xca, 0x98]
    case AddAllowedProposerAddress => [0xce, 0x09, 0x40, 0xa5]
    case RemoveAllowedProposerAddress => [0xb8, 0xe5, 0xf3, 0xf4]
    case AddExecutor => [0xe0, 0xaa, 0xfb, 0x68]
    case RemoveExecutor => [0x04, 0xfa, 0x38, 0x4a]
    case AddTransmitters => [0x6c, 0x5f, 0x56, 0x66]
    case RemoveTransmitters => [0x52, 0x06, 0xda, 0x70]
    case UpdateTransmitters => [0x65, 0x4b, 0x46, 0xe1]
    case SetConsensusTargetRate => [0x97, 0x0b, 0x61, 0x09]
  }

  lemma CodeNames(code: seq<byte>, gov: GovOperation)
    requires |code| >= 4 && code[..4] == Code(gov)
    ensures ParseSelector(code) == Some(gov)
  {
    match gov
    case AddAllowedProtocol => FourBytes(0x45, 0xa0, 0x04, 0xb9);
    case AddAllowedProtocolAddress => FourBytes(0xd2, 0x96, 0xa0, 0xff);
    case RemoveAllowedProtocolAddress => FourBytes(0xb0, 0xa4, 0xca, 0x98);
    case AddAllowedProposerAddress => FourBytes(0xce, 0x09, 0x40, 0xa5);
    case RemoveAllowedProposerAddress => FourBytes(0xb8, 0xe5, 0xf3, 0xf4);
    case AddExecutor => FourBytes(0xe0, 0xaa, 0xfb, 0x68);
    case RemoveExecutor => FourBytes(0x04, 0xfa, 0x38, 0x4a);
    case AddTransmitters => FourBytes(0x6c, 0x5f, 0x56, 0x66);
    case RemoveTransmitters => FourBytes(0x52, 0x06, 0xda, 0x70);
    case UpdateTransmitters => FourBytes(0x65, 0x4b, 0x46, 0xe1);
    case SetConsensusTargetRate => FourBytes(0x97, 0x0b, 0x61, 0x09);
  }

  lemma NamesCode(code: seq<byte>)
    requires ParseSelector(code).Some?
    ensures |code| >= 4 && code[..4] == Code(ParseSelector(code).value)
  {
    var a, b, c, d := code[0], code[1], code[2], code[3];
    assert code[..4] == [a, b, c, d];
    var k := Code(ParseSelector(code).value);
    CodeNames(k, ParseSelector(code).value);
    assert k[..4] == k == [k[0], k[1], k[2], k[3]];
    SameWord(code, k);
    FourBytesInjective(a, b, c, d, k[0], k[1], k[2], k[3]);
  }

  /** Codes that name the same message begin with the same word. */
  lemma SameWord(x: seq<byte>, y: seq<byte>)
    requires ParseSelector(x).Some? && ParseSelector(x) == ParseSelector(y)
    ensures |x| >= 4 && |y| >= 4 && FromBigEndian(x[..4]) == FromBigEndian(y[..4])
  {
  }

  /** An AddAllowedProtocol message: target, rate, transmitters. */
  lemma AddAllowedProtocolMessage(env: Env, config: Config, info: ProtocolInfo, op: OperationData, id: Bytes32, rate: nat, ts: seq<EthAddress>)
    requires Message(op, 0x45, 0xa0, 0x04, 0xb9) && env.abi.protocol(op.params) == Some((id, rate, ts))
    ensures TargetProtocol(env.abi, op.functionSelector, op.params) == Some(id)
    ensures Handled(env, config, info, op).Ok?
            <==> 1 <= rate <= 10000 && |ts| <= 20 && config.nonce < 0xFFFF_FFFF_FFFF_FFFF
    ensures Handled(env, config, info, op).Ok? ==>
              var e := Handled(env, config, info, op).value;
              && e.info == info.(isInit := true, consensusTargetRate := rate, transmitters := e.info.transmitters)
              && (forall i :: 0 <= i < 20 ==> e.info.transmitters[i] == if i < |ts| then ts[i] else info.transmitters[i])
              && e.config == config.(nonce := config.nonce + 1)
              && |e.events| == 1
              && var p := e.events[0];
                 && p.ProposeEvent? && p.protocolId == Ascii("photon-gov") + Zeros(22) && p.nonce == config.nonce
                 && p.dstChainId == config.eobChainId && p.protocolAddress == config.eobMasterSmartContract
                 && p.functionSelector == [0, 32, 0xba, 0x96, 0x6e, 0x5f] + Zeros(28)
                 && |p.params| == 64 && p.params[..32] == id && FromBigEndian(p.params[32..]) == env.chainId
  {
    CodeNames(op.functionSelector.code, AddAllowedProtocol);
    if Handled(env, config, info, op).Ok? {
      AnnouncedParams(env, id);
      assert GOV_PROTOCOL_ID == Ascii("photon-gov") + Zeros(22);
      assert [0, 32] + HANDLE_ADD_ALLOWED_PROTOCOL_SELECTOR == [0, 32, 0xba, 0x96, 0x6e, 0x5f] + Zeros(28);
    }
  }

  lemma AnnouncedParams(env: Env, id: Bytes32)
    ensures var params := id + U128ToBytes32(env.chainId);
            |params| == 64 && params[..32] == id && FromBigEndian(params[32..]) == env.chainId
  {
    U128WordValue(env.chainId);
  }

  /** An AddAllowedProtocolAddress message: target, address. */
  lemma AddAddressMessage(env: Env, config: Config, info: ProtocolInfo, op: OperationData, id: Bytes32, key: seq<byte>)
    requires Message(op, 0xd2, 0x96, 0xa0, 0xff) && env.abi.bytes(op.params) == Some((id, key))
    ensures TargetProtocol(env.abi, op.functionSelector, op.params) == Some(id)
    ensures Handled(env, config, info, op).Ok? <==> |key| == 32
    ensures |key| == 32 ==> Gives(Handled(env, config, info, op), config, info.(protocolAddress := key))
  {
    CodeNames(op.functionSelector.code, AddAllowedProtocolAddress);
  }

  /** A RemoveAllowedProtocolAddress message: target, and what is not looked at. */
  lemma RemoveAddressMessage(env: Env, config: Config, info: ProtocolInfo, op: OperationData, id: Bytes32, ignored: seq<byte>)
    requires Message(op, 0xb0, 0xa4, 0xca, 0x98) && env.abi.bytes(op.params) == Some((id, ignored))
    ensures TargetProtocol(env.abi, op.functionSelector, op.params) == Some(id)
    ensures Gives(Handled(env, config, info, op), config, info.(protocolAddress := Zeros(32)))
  {
    CodeNames(op.functionSelector.code, RemoveAllowedProtocolAddress);
  }

  /** An AddAllowedProposerAddress message: target, proposer. */
  lemma AddProposerMessage(env: Env, config: Config, info: ProtocolInfo, op: OperationData, id: Bytes32, key: seq<byte>)
    requires Message(op, 0xce, 0x09, 0x40, 0xa5) && env.abi.bytes(op.params) == Some((id, key))
    ensures TargetProtocol(env.abi, op.functionSelector, op.params) == Some(id)
    ensures Handled(env, config, info, op).Ok?
            <==> |key| == 32 && key != Zeros(32) && key !in Proposers(info) && |Proposers(info)| < 20
    ensures Handled(env, config, info, op).Ok? ==>
              var info' := Handled(env, config, info, op).value.info;
              && Gives(Handled(env, config, info, op), config, info.(proposers := info'.proposers))
              && Proposers(info') == Proposers(info) + [key]
  {
    CodeNames(op.functionSelector.code, AddAllowedProposerAddress);
    if |key| == 32 {
      ProposerListRefinement(info, key);
    }
  }

  /** A RemoveAllowedProposerAddress message: target, proposer. */
  lemma RemoveProposerMessage(env: Env, config: Config, info: ProtocolInfo, op: OperationData, id: Bytes32, key: seq<byte>)
    requires Message(op, 0xb8, 0xe5, 0xf3, 0xf4) && env.abi.bytes(op.params) == Some((id, key))
    ensures TargetProtocol(env.abi, op.functionSelector, op.params) == Some(id)
    ensures Handled(env, config, info, op).Ok? <==> |key| == 32
    ensures Handled(env, config, info, op).Ok? ==>
              var info' := Handled(env, config, info, op).value.info;
              && Gives(Handled(env, config, info, op), config, info.(proposers := info'.proposers))
              && |key| == 32 && LacksKey(Proposers(info), key, Proposers(info'))
  {
    CodeNames(op.functionSelector.code, RemoveAllowedProposerAddress);
    if |key| == 32 {
      ProposerListRefinement(info, key);
      KeyFiltered(Proposers(info), key);
    }
  }

  /** An AddExecutor message: target, executor. */
  lemma AddExecutorMessage(env: Env, config: Config, info: ProtocolInfo, op: OperationData, id: Bytes32, key: seq<byte>)
    requires Message(op, 0xe0, 0xaa, 0xfb, 0x68) && env.abi.bytes(op.params) == Some((id, key))
    ensures TargetProtocol(env.abi, op.functionSelector, op.params) == Some(id)
    ensures Handled(env, config, info, op).Ok?
            <==> |key| == 32 && key != Zeros(32) && key !in Executors(info) && |Executors(info)| < 20
    ensures Handled(env, config, info, op).Ok? ==>
              var info' := Handled(env, config, info, op).value.info;
              && Gives(Handled(env, config, info, op), config, info.(executors := info'.executors))
              && Executors(info') == Executors(info) + [key]
  {
    CodeNames(op.functionSelector.code, AddExecutor);
    if |key| == 32 {
      AddExecutorRefinement(info, key);
    }
  }

  /** A RemoveExecutor message: target, executor. */
  lemma RemoveExecutorMessage(env: Env, config: Config, info: ProtocolInfo, op: OperationData, id: Bytes32, key: seq<byte>)
    requires Message(op, 0x04, 0xfa, 0x38, 0x4a) && env.abi.bytes(op.params) == Some((id, key))
    ensures TargetProtocol(env.abi, op.functionSelector, op.params) == Some(id)
    ensures Handled(env, config, info, op).Ok?
            <==> |key| == 32 && (op.protocolId != GOV_PROTOCOL_ID || exists k :: k in Executors(info) && k != key)
    ensures Handled(env, config, info, op).Ok? ==>
              var info' := Handled(env, config, info, op).value.info;
              && Gives(Handled(env, config, info, op), config, info.(executors := info'.executors))
              && |key| == 32 && LacksKey(Executors(info), key, Executors(info'))
  {
    CodeNames(op.functionSelector.code, RemoveExecutor);
    if |key| == 32 {
      RemoveExecutorRefinement(info, key, op.protocolId);
      KeyFiltered(Executors(info), key);
    }
  }

  /** The transmitters that count: not zero. */
  predicate SomeNonzero(ts: seq<EthAddress>) {
    exists a :: a in ts && a != ZERO_ADDRESS
  }

  lemma NonzeroLeft(ts: seq<EthAddress>)
    ensures Without(ts, ZERO_ADDRESS) != [] <==> SomeNonzero(ts)
    ensures ToSet(Without(ts, ZERO_ADDRESS)) == ToSet(ts) - {ZERO_ADDRESS} && ZERO_ADDRESS !in Without(ts, ZERO_ADDRESS)
  {
    ExcludingProperties(ts, [ZERO_ADDRESS]);
    ExcludingSet(ts, [ZERO_ADDRESS]);
    assert ToSet([ZERO_ADDRESS]) == {ZERO_ADDRESS};
    var left := Without(ts, ZERO_ADDRESS);
    if left != [] {
      assert left[0] in left;
    }
  }

  /** An AddTransmitters message: target, transmitters. */
  lemma AddTransmittersMessage(env: Env, config: Config, info: ProtocolInfo, op: OperationData, id: Bytes32, ts: seq<EthAddress>)
    requires Message(op, 0x6c, 0x5f, 0x56, 0x66) && env.abi.list(op.params) == Some((id, ts))
    ensures TargetProtocol(env.abi, op.functionSelector, op.params) == Some(id)
    ensures Handled(env, config, info, op).Ok?
            <==> SomeNonzero(ts) && |Dedup(Transmitters(info) + Without(ts, ZERO_ADDRESS))| < 20
    ensures Handled(env, config, info, op).Ok? ==>
              var info' := Handled(env, config, info, op).value.info;
              && Gives(Handled(env, config, info, op), config, info.(transmitters := info'.transmitters))
              && ToSet(Transmitters(info')) == ToSet(Transmitters(info)) + (ToSet(ts) - {ZERO_ADDRESS})
              && Transmitters(info') == Dedup(Transmitters(info) + Without(ts, ZERO_ADDRESS))
  {
    CodeNames(op.functionSelector.code, AddTransmitters);
    NonzeroLeft(ts);
    AddTransmittersProperties(info, Without(ts, ZERO_ADDRESS));
  }

  /** A RemoveTransmitters message: target, transmitters. */
  lemma RemoveTransmittersMessage(env: Env, config: Config, info: ProtocolInfo, op: OperationData, id: Bytes32, ts: seq<EthAddress>)
    requires Message(op, 0x52, 0x06, 0xda, 0x70) && env.abi.list(op.params) == Some((id, ts))
    ensures TargetProtocol(env.abi, op.functionSelector, op.params) == Some(id)
    ensures Handled(env, config, info, op).Ok?
    ensures var info' := Handled(env, config, info, op).value.info;
            && Gives(Handled(env, config, info, op), config, info.(transmitters := info'.transmitters))
            && IsFiltered(Transmitters(info), ToSet(ts), Transmitters(info'))
  {
    CodeNames(op.functionSelector.code, RemoveTransmitters);
    RemovedList(info, ts);
  }

  lemma RemovedList(info: ProtocolInfo, ts: seq<EthAddress>)
    ensures Transmitters(RemoveTransmittersFrom(info, ts)) == Excluding(Transmitters(info), ts)
    ensures IsFiltered(Transmitters(info), ToSet(ts), Excluding(Transmitters(info), ts))
  {
    ExcludingProperties(Transmitters(info), ts);
    ExcludingFilters(Transmitters(info), ts);
    ListOfPadded(Excluding(Transmitters(info), ts), MAX_TRANSMITTERS, ZERO_ADDRESS);
  }

  /** An UpdateTransmitters message: target, what to add, what to remove; the removal comes first. */
  lemma UpdateTransmittersMessage(env: Env, config: Config, info: ProtocolInfo, op: OperationData, id: Bytes32,
                                  added: seq<EthAddress>, removed: seq<EthAddress>)
    requires Message(op, 0x65, 0x4b, 0x46, 0xe1) && env.abi.lists(op.params) == Some((id, added, removed))
    ensures TargetProtocol(env.abi, op.functionSelector, op.params) == Some(id)
    ensures Handled(env, config, info, op).Ok?
            <==> (SomeNonzero(added) ==> |Dedup(Excluding(Transmitters(info), removed) + Without(added, ZERO_ADDRESS))| < 20)
    ensures Handled(env, config, info, op).Ok? ==>
              var info' := Handled(env, config, info, op).value.info;
              && Gives(Handled(env, config, info, op), config, info.(transmitters := info'.transmitters))
              && ToSet(Transmitters(info')) == (ToSet(Transmitters(info)) - ToSet(removed)) + (ToSet(added) - {ZERO_ADDRESS})
  {
    CodeNames(op.functionSelector.code, UpdateTransmitters);
    NonzeroLeft(added);
    UpdatedList(info, added, removed);
    if UpdateTransmittersOf(info, added, removed).Ok? {
      UpdateTransmittersSet(info, added, removed);
    }
  }

  lemma UpdatedList(info: ProtocolInfo, added: seq<EthAddress>, removed: seq<EthAddress>)
    ensures UpdateTransmittersOf(info, added, removed).Ok?
            <==> (Without(added, ZERO_ADDRESS) != [] ==> |Dedup(Excluding(Transmitters(info), removed) + Without(added, ZERO_ADDRESS))| < 20)
    ensures UpdateTransmittersOf(info, added, removed).Ok? ==>
              var info' := UpdateTransmittersOf(info, added, removed).value; info' == info.(transmitters := info'.transmitters)
  {
    RemovedList(info, removed);
    NothingExcluded(Transmitters(info));
    NonzeroLeft(added);
    var kept := if removed == [] then info else RemoveTransmittersFrom(info, removed);
    AddTransmittersProperties(kept, Without(added, ZERO_ADDRESS));
  }

  lemma {:induction false} NothingExcluded<T>(s: seq<T>)
    ensures Excluding(s, []) == s
  {
    if s != [] {
      NothingExcluded(s[1..]);
    }
  }

  /** A SetConsensusTargetRate message: target, rate. */
  lemma SetRateMessage(env: Env, config: Config, info: ProtocolInfo, op: OperationData, id: Bytes32, rate: nat)
    requires Message(op, 0x97, 0x0b, 0x61, 0x09) && env.abi.rate(op.params) == Some((id, rate))
    ensures TargetProtocol(env.abi, op.functionSelector, op.params) == Some(id)
    ensures Handled(env, config, info, op).Ok? <==> 1 <= rate <= 10000
    ensures 1 <= rate <= 10000 ==> Gives(Handled(env, config, info, op), config, info.(consensusTargetRate := rate))
  {
    CodeNames(op.functionSelector.code, SetConsensusTargetRate);
  }

  /** No other code is handled, and no message whose parameters do not decode. */
  lemma OtherMessages(env: Env, config: Config, info: ProtocolInfo, op: OperationData)
    requires op.functionSelector.ByCode? && Handled(env, config, info, op).Ok?
    ensures || (Message(op, 0x45, 0xa0, 0x04, 0xb9) && env.abi.protocol(op.params).Some?)
            || (Message(op, 0xd2, 0x96, 0xa0, 0xff) && env.abi.bytes(op.params).Some?)
            || Message(op, 0xb0, 0xa4, 0xca, 0x98)
            || (Message(op, 0xce, 0x09, 0x40, 0xa5) && env.abi.bytes(op.params).Some?)
            || (Message(op, 0xb8, 0xe5, 0xf3, 0xf4) && env.abi.bytes(op.params).Some?)
            || (Message(op, 0xe0, 0xaa, 0xfb, 0x68) && env.abi.bytes(op.params).Some?)
            || (Message(op, 0x04, 0xfa, 0x38, 0x4a) && env.abi.bytes(op.params).Some?)
            || (Message(op, 0x6c, 0x5f, 0x56, 0x66) && env.abi.list(op.params).Some?)
            || (Message(op, 0x52, 0x06, 0xda, 0x70) && env.abi.list(op.params).Some?)
            || (Message(op, 0x65, 0x4b, 0x46, 0xe1) && env.abi.lists(op.params).Some?)
            || (Message(op, 0x97, 0x0b, 0x61, 0x09) && env.abi.rate(op.params).Some?)
  {
    NamesCode(op.functionSelector.code);
  }

  /** One list is the other without these elements, in the same order and as often. */
  predicate IsFiltered<T(!new)>(s: seq<T>, xs: set<T>, r: seq<T>)
    decreases |s|
  {
    if s == [] then r == []
    else if s[0] in xs then IsFiltered(s[1..], xs, r)
    else r != [] && r[0] == s[0] && IsFiltered(s[1..], xs, r[1..])
  }

  predicate LacksKey(s: seq<Pubkey>, key: Pubkey, r: seq<Pubkey>) {
    IsFiltered(s, {key}, r)
  }

  lemma KeyFiltered(s: seq<Pubkey>, key: Pubkey)
    ensures LacksKey(s, key, Without(s, key))
  {
    ExcludingFilters(s, [key]);
    assert ToSet([key]) == {key};
  }

  lemma {:induction false} ExcludingFilters<T(!new)>(s: seq<T>, xs: seq<T>)
    ensures IsFiltered(s, ToSet(xs), Excluding(s, xs))
    decreases |s|
  {
    if s != [] {
      ExcludingFilters(s[1..], xs);
      assert s[0] in ToSet(xs) <==> s[0] in xs;
      var rest := Excluding(s[1..], xs);
      if s[0] in xs {
        assert Excluding(s, xs) == [] + rest == rest;
      } else {
        assert Excluding(s, xs) == [s[0]] + rest && ([s[0]] + rest)[1..] == rest;
      }
    }
  }
}
