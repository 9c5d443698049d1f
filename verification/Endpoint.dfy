/** The endpoint program: its handlers over stored accounts (programs/entangle-photon-sol/src/lib.rs:316-606). */
module Endpoint {
  import opened Wrappers
  import opened Bytes
  import opened FixedList
  import opened Quorum
  import opened ProtocolData
  import opened State
  import opened Gov
  import opened GovAccounts
  import opened Photon

  /**
    Accounts are deserialised, changed, and written back when the handler succeeds; a handler that
    fails leaves the fields as they were.
  */
  class PhotonProgram {
    const env: Env
    var config: Option<Config>
    var protocols: map<seq<byte>, ProtocolInfo>
    var ops: map<seq<byte>, OpInfo>
    var log: seq<Event>

    constructor (env: Env)
      ensures this.env == env && Value() == EMPTY_WORLD
    {
      this.env := env;
      config, protocols, ops, log := None, map[], map[], [];
    }

    function Value(): World
      reads this
    {
      World(config, protocols, ops, log)
    }

    method Initialize(admin: Pubkey, eobChainId: u64, eobMaster: seq<byte>, rate: u64,
                      transmitters: seq<EthAddress>, executors: seq<Pubkey>) returns (r: Result<(), Error>)
      modifies this
      ensures match InitializeStep(env, old(Value()), admin, eobChainId, eobMaster, rate, transmitters, executors)
              case Ok(w) => r == Ok(()) && Value() == w
              case Err(e) => r == Err(e) && Value() == old(Value())
    {
      var configAccount := new ConfigAccount(ConfigOf(Value()));
      var protocolInfo := new ProtocolAccount(ProtocolOf(Value(), GOV_PROTOCOL_ID));
      if admin != configAccount.admin && admin != env.deployer {
        return Err(IsNotAdmin);
      }
      configAccount.admin := admin;
      configAccount.eobChainId := eobChainId;
      if |eobMaster| != 32 {
        return Err(RequireViolated);
      }
      configAccount.eobMasterSmartContract := eobMaster;
      if |transmitters| > MAX_TRANSMITTERS || |executors| > MAX_EXECUTORS {
        return Err(Panicked);
      }
      protocolInfo.SetUp(env.programId, rate, transmitters, executors);
      config := Some(configAccount.Value());
      protocols := protocols[GOV_PROTOCOL_ID := protocolInfo.Value()];
      return Ok(());
    }

    method LoadOperation(executor: Pubkey, opData: OperationData, opHashCached: seq<byte>) returns (r: Result<(), Error>)
      modifies this
      ensures match LoadStep(env, old(Value()), executor, opData, opHashCached)
              case Ok(w) => r == Ok(()) && Value() == w
              case Err(e) => r == Err(e) && Value() == old(Value())
    {
      var protocolInfo := CheckExecutor(Value(), opData.protocolId, executor);
      if protocolInfo.Err? {
        return Err(protocolInfo.error);
      }
      if opHashCached in ops {
        return Err(AccountAlreadyInUse);
      }
      if config.None? {
        return Err(AccountNotInitialized);
      }
      var opHash := OpHash(env.crypto, opData);
      if opHash.None? {
        return Err(Panicked);
      }
      if opHash.value != opHashCached {
        return Err(CachedOpHashMismatch);
      }
      if opData.destChainId != env.chainId {
        return Err(OpIsNotForThisChain);
      }
      if protocolInfo.value.protocolAddress != opData.protocolAddr {
        return Err(ProtocolAddressMismatch);
      }
      if opData.protocolId == ZERO_WORD || |opData.protocolId| != 32 {
        return Err(InvalidOpData);
      }
      ops := ops[opHashCached := OpInfo(Init, NO_SIGNERS, opData)];
      log := log + [ProposalLoaded(opHash.value, executor)];
      return Ok(());
    }

    method SignOperation(executor: Pubkey, opHash: seq<byte>, signatures: seq<Signature>) returns (r: Result<bool, Error>)
      modifies this
      ensures match SignStep(env, old(Value()), executor, opHash, signatures)
              case Ok((w, reached)) => r == Ok(reached) && Value() == w
              case Err(e) => r == Err(e) && Value() == old(Value())
    {
      if opHash !in ops {
        return Err(AccountNotInitialized);
      }
      var opInfo := ops[opHash];
      var protocolInfo := CheckExecutor(Value(), opInfo.opData.protocolId, executor);
      if protocolInfo.Err? {
        return Err(protocolInfo.error);
      }
      if opInfo.status != Init && opInfo.status != Signed {
        return Err(OpStateInvalid);
      }
      var allowed := TakeNonzero(protocolInfo.value.transmitters, ZERO_ADDRESS);
      if |allowed| == 0 {
        return Err(NoTransmittersAllowed);
      }
      var uniqueSigners := StoredSigners(opInfo);
      var target := protocolInfo.value.consensusTargetRate;
      if |uniqueSigners| * RATE_DECIMALS / |allowed| >= target {
        ops := ops[opHash := opInfo];
        assert log + [] == log;
        return Ok(true);
      }
      var collected := CollectSigners(allowed, target, uniqueSigners, opHash, signatures);
      if collected.None? {
        return Err(InvalidSignature);
      }
      uniqueSigners := collected.value.signers;
      var consensusReached := collected.value.reached;
      var status, emitted := opInfo.status, [];
      if consensusReached {
        status := Signed;
        emitted := [ProposalApproved(opHash, executor)];
      }
      if |uniqueSigners| > SIGNER_SLOTS {
        return Err(Panicked);
      }
      var slots := FreshSlots(uniqueSigners, SIGNER_SLOTS, ZERO_ADDRESS);
      ops := ops[opHash := OpInfo(status, slots[..], opInfo.opData)];
      log := log + emitted;
      return Ok(consensusReached);
    }

    /** The loop of `sign_operation`; it stops at the signature that completes the quorum. */
    method CollectSigners(allowed: seq<EthAddress>, target: u64, stored: seq<EthAddress>, opHash: seq<byte>, signatures: seq<Signature>)
      returns (r: Option<Collected>)
      requires |allowed| > 0
      ensures r == Collect(allowed, target, stored, Recovered(env.crypto, opHash, signatures))
    {
      var uniqueSigners := stored;
      ghost var recovered := Recovered(env.crypto, opHash, signatures);
      for i := 0 to |signatures|
        invariant Collect(allowed, target, stored, recovered) == Collect(allowed, target, uniqueSigners, recovered[i..])
      {
        assert recovered[i..][0] == recovered[i] && recovered[i..][1..] == recovered[i + 1..];
        var transmitter := Ecrecover(env.crypto, opHash, signatures[i]);
        if transmitter.None? {
          return None;
        }
        if transmitter.value in allowed && transmitter.value !in uniqueSigners {
          uniqueSigners := uniqueSigners + [transmitter.value];
          var consensusRate := |uniqueSigners| * RATE_DECIMALS / |allowed|;
          if consensusRate >= target {
            return Some(Collected(uniqueSigners, true));
          }
        }
      }
      return Some(Collected(uniqueSigners, false));
    }

    method ReceivePhotonMsg(executor: Pubkey, opHash: seq<byte>, code: seq<byte>) returns (r: Result<(), Error>)
      modifies this
      ensures match ReceiveStep(env, old(Value()), executor, opHash, code)
              case Ok(w) => r == Ok(()) && Value() == w
              case Err(e) => r == Err(e) && Value() == old(Value())
    {
      if opHash !in ops {
        return Err(AccountNotInitialized);
      }
      var opInfo := ops[opHash];
      var govInfo := CheckExecutor(Value(), GOV_PROTOCOL_ID, executor);
      if govInfo.Err? {
        return Err(govInfo.error);
      }
      if opInfo.status != Signed {
        return Err(OpStateInvalid);
      }
      var target := TargetProtocol(env.abi, opInfo.opData.functionSelector, opInfo.opData.params);
      if target.None? {
        return Err(Panicked);
      }
      var configAccount := new ConfigAccount(ConfigOf(Value()));
      var targetInfo := new ProtocolAccount(ProtocolOf(Value(), target.value));
      if opInfo.opData.protocolId != GOV_PROTOCOL_ID || opInfo.opData.protocolAddr != env.programId {
        return Err(InvalidEndpoint);
      }
      var handled := HandleGovOperation(env, configAccount, targetInfo, code, opInfo.opData);
      if handled.Err? {
        return Err(handled.error);
      }
      config := Some(configAccount.Value());
      protocols := protocols[target.value := targetInfo.Value()];
      log := log + handled.value;
      return Ok(());
    }

    /** callOk: whether the called program, and the runtime on the way there, succeed. */
    method ExecuteOperation(executor: Pubkey, opHash: seq<byte>, firstAccount: Option<Pubkey>, callOk: bool) returns (r: Result<(), Error>)
      modifies this
      ensures match ExecuteStep(env, old(Value()), executor, opHash, firstAccount, callOk)
              case Ok(w) => r == Ok(()) && Value() == w
              case Err(e) => r == Err(e) && Value() == old(Value())
    {
      if opHash !in ops {
        return Err(AccountNotInitialized);
      }
      var opInfo := ops[opHash];
      var protocolInfo := CheckExecutor(Value(), opInfo.opData.protocolId, executor);
      if protocolInfo.Err? {
        return Err(protocolInfo.error);
      }
      if opInfo.status != Signed {
        return Err(OpStateInvalid);
      }
      if firstAccount != Some(opInfo.opData.protocolAddr) {
        return Err(ProtocolAddressNotProvided);
      }
      if opInfo.opData.functionSelector.Dummy? {
        return Err(Panicked);
      }
      if !callOk {
        return Err(CallFailed);
      }
      if opInfo.opData.protocolAddr == env.programId && opInfo.opData.functionSelector.ByCode? {
        var called := ReceivePhotonMsg(executor, opHash, opInfo.opData.functionSelector.code);
        if called.Err? {
          return called;
        }
      }
      ops := ops[opHash := opInfo.(status := Executed)];
      log := log + [ProposalExecuted(opHash, executor)];
      return Ok(());
    }

    method Propose(proposer: Pubkey, protocolId: seq<byte>, dstChainId: u128, protocolAddress: seq<byte>,
                   functionSelector: FunctionSelector, params: seq<byte>) returns (r: Result<(), Error>)
      modifies this
      ensures match ProposeStep(old(Value()), proposer, protocolId, dstChainId, protocolAddress, functionSelector, params)
              case Ok(w) => r == Ok(()) && Value() == w
              case Err(e) => r == Err(e) && Value() == old(Value())
    {
      if protocolId !in protocols || config.None? {
        return Err(AccountNotInitialized);
      }
      if proposer !in protocols[protocolId].proposers {
        return Err(ProposerIsNotAllowed);
      }
      var nonce := config.value.nonce;
      if nonce == U64_MAX {
        return Err(Panicked);
      }
      var selector := ToBytes(functionSelector);
      if selector.Err? {
        return Err(SelectorTooBig);
      }
      config := Some(config.value.(nonce := nonce + 1));
      log := log + [ProposeEvent(protocolId, nonce, dstChainId, protocolAddress, selector.value, params)];
      return Ok(());
    }

    method SetAdmin(deployer: Pubkey, admin: Pubkey) returns (r: Result<(), Error>)
      modifies this
      ensures match SetAdminStep(env, old(Value()), deployer, admin)
              case Ok(w) => r == Ok(()) && Value() == w
              case Err(e) => r == Err(e) && Value() == old(Value())
    {
      if deployer != env.deployer {
        return Err(ConstraintAddress);
      }
      if config.None? {
        return Err(AccountNotInitialized);
      }
      config := Some(config.value.(admin := admin));
      return Ok(());
    }
  }
}
