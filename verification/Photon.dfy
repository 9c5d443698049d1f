/** The endpoint's instructions as steps on its accounts (programs/entangle-photon-sol/src/lib.rs:316-606). */
module Photon {
  import opened Wrappers
  import opened Bytes
  import opened FixedList
  import opened Quorum
  import opened ProtocolData
  import opened State
  import opened Gov

  /** All accounts of the program, keyed by the seed that distinguishes them, and the events so far. */
  datatype World = World(
    config: Option<Config>,
    protocols: map<seq<byte>, ProtocolInfo>,
    ops: map<seq<byte>, OpInfo>,
    log: seq<Event>)

  const EMPTY_WORLD := World(None, map[], map[], [])

  datatype Instruction =
    | Initialize(admin: Pubkey, eobChainId: u64, eobMaster: seq<byte>, rate: u64,
                 transmitters: seq<EthAddress>, executors: seq<Pubkey>)
    | LoadOperation(executor: Pubkey, opData: OperationData, opHashCached: seq<byte>)
    | SignOperation(executor: Pubkey, opHash: seq<byte>, signatures: seq<Signature>)
      // callOk: whether the called program, and the runtime on the way there, succeed
    | ExecuteOperation(executor: Pubkey, opHash: seq<byte>, firstAccount: Option<Pubkey>, callOk: bool)
    | Propose(proposer: Pubkey, protocolId: seq<byte>, dstChainId: u128, protocolAddress: seq<byte>,
              functionSelector: FunctionSelector, params: seq<byte>)
    | ReceivePhotonMsg(executor: Pubkey, opHash: seq<byte>, code: seq<byte>)
    | SetAdmin(deployer: Pubkey, admin: Pubkey)

  function ConfigOf(w: World): Config {
    if w.config.Some? then w.config.value else DEFAULT_CONFIG
  }

  function ProtocolOf(w: World, id: seq<byte>): ProtocolInfo {
    if id in w.protocols then w.protocols[id] else DEFAULT_PROTOCOL
  }

  /** The account constraint on the executor; it searches all 20 slots. */
  function CheckExecutor(w: World, protocolId: seq<byte>, executor: Pubkey): Result<ProtocolInfo, Error> {
    if protocolId !in w.protocols then Err(AccountNotInitialized)
    else if executor !in w.protocols[protocolId].executors then Err(ExecutorIsNotAllowed)
    else Ok(w.protocols[protocolId])
  }

  function InitializeStep(env: Env, w: World, admin: Pubkey, eobChainId: u64, eobMaster: seq<byte>, rate: u64,
                          transmitters: seq<EthAddress>, executors: seq<Pubkey>): Result<World, Error>
  {
    var config := ConfigOf(w);
    if admin != config.admin && admin != env.deployer then Err(IsNotAdmin)
    else if |eobMaster| != 32 then Err(RequireViolated)
    else if |transmitters| > MAX_TRANSMITTERS || |executors| > MAX_EXECUTORS then Err(Panicked)
    else
      var info := ProtocolOf(w, GOV_PROTOCOL_ID);
      Ok(w.(config := Some(Config(admin, eobChainId, eobMaster, config.nonce)),
            protocols := w.protocols[GOV_PROTOCOL_ID := info.(
              isInit := true, protocolAddress := env.programId, consensusTargetRate := rate,
              transmitters := Pad(transmitters, MAX_TRANSMITTERS, ZERO_ADDRESS),
              executors := Pad(executors, MAX_EXECUTORS, ZERO_KEY))]))
  }

  function LoadStep(env: Env, w: World, executor: Pubkey, op: OperationData, opHashCached: seq<byte>): Result<World, Error> {
    var info :- CheckExecutor(w, op.protocolId, executor);
    if opHashCached in w.ops then Err(AccountAlreadyInUse)
    else if w.config.None? then Err(AccountNotInitialized)
    else match OpHash(env.crypto, op)
      case None => Err(Panicked)
      case Some(opHash) =>
        if opHash != opHashCached then Err(CachedOpHashMismatch)
        else if op.destChainId != env.chainId then Err(OpIsNotForThisChain)
        else if info.protocolAddress != op.protocolAddr then Err(ProtocolAddressMismatch)
        else if op.protocolId == ZERO_WORD || |op.protocolId| != 32 then Err(InvalidOpData)
        else Ok(w.(ops := w.ops[opHashCached := OpInfo(Init, NO_SIGNERS, op)],
                   log := w.log + [ProposalLoaded(opHash, executor)]))
  }

  function StoredSigners(op: OpInfo): (s: seq<EthAddress>)
    ensures |s| <= SIGNER_SLOTS && ZERO_ADDRESS !in s
  {
    ExcludingProperties(op.uniqueSigners, [ZERO_ADDRESS]);
    Without(op.uniqueSigners, ZERO_ADDRESS)
  }

  /** The stored signers are the nonzero slots, all 16 of them looked at, in slot order. */
  lemma {:induction false} NonzeroSlots(slots: seq<EthAddress>, more: seq<EthAddress>, a: EthAddress)
    ensures Without(slots + more, ZERO_ADDRESS) == Without(slots, ZERO_ADDRESS) + Without(more, ZERO_ADDRESS)
    ensures Without([a], ZERO_ADDRESS) == if a == Zeros(20) then [] else [a]
    decreases |slots|
  {
    if slots == [] {
      assert slots + more == more;
      assert [a][1..] == [];
    } else {
      assert (slots + more)[1..] == slots[1..] + more;
      NonzeroSlots(slots[1..], more, a);
      AppendAssociative(if slots[0] in [ZERO_ADDRESS] then [] else [slots[0]], Without(slots[1..], ZERO_ADDRESS), Without(more, ZERO_ADDRESS));
    }
  }

  lemma StoredSignersExactly(op: OpInfo, a: EthAddress)
    ensures a in StoredSigners(op) <==> a != Zeros(20) && exists i :: 0 <= i < 16 && op.uniqueSigners[i] == a
  {
    ExcludingProperties(op.uniqueSigners, [ZERO_ADDRESS]);
  }

  function Recovered(crypto: Crypto, opHash: seq<byte>, signatures: seq<Signature>): (r: seq<Option<EthAddress>>)
    ensures |r| == |signatures|
    ensures forall i :: 0 <= i < |r| ==> r[i] == Ecrecover(crypto, opHash, signatures[i])
  {
    seq(|signatures|, i requires 0 <= i < |signatures| => Ecrecover(crypto, opHash, signatures[i]))
  }

  datatype Signing = Signing(op: OpInfo, consensusReached: bool, approved: bool)

  /** The body of `sign_operation` on one operation and its protocol. */
  function SignOp(crypto: Crypto, info: ProtocolInfo, op: OpInfo, opHash: seq<byte>, signatures: seq<Signature>): Result<Signing, Error> {
    var allowed := Transmitters(info);
    var stored := StoredSigners(op);
    if allowed == [] then Err(NoTransmittersAllowed)
    else if Reached(|stored|, |allowed|, info.consensusTargetRate) then Ok(Signing(op, true, false))
    else match Collect(allowed, info.consensusTargetRate, stored, Recovered(crypto, opHash, signatures))
      case None => Err(InvalidSignature)
      case Some(c) =>
        if |c.signers| > SIGNER_SLOTS then Err(Panicked)
        else Ok(Signing(OpInfo(if c.reached then Signed else op.status,
                               Pad(c.signers, SIGNER_SLOTS, ZERO_ADDRESS), op.opData),
                        c.reached, c.reached))
  }

  function SignStep(env: Env, w: World, executor: Pubkey, opHash: seq<byte>, signatures: seq<Signature>): Result<(World, bool), Error> {
    if opHash !in w.ops then Err(AccountNotInitialized)
    else
      var op := w.ops[opHash];
      var info :- CheckExecutor(w, op.opData.protocolId, executor);
      if op.status != Init && op.status != Signed then Err(OpStateInvalid)
      else
        var s :- SignOp(env.crypto, info, op, opHash, signatures);
        Ok((w.(ops := w.ops[opHash := s.op],
               log := w.log + if s.approved then [ProposalApproved(opHash, executor)] else []),
            s.consensusReached))
  }

  /** `receive_photon_msg`, called by the program itself or directly. */
  function ReceiveStep(env: Env, w: World, executor: Pubkey, opHash: seq<byte>, code: seq<byte>): Result<World, Error> {
    if opHash !in w.ops then Err(AccountNotInitialized)
    else
      var op := w.ops[opHash];
      var _ :- CheckExecutor(w, GOV_PROTOCOL_ID, executor);
      if op.status != Signed then Err(OpStateInvalid)
      else match TargetProtocol(env.abi, op.opData.functionSelector, op.opData.params)
        case None => Err(Panicked)
        case Some(target) =>
          if op.opData.protocolId != GOV_PROTOCOL_ID || op.opData.protocolAddr != env.programId then Err(InvalidEndpoint)
          else
            var e :- HandleGov(env, ConfigOf(w), ProtocolOf(w, target), code, op.opData);
            Ok(w.(config := Some(e.config), protocols := w.protocols[target := e.info], log := w.log + e.events))
  }

  function ExecuteStep(env: Env, w: World, executor: Pubkey, opHash: seq<byte>, firstAccount: Option<Pubkey>, callOk: bool): Result<World, Error> {
    if opHash !in w.ops then Err(AccountNotInitialized)
    else
      var op := w.ops[opHash];
      var _ :- CheckExecutor(w, op.opData.protocolId, executor);
      if op.status != Signed then Err(OpStateInvalid)
      else if firstAccount != Some(op.opData.protocolAddr) then Err(ProtocolAddressNotProvided)
      else if op.opData.functionSelector.Dummy? then Err(Panicked)
      else if !callOk then Err(CallFailed)
      else
        var called :- if op.opData.protocolAddr == env.programId && op.opData.functionSelector.ByCode?
                      then ReceiveStep(env, w, executor, opHash, op.opData.functionSelector.code)
                      else Ok(w);
        Ok(called.(ops := w.ops[opHash := op.(status := Executed)],
                   log := called.log + [ProposalExecuted(opHash, executor)]))
  }

  function ProposeStep(w: World, proposer: Pubkey, protocolId: seq<byte>, dstChainId: u128, protocolAddress: seq<byte>,
                       functionSelector: FunctionSelector, params: seq<byte>): Result<World, Error>
  {
    if protocolId !in w.protocols || w.config.None? then Err(AccountNotInitialized)
    else if proposer !in w.protocols[protocolId].proposers then Err(ProposerIsNotAllowed)
    else if w.config.value.nonce == U64_MAX then Err(Panicked)
    else if ToBytes(functionSelector).Err? then Err(SelectorTooBig)
    else
      var config := w.config.value;
      Ok(w.(config := Some(config.(nonce := config.nonce + 1)),
            log := w.log + [ProposeEvent(protocolId, config.nonce, dstChainId, protocolAddress,
                                         ToBytes(functionSelector).value, params)]))
  }

  function SetAdminStep(env: Env, w: World, deployer: Pubkey, admin: Pubkey): Result<World, Error> {
    if deployer != env.deployer then Err(ConstraintAddress)
    else if w.config.None? then Err(AccountNotInitialized)
    else Ok(w.(config := Some(w.config.value.(admin := admin))))
  }

  function Step(env: Env, w: World, ix: Instruction): Result<World, Error> {
    match ix
    case Initialize(admin, chain, master, rate, ts, es) => InitializeStep(env, w, admin, chain, master, rate, ts, es)
    case LoadOperation(executor, op, cached) => LoadStep(env, w, executor, op, cached)
    case SignOperation(executor, opHash, signatures) =>
      var r :- SignStep(env, w, executor, opHash, signatures);
      Ok(r.0)
    case ExecuteOperation(executor, opHash, first, callOk) => ExecuteStep(env, w, executor, opHash, first, callOk)
    case Propose(proposer, id, dst, addr, selector, params) => ProposeStep(w, proposer, id, dst, addr, selector, params)
    case ReceivePhotonMsg(executor, opHash, code) => ReceiveStep(env, w, executor, opHash, code)
    case SetAdmin(deployer, admin) => SetAdminStep(env, w, deployer, admin)
  }

  /** A failing transaction rolls back. */
  function Apply(env: Env, w: World, ix: Instruction): World {
    match Step(env, w, ix)
    case Ok(w') => w'
    case Err(_) => w
  }
}
