/** The accounts of the Photon endpoint and what it emits (programs/entangle-photon-sol/src/lib.rs:945-1113). */
module State {
  import opened Wrappers
  import opened Bytes
  import opened FixedList
  import opened ProtocolData

  const MAX_TRANSMITTERS := 20
  const MAX_EXECUTORS := 20
  const MAX_PROPOSERS := 20

  const ZERO_ADDRESS: EthAddress := Zeros(20)
  const ZERO_KEY: Pubkey := Zeros(32)
  const ZERO_WORD: Bytes32 := Zeros(32)

  /** "photon-gov", zero-padded. */
  const GOV_PROTOCOL_ID: Bytes32 := [0x70, 0x68, 0x6F, 0x74, 0x6F, 0x6E, 0x2D, 0x67, 0x6F, 0x76] + Zeros(22)

  type TransmitterSlots = s: seq<EthAddress> | |s| == MAX_TRANSMITTERS witness Repeat<EthAddress>(20, ZERO_ADDRESS)
  type KeySlots = s: seq<Pubkey> | |s| == MAX_EXECUTORS witness Repeat<Pubkey>(20, ZERO_KEY)
  type SignerSlots = s: seq<EthAddress> | |s| == 16 witness Repeat<EthAddress>(16, ZERO_ADDRESS)

  datatype Config = Config(admin: Pubkey, eobChainId: u64, eobMasterSmartContract: Bytes32, nonce: u64)

  datatype ProtocolInfo = ProtocolInfo(
    isInit: bool,
    consensusTargetRate: u64,
    protocolAddress: Pubkey,
    transmitters: TransmitterSlots,
    executors: KeySlots,
    proposers: KeySlots)

  datatype OpInfo = OpInfo(status: OpStatus, uniqueSigners: SignerSlots, opData: OperationData)

  const DEFAULT_CONFIG := Config(ZERO_KEY, 0, ZERO_WORD, 0)
  const NO_TRANSMITTERS: TransmitterSlots := Repeat<EthAddress>(20, ZERO_ADDRESS)
  const NO_KEYS: KeySlots := Repeat<Pubkey>(20, ZERO_KEY)
  const NO_SIGNERS: SignerSlots := Repeat<EthAddress>(16, ZERO_ADDRESS)
  const DEFAULT_PROTOCOL := ProtocolInfo(false, 0, ZERO_KEY, NO_TRANSMITTERS, NO_KEYS, NO_KEYS)

  datatype Event =
    | ProposalLoaded(opHash: seq<byte>, executor: Pubkey)
    | ProposalApproved(opHash: seq<byte>, executor: Pubkey)
    | ProposalExecuted(opHash: seq<byte>, executor: Pubkey)
    | ProposeEvent(protocolId: seq<byte>, nonce: u64, dstChainId: u128, protocolAddress: seq<byte>,
                   functionSelector: seq<byte>, params: seq<byte>)

  /** The program's errors, and the ways the runtime rejects a transaction. */
  datatype Error =
    | IsNotAdmin
    | InvalidSignature
    | OpIsNotForThisChain
    | InvalidEndpoint
    | OpStateInvalid
    | CachedOpHashMismatch
    | ProtocolAddressMismatch
    | ExecutorIsNotAllowed
    | ProposerIsNotAllowed
    | InvalidProtoMsg
    | InvalidGovMsg
    | InvalidMethodSelector
    | InvalidOpData
    | ProtocolAddressNotProvided
    | NoTransmittersAllowed
    | MaxTransmittersExceeded
    | MaxExecutorsExceeded
    | ExecutorIsAlreadyAllowed
    | ProposerIsAlreadyAllowed
    | TryingToRemoveLastGovExecutor
    | InvalidExecutorAddress
    | InvalidProposerAddress
    | MaxProposersExceeded
    | ConsensusTargetRateTooLow
    | ConsensusTargetRateTooHigh
    | SelectorTooBig
    | RequireViolated
    | ConstraintAddress
    | AccountNotInitialized
    | AccountAlreadyInUse
    | CallFailed
    | Panicked

  /** The ABI decoder, one function for each parameter scheme (gov.rs:504-555). */
  datatype Abi = Abi(
    protocol: seq<byte> -> Option<(Bytes32, nat, seq<EthAddress>)>,
    bytes: seq<byte> -> Option<(Bytes32, seq<byte>)>,
    list: seq<byte> -> Option<(Bytes32, seq<EthAddress>)>,
    lists: seq<byte> -> Option<(Bytes32, seq<EthAddress>, seq<EthAddress>)>,
    rate: seq<byte> -> Option<(Bytes32, nat)>)

  /** What the program is built with and calls: cryptography, the ABI decoder, the build's constants. */
  datatype Env = Env(crypto: Crypto, abi: Abi, chainId: u128, deployer: Pubkey, programId: Pubkey)
}
