/** The governance handlers as they rewrite the deserialised accounts in place (programs/entangle-photon-sol/src/gov.rs). */
module GovAccounts {
  import opened Wrappers
  import opened Bytes
  import opened FixedList
  import opened ProtocolData
  import opened State
  import opened Gov

  class ConfigAccount {
    var admin: Pubkey
    var eobChainId: u64
    var eobMasterSmartContract: Bytes32
    var nonce: u64

    constructor (config: Config)
      ensures Value() == config
    {
      admin := config.admin;
      eobChainId := config.eobChainId;
      eobMasterSmartContract := config.eobMasterSmartContract;
      nonce := config.nonce;
    }

    function Value(): Config
      reads this
    {
      Config(admin, eobChainId, eobMasterSmartContract, nonce)
    }
  }

  /** `array = Default::default()` followed by the write-back loop. */
  method FreshSlots<T(0)>(list: seq<T>, n: nat, zero: T) returns (slots: array<T>)
    requires |list| <= n
    ensures fresh(slots) && slots[..] == Pad(list, n, zero)
  {
    slots := new T[n](_ => zero);
    for i := 0 to |list|
      invariant slots[..] == Pad(list[..i], n, zero)
    {
      slots[i] := list[i];
    }
  }

  /** `slots[i] = k` for each k in turn; false is the panic on running off the end. */
  method Overwrite<T>(slots: array<T>, list: seq<T>) returns (fits: bool)
    modifies slots
    ensures fits <==> |list| <= slots.Length
    ensures fits ==> slots[..] == list + old(slots[..])[|list|..]
  {
    for i := 0 to |list|
      invariant i <= slots.Length
      invariant forall k :: 0 <= k < i ==> slots[k] == list[k]
      invariant forall k :: i <= k < slots.Length ==> slots[k] == old(slots[k])
    {
      if i >= slots.Length {
        return false;
      }
      slots[i] := list[i];
    }
    return true;
  }

  class ProtocolAccount {
    var isInit: bool
    var consensusTargetRate: u64
    var protocolAddress: Pubkey
    var transmitters: array<EthAddress>
    var executors: array<Pubkey>
    var proposers: array<Pubkey>

    ghost predicate Valid()
      reads this
    {
      && transmitters.Length == MAX_TRANSMITTERS && executors.Length == MAX_EXECUTORS && proposers.Length == MAX_PROPOSERS
      && transmitters as object != executors && transmitters as object != proposers
    }

    function Value(): ProtocolInfo
      requires Valid()
      reads this, transmitters, executors, proposers
    {
      ProtocolInfo(isInit, consensusTargetRate, protocolAddress, transmitters[..], executors[..], proposers[..])
    }

    constructor (info: ProtocolInfo)
      ensures Valid() && Value() == info
      ensures fresh(transmitters) && fresh(executors) && fresh(proposers)
    {
      isInit := info.isInit;
      consensusTargetRate := info.consensusTargetRate;
      protocolAddress := info.protocolAddress;
      transmitters := new EthAddress[MAX_TRANSMITTERS](i requires 0 <= i < MAX_TRANSMITTERS => info.transmitters[i]);
      executors := new Pubkey[MAX_EXECUTORS](i requires 0 <= i < MAX_EXECUTORS => info.executors[i]);
      proposers := new Pubkey[MAX_PROPOSERS](i requires 0 <= i < MAX_PROPOSERS => info.proposers[i]);
    }

    /** The assignments of `initialize`; the proposers stay. */
    method SetUp(programId: Pubkey, rate: u64, transmitterList: seq<EthAddress>, executorList: seq<Pubkey>)
      requires Valid() && |transmitterList| <= MAX_TRANSMITTERS && |executorList| <= MAX_EXECUTORS
      modifies this
      ensures Valid()
      ensures Value() == old(Value()).(
                isInit := true, protocolAddress := programId, consensusTargetRate := rate,
                transmitters := Pad(transmitterList, MAX_TRANSMITTERS, ZERO_ADDRESS),
                executors := Pad(executorList, MAX_EXECUTORS, ZERO_KEY))
    {
      isInit := true;
      protocolAddress := programId;
      consensusTargetRate := rate;
      transmitters := FreshSlots(transmitterList, MAX_TRANSMITTERS, ZERO_ADDRESS);
      executors := FreshSlots(executorList, MAX_EXECUTORS, ZERO_KEY);
    }

    method AddExecutor(key: Pubkey) returns (r: Result<(), Error>)
      requires Valid()
      modifies this
      ensures Valid()
      ensures match AddExecutorTo(old(Value()), key)
              case Ok(info) => r == Ok(()) && Value() == info
              case Err(e) => r == Err(e)
    {
      if key == ZERO_KEY {
        return Err(InvalidExecutorAddress);
      }
      var list := TakeNonzero(executors[..], ZERO_KEY);
      if key in list {
        return Err(ExecutorIsAlreadyAllowed);
      }
      if |list| >= MAX_EXECUTORS {
        return Err(MaxExecutorsExceeded);
      }
      executors := FreshSlots(list + [key], MAX_EXECUTORS, ZERO_KEY);
      return Ok(());
    }

    method RemoveExecutor(opProtocolId: seq<byte>, key: Pubkey) returns (r: Result<(), Error>)
      requires Valid()
      modifies this
      ensures Valid()
      ensures match RemoveExecutorFrom(old(Value()), opProtocolId, key)
              case Ok(info) => r == Ok(()) && Value() == info
              case Err(e) => r == Err(e)
    {
      var list := Without(TakeNonzero(executors[..], ZERO_KEY), key);
      ExcludingProperties(TakeNonzero(executors[..], ZERO_KEY), [key]);
      if list == [] && opProtocolId == GOV_PROTOCOL_ID {
        return Err(TryingToRemoveLastGovExecutor);
      }
      executors := FreshSlots(list, MAX_EXECUTORS, ZERO_KEY);
      return Ok(());
    }

    method AddProposer(key: Pubkey) returns (r: Result<(), Error>)
      requires Valid()
      modifies this
      ensures Valid()
      ensures match AddProposerTo(old(Value()), key)
              case Ok(info) => r == Ok(()) && Value() == info
              case Err(e) => r == Err(e)
    {
      var list := TakeNonzero(proposers[..], ZERO_KEY);
      if key == ZERO_KEY {
        return Err(InvalidProposerAddress);
      }
      if key in list {
        return Err(ProposerIsAlreadyAllowed);
      }
      if |list| >= MAX_PROPOSERS {
        return Err(MaxProposersExceeded);
      }
      proposers := FreshSlots(list + [key], MAX_PROPOSERS, ZERO_KEY);
      return Ok(());
    }

    method RemoveProposer(key: Pubkey)
      requires Valid()
      modifies this
      ensures Valid() && Value() == RemoveProposerFrom(old(Value()), key)
    {
      var list := Without(TakeNonzero(proposers[..], ZERO_KEY), key);
      ExcludingProperties(TakeNonzero(proposers[..], ZERO_KEY), [key]);
      proposers := FreshSlots(list, MAX_PROPOSERS, ZERO_KEY);
    }

    method AddTransmitters(toAdd: seq<EthAddress>) returns (r: Result<(), Error>)
      requires Valid()
      modifies this
      ensures Valid()
      ensures match AddTransmittersTo(old(Value()), toAdd)
              case Ok(info) => r == Ok(()) && Value() == info
              case Err(e) => r == Err(e)
    {
      var total := Dedup(TakeNonzero(transmitters[..], ZERO_ADDRESS) + toAdd);
      if |total| >= MAX_TRANSMITTERS {
        return Err(MaxTransmittersExceeded);
      }
      transmitters := FreshSlots(total, MAX_TRANSMITTERS, ZERO_ADDRESS);
      return Ok(());
    }

    method RemoveTransmitters(toRemove: seq<EthAddress>)
      requires Valid()
      modifies this
      ensures Valid() && Value() == RemoveTransmittersFrom(old(Value()), toRemove)
    {
      var total := Excluding(TakeNonzero(transmitters[..], ZERO_ADDRESS), toRemove);
      ExcludingProperties(TakeNonzero(transmitters[..], ZERO_ADDRESS), toRemove);
      transmitters := FreshSlots(total, MAX_TRANSMITTERS, ZERO_ADDRESS);
    }

    method UpdateTransmitters(added: seq<EthAddress>, toRemove: seq<EthAddress>) returns (r: Result<(), Error>)
      requires Valid()
      modifies this
      ensures Valid()
      ensures match UpdateTransmittersOf(old(Value()), added, toRemove)
              case Ok(info) => r == Ok(()) && Value() == info
              case Err(e) => r == Err(e)
    {
      if toRemove != [] {
        RemoveTransmitters(toRemove);
      }
      var toAdd := Without(added, ZERO_ADDRESS);
      if toAdd != [] {
        r := AddTransmitters(toAdd);
      } else {
        r := Ok(());
      }
    }

    /** Overwrites the first slots in place; the slots after them keep what they held. */
    method AddAllowedProtocol(env: Env, config: ConfigAccount, protocolId: Bytes32, rate: nat, list: seq<EthAddress>)
      returns (r: Result<seq<Event>, Error>)
      requires Valid()
      modifies this, transmitters, config
      ensures Valid()
      ensures match AddAllowedProtocolTo(env, old(config.Value()), old(Value()), protocolId, rate, list)
              case Ok(e) => r == Ok(e.events) && config.Value() == e.config && Value() == e.info
              case Err(e) => r == Err(e)
    {
      var checked := CheckRate(rate);
      if checked.Err? {
        return Err(checked.error);
      }
      isInit := true;
      consensusTargetRate := checked.value;
      var fits := Overwrite(transmitters, list);
      if !fits {
        return Err(Panicked);
      }
      var nonce := config.nonce;
      if nonce == U64_MAX {
        return Err(Panicked);
      }
      var announced := ProtocolAddedEvent(env, config.Value(), protocolId);
      config.nonce := nonce + 1;
      return Ok([announced]);
    }
  }

  /** `handle_gov_operation`. */
  method HandleGovOperation(env: Env, config: ConfigAccount, target: ProtocolAccount, code: seq<byte>, op: OperationData)
    returns (r: Result<seq<Event>, Error>)
    requires target.Valid()
    modifies config, target, target.transmitters
    ensures target.Valid()
    ensures match HandleGov(env, old(config.Value()), old(target.Value()), code, op)
            case Ok(e) => r == Ok(e.events) && config.Value() == e.config && target.Value() == e.info
            case Err(e) => r == Err(e)
  {
    var parsed := ParseSelector(code);
    if parsed.None? {
      return Err(InvalidMethodSelector);
    }
    if parsed.value.AddAllowedProtocol? {
      var t := OrInvalid(env.abi.protocol(op.params));
      if t.Err? {
        return Err(t.error);
      }
      r := target.AddAllowedProtocol(env, config, t.value.0, t.value.1, t.value.2);
      return;
    }
    var done := UpdateTarget(env.abi, target, parsed.value, op);
    return if done.Ok? then Ok([]) else Err(done.error);
  }

  method UpdateTarget(abi: Abi, target: ProtocolAccount, gov: GovOperation, op: OperationData) returns (r: Result<(), Error>)
    requires target.Valid() && !gov.AddAllowedProtocol?
    modifies target
    ensures target.Valid()
    ensures match UpdateInfo(abi, old(target.Value()), gov, op)
            case Ok(info) => r == Ok(()) && target.Value() == info
            case Err(e) => r == Err(e)
  {
    match gov
    case AddAllowedProtocolAddress =>
      var key := DecodedKey(abi, op);
      if key.Err? {
        return Err(key.error);
      }
      target.protocolAddress := key.value;
      return Ok(());
    case RemoveAllowedProtocolAddress =>
      target.protocolAddress := ZERO_KEY;
      return Ok(());
    case AddAllowedProposerAddress =>
      var key := DecodedKey(abi, op);
      if key.Err? {
        return Err(key.error);
      }
      r := target.AddProposer(key.value);
    case RemoveAllowedProposerAddress =>
      var key := DecodedKey(abi, op);
      if key.Err? {
        return Err(key.error);
      }
      target.RemoveProposer(key.value);
      return Ok(());
    case AddExecutor =>
      var key := DecodedKey(abi, op);
      if key.Err? {
        return Err(key.error);
      }
      r := target.AddExecutor(key.value);
    case RemoveExecutor =>
      var key := DecodedKey(abi, op);
      if key.Err? {
        return Err(key.error);
      }
      r := target.RemoveExecutor(op.protocolId, key.value);
    case AddTransmitters =>
      var t := OrInvalid(abi.list(op.params));
      if t.Err? {
        return Err(t.error);
      }
      var toAdd := Without(t.value.1, ZERO_ADDRESS);
      if toAdd == [] {
        return Err(NoTransmittersAllowed);
      }
      r := target.AddTransmitters(toAdd);
    case RemoveTransmitters =>
      var t := OrInvalid(abi.list(op.params));
      if t.Err? {
        return Err(t.error);
      }
      target.RemoveTransmitters(t.value.1);
      return Ok(());
    case UpdateTransmitters =>
      var t := OrInvalid(abi.lists(op.params));
      if t.Err? {
        return Err(t.error);
      }
      r := target.UpdateTransmitters(t.value.1, t.value.2);
    case SetConsensusTargetRate =>
      var t := OrInvalid(abi.rate(op.params));
      if t.Err? {
        return Err(t.error);
      }
      var checked := CheckRate(t.value.1);
      if checked.Err? {
        return Err(checked.error);
      }
      target.consensusTargetRate := checked.value;
      return Ok(());
  }
}
