/** Governance operations on one protocol's record (programs/entangle-photon-sol/src/gov.rs). */
module Gov {
  import opened Wrappers
  import opened Bytes
  import opened FixedList
  import opened Quorum
  import opened ProtocolData
  import opened State

  datatype GovOperation =
    | AddAllowedProtocol
    | AddAllowedProtocolAddress
    | RemoveAllowedProtocolAddress
    | AddAllowedProposerAddress
    | RemoveAllowedProposerAddress
    | AddExecutor
    | RemoveExecutor
    | AddTransmitters
    | RemoveTransmitters
    | UpdateTransmitters
    | SetConsensusTargetRate

  /** The operation named by the first four bytes of a selector code. */
  function ParseSelector(code: seq<byte>): Option<GovOperation> {
    if |code| < 4 then None
    else match FromBigEndian(code[..4])
      case 0x45a004b9 => Some(AddAllowedProtocol)
      case 0xd296a0ff => Some(AddAllowedProtocolAddress)
      case 0xb0a4ca98 => Some(RemoveAllowedProtocolAddress)
      case 0xce0940a5 => Some(AddAllowedProposerAddress)
      case 0xb8e5f3f4 => Some(RemoveAllowedProposerAddress)
      case 0xe0aafb68 => Some(AddExecutor)
      case 0x04fa384a => Some(RemoveExecutor)
      case 0x6c5f5666 => Some(AddTransmitters)
      case 0x5206da70 => Some(RemoveTransmitters)
      case 0x654b46e1 => Some(UpdateTransmitters)
      case 0x970b6109 => Some(SetConsensusTargetRate)
      case _ => None
  }

  function OrInvalid<T>(decoded: Option<T>): Result<T, Error> {
    match decoded
    case None => Err(InvalidProtoMsg)
    case Some(x) => Ok(x)
  }

  /** `target_protocol`: the first decoded parameter; every failure is a panic. */
  function TargetProtocol(abi: Abi, selector: FunctionSelector, params: seq<byte>): Option<Bytes32> {
    if !selector.ByCode? then None
    else match ParseSelector(selector.code)
      case None => None
      case Some(AddAllowedProtocol) => (match abi.protocol(params) case None => None case Some(t) => Some(t.0))
      case Some(AddTransmitters) => (match abi.list(params) case None => None case Some(t) => Some(t.0))
      case Some(RemoveTransmitters) => (match abi.list(params) case None => None case Some(t) => Some(t.0))
      case Some(UpdateTransmitters) => (match abi.lists(params) case None => None case Some(t) => Some(t.0))
      case Some(SetConsensusTargetRate) => (match abi.rate(params) case None => None case Some(t) => Some(t.0))
      case Some(_) => (match abi.bytes(params) case None => None case Some(t) => Some(t.0))
  }

  // ---- The lists a record stands for, and their updates ----

  function Transmitters(info: ProtocolInfo): seq<EthAddress> {
    TakeNonzero(info.transmitters, ZERO_ADDRESS)
  }

  function Executors(info: ProtocolInfo): seq<Pubkey> {
    TakeNonzero(info.executors, ZERO_KEY)
  }

  function Proposers(info: ProtocolInfo): seq<Pubkey> {
    TakeNonzero(info.proposers, ZERO_KEY)
  }

  /** The lists of a record are its slots before the first zero. */
  lemma ListsAreSlotsBeforeZero(info: ProtocolInfo)
    ensures var n := |Transmitters(info)|;
            && n <= 20 && Transmitters(info) == info.transmitters[..n] && (forall i :: 0 <= i < n ==> info.transmitters[i] != Zeros(20))
            && (n < 20 ==> info.transmitters[n] == Zeros(20))
    ensures var n := |Executors(info)|;
            && n <= 20 && Executors(info) == info.executors[..n] && (forall i :: 0 <= i < n ==> info.executors[i] != Zeros(32))
            && (n < 20 ==> info.executors[n] == Zeros(32))
    ensures var n := |Proposers(info)|;
            && n <= 20 && Proposers(info) == info.proposers[..n] && (forall i :: 0 <= i < n ==> info.proposers[i] != Zeros(32))
            && (n < 20 ==> info.proposers[n] == Zeros(32))
  {
  }

  /** `Vec::dedup`: of equal neighbours one stays. */
  function Dedup<T(==)>(s: seq<T>): seq<T> {
    if |s| < 2 then s
    else if s[0] == s[1] then Dedup(s[1..])
    else [s[0]] + Dedup(s[1..])
  }

  function CheckRate(rate: nat): Result<u64, Error> {
    if rate > U64_MAX then Err(Panicked)
    else if rate == 0 then Err(ConsensusTargetRateTooLow)
    else if rate > RATE_DECIMALS then Err(ConsensusTargetRateTooHigh)
    else Ok(rate)
  }

  function AsKey(b: seq<byte>): Result<Pubkey, Error> {
    if |b| == 32 then Ok(b) else Err(InvalidGovMsg)
  }

  /** The 32-byte address carried by the address, proposer and executor messages. */
  function DecodedKey(abi: Abi, op: OperationData): Result<Pubkey, Error> {
    var t :- OrInvalid(abi.bytes(op.params));
    AsKey(t.1)
  }

  function AddExecutorTo(info: ProtocolInfo, key: Pubkey): Result<ProtocolInfo, Error> {
    if key == ZERO_KEY then Err(InvalidExecutorAddress)
    else if key in Executors(info) then Err(ExecutorIsAlreadyAllowed)
    else if |Executors(info)| >= MAX_EXECUTORS then Err(MaxExecutorsExceeded)
    else Ok(info.(executors := Pad(Executors(info) + [key], MAX_EXECUTORS, ZERO_KEY)))
  }

  function RemoveExecutorFrom(info: ProtocolInfo, opProtocolId: seq<byte>, key: Pubkey): Result<ProtocolInfo, Error> {
    var left := Without(Executors(info), key);
    ExcludingProperties(Executors(info), [key]);
    if left == [] && opProtocolId == GOV_PROTOCOL_ID then Err(TryingToRemoveLastGovExecutor)
    else Ok(info.(executors := Pad(left, MAX_EXECUTORS, ZERO_KEY)))
  }

  function AddProposerTo(info: ProtocolInfo, key: Pubkey): Result<ProtocolInfo, Error> {
    if key == ZERO_KEY then Err(InvalidProposerAddress)
    else if key in Proposers(info) then Err(ProposerIsAlreadyAllowed)
    else if |Proposers(info)| >= MAX_PROPOSERS then Err(MaxProposersExceeded)
    else Ok(info.(proposers := Pad(Proposers(info) + [key], MAX_PROPOSERS, ZERO_KEY)))
  }

  function RemoveProposerFrom(info: ProtocolInfo, key: Pubkey): ProtocolInfo {
    ExcludingProperties(Proposers(info), [key]);
    info.(proposers := Pad(Without(Proposers(info), key), MAX_PROPOSERS, ZERO_KEY))
  }

  /** `add_transmitters_impl`: note that a full list of 20 is refused, and only neighbours are de-duplicated. */
  function AddTransmittersTo(info: ProtocolInfo, toAdd: seq<EthAddress>): Result<ProtocolInfo, Error> {
    var total := Dedup(Transmitters(info) + toAdd);
    if |total| >= MAX_TRANSMITTERS then Err(MaxTransmittersExceeded)
    else Ok(info.(transmitters := Pad(total, MAX_TRANSMITTERS, ZERO_ADDRESS)))
  }

  function RemoveTransmittersFrom(info: ProtocolInfo, toRemove: seq<EthAddress>): ProtocolInfo {
    ExcludingProperties(Transmitters(info), toRemove);
    info.(transmitters := Pad(Excluding(Transmitters(info), toRemove), MAX_TRANSMITTERS, ZERO_ADDRESS))
  }

  function UpdateTransmittersOf(info: ProtocolInfo, added: seq<EthAddress>, toRemove: seq<EthAddress>): Result<ProtocolInfo, Error> {
    var kept := if toRemove == [] then info else RemoveTransmittersFrom(info, toRemove);
    var toAdd := Without(added, ZERO_ADDRESS);
    if toAdd == [] then Ok(kept) else AddTransmittersTo(kept, toAdd)
  }

  // ---- The announcement made when a protocol is added ----

  const HANDLE_ADD_ALLOWED_PROTOCOL_SELECTOR: Bytes32 := [0xba, 0x96, 0x6e, 0x5f] + Zeros(28)

  function ProtocolAddedEvent(env: Env, config: Config, protocolId: Bytes32): Event {
    ProposeEvent(GOV_PROTOCOL_ID, config.nonce, config.eobChainId, config.eobMasterSmartContract,
                 [0, 32] + HANDLE_ADD_ALLOWED_PROTOCOL_SELECTOR,
                 protocolId + U128ToBytes32(env.chainId))
  }

  datatype Effect = Effect(config: Config, info: ProtocolInfo, events: seq<Event>)

  function AddAllowedProtocolTo(env: Env, config: Config, info: ProtocolInfo,
                                protocolId: Bytes32, rate: nat, transmitters: seq<EthAddress>): Result<Effect, Error> {
    var checked :- CheckRate(rate);
    if |transmitters| > MAX_TRANSMITTERS || config.nonce == U64_MAX then Err(Panicked)
    else
      Ok(Effect(config.(nonce := config.nonce + 1),
                info.(isInit := true, consensusTargetRate := checked,
                      transmitters := transmitters + info.transmitters[|transmitters|..]),
                [ProtocolAddedEvent(env, config, protocolId)]))
  }

  /** The handlers that touch the target's record only. */
  function UpdateInfo(abi: Abi, info: ProtocolInfo, gov: GovOperation, op: OperationData): Result<ProtocolInfo, Error>
    requires !gov.AddAllowedProtocol?
  {
    match gov
    case AddAllowedProtocolAddress =>
      var key :- DecodedKey(abi, op);
      Ok(info.(protocolAddress := key))
    case RemoveAllowedProtocolAddress =>
      Ok(info.(protocolAddress := ZERO_KEY))
    case AddAllowedProposerAddress =>
      var key :- DecodedKey(abi, op);
      AddProposerTo(info, key)
    case RemoveAllowedProposerAddress =>
      var key :- DecodedKey(abi, op);
      Ok(RemoveProposerFrom(info, key))
    case AddExecutor =>
      var key :- DecodedKey(abi, op);
      AddExecutorTo(info, key)
    case RemoveExecutor =>
      var key :- DecodedKey(abi, op);
      RemoveExecutorFrom(info, op.protocolId, key)
    case AddTransmitters =>
      var t :- OrInvalid(abi.list(op.params));
      var toAdd := Without(t.1, ZERO_ADDRESS);
      if toAdd == [] then Err(NoTransmittersAllowed) else AddTransmittersTo(info, toAdd)
    case RemoveTransmitters =>
      var t :- OrInvalid(abi.list(op.params));
      Ok(RemoveTransmittersFrom(info, t.1))
    case UpdateTransmitters =>
      var t :- OrInvalid(abi.lists(op.params));
      UpdateTransmittersOf(info, t.1, t.2)
    case SetConsensusTargetRate =>
      var t :- OrInvalid(abi.rate(op.params));
      var checked :- CheckRate(t.1);
      Ok(info.(consensusTargetRate := checked))
  }

  /** `handle_gov_operation`. */
  function HandleGov(env: Env, config: Config, info: ProtocolInfo, code: seq<byte>, op: OperationData): Result<Effect, Error> {
    match ParseSelector(code)
    case None => Err(InvalidMethodSelector)
    case Some(gov) =>
      if gov.AddAllowedProtocol? then
        var t :- OrInvalid(env.abi.protocol(op.params));
        AddAllowedProtocolTo(env, config, info, t.0, t.1, t.2)
      else
        var info' :- UpdateInfo(env.abi, info, gov, op);
        Ok(Effect(config, info', []))
  }

  // ---- What the handlers do to the lists ----

  lemma {:induction false} DedupProperties<T>(s: seq<T>)
    ensures |Dedup(s)| <= |s| && (s != [] ==> Dedup(s) != [] && Dedup(s)[0] == s[0])
    ensures ToSet(Dedup(s)) == ToSet(s)
    ensures forall i :: 0 <= i < |Dedup(s)| - 1 ==> Dedup(s)[i] != Dedup(s)[i + 1]
  {
    if |s| >= 2 {
      DedupProperties(s[1..]);
      assert s == [s[0]] + s[1..];
      if s[0] != s[1] {
        assert ToSet(Dedup(s)) == {s[0]} + ToSet(Dedup(s[1..]));
      }
      assert ToSet(s) == {s[0]} + ToSet(s[1..]);
    }
  }

  /** Equal elements stand next to each other. */
  predicate Grouped<T(==)>(s: seq<T>) {
    forall i, j, k :: 0 <= i < j < k < |s| && s[i] == s[k] ==> s[j] == s[i]
  }

  lemma GroupedTail<T>(s: seq<T>)
    requires |s| >= 2
    ensures Grouped(s) <==> Grouped(s[1..]) && (s[0] == s[1] || s[0] !in s[1..])
  {
    var t := s[1..];
    assert forall i :: 0 <= i < |t| ==> t[i] == s[i + 1];
    if Grouped(s) {
      forall i, j, k | 0 <= i < j < k < |t| && t[i] == t[k]
        ensures t[j] == t[i]
      {
        assert s[i + 1] == s[k + 1] && s[j + 1] == t[j];
      }
      if s[0] in t {
        var k :| 0 <= k < |t| && t[k] == s[0];
        assert s[k + 1] == s[0];
      }
    }
    if Grouped(t) && (s[0] == s[1] || s[0] !in t) {
      forall i, j, k | 0 <= i < j < k < |s| && s[i] == s[k]
        ensures s[j] == s[i]
      {
        assert s[k] == t[k - 1] && s[j] == t[j - 1];
        if i > 0 {
          assert s[i] == t[i - 1];
        } else {
          assert s[0] in t && s[1] == t[0];
        }
      }
    }
  }

  /** The result is free of repeats exactly when equal entries stood next to each other. */
  lemma {:induction false} DedupDistinctExactly<T>(s: seq<T>)
    ensures Distinct(Dedup(s)) <==> Grouped(s)
  {
    if |s| >= 2 {
      DedupDistinctExactly(s[1..]);
      GroupedTail(s);
      DedupProperties(s[1..]);
      var d := Dedup(s[1..]);
      assert s[0] in d <==> s[0] in s[1..] by {
        assert s[0] in ToSet(d) <==> s[0] in ToSet(s[1..]);
      }
      if s[0] != s[1] {
        assert Dedup(s) == [s[0]] + d;
        DistinctCons(s[0], d);
      }
    }
  }

  lemma DistinctCons<T>(x: T, s: seq<T>)
    ensures Distinct([x] + s) <==> x !in s && Distinct(s)
  {
    var t := [x] + s;
    assert forall i :: 0 <= i < |s| ==> t[i + 1] == s[i];
    if Distinct(t) {
      forall i | 0 <= i < |s|
        ensures s[i] != x && forall j :: i < j < |s| ==> s[i] != s[j]
      {
        assert t[0] != t[i + 1];
        assert forall j :: i < j < |s| ==> t[j + 1] == s[j];
      }
    }
  }

  predicate TransmittersOk(slots: TransmitterSlots) {
    Compact(slots, ZERO_ADDRESS)
  }

  predicate KeysOk(slots: KeySlots) {
    Compact(slots, ZERO_KEY) && Distinct(TakeNonzero(slots, ZERO_KEY))
  }

  /** A record is well formed when its arrays are compact, its key lists have no repeats and its rate is in range. */
  predicate WellFormed(info: ProtocolInfo) {
    && TransmittersOk(info.transmitters)
    && KeysOk(info.executors)
    && KeysOk(info.proposers)
    && info.consensusTargetRate <= RATE_DECIMALS
    && (info.isInit ==> info.consensusTargetRate >= 1)
  }

  lemma AddTransmittersProperties(info: ProtocolInfo, toAdd: seq<EthAddress>)
    requires ZERO_ADDRESS !in toAdd
    ensures AddTransmittersTo(info, toAdd).Ok?
            <==> |Dedup(Transmitters(info) + toAdd)| < MAX_TRANSMITTERS
    ensures AddTransmittersTo(info, toAdd).Ok? ==>
              var info' := AddTransmittersTo(info, toAdd).value;
              && Transmitters(info') == Dedup(Transmitters(info) + toAdd)
              && ToSet(Transmitters(info')) == ToSet(Transmitters(info)) + ToSet(toAdd)
              && |Transmitters(info')| < MAX_TRANSMITTERS
              && Compact(info'.transmitters, ZERO_ADDRESS)
  {
    var joined := Transmitters(info) + toAdd;
    DedupProperties(joined);
    assert ToSet(joined) == ToSet(Transmitters(info)) + ToSet(toAdd);
    assert ZERO_ADDRESS !in ToSet(joined);
    assert ZERO_ADDRESS !in ToSet(Dedup(joined));
    if |Dedup(joined)| < MAX_TRANSMITTERS {
      ListOfPadded(Dedup(joined), MAX_TRANSMITTERS, ZERO_ADDRESS);
    }
  }

  /** Adding a transmitter again that is not the last one repeats it. */
  lemma AddingAgainRepeats(info: ProtocolInfo, a: EthAddress, b: EthAddress)
    requires a != b && a != ZERO_ADDRESS && Transmitters(info) == [a, b]
    ensures AddTransmittersTo(info, [a]).Ok?
    ensures Transmitters(AddTransmittersTo(info, [a]).value) == [a, b, a]
    ensures AddTransmittersTo(info, [a]).value.consensusTargetRate == info.consensusTargetRate
  {
    AddTransmittersProperties(info, [a]);
    var s := [a, b] + [a];
    assert s[1..] == [b, a] && [b, a][1..] == [a];
    assert Dedup([b, a]) == [b] + [a];
    assert Dedup(s) == [a, b, a];
  }

  lemma RemoveTransmittersProperties(info: ProtocolInfo, toRemove: seq<EthAddress>)
    ensures var info' := RemoveTransmittersFrom(info, toRemove);
            && ToSet(Transmitters(info')) == ToSet(Transmitters(info)) - ToSet(toRemove)
            && Compact(info'.transmitters, ZERO_ADDRESS)
  {
    ExcludingProperties(Transmitters(info), toRemove);
    ExcludingSet(Transmitters(info), toRemove);
    var left := Excluding(Transmitters(info), toRemove);
    ListOfPadded(left, MAX_TRANSMITTERS, ZERO_ADDRESS);
  }

  /** UpdateTransmitters leaves the set (old minus removed) union the nonzero added. */
  lemma UpdateTransmittersSet(info: ProtocolInfo, added: seq<EthAddress>, toRemove: seq<EthAddress>)
    requires UpdateTransmittersOf(info, added, toRemove).Ok?
    ensures ToSet(Transmitters(UpdateTransmittersOf(info, added, toRemove).value))
         == (ToSet(Transmitters(info)) - ToSet(toRemove)) + (ToSet(added) - {ZERO_ADDRESS})
    ensures Compact(info.transmitters, ZERO_ADDRESS) ==>
              Compact(UpdateTransmittersOf(info, added, toRemove).value.transmitters, ZERO_ADDRESS)
  {
    var kept := if toRemove == [] then info else RemoveTransmittersFrom(info, toRemove);
    if toRemove == [] {
      assert ToSet(toRemove) == {};
    } else {
      RemoveTransmittersProperties(info, toRemove);
    }
    ExcludingProperties(added, [ZERO_ADDRESS]);
    ExcludingSet(added, [ZERO_ADDRESS]);
    var toAdd := Without(added, ZERO_ADDRESS);
    assert ToSet([ZERO_ADDRESS]) == {ZERO_ADDRESS};
    AddTransmittersProperties(kept, toAdd);
  }

  lemma {:induction false} TakeNonzeroAppend<T>(s: seq<T>, t: seq<T>, zero: T)
    ensures TakeNonzero(s + t, zero) == if zero in s then TakeNonzero(s, zero) else s + TakeNonzero(t, zero)
  {
    if s == [] {
      assert s + t == t;
    } else {
      assert (s + t)[1..] == s[1..] + t;
      TakeNonzeroAppend(s[1..], t, zero);
    }
  }

  /** Written over the first slots of a compact array, a list leaves it compact exactly when it is compact itself and its zeros are not followed by old entries. */
  lemma OverwriteCompactExactly(slots: TransmitterSlots, ts: seq<EthAddress>)
    requires TransmittersOk(slots) && |ts| <= MAX_TRANSMITTERS
    ensures var before := TakeNonzero(slots, ZERO_ADDRESS);
            TransmittersOk(ts + slots[|ts|..]) <==> Compact(ts, ZERO_ADDRESS) && (ZERO_ADDRESS in ts ==> |before| <= |ts|)
  {
    var before, a := TakeNonzero(slots, ZERO_ADDRESS), ts + slots[|ts|..];
    forall i | 0 <= i < |slots|
      ensures slots[i] == ZERO_ADDRESS <==> i >= |before|
    {
      ListEndsAtFirstZero(slots, i);
    }
    if ZERO_ADDRESS in ts && |before| > |ts| {
      var i :| 0 <= i < |ts| && ts[i] == ZERO_ADDRESS;
      assert a[i] == ZERO_ADDRESS && a[|ts|] == slots[|ts|];
    }
    if TransmittersOk(a) {
      forall i, j | 0 <= i < j < |ts| && ts[i] == ZERO_ADDRESS
        ensures ts[j] == ZERO_ADDRESS
      {
        assert a[i] == ts[i] && a[j] == ts[j];
      }
    }
    if Compact(ts, ZERO_ADDRESS) && (ZERO_ADDRESS in ts ==> |before| <= |ts|) {
      forall i, j | 0 <= i < j < |a| && a[i] == ZERO_ADDRESS
        ensures a[j] == ZERO_ADDRESS
      {
        assert i < |ts| ==> ts[i] == ZERO_ADDRESS;
        assert j >= |ts| ==> a[j] == slots[j];
      }
    }
  }

  lemma ListEndsAtFirstZero(slots: TransmitterSlots, i: nat)
    requires TransmittersOk(slots) && i < |slots|
    ensures slots[i] == ZERO_ADDRESS <==> i >= |TakeNonzero(slots, ZERO_ADDRESS)|
  {
    var before := TakeNonzero(slots, ZERO_ADDRESS);
    if i < |before| {
      assert slots[i] == before[i];
    } else {
      assert slots[|before|] == ZERO_ADDRESS;
    }
  }

  /**
    AddAllowedProtocol writes the transmitters over the first slots and announces the protocol under the
    next number. A protocol added again keeps its old transmitters from the new list's length on, so the
    new list is what it has exactly when the old one was not longer.
  */
  lemma AddAllowedProtocolEffect(env: Env, config: Config, info: ProtocolInfo, id: Bytes32, rate: nat, ts: seq<EthAddress>)
    ensures AddAllowedProtocolTo(env, config, info, id, rate, ts).Ok?
            <==> 1 <= rate <= RATE_DECIMALS && |ts| <= MAX_TRANSMITTERS && config.nonce < U64_MAX
    ensures AddAllowedProtocolTo(env, config, info, id, rate, ts).Ok? ==>
              var e, before := AddAllowedProtocolTo(env, config, info, id, rate, ts).value, Transmitters(info);
              && Transmitters(e.info) == (if ZERO_ADDRESS in ts then TakeNonzero(ts, ZERO_ADDRESS)
                                          else ts + TakeNonzero(info.transmitters[|ts|..], ZERO_ADDRESS))
              && (TransmittersOk(info.transmitters) && ZERO_ADDRESS !in ts ==>
                    && Transmitters(e.info) == ts + (if |before| <= |ts| then [] else before[|ts|..])
                    && (Transmitters(e.info) == ts <==> |before| <= |ts|))
              && (TransmittersOk(info.transmitters) ==>
                    (TransmittersOk(e.info.transmitters) <==> Compact(ts, ZERO_ADDRESS) && (ZERO_ADDRESS in ts ==> |before| <= |ts|)))
              && Executors(e.info) == Executors(info) && Proposers(e.info) == Proposers(info)
              && |e.events| == 1 && e.events[0].nonce == config.nonce == e.config.nonce - 1
  {
    if AddAllowedProtocolTo(env, config, info, id, rate, ts).Ok? {
      TakeNonzeroAppend(ts, info.transmitters[|ts|..], ZERO_ADDRESS);
      if TransmittersOk(info.transmitters) {
        OverwriteCompactExactly(info.transmitters, ts);
        RestOfList(info.transmitters, |ts|);
      }
    }
  }

  /** The list in the slots from n on is the list from n on. */
  lemma RestOfList(slots: TransmitterSlots, n: nat)
    requires TransmittersOk(slots) && n <= MAX_TRANSMITTERS
    ensures var before := TakeNonzero(slots, ZERO_ADDRESS);
            TakeNonzero(slots[n..], ZERO_ADDRESS) == if |before| <= n then [] else before[n..]
  {
    var before := TakeNonzero(slots, ZERO_ADDRESS);
    if |before| <= n {
      assert n < |slots| ==> slots[n] == ZERO_ADDRESS;
    } else {
      assert before[n..] == slots[n..][..|before| - n];
      TakeNonzeroUnique(slots[n..], ZERO_ADDRESS, before[n..]);
    }
  }

  /** AddExecutor appends a new nonzero key to a list with room. */
  lemma AddExecutorRefinement(info: ProtocolInfo, key: Pubkey)
    ensures AddExecutorTo(info, key).Ok?
            <==> key != ZERO_KEY && key !in Executors(info) && |Executors(info)| < MAX_EXECUTORS
    ensures AddExecutorTo(info, key).Ok? ==>
              var info' := AddExecutorTo(info, key).value;
              Executors(info') == Executors(info) + [key] && Compact(info'.executors, ZERO_KEY)
  {
    if AddExecutorTo(info, key).Ok? {
      ListOfPadded(Executors(info) + [key], MAX_EXECUTORS, ZERO_KEY);
    }
  }

  /** RemoveExecutor drops the key, and is refused exactly when a governance operation would leave no executor. */
  lemma RemoveExecutorRefinement(info: ProtocolInfo, key: Pubkey, opProtocolId: seq<byte>)
    ensures RemoveExecutorFrom(info, opProtocolId, key).Err?
            <==> opProtocolId == GOV_PROTOCOL_ID && forall k :: k in Executors(info) ==> k == key
    ensures RemoveExecutorFrom(info, opProtocolId, key).Ok? ==>
              var info' := RemoveExecutorFrom(info, opProtocolId, key).value;
              && Executors(info') == Without(Executors(info), key)
              && ToSet(Executors(info')) == ToSet(Executors(info)) - {key}
              && Compact(info'.executors, ZERO_KEY)
              && (Distinct(Executors(info)) ==> Distinct(Executors(info')))
  {
    var left := Without(Executors(info), key);
    ExcludingProperties(Executors(info), [key]);
    ExcludingSet(Executors(info), [key]);
    ListOfPadded(left, MAX_EXECUTORS, ZERO_KEY);
    if left != [] {
      assert left[0] in left;
    }
    assert ToSet([key]) == {key};
  }

  lemma ProposerListRefinement(info: ProtocolInfo, key: Pubkey)
    ensures AddProposerTo(info, key).Ok?
            <==> key != ZERO_KEY && key !in Proposers(info) && |Proposers(info)| < MAX_PROPOSERS
    ensures AddProposerTo(info, key).Ok? ==>
              var info' := AddProposerTo(info, key).value;
              Proposers(info') == Proposers(info) + [key] && Compact(info'.proposers, ZERO_KEY)
    ensures var info' := RemoveProposerFrom(info, key);
            && Proposers(info') == Without(Proposers(info), key)
            && ToSet(Proposers(info')) == ToSet(Proposers(info)) - {key}
            && Compact(info'.proposers, ZERO_KEY)
            && (Distinct(Proposers(info)) ==> Distinct(Proposers(info')))
  {
    if AddProposerTo(info, key).Ok? {
      ListOfPadded(Proposers(info) + [key], MAX_PROPOSERS, ZERO_KEY);
    }
    ExcludingProperties(Proposers(info), [key]);
    ExcludingSet(Proposers(info), [key]);
    ListOfPadded(Without(Proposers(info), key), MAX_PROPOSERS, ZERO_KEY);
    assert ToSet([key]) == {key};
  }

  /** The transmitters a decoded AddAllowedProtocol message carries are nonzero. */
  predicate NonzeroMessages(abi: Abi, op: OperationData) {
    abi.protocol(op.params).Some? ==> ZERO_ADDRESS !in abi.protocol(op.params).value.2
  }

  lemma KeyUpdateKeepsWellFormed(abi: Abi, info: ProtocolInfo, gov: GovOperation, op: OperationData)
    requires gov in {AddAllowedProposerAddress, RemoveAllowedProposerAddress, AddExecutor, RemoveExecutor}
    requires WellFormed(info) && UpdateInfo(abi, info, gov, op).Ok?
    ensures var info' := UpdateInfo(abi, info, gov, op).value;
            WellFormed(info') && info'.isInit == info.isInit
  {
    var key := DecodedKey(abi, op).value;
    match gov
    case AddAllowedProposerAddress => ProposerListRefinement(info, key);
    case RemoveAllowedProposerAddress => ProposerListRefinement(info, key);
    case AddExecutor => AddExecutorRefinement(info, key);
    case RemoveExecutor => RemoveExecutorRefinement(info, key, op.protocolId);
  }

  lemma TransmitterUpdateKeepsWellFormed(abi: Abi, info: ProtocolInfo, gov: GovOperation, op: OperationData)
    requires gov in {AddTransmitters, RemoveTransmitters, UpdateTransmitters}
    requires WellFormed(info) && UpdateInfo(abi, info, gov, op).Ok?
    ensures var info' := UpdateInfo(abi, info, gov, op).value;
            WellFormed(info') && info'.isInit == info.isInit
  {
    match gov
    case AddTransmitters =>
      ExcludingProperties(abi.list(op.params).value.1, [ZERO_ADDRESS]);
      AddTransmittersProperties(info, Without(abi.list(op.params).value.1, ZERO_ADDRESS));
    case RemoveTransmitters => RemoveTransmittersProperties(info, abi.list(op.params).value.1);
    case UpdateTransmitters =>
      UpdateTransmittersSet(info, abi.lists(op.params).value.1, abi.lists(op.params).value.2);
  }

  lemma UpdateKeepsWellFormed(abi: Abi, info: ProtocolInfo, gov: GovOperation, op: OperationData)
    requires WellFormed(info) && !gov.AddAllowedProtocol? && UpdateInfo(abi, info, gov, op).Ok?
    ensures var info' := UpdateInfo(abi, info, gov, op).value;
            WellFormed(info') && info'.isInit == info.isInit
  {
    if gov in {AddAllowedProposerAddress, RemoveAllowedProposerAddress, AddExecutor, RemoveExecutor} {
      KeyUpdateKeepsWellFormed(abi, info, gov, op);
    } else if gov in {AddTransmitters, RemoveTransmitters, UpdateTransmitters} {
      TransmitterUpdateKeepsWellFormed(abi, info, gov, op);
    }
  }

  /** Every governance operation keeps its target well formed, and no protocol stops being initialised. */
  lemma GovKeepsWellFormed(env: Env, config: Config, info: ProtocolInfo, code: seq<byte>, op: OperationData)
    requires WellFormed(info) && NonzeroMessages(env.abi, op)
    requires HandleGov(env, config, info, code, op).Ok?
    ensures var e := HandleGov(env, config, info, code, op).value;
            WellFormed(e.info) && (info.isInit ==> e.info.isInit)
  {
    var gov := ParseSelector(code).value;
    if gov.AddAllowedProtocol? {
      OverwriteCompactExactly(info.transmitters, env.abi.protocol(op.params).value.2);
    } else {
      UpdateKeepsWellFormed(env.abi, info, gov, op);
    }
  }

  lemma GovKeepsInitialised(env: Env, config: Config, info: ProtocolInfo, code: seq<byte>, op: OperationData)
    requires HandleGov(env, config, info, code, op).Ok? && info.isInit
    ensures HandleGov(env, config, info, code, op).value.info.isInit
  {
  }

  /** No governance message on the governance protocol's behalf empties a non-empty executor list. */
  lemma GovKeepsAnExecutor(env: Env, config: Config, info: ProtocolInfo, code: seq<byte>, op: OperationData)
    requires op.protocolId == GOV_PROTOCOL_ID && Executors(info) != []
    requires HandleGov(env, config, info, code, op).Ok?
    ensures Executors(HandleGov(env, config, info, code, op).value.info) != []
  {
    match ParseSelector(code).value
    case AddExecutor => AddExecutorRefinement(info, env.abi.bytes(op.params).value.1);
    case RemoveExecutor =>
      var key := env.abi.bytes(op.params).value.1;
      RemoveExecutorRefinement(info, key, op.protocolId);
    case _ =>
  }
}
