/** What governance may change, and on whose authority, over every run (programs/entangle-photon-sol/src/lib.rs:441-601). */
module Governance {
  import opened Wrappers
  import opened Bytes
  import opened FixedList
  import opened Quorum
  import opened ProtocolData
  import opened State
  import opened Gov
  import opened Photon
  import opened Runs

  /** The record of this protocol is not what it was. */
  predicate Changes(w: World, w': World, id: seq<byte>) {
    if id in w.protocols then id !in w'.protocols || w'.protocols[id] != w.protocols[id] else id in w'.protocols
  }

  /** This operation lets this executor change the record of exactly this protocol. */
  predicate Authorises(env: Env, w: World, h: seq<byte>, executor: Pubkey, id: seq<byte>) {
    && h in w.ops && w.ops[h].status == Signed
    && w.ops[h].opData.protocolId == GOV_PROTOCOL_ID && w.ops[h].opData.protocolAddr == env.programId
    && TargetProtocol(env.abi, w.ops[h].opData.functionSelector, w.ops[h].opData.params) == Some(id)
    && GOV_PROTOCOL_ID in w.protocols && executor in w.protocols[GOV_PROTOCOL_ID].executors
  }

  /** The record is what the handler named by the code makes of the old one and the operation. */
  predicate HandledBy(env: Env, w: World, w': World, h: seq<byte>, code: seq<byte>, id: seq<byte>)
    requires h in w.ops
  {
    var r := HandleGov(env, ConfigOf(w), ProtocolOf(w, id), code, w.ops[h].opData);
    r.Ok? && id in w'.protocols && w'.protocols[id] == r.value.info
  }

  lemma ReceiveIsAuthorised(env: Env, w: World, executor: Pubkey, h: seq<byte>, code: seq<byte>, id: seq<byte>)
    requires ReceiveStep(env, w, executor, h, code).Ok?
    requires Changes(w, ReceiveStep(env, w, executor, h, code).value, id)
    ensures Authorises(env, w, h, executor, id)
    ensures HandledBy(env, w, ReceiveStep(env, w, executor, h, code).value, h, code, id)
  {
  }

  /** The code a successful instruction passes to the governance handlers: an execution passes the signed one. */
  function AppliedCode(w: World, ix: Instruction): seq<byte>
    requires ix.ReceivePhotonMsg? || (ix.ExecuteOperation? && ix.opHash in w.ops && w.ops[ix.opHash].opData.functionSelector.ByCode?)
  {
    match ix
    case ExecuteOperation(_, h, _, _) => w.ops[h].opData.functionSelector.code
    case ReceivePhotonMsg(_, _, code) => code
  }

  lemma ExecuteIsAuthorised(env: Env, w: World, ix: Instruction, id: seq<byte>)
    requires ix.ExecuteOperation? && Step(env, w, ix).Ok? && Changes(w, Apply(env, w, ix), id)
    ensures Authorises(env, w, ix.opHash, ix.executor, id) && w.ops[ix.opHash].opData.functionSelector.ByCode?
    ensures HandledBy(env, w, Apply(env, w, ix), ix.opHash, AppliedCode(w, ix), id)
  {
    var code := w.ops[ix.opHash].opData.functionSelector.code;
    ReceiveIsAuthorised(env, w, ix.executor, ix.opHash, code, id);
  }

  /**
    Governance is authorised, over every run: outside initialisation a protocol's record changes only by
    an operation of the governance protocol that is Signed, had its quorum at an earlier signing step,
    and targets this protocol; the instruction comes from a governance executor, and the new record is
    the handler's.
  */
  lemma ChangesAreAuthorised(env: Env, ws: seq<World>, ixs: seq<Instruction>, k: nat, id: seq<byte>)
    requires IsRun(env, ws, ixs) && k < |ixs| && !ixs[k].Initialize? && Changes(ws[k], ws[k + 1], id)
    ensures ixs[k].ExecuteOperation? || ixs[k].ReceivePhotonMsg?
    ensures var ix := ixs[k];
            && Authorises(env, ws[k], ix.opHash, ix.executor, id)
            && QuorumBefore(env, ws, ixs, k, ix.opHash)
            && (ix.ExecuteOperation? ==> ws[k].ops[ix.opHash].opData.functionSelector.ByCode?)
            && HandledBy(env, ws[k], ws[k + 1], ix.opHash, AppliedCode(ws[k], ix), id)
  {
    var w, ix := ws[k], ixs[k];
    assert ws[k + 1] == Apply(env, w, ix);
    if ix.LoadOperation? || ix.SignOperation? || ix.Propose? || ix.SetAdmin? {
      QuietOnProtocols(env, w, ix);
    }
    if ix.ExecuteOperation? {
      ExecuteIsAuthorised(env, w, ix, id);
    } else {
      ReceiveIsAuthorised(env, w, ix.executor, ix.opHash, ix.code, id);
    }
    QuorumSafety(env, ws, ixs, k, ix.opHash);
  }

  /**
    What the argument decides: with a code that names the signed handler, a direct application does to
    configuration, records and events what the execution does; only the execution marks the operation.
  */
  lemma DirectLikeExecution(env: Env, w: World, ix: Instruction, code: seq<byte>)
    requires ix.ExecuteOperation? && Step(env, w, ix).Ok?
    requires w.ops[ix.opHash].opData.protocolAddr == env.programId && w.ops[ix.opHash].opData.functionSelector.ByCode?
    requires ParseSelector(code) == ParseSelector(w.ops[ix.opHash].opData.functionSelector.code)
    ensures var r, executed := ReceiveStep(env, w, ix.executor, ix.opHash, code), Apply(env, w, ix);
            && r.Ok? && r.value.config == executed.config && r.value.protocols == executed.protocols
            && executed.log == r.value.log + [ProposalExecuted(ix.opHash, ix.executor)]
            && r.value.ops == w.ops && executed.ops == w.ops[ix.opHash := w.ops[ix.opHash].(status := Executed)]
  {
    var op := w.ops[ix.opHash].opData;
    var info := ProtocolOf(w, TargetProtocol(env.abi, op.functionSelector, op.params).value);
    assert HandleGov(env, ConfigOf(w), info, code, op) == HandleGov(env, ConfigOf(w), info, op.functionSelector.code, op);
  }

  /** A Signed governance operation with this selector code, whose executor may apply it. */
  predicate Applicable(env: Env, w: World, h: seq<byte>, e: Pubkey, code: seq<byte>) {
    && h in w.ops && w.ops[h].status == Signed && w.ops[h].opData.functionSelector == ByCode(code)
    && w.ops[h].opData.protocolId == GOV_PROTOCOL_ID && w.ops[h].opData.protocolAddr == env.programId
    && GOV_PROTOCOL_ID in w.protocols && e in w.protocols[GOV_PROTOCOL_ID].executors
  }

  const ADD_EXECUTOR: seq<byte> := [0xe0, 0xaa, 0xfb, 0x68]
  const REMOVE_EXECUTOR: seq<byte> := [0x04, 0xfa, 0x38, 0x4a]
  const SET_CONSENSUS_TARGET_RATE: seq<byte> := [0x97, 0x0b, 0x61, 0x09]

  lemma Selectors()
    ensures ParseSelector(ADD_EXECUTOR) == Some(AddExecutor)
    ensures ParseSelector(REMOVE_EXECUTOR) == Some(RemoveExecutor)
    ensures ParseSelector(SET_CONSENSUS_TARGET_RATE) == Some(SetConsensusTargetRate)
  {
    FourBytes(0xe0, 0xaa, 0xfb, 0x68);
    FourBytes(0x04, 0xfa, 0x38, 0x4a);
    FourBytes(0x97, 0x0b, 0x61, 0x09);
    assert ADD_EXECUTOR[..4] == ADD_EXECUTOR && REMOVE_EXECUTOR[..4] == REMOVE_EXECUTOR;
    assert SET_CONSENSUS_TARGET_RATE[..4] == SET_CONSENSUS_TARGET_RATE;
  }

  /**
    With a code that names another handler it is that handler which is applied: a Signed AddExecutor
    operation, applied directly as RemoveExecutor, drops the key it was signed to add.
  */
  lemma AnotherHandlerIsApplied(env: Env, w: World, h: seq<byte>, e: Pubkey, target: Bytes32, key: Pubkey)
    requires Applicable(env, w, h, e, ADD_EXECUTOR) && env.abi.bytes(w.ops[h].opData.params) == Some((target, key))
    requires Without(Executors(ProtocolOf(w, target)), key) != []
    ensures var r := ReceiveStep(env, w, e, h, REMOVE_EXECUTOR);
            && r.Ok? && target in r.value.protocols
            && Executors(r.value.protocols[target]) == Without(Executors(ProtocolOf(w, target)), key)
  {
    Selectors();
    RemoveExecutorRefinement(ProtocolOf(w, target), key, GOV_PROTOCOL_ID);
  }

  lemma RateIsSet(env: Env, w: World, h: seq<byte>, e: Pubkey, target: Bytes32, rate: nat) returns (w': World)
    requires Applicable(env, w, h, e, SET_CONSENSUS_TARGET_RATE)
    requires env.abi.rate(w.ops[h].opData.params) == Some((target, rate)) && 1 <= rate <= RATE_DECIMALS
    ensures ReceiveStep(env, w, e, h, SET_CONSENSUS_TARGET_RATE) == Ok(w')
    ensures w' == Apply(env, w, ReceivePhotonMsg(e, h, SET_CONSENSUS_TARGET_RATE))
    ensures w'.ops == w.ops && target in w'.protocols && w'.protocols[target].consensusTargetRate == rate
    ensures forall k, x :: Applicable(env, w, k, e, x) ==> Applicable(env, w', k, e, x)
  {
    Selectors();
    w' := Apply(env, w, ReceivePhotonMsg(e, h, SET_CONSENSUS_TARGET_RATE));
  }

  /** An operation applied directly can be applied again: of two Signed rates the first is back after the second. */
  lemma AppliedAgain(env: Env, w: World, h: seq<byte>, k: seq<byte>, e: Pubkey, target: Bytes32, rate: nat, other: nat)
    returns (w1: World, w2: World, w3: World)
    requires Applicable(env, w, h, e, SET_CONSENSUS_TARGET_RATE) && Applicable(env, w, k, e, SET_CONSENSUS_TARGET_RATE)
    requires env.abi.rate(w.ops[h].opData.params) == Some((target, rate)) && 1 <= rate <= RATE_DECIMALS
    requires env.abi.rate(w.ops[k].opData.params) == Some((target, other)) && 1 <= other <= RATE_DECIMALS
    ensures ReceiveStep(env, w, e, h, SET_CONSENSUS_TARGET_RATE) == Ok(w1) && ProtocolOf(w1, target).consensusTargetRate == rate
    ensures ReceiveStep(env, w1, e, k, SET_CONSENSUS_TARGET_RATE) == Ok(w2) && ProtocolOf(w2, target).consensusTargetRate == other
    ensures ReceiveStep(env, w2, e, h, SET_CONSENSUS_TARGET_RATE) == Ok(w3) && ProtocolOf(w3, target).consensusTargetRate == rate
  {
    w1 := RateIsSet(env, w, h, e, target, rate);
    w2 := RateIsSet(env, w1, k, e, target, other);
    w3 := RateIsSet(env, w2, h, e, target, rate);
  }

  // ---- When authority ends ----

  predicate Executes(env: Env, w: World, ix: Instruction, h: seq<byte>) {
    ix.ExecuteOperation? && ix.opHash == h && Step(env, w, ix).Ok?
  }

  lemma SignedUntilExecuted(env: Env, w: World, ix: Instruction, h: seq<byte>)
    requires OpsOk(env, w) && h in w.ops && w.ops[h].status == Signed
    ensures h in Apply(env, w, ix).ops
    ensures Apply(env, w, ix).ops[h].status == (if Executes(env, w, ix, h) then Executed else Signed)
  {
    if Touches(ix) != Some(h) {
      StepFrame(env, w, ix, h);
    } else if Step(env, w, ix).Ok? {
      match ix
      case LoadOperation(_, _, _) => LoadEffect(env, w, ix);
      case SignOperation(_, _, _) => SignEffect(env, w, ix);
      case ExecuteOperation(_, _, _, _) => ExecuteEffect(env, w, ix);
      case _ =>
    }
  }

  lemma SignedStep(env: Env, ws: seq<World>, ixs: seq<Instruction>, j: nat, h: seq<byte>)
    requires IsRun(env, ws, ixs) && j < |ixs| && h in ws[j].ops && ws[j].ops[h].status.Rank() >= 2
    ensures h in ws[j + 1].ops && ws[j + 1].ops[h].status.Rank() >= 2
    ensures ws[j + 1].ops[h].status == Signed <==> ws[j].ops[h].status == Signed && !Executes(env, ws[j], ixs[j], h)
  {
    RunKeepsOpsOk(env, ws, ixs, j);
    assert ws[j + 1] == Apply(env, ws[j], ixs[j]);
    if ws[j].ops[h].status == Signed {
      SignedUntilExecuted(env, ws[j], ixs[j], h);
    } else {
      RunAdvances(env, ws, ixs, j, h);
    }
  }

  /** A Signed operation keeps its authority until it is executed, and exactly until then: applying it directly does not use it up. */
  lemma {:induction false} AuthorityEndsWithExecution(env: Env, ws: seq<World>, ixs: seq<Instruction>, i: nat, j: nat, h: seq<byte>)
    requires IsRun(env, ws, ixs) && i <= j < |ws| && h in ws[i].ops && ws[i].ops[h].status == Signed
    ensures h in ws[j].ops && ws[j].ops[h].status.Rank() >= 2
    ensures ws[j].ops[h].status == Signed <==> forall k :: i <= k < j ==> !Executes(env, ws[k], ixs[k], h)
    decreases j
  {
    if i < j {
      AuthorityEndsWithExecution(env, ws, ixs, i, j - 1, h);
      SignedStep(env, ws, ixs, j - 1, h);
    }
  }
}
