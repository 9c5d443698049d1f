/** Who may do what, and what each instruction leaves behind (programs/entangle-photon-sol/src/lib.rs:316-606). */
module Instructions {
  import opened Wrappers
  import opened Bytes
  import opened FixedList
  import opened ProtocolData
  import opened State
  import opened Gov
  import opened Photon
  import opened Signing
  import opened Runs

  // ---- Callers ----

  /** The caller is in one of the 20 executor slots of this protocol. */
  predicate MayExecute(w: World, protocolId: seq<byte>, caller: Pubkey) {
    protocolId in w.protocols && exists i :: 0 <= i < 20 && w.protocols[protocolId].executors[i] == caller
  }

  /** The operation appeared, went, or is not what it was. */
  predicate OperationChanges(w: World, w': World, h: seq<byte>) {
    if h in w.ops then h !in w'.ops || w'.ops[h] != w.ops[h] else h in w'.ops
  }

  /** The caller and the operation of an instruction of the execution pipeline. */
  function Caller(ix: Instruction): Option<(Pubkey, seq<byte>)> {
    match ix
    case LoadOperation(executor, _, h) => Some((executor, h))
    case SignOperation(executor, h, _) => Some((executor, h))
    case ExecuteOperation(executor, h, _, _) => Some((executor, h))
    case _ => None
  }

  /** A successful instruction of the pipeline has an executor of its operation's protocol for a caller, in the world before. */
  lemma OnlyExecutorsSucceed(env: Env, w: World, ix: Instruction)
    requires Caller(ix).Some? && Step(env, w, ix).Ok?
    ensures var caller, h := Caller(ix).value.0, Caller(ix).value.1;
            var w' := Apply(env, w, ix);
            h in w'.ops && MayExecute(w, w'.ops[h].opData.protocolId, caller)
  {
    var caller, h := Caller(ix).value.0, Caller(ix).value.1;
    match ix
    case LoadOperation(_, op, _) => SlotOf(w, op.protocolId, caller);
    case SignOperation(_, _, signatures) =>
      SlotOf(w, w.ops[h].opData.protocolId, caller);
      SignKeepsData(env, w, ix);
    case ExecuteOperation(_, _, _, _) =>
      SlotOf(w, w.ops[h].opData.protocolId, caller);
      ExecuteEffect(env, w, ix);
  }

  lemma SlotOf(w: World, protocolId: seq<byte>, caller: Pubkey)
    requires protocolId in w.protocols && caller in w.protocols[protocolId].executors
    ensures MayExecute(w, protocolId, caller)
  {
  }

  lemma SignKeepsData(env: Env, w: World, ix: Instruction)
    requires ix.SignOperation? && Step(env, w, ix).Ok?
    ensures ix.opHash in w.ops && ix.opHash in Apply(env, w, ix).ops
    ensures Apply(env, w, ix).ops[ix.opHash].opData == w.ops[ix.opHash].opData
  {
  }

  /**
    Over every run: an operation appears or changes only by an instruction of the pipeline that names it
    and whose caller is, in the world before, an executor of that operation's protocol.
  */
  lemma OperationsChangeByExecutors(env: Env, ws: seq<World>, ixs: seq<Instruction>, k: nat, h: seq<byte>)
    requires IsRun(env, ws, ixs) && k < |ixs| && OperationChanges(ws[k], ws[k + 1], h)
    ensures h in ws[k + 1].ops
    ensures Caller(ixs[k]).Some? && Caller(ixs[k]).value.1 == h
    ensures MayExecute(ws[k], ws[k + 1].ops[h].opData.protocolId, Caller(ixs[k]).value.0)
  {
    assert ws[k + 1] == Apply(env, ws[k], ixs[k]);
    if Touches(ixs[k]) != Some(h) {
      StepFrame(env, ws[k], ixs[k], h);
    }
    OnlyExecutorsSucceed(env, ws[k], ixs[k]);
  }

  /** An event of the pipeline, with the operation and the executor it names. */
  function PipelineEvent(e: Event): Option<(seq<byte>, Pubkey)> {
    match e
    case ProposalLoaded(h, executor) => Some((h, executor))
    case ProposalApproved(h, executor) => Some((h, executor))
    case ProposalExecuted(h, executor) => Some((h, executor))
    case ProposeEvent(_, _, _, _, _, _) => None
  }

  lemma StepEvents(env: Env, w: World, ix: Instruction)
    requires OpsOk(env, w)
    ensures var w' := Apply(env, w, ix);
            && w.log <= w'.log
            && forall j :: |w.log| <= j < |w'.log| && PipelineEvent(w'.log[j]).Some? ==>
                 Caller(ix).Some? && Step(env, w, ix).Ok?
                 && PipelineEvent(w'.log[j]).value == (Caller(ix).value.1, Caller(ix).value.0)
  {
    if Step(env, w, ix).Ok? {
      match ix
      case LoadOperation(_, _, _) => LoadEffect(env, w, ix);
      case SignOperation(_, _, _) => SignEffect(env, w, ix);
      case ExecuteOperation(_, _, _, _) => ExecuteEvents(env, w, ix);
      case _ => OtherEvents(env, w, ix);
    }
  }

  lemma OtherEvents(env: Env, w: World, ix: Instruction)
    requires Caller(ix).None? && Step(env, w, ix).Ok?
    ensures var w' := Apply(env, w, ix);
            w.log <= w'.log && forall j :: |w.log| <= j < |w'.log| ==> PipelineEvent(w'.log[j]).None?
  {
    if ix.ReceivePhotonMsg? {
      ReceiveEffect(env, w, ix.executor, ix.opHash, ix.code);
      var mid :| Apply(env, w, ix).log == w.log + mid && forall e :: e in mid ==> e.ProposeEvent?;
      forall j | |w.log| <= j < |w.log| + |mid|
        ensures PipelineEvent(Apply(env, w, ix).log[j]).None?
      {
        assert Apply(env, w, ix).log[j] == mid[j - |w.log|] && mid[j - |w.log|] in mid;
      }
    }
  }

  lemma ExecuteEvents(env: Env, w: World, ix: Instruction)
    requires ix.ExecuteOperation? && Step(env, w, ix).Ok?
    ensures var w' := Apply(env, w, ix);
            && w.log <= w'.log
            && forall j :: |w.log| <= j < |w'.log| && PipelineEvent(w'.log[j]).Some? ==>
                 PipelineEvent(w'.log[j]).value == (ix.opHash, ix.executor)
  {
    ExecuteEffect(env, w, ix);
    var mid :| Apply(env, w, ix).log == w.log + mid + [ProposalExecuted(ix.opHash, ix.executor)] && forall e :: e in mid ==> e.ProposeEvent?;
    forall j | |w.log| <= j < |w.log| + |mid|
      ensures PipelineEvent(Apply(env, w, ix).log[j]).None?
    {
      assert Apply(env, w, ix).log[j] == mid[j - |w.log|] && mid[j - |w.log|] in mid;
    }
  }

  /**
    Over every run: every load, approval and execution event names the caller of the instruction that
    added it, and that caller is, in the world before, an executor of the named operation's protocol.
  */
  lemma EventsNameExecutors(env: Env, ws: seq<World>, ixs: seq<Instruction>, k: nat, j: nat)
    requires IsRun(env, ws, ixs) && k < |ixs| && |ws[k].log| <= j < |ws[k + 1].log|
    requires PipelineEvent(ws[k + 1].log[j]).Some?
    ensures var h, executor := PipelineEvent(ws[k + 1].log[j]).value.0, PipelineEvent(ws[k + 1].log[j]).value.1;
            && Caller(ixs[k]) == Some((executor, h))
            && h in ws[k + 1].ops && MayExecute(ws[k], ws[k + 1].ops[h].opData.protocolId, executor)
  {
    assert ws[k + 1] == Apply(env, ws[k], ixs[k]);
    RunKeepsOpsOk(env, ws, ixs, k);
    StepEvents(env, ws[k], ixs[k]);
    OnlyExecutorsSucceed(env, ws[k], ixs[k]);
  }

  /** Over every run: a proposal event is a proposer's, on his protocol's behalf, or the announcement of a governance message. */
  lemma ProposalsNameProposers(env: Env, ws: seq<World>, ixs: seq<Instruction>, k: nat, j: nat)
    requires IsRun(env, ws, ixs) && k < |ixs| && |ws[k].log| <= j < |ws[k + 1].log| && ws[k + 1].log[j].ProposeEvent?
    ensures ixs[k].Propose? || ixs[k].ExecuteOperation? || ixs[k].ReceivePhotonMsg?
    ensures ixs[k].Propose? ==>
              && ws[k + 1].log[j].protocolId == ixs[k].protocolId && ixs[k].protocolId in ws[k].protocols
              && exists i :: 0 <= i < 20 && ws[k].protocols[ixs[k].protocolId].proposers[i] == ixs[k].proposer
  {
    RunStepIs(env, ws, ixs, k);
    var w, ix := ws[k], ixs[k];
    match ix
    case Propose(proposer, id, chain, address, selector, params) => ProposeExactly(env, w, proposer, id, chain, address, selector, params);
    case ExecuteOperation(_, _, _, _) =>
    case ReceivePhotonMsg(_, _, _) =>
    case _ =>
      RunKeepsOpsOk(env, ws, ixs, k);
      QuietOnProposals(env, w, ix);
  }

  lemma QuietOnProposals(env: Env, w: World, ix: Instruction)
    requires OpsOk(env, w) && (ix.Initialize? || ix.LoadOperation? || ix.SignOperation? || ix.SetAdmin?)
    ensures var w' := Apply(env, w, ix);
            w.log <= w'.log && forall j :: |w.log| <= j < |w'.log| ==> !w'.log[j].ProposeEvent?
  {
    if Step(env, w, ix).Ok? {
      match ix
      case LoadOperation(_, _, _) => LoadEffect(env, w, ix);
      case SignOperation(_, _, _) => SignEffect(env, w, ix);
      case _ =>
    }
  }

  // ---- Each instruction, exactly ----

  /** Exactly when an operation is loaded, and what that leaves. */
  lemma LoadExactly(env: Env, w: World, caller: Pubkey, op: OperationData, h: seq<byte>)
    ensures Step(env, w, LoadOperation(caller, op, h)).Ok? <==>
            && MayExecute(w, op.protocolId, caller) && h !in w.ops && w.config.Some?
            && OpHash(env.crypto, op) == Some(h)
            && op.destChainId == env.chainId && op.protocolAddr == w.protocols[op.protocolId].protocolAddress
            && |op.protocolId| == 32 && (exists i :: 0 <= i < 32 && op.protocolId[i] != 0)
    ensures Step(env, w, LoadOperation(caller, op, h)).Ok? ==>
              var w' := Apply(env, w, LoadOperation(caller, op, h));
              && w'.config == w.config && w'.protocols == w.protocols
              && w'.ops.Keys == w.ops.Keys + {h} && (forall k :: k in w.ops ==> w'.ops[k] == w.ops[k])
              && w'.ops[h].status == Init && w'.ops[h].opData == op
              && (forall i :: 0 <= i < 16 ==> w'.ops[h].uniqueSigners[i] == Zeros(20))
              && w'.log == w.log + [ProposalLoaded(h, caller)]
  {
    if |op.protocolId| == 32 {
      assert op.protocolId == Zeros(32) <==> forall i :: 0 <= i < 32 ==> op.protocolId[i] == 0;
    }
  }

  /** Exactly when signing reaches the signatures at all. */
  lemma SignExactly(env: Env, w: World, caller: Pubkey, h: seq<byte>, signatures: seq<Signature>)
    ensures Step(env, w, SignOperation(caller, h, signatures)).Ok? <==>
            && h in w.ops && MayExecute(w, w.ops[h].opData.protocolId, caller)
            && (w.ops[h].status == Init || w.ops[h].status == Signed)
            && SignOp(env.crypto, w.protocols[w.ops[h].opData.protocolId], w.ops[h], h, signatures).Ok?
    ensures Step(env, w, SignOperation(caller, h, signatures)).Ok? ==>
              var w' := Apply(env, w, SignOperation(caller, h, signatures));
              var s := SignOp(env.crypto, w.protocols[w.ops[h].opData.protocolId], w.ops[h], h, signatures).value;
              && w'.config == w.config && w'.protocols == w.protocols && w'.ops == w.ops[h := s.op]
              && w'.log == (if s.approved then w.log + [ProposalApproved(h, caller)] else w.log)
  {
    assert w.log + [] == w.log;
  }

  /** An execution calls the program of the operation, which is this program's own governance exactly for a code selector. */
  predicate IsSelfCall(env: Env, op: OperationData) {
    op.protocolAddr == env.programId && op.functionSelector.ByCode?
  }

  /** Exactly when an operation is executed, and what that leaves besides what the called program does. */
  lemma ExecuteExactly(env: Env, w: World, caller: Pubkey, h: seq<byte>, first: Option<Pubkey>, callOk: bool)
    ensures Step(env, w, ExecuteOperation(caller, h, first, callOk)).Ok? <==>
            && h in w.ops && MayExecute(w, w.ops[h].opData.protocolId, caller) && w.ops[h].status == Signed
            && first == Some(w.ops[h].opData.protocolAddr) && !w.ops[h].opData.functionSelector.Dummy? && callOk
            && (IsSelfCall(env, w.ops[h].opData) ==>
                  Step(env, w, ReceivePhotonMsg(caller, h, w.ops[h].opData.functionSelector.code)).Ok?)
    ensures Step(env, w, ExecuteOperation(caller, h, first, callOk)).Ok? ==>
              var w' := Apply(env, w, ExecuteOperation(caller, h, first, callOk));
              var op := w.ops[h].opData;
              var called := if IsSelfCall(env, op) then Apply(env, w, ReceivePhotonMsg(caller, h, op.functionSelector.code)) else w;
              && w'.config == called.config && w'.protocols == called.protocols
              && w'.ops == w.ops[h := w.ops[h].(status := Executed)]
              && w'.log == called.log + [ProposalExecuted(h, caller)]
  {
  }

  /** Exactly when a proposal is accepted, and the event it emits, field by field. */
  lemma ProposeExactly(env: Env, w: World, proposer: Pubkey, id: seq<byte>, chain: u128, address: seq<byte>,
                       selector: FunctionSelector, params: seq<byte>)
    ensures Step(env, w, Propose(proposer, id, chain, address, selector, params)).Ok? <==>
            && id in w.protocols && (exists i :: 0 <= i < 20 && w.protocols[id].proposers[i] == proposer)
            && w.config.Some? && w.config.value.nonce < 0xFFFF_FFFF_FFFF_FFFF && |selector.Payload()| <= 32
    ensures Step(env, w, Propose(proposer, id, chain, address, selector, params)).Ok? ==>
              var w' := Apply(env, w, Propose(proposer, id, chain, address, selector, params));
              && w'.protocols == w.protocols && w'.ops == w.ops
              && w'.config == Some(w.config.value.(nonce := w.config.value.nonce + 1))
              && |w'.log| == |w.log| + 1 && w.log <= w'.log
              && var e := w'.log[|w.log|];
                 && e.ProposeEvent? && e.protocolId == id && e.nonce == w.config.value.nonce && e.dstChainId == chain
                 && e.protocolAddress == address && e.params == params && Ok(e.functionSelector) == ToBytes(selector)
  {
    SelectorRoundTrip(_ => true, selector);
  }

  /** Exactly when the program is initialised, and the settings that leaves. */
  lemma InitializeExactly(env: Env, w: World, admin: Pubkey, chain: u64, master: seq<byte>, rate: u64,
                          transmitters: seq<EthAddress>, executors: seq<Pubkey>)
    ensures Step(env, w, Initialize(admin, chain, master, rate, transmitters, executors)).Ok? <==>
            && (admin == env.deployer || admin == (if w.config.Some? then w.config.value.admin else Zeros(32)))
            && |master| == 32 && |transmitters| <= 20 && |executors| <= 20
    ensures Step(env, w, Initialize(admin, chain, master, rate, transmitters, executors)).Ok? ==>
              var w' := Apply(env, w, Initialize(admin, chain, master, rate, transmitters, executors));
              && w'.ops == w.ops && w'.log == w.log
              && w'.config == Some(Config(admin, chain, master, if w.config.Some? then w.config.value.nonce else 0))
              && w'.protocols.Keys == w.protocols.Keys + {GOV_PROTOCOL_ID}
              && (forall id :: id in w.protocols && id != GOV_PROTOCOL_ID ==> w'.protocols[id] == w.protocols[id])
              && var info := w'.protocols[GOV_PROTOCOL_ID];
                 && info.isInit && info.protocolAddress == env.programId && info.consensusTargetRate == rate
                 && (forall i :: 0 <= i < 20 ==> info.transmitters[i] == if i < |transmitters| then transmitters[i] else Zeros(20))
                 && (forall i :: 0 <= i < 20 ==> info.executors[i] == if i < |executors| then executors[i] else Zeros(32))
                 && info.proposers == (if GOV_PROTOCOL_ID in w.protocols then w.protocols[GOV_PROTOCOL_ID].proposers
                                       else Repeat<Pubkey>(20, Zeros(32)))
  {
  }

  /** Exactly when the admin is changed, and nothing else with it. */
  lemma SetAdminExactly(env: Env, w: World, caller: Pubkey, admin: Pubkey)
    ensures Step(env, w, SetAdmin(caller, admin)).Ok? <==> caller == env.deployer && w.config.Some?
    ensures Step(env, w, SetAdmin(caller, admin)).Ok? ==>
              Apply(env, w, SetAdmin(caller, admin)) == w.(config := Some(w.config.value.(admin := admin)))
  {
  }

  /** Exactly when a governance message is applied, and to which record. */
  lemma ReceiveExactly(env: Env, w: World, caller: Pubkey, h: seq<byte>, code: seq<byte>)
    ensures Step(env, w, ReceivePhotonMsg(caller, h, code)).Ok? <==>
            && h in w.ops && MayExecute(w, GOV_PROTOCOL_ID, caller) && w.ops[h].status == Signed
            && w.ops[h].opData.protocolId == GOV_PROTOCOL_ID && w.ops[h].opData.protocolAddr == env.programId
            && var target := TargetProtocol(env.abi, w.ops[h].opData.functionSelector, w.ops[h].opData.params);
               target.Some? && HandleGov(env, ConfigOf(w), ProtocolOf(w, target.value), code, w.ops[h].opData).Ok?
    ensures Step(env, w, ReceivePhotonMsg(caller, h, code)).Ok? ==>
              var w' := Apply(env, w, ReceivePhotonMsg(caller, h, code));
              var target := TargetProtocol(env.abi, w.ops[h].opData.functionSelector, w.ops[h].opData.params).value;
              var e := HandleGov(env, ConfigOf(w), ProtocolOf(w, target), code, w.ops[h].opData).value;
              && w'.ops == w.ops && w'.config == Some(e.config) && w'.log == w.log + e.events
              && w'.protocols == w.protocols[target := e.info]
  {
  }

  /** The governance protocol's name, zero-padded. */
  lemma GovernanceProtocol()
    ensures GOV_PROTOCOL_ID == Ascii("photon-gov") + Zeros(22)
  {
  }

  // ---- Consequences over every run ----

  predicate Admissible(env: Env, w: World, h: seq<byte>)
    requires h in w.ops
  {
    var op := w.ops[h].opData;
    && op.destChainId == env.chainId && |op.protocolId| == 32 && op.protocolId != Zeros(32)
    && op.protocolId in w.protocols && OpHash(env.crypto, op) == Some(h)
  }

  /** Over every run: every stored operation is for this chain, of a nonzero 32-byte protocol that exists, with a written selector. */
  lemma {:induction false} StoredOperationsAreAdmissible(env: Env, ws: seq<World>, ixs: seq<Instruction>, k: nat, h: seq<byte>)
    requires IsRun(env, ws, ixs) && k < |ws| && h in ws[k].ops
    ensures Admissible(env, ws[k], h)
  {
    if k > 0 {
      RunStepIs(env, ws, ixs, k - 1);
      if h in ws[k - 1].ops {
        StoredOperationsAreAdmissible(env, ws, ixs, k - 1, h);
        RunAdvances(env, ws, ixs, k - 1, h);
        ProtocolsStay(env, ws[k - 1], ixs[k - 1]);
      } else {
        RunKeepsOpsOk(env, ws, ixs, k - 1);
        NewOperationIsAdmissible(env, ws[k - 1], ixs[k - 1], h);
      }
    }
  }

  lemma NewOperationIsAdmissible(env: Env, w: World, ix: Instruction, h: seq<byte>)
    requires OpsOk(env, w) && h !in w.ops && h in Apply(env, w, ix).ops
    ensures Admissible(env, Apply(env, w, ix), h)
  {
    StepFrameLoads(env, w, ix, h);
    StepFrameHash(env, w, ix, h);
    LoadExactly(env, w, ix.executor, ix.opData, h);
  }

  lemma StepFrameHash(env: Env, w: World, ix: Instruction, h: seq<byte>)
    requires ix.LoadOperation? && h !in w.ops && h in Apply(env, w, ix).ops
    ensures Step(env, w, ix).Ok? && ix.opHashCached == h
  {
    if Touches(ix) != Some(h) {
      StepFrame(env, w, ix, h);
    }
  }

  lemma RunStepIs(env: Env, ws: seq<World>, ixs: seq<Instruction>, k: nat)
    requires IsRun(env, ws, ixs) && k < |ixs|
    ensures ws[k + 1] == Apply(env, ws[k], ixs[k])
  {
    assert ws[k + 1] == Apply(env, ws[k], ixs[k]);
  }

  lemma ProtocolsStay(env: Env, w: World, ix: Instruction)
    ensures w.protocols.Keys <= Apply(env, w, ix).protocols.Keys
  {
    if !ix.Initialize? {
      StepKeepsRunning(env, w, ix);
    }
  }

  /** Over every run: the admin changes only by the deployer, or by the admin himself initialising again. */
  lemma AdminChangesAreAuthorised(env: Env, ws: seq<World>, ixs: seq<Instruction>, k: nat)
    requires IsRun(env, ws, ixs) && k < |ixs| && ConfigOf(ws[k + 1]).admin != ConfigOf(ws[k]).admin
    ensures || (ixs[k].SetAdmin? && ixs[k].deployer == env.deployer && ConfigOf(ws[k + 1]).admin == ixs[k].admin)
            || (ixs[k].Initialize? && ixs[k].admin == env.deployer == ConfigOf(ws[k + 1]).admin)
  {
    RunStepIs(env, ws, ixs, k);
    if !ixs[k].SetAdmin? && !ixs[k].Initialize? {
      KeepsAdmin(env, ws[k], ixs[k]);
    }
  }

  lemma KeepsAdmin(env: Env, w: World, ix: Instruction)
    requires !ix.SetAdmin? && !ix.Initialize?
    ensures ConfigOf(Apply(env, w, ix)).admin == ConfigOf(w).admin
  {
    if Step(env, w, ix).Ok? {
      match ix
      case ExecuteOperation(executor, h, _, _) =>
        if IsSelfCall(env, w.ops[h].opData) {
          ReceiveKeepsAdmin(env, w, executor, h, w.ops[h].opData.functionSelector.code);
        }
      case ReceivePhotonMsg(executor, h, code) => ReceiveKeepsAdmin(env, w, executor, h, code);
      case _ =>
    }
  }

  lemma ReceiveKeepsAdmin(env: Env, w: World, executor: Pubkey, h: seq<byte>, code: seq<byte>)
    requires ReceiveStep(env, w, executor, h, code).Ok?
    ensures ConfigOf(ReceiveStep(env, w, executor, h, code).value).admin == ConfigOf(w).admin
  {
  }
}
