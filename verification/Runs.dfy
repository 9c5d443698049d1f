/** Properties of every run of the endpoint, governance interleaved (programs/entangle-photon-sol/src/lib.rs). */
module Runs {
  import opened Wrappers
  import opened Bytes
  import opened FixedList
  import opened Quorum
  import opened ProtocolData
  import opened State
  import opened Gov
  import opened Photon
  import opened Signing

  /** ws[i] is the world before transaction ixs[i]; failed transactions leave it as it was. */
  ghost predicate IsRun(env: Env, ws: seq<World>, ixs: seq<Instruction>) {
    && |ws| == |ixs| + 1
    && ws[0] == EMPTY_WORLD
    && forall i {:trigger Apply(env, ws[i], ixs[i])} :: 0 <= i < |ixs| ==> ws[i + 1] == Apply(env, ws[i], ixs[i])
  }

  // ---- What a single step does to one operation ----

  /** An operation only moves forward: same data, more signers, status one stage on at most. */
  ghost predicate Advances(before: OpInfo, after: OpInfo) {
    && after.opData == before.opData
    && StoredSigners(before) <= StoredSigners(after)
    && before.status.Rank() <= after.status.Rank() <= before.status.Rank() + 1
  }

  ghost predicate OpOk(env: Env, op: OpInfo, h: seq<byte>) {
    SignersOk(op) && op.status != None_ && OpHash(env.crypto, op.opData) == Some(h)
  }

  ghost predicate OpsOk(env: Env, w: World) {
    forall h :: h in w.ops ==> OpOk(env, w.ops[h], h)
  }

  /** The operation an instruction may write, if any. */
  function Touches(ix: Instruction): Option<seq<byte>> {
    match ix
    case LoadOperation(_, _, h) => Some(h)
    case SignOperation(_, h, _) => Some(h)
    case ExecuteOperation(_, h, _, _) => Some(h)
    case _ => None
  }

  lemma StepFrame(env: Env, w: World, ix: Instruction, h: seq<byte>)
    requires Touches(ix) != Some(h)
    ensures h in Apply(env, w, ix).ops <==> h in w.ops
    ensures h in w.ops ==> Apply(env, w, ix).ops[h] == w.ops[h]
  {
  }

  lemma EmptySigners(op: OperationData)
    ensures SignersOk(OpInfo(Init, NO_SIGNERS, op)) && StoredSigners(OpInfo(Init, NO_SIGNERS, op)) == []
  {
    ListOfPadded<EthAddress>([], SIGNER_SLOTS, ZERO_ADDRESS);
    assert NO_SIGNERS == Pad<EthAddress>([], SIGNER_SLOTS, ZERO_ADDRESS);
  }

  /** A successful initialisation gives the governance protocol exactly these lists, and touches nothing else but the configuration. */
  lemma InitializeEffect(env: Env, w: World, ix: Instruction)
    requires ix.Initialize? && Step(env, w, ix).Ok? && ZERO_ADDRESS !in ix.transmitters && ZERO_KEY !in ix.executors
    ensures var w' := Apply(env, w, ix);
            && GOV_PROTOCOL_ID in w'.protocols
            && Transmitters(w'.protocols[GOV_PROTOCOL_ID]) == ix.transmitters
            && Executors(w'.protocols[GOV_PROTOCOL_ID]) == ix.executors
            && (forall id :: id in w.protocols && id != GOV_PROTOCOL_ID ==> id in w'.protocols && w'.protocols[id] == w.protocols[id])
            && w'.ops == w.ops && w'.log == w.log && ConfigOf(w').nonce == ConfigOf(w).nonce
  {
    ListOfPadded(ix.transmitters, MAX_TRANSMITTERS, ZERO_ADDRESS);
    ListOfPadded(ix.executors, MAX_EXECUTORS, ZERO_KEY);
  }

  /** A successful load creates its operation; the account must not have existed. */
  lemma LoadEffect(env: Env, w: World, ix: Instruction)
    requires ix.LoadOperation? && Step(env, w, ix).Ok?
    ensures var w', h := Apply(env, w, ix), ix.opHashCached;
            && h !in w.ops && w'.ops == w.ops[h := OpInfo(Init, NO_SIGNERS, ix.opData)]
            && OpHash(env.crypto, ix.opData) == Some(h)
            && w'.log == w.log + [ProposalLoaded(h, ix.executor)]
  {
  }

  lemma ExecuteEffect(env: Env, w: World, ix: Instruction)
    requires ix.ExecuteOperation? && Step(env, w, ix).Ok?
    ensures var w', h := Apply(env, w, ix), ix.opHash;
            && h in w.ops && w.ops[h].status == Signed
            && w'.ops == w.ops[h := w.ops[h].(status := Executed)]
            && exists mid :: w'.log == w.log + mid + [ProposalExecuted(h, ix.executor)]
                             && (forall e :: e in mid ==> e.ProposeEvent?)
  {
    var op := w.ops[ix.opHash];
    var called := if op.opData.protocolAddr == env.programId && op.opData.functionSelector.ByCode?
                  then ReceiveStep(env, w, ix.executor, ix.opHash, op.opData.functionSelector.code) else Ok(w);
    if called.value == w {
      assert Apply(env, w, ix).log == w.log + [] + [ProposalExecuted(ix.opHash, ix.executor)];
    } else {
      ReceiveEffect(env, w, ix.executor, ix.opHash, op.opData.functionSelector.code);
    }
  }

  lemma ReceiveEffect(env: Env, w: World, executor: Pubkey, opHash: seq<byte>, code: seq<byte>)
    requires ReceiveStep(env, w, executor, opHash, code).Ok?
    ensures var w' := ReceiveStep(env, w, executor, opHash, code).value;
            && w'.ops == w.ops
            && exists mid :: w'.log == w.log + mid && (forall e :: e in mid ==> e.ProposeEvent?)
  {
    var op := w.ops[opHash].opData;
    var target := TargetProtocol(env.abi, op.functionSelector, op.params).value;
    var e := HandleGov(env, ConfigOf(w), ProtocolOf(w, target), code, op).value;
    assert ReceiveStep(env, w, executor, opHash, code).value.log == w.log + e.events;
  }

  lemma SignEffect(env: Env, w: World, ix: Instruction)
    requires ix.SignOperation? && Step(env, w, ix).Ok?
    requires ix.opHash in w.ops ==> SignersOk(w.ops[ix.opHash])
    ensures var w', h := Apply(env, w, ix), ix.opHash;
            && h in w.ops && w.ops[h].status in {Init, Signed}
            && w.ops[h].opData.protocolId in w.protocols
            && w'.ops.Keys == w.ops.Keys && w'.protocols == w.protocols
            && (forall k :: k in w.ops && k != h ==> w'.ops[k] == w.ops[k])
            && SignersOk(w'.ops[h]) && Advances(w.ops[h], w'.ops[h])
            && (w'.ops[h].status == w.ops[h].status || w'.ops[h].status == Signed)
            && (w'.log == w.log || w'.log == w.log + [ProposalApproved(h, ix.executor)])
  {
    var op := w.ops[ix.opHash];
    SignOpEffect(env.crypto, w.protocols[op.opData.protocolId], op, ix.opHash, ix.signatures);
  }

  lemma StepAdvancesOne(env: Env, w: World, ix: Instruction, h: seq<byte>)
    requires OpsOk(env, w)
    ensures var w' := Apply(env, w, ix);
            && (h in w'.ops ==> OpOk(env, w'.ops[h], h))
            && (h in w.ops ==> h in w'.ops && Advances(w.ops[h], w'.ops[h]))
  {
    var w' := Apply(env, w, ix);
    if Touches(ix) != Some(h) {
      StepFrame(env, w, ix, h);
    } else if Step(env, w, ix).Ok? {
      match ix
      case LoadOperation(_, op, _) =>
        LoadEffect(env, w, ix);
        EmptySigners(op);
      case SignOperation(_, _, _) => SignEffect(env, w, ix);
      case ExecuteOperation(_, _, _, _) =>
        ExecuteEffect(env, w, ix);
        assert StoredSigners(w'.ops[h]) == StoredSigners(w.ops[h]);
      case _ =>
    }
  }

  /** Every instruction keeps every operation well formed and moving forward only. */
  lemma StepAdvances(env: Env, w: World, ix: Instruction)
    requires OpsOk(env, w)
    ensures var w' := Apply(env, w, ix);
            OpsOk(env, w') && forall h :: h in w.ops ==> h in w'.ops && Advances(w.ops[h], w'.ops[h])
  {
    forall h
      ensures h in Apply(env, w, ix).ops ==> OpOk(env, Apply(env, w, ix).ops[h], h)
      ensures h in w.ops ==> h in Apply(env, w, ix).ops && Advances(w.ops[h], Apply(env, w, ix).ops[h])
    {
      StepAdvancesOne(env, w, ix, h);
    }
  }

  lemma {:induction false} RunKeepsOpsOk(env: Env, ws: seq<World>, ixs: seq<Instruction>, k: nat)
    requires IsRun(env, ws, ixs) && k < |ws|
    ensures OpsOk(env, ws[k])
  {
    if k > 0 {
      RunKeepsOpsOk(env, ws, ixs, k - 1);
      StepAdvances(env, ws[k - 1], ixs[k - 1]);
    }
  }

  /** Later state of the same operation: same data, hashing to its key; status and signers have not gone back. */
  ghost predicate Descends(env: Env, before: OpInfo, after: OpInfo, h: seq<byte>) {
    && after.opData == before.opData && OpHash(env.crypto, after.opData) == Some(h)
    && 1 <= before.status.Rank() <= after.status.Rank()
    && StoredSigners(before) <= StoredSigners(after)
  }

  lemma RunAdvances(env: Env, ws: seq<World>, ixs: seq<Instruction>, j: nat, h: seq<byte>)
    requires IsRun(env, ws, ixs) && j < |ixs| && h in ws[j].ops
    ensures h in ws[j + 1].ops && Advances(ws[j].ops[h], ws[j + 1].ops[h])
  {
    RunKeepsOpsOk(env, ws, ixs, j);
    StepAdvancesOne(env, ws[j], ixs[j], h);
  }

  lemma DescendsFurther(env: Env, a: OpInfo, b: OpInfo, c: OpInfo, h: seq<byte>)
    requires Descends(env, a, b, h) && Advances(b, c)
    ensures Descends(env, a, c, h)
  {
  }

  /**
    Operation lifecycle, over every run: an operation never disappears, its data never changes and
    hashes to its key, its status only moves None, Init, Signed, Executed, its signers only grow.
  */
  lemma {:induction false} Lifecycle(env: Env, ws: seq<World>, ixs: seq<Instruction>, i: nat, j: nat, h: seq<byte>)
    requires IsRun(env, ws, ixs) && i <= j < |ws| && h in ws[i].ops
    ensures h in ws[j].ops && Descends(env, ws[i].ops[h], ws[j].ops[h], h)
    decreases j
  {
    if i < j {
      Lifecycle(env, ws, ixs, i, j - 1, h);
      RunAdvances(env, ws, ixs, j - 1, h);
      DescendsFurther(env, ws[i].ops[h], ws[j - 1].ops[h], ws[j].ops[h], h);
    } else {
      RunKeepsOpsOk(env, ws, ixs, i);
      assert OpOk(env, ws[i].ops[h], h);
    }
  }

  // ---- Each operation is loaded once and executed once ----

  function LoadCount(log: seq<Event>, h: seq<byte>): nat {
    if log == [] then 0
    else LoadCount(log[..|log| - 1], h) + (if log[|log| - 1].ProposalLoaded? && log[|log| - 1].opHash == h then 1 else 0)
  }

  function ExecuteCount(log: seq<Event>, h: seq<byte>): nat {
    if log == [] then 0
    else ExecuteCount(log[..|log| - 1], h) + (if log[|log| - 1].ProposalExecuted? && log[|log| - 1].opHash == h then 1 else 0)
  }

  lemma {:induction false} CountsAppend(log: seq<Event>, more: seq<Event>, h: seq<byte>)
    ensures LoadCount(log + more, h) == LoadCount(log, h) + LoadCount(more, h)
    ensures ExecuteCount(log + more, h) == ExecuteCount(log, h) + ExecuteCount(more, h)
  {
    if more == [] {
      assert log + more == log;
    } else {
      CountsAppend(log, more[..|more| - 1], h);
      assert (log + more)[..|log + more| - 1] == log + more[..|more| - 1];
    }
  }

  lemma {:induction false} ProposalsDoNotCount(mid: seq<Event>, h: seq<byte>)
    requires forall e :: e in mid ==> e.ProposeEvent? || e.ProposalApproved?
    ensures LoadCount(mid, h) == 0 && ExecuteCount(mid, h) == 0
  {
    if mid != [] {
      ProposalsDoNotCount(mid[..|mid| - 1], h);
      assert mid[|mid| - 1] in mid;
    }
  }

  /** The events tell the stage exactly: one load event iff the operation exists, one execution event iff it is Executed. */
  ghost predicate CountsOk(w: World, h: seq<byte>) {
    && LoadCount(w.log, h) == (if h in w.ops then 1 else 0)
    && ExecuteCount(w.log, h) == (if h in w.ops && w.ops[h].status == Executed then 1 else 0)
  }

  lemma OneEvent(e: Event, h: seq<byte>)
    ensures LoadCount([e], h) == (if e.ProposalLoaded? && e.opHash == h then 1 else 0)
    ensures ExecuteCount([e], h) == (if e.ProposalExecuted? && e.opHash == h then 1 else 0)
  {
    assert [e][..0] == [];
  }

  lemma ExecuteLog(env: Env, w: World, ix: Instruction, h: seq<byte>) returns (more: seq<Event>)
    requires ix.ExecuteOperation? && Step(env, w, ix).Ok?
    ensures Apply(env, w, ix).log == w.log + more
    ensures LoadCount(more, h) == 0 && ExecuteCount(more, h) == (if ix.opHash == h then 1 else 0)
  {
    ExecuteEffect(env, w, ix);
    var executed := ProposalExecuted(ix.opHash, ix.executor);
    var mid :| Apply(env, w, ix).log == w.log + mid + [executed] && forall e :: e in mid ==> e.ProposeEvent?;
    more := mid + [executed];
    assert w.log + mid + [executed] == w.log + more;
    CountsAppend(mid, [executed], h);
    ProposalsDoNotCount(mid, h);
    OneEvent(executed, h);
  }

  lemma ProposeLog(env: Env, w: World, ix: Instruction, h: seq<byte>) returns (more: seq<Event>)
    requires ix.Propose? && Step(env, w, ix).Ok?
    ensures Apply(env, w, ix).log == w.log + more && LoadCount(more, h) == 0 && ExecuteCount(more, h) == 0
  {
    more := [Apply(env, w, ix).log[|w.log|]];
    OneEvent(more[0], h);
  }

  /** The events a successful instruction adds. */
  lemma StepLog(env: Env, w: World, ix: Instruction, h: seq<byte>) returns (more: seq<Event>)
    requires OpsOk(env, w) && Step(env, w, ix).Ok?
    ensures Apply(env, w, ix).log == w.log + more
    ensures LoadCount(more, h) == (if ix.LoadOperation? && ix.opHashCached == h then 1 else 0)
    ensures ExecuteCount(more, h) == (if ix.ExecuteOperation? && ix.opHash == h then 1 else 0)
  {
    var w' := Apply(env, w, ix);
    more := [];
    match ix
    case LoadOperation(executor, _, k) =>
      LoadEffect(env, w, ix);
      more := [ProposalLoaded(k, executor)];
      OneEvent(more[0], h);
    case SignOperation(executor, k, _) =>
      SignEffect(env, w, ix);
      if w'.log != w.log {
        more := [ProposalApproved(k, executor)];
        OneEvent(more[0], h);
      }
    case ExecuteOperation(_, _, _, _) => more := ExecuteLog(env, w, ix, h);
    case ReceivePhotonMsg(executor, k, code) =>
      ReceiveEffect(env, w, executor, k, code);
      more :| w'.log == w.log + more && forall e :: e in more ==> e.ProposeEvent?;
      ProposalsDoNotCount(more, h);
    case Propose(_, _, _, _, _, _) =>
      more := ProposeLog(env, w, ix, h);
    case Initialize(_, _, _, _, _, _) =>
    case SetAdmin(_, _) =>
  }

  lemma StepKeepsCounts(env: Env, w: World, ix: Instruction, h: seq<byte>)
    requires OpsOk(env, w) && CountsOk(w, h)
    ensures CountsOk(Apply(env, w, ix), h)
  {
    if Step(env, w, ix).Ok? {
      var more := StepLog(env, w, ix, h);
      CountsAppend(w.log, more, h);
      if Touches(ix) != Some(h) {
        StepFrame(env, w, ix, h);
      } else {
        match ix
        case LoadOperation(_, _, _) => LoadEffect(env, w, ix);
        case SignOperation(_, _, _) => SignKeepsExecuted(env, w, ix);
        case ExecuteOperation(_, _, _, _) => ExecuteEffect(env, w, ix);
        case _ =>
      }
    }
  }

  lemma SignKeepsExecuted(env: Env, w: World, ix: Instruction)
    requires OpsOk(env, w) && ix.SignOperation? && Step(env, w, ix).Ok?
    ensures var w' := Apply(env, w, ix);
            ix.opHash in w.ops && ix.opHash in w'.ops && w.ops[ix.opHash].status != Executed && w'.ops[ix.opHash].status != Executed
  {
    SignEffect(env, w, ix);
  }

  /** Over every run each operation is loaded at most once and executed at most once, and the log says when. */
  lemma {:induction false} LoadedAndExecutedOnce(env: Env, ws: seq<World>, ixs: seq<Instruction>, k: nat, h: seq<byte>)
    requires IsRun(env, ws, ixs) && k < |ws|
    ensures CountsOk(ws[k], h)
  {
    if k > 0 {
      LoadedAndExecutedOnce(env, ws, ixs, k - 1, h);
      RunKeepsOpsOk(env, ws, ixs, k - 1);
      StepKeepsCounts(env, ws[k - 1], ixs[k - 1], h);
    }
  }

  // ---- Quorum safety ----

  /** Transaction i of the run was a successful signing of h. */
  ghost predicate Signs(env: Env, ws: seq<World>, ixs: seq<Instruction>, i: nat, h: seq<byte>)
    requires |ws| == |ixs| + 1 && i < |ixs|
  {
    && ixs[i].SignOperation? && ixs[i].opHash == h && Step(env, ws[i], ixs[i]).Ok?
    && h in ws[i].ops && h in ws[i + 1].ops && ws[i].ops[h].opData.protocolId in ws[i].protocols
  }

  function ProtocolAt(w: World, h: seq<byte>): ProtocolInfo
    requires h in w.ops && w.ops[h].opData.protocolId in w.protocols
  {
    w.protocols[w.ops[h].opData.protocolId]
  }

  /** Transaction i accepted a: it supplied a signature of a over h, and a was then an allowed transmitter. */
  ghost predicate Accepts(env: Env, ws: seq<World>, ixs: seq<Instruction>, i: nat, h: seq<byte>, a: EthAddress)
    requires |ws| == |ixs| + 1 && i < |ixs|
  {
    && Signs(env, ws, ixs, i, h)
    && a in Transmitters(ProtocolAt(ws[i], h))
    && exists sig :: sig in ixs[i].signatures && Ecrecover(env.crypto, h, sig) == Some(a)
  }

  ghost predicate AcceptedBefore(env: Env, ws: seq<World>, ixs: seq<Instruction>, k: nat, h: seq<byte>, a: EthAddress)
    requires |ws| == |ixs| + 1 && k <= |ixs|
  {
    exists i: nat :: i < k && Accepts(env, ws, ixs, i, h, a)
  }

  /** Transaction i left a quorum of its moment: distinct, accepted signers, enough for the rate and the transmitters then. */
  ghost predicate QuorumAt(env: Env, ws: seq<World>, ixs: seq<Instruction>, i: nat, h: seq<byte>)
    requires |ws| == |ixs| + 1 && i < |ixs|
  {
    && Signs(env, ws, ixs, i, h)
    && var signers, info := StoredSigners(ws[i + 1].ops[h]), ProtocolAt(ws[i], h);
       && Distinct(signers) && signers != []
       && |signers| * RATE_DECIMALS >= info.consensusTargetRate * |Transmitters(info)|
       && forall a :: a in signers ==> AcceptedBefore(env, ws, ixs, i + 1, h, a)
  }

  ghost predicate QuorumBefore(env: Env, ws: seq<World>, ixs: seq<Instruction>, k: nat, h: seq<byte>)
    requires |ws| == |ixs| + 1 && k <= |ixs|
  {
    exists i: nat :: i < k && QuorumAt(env, ws, ixs, i, h)
  }

  ghost predicate Justified(env: Env, ws: seq<World>, ixs: seq<Instruction>, k: nat, h: seq<byte>)
    requires |ws| == |ixs| + 1 && k <= |ixs|
  {
    h in ws[k].ops ==>
      && (forall a :: a in StoredSigners(ws[k].ops[h]) ==> AcceptedBefore(env, ws, ixs, k, h, a))
      && (ws[k].ops[h].status in {Signed, Executed} ==> QuorumBefore(env, ws, ixs, k, h))
  }

  lemma SignKeepsJustified(env: Env, ws: seq<World>, ixs: seq<Instruction>, k: nat, h: seq<byte>)
    requires IsRun(env, ws, ixs) && 0 < k <= |ixs| && OpsOk(env, ws[k - 1])
    requires ixs[k - 1].SignOperation? && ixs[k - 1].opHash == h && Step(env, ws[k - 1], ixs[k - 1]).Ok?
    requires Justified(env, ws, ixs, k - 1, h)
    ensures Justified(env, ws, ixs, k, h)
  {
    var w, ix := ws[k - 1], ixs[k - 1];
    assert ws[k] == Apply(env, w, ix);
    SignEffect(env, w, ix);
    var before, info := w.ops[h], ProtocolAt(w, h);
    SignOpEffect(env.crypto, info, before, h, ix.signatures);
    var s := SignOp(env.crypto, info, before, h, ix.signatures).value;
    assert ws[k].ops[h] == s.op;
    assert Signs(env, ws, ixs, k - 1, h);
    forall a | a in StoredSigners(s.op)
      ensures AcceptedBefore(env, ws, ixs, k, h, a)
    {
      if a in StoredSigners(before) {
        assert AcceptedBefore(env, ws, ixs, k - 1, h, a);
      } else {
        assert Accepts(env, ws, ixs, k - 1, h, a);
      }
    }
    if s.approved {
      assert QuorumAt(env, ws, ixs, k - 1, h);
    }
  }

  lemma StepKeepsJustified(env: Env, ws: seq<World>, ixs: seq<Instruction>, k: nat, h: seq<byte>)
    requires IsRun(env, ws, ixs) && 0 < k <= |ixs| && OpsOk(env, ws[k - 1])
    requires Justified(env, ws, ixs, k - 1, h)
    ensures Justified(env, ws, ixs, k, h)
  {
    var w, ix := ws[k - 1], ixs[k - 1];
    assert ws[k] == Apply(env, w, ix);
    if Touches(ix) != Some(h) {
      StepFrame(env, w, ix, h);
    } else if Step(env, w, ix).Ok? {
      match ix
      case LoadOperation(_, op, _) =>
        LoadEffect(env, w, ix);
        EmptySigners(op);
      case SignOperation(_, _, _) => SignKeepsJustified(env, ws, ixs, k, h);
      case ExecuteOperation(_, _, _, _) =>
        ExecuteEffect(env, w, ix);
        assert StoredSigners(ws[k].ops[h]) == StoredSigners(w.ops[h]);
      case _ =>
    }
  }

  lemma {:induction false} RunJustified(env: Env, ws: seq<World>, ixs: seq<Instruction>, k: nat, h: seq<byte>)
    requires IsRun(env, ws, ixs) && k < |ws|
    ensures Justified(env, ws, ixs, k, h)
  {
    if k > 0 {
      RunJustified(env, ws, ixs, k - 1, h);
      RunKeepsOpsOk(env, ws, ixs, k - 1);
      StepKeepsJustified(env, ws, ixs, k, h);
    }
  }

  /**
    Quorum safety over every run, however governance and re-initialisation change the transmitters and
    the rate in between: an operation that is Signed or Executed had, at some earlier signing step,
    pairwise distinct stored signers, each recovered from a signature over this hash and allowed when
    it was accepted, in number at least the rate's share of the transmitters of that step.
  */
  lemma QuorumSafety(env: Env, ws: seq<World>, ixs: seq<Instruction>, k: nat, h: seq<byte>)
    requires IsRun(env, ws, ixs) && k < |ws| && h in ws[k].ops
    requires ws[k].ops[h].status in {Signed, Executed}
    ensures exists i: nat :: i < k && QuorumAt(env, ws, ixs, i, h)
    ensures OpHash(env.crypto, ws[k].ops[h].opData) == Some(h)
  {
    RunJustified(env, ws, ixs, k, h);
    RunKeepsOpsOk(env, ws, ixs, k);
  }

  // ---- A true answer that leaves an operation at Init ----

  lemma InitializeWorld(env: Env, w: World, rate: u64, a: EthAddress, b: EthAddress, e: Pubkey) returns (w': World)
    requires a != ZERO_ADDRESS && b != ZERO_ADDRESS && e != ZERO_KEY
    ensures w' == Apply(env, w, Initialize(env.deployer, 0, ZERO_WORD, rate, [a, b], [e]))
    ensures w'.config.Some? && w'.ops == w.ops && GOV_PROTOCOL_ID in w'.protocols
    ensures var info := w'.protocols[GOV_PROTOCOL_ID];
            info.protocolAddress == env.programId && info.consensusTargetRate == rate && Transmitters(info) == [a, b] && e in info.executors
  {
    var ix := Initialize(env.deployer, 0, ZERO_WORD, rate, [a, b], [e]);
    w' := Apply(env, w, ix);
    InitializeEffect(env, w, ix);
    assert w'.protocols[GOV_PROTOCOL_ID].executors[0] == e;
  }

  lemma LoadWorld(env: Env, w: World, e: Pubkey, op: OperationData, h: seq<byte>) returns (w': World)
    requires op.protocolId == GOV_PROTOCOL_ID && op.destChainId == env.chainId && OpHash(env.crypto, op) == Some(h)
    requires w.config.Some? && GOV_PROTOCOL_ID in w.protocols && h !in w.ops
    requires w.protocols[GOV_PROTOCOL_ID].protocolAddress == op.protocolAddr && e in w.protocols[GOV_PROTOCOL_ID].executors
    ensures w' == Apply(env, w, LoadOperation(e, op, h)) && w'.protocols == w.protocols && w'.config == w.config
    ensures h in w'.ops && w'.ops[h] == OpInfo(Init, NO_SIGNERS, op)
  {
    w' := Apply(env, w, LoadOperation(e, op, h));
    assert GOV_PROTOCOL_ID[0] == 0x70;
  }

  lemma CollectOne(a: EthAddress, b: EthAddress)
    ensures Collect([a, b], RATE_DECIMALS, [], [Some(a)]) == Some(Collected([a], false))
  {
    var allowed, recovered := [a, b], [Some(a)];
    assert recovered[1..] == [] && a == allowed[0];
    assert Collect(allowed, RATE_DECIMALS, [a], []) == Some(Collected([a], false));
    assert [] + [a] == [a];
  }

  /** One of two transmitters signs: half of the quorum at the full rate. */
  lemma HalfSigned(crypto: Crypto, info: ProtocolInfo, op: OperationData, h: seq<byte>, sig: Signature, a: EthAddress, b: EthAddress)
    requires Ecrecover(crypto, h, sig) == Some(a) && Transmitters(info) == [a, b] && info.consensusTargetRate == RATE_DECIMALS
    ensures SignOp(crypto, info, OpInfo(Init, NO_SIGNERS, op), h, [sig])
         == Ok(Signing(OpInfo(Init, Pad([a], SIGNER_SLOTS, ZERO_ADDRESS), op), false, false))
  {
    EmptySigners(op);
    assert Recovered(crypto, h, [sig]) == [Some(a)];
    CollectOne(a, b);
  }

  lemma SignWorld(env: Env, w: World, e: Pubkey, op: OperationData, h: seq<byte>, sig: Signature, a: EthAddress, b: EthAddress) returns (w': World)
    requires op.protocolId == GOV_PROTOCOL_ID && GOV_PROTOCOL_ID in w.protocols && h in w.ops && w.ops[h] == OpInfo(Init, NO_SIGNERS, op)
    requires e in w.protocols[GOV_PROTOCOL_ID].executors && Ecrecover(env.crypto, h, sig) == Some(a) && a != ZERO_ADDRESS
    requires Transmitters(w.protocols[GOV_PROTOCOL_ID]) == [a, b] && w.protocols[GOV_PROTOCOL_ID].consensusTargetRate == RATE_DECIMALS
    ensures w' == Apply(env, w, SignOperation(e, h, [sig]))
    ensures h in w'.ops && w'.ops[h].status == Init && StoredSigners(w'.ops[h]) == [a] && w'.ops[h].opData == op
  {
    w' := Apply(env, w, SignOperation(e, h, [sig]));
    HalfSigned(env.crypto, w.protocols[GOV_PROTOCOL_ID], op, h, sig, a, b);
    ListOfPadded([a], SIGNER_SLOTS, ZERO_ADDRESS);
  }

  /** At half the rate the one signer is enough on entry, and the operation is not touched. */
  lemma EarlyWorld(env: Env, w: World, e: Pubkey, h: seq<byte>, a: EthAddress, b: EthAddress)
    requires h in w.ops && w.ops[h].status == Init && StoredSigners(w.ops[h]) == [a]
    requires w.ops[h].opData.protocolId == GOV_PROTOCOL_ID && GOV_PROTOCOL_ID in w.protocols
    requires e in w.protocols[GOV_PROTOCOL_ID].executors
    requires Transmitters(w.protocols[GOV_PROTOCOL_ID]) == [a, b] && w.protocols[GOV_PROTOCOL_ID].consensusTargetRate == 5000
    ensures SignStep(env, w, e, h, []) == Ok((w, true)) && Apply(env, w, SignOperation(e, h, [])) == w
  {
    assert Reached(1, 2, 5000);
    assert w.log + [] == w.log;
    assert w.ops[h := w.ops[h]] == w.ops;
  }

  lemma FiveSteps(env: Env, ws: seq<World>, ixs: seq<Instruction>)
    requires |ws| == 6 && |ixs| == 5 && ws[0] == EMPTY_WORLD
    requires ws[1] == Apply(env, ws[0], ixs[0]) && ws[2] == Apply(env, ws[1], ixs[1]) && ws[3] == Apply(env, ws[2], ixs[2])
    requires ws[4] == Apply(env, ws[3], ixs[3]) && ws[5] == Apply(env, ws[4], ixs[4])
    ensures IsRun(env, ws, ixs)
  {
    forall i | 0 <= i < 5
      ensures ws[i + 1] == Apply(env, ws[i], ixs[i])
    {
      assert i == 0 || i == 1 || i == 2 || i == 3 || i == 4;
    }
  }

  /**
    It happens: with two transmitters and the full rate, one signs; after the rate is halved by
    initialising again, signing answers true, and the operation is still at Init.
  */
  lemma EarlyReturnIsReachable(env: Env, e: Pubkey, op: OperationData, h: seq<byte>, sig: Signature, a: EthAddress, b: EthAddress)
    returns (ws: seq<World>, ixs: seq<Instruction>)
    requires a != ZERO_ADDRESS && b != ZERO_ADDRESS && e != ZERO_KEY && Ecrecover(env.crypto, h, sig) == Some(a)
    requires op.protocolId == GOV_PROTOCOL_ID && op.destChainId == env.chainId && op.protocolAddr == env.programId
    requires OpHash(env.crypto, op) == Some(h)
    ensures IsRun(env, ws, ixs) && |ixs| == 5 && ixs[4] == SignOperation(e, h, [])
    ensures SignStep(env, ws[4], e, h, []) == Ok((ws[5], true))
    ensures h in ws[5].ops && ws[5].ops[h].status == Init
  {
    var w0 := EMPTY_WORLD;
    var w1 := InitializeWorld(env, w0, RATE_DECIMALS, a, b, e);
    var w2 := LoadWorld(env, w1, e, op, h);
    var w3 := SignWorld(env, w2, e, op, h, sig, a, b);
    var w4 := InitializeWorld(env, w3, 5000, a, b, e);
    EarlyWorld(env, w4, e, h, a, b);
    ixs := [Initialize(env.deployer, 0, ZERO_WORD, RATE_DECIMALS, [a, b], [e]), LoadOperation(e, op, h), SignOperation(e, h, [sig]),
            Initialize(env.deployer, 0, ZERO_WORD, 5000, [a, b], [e]), SignOperation(e, h, [])];
    ws := [w0, w1, w2, w3, w4, w4];
    FiveSteps(env, ws, ixs);
  }

  // ---- Governance records over every run ----

  /** Arguments `initialize` does not check itself. */
  ghost predicate GoodInitialize(ix: Instruction) {
    ix.Initialize? ==>
      && ZERO_ADDRESS !in ix.transmitters
      && ZERO_KEY !in ix.executors && Distinct(ix.executors)
      && 1 <= ix.rate <= RATE_DECIMALS
  }

  /** Nor does governance check the transmitters of an AddAllowedProtocol operation. */
  ghost predicate GoodMessage(env: Env, op: OperationData) {
    op.protocolId == GOV_PROTOCOL_ID ==> NonzeroMessages(env.abi, op)
  }

  ghost predicate GoodLoad(env: Env, ix: Instruction) {
    ix.LoadOperation? ==> GoodMessage(env, ix.opData)
  }

  ghost predicate RecordsOk(env: Env, w: World) {
    && (forall id :: id in w.protocols ==> WellFormed(w.protocols[id]))
    && (forall h :: h in w.ops ==> GoodMessage(env, w.ops[h].opData))
  }

  lemma DefaultWellFormed()
    ensures WellFormed(DEFAULT_PROTOCOL)
  {
    TakeNonzeroUnique(NO_KEYS, ZERO_KEY, []);
  }

  lemma ReceiveKeepsRecords(env: Env, w: World, executor: Pubkey, opHash: seq<byte>, code: seq<byte>)
    requires RecordsOk(env, w) && ReceiveStep(env, w, executor, opHash, code).Ok?
    ensures RecordsOk(env, ReceiveStep(env, w, executor, opHash, code).value)
  {
    var op := w.ops[opHash].opData;
    var target := TargetProtocol(env.abi, op.functionSelector, op.params).value;
    DefaultWellFormed();
    GovKeepsWellFormed(env, ConfigOf(w), ProtocolOf(w, target), code, op);
  }

  lemma InitializeKeepsRecords(env: Env, w: World, ix: Instruction)
    requires RecordsOk(env, w) && ix.Initialize? && GoodInitialize(ix) && Step(env, w, ix).Ok?
    ensures RecordsOk(env, Apply(env, w, ix))
  {
    DefaultWellFormed();
    ListOfPadded(ix.transmitters, MAX_TRANSMITTERS, ZERO_ADDRESS);
    ListOfPadded(ix.executors, MAX_EXECUTORS, ZERO_KEY);
  }

  lemma ExecuteKeepsRecords(env: Env, w: World, ix: Instruction)
    requires RecordsOk(env, w) && ix.ExecuteOperation? && Step(env, w, ix).Ok?
    ensures RecordsOk(env, Apply(env, w, ix))
  {
    var op := w.ops[ix.opHash].opData;
    if op.protocolAddr == env.programId && op.functionSelector.ByCode? {
      ReceiveKeepsRecords(env, w, ix.executor, ix.opHash, op.functionSelector.code);
    }
  }

  lemma QuietOnProtocols(env: Env, w: World, ix: Instruction)
    requires ix.LoadOperation? || ix.SignOperation? || ix.Propose? || ix.SetAdmin?
    ensures Apply(env, w, ix).protocols == w.protocols
  {
  }

  lemma QuietKeepsRecords(env: Env, w: World, ix: Instruction)
    requires OpsOk(env, w) && RecordsOk(env, w) && GoodLoad(env, ix)
    requires ix.LoadOperation? || ix.SignOperation? || ix.Propose? || ix.SetAdmin?
    ensures RecordsOk(env, Apply(env, w, ix))
  {
    QuietOnProtocols(env, w, ix);
    forall h | h in Apply(env, w, ix).ops
      ensures GoodMessage(env, Apply(env, w, ix).ops[h].opData)
    {
      StepAdvancesOne(env, w, ix, h);
      if h !in w.ops {
        StepFrameLoads(env, w, ix, h);
      }
    }
  }

  /** An operation that was not there has just been loaded. */
  lemma StepFrameLoads(env: Env, w: World, ix: Instruction, h: seq<byte>)
    requires OpsOk(env, w) && h !in w.ops && h in Apply(env, w, ix).ops
    ensures ix.LoadOperation? && Apply(env, w, ix).ops[h].opData == ix.opData
  {
    if Touches(ix) != Some(h) {
      StepFrame(env, w, ix, h);
    } else if Step(env, w, ix).Ok? && ix.ExecuteOperation? {
      ExecuteEffect(env, w, ix);
    }
  }

  lemma StepKeepsRecords(env: Env, w: World, ix: Instruction)
    requires OpsOk(env, w) && RecordsOk(env, w) && GoodInitialize(ix) && GoodLoad(env, ix)
    ensures RecordsOk(env, Apply(env, w, ix))
  {
    if Step(env, w, ix).Ok? {
      match ix {
        case Initialize(_, _, _, _, _, _) => InitializeKeepsRecords(env, w, ix);
        case ExecuteOperation(_, _, _, _) => ExecuteKeepsRecords(env, w, ix);
        case ReceivePhotonMsg(executor, h, code) => ReceiveKeepsRecords(env, w, executor, h, code);
        case _ => QuietKeepsRecords(env, w, ix);
      }
    }
  }

  ghost predicate GoodInputs(env: Env, ixs: seq<Instruction>) {
    forall i :: 0 <= i < |ixs| ==> GoodInitialize(ixs[i]) && GoodLoad(env, ixs[i])
  }

  lemma RunKeepsRecords(env: Env, ws: seq<World>, ixs: seq<Instruction>, k: nat)
    requires IsRun(env, ws, ixs) && k < |ixs| && GoodInputs(env, ixs) && RecordsOk(env, ws[k])
    ensures RecordsOk(env, ws[k + 1])
  {
    RunKeepsOpsOk(env, ws, ixs, k);
    assert ws[k + 1] == Apply(env, ws[k], ixs[k]);
    StepKeepsRecords(env, ws[k], ixs[k]);
  }

  /** Over every run from good initial arguments and messages, all protocol records stay compact, duplicate-free and in range. */
  lemma {:induction false} RecordsStayWellFormed(env: Env, ws: seq<World>, ixs: seq<Instruction>, k: nat)
    requires IsRun(env, ws, ixs) && k < |ws| && GoodInputs(env, ixs)
    ensures RecordsOk(env, ws[k])
  {
    if k > 0 {
      RecordsStayWellFormed(env, ws, ixs, k - 1);
      RunKeepsRecords(env, ws, ixs, k - 1);
    }
  }

  // ---- Executors never vanish ----

  /** Protocols with executors keep some, initialised ones stay initialised. */
  ghost predicate KeepsRunning(w: World, w': World) {
    forall id :: id in w.protocols ==>
      && id in w'.protocols
      && (Executors(w.protocols[id]) != [] ==> Executors(w'.protocols[id]) != [])
      && (w.protocols[id].isInit ==> w'.protocols[id].isInit)
  }

  lemma ReceiveKeepsRunning(env: Env, w: World, executor: Pubkey, opHash: seq<byte>, code: seq<byte>)
    requires ReceiveStep(env, w, executor, opHash, code).Ok?
    ensures KeepsRunning(w, ReceiveStep(env, w, executor, opHash, code).value)
  {
    var op := w.ops[opHash].opData;
    var target := TargetProtocol(env.abi, op.functionSelector, op.params).value;
    var info := ProtocolOf(w, target);
    if info.isInit {
      GovKeepsInitialised(env, ConfigOf(w), info, code, op);
    }
    if Executors(info) != [] {
      GovKeepsAnExecutor(env, ConfigOf(w), info, code, op);
    }
  }

  lemma StepKeepsRunning(env: Env, w: World, ix: Instruction)
    requires !ix.Initialize?
    ensures KeepsRunning(w, Apply(env, w, ix))
  {
    if Step(env, w, ix).Ok? {
      match ix
      case ExecuteOperation(executor, h, _, _) =>
        var op := w.ops[h].opData;
        if op.protocolAddr == env.programId && op.functionSelector.ByCode? {
          ReceiveKeepsRunning(env, w, executor, h, op.functionSelector.code);
        }
      case ReceivePhotonMsg(executor, h, code) => ReceiveKeepsRunning(env, w, executor, h, code);
      case _ => QuietOnProtocols(env, w, ix);
    }
  }

  /** Once a protocol has an executor it keeps one, as long as `initialize` is not run again. */
  lemma {:induction false} ExecutorsNeverVanish(env: Env, ws: seq<World>, ixs: seq<Instruction>, i: nat, j: nat, id: seq<byte>)
    requires IsRun(env, ws, ixs) && i <= j < |ws|
    requires forall k :: i <= k < j ==> !ixs[k].Initialize?
    requires id in ws[i].protocols && Executors(ws[i].protocols[id]) != []
    ensures id in ws[j].protocols && Executors(ws[j].protocols[id]) != []
    decreases j
  {
    if i < j {
      ExecutorsNeverVanish(env, ws, ixs, i, j - 1, id);
      StepKeepsRunning(env, ws[j - 1], ixs[j - 1]);
    }
  }

  // ---- The proposal nonce ----

  function Nonces(log: seq<Event>): seq<nat> {
    if log == [] then []
    else Nonces(log[..|log| - 1]) + (if log[|log| - 1].ProposeEvent? then [log[|log| - 1].nonce] else [])
  }

  function UpTo(n: nat): seq<nat> {
    seq(n, i => i)
  }

  lemma {:induction false} NoncesAppend(log: seq<Event>, more: seq<Event>)
    ensures Nonces(log + more) == Nonces(log) + Nonces(more)
  {
    if more == [] {
      assert log + more == log;
    } else {
      NoncesAppend(log, more[..|more| - 1]);
      assert (log + more)[..|log + more| - 1] == log + more[..|more| - 1];
    }
  }

  /** The proposals so far carry the nonces 0, 1, 2, ... up to the configured next one. */
  ghost predicate NoncesOk(w: World) {
    Nonces(w.log) == UpTo(ConfigOf(w).nonce)
  }

  lemma OneNonce(e: Event)
    ensures Nonces([e]) == if e.ProposeEvent? then [e.nonce] else []
  {
    assert [e][..0] == [];
  }

  /** A governance message announces nothing, or one protocol under the next number. */
  lemma GovNonces(env: Env, config: Config, info: ProtocolInfo, code: seq<byte>, op: OperationData)
    requires HandleGov(env, config, info, code, op).Ok?
    ensures var e := HandleGov(env, config, info, code, op).value;
            || (e.events == [] && e.config.nonce == config.nonce)
            || (|e.events| == 1 && e.events[0].ProposeEvent? && e.events[0].nonce == config.nonce == e.config.nonce - 1)
  {
  }

  lemma NoncesMore(log: seq<Event>, more: seq<Event>, before: nat, after: nat)
    requires Nonces(log) == UpTo(before)
    requires (more == [] && after == before) || (|more| == 1 && more[0].ProposeEvent? && more[0].nonce == before == after - 1)
    ensures Nonces(log + more) == UpTo(after)
  {
    NoncesAppend(log, more);
    if more != [] {
      OneNonce(more[0]);
      assert more == [more[0]];
    }
  }

  lemma ReceiveKeepsNonces(env: Env, w: World, executor: Pubkey, opHash: seq<byte>, code: seq<byte>)
    requires NoncesOk(w) && ReceiveStep(env, w, executor, opHash, code).Ok?
    ensures NoncesOk(ReceiveStep(env, w, executor, opHash, code).value)
  {
    var op := w.ops[opHash].opData;
    var info := ProtocolOf(w, TargetProtocol(env.abi, op.functionSelector, op.params).value);
    var e := HandleGov(env, ConfigOf(w), info, code, op).value;
    GovNonces(env, ConfigOf(w), info, code, op);
    NoncesMore(w.log, e.events, ConfigOf(w).nonce, e.config.nonce);
  }

  lemma QuietEventKeepsNonces(log: seq<Event>, e: Event)
    requires !e.ProposeEvent?
    ensures Nonces(log + [e]) == Nonces(log)
  {
    NoncesAppend(log, [e]);
    OneNonce(e);
  }

  lemma ProposeKeepsNonces(env: Env, w: World, ix: Instruction)
    requires NoncesOk(w) && ix.Propose? && Step(env, w, ix).Ok?
    ensures NoncesOk(Apply(env, w, ix))
  {
    var e := ProposeEvent(ix.protocolId, ConfigOf(w).nonce, ix.dstChainId, ix.protocolAddress,
                          ToBytes(ix.functionSelector).value, ix.params);
    assert Apply(env, w, ix).log == w.log + [e];
    NoncesAppend(w.log, [e]);
    OneNonce(e);
  }

  lemma SignKeepsNonces(env: Env, w: World, ix: Instruction)
    requires NoncesOk(w) && ix.SignOperation? && Step(env, w, ix).Ok?
    ensures NoncesOk(Apply(env, w, ix))
  {
    QuietEventKeepsNonces(w.log, ProposalApproved(ix.opHash, ix.executor));
    assert w.log + [] == w.log;
  }

  lemma ExecuteKeepsNonces(env: Env, w: World, ix: Instruction)
    requires NoncesOk(w) && ix.ExecuteOperation? && Step(env, w, ix).Ok?
    ensures NoncesOk(Apply(env, w, ix))
  {
    var op := w.ops[ix.opHash].opData;
    var executed := ProposalExecuted(ix.opHash, ix.executor);
    if op.protocolAddr == env.programId && op.functionSelector.ByCode? {
      ReceiveKeepsNonces(env, w, ix.executor, ix.opHash, op.functionSelector.code);
      QuietEventKeepsNonces(ReceiveStep(env, w, ix.executor, ix.opHash, op.functionSelector.code).value.log, executed);
    } else {
      QuietEventKeepsNonces(w.log, executed);
    }
  }

  lemma LoadKeepsNonces(env: Env, w: World, ix: Instruction)
    requires NoncesOk(w) && ix.LoadOperation? && Step(env, w, ix).Ok?
    ensures NoncesOk(Apply(env, w, ix))
  {
    LoadEffect(env, w, ix);
    QuietEventKeepsNonces(w.log, ProposalLoaded(ix.opHashCached, ix.executor));
  }

  lemma AdminKeepsNonces(env: Env, w: World, ix: Instruction)
    requires NoncesOk(w) && (ix.Initialize? || ix.SetAdmin?)
    ensures NoncesOk(Apply(env, w, ix))
  {
    assert Apply(env, w, ix).log == w.log && ConfigOf(Apply(env, w, ix)).nonce == ConfigOf(w).nonce;
  }

  lemma StepKeepsNonces(env: Env, w: World, ix: Instruction)
    requires NoncesOk(w)
    ensures NoncesOk(Apply(env, w, ix))
  {
    var w' := Apply(env, w, ix);
    if Step(env, w, ix).Ok? {
      match ix
      case LoadOperation(_, _, _) => LoadKeepsNonces(env, w, ix);
      case SignOperation(executor, k, signatures) =>
        SignKeepsNonces(env, w, ix);
      case ExecuteOperation(executor, k, _, _) =>
        ExecuteKeepsNonces(env, w, ix);
      case ReceivePhotonMsg(executor, k, code) => ReceiveKeepsNonces(env, w, executor, k, code);
      case Propose(_, _, _, _, _, _) =>
        ProposeKeepsNonces(env, w, ix);
      case _ => AdminKeepsNonces(env, w, ix);
    }
  }

  /** Over every run the proposals, the program's own announcements included, are numbered 0, 1, 2, ... without gap or repeat. */
  lemma {:induction false} ProposalsAreNumbered(env: Env, ws: seq<World>, ixs: seq<Instruction>, k: nat)
    requires IsRun(env, ws, ixs) && k < |ws|
    ensures NoncesOk(ws[k])
  {
    if k > 0 {
      ProposalsAreNumbered(env, ws, ixs, k - 1);
      StepKeepsNonces(env, ws[k - 1], ixs[k - 1]);
    }
  }
}
