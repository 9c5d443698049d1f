/** The executor against the endpoint: what its reads, acknowledgements and batches mean on chain. */
module ExecutorOnChain {
  import opened Wrappers
  import opened Bytes
  import opened FixedList
  import opened Quorum
  import PD = ProtocolData
  import opened State
  import opened Gov
  import opened Photon
  import opened Signing
  import opened Instructions
  import opened Runs
  import opened OperationManager
  import OpRegistry

  /** What `get_op_status` finds in this world. */
  function StatusRead(w: World, h: seq<byte>): ChainStatus {
    if h in w.ops then FromOpStatus(w.ops[h].status) else New
  }

  /** The i-th status is read from the world at times(i), or the account does not deserialise. */
  ghost predicate ReadsRun(t: Task, ws: seq<World>, times: nat -> nat) {
    && (forall i: nat :: times(i) < |ws|)
    && (forall i: nat, j: nat :: i <= j ==> times(i) <= times(j))
    && forall i: nat :: t.outside.statuses(i).Some? ==> t.outside.statuses(i).value == StatusRead(ws[times(i)], t.opHash)
  }

  lemma StatusNeverGoesBack(env: Env, ws: seq<World>, ixs: seq<Instruction>, h: seq<byte>, i: nat, j: nat)
    requires IsRun(env, ws, ixs) && i <= j < |ws|
    ensures StatusRead(ws[i], h).Rank() <= StatusRead(ws[j], h).Rank()
  {
    if h in ws[i].ops {
      Lifecycle(env, ws, ixs, i, j, h);
    }
  }

  /** Reads taken in order from any run of the endpoint never go back, so the retry bound holds for them. */
  lemma ReadsNeverGoBack(env: Env, ws: seq<World>, ixs: seq<Instruction>, t: Task, times: nat -> nat, limit: nat, k: nat)
    requires IsRun(env, ws, ixs) && ReadsRun(t, ws, times) && ContinuesUpTo(t, limit, k)
    ensures NonDecreasing(t.outside.statuses)
    ensures |Batches(t, SubmittedRounds(t, limit, k))| <= 3 * limit
    ensures exists end: nat :: end <= 3 * limit && !Continues(t, limit, end)
  {
    forall i: nat, j: nat | i <= j && t.outside.statuses(i).Some? && t.outside.statuses(j).Some?
      ensures t.outside.statuses(i).value.Rank() <= t.outside.statuses(j).value.Rank()
    {
      StatusNeverGoesBack(env, ws, ixs, t.opHash, times(i), times(j));
    }
    RetryBound(t, limit, k);
    OrderedReadsEnd(t, limit);
  }

  /** Executed in every world from the k-th on, exactly once. */
  ghost predicate ExecutedFrom(ws: seq<World>, k: nat, h: seq<byte>) {
    forall j :: k <= j < |ws| ==> StatusRead(ws[j], h) == Executed && ExecuteCount(ws[j].log, h) == 1
  }

  /** The same status was read limit times more right after it was first seen. */
  ghost predicate GivenUp(t: Task, limit: nat, last: nat) {
    0 < limit <= last && forall j: nat :: last - limit <= j < last ==> t.outside.statuses(j) == t.outside.statuses(last)
  }

  /** What an executor reports is so: Executed was executed on chain, once and for good; Failed was retried in vain. */
  lemma AcknowledgementsAreTrue(env: Env, ws: seq<World>, ixs: seq<Instruction>, t: Task, times: nat -> nat, limit: nat, last: nat)
    requires IsRun(env, ws, ixs) && ReadsRun(t, ws, times) && limit > 0
    ensures Acknowledged(t, limit, last) == Some(Executed) ==> ExecutedFrom(ws, times(last), t.opHash)
    ensures Acknowledged(t, limit, last) == Some(Failed) ==> GivenUp(t, limit, last) && StatusRead(ws[times(last)], t.opHash) != Executed
  {
    RepeatsExactly(t.outside.statuses, last, limit);
    if Acknowledged(t, limit, last) == Some(Executed) {
      forall j | times(last) <= j < |ws|
        ensures StatusRead(ws[j], t.opHash) == Executed && ExecuteCount(ws[j].log, t.opHash) == 1
      {
        StatusNeverGoesBack(env, ws, ixs, t.opHash, times(last), j);
        LoadedAndExecutedOnce(env, ws, ixs, j, t.opHash);
      }
    }
  }

  // ---- The watermark, end to end ----

  /** Operations being processed, each with the round it has come to and the times of its reads. */
  datatype Job = Job(task: Task, last: nat, times: nat -> nat)

  ghost predicate JobsOk(ws: seq<World>, limit: nat, jobs: seq<Job>) {
    forall x :: 0 <= x < |jobs| ==> ReadsRun(jobs[x].task, ws, jobs[x].times) && ContinuesUpTo(jobs[x].task, limit, jobs[x].last)
  }

  ghost predicate From(limit: nat, jobs: seq<Job>, x: nat, a: OpAcknowledge) {
    x < |jobs| && a in TaskAcks(jobs[x].task, limit, jobs[x].last)
  }

  /** Every acknowledgement the registry takes comes from one of the jobs, in any interleaving. */
  ghost predicate AcksFromJobs(limit: nat, jobs: seq<Job>, actions: seq<OpRegistry.Action>) {
    forall i :: 0 <= i < |actions| && actions[i].Acknowledge? ==> exists x: nat :: From(limit, jobs, x, actions[i].ack)
  }

  ghost predicate Done(ws: seq<World>, limit: nat, job: Job) {
    ExecutedFrom(ws, job.times(job.last), job.task.opHash) || GivenUp(job.task, limit, job.last)
  }

  ghost predicate DoneFor(ws: seq<World>, limit: nat, job: Job, b: u64, h: seq<byte>) {
    job.task.opHash == h && job.task.op.eobBlockNumber == b && Done(ws, limit, job)
  }

  lemma FinishedJobIsDone(env: Env, ws: seq<World>, ixs: seq<Instruction>, limit: nat, job: Job, a: OpAcknowledge)
    requires IsRun(env, ws, ixs) && ReadsRun(job.task, ws, job.times) && limit > 0
    requires a in TaskAcks(job.task, limit, job.last) && a.status != New
    ensures DoneFor(ws, limit, job, a.blockNumber, a.opHash)
  {
    AcknowledgementsAreTrue(env, ws, ixs, job.task, job.times, limit, job.last);
  }

  lemma SomeJobIsDone(env: Env, ws: seq<World>, ixs: seq<Instruction>, limit: nat, jobs: seq<Job>, a: OpAcknowledge)
    requires limit > 0 && IsRun(env, ws, ixs) && JobsOk(ws, limit, jobs) && a.status != New
    requires exists x: nat :: From(limit, jobs, x, a)
    ensures exists x :: 0 <= x < |jobs| && DoneFor(ws, limit, jobs[x], a.blockNumber, a.opHash)
  {
    var x: nat :| From(limit, jobs, x, a);
    FinishedJobIsDone(env, ws, ixs, limit, jobs[x], a);
  }

  /**
    Whenever the registry returns block b, every operation announced for a block up to b has been
    executed on chain exactly once, or some executor job for it used up its attempts.
  */
  lemma WatermarkMeansDone(env: Env, ws: seq<World>, ixs: seq<Instruction>, limit: nat, jobs: seq<Job>, timeout: nat,
                           known: seq<OpRegistry.Known>, actions: seq<OpRegistry.Action>, results: seq<Option<u64>>, n: nat, i: nat)
    requires limit > 0 && IsRun(env, ws, ixs) && JobsOk(ws, limit, jobs) && AcksFromJobs(limit, jobs, actions)
    requires OpRegistry.IsRun(timeout, known, actions, results) && i < n < |actions|
    requires results[n].Some? && actions[i].Acknowledge? && actions[i].ack.status == New
    requires actions[i].ack.blockNumber <= results[n].value
    ensures exists x :: 0 <= x < |jobs| && DoneFor(ws, limit, jobs[x], actions[i].ack.blockNumber, actions[i].ack.opHash)
  {
    OpRegistry.WatermarkSafety(timeout, known, actions, results, n, i);
    var j :| i < j < n && OpRegistry.Finishes(actions[j], actions[i].ack.blockNumber, actions[i].ack.opHash);
    SomeJobIsDone(env, ws, ixs, limit, jobs, actions[j].ack);
  }

  // ---- What a batch does on chain ----

  function OnChain(ix: Ix, executor: Pubkey, h: seq<byte>, callOk: bool): Instruction {
    match ix
    case LoadIx(opData) => LoadOperation(executor, opData, h)
    case SignIx(signatures) => SignOperation(executor, h, signatures)
    case ExecuteIx(accounts) => ExecuteOperation(executor, h, if accounts == [] then None else Some(accounts[0]), callOk)
  }

  /** All instructions of a batch in order; the first failure stops it. */
  function RunBatch(env: Env, w: World, batch: seq<Bundle>, executor: Pubkey, h: seq<byte>, callOk: bool): Result<World, Error>
    decreases |batch|
  {
    if batch == [] then Ok(w)
    else
      var w' :- Step(env, w, OnChain(batch[0].instruction, executor, h, callOk));
      RunBatch(env, w', batch[1..], executor, h, callOk)
  }

  lemma ExecuteFinishes(env: Env, w: World, batch: seq<Bundle>, executor: Pubkey, h: seq<byte>, callOk: bool)
    requires |batch| == 1 && batch[0].instruction.ExecuteIx? && RunBatch(env, w, batch, executor, h, callOk).Ok?
    ensures StatusRead(w, h) == Signed && StatusRead(RunBatch(env, w, batch, executor, h, callOk).value, h) == Executed
  {
    var ix := OnChain(batch[0].instruction, executor, h, callOk);
    ExecuteEffect(env, w, ix);
    assert batch[1..] == [];
    assert RunBatch(env, Apply(env, w, ix), batch[1..], executor, h, callOk) == Ok(Apply(env, w, ix));
  }

  lemma SignThenExecute(env: Env, w: World, batch: seq<Bundle>, executor: Pubkey, h: seq<byte>, callOk: bool)
    requires OpsOk(env, w) && |batch| == 2 && batch[0].instruction.SignIx? && batch[1].instruction.ExecuteIx?
    ensures var r := RunBatch(env, w, batch, executor, h, callOk);
            r.Ok? ==> StatusRead(w, h) in {Loaded, Signed} && StatusRead(r.value, h) == Executed
  {
    if RunBatch(env, w, batch, executor, h, callOk).Ok? {
      var ix := OnChain(batch[0].instruction, executor, h, callOk);
      assert batch[1..][0] == batch[1];
      SignEffect(env, w, ix);
      ExecuteFinishes(env, Apply(env, w, ix), batch[1..], executor, h, callOk);
    }
  }

  /**
    A batch all of whose instructions succeed leaves its operation executed, and that can happen only
    once: it was not executed before, and a batch that loads needs an operation not loaded yet.
  */
  lemma BatchCompletesOperation(env: Env, w: World, t: Task, k: nat, executor: Pubkey, callOk: bool)
    requires OpsOk(env, w)
    ensures Built(t, k).Ok? ==>
              var r := RunBatch(env, w, Built(t, k).value, executor, t.opHash, callOk);
              r.Ok? ==>
                && StatusRead(r.value, t.opHash) == Executed
                && StatusRead(w, t.opHash) != Executed
                && (t.outside.statuses(k).value == New ==> t.opHash !in w.ops)
                && (t.outside.statuses(k).value == Loaded ==> StatusRead(w, t.opHash) in {Loaded, Signed})
                && (t.outside.statuses(k).value == Signed ==> StatusRead(w, t.opHash) == Signed)
  {
    if Built(t, k).Ok? && RunBatch(env, w, Built(t, k).value, executor, t.opHash, callOk).Ok? {
      var batch := Built(t, k).value;
      match t.outside.statuses(k).value
      case New =>
        var ix := OnChain(batch[0].instruction, executor, t.opHash, callOk);
        LoadEffect(env, w, ix);
        StepAdvances(env, w, ix);
        SignThenExecute(env, Apply(env, w, ix), batch[1..], executor, t.opHash, callOk);
      case Loaded => SignThenExecute(env, w, batch, executor, t.opHash, callOk);
      case Signed => ExecuteFinishes(env, w, batch, executor, t.opHash, callOk);
      case _ =>
    }
  }

  /** The world admits the operation, its signatures suffice there, and the call it makes goes to another program and succeeds. */
  ghost predicate Ready(env: Env, w: World, op: PD.OperationData, h: seq<byte>, caller: Pubkey, signatures: seq<PD.Signature>, first: Option<Pubkey>) {
    && MayExecute(w, op.protocolId, caller) && h !in w.ops && w.config.Some? && PD.OpHash(env.crypto, op) == Some(h)
    && op.destChainId == env.chainId && op.protocolAddr == w.protocols[op.protocolId].protocolAddress
    && |op.protocolId| == 32 && (exists i :: 0 <= i < 32 && op.protocolId[i] != 0)
    && first == Some(op.protocolAddr) && op.protocolAddr != env.programId
    && var info := w.protocols[op.protocolId];
       var recovered := Recovered(env.crypto, h, signatures);
       && Transmitters(info) != [] && info.consensusTargetRate > 0 && AllRecoverable(recovered)
       && QuorumSize(|Transmitters(info)|, info.consensusTargetRate) <= |Supplied(Transmitters(info), recovered)|
       && QuorumSize(|Transmitters(info)|, info.consensusTargetRate) <= 16
  }

  /** On an operation just loaded, enough signatures approve it. */
  lemma ReadyIsSigned(env: Env, w: World, w1: World, op: PD.OperationData, h: seq<byte>, caller: Pubkey, signatures: seq<PD.Signature>, first: Option<Pubkey>)
    requires Ready(env, w, op, h, caller, signatures, first)
    requires w1.protocols == w.protocols && h in w1.ops && w1.ops[h] == OpInfo(PD.Init, NO_SIGNERS, op)
    ensures Step(env, w1, SignOperation(caller, h, signatures)).Ok?
    ensures var w2 := Apply(env, w1, SignOperation(caller, h, signatures));
            h in w2.ops && w2.ops[h].status == PD.Signed && w2.ops[h].opData == op && w2.protocols == w.protocols
  {
    var info := w.protocols[op.protocolId];
    var n, rate := |Transmitters(info)|, info.consensusTargetRate;
    var union := ToSet<EthAddress>([]) + Supplied(Transmitters(info), Recovered(env.crypto, h, signatures));
    EmptySigners(op);
    assert union == Supplied(Transmitters(info), Recovered(env.crypto, h, signatures));
    QuorumArithmetic(0, n, rate);
    QuorumArithmetic(|union|, n, rate);
    SignedExactlyAtQuorum(env.crypto, info, w1.ops[h], h, signatures);
    SignExactly(env, w1, caller, h, signatures);
    SignOpEffect(env.crypto, info, w1.ops[h], h, signatures);
  }

  /**
    What the executor sends for a new operation does execute it: where the operation is admitted and its own
    signatures reach the quorum, the whole batch succeeds.
  */
  lemma FreshBatchExecutes(env: Env, w: World, t: Task, k: nat, caller: Pubkey)
    requires t.outside.statuses(k) == Some(New) && Built(t, k).Ok?
    requires Built(t, k).value[0].instruction.LoadIx?
    requires t.outside.extension(k).Some? && t.outside.extension(k).value.accounts.Ok? && t.outside.extension(k).value.accounts.value != []
    requires Ready(env, w, Built(t, k).value[0].instruction.opData, t.opHash, caller, t.op.signatures,
                   Some(t.outside.extension(k).value.accounts.value[0]))
    ensures RunBatch(env, w, Built(t, k).value, caller, t.opHash, true).Ok?
    ensures StatusRead(RunBatch(env, w, Built(t, k).value, caller, t.opHash, true).value, t.opHash) == Executed
  {
    var batch, h := Built(t, k).value, t.opHash;
    var accounts := t.outside.extension(k).value.accounts.value;
    BatchCarries(t.outside.isUtf8, t.outside.extension(k), t.op, New);
    var op := batch[0].instruction.opData;
    LoadExactly(env, w, caller, op, h);
    LoadEffect(env, w, LoadOperation(caller, op, h));
    var w1 := Apply(env, w, LoadOperation(caller, op, h));
    ReadyIsSigned(env, w, w1, op, h, caller, t.op.signatures, Some(accounts[0]));
    var w2 := Apply(env, w1, SignOperation(caller, h, t.op.signatures));
    ExecuteExactly(env, w2, caller, h, Some(accounts[0]), true);
    var w3 := Apply(env, w2, ExecuteOperation(caller, h, Some(accounts[0]), true));
    ThreeSteps(env, w, batch, caller, h, w1, w2, w3);
  }

  lemma ThreeSteps(env: Env, w: World, batch: seq<Bundle>, caller: Pubkey, h: seq<byte>, w1: World, w2: World, w3: World)
    requires |batch| == 3
    requires Step(env, w, OnChain(batch[0].instruction, caller, h, true)) == Ok(w1)
    requires Step(env, w1, OnChain(batch[1].instruction, caller, h, true)) == Ok(w2)
    requires Step(env, w2, OnChain(batch[2].instruction, caller, h, true)) == Ok(w3)
    ensures RunBatch(env, w, batch, caller, h, true) == Ok(w3)
  {
    assert batch[1..][0] == batch[1] && batch[1..][1..] == batch[2..] && batch[2..][0] == batch[2] && batch[2..][1..] == [];
    assert RunBatch(env, w2, batch[2..], caller, h, true) == Ok(w3);
    assert RunBatch(env, w1, batch[1..], caller, h, true) == Ok(w3);
  }
}
