/** One operation's way through the executor (transmitter-module/src/executor_app/operation_manager.rs). */
module OperationManager {
  import opened Wrappers
  import opened Bytes
  import PD = ProtocolData
  import TD = TransmitterData
  import IxCompiler

  type Bundle = IxCompiler.InstructionBundle<Ix>

  datatype ExecutorOpStatus = New | Loaded | Signed | Executed | Failed {
    function Rank(): nat {
      match this
      case New => 0
      case Loaded => 1
      case Signed => 2
      case Executed => 3
      case Failed => 4
    }
  }

  /** What a read of the account can tell. */
  type ChainStatus = s: ExecutorOpStatus | s != Failed witness New

  function FromOpStatus(s: PD.OpStatus): ChainStatus {
    match s
    case None_ => New
    case Init => Loaded
    case Signed => Signed
    case Executed => Executed
  }

  datatype ExecutorError = MalformedData | ExtensionMng | ExtensionFailed(code: int) | TransactorFailed(code: int) | Panicked

  datatype SignedOperation = SignedOperation(eobBlockNumber: u64, operationData: TD.OperationData, signatures: seq<PD.Signature>)

  datatype OpAcknowledge = OpAcknowledge(blockNumber: u64, opHash: seq<byte>, status: ExecutorOpStatus)

  datatype Ix = LoadIx(opData: PD.OperationData) | SignIx(signatures: seq<PD.Signature>) | ExecuteIx(accounts: seq<Pubkey>)

  /** What a protocol's extension answers for one operation. */
  datatype ProtocolExtension = ProtocolExtension(accounts: Result<seq<Pubkey>, int>, computeBudget: Option<IxCompiler.u32>)

  /**
    What the outside gives one operation: the i-th status read (None when the account does not
    deserialise), the extension loaded at that time, and the error of sending the i-th batch, if any.
  */
  datatype Surroundings = Surroundings(
    isUtf8: seq<byte> -> bool,
    statuses: nat -> Option<ChainStatus>,
    extension: nat -> Option<ProtocolExtension>,
    sends: nat -> Option<int>)

  /** One operation being processed. */
  datatype Task = Task(op: SignedOperation, opHash: seq<byte>, outside: Surroundings)

  /** `build_load_ix`; the conversion panics on a selector of unknown kind. */
  function BuildLoad(isUtf8: seq<byte> -> bool, op: SignedOperation): Result<Bundle, ExecutorError> {
    if !isUtf8(op.operationData.protocolId) then Err(MalformedData)
    else match TD.ToOnChain(isUtf8, op.operationData)
      case Err(UnexpectedKind) => Err(Panicked)
      case Err(_) => Err(MalformedData)
      case Ok(opData) => Ok(IxCompiler.InstructionBundle(LoadIx(opData), 200_000))
  }

  function BuildSign(op: SignedOperation): Bundle {
    IxCompiler.InstructionBundle(SignIx(op.signatures), 400_000)
  }

  function BuildExecute(extension: Option<ProtocolExtension>, op: SignedOperation): Result<Bundle, ExecutorError> {
    if extension.None? then Err(ExtensionMng)
    else if |op.operationData.functionSelector| < 3 then Err(MalformedData)
    else match extension.value.accounts
      case Err(code) => Err(ExtensionFailed(code))
      case Ok(accounts) =>
        var budget := extension.value.computeBudget;
        Ok(IxCompiler.InstructionBundle(ExecuteIx(accounts), if budget.Some? then budget.value else 200_000))
  }

  /** `build_ixs`: what is still to be done in this status. */
  function BuildIxs(isUtf8: seq<byte> -> bool, extension: Option<ProtocolExtension>, op: SignedOperation, status: ExecutorOpStatus): Result<seq<Bundle>, ExecutorError> {
    match status
    case New =>
      var load :- BuildLoad(isUtf8, op);
      var execute :- BuildExecute(extension, op);
      Ok([load, BuildSign(op), execute])
    case Loaded =>
      var execute :- BuildExecute(extension, op);
      Ok([BuildSign(op), execute])
    case Signed =>
      var execute :- BuildExecute(extension, op);
      Ok([execute])
    case Executed => Err(Panicked)
    case Failed => Err(Panicked)
  }

  /** The conversion's record is the operation's, field by field, with the selector read from its bytes. */
  predicate ConvertedFrom(isUtf8: seq<byte> -> bool, op: TD.OperationData, on: PD.OperationData) {
    && on.protocolId == op.protocolId && on.meta == op.meta && on.srcChainId == op.srcChainId
    && on.srcBlockNumber == op.srcBlockNumber && on.srcOpTxId == op.srcOpTxId && on.nonce == op.nonce
    && on.destChainId == op.destChainId && on.protocolAddr == op.protocolAddr
    && on.params == op.params && on.reserved == op.reserved
    && |op.functionSelector| >= 2
    && (if op.functionSelector[0] == 0 then on.functionSelector == PD.ByCode(op.functionSelector[2..])
        else op.functionSelector[0] == 1 && isUtf8(op.functionSelector[2..]) && on.functionSelector == PD.ByName(op.functionSelector[2..]))
  }

  /** The executor instruction names the extension's accounts and asks for its budget, or 200000. */
  predicate ExecutesBy(extension: Option<ProtocolExtension>, b: Bundle) {
    && extension.Some? && extension.value.accounts.Ok? && b.instruction == ExecuteIx(extension.value.accounts.value)
    && b.computeUnits == if extension.value.computeBudget.Some? then extension.value.computeBudget.value else 200_000
  }

  /** What a batch carries: the missing steps in order, with the operation's own data and signatures, at fixed costs. */
  lemma BatchCarries(isUtf8: seq<byte> -> bool, extension: Option<ProtocolExtension>, op: SignedOperation, status: ExecutorOpStatus)
    requires BuildIxs(isUtf8, extension, op, status).Ok?
    ensures var b := BuildIxs(isUtf8, extension, op, status).value;
            var n := |b|;
            && status in {New, Loaded, Signed}
            && n == (if status == New then 3 else if status == Loaded then 2 else 1)
            && ExecutesBy(extension, b[n - 1])
            && (n >= 2 ==> b[n - 2].instruction == SignIx(op.signatures) && b[n - 2].computeUnits == 400_000)
            && (n == 3 ==> b[0].instruction.LoadIx? && b[0].computeUnits == 200_000
                           && ConvertedFrom(isUtf8, op.operationData, b[0].instruction.opData))
  {
    if status == New {
      var on := TD.ToOnChain(isUtf8, op.operationData);
      assert BuildLoad(isUtf8, op).Ok? && on.Ok?;
    }
  }

  /** When there is a batch: the protocol has an extension that names accounts, and what is to be loaded converts. */
  lemma BatchExactly(isUtf8: seq<byte> -> bool, extension: Option<ProtocolExtension>, op: SignedOperation, status: ExecutorOpStatus)
    requires status in {New, Loaded, Signed}
    ensures var data := op.operationData;
            BuildIxs(isUtf8, extension, op, status).Ok?
            <==> && extension.Some? && extension.value.accounts.Ok? && |data.functionSelector| >= 3
                 && (status == New ==>
                       && isUtf8(data.protocolId) && |data.protocolAddr| == 32
                       && (data.functionSelector[0] == 0 || (data.functionSelector[0] == 1 && isUtf8(data.functionSelector[2..]))))
  {
  }

  // ---- When the loop ends ----

  /** Statuses read later are never behind. */
  ghost predicate NonDecreasing(statuses: nat -> Option<ChainStatus>) {
    forall i: nat, j: nat :: i <= j && statuses(i).Some? && statuses(j).Some? ==> statuses(i).value.Rank() <= statuses(j).value.Rank()
  }

  /** How many reads in a row right before the k-th it repeats. */
  function Repeats(statuses: nat -> Option<ChainStatus>, k: nat): nat {
    if k == 0 || statuses(k - 1) != statuses(k) then 0 else Repeats(statuses, k - 1) + 1
  }

  lemma {:induction false} RepeatsExactly(statuses: nat -> Option<ChainStatus>, k: nat, n: nat)
    ensures Repeats(statuses, k) >= n <==> n <= k && forall j: nat :: k - n <= j < k ==> statuses(j) == statuses(k)
  {
    if n > 0 && k > 0 {
      RepeatsExactly(statuses, k - 1, n - 1);
    }
  }

  /** The status read ends the loop: malformed, done, or seen too often. */
  predicate Halts(statuses: nat -> Option<ChainStatus>, limit: nat, k: nat) {
    statuses(k).None? || statuses(k).value == Executed || Repeats(statuses, k) >= limit
  }

  /** A read moves on within the limit. */
  lemma MovesOn(statuses: nat -> Option<ChainStatus>, limit: nat, k: nat)
    requires NonDecreasing(statuses)
    requires forall j: nat :: j <= k + limit ==> !Halts(statuses, limit, j)
    ensures statuses(k).Some? && statuses(k + limit).Some?
    ensures statuses(k).value.Rank() < statuses(k + limit).value.Rank() < 3
  {
    RepeatsExactly(statuses, k + limit, limit);
    assert !Halts(statuses, limit, k + limit) && !Halts(statuses, limit, k);
    var j: nat :| k <= j < k + limit && statuses(j) != statuses(k + limit);
    assert !Halts(statuses, limit, j);
    assert statuses(j).value.Rank() != statuses(k + limit).value.Rank();
  }

  /** With reads that never go back, one of the first 3 * limit + 1 reads ends the loop. */
  lemma EndsInTime(statuses: nat -> Option<ChainStatus>, limit: nat, k: nat)
    requires NonDecreasing(statuses)
    requires forall j: nat :: j < k ==> !Halts(statuses, limit, j)
    ensures k <= 3 * limit
  {
    if k > 3 * limit {
      MovesOn(statuses, limit, 0);
      MovesOn(statuses, limit, limit);
      MovesOn(statuses, limit, 2 * limit);
    }
  }

  /** What `build_ixs` gives for the k-th status. */
  function Built(t: Task, k: nat): Result<seq<Bundle>, ExecutorError> {
    if t.outside.statuses(k).None? then Err(MalformedData)
    else BuildIxs(t.outside.isUtf8, t.outside.extension(k), t.op, t.outside.statuses(k).value)
  }

  /** The k-th round is not the last. */
  predicate Continues(t: Task, limit: nat, k: nat) {
    !Halts(t.outside.statuses, limit, k) && Built(t, k).Ok? && t.outside.sends(k).None?
  }

  predicate ContinuesUpTo(t: Task, limit: nat, k: nat) {
    k == 0 || (ContinuesUpTo(t, limit, k - 1) && Continues(t, limit, k - 1))
  }

  predicate LastRound(t: Task, limit: nat, k: nat) {
    ContinuesUpTo(t, limit, k) && !Continues(t, limit, k)
  }

  /** What building and sending in the k-th round gives. */
  function Sending(t: Task, k: nat): Result<(), ExecutorError> {
    match Built(t, k)
    case Err(e) => Err(e)
    case Ok(_) => if t.outside.sends(k).Some? then Err(TransactorFailed(t.outside.sends(k).value)) else Ok(())
  }

  /** What the last round returns. */
  function Ending(t: Task, limit: nat, k: nat): Result<(), ExecutorError> {
    if Halts(t.outside.statuses, limit, k) then Ok(()) else Sending(t, k)
  }

  /** What decides a round: the status read, then how often it has been read, then building, then sending. */
  lemma RoundExactly(t: Task, limit: nat, k: nat)
    requires limit > 0
    ensures var read, built, sent := t.outside.statuses(k), Built(t, k), t.outside.sends(k);
            var often := limit <= k && forall j: nat :: k - limit <= j < k ==> t.outside.statuses(j) == read;
            if read.None? then
              !Continues(t, limit, k) && Ending(t, limit, k).Ok? && Acknowledged(t, limit, k) == None && SubmittedRounds(t, limit, k) == k
            else if read.value == Executed then
              !Continues(t, limit, k) && Ending(t, limit, k).Ok? && Acknowledged(t, limit, k) == Some(Executed) && SubmittedRounds(t, limit, k) == k
            else if often then
              !Continues(t, limit, k) && Ending(t, limit, k).Ok? && Acknowledged(t, limit, k) == Some(Failed) && SubmittedRounds(t, limit, k) == k
            else if built.Err? then
              !Continues(t, limit, k) && Ending(t, limit, k) == Err(built.error) && Acknowledged(t, limit, k) == None && SubmittedRounds(t, limit, k) == k
            else if sent.Some? then
              && !Continues(t, limit, k) && Ending(t, limit, k) == Err(TransactorFailed(sent.value))
              && Acknowledged(t, limit, k) == None && SubmittedRounds(t, limit, k) == k + 1
            else
              Continues(t, limit, k)
  {
    RepeatsExactly(t.outside.statuses, k, limit);
  }

  /** The selector's kind byte is none the conversion knows, and nothing before it in the conversion fails. */
  predicate UnknownKind(t: Task) {
    var op := t.op.operationData;
    && t.outside.isUtf8(op.protocolId) && |op.protocolAddr| == 32
    && op.functionSelector != [] && op.functionSelector[0] >= 2
  }

  /**
    Exactly when a round panics: its operation is still to be loaded and the selector's kind is unknown.
    The panic of `build_ixs` itself is never reached.
  */
  lemma PanicsExactly(t: Task, limit: nat, k: nat)
    ensures Ending(t, limit, k) == Err(Panicked)
       <==> !Halts(t.outside.statuses, limit, k) && t.outside.statuses(k) == Some(New) && UnknownKind(t)
  {
    if !Halts(t.outside.statuses, limit, k) {
      assert t.outside.statuses(k).value in {New, Loaded, Signed};
      assert BuildExecute(t.outside.extension(k), t.op) != Err(Panicked);
      assert BuildLoad(t.outside.isUtf8, t.op) == Err(Panicked) <==> UnknownKind(t);
    }
  }

  /** It happens: the selector that the contract writes for none at all ends the first round of a new operation in a panic. */
  lemma DummySelectorPanics(t: Task, limit: nat)
    requires limit > 0 && t.outside.statuses(0) == Some(New)
    requires Ok(t.op.operationData.functionSelector) == PD.ToBytes(PD.Dummy)
    requires t.outside.isUtf8(t.op.operationData.protocolId) && |t.op.operationData.protocolAddr| == 32
    ensures LastRound(t, limit, 0) && Ending(t, limit, 0) == Err(Panicked)
    ensures Acknowledged(t, limit, 0) == None && SubmittedRounds(t, limit, 0) == 0
  {
    PanicsExactly(t, limit, 0);
  }

  /** The status acknowledged in the last round. */
  function Acknowledged(t: Task, limit: nat, k: nat): Option<ExecutorOpStatus> {
    var status := t.outside.statuses(k);
    if status.None? || !Halts(t.outside.statuses, limit, k) then None
    else Some(if status.value == Executed then Executed else Failed)
  }

  /** How many batches are submitted when the k-th round is the last: its own counts even when sending it fails. */
  function SubmittedRounds(t: Task, limit: nat, k: nat): nat {
    if !Halts(t.outside.statuses, limit, k) && Built(t, k).Ok? then k + 1 else k
  }

  /** The batch the k-th round submits, if it builds one. */
  function BatchOf(t: Task, k: nat): seq<seq<Bundle>> {
    if Built(t, k).Ok? then [Built(t, k).value] else []
  }

  /** The batches of the first n rounds. */
  function Batches(t: Task, n: nat): seq<seq<Bundle>> {
    if n == 0 then [] else Batches(t, n - 1) + BatchOf(t, n - 1)
  }

  lemma BatchesMore(t: Task, start: seq<seq<Bundle>>, n: nat)
    ensures start + Batches(t, n) + BatchOf(t, n) == start + Batches(t, n + 1)
  {
    AppendAssociative(start, Batches(t, n), BatchOf(t, n));
  }

  lemma {:induction false} EveryRoundSubmits(t: Task, limit: nat, k: nat)
    requires ContinuesUpTo(t, limit, k)
    ensures |Batches(t, SubmittedRounds(t, limit, k))| == SubmittedRounds(t, limit, k)
  {
    if k > 0 {
      EveryRoundSubmits(t, limit, k - 1);
    }
  }

  lemma {:induction false} ContinuesBefore(t: Task, limit: nat, k: nat, j: nat)
    requires ContinuesUpTo(t, limit, k) && j < k
    ensures Continues(t, limit, j)
  {
    if j < k - 1 {
      ContinuesBefore(t, limit, k - 1, j);
    }
  }

  /** The retry bound: at most 3 * limit batches are submitted, the last one included when sending it fails. */
  lemma RetryBound(t: Task, limit: nat, k: nat)
    requires NonDecreasing(t.outside.statuses) && ContinuesUpTo(t, limit, k)
    ensures k <= SubmittedRounds(t, limit, k) <= 3 * limit
    ensures |Batches(t, SubmittedRounds(t, limit, k))| == SubmittedRounds(t, limit, k)
  {
    var n := SubmittedRounds(t, limit, k);
    forall j: nat | j < n
      ensures !Halts(t.outside.statuses, limit, j)
    {
      if j < k {
        ContinuesBefore(t, limit, k, j);
      }
    }
    EndsInTime(t.outside.statuses, limit, n);
    EveryRoundSubmits(t, limit, k);
  }

  /** Reads that use the whole bound: each status is seen limit times. */
  function Slowest(limit: nat): nat -> Option<ChainStatus>
    requires limit > 0
  {
    i => Some(if i < limit then New else if i < 2 * limit then Loaded else if i < 3 * limit then Signed else Executed)
  }

  lemma {:induction false} SlowestRepeats(limit: nat, k: nat)
    requires 0 < limit && k < 3 * limit
    ensures Repeats(Slowest(limit), k) == if k < limit then k else if k < 2 * limit then k - limit else k - 2 * limit
  {
    if k > 0 {
      SlowestRepeats(limit, k - 1);
    }
  }

  lemma {:induction false} SlowestContinues(t: Task, limit: nat, k: nat)
    requires 0 < limit && k <= 3 * limit && t.outside.statuses == Slowest(limit)
    requires forall i: nat :: !Halts(t.outside.statuses, limit, i) ==> Built(t, i).Ok? && t.outside.sends(i).None?
    ensures ContinuesUpTo(t, limit, k)
  {
    if k > 0 {
      SlowestContinues(t, limit, k - 1);
      SlowestRepeats(limit, k - 1);
      assert !Halts(t.outside.statuses, limit, k - 1);
    }
  }

  /** The bound is reached: with these reads, and nothing else failing, exactly 3 * limit batches are submitted. */
  lemma BoundIsReached(t: Task, limit: nat)
    requires 0 < limit && t.outside.statuses == Slowest(limit)
    requires forall i: nat :: !Halts(t.outside.statuses, limit, i) ==> Built(t, i).Ok? && t.outside.sends(i).None?
    ensures LastRound(t, limit, 3 * limit)
    ensures |Batches(t, SubmittedRounds(t, limit, 3 * limit))| == 3 * limit
  {
    SlowestContinues(t, limit, 3 * limit);
    EveryRoundSubmits(t, limit, 3 * limit);
  }

  lemma {:induction false} AllContinue(t: Task, limit: nat, k: nat)
    requires forall j: nat :: j < k ==> Continues(t, limit, j)
    ensures ContinuesUpTo(t, limit, k)
  {
    if k > 0 {
      AllContinue(t, limit, k - 1);
    }
  }

  /** Reads that never go back do end the loop. */
  lemma OrderedReadsEnd(t: Task, limit: nat)
    requires NonDecreasing(t.outside.statuses)
    ensures exists k: nat :: k <= 3 * limit && !Continues(t, limit, k)
  {
    if forall k: nat :: k <= 3 * limit ==> Continues(t, limit, k) {
      AllContinue(t, limit, 3 * limit + 1);
      RetryBound(t, limit, 3 * limit + 1);
    }
  }

  /** Reads that keep going back need not: when New and Loaded alternate and nothing else fails, the attempts never add up. */
  lemma AlternatingReadsNeverEnd(t: Task, limit: nat, k: nat)
    requires limit > 0 && forall i: nat :: t.outside.statuses(i) == Some(if i % 2 == 0 then New else Loaded)
    requires forall i: nat :: !Halts(t.outside.statuses, limit, i) ==> Built(t, i).Ok? && t.outside.sends(i).None?
    ensures Continues(t, limit, k)
  {
    if k > 0 {
      assert t.outside.statuses(k - 1) != t.outside.statuses(k);
    }
    assert !Halts(t.outside.statuses, limit, k);
  }

  function Limit(executorAttempts: nat): nat {
    if executorAttempts > 1 then executorAttempts else 1
  }

  function AcksFor(t: Task, status: Option<ExecutorOpStatus>): seq<OpAcknowledge> {
    if status.None? then [] else [OpAcknowledge(t.op.eobBlockNumber, t.opHash, status.value)]
  }

  /** Everything one operation acknowledges. */
  function TaskAcks(t: Task, limit: nat, last: nat): seq<OpAcknowledge> {
    [OpAcknowledge(t.op.eobBlockNumber, t.opHash, New)] + AcksFor(t, Acknowledged(t, limit, last))
  }

  class OperationManager {
    const executorAttempts: nat
    var acknowledged: seq<OpAcknowledge>
    /** The batches handed to `send_all_instructions`. */
    var submitted: seq<seq<Bundle>>

    constructor (executorAttempts: nat)
      ensures this.executorAttempts == executorAttempts && acknowledged == [] && submitted == []
    {
      this.executorAttempts := executorAttempts;
      acknowledged, submitted := [], [];
    }

    /** One operation of `execute_operations`: it is announced, then processed. Errors are only logged; a panic ends the executor. */
    method ExecuteOperation(t: Task) returns (panicked: bool, ghost last: nat)
      requires exists k: nat :: !Continues(t, Limit(executorAttempts), k)
      modifies this
      ensures var limit := Limit(executorAttempts);
              && LastRound(t, limit, last) && acknowledged == old(acknowledged) + TaskAcks(t, limit, last)
              && submitted == old(submitted) + Batches(t, SubmittedRounds(t, limit, last))
              && (panicked <==> t.outside.statuses(last) == Some(New) && !Halts(t.outside.statuses, limit, last) && UnknownKind(t))
    {
      acknowledged := acknowledged + [OpAcknowledge(t.op.eobBlockNumber, t.opHash, New)];
      var r, k := ProcessOperation(t);
      panicked, last := r == Err(Panicked), k;
      PanicsExactly(t, Limit(executorAttempts), k);
    }

    /** `process_operation`, every balance check along the way passing, whenever some round does not continue. */
    method ProcessOperation(t: Task) returns (r: Result<(), ExecutorError>, ghost last: nat)
      requires exists k: nat :: !Continues(t, Limit(executorAttempts), k)
      modifies this
      ensures var limit := Limit(executorAttempts);
              && LastRound(t, limit, last) && r == Ending(t, limit, last)
              && acknowledged == old(acknowledged) + AcksFor(t, Acknowledged(t, limit, last))
              && submitted == old(submitted) + Batches(t, SubmittedRounds(t, limit, last))
    {
      ghost var limit := Limit(executorAttempts);
      ghost var statuses := t.outside.statuses;
      var lastStatus: Option<ChainStatus>, attempts := None, 0;
      AppendEmpty(submitted);
      var i: nat := 0;
      last := 0;
      ghost var end: nat :| !Continues(t, limit, end);
      while true
        invariant acknowledged == old(acknowledged) && submitted == old(submitted) + Batches(t, i)
        invariant ContinuesUpTo(t, limit, i) && i <= end
        invariant i == 0 ==> lastStatus == None && attempts == 0
        invariant i > 0 ==> lastStatus == statuses(i - 1) && !Halts(statuses, limit, i - 1) && attempts == Repeats(statuses, i - 1)
        decreases end - i
      {
        last := i;
        var read := t.outside.statuses(i);
        if read.None? {
          return Ok(()), last;
        }
        var opStatus: ExecutorOpStatus := read.value;
        if lastStatus == read {
          attempts := attempts + 1;
          if attempts >= executorAttempts {
            opStatus := Failed;
          }
        } else {
          lastStatus, attempts := read, 0;
        }
        assert attempts == Repeats(statuses, i);
        if opStatus == Executed || opStatus == Failed {
          AckExecuted(t, opStatus);
          return Ok(()), last;
        }
        BatchesMore(t, old(submitted), i);
        r := Submit(t, i, opStatus);
        assert r == Ending(t, limit, i) && (r.Ok? <==> Continues(t, limit, i));
        if r.Err? {
          return r, last;
        }
        i := i + 1;
      }
    }

    /** `ack_executed` */
    method AckExecuted(t: Task, status: ExecutorOpStatus)
      modifies this`acknowledged
      ensures acknowledged == old(acknowledged) + [OpAcknowledge(t.op.eobBlockNumber, t.opHash, status)]
    {
      acknowledged := acknowledged + [OpAcknowledge(t.op.eobBlockNumber, t.opHash, status)];
    }

    /** Builds what is left to do in this status and hands it to the network. */
    method Submit(t: Task, i: nat, status: ExecutorOpStatus) returns (r: Result<(), ExecutorError>)
      requires t.outside.statuses(i) == Some(status)
      modifies this`submitted
      ensures submitted == old(submitted) + BatchOf(t, i) && r == Sending(t, i)
    {
      var batch := BuildIxs(t.outside.isUtf8, t.outside.extension(i), t.op, status);
      if batch.Err? {
        return Err(batch.error);
      }
      submitted := submitted + [batch.value];
      var sent := t.outside.sends(i);
      r := if sent.Some? then Err(TransactorFailed(sent.value)) else Ok(());
    }
  }
}
