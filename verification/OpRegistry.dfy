/** Which block is completely done: the registry of pending operations (transmitter-module/src/executor_app/last_block_updater.rs). */
module OpRegistry {
  import opened Wrappers
  import opened Bytes
  import opened OperationManager

  datatype BlockInfo = BlockInfo(createdAt: nat, ops: set<seq<byte>>)

  type Known = map<u64, BlockInfo>

  /** `on_acknowledge` at the given time; any status creates the block's entry. */
  function OnAcknowledge(known: Known, a: OpAcknowledge, now: nat): Known {
    var info := if a.blockNumber in known then known[a.blockNumber] else BlockInfo(now, {});
    known[a.blockNumber :=
      match a.status
      case New => info.(ops := info.ops + {a.opHash})
      case Executed => info.(ops := info.ops - {a.opHash})
      case Failed => info.(ops := info.ops - {a.opHash})
      case _ => info]
  }

  // ---- Which block a poll returns ----

  /** How many known blocks come before this one, which is when `get_block_to_ack` gets to it. */
  function Position(known: Known, b: u64): nat {
    |set k | k in known && k < b|
  }

  /** The block has no pending operation and is old enough when it is looked at. */
  predicate Ripe(known: Known, timeout: nat, clock: nat -> nat, b: u64)
    requires b in known
  {
    known[b].ops == {} && clock(Position(known, b)) > known[b].createdAt + timeout
  }

  /** This block and all before it can be acknowledged. */
  ghost predicate Settled(known: Known, timeout: nat, clock: nat -> nat, b: u64) {
    b in known && forall k :: k in known && k <= b ==> Ripe(known, timeout, clock, k)
  }

  /** The greatest settled block, which ends the maximal prefix of ripe blocks. */
  ghost predicate IsBlockToAck(known: Known, timeout: nat, clock: nat -> nat, r: Option<u64>) {
    match r
    case None => forall k :: k in known ==> !Settled(known, timeout, clock, k)
    case Some(b) => Settled(known, timeout, clock, b) && forall k :: k in known && k > b ==> !Settled(known, timeout, clock, k)
  }

  function Dropped(known: Known, r: Option<u64>): Known {
    map k | k in known && (r.None? || k > r.value) :: known[k]
  }

  predicate IsLeast(keys: set<u64>, k: u64) {
    k in keys && forall j :: j in keys ==> k <= j
  }

  lemma LeastKey(keys: set<u64>) returns (k: u64)
    requires keys != {}
    ensures IsLeast(keys, k)
    decreases keys
  {
    k :| k in keys;
    var rest := keys - {k};
    assert keys == rest + {k};
    if rest != {} {
      var least := LeastKey(rest);
      k := if k < least then k else least;
    }
  }

  /** The blocks known before the poll and dropped so far. */
  function Passed(known: Known, r: Option<u64>): set<u64> {
    set k | k in known && r.Some? && k <= r.value
  }

  /** The next block the loop looks at is the one right after those dropped. */
  lemma NextPosition(known: Known, r: Option<u64>, first: u64)
    requires IsLeast(Dropped(known, r).Keys, first)
    ensures Position(known, first) == |Passed(known, r)|
    ensures |Passed(known, Some(first))| == |Passed(known, r)| + 1
    ensures Dropped(known, Some(first)) == Dropped(known, r) - {first}
  {
    var dropped := Dropped(known, r);
    forall k | k in known
      ensures k in Passed(known, r) <==> k < first
    {
      assert k in dropped.Keys <==> k !in Passed(known, r);
    }
    assert Passed(known, r) == (set k | k in known && k < first);
    assert Passed(known, Some(first)) == Passed(known, r) + {first};
  }

  lemma SettledFurther(known: Known, timeout: nat, clock: nat -> nat, r: Option<u64>, first: u64)
    requires r.Some? ==> Settled(known, timeout, clock, r.value)
    requires IsLeast(Dropped(known, r).Keys, first)
    ensures Settled(known, timeout, clock, first) <==> Ripe(known, timeout, clock, first)
    ensures !Ripe(known, timeout, clock, first) ==> IsBlockToAck(known, timeout, clock, r)
  {
    forall k | k in known && k <= first && k != first
      ensures r.Some? && k <= r.value
    {
      assert k !in Dropped(known, r);
    }
  }

  lemma NothingLeft(known: Known, timeout: nat, clock: nat -> nat, r: Option<u64>)
    requires r.Some? ==> Settled(known, timeout, clock, r.value)
    requires Dropped(known, r).Keys == {}
    ensures IsBlockToAck(known, timeout, clock, r)
  {
    forall k | k in known
      ensures r.Some? && k <= r.value
    {
      assert k !in Dropped(known, r).Keys;
    }
  }

  class OpRegistry {
    var known: Known
    const ackTimeout: nat

    constructor (ackTimeout: nat)
      ensures this.ackTimeout == ackTimeout && known == map[]
    {
      this.ackTimeout := ackTimeout;
      known := map[];
    }

    method OnAck(a: OpAcknowledge, now: nat)
      modifies this
      ensures known == OnAcknowledge(old(known), a, now)
    {
      if a.blockNumber !in known {
        known := known[a.blockNumber := BlockInfo(now, {})];
      }
      var info := known[a.blockNumber];
      match a.status {
        case New => OnNewOperation(a.blockNumber, a.opHash);
        case Executed => OnExecutedOperation(a.blockNumber, a.opHash);
        case Failed => OnExecutedOperation(a.blockNumber, a.opHash);
        case _ =>
      }
    }

    method OnNewOperation(block: u64, opHash: seq<byte>)
      requires block in known
      modifies this
      ensures known == old(known)[block := old(known)[block].(ops := old(known)[block].ops + {opHash})]
    {
      known := known[block := known[block].(ops := known[block].ops + {opHash})];
    }

    method OnExecutedOperation(block: u64, opHash: seq<byte>)
      requires block in known
      modifies this
      ensures known == old(known)[block := old(known)[block].(ops := old(known)[block].ops - {opHash})]
    {
      known := known[block := known[block].(ops := known[block].ops - {opHash})];
    }

    /** The clock is read once for every block looked at. */
    method GetBlockToAck(clock: nat -> nat) returns (block: Option<u64>)
      modifies this
      ensures IsBlockToAck(old(known), ackTimeout, clock, block)
      ensures known == Dropped(old(known), block)
    {
      block := None;
      ghost var before := known;
      var i := 0;
      while known.Keys != {}
        invariant known == Dropped(before, block)
        invariant block.Some? ==> Settled(before, ackTimeout, clock, block.value)
        invariant i == |Passed(before, block)|
        decreases |known|
      {
        ghost var least := LeastKey(known.Keys);
        var first :| IsLeast(known.Keys, first);
        NextPosition(before, block, first);
        SettledFurther(before, ackTimeout, clock, block, first);
        var now := clock(i);
        if !(now > known[first].createdAt + ackTimeout && known[first].ops == {}) {
          return;
        }
        i := i + 1;
        known := known - {first};
        block := Some(first);
      }
      NothingLeft(before, ackTimeout, clock, block);
    }
  }

  // ---- Runs of the registry ----

  /** An acknowledgement taken from the channel, or a poll, each when its clock says. */
  datatype Action = Acknowledge(ack: OpAcknowledge, now: nat) | Poll(clock: nat -> nat)

  /** known[i] is the registry before actions[i], which returns results[i] when it is a poll. */
  ghost predicate IsRun(timeout: nat, known: seq<Known>, actions: seq<Action>, results: seq<Option<u64>>) {
    && |known| == |actions| + 1 && |results| == |actions| && known[0] == map[]
    && forall i {:trigger Acts(timeout, known[i], actions[i], results[i], known[i + 1])} :: 0 <= i < |actions| ==>
         Acts(timeout, known[i], actions[i], results[i], known[i + 1])
  }

  ghost predicate Acts(timeout: nat, before: Known, action: Action, r: Option<u64>, after: Known) {
    match action
    case Acknowledge(a, now) => r == None && after == OnAcknowledge(before, a, now)
    case Poll(clock) => IsBlockToAck(before, timeout, clock, r) && after == Dropped(before, r)
  }

  predicate Announces(action: Action, b: u64, h: seq<byte>) {
    action.Acknowledge? && action.ack == OpAcknowledge(b, h, New)
  }

  predicate Finishes(action: Action, b: u64, h: seq<byte>) {
    action.Acknowledge? && action.ack in {OpAcknowledge(b, h, Executed), OpAcknowledge(b, h, Failed)}
  }

  /** Announced at some point and not finished since. */
  ghost predicate Pending(actions: seq<Action>, n: nat, b: u64, h: seq<byte>)
    requires n <= |actions|
  {
    exists i :: 0 <= i < n && Announces(actions[i], b, h) && forall j :: i < j < n ==> !Finishes(actions[j], b, h)
  }

  predicate Holds(known: Known, b: u64, h: seq<byte>) {
    b in known && h in known[b].ops
  }

  lemma RunHeldStep(timeout: nat, known: seq<Known>, actions: seq<Action>, results: seq<Option<u64>>, k: nat, b: u64, h: seq<byte>)
    requires IsRun(timeout, known, actions, results) && k < |actions|
    ensures Holds(known[k + 1], b, h) <==> Announces(actions[k], b, h) || (Holds(known[k], b, h) && !Finishes(actions[k], b, h))
  {
    RunStep(timeout, known, actions, results, k);
    HeldStep(timeout, known[k], actions[k], results[k], known[k + 1], b, h);
  }

  /** The registry holds exactly the pending operations, however many blocks have been dropped. */
  lemma {:induction false} HoldsExactlyPending(timeout: nat, known: seq<Known>, actions: seq<Action>, results: seq<Option<u64>>, n: nat, b: u64, h: seq<byte>)
    requires IsRun(timeout, known, actions, results) && n < |known|
    ensures Holds(known[n], b, h) <==> Pending(actions, n, b, h)
  {
    if n > 0 {
      HoldsExactlyPending(timeout, known, actions, results, n - 1, b, h);
      PendingStep(actions, n - 1, b, h);
      RunHeldStep(timeout, known, actions, results, n - 1, b, h);
    } else {
      NothingPending(actions, b, h);
    }
  }

  lemma NothingPending(actions: seq<Action>, b: u64, h: seq<byte>)
    ensures !Pending(actions, 0, b, h)
  {
  }

  lemma RunStep(timeout: nat, known: seq<Known>, actions: seq<Action>, results: seq<Option<u64>>, k: nat)
    requires IsRun(timeout, known, actions, results) && k < |actions|
    ensures Acts(timeout, known[k], actions[k], results[k], known[k + 1])
  {
  }

  lemma PendingStep(actions: seq<Action>, n: nat, b: u64, h: seq<byte>)
    requires n < |actions|
    ensures Pending(actions, n + 1, b, h)
       <==> Announces(actions[n], b, h) || (Pending(actions, n, b, h) && !Finishes(actions[n], b, h))
  {
  }

  lemma HeldStep(timeout: nat, before: Known, action: Action, r: Option<u64>, after: Known, b: u64, h: seq<byte>)
    requires Acts(timeout, before, action, r, after)
    ensures Holds(after, b, h) <==> Announces(action, b, h) || (Holds(before, b, h) && !Finishes(action, b, h))
  {
    match action
    case Acknowledge(_, _) =>
    case Poll(clock) =>
      if r.Some? && b in before && b <= r.value {
        assert Ripe(before, timeout, clock, b);
      }
  }

  /**
    Watermark safety, over every run: when a poll returns block b, every operation announced for b
    or an earlier block has been reported Executed or Failed since.
  */
  lemma WatermarkSafety(timeout: nat, known: seq<Known>, actions: seq<Action>, results: seq<Option<u64>>, n: nat, i: nat)
    requires IsRun(timeout, known, actions, results) && i < n < |actions|
    requires results[n].Some? && actions[i].Acknowledge? && actions[i].ack.status == New
    requires actions[i].ack.blockNumber <= results[n].value
    ensures exists j :: i < j < n && Finishes(actions[j], actions[i].ack.blockNumber, actions[i].ack.opHash)
  {
    var b, h := actions[i].ack.blockNumber, actions[i].ack.opHash;
    RunStep(timeout, known, actions, results, n);
    HoldsExactlyPending(timeout, known, actions, results, n, b, h);
    assert b in known[n] ==> known[n][b].ops == {} by {
      assert b in known[n] ==> Ripe(known[n], timeout, actions[n].clock, b);
    }
    assert Announces(actions[i], b, h) && !Pending(actions, n, b, h);
  }

  /** Of this block no operation is pending, and it is old enough when it is looked at. */
  ghost predicate DoneAt(timeout: nat, known: Known, clock: nat -> nat, actions: seq<Action>, n: nat, k: u64)
    requires n <= |actions| && k in known
  {
    && clock(Position(known, k)) > known[k].createdAt + timeout
    && forall h :: !Pending(actions, n, k, h)
  }

  lemma RipeExactlyWhenDone(timeout: nat, known: seq<Known>, actions: seq<Action>, results: seq<Option<u64>>, n: nat, clock: nat -> nat, k: u64)
    requires IsRun(timeout, known, actions, results) && n <= |actions| && k in known[n]
    ensures Ripe(known[n], timeout, clock, k) <==> DoneAt(timeout, known[n], clock, actions, n, k)
  {
    forall h
      ensures h in known[n][k].ops <==> Pending(actions, n, k, h)
    {
      HoldsExactlyPending(timeout, known, actions, results, n, k, h);
    }
    assert known[n][k].ops == {} <==> forall h :: h !in known[n][k].ops;
  }

  lemma ReachedExactlyWhenSettled(known: Known, timeout: nat, clock: nat -> nat, r: Option<u64>, b: u64)
    requires IsBlockToAck(known, timeout, clock, r) && b in known
    ensures r.Some? && r.value >= b <==> Settled(known, timeout, clock, b)
  {
  }

  /** A poll reaches block b exactly when every known block up to b is old enough and none of its operations is pending. */
  lemma ReachedExactlyWhenDone(timeout: nat, known: seq<Known>, actions: seq<Action>, results: seq<Option<u64>>, n: nat, b: u64)
    requires IsRun(timeout, known, actions, results) && n < |actions| && actions[n].Poll? && b in known[n]
    ensures results[n].Some? && results[n].value >= b
       <==> forall k :: k in known[n] && k <= b ==> DoneAt(timeout, known[n], actions[n].clock, actions, n, k)
  {
    var now, clock := known[n], actions[n].clock;
    RunStep(timeout, known, actions, results, n);
    ReachedExactlyWhenSettled(now, timeout, clock, results[n], b);
    forall k | k in now && k <= b
      ensures Ripe(now, timeout, clock, k) <==> DoneAt(timeout, now, clock, actions, n, k)
    {
      RipeExactlyWhenDone(timeout, known, actions, results, n, clock, k);
    }
  }

  // ---- How old a block is ----

  predicate AcksBlock(action: Action, b: u64) {
    action.Acknowledge? && action.ack.blockNumber == b
  }

  /** The poll dropped every block up to this one. */
  predicate Drops(r: Option<u64>, b: u64) {
    r.Some? && r.value >= b
  }

  /** Something was acknowledged for the block, and it has not been dropped since. */
  ghost predicate Listed(actions: seq<Action>, results: seq<Option<u64>>, n: nat, b: u64)
    requires n <= |actions| == |results|
  {
    exists i :: 0 <= i < n && AcksBlock(actions[i], b) && forall j :: i < j < n ==> !Drops(results[j], b)
  }

  lemma ListedStep(actions: seq<Action>, results: seq<Option<u64>>, n: nat, b: u64)
    requires n < |actions| == |results|
    ensures Listed(actions, results, n + 1, b)
       <==> AcksBlock(actions[n], b) || (Listed(actions, results, n, b) && !Drops(results[n], b))
  {
  }

  lemma KnownStep(timeout: nat, before: Known, action: Action, r: Option<u64>, after: Known, b: u64)
    requires Acts(timeout, before, action, r, after)
    ensures b in after <==> AcksBlock(action, b) || (b in before && !Drops(r, b))
    ensures b in before && b in after ==> after[b].createdAt == before[b].createdAt
    ensures b !in before && b in after ==> action.Acknowledge? && after[b].createdAt == action.now
  {
  }

  lemma RunKnownStep(timeout: nat, known: seq<Known>, actions: seq<Action>, results: seq<Option<u64>>, k: nat, b: u64)
    requires IsRun(timeout, known, actions, results) && k < |actions|
    ensures b in known[k + 1] <==> AcksBlock(actions[k], b) || (b in known[k] && !Drops(results[k], b))
    ensures b in known[k] && b in known[k + 1] ==> known[k + 1][b].createdAt == known[k][b].createdAt
    ensures b !in known[k] && b in known[k + 1] ==> actions[k].Acknowledge? && known[k + 1][b].createdAt == actions[k].now
  {
    RunStep(timeout, known, actions, results, k);
    KnownStep(timeout, known[k], actions[k], results[k], known[k + 1], b);
  }

  lemma {:induction false} KnownExactlyListed(timeout: nat, known: seq<Known>, actions: seq<Action>, results: seq<Option<u64>>, n: nat, b: u64)
    requires IsRun(timeout, known, actions, results) && n < |known|
    ensures b in known[n] <==> Listed(actions, results, n, b)
  {
    if n > 0 {
      KnownExactlyListed(timeout, known, actions, results, n - 1, b);
      ListedStep(actions, results, n - 1, b);
      RunKnownStep(timeout, known, actions, results, n - 1, b);
    }
  }

  /** Action i is the first acknowledgement for the block since it was last dropped, if ever. */
  ghost predicate FirstAck(actions: seq<Action>, results: seq<Option<u64>>, n: nat, b: u64, i: nat)
    requires n <= |actions| == |results|
  {
    i < n && AcksBlock(actions[i], b) && !Listed(actions, results, i, b) && forall j :: i < j < n ==> !Drops(results[j], b)
  }

  /** Over every run a known block's age counts from the first acknowledgement for it since it was last dropped. */
  lemma {:induction false} AgeCountsFromFirstAck(timeout: nat, known: seq<Known>, actions: seq<Action>, results: seq<Option<u64>>, n: nat, b: u64, i: nat)
    requires IsRun(timeout, known, actions, results) && n <= |actions| && FirstAck(actions, results, n, b, i)
    ensures b in known[n] && known[n][b].createdAt == actions[i].now
    decreases n
  {
    RunKnownStep(timeout, known, actions, results, n - 1, b);
    if i == n - 1 {
      KnownExactlyListed(timeout, known, actions, results, i, b);
    } else {
      AgeCountsFromFirstAck(timeout, known, actions, results, n - 1, b, i);
    }
  }

  /** Over every run no block is returned, or passed, within the timeout of the first acknowledgement for it since it was last dropped. */
  lemma NotWithinTimeout(timeout: nat, known: seq<Known>, actions: seq<Action>, results: seq<Option<u64>>, n: nat, b: u64, i: nat)
    requires IsRun(timeout, known, actions, results) && n < |actions| && actions[n].Poll?
    requires FirstAck(actions, results, n, b, i) && Drops(results[n], b)
    ensures actions[n].clock(Position(known[n], b)) > actions[i].now + timeout
  {
    AgeCountsFromFirstAck(timeout, known, actions, results, n, b, i);
    RunStep(timeout, known, actions, results, n);
    assert Ripe(known[n], timeout, actions[n].clock, b);
  }

  ghost predicate AllAbove(known: Known, w: u64) {
    forall k :: k in known ==> k > w
  }

  /** No acknowledgement between the two actions is for a block up to w. */
  ghost predicate AcksAbove(actions: seq<Action>, m: nat, n: nat, w: u64)
    requires n <= |actions|
  {
    forall j :: m < j < n && actions[j].Acknowledge? ==> actions[j].ack.blockNumber > w
  }

  lemma StepStaysAbove(timeout: nat, before: Known, action: Action, r: Option<u64>, after: Known, w: u64)
    requires Acts(timeout, before, action, r, after)
    ensures r == Some(w) || (AllAbove(before, w) && (action.Acknowledge? ==> action.ack.blockNumber > w)) ==> AllAbove(after, w)
  {
  }

  lemma RunStaysAbove(timeout: nat, known: seq<Known>, actions: seq<Action>, results: seq<Option<u64>>, k: nat, w: u64)
    requires IsRun(timeout, known, actions, results) && k < |actions|
    requires results[k] == Some(w) || (AllAbove(known[k], w) && (actions[k].Acknowledge? ==> actions[k].ack.blockNumber > w))
    ensures AllAbove(known[k + 1], w)
  {
    RunStep(timeout, known, actions, results, k);
    StepStaysAbove(timeout, known[k], actions[k], results[k], known[k + 1], w);
  }

  lemma {:induction false} StaysAbove(timeout: nat, known: seq<Known>, actions: seq<Action>, results: seq<Option<u64>>, m: nat, n: nat, w: u64)
    requires IsRun(timeout, known, actions, results) && m < n <= |actions| && results[m] == Some(w)
    requires AcksAbove(actions, m, n, w)
    ensures AllAbove(known[n], w)
  {
    if m < n - 1 {
      StaysAbove(timeout, known, actions, results, m, n - 1, w);
    }
    RunStaysAbove(timeout, known, actions, results, n - 1, w);
  }

  /** Results strictly increase as long as no acknowledgement arrives for a block already passed. */
  lemma ResultsIncrease(timeout: nat, known: seq<Known>, actions: seq<Action>, results: seq<Option<u64>>, m: nat, n: nat)
    requires IsRun(timeout, known, actions, results) && m < n < |actions| && results[m].Some? && results[n].Some?
    requires AcksAbove(actions, m, n, results[m].value)
    ensures results[m].value < results[n].value
  {
    StaysAbove(timeout, known, actions, results, m, n, results[m].value);
    RunStep(timeout, known, actions, results, n);
  }
}
