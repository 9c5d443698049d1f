/** The balance gate all executor tasks pass (transmitter-module/src/executor_app/operation_manager.rs:130-136, 227-284). */
module SuspensionGate {
  import opened Wrappers
  import opened Bytes

  datatype Config = Config(checkPeriod: nat, suspendBalance: u64)

  /** since is how many balances had been read when the notifier was installed. */
  datatype Notifier = Notifier(id: nat, since: nat)

  /**
    Where a task is. The parts between two of these run without interference: in particular a task that
    finds a notifier releases the lock and starts to wait for it without a suspension point between.
  */
  datatype Place =
    | Idle
    | Start
    | Fetch
    | Store(balance: u64)
    | Check
    | Lock
    | Waiting(notifier: Notifier)
    | Polling(notifier: Notifier)
    | Observed(notifier: Notifier, balance: u64)
    | Resuming(notifier: Notifier)
      // a balance read after the first since readings was enough
    | Passed(since: nat)
    | Processing
    | Finished
    | Panicked
  {
    /** The task that has installed the notifier and not yet taken it back. */
    predicate IsPoller() {
      Polling? || Observed? || Resuming?
    }
  }

  /** readings are all balances read so far, by any task. */
  datatype State = State(balance: u64, notifier: Option<Notifier>, installed: nat, counter: u64, readings: seq<u64>, tasks: seq<Place>)

  /** A balance request's result, and whether a processed operation goes round again. */
  datatype Input = Input(reading: Option<u64>, again: bool)

  function Initial(n: nat): State {
    State(0, None, 0, 0, [], seq(n, _ => Idle))
  }

  function At(s: State, i: nat, place: Place): State
    requires i < |s.tasks|
  {
    s.(tasks := s.tasks[i := place])
  }

  /** `notify_waiters` wakes every task that waits for this notifier. */
  function Woken(tasks: seq<Place>, n: Notifier): (r: seq<Place>)
    ensures |r| == |tasks|
    ensures forall j :: 0 <= j < |tasks| ==> r[j] == if tasks[j] == Waiting(n) then Passed(n.since) else tasks[j]
  {
    seq(|tasks|, j requires 0 <= j < |tasks| => if tasks[j] == Waiting(n) then Passed(n.since) else tasks[j])
  }

  /** One step of task i. */
  function Step(c: Config, s: State, i: nat, input: Input): State
    requires c.checkPeriod > 0 && i < |s.tasks|
  {
    match s.tasks[i]
    case Idle => At(s, i, Start)
    case Start => At(s, i, if s.counter % c.checkPeriod == 0 then Fetch else Check)
    case Fetch =>
      if input.reading.None? then At(s, i, Start)
      else At(s, i, Store(input.reading.value)).(readings := s.readings + [input.reading.value])
    case Store(b) => At(s, i, Check).(balance := b)
    case Check => At(s, i, if s.balance >= c.suspendBalance then Passed(0) else Lock)
    case Lock =>
      if s.notifier.Some? then At(s, i, Waiting(s.notifier.value))
      else
        var n := Notifier(s.installed, |s.readings|);
        At(s, i, Polling(n)).(notifier := Some(n), installed := s.installed + 1)
    case Waiting(_) => s
    case Polling(n) =>
      if input.reading.None? then s
      else
        var b := input.reading.value;
        At(s, i, if b >= c.suspendBalance then Observed(n, b) else Polling(n)).(readings := s.readings + [b])
    case Observed(n, b) => At(s, i, Resuming(n)).(balance := b)
    case Resuming(n) =>
      if s.notifier.None? then At(s, i, Panicked)
      else At(s.(tasks := Woken(s.tasks, s.notifier.value)), i, Passed(n.since)).(notifier := None)
    case Passed(_) => At(s, i, Processing).(counter := (s.counter + 1) % (U64_MAX + 1))
    case Processing => At(s, i, if input.again then Start else Finished)
    case Finished => s
    case Panicked => s
  }

  /** Any interleaving of any number of tasks. */
  ghost predicate IsRun(c: Config, ss: seq<State>, who: seq<nat>, inputs: seq<Input>) {
    && c.checkPeriod > 0 && |ss| == |who| + 1 && |inputs| == |who|
    && ss[0] == Initial(|ss[0].tasks|)
    && forall k :: 0 <= k < |who| ==> who[k] < |ss[k].tasks| && ss[k + 1] == Step(c, ss[k], who[k], inputs[k])
  }

  // ---- What every reachable state satisfies ----

  /** A balance of at least the threshold is among the readings after the first since ones. */
  ghost predicate Enough(c: Config, readings: seq<u64>, since: nat) {
    exists k :: since <= k < |readings| && readings[k] >= c.suspendBalance
  }

  ghost predicate PlaceOk(c: Config, s: State, p: Place) {
    match p
    case Store(b) => b in s.readings
    case Check => s.readings != []
    case Lock => s.readings != []
    case Waiting(n) => s.notifier == Some(n)
    case Polling(n) => s.notifier == Some(n) && n.since <= |s.readings|
    case Observed(n, b) => s.notifier == Some(n) && b in s.readings && Enough(c, s.readings, n.since)
    case Resuming(n) => s.notifier == Some(n) && Enough(c, s.readings, n.since)
    case Passed(since) => Enough(c, s.readings, since)
    case Processing => Enough(c, s.readings, 0)
    case Panicked => false
    case _ => true
  }

  ghost predicate SharedOk(c: Config, s: State) {
    && (s.balance == 0 || s.balance in s.readings)
    && (s.counter != 0 ==> Enough(c, s.readings, 0))
    && (s.notifier.Some? ==> s.notifier.value.id < s.installed)
  }

  ghost predicate PlacesOk(c: Config, s: State) {
    forall j :: 0 <= j < |s.tasks| ==> PlaceOk(c, s, s.tasks[j])
  }

  /** The notifier is set exactly while some task polls, and only one does. */
  ghost predicate OnePoller(s: State) {
    && (forall i, j :: 0 <= i < |s.tasks| && 0 <= j < |s.tasks| && s.tasks[i].IsPoller() && s.tasks[j].IsPoller() ==> i == j)
    && (s.notifier.Some? <==> exists i :: 0 <= i < |s.tasks| && s.tasks[i].IsPoller())
  }

  ghost predicate Good(c: Config, s: State) {
    SharedOk(c, s) && PlacesOk(c, s) && OnePoller(s)
  }

  lemma EnoughMore(c: Config, readings: seq<u64>, b: u64, since: nat)
    ensures Enough(c, readings, since) ==> Enough(c, readings + [b], since)
    ensures b >= c.suspendBalance && since <= |readings| ==> Enough(c, readings + [b], since)
  {
    var more := readings + [b];
    assert forall k :: 0 <= k < |readings| ==> more[k] == readings[k];
    assert more[|readings|] == b;
  }

  /** A stored balance that is enough has been read. */
  lemma StoredWasRead(c: Config, s: State)
    requires SharedOk(c, s) && s.readings != [] && s.balance >= c.suspendBalance
    ensures Enough(c, s.readings, 0)
  {
    if s.balance == 0 {
      assert s.readings[0] >= c.suspendBalance;
    } else {
      var k :| 0 <= k < |s.readings| && s.readings[k] == s.balance;
    }
  }

  lemma StepKeepsShared(c: Config, s: State, i: nat, input: Input)
    requires c.checkPeriod > 0 && i < |s.tasks| && Good(c, s)
    ensures SharedOk(c, Step(c, s, i, input))
  {
    assert PlaceOk(c, s, s.tasks[i]);
    if input.reading.Some? {
      EnoughMore(c, s.readings, input.reading.value, 0);
    }
    if s.tasks[i].Passed? {
      EnoughFromEarlier(c, s.readings, s.tasks[i].since);
    }
  }

  lemma EnoughFromEarlier(c: Config, readings: seq<u64>, since: nat)
    requires Enough(c, readings, since)
    ensures Enough(c, readings, 0)
  {
  }

  lemma StepKeepsOwnPlace(c: Config, s: State, i: nat, input: Input)
    requires c.checkPeriod > 0 && i < |s.tasks| && Good(c, s)
    ensures var s' := Step(c, s, i, input);
            |s'.tasks| == |s.tasks| && PlaceOk(c, s', s'.tasks[i])
  {
    assert PlaceOk(c, s, s.tasks[i]);
    match s.tasks[i]
    case Polling(n) =>
      if input.reading.Some? {
        EnoughMore(c, s.readings, input.reading.value, n.since);
      }
    case Check =>
      if s.balance >= c.suspendBalance {
        StoredWasRead(c, s);
      }
    case Passed(since) => EnoughFromEarlier(c, s.readings, since);
    case _ =>
  }

  /** Another task's step only adds readings and notifiers, and does not touch the notifier of a polling or waiting task. */
  lemma PlaceOkGrows(c: Config, s: State, s': State, p: Place)
    requires PlaceOk(c, s, p)
    requires s'.readings == s.readings || exists b :: s'.readings == s.readings + [b]
    requires s.installed <= s'.installed && (p.IsPoller() || p.Waiting? ==> s'.notifier == s.notifier)
    ensures PlaceOk(c, s', p)
  {
    if s'.readings != s.readings {
      var b :| s'.readings == s.readings + [b];
      var since := match p case Observed(n, _) => n.since case Resuming(n) => n.since case Passed(k) => k case _ => 0;
      EnoughMore(c, s.readings, b, since);
    }
  }

  lemma StepKeepsOtherPlace(c: Config, s: State, i: nat, input: Input, j: nat)
    requires c.checkPeriod > 0 && i < |s.tasks| && j < |s.tasks| && j != i && Good(c, s)
    ensures var s' := Step(c, s, i, input);
            PlaceOk(c, s', s'.tasks[j])
  {
    var s' := Step(c, s, i, input);
    assert PlaceOk(c, s, s.tasks[i]) && PlaceOk(c, s, s.tasks[j]);
    if s'.tasks[j] == s.tasks[j] {
      PlaceOkGrows(c, s, s', s.tasks[j]);
    }
  }

  lemma StepKeepsOnePoller(c: Config, s: State, i: nat, input: Input)
    requires c.checkPeriod > 0 && i < |s.tasks| && Good(c, s)
    ensures OnePoller(Step(c, s, i, input))
  {
    var s' := Step(c, s, i, input);
    assert PlaceOk(c, s, s.tasks[i]);
    assert forall j :: 0 <= j < |s.tasks| && j != i ==> (s'.tasks[j].IsPoller() <==> s.tasks[j].IsPoller());
    if s.tasks[i].IsPoller() {
      assert s'.tasks[i].IsPoller() <==> s'.notifier.Some?;
    } else if s'.tasks[i].IsPoller() {
      assert s.notifier.None? && s'.notifier.Some?;
    } else {
      assert s'.notifier == s.notifier;
    }
  }

  lemma {:induction false} ReachableIsGood(c: Config, ss: seq<State>, who: seq<nat>, inputs: seq<Input>, k: nat)
    requires IsRun(c, ss, who, inputs) && k < |ss|
    ensures Good(c, ss[k])
  {
    if k > 0 {
      ReachableIsGood(c, ss, who, inputs, k - 1);
      var s, i, input := ss[k - 1], who[k - 1], inputs[k - 1];
      assert ss[k - 1 + 1] == Step(c, s, i, input);
      StepKeepsShared(c, s, i, input);
      StepKeepsOnePoller(c, s, i, input);
      StepKeepsOwnPlace(c, s, i, input);
      forall j | 0 <= j < |s.tasks| && j != i
        ensures PlaceOk(c, ss[k], ss[k].tasks[j])
      {
        StepKeepsOtherPlace(c, s, i, input, j);
      }
    }
  }

  /**
    The gate, any number of tasks, any interleaving: the notifier is set exactly while one task polls,
    the resuming task always finds it, and a task only passes when a sufficient balance has been read;
    a suspended task only when it was read after the notifier had been installed.
  */
  lemma GateSafety(c: Config, ss: seq<State>, who: seq<nat>, inputs: seq<Input>, k: nat, i: nat)
    requires IsRun(c, ss, who, inputs) && k < |ss| && i < |ss[k].tasks|
    ensures OnePoller(ss[k])
    ensures ss[k].tasks[i].Resuming? ==> ss[k].notifier == Some(ss[k].tasks[i].notifier)
    ensures !ss[k].tasks[i].Panicked?
    ensures ss[k].tasks[i].Passed? ==> Enough(c, ss[k].readings, ss[k].tasks[i].since)
    ensures ss[k].tasks[i].Processing? ==> Enough(c, ss[k].readings, 0)
  {
    ReachableIsGood(c, ss, who, inputs, k);
    assert PlaceOk(c, ss[k], ss[k].tasks[i]);
  }

  // ---- When a balance is read, and which one counts ----

  /** A task that starts over asks for the balance exactly when the number of passes is a multiple of the period. */
  lemma DueExactly(c: Config, ss: seq<State>, who: seq<nat>, inputs: seq<Input>, k: nat)
    requires IsRun(c, ss, who, inputs) && k < |who| && ss[k].tasks[who[k]].Start?
    ensures who[k] < |ss[k + 1].tasks| && ss[k + 1].readings == ss[k].readings
    ensures ss[k + 1].tasks[who[k]] == if ss[k].counter % c.checkPeriod == 0 then Fetch else Check
  {
    assert ss[k + 1] == Step(c, ss[k], who[k], inputs[k]);
  }

  /** Of a request the task either starts over, or has one new reading to store. */
  lemma FetchReadsOrStartsOver(c: Config, ss: seq<State>, who: seq<nat>, inputs: seq<Input>, k: nat)
    requires IsRun(c, ss, who, inputs) && k < |who| && ss[k].tasks[who[k]].Fetch?
    ensures who[k] < |ss[k + 1].tasks|
    ensures || (ss[k + 1].tasks[who[k]] == Start && ss[k + 1].readings == ss[k].readings)
            || (ss[k + 1].tasks[who[k]].Store? && ss[k + 1].readings == ss[k].readings + [ss[k + 1].tasks[who[k]].balance])
  {
    assert ss[k + 1] == Step(c, ss[k], who[k], inputs[k]);
  }

  lemma OthersKeepPlace(c: Config, ss: seq<State>, who: seq<nat>, inputs: seq<Input>, k: nat, i: nat)
    requires IsRun(c, ss, who, inputs) && k < |who| && i < |ss[k].tasks| && who[k] != i && !ss[k].tasks[i].Waiting?
    ensures i < |ss[k + 1].tasks| && ss[k + 1].tasks[i] == ss[k].tasks[i]
  {
    assert ss[k + 1] == Step(c, ss[k], who[k], inputs[k]);
  }

  /** Step j of the run is task i's own reading of a balance. */
  ghost predicate ReadsAt(ss: seq<State>, who: seq<nat>, j: nat, i: nat)
    requires |ss| == |who| + 1 && j < |who|
  {
    && who[j] == i < |ss[j].tasks| && ss[j].tasks[i].Fetch? && i < |ss[j + 1].tasks| && ss[j + 1].tasks[i].Store?
    && ss[j + 1].readings == ss[j].readings + [ss[j + 1].tasks[i].balance]
  }

  lemma StillAskingOrRead(c: Config, ss: seq<State>, who: seq<nat>, inputs: seq<Input>, k: nat, i: nat)
    requires IsRun(c, ss, who, inputs) && k < |who| && i < |ss[k].tasks| && ss[k].tasks[i].Fetch?
    requires i < |ss[k + 1].tasks| && !ss[k + 1].tasks[i].Start?
    ensures ss[k + 1].tasks[i].Fetch? || ReadsAt(ss, who, k, i)
  {
    if who[k] == i {
      FetchReadsOrStartsOver(c, ss, who, inputs, k);
    } else {
      OthersKeepPlace(c, ss, who, inputs, k, i);
    }
  }

  /**
    Over every run: a task whose check is due when it starts over gets past asking, to pass in particular,
    only by a reading of its own made since, unless its request failed and it started over again.
  */
  lemma {:induction false} DueCheckReads(c: Config, ss: seq<State>, who: seq<nat>, inputs: seq<Input>, k: nat, m: nat, i: nat)
    requires IsRun(c, ss, who, inputs) && k < m < |ss| && who[k] == i
    requires ss[k].tasks[i].Start? && ss[k].counter % c.checkPeriod == 0
    requires forall j :: k < j <= m ==> i < |ss[j].tasks| && !ss[j].tasks[i].Start?
    ensures ss[m].tasks[i].Fetch? || exists j :: k < j < m && ReadsAt(ss, who, j, i)
  {
    if m == k + 1 {
      DueExactly(c, ss, who, inputs, k);
    } else {
      DueCheckReads(c, ss, who, inputs, k, m - 1, i);
      if ss[m - 1].tasks[i].Fetch? {
        StillAskingOrRead(c, ss, who, inputs, m - 1, i);
      }
    }
  }

  /** The balances stored in the first k steps, in order. */
  ghost function Stored(ss: seq<State>, who: seq<nat>, k: nat): seq<u64>
    requires k <= |who| <= |ss|
  {
    if k == 0 then []
    else if who[k - 1] >= |ss[k - 1].tasks| then Stored(ss, who, k - 1)
    else match ss[k - 1].tasks[who[k - 1]]
      case Store(b) => Stored(ss, who, k - 1) + [b]
      case Observed(_, b) => Stored(ss, who, k - 1) + [b]
      case _ => Stored(ss, who, k - 1)
  }

  /** The latest balance stored, zero before any. */
  ghost function Latest(ss: seq<State>, who: seq<nat>, k: nat): u64
    requires k <= |who| <= |ss|
  {
    var stored := Stored(ss, who, k);
    if stored == [] then 0 else stored[|stored| - 1]
  }

  lemma {:induction false} BalanceIsLatest(c: Config, ss: seq<State>, who: seq<nat>, inputs: seq<Input>, k: nat)
    requires IsRun(c, ss, who, inputs) && k < |ss|
    ensures ss[k].balance == Latest(ss, who, k)
  {
    if k > 0 {
      BalanceIsLatest(c, ss, who, inputs, k - 1);
      assert ss[k - 1 + 1] == Step(c, ss[k - 1], who[k - 1], inputs[k - 1]);
    }
  }

  /** Over every run: a task is checked against the latest balance stored, and passes exactly when that is enough. */
  lemma CheckedAgainstLatest(c: Config, ss: seq<State>, who: seq<nat>, inputs: seq<Input>, k: nat)
    requires IsRun(c, ss, who, inputs) && k < |who| && ss[k].tasks[who[k]].Check?
    ensures who[k] < |ss[k + 1].tasks|
    ensures ss[k + 1].tasks[who[k]] == if Latest(ss, who, k) >= c.suspendBalance then Passed(0) else Lock
  {
    BalanceIsLatest(c, ss, who, inputs, k);
    assert ss[k + 1] == Step(c, ss[k], who[k], inputs[k]);
  }

  /** The poller stops polling exactly at the first balance it reads that is enough. */
  lemma PollsUntilEnough(c: Config, ss: seq<State>, who: seq<nat>, inputs: seq<Input>, k: nat)
    requires IsRun(c, ss, who, inputs) && k < |who| && ss[k].tasks[who[k]].Polling?
    ensures who[k] < |ss[k + 1].tasks|
    ensures match inputs[k].reading
            case None => ss[k + 1] == ss[k]
            case Some(b) =>
              && ss[k + 1].readings == ss[k].readings + [b]
              && ss[k + 1].tasks[who[k]] == if b >= c.suspendBalance then Observed(ss[k].tasks[who[k]].notifier, b) else ss[k].tasks[who[k]]
  {
    assert ss[k + 1] == Step(c, ss[k], who[k], inputs[k]);
    assert ss[k].tasks[who[k] := ss[k].tasks[who[k]]] == ss[k].tasks;
  }

  /** How many times a task has passed and gone on in the first k steps. */
  ghost function Passes(ss: seq<State>, who: seq<nat>, k: nat): nat
    requires k <= |who| <= |ss|
  {
    if k == 0 then 0
    else Passes(ss, who, k - 1) + (if who[k - 1] < |ss[k - 1].tasks| && ss[k - 1].tasks[who[k - 1]].Passed? then 1 else 0)
  }

  lemma CounterStep(c: Config, s: State, i: nat, input: Input)
    requires c.checkPeriod > 0 && i < |s.tasks|
    ensures Step(c, s, i, input).counter == if s.tasks[i].Passed? then (s.counter + 1) % 0x1_0000_0000_0000_0000 else s.counter
  {
  }

  lemma WrapsOnce(n: nat)
    ensures (n % 0x1_0000_0000_0000_0000 + 1) % 0x1_0000_0000_0000_0000 == (n + 1) % 0x1_0000_0000_0000_0000
  {
  }

  lemma CounterMoves(c: Config, ss: seq<State>, who: seq<nat>, inputs: seq<Input>, k: nat)
    requires IsRun(c, ss, who, inputs) && k < |who|
    ensures ss[k + 1].counter == if ss[k].tasks[who[k]].Passed? then (ss[k].counter + 1) % 0x1_0000_0000_0000_0000 else ss[k].counter
  {
    assert ss[k + 1] == Step(c, ss[k], who[k], inputs[k]);
    CounterStep(c, ss[k], who[k], inputs[k]);
  }

  /** Over every run the counter is the number of passes, in 64 bits. */
  lemma {:induction false} CounterCountsPasses(c: Config, ss: seq<State>, who: seq<nat>, inputs: seq<Input>, k: nat)
    requires IsRun(c, ss, who, inputs) && k < |ss|
    ensures ss[k].counter == Passes(ss, who, k) % 0x1_0000_0000_0000_0000
  {
    if k > 0 {
      CounterCountsPasses(c, ss, who, inputs, k - 1);
      CounterMoves(c, ss, who, inputs, k - 1);
      WrapsOnce(Passes(ss, who, k - 1));
    }
  }

  /** The way round: what has been read is stored before it is checked, and an operation that goes round again starts over. */
  lemma TheWayRound(c: Config, ss: seq<State>, who: seq<nat>, inputs: seq<Input>, k: nat)
    requires IsRun(c, ss, who, inputs) && k < |who|
    ensures who[k] < |ss[k + 1].tasks|
    ensures var p, p' := ss[k].tasks[who[k]], ss[k + 1].tasks[who[k]];
            && (p.Idle? ==> p' == Start)
            && (p.Store? ==> p' == Check && ss[k + 1].balance == p.balance)
            && (p.Observed? ==> p' == Resuming(p.notifier) && ss[k + 1].balance == p.balance)
            && (p.Passed? ==> p' == Processing)
            && (p.Processing? ==> p' == if inputs[k].again then Start else Finished)
            && (p.Lock? && ss[k].notifier.Some? ==> p' == Waiting(ss[k].notifier.value))
            && (p.Lock? && ss[k].notifier.None? ==> p'.Polling? && ss[k + 1].notifier == Some(p'.notifier) && p'.notifier.since == |ss[k].readings|)
            && (p.Waiting? ==> p' == p)
  {
    assert ss[k + 1] == Step(c, ss[k], who[k], inputs[k]);
  }

  lemma Extend(c: Config, ss: seq<State>, who: seq<nat>, inputs: seq<Input>, i: nat, reading: Option<u64>)
    returns (ss': seq<State>, who': seq<nat>, inputs': seq<Input>)
    requires IsRun(c, ss, who, inputs) && i < |ss[|who|].tasks|
    ensures IsRun(c, ss', who', inputs') && |who'| == |who| + 1 && ss'[..|ss|] == ss && who'[..|who|] == who && who'[|who|] == i
    ensures ss'[|who'|] == Step(c, ss[|who|], i, Input(reading, false))
  {
    var input := Input(reading, false);
    ss', who', inputs' := ss + [Step(c, ss[|who|], i, input)], who + [i], inputs + [input];
    forall k | 0 <= k < |who'|
      ensures who'[k] < |ss'[k].tasks| && ss'[k + 1] == Step(c, ss'[k], who'[k], inputs'[k])
    {
      assert ss'[k] == ss[k] && (k < |who| ==> ss'[k + 1] == ss[k + 1]);
    }
  }

  /** One task has been let through by the first reading, another's check is due. */
  lemma DueAfterOnePass(c: Config, b: u64) returns (ss: seq<State>, who: seq<nat>, inputs: seq<Input>)
    requires c.checkPeriod > 1 && b >= c.suspendBalance
    ensures IsRun(c, ss, who, inputs)
    ensures ss[|who|] == State(b, None, 0, 0, [b], [Start, Passed(0)])
  {
    ss, who, inputs := [Initial(2)], [], [];
    ss, who, inputs := Extend(c, ss, who, inputs, 1, None);
    ss, who, inputs := Extend(c, ss, who, inputs, 1, None);
    ss, who, inputs := Extend(c, ss, who, inputs, 1, Some(b));
    assert ss[|who|].tasks == [Idle, Store(b)] && ss[|who|].readings == [b];
    ss, who, inputs := Extend(c, ss, who, inputs, 1, None);
    ss, who, inputs := Extend(c, ss, who, inputs, 1, None);
    ss, who, inputs := Extend(c, ss, who, inputs, 0, None);
    assert ss[|who|].tasks == [Start, Passed(0)];
  }

  /** The exception happens: a due request fails, the other task goes on, and the first passes without any new reading. */
  lemma FailedRequestSkipsTheCheck(c: Config, b: u64) returns (ss: seq<State>, who: seq<nat>, inputs: seq<Input>, k: nat)
    requires c.checkPeriod > 1 && b >= c.suspendBalance
    ensures IsRun(c, ss, who, inputs) && k < |who| && who[k] == 0
    ensures |ss[k].tasks| == 2 == |ss[|who|].tasks|
    ensures ss[k].tasks[0].Start? && ss[k].counter % c.checkPeriod == 0
    ensures ss[|who|].tasks[0].Passed? && ss[|who|].readings == ss[k].readings
  {
    ss, who, inputs := DueAfterOnePass(c, b);
    k := |who|;
    ghost var due := ss[k];
    ss, who, inputs := Extend(c, ss, who, inputs, 0, None);
    assert ss[k] == due && who[k] == 0;
    ss, who, inputs := Extend(c, ss, who, inputs, 1, None);
    assert ss[k] == due && who[k] == 0 && ss[|who|].counter == 1 && ss[|who|].tasks == [Fetch, Processing];
    ss, who, inputs := Extend(c, ss, who, inputs, 0, None);
    assert ss[k] == due && who[k] == 0 && ss[|who|].tasks == [Start, Processing];
    ss, who, inputs := Extend(c, ss, who, inputs, 0, None);
    assert ss[k] == due && who[k] == 0 && ss[|who|].tasks == [Check, Processing];
    ss, who, inputs := Extend(c, ss, who, inputs, 0, None);
    assert ss[k] == due && who[k] == 0;
  }

  // ---- Who is woken ----

  /** Nobody is left behind: whenever a task waits, its notifier is the installed one, and exactly one task polls for it. */
  lemma WaiterHasAPoller(c: Config, ss: seq<State>, who: seq<nat>, inputs: seq<Input>, k: nat, j: nat)
    requires IsRun(c, ss, who, inputs) && k < |ss| && j < |ss[k].tasks| && ss[k].tasks[j].Waiting?
    ensures ss[k].notifier == Some(ss[k].tasks[j].notifier)
    ensures exists i :: 0 <= i < |ss[k].tasks| && ss[k].tasks[i].IsPoller() && ss[k].tasks[i].notifier == ss[k].tasks[j].notifier
                        && forall l :: 0 <= l < |ss[k].tasks| && ss[k].tasks[l].IsPoller() ==> l == i
  {
    ReachableIsGood(c, ss, who, inputs, k);
    assert PlaceOk(c, ss[k], ss[k].tasks[j]);
    var i :| 0 <= i < |ss[k].tasks| && ss[k].tasks[i].IsPoller();
    assert PlaceOk(c, ss[k], ss[k].tasks[i]);
  }

  /** The poller's resumption lets every waiting task pass and leaves none waiting. */
  lemma ResumeWakesAll(c: Config, ss: seq<State>, who: seq<nat>, inputs: seq<Input>, k: nat, i: nat, input: Input)
    requires IsRun(c, ss, who, inputs) && k < |ss| && i < |ss[k].tasks| && ss[k].tasks[i].Resuming?
    ensures var s' := Step(c, ss[k], i, input);
            && s'.notifier.None? && |s'.tasks| == |ss[k].tasks| && s'.tasks[i].Passed?
            && forall j :: 0 <= j < |s'.tasks| ==>
                 !s'.tasks[j].Waiting? && (ss[k].tasks[j].Waiting? ==> s'.tasks[j] == Passed(ss[k].tasks[i].notifier.since))
  {
    ReachableIsGood(c, ss, who, inputs, k);
    assert PlaceOk(c, ss[k], ss[k].tasks[i]);
    forall j | 0 <= j < |ss[k].tasks| && ss[k].tasks[j].Waiting?
      ensures ss[k].tasks[j] == Waiting(ss[k].tasks[i].notifier)
    {
      assert PlaceOk(c, ss[k], ss[k].tasks[j]);
    }
  }

  /** In any reachable state a waiting task passes three steps after the polling one reads enough. */
  lemma WokenByThePoller(c: Config, ss: seq<State>, who: seq<nat>, inputs: seq<Input>, k: nat, i: nat, j: nat, b: u64)
    requires IsRun(c, ss, who, inputs) && k < |ss| && i < |ss[k].tasks| && j < |ss[k].tasks|
    requires ss[k].tasks[j].Waiting? && ss[k].tasks[i].Polling? && b >= c.suspendBalance
    ensures var input := Input(Some(b), false);
            var s' := Step(c, Step(c, Step(c, ss[k], i, input), i, input), i, input);
            s'.tasks[j] == Passed(ss[k].tasks[j].notifier.since) && s'.tasks[i].Passed? && s'.balance == b && s'.notifier.None?
  {
    ReachableIsGood(c, ss, who, inputs, k);
    assert PlaceOk(c, ss[k], ss[k].tasks[i]) && PlaceOk(c, ss[k], ss[k].tasks[j]);
  }
}
