/** From delivered logs to published proposals (event_processor.rs, solana_logs_processor.rs, rabbitmq_publisher.rs). */
module Listener {
  import opened Wrappers
  import opened Bytes
  import opened ParseLogs
  import opened PrintLogs
  import opened RetroReader
  import TD = TransmitterData
  import State

  type ProposeEvent = e: State.Event | e.ProposeEvent? witness State.ProposeEvent([], 0, 0, [], [], [])

  datatype Propose = Propose(needCheck: bool, latestBlockId: TxSignature, operationData: TD.OperationData)

  /** What the listener is configured with: the watched program, its event decoder, and the allowed protocols. */
  datatype Settings = Settings(
    programId: string,
    codec: Codec<ProposeEvent>,
    signatureBytes: TxSignature -> Option<seq<byte>>,
    chainId: u128,
    allowed: seq<seq<byte>>)

  const DEFAULT_META: Bytes32 := Zeros(31) + [1]

  /** A protocol name as 32 bytes: cut or zero-padded. */
  function PaddedName(name: seq<byte>): Bytes32 {
    if |name| >= 32 then name[..32] else name + Zeros(32 - |name|)
  }

  /** The padding in `new`: the bytes that fit are copied into a zeroed buffer. */
  method PadName(name: seq<byte>) returns (padded: Bytes32)
    ensures padded == PaddedName(name)
  {
    var buf := new byte[32](_ => 0);
    var lengthToCopy := if |name| < 32 then |name| else 32;
    CopyInto(buf, 0, name[..lengthToCopy]);
    padded := buf[..];
  }

  /** `on_event`: the proposal sent on for an event, if its protocol is allowed. */
  function ProposalFor(cfg: Settings, e: ProposeEvent, signature: TxSignature, slot: u64, needCheck: bool): Option<Propose> {
    if e.protocolId !in cfg.allowed || |e.protocolId| != 32 then None
    else match cfg.signatureBytes(signature)
      case None => None
      case Some(txId) =>
        Some(Propose(needCheck, signature,
          TD.OperationData(e.protocolId, DEFAULT_META, cfg.chainId, slot, txId, e.nonce, e.dstChainId,
                           e.protocolAddress, e.functionSelector, e.params, [])))
  }

  /** Exactly which events become proposals, and where their fields go. */
  lemma ProposalExactly(cfg: Settings, e: ProposeEvent, signature: TxSignature, slot: u64, needCheck: bool)
    ensures ProposalFor(cfg, e, signature, slot, needCheck).Some?
            <==> e.protocolId in cfg.allowed && |e.protocolId| == 32 && cfg.signatureBytes(signature).Some?
    ensures ProposalFor(cfg, e, signature, slot, needCheck).Some? ==>
              var p := ProposalFor(cfg, e, signature, slot, needCheck).value;
              var d := p.operationData;
              && p.needCheck == needCheck && p.latestBlockId == signature
              && d.protocolId == e.protocolId && d.meta == Zeros(31) + [1]
              && d.srcChainId == cfg.chainId && d.srcBlockNumber == slot && Some(d.srcOpTxId) == cfg.signatureBytes(signature)
              && d.nonce == e.nonce && d.destChainId == e.dstChainId && d.protocolAddr == e.protocolAddress
              && d.functionSelector == e.functionSelector && d.params == e.params && d.reserved == []
  {
  }

  /** A configured name is matched by its first 32 bytes, zero-padded. */
  lemma PaddedNameBytes(name: seq<byte>, i: nat)
    requires i < 32
    ensures PaddedName(name)[i] == if i < |name| then name[i] else 0
  {
  }

  function ProposalsFor(cfg: Settings, events: seq<ProposeEvent>, signature: TxSignature, slot: u64, needCheck: bool): seq<Propose> {
    if events == [] then []
    else Emitted(ProposalFor(cfg, events[0], signature, slot, needCheck))
         + ProposalsFor(cfg, events[1..], signature, slot, needCheck)
  }

  /** The proposals of a list of events are those of its parts, in order, and of one event its own, if any. */
  lemma {:induction false} ProposalsInOrder(cfg: Settings, a: seq<ProposeEvent>, b: seq<ProposeEvent>, e: ProposeEvent,
                                            signature: TxSignature, slot: u64, needCheck: bool)
    ensures ProposalsFor(cfg, a + b, signature, slot, needCheck)
         == ProposalsFor(cfg, a, signature, slot, needCheck) + ProposalsFor(cfg, b, signature, slot, needCheck)
    ensures ProposalsFor(cfg, [e], signature, slot, needCheck)
         == match ProposalFor(cfg, e, signature, slot, needCheck) case None => [] case Some(p) => [p]
    decreases |a|
  {
    if a == [] {
      assert a + b == b;
      assert [e][1..] == [];
    } else {
      assert (a + b)[1..] == a[1..] + b;
      ProposalsInOrder(cfg, a[1..], b, e, signature, slot, needCheck);
      AppendAssociative(Emitted(ProposalFor(cfg, a[0], signature, slot, needCheck)),
                        ProposalsFor(cfg, a[1..], signature, slot, needCheck), ProposalsFor(cfg, b, signature, slot, needCheck));
    }
  }

  lemma ProposalsForOneMore(cfg: Settings, events: seq<ProposeEvent>, i: nat, signature: TxSignature, slot: u64, needCheck: bool)
    requires i < |events|
    ensures ProposalsFor(cfg, events[..i + 1], signature, slot, needCheck)
         == ProposalsFor(cfg, events[..i], signature, slot, needCheck) + Emitted(ProposalFor(cfg, events[i], signature, slot, needCheck))
  {
    assert events[..i + 1] == events[..i] + [events[i]];
    ProposalsInOrder(cfg, events[..i], [events[i]], events[i], signature, slot, needCheck);
  }

  /** `on_logs`: a bunch that does not parse is skipped. */
  function OnLogs(cfg: Settings, b: LogsBunch): seq<Propose> {
    match Parse(cfg.codec, cfg.programId, b.logs)
    case Err(_) => []
    case Ok(events) => ProposalsFor(cfg, events, b.txSignature, b.slot, b.needCheck)
  }

  /** The bunch makes the parser panic, which ends the listener: all its parts share one task. */
  predicate Panics(cfg: Settings, b: LogsBunch) {
    Parse(cfg.codec, cfg.programId, b.logs) == Err(Panicked)
  }

  /** What a sequence of bunches gives, one after the other. */
  function Concat<T>(of: LogsBunch -> seq<T>, bunches: seq<LogsBunch>): seq<T> {
    if bunches == [] then [] else of(bunches[0]) + Concat(of, bunches[1..])
  }

  lemma {:induction false} ConcatAppend<T>(of: LogsBunch -> seq<T>, a: seq<LogsBunch>, b: seq<LogsBunch>)
    ensures Concat(of, a + b) == Concat(of, a) + Concat(of, b)
  {
    if a == [] {
      assert a + b == b;
    } else {
      assert (a + b)[1..] == a[1..] + b;
      ConcatAppend(of, a[1..], b);
      AppendAssociative(of(a[0]), Concat(of, a[1..]), Concat(of, b));
    }
  }

  lemma ConcatOne<T>(of: LogsBunch -> seq<T>, b: LogsBunch)
    ensures Concat(of, [b]) == of(b) && Concat(of, []) == []
  {
    assert [b][1..] == [];
    AppendEmpty(of(b));
  }

  function OnLogsOf(cfg: Settings): LogsBunch -> seq<Propose> {
    b => OnLogs(cfg, b)
  }

  function OnAllLogs(cfg: Settings, bunches: seq<LogsBunch>): seq<Propose> {
    Concat(OnLogsOf(cfg), bunches)
  }

  /** The logs were printed from these calls, every line of which is read for what it is. */
  ghost predicate FromCalls(cfg: Settings, f: Forest<ProposeEvent>, logs: seq<string>) {
    && |cfg.codec.discriminator| == 8 && IsProgramId(cfg.programId)
    && Printable(cfg.codec, f) && WellFormed(cfg.codec, cfg.programId, None, f) && logs == Lines(f, 1)
  }

  /** A transaction whose log was printed from a well-formed call forest yields the proposals of its own events, in order. */
  lemma PrintedLogsYieldTheirEvents(cfg: Settings, b: LogsBunch, f: Forest<ProposeEvent>)
    requires FromCalls(cfg, f, b.logs)
    ensures OnLogs(cfg, b)
         == ProposalsFor(cfg, Events(cfg.programId, None, f), b.txSignature, b.slot, b.needCheck)
  {
    ParseUndoesPrint(cfg.codec, cfg.programId, f);
  }

  /** Serialising the transaction id needs a second 32-byte chunk. */
  predicate Encodable(p: Propose) {
    |p.operationData.srcOpTxId| > 32
  }

  /** Signatures are 64 bytes. */
  ghost predicate SignaturesDecode(cfg: Settings) {
    forall s :: cfg.signatureBytes(s).Some? ==> |cfg.signatureBytes(s).value| == 64
  }

  class ProposalEventProcessor {
    const cfg: Settings
    /** Everything sent to the proposal channel so far. */
    var sent: seq<Propose>

    constructor (cfg: Settings)
      ensures this.cfg == cfg && sent == []
    {
      this.cfg := cfg;
      sent := [];
    }

    method HandleEvent(e: ProposeEvent, signature: TxSignature, slot: u64, needCheck: bool)
      modifies this
      ensures sent == old(sent) + Emitted(ProposalFor(cfg, e, signature, slot, needCheck))
    {
      match ProposalFor(cfg, e, signature, slot, needCheck)
      case None =>
      case Some(propose) => sent := sent + [propose];
    }

    method HandleLogs(b: LogsBunch) returns (panicked: bool)
      modifies this
      ensures panicked == Panics(cfg, b)
      ensures sent == old(sent) + OnLogs(cfg, b)
    {
      var events := ParseLogs.ParseLogs(cfg.codec, b.logs, cfg.programId);
      panicked := events == Err(Panicked);
      if events.Err? {
        return;
      }
      HandleEvents(events.value, b.txSignature, b.slot, b.needCheck);
    }

    method HandleEvents(events: seq<ProposeEvent>, signature: TxSignature, slot: u64, needCheck: bool)
      modifies this
      ensures sent == old(sent) + ProposalsFor(cfg, events, signature, slot, needCheck)
    {
      for i := 0 to |events|
        invariant sent == old(sent) + ProposalsFor(cfg, events[..i], signature, slot, needCheck)
      {
        HandleEvent(events[i], signature, slot, needCheck);
        ProposalsForOneMore(cfg, events, i, signature, slot, needCheck);
      }
      assert events[..|events|] == events;
    }
  }

  /** What a loop turn of the publisher finds: the connection was closed, or a proposal may be tried. */
  datatype PublishTurn = Closed | Try(accepted: bool)

  datatype Outbox = Outbox(published: seq<Propose>, buffered: Option<Propose>, queue: seq<Propose>) {
    /** Every proposal handed over, published ones first. */
    function All(): seq<Propose> {
      published + Emitted(buffered) + queue
    }
  }

  /** What a turn of the publisher does: the buffered proposal goes first, a refused one is kept, one that cannot be encoded is dropped. */
  function PublishNext(o: Outbox, turn: PublishTurn): Outbox {
    match turn
    case Closed => o
    case Try(accepted) =>
      if o.buffered.None? && o.queue == [] then o
      else
        var p := if o.buffered.Some? then o.buffered.value else o.queue[0];
        var rest := if o.buffered.Some? then o.queue else o.queue[1..];
        if !Encodable(p) then Outbox(o.published, None, rest)
        else if accepted then Outbox(o.published + [p], None, rest)
        else Outbox(o.published, Some(p), rest)
  }

  class RabbitmqPublisher {
    var published: seq<Propose>
    var bufferedPropose: Option<Propose>
    var queue: seq<Propose>

    constructor ()
      ensures Value() == Outbox([], None, [])
    {
      published, bufferedPropose, queue := [], None, [];
    }

    function Value(): Outbox
      reads this
    {
      Outbox(published, bufferedPropose, queue)
    }

    /** `propose_to_progress`: None is an empty channel. */
    method ProposeToProgress() returns (p: Option<Propose>)
      modifies this
      ensures published == old(published) && bufferedPropose == None
      ensures p == if old(bufferedPropose).Some? then old(bufferedPropose)
                   else if old(queue) == [] then None else Some(old(queue)[0])
      ensures queue == if old(bufferedPropose).Some? || old(queue) == [] then old(queue) else old(queue)[1..]
    {
      if bufferedPropose.Some? {
        p := bufferedPropose;
        bufferedPropose := None;
      } else if queue != [] {
        p := Some(queue[0]);
        queue := queue[1..];
      } else {
        p := None;
      }
    }

    /** `publish_propose`; accepted is the broker's answer. */
    method PublishPropose(p: Propose, accepted: bool)
      requires bufferedPropose.None?
      modifies this
      ensures queue == old(queue)
      ensures published == old(published) + if Encodable(p) && accepted then [p] else []
      ensures bufferedPropose == if Encodable(p) && !accepted then Some(p) else None
    {
      if !Encodable(p) {
        return;
      }
      if accepted {
        published := published + [p];
      } else {
        bufferedPropose := Some(p);
      }
    }

    /** One turn of `publish_to_rabbitmq`. */
    method Turn(turn: PublishTurn)
      modifies this
      ensures Value() == PublishNext(old(Value()), turn)
    {
      if turn.Closed? {
        return;
      }
      var p := ProposeToProgress();
      if p.None? {
        return;
      }
      PublishPropose(p.value, turn.accepted);
    }
  }

  // ---- The whole listener ----

  /** What becomes of a bunch, as far as the channels are concerned. */
  datatype Reading = Reading(gives: LogsBunch -> seq<Propose>, panics: LogsBunch -> bool)

  function ReadingOf(cfg: Settings): Reading {
    Reading(OnLogsOf(cfg), b => Panics(cfg, b))
  }

  ghost predicate GivesEncodable(r: Reading) {
    forall b, p :: p in r.gives(b) ==> Encodable(p)
  }

  /**
    The chain, the reader's cursor, what it has delivered, the two channels and the publisher's slot;
    stopped once a panic has ended the listener.
  */
  datatype Pipeline = Pipeline(
    history: seq<Tx>, begin: nat, cursor: nat, first: nat, seen: nat, started: bool,
    delivered: seq<LogsBunch>, logs: seq<LogsBunch>,
    outbox: Outbox,
    stopped: bool)

  datatype Move =
    | ChainGrows(more: seq<Tx>)
    | ReaderRound(top: nat)
    | ProcessLogs
    | Publish(turn: PublishTurn)

  ghost predicate ReaderTracks(s: Pipeline) {
    && DistinctSignatures(s.history)
    && Tracks(s.history, s.begin, s.cursor, s.first, s.seen)
    && (!s.started ==> s.cursor == s.begin && s.first == s.seen == s.begin + 1)
  }

  /** What the reader has delivered is what the chain holds for it, each transaction once and in order. */
  ghost predicate DeliveredExactly(h: seq<Tx>, begin: nat, first: nat, seen: nat, delivered: seq<LogsBunch>) {
    first <= |h| && seen <= |h| && delivered == DeliveredSoFar(h, begin, first, seen)
  }

  ghost predicate NothingLost(r: Reading, all: seq<Propose>, logs: seq<LogsBunch>, delivered: seq<LogsBunch>) {
    all + Concat(r.gives, logs) == Concat(r.gives, delivered)
  }

  /** The bunch holds the logs of a delivered transaction. */
  ghost predicate FromChain(h: seq<Tx>, b: LogsBunch) {
    exists j :: 0 <= j < |h| && DeliveredLogs(h[j]) == Some(b.logs)
  }

  ghost predicate QueueOk(r: Reading, s: Pipeline) {
    && (forall b :: b in s.logs ==> FromChain(s.history, b))
    && (s.stopped ==> s.logs != [] && r.panics(s.logs[0]))
  }

  ghost predicate Consistent(r: Reading, s: Pipeline) {
    && ReaderTracks(s)
    && DeliveredExactly(s.history, s.begin, s.first, s.seen, s.delivered)
    && QueueOk(r, s)
    && (forall p :: p in s.outbox.All() ==> Encodable(p))
    && NothingLost(r, s.outbox.All(), s.logs, s.delivered)
  }

  ghost predicate Start(s: Pipeline) {
    && DistinctSignatures(s.history) && s.begin < |s.history| && s.cursor == s.begin && s.first == s.seen == s.begin + 1 && !s.started
    && s.delivered == [] && s.logs == [] && s.outbox == Outbox([], None, []) && !s.stopped
  }

  /** One move of the listener. A reader's round sends what lies between its cursor and some position it saw, and
      moves the cursor to the newest transaction sent, if any; the first round asks for checks. */
  ghost predicate Moves(r: Reading, s: Pipeline, m: Move, s': Pipeline) {
    match m
    case ChainGrows(more) => DistinctSignatures(s.history + more) && s' == s.(history := s.history + more)
    case ReaderRound(top) => if s.stopped then s' == s else Reads(s, top, s')
    case ProcessLogs =>
      if s.stopped || s.logs == [] then s' == s
      else if r.panics(s.logs[0]) then s' == s.(stopped := true)
      else s' == s.(logs := s.logs[1..], outbox := s.outbox.(queue := s.outbox.queue + r.gives(s.logs[0])))
    case Publish(turn) => if s.stopped then s' == s else s' == s.(outbox := PublishNext(s.outbox, turn))
  }

  ghost predicate Reads(s: Pipeline, top: nat, s': Pipeline) {
    && s.seen <= top <= |s.history|
    && CursorMoves(s.history, s.cursor, top, !s.started, s'.cursor)
    && s' == AfterRound(s, s'.cursor, top, Deliver(s.history, s.cursor + 1, top, !s.started))
  }

  ghost function AfterRound(s: Pipeline, cursor: nat, seen: nat, bunches: seq<LogsBunch>): Pipeline {
    s.(cursor := cursor, first := if s.started then s.first else seen, seen := seen, started := true,
       delivered := s.delivered + bunches, logs := s.logs + bunches)
  }

  /** What the reader's code promises for one round is two moves: the chain grows while it pages, then it reads. */
  lemma RoundIsTwoMoves(r: Reading, s: Pipeline, h: seq<Tx>, cursor: nat, first: nat, seen: nat, bunches: seq<LogsBunch>)
    requires ReaderTracks(s) && !s.stopped
    requires RoundDone(s.history, h, s.begin, s.cursor, s.first, !s.started, cursor, first, seen, bunches)
    ensures var grown := s.(history := h);
            && Moves(r, s, ChainGrows(h[|s.history|..]), grown)
            && Moves(r, grown, ReaderRound(seen), AfterRound(grown, cursor, seen, bunches))
  {
    GrowthMoves(r, s, h);
    RoundReads(r, s, h, cursor, seen, bunches);
  }

  lemma GrowthMoves(r: Reading, s: Pipeline, h: seq<Tx>)
    requires s.history <= h && DistinctSignatures(h)
    ensures Moves(r, s, ChainGrows(h[|s.history|..]), s.(history := h))
  {
    assert s.history + h[|s.history|..] == h;
  }

  lemma RoundReads(r: Reading, s: Pipeline, h: seq<Tx>, cursor: nat, seen: nat, bunches: seq<LogsBunch>)
    requires !s.stopped && s.seen <= seen <= |h| && CursorMoves(h, s.cursor, seen, !s.started, cursor)
    requires bunches == Deliver(h, s.cursor + 1, seen, !s.started)
    ensures var grown := s.(history := h);
            Moves(r, grown, ReaderRound(seen), AfterRound(grown, cursor, seen, bunches))
  {
  }

  /** A proposal whose transaction id has no second 32-byte chunk is dropped, and the next one may follow. */
  lemma ShortIdIsDropped(o: Outbox, p: Propose, accepted: bool)
    requires o.buffered == Some(p) || (o.buffered.None? && o.queue != [] && o.queue[0] == p)
    requires |p.operationData.srcOpTxId| <= 32
    ensures var o' := PublishNext(o, Try(accepted));
            o'.published == o.published && o'.buffered.None? && o'.queue == if o.buffered.Some? then o.queue else o.queue[1..]
  {
  }

  /** A turn of the publisher neither loses nor reorders, whatever happens to the connection. */
  lemma PublishKeepsAll(o: Outbox, turn: PublishTurn)
    requires forall p :: p in o.All() ==> Encodable(p)
    ensures PublishNext(o, turn).All() == o.All() && o.published <= PublishNext(o, turn).published
    ensures turn == Try(true) && PublishNext(o, turn).published == o.published ==> o.buffered.None? && o.queue == []
    ensures turn != Try(true) ==> PublishNext(o, turn).published == o.published
    ensures |PublishNext(o, turn).published| <= |o.published| + 1
  {
    if turn.Try? && !(o.buffered.None? && o.queue == []) {
      var p := if o.buffered.Some? then o.buffered.value else o.queue[0];
      assert p in Emitted(o.buffered) + o.queue;
      AppendAssociative(o.published, Emitted(o.buffered), o.queue);
    }
  }

  /** A cursor whose transaction is the newest one sent tracks the round, wherever else it might have been put. */
  lemma RoundTracks(h: seq<Tx>, begin: nat, cursor: nat, first: nat, seen: nat, top: nat, needCheck: bool, next: nat)
    requires DistinctSignatures(h) && Tracks(h, begin, cursor, first, seen) && seen <= top <= |h|
    requires needCheck ==> cursor == begin && first == seen == begin + 1
    requires CursorMoves(h, cursor, top, needCheck, next)
    ensures var first' := if needCheck then top else first;
            && Tracks(h, begin, next, first', top)
            && DeliveredSoFar(h, begin, first', top) == DeliveredSoFar(h, begin, first, seen) + Deliver(h, cursor + 1, top, needCheck)
  {
    var cursor', first' := RoundAdvances(h, begin, cursor, first, seen, top, needCheck);
    if Deliver(h, cursor + 1, top, needCheck) != [] {
      SameSignature(h, cursor', next);
    }
  }

  lemma RoundKeepsTracking(s: Pipeline, top: nat, s': Pipeline)
    requires ReaderTracks(s) && Reads(s, top, s')
    ensures ReaderTracks(s')
  {
    RoundTracks(s.history, s.begin, s.cursor, s.first, s.seen, top, !s.started, s'.cursor);
  }

  lemma RoundDelivers(h: seq<Tx>, begin: nat, cursor: nat, first: nat, seen: nat, top: nat, needCheck: bool, next: nat,
                      delivered: seq<LogsBunch>, bunches: seq<LogsBunch>)
    requires DistinctSignatures(h) && Tracks(h, begin, cursor, first, seen) && seen <= top <= |h|
    requires needCheck ==> cursor == begin && first == seen == begin + 1
    requires CursorMoves(h, cursor, top, needCheck, next) && DeliveredExactly(h, begin, first, seen, delivered)
    requires bunches == Deliver(h, cursor + 1, top, needCheck)
    ensures DeliveredExactly(h, begin, if needCheck then top else first, top, delivered + bunches)
  {
    RoundTracks(h, begin, cursor, first, seen, top, needCheck, next);
  }

  lemma RoundDeliversExactly(s: Pipeline, cursor: nat, top: nat, bunches: seq<LogsBunch>)
    requires ReaderTracks(s) && DeliveredExactly(s.history, s.begin, s.first, s.seen, s.delivered) && s.seen <= top <= |s.history|
    requires CursorMoves(s.history, s.cursor, top, !s.started, cursor) && bunches == Deliver(s.history, s.cursor + 1, top, !s.started)
    ensures var s' := AfterRound(s, cursor, top, bunches);
            DeliveredExactly(s'.history, s'.begin, s'.first, s'.seen, s'.delivered)
  {
    RoundDelivers(s.history, s.begin, s.cursor, s.first, s.seen, top, !s.started, cursor, s.delivered, bunches);
  }

  lemma {:induction false} DeliveredFromChain(h: seq<Tx>, i: nat, k: nat, needCheck: bool)
    requires k <= |h|
    ensures forall b :: b in Deliver(h, i, k, needCheck) ==> FromChain(h, b)
  {
    if k > i {
      DeliveredFromChain(h, i, k - 1, needCheck);
      forall b | b in BunchOf(h[k - 1], needCheck)
        ensures FromChain(h, b)
      {
        assert DeliveredLogs(h[k - 1]) == Some(b.logs);
      }
    }
  }

  lemma RoundKeepsQueue(r: Reading, s: Pipeline, cursor: nat, top: nat, bunches: seq<LogsBunch>)
    requires QueueOk(r, s) && !s.stopped && top <= |s.history| && bunches == Deliver(s.history, s.cursor + 1, top, !s.started)
    ensures QueueOk(r, AfterRound(s, cursor, top, bunches))
  {
    DeliveredFromChain(s.history, s.cursor + 1, top, !s.started);
  }

  lemma RoundLosesNothing(r: Reading, s: Pipeline, cursor: nat, seen: nat, bunches: seq<LogsBunch>)
    requires NothingLost(r, s.outbox.All(), s.logs, s.delivered)
    ensures var s' := AfterRound(s, cursor, seen, bunches);
            NothingLost(r, s'.outbox.All(), s'.logs, s'.delivered)
  {
    LogsMore(r, s.outbox.All(), s.logs, s.delivered, bunches);
  }

  lemma RoundKeepsConsistent(r: Reading, s: Pipeline, top: nat, s': Pipeline)
    requires Consistent(r, s) && Reads(s, top, s') && !s.stopped
    ensures Consistent(r, s')
  {
    var bunches := Deliver(s.history, s.cursor + 1, top, !s.started);
    RoundKeepsTracking(s, top, s');
    RoundDeliversExactly(s, s'.cursor, top, bunches);
    RoundKeepsQueue(r, s, s'.cursor, top, bunches);
    RoundLosesNothing(r, s, s'.cursor, top, bunches);
    assert s' == AfterRound(s, s'.cursor, top, bunches);
  }

  lemma SameSignature(h: seq<Tx>, i: nat, j: nat)
    requires DistinctSignatures(h) && i < |h| && j < |h| && h[i].signature == h[j].signature
    ensures i == j
  {
    assert IndexOf(h, h[i].signature) == i && IndexOf(h, h[j].signature) == j;
  }

  lemma LogsMore(r: Reading, all: seq<Propose>, logs: seq<LogsBunch>, before: seq<LogsBunch>, sent: seq<LogsBunch>)
    requires NothingLost(r, all, logs, before)
    ensures NothingLost(r, all, logs + sent, before + sent)
  {
    ConcatAppend(r.gives, logs, sent);
    ConcatAppend(r.gives, before, sent);
    var x, y := Concat(r.gives, logs), Concat(r.gives, sent);
    AppendAssociative(all, x, y);
  }

  lemma QueueMore(o: Outbox, made: seq<Propose>, rest: seq<Propose>)
    ensures var o' := o.(queue := o.queue + made);
            o'.All() == o.All() + made && o'.All() + rest == o.All() + (made + rest)
  {
    AppendAssociative(o.published + Emitted(o.buffered), o.queue, made);
    AppendAssociative(o.All(), made, rest);
  }

  lemma ProcessKeepsConsistent(r: Reading, s: Pipeline, s': Pipeline)
    requires GivesEncodable(r) && Consistent(r, s) && Moves(r, s, ProcessLogs, s')
    ensures Consistent(r, s')
  {
    if !s.stopped && s.logs != [] && !r.panics(s.logs[0]) {
      QueueMore(s.outbox, r.gives(s.logs[0]), Concat(r.gives, s.logs[1..]));
    }
  }

  lemma GrowthKeepsConsistent(r: Reading, s: Pipeline, more: seq<Tx>, s': Pipeline)
    requires Consistent(r, s) && Moves(r, s, ChainGrows(more), s')
    ensures Consistent(r, s')
  {
    GrownSoFar(s.history, s'.history, s.begin, s.cursor, s.first, s.seen);
    forall b | b in s.logs
      ensures FromChain(s'.history, b)
    {
      var j :| 0 <= j < |s.history| && DeliveredLogs(s.history[j]) == Some(b.logs);
      assert s'.history[j] == s.history[j];
    }
  }

  lemma MoveKeepsConsistent(r: Reading, s: Pipeline, m: Move, s': Pipeline)
    requires GivesEncodable(r) && Consistent(r, s) && Moves(r, s, m, s')
    ensures Consistent(r, s')
  {
    match m
    case ChainGrows(more) => GrowthKeepsConsistent(r, s, more, s');
    case ReaderRound(top) =>
      if !s.stopped {
        RoundKeepsConsistent(r, s, top, s');
      }
    case ProcessLogs => ProcessKeepsConsistent(r, s, s');
    case Publish(turn) => PublishKeepsAll(s.outbox, turn);
  }

  ghost predicate IsListenerRun(r: Reading, states: seq<Pipeline>, moves: seq<Move>) {
    && |states| == |moves| + 1 && Start(states[0])
    && forall i {:trigger Moves(r, states[i], moves[i], states[i + 1])} :: 0 <= i < |moves| ==>
         Moves(r, states[i], moves[i], states[i + 1])
  }

  lemma ListenerMoves(r: Reading, states: seq<Pipeline>, moves: seq<Move>, k: nat)
    requires IsListenerRun(r, states, moves) && k < |moves|
    ensures Moves(r, states[k], moves[k], states[k + 1])
  {
  }

  lemma StartIsConsistent(r: Reading, s: Pipeline)
    requires Start(s)
    ensures Consistent(r, s)
  {
    assert DeliveredSoFar(s.history, s.begin, s.first, s.seen) == [];
    assert s.outbox.All() == [];
  }

  lemma RunMoveKeepsConsistent(r: Reading, states: seq<Pipeline>, moves: seq<Move>, k: nat)
    requires GivesEncodable(r) && IsListenerRun(r, states, moves) && 0 < k < |states| && Consistent(r, states[k - 1])
    ensures Consistent(r, states[k])
  {
    ListenerMoves(r, states, moves, k - 1);
    MoveKeepsConsistent(r, states[k - 1], moves[k - 1], states[k]);
  }

  lemma RunStartsConsistent(r: Reading, states: seq<Pipeline>, moves: seq<Move>)
    requires IsListenerRun(r, states, moves)
    ensures Consistent(r, states[0])
  {
    StartIsConsistent(r, states[0]);
  }

  lemma RunIsConsistent(r: Reading, states: seq<Pipeline>, moves: seq<Move>, k: nat)
    requires GivesEncodable(r) && IsListenerRun(r, states, moves) && k < |states|
    ensures Consistent(r, states[k])
  {
    RunStartsConsistent(r, states, moves);
    for i := 0 to k
      invariant Consistent(r, states[i])
    {
      RunMoveKeepsConsistent(r, states, moves, i + 1);
    }
  }

  lemma ConsistentSays(r: Reading, s: Pipeline)
    requires Consistent(r, s)
    ensures s.first <= |s.history| && s.seen <= |s.history|
    ensures s.outbox.published + Emitted(s.outbox.buffered) + s.outbox.queue + Concat(r.gives, s.logs)
         == Concat(r.gives, Deliver(s.history, s.begin + 1, s.first, true) + Deliver(s.history, s.first, s.seen, false))
  {
  }

  lemma {:induction false} ProposalsEncodable(cfg: Settings, events: seq<ProposeEvent>, signature: TxSignature, slot: u64, needCheck: bool)
    requires SignaturesDecode(cfg)
    ensures forall p :: p in ProposalsFor(cfg, events, signature, slot, needCheck) ==> Encodable(p)
  {
    if events != [] {
      ProposalsEncodable(cfg, events[1..], signature, slot, needCheck);
    }
  }

  lemma LogsEncodable(cfg: Settings, b: LogsBunch)
    requires SignaturesDecode(cfg)
    ensures forall p :: p in OnLogs(cfg, b) ==> Encodable(p)
  {
    var events := Parse(cfg.codec, cfg.programId, b.logs);
    if events.Ok? {
      ProposalsEncodable(cfg, events.value, b.txSignature, b.slot, b.needCheck);
    }
  }

  lemma ReadingGivesEncodable(cfg: Settings)
    requires SignaturesDecode(cfg)
    ensures GivesEncodable(ReadingOf(cfg))
  {
    forall b, p | p in ReadingOf(cfg).gives(b)
      ensures Encodable(p)
    {
      LogsEncodable(cfg, b);
    }
  }

  /**
    End to end, over every run of the listener: what is published, then buffered, then queued, then
    still to be parsed, are in this order exactly the allowed proposals of the delivered part of the
    chain, in chain order. Growth of the chain, refused publications and reconnects lose and reorder nothing.
  */
  lemma NothingLostOrReordered(cfg: Settings, states: seq<Pipeline>, moves: seq<Move>, k: nat)
    requires SignaturesDecode(cfg) && IsListenerRun(ReadingOf(cfg), states, moves) && k < |states|
    ensures var s := states[k];
            && s.first <= |s.history| && s.seen <= |s.history|
            && s.outbox.published + Emitted(s.outbox.buffered) + s.outbox.queue + OnAllLogs(cfg, s.logs)
               == OnAllLogs(cfg, Deliver(s.history, s.begin + 1, s.first, true) + Deliver(s.history, s.first, s.seen, false))
  {
    ReadingGivesEncodable(cfg);
    RunIsConsistent(ReadingOf(cfg), states, moves, k);
    ConsistentSays(ReadingOf(cfg), states[k]);
  }

  // ---- On a chain whose logs were printed from call forests ----

  /** What the transactions of a stretch of the chain give, oldest first. */
  function Along<T>(of: Tx -> seq<T>, h: seq<Tx>, i: nat, k: nat): seq<T>
    requires k <= |h|
  {
    if k <= i then [] else Along(of, h, i, k - 1) + of(h[k - 1])
  }

  /** This transaction's bunch, if any, gives what the transaction does. */
  ghost predicate Gives<T>(ofBunch: LogsBunch -> seq<T>, ofTx: Tx -> seq<T>, tx: Tx, needCheck: bool) {
    Concat(ofBunch, BunchOf(tx, needCheck)) == ofTx(tx)
  }

  ghost predicate StretchGives<T>(ofBunch: LogsBunch -> seq<T>, ofTx: Tx -> seq<T>, h: seq<Tx>, i: nat, k: nat, needCheck: bool)
    requires k <= |h|
  {
    Concat(ofBunch, Deliver(h, i, k, needCheck)) == Along(ofTx, h, i, k)
  }

  ghost predicate AllGive<T>(ofBunch: LogsBunch -> seq<T>, ofTx: Tx -> seq<T>, h: seq<Tx>, needCheck: bool) {
    forall j {:trigger Gives(ofBunch, ofTx, h[j], needCheck)} :: 0 <= j < |h| ==> Gives(ofBunch, ofTx, h[j], needCheck)
  }

  lemma NothingGiven<T>(ofBunch: LogsBunch -> seq<T>, ofTx: Tx -> seq<T>, h: seq<Tx>, i: nat, k: nat, needCheck: bool)
    requires k <= |h| && k <= i
    ensures StretchGives(ofBunch, ofTx, h, i, k, needCheck)
  {
  }

  lemma OneMoreGiven<T>(ofBunch: LogsBunch -> seq<T>, ofTx: Tx -> seq<T>, h: seq<Tx>, i: nat, k: nat, needCheck: bool)
    requires i < k <= |h| && StretchGives(ofBunch, ofTx, h, i, k - 1, needCheck) && AllGive(ofBunch, ofTx, h, needCheck)
    ensures StretchGives(ofBunch, ofTx, h, i, k, needCheck)
  {
    assert Gives(ofBunch, ofTx, h[k - 1], needCheck);
    ConcatAppend(ofBunch, Deliver(h, i, k - 1, needCheck), BunchOf(h[k - 1], needCheck));
  }

  /** Delivering a stretch gives what its transactions do. */
  lemma {:induction false} DeliverAlong<T>(ofBunch: LogsBunch -> seq<T>, ofTx: Tx -> seq<T>, h: seq<Tx>, i: nat, k: nat, needCheck: bool)
    requires k <= |h| && AllGive(ofBunch, ofTx, h, needCheck)
    ensures StretchGives(ofBunch, ofTx, h, i, k, needCheck)
  {
    if k > i {
      DeliverAlong(ofBunch, ofTx, h, i, k - 1, needCheck);
      OneMoreGiven(ofBunch, ofTx, h, i, k, needCheck);
    } else {
      NothingGiven(ofBunch, ofTx, h, i, k, needCheck);
    }
  }

  /** The proposals of the events a transaction's calls logged, if it is delivered. */
  function TxProposals(cfg: Settings, calls: Tx -> Forest<ProposeEvent>, tx: Tx, needCheck: bool): seq<Propose> {
    if !Succeeded(tx) then []
    else ProposalsFor(cfg, Events(cfg.programId, None, calls(tx)), tx.signature, tx.slot, needCheck)
  }

  function TxProposalsOf(cfg: Settings, calls: Tx -> Forest<ProposeEvent>, needCheck: bool): Tx -> seq<Propose> {
    tx => TxProposals(cfg, calls, tx, needCheck)
  }

  /** Every delivered log of the chain was printed from a well-formed forest of calls. */
  ghost predicate Printed(cfg: Settings, calls: Tx -> Forest<ProposeEvent>, h: seq<Tx>) {
    forall j :: 0 <= j < |h| && Succeeded(h[j]) ==> FromCalls(cfg, calls(h[j]), h[j].meta.value.logMessages.value)
  }

  lemma OneDelivered(cfg: Settings, calls: Tx -> Forest<ProposeEvent>, h: seq<Tx>, j: nat, needCheck: bool)
    requires Printed(cfg, calls, h) && j < |h|
    ensures OnAllLogs(cfg, BunchOf(h[j], needCheck)) == TxProposals(cfg, calls, h[j], needCheck)
  {
    if DeliveredLogs(h[j]).Some? {
      var b := LogsBunch(needCheck, h[j].signature, h[j].slot, DeliveredLogs(h[j]).value);
      assert BunchOf(h[j], needCheck) == [b];
      PrintedLogsYieldTheirEvents(cfg, b, calls(h[j]));
      assert [b][1..] == [];
      assert OnLogsOf(cfg)(b) == OnLogs(cfg, b);
      assert Concat(OnLogsOf(cfg), [b]) == OnLogs(cfg, b) + [];
    }
  }

  lemma PrintedNeverStops(cfg: Settings, calls: Tx -> Forest<ProposeEvent>, s: Pipeline)
    requires QueueOk(ReadingOf(cfg), s) && Printed(cfg, calls, s.history)
    ensures !s.stopped
  {
    if s.stopped {
      assert FromChain(s.history, s.logs[0]);
      var j :| 0 <= j < |s.history| && DeliveredLogs(s.history[j]) == Some(s.logs[0].logs);
      ParseUndoesPrint(cfg.codec, cfg.programId, calls(s.history[j]));
    }
  }

  lemma StretchLogged(cfg: Settings, calls: Tx -> Forest<ProposeEvent>, h: seq<Tx>, i: nat, k: nat, needCheck: bool)
    requires Printed(cfg, calls, h) && k <= |h|
    ensures OnAllLogs(cfg, Deliver(h, i, k, needCheck)) == Along(TxProposalsOf(cfg, calls, needCheck), h, i, k)
  {
    forall j | 0 <= j < |h|
      ensures Gives(OnLogsOf(cfg), TxProposalsOf(cfg, calls, needCheck), h[j], needCheck)
    {
      OneDelivered(cfg, calls, h, j, needCheck);
    }
    DeliverAlong(OnLogsOf(cfg), TxProposalsOf(cfg, calls, needCheck), h, i, k, needCheck);
  }

  /** What the calls of all transactions delivered so far logged; those of the first round ask to be checked. */
  ghost function Logged(cfg: Settings, calls: Tx -> Forest<ProposeEvent>, h: seq<Tx>, begin: nat, first: nat, seen: nat): seq<Propose>
    requires first <= |h| && seen <= |h|
  {
    Along(TxProposalsOf(cfg, calls, true), h, begin + 1, first) + Along(TxProposalsOf(cfg, calls, false), h, first, seen)
  }

  lemma PrintedLogged(cfg: Settings, calls: Tx -> Forest<ProposeEvent>, h: seq<Tx>, begin: nat, first: nat, seen: nat)
    requires Printed(cfg, calls, h) && first <= |h| && seen <= |h|
    ensures OnAllLogs(cfg, DeliveredSoFar(h, begin, first, seen)) == Logged(cfg, calls, h, begin, first, seen)
  {
    StretchLogged(cfg, calls, h, begin + 1, first, true);
    StretchLogged(cfg, calls, h, first, seen, false);
    ConcatAppend(OnLogsOf(cfg), Deliver(h, begin + 1, first, true), Deliver(h, first, seen, false));
  }

  /**
    From the calls on the chain to the broker, over every run: when all delivered logs were printed from
    well-formed forests, the listener never stops, and what is published, buffered, queued and still to
    be parsed are exactly the allowed proposals logged by the calls of the delivered transactions, in
    chain order, and those of the first round ask to be checked.
  */
  lemma PrintedChainArrives(cfg: Settings, calls: Tx -> Forest<ProposeEvent>, states: seq<Pipeline>, moves: seq<Move>, k: nat)
    requires SignaturesDecode(cfg) && IsListenerRun(ReadingOf(cfg), states, moves) && k < |states|
    requires Printed(cfg, calls, states[k].history)
    ensures var s := states[k];
            && !s.stopped && s.first <= |s.history| && s.seen <= |s.history|
            && s.outbox.All() + OnAllLogs(cfg, s.logs) == Logged(cfg, calls, s.history, s.begin, s.first, s.seen)
  {
    ReadingGivesEncodable(cfg);
    RunIsConsistent(ReadingOf(cfg), states, moves, k);
    var s := states[k];
    PrintedNeverStops(cfg, calls, s);
    PrintedLogged(cfg, calls, s.history, s.begin, s.first, s.seen);
  }
}
