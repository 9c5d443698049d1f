/** Reading a growing chain backwards, page by page (transmitter-module/src/common/solana_logs/solana_retro_reader.rs). */
module RetroReader {
  import opened Wrappers
  import opened Bytes

  datatype TxSignature = TxSignature(base58: string)

  /** The part of a transaction's metadata that is read. */
  datatype Meta = Meta(failed: bool, logMessages: Option<seq<string>>)
  datatype Tx = Tx(signature: TxSignature, meta: Option<Meta>, slot: u64)
  datatype LogsBunch = LogsBunch(needCheck: bool, txSignature: TxSignature, slot: u64, logs: seq<string>)

  /** The logs of a transaction that is delivered: it succeeded and logged something. */
  function DeliveredLogs(tx: Tx): Option<seq<string>> {
    if tx.meta.None? || tx.meta.value.failed || tx.meta.value.logMessages.None? then None
    else if tx.meta.value.logMessages.value == [] then None
    else tx.meta.value.logMessages
  }

  function BunchOf(tx: Tx, needCheck: bool): seq<LogsBunch> {
    match DeliveredLogs(tx)
    case None => []
    case Some(logs) => [LogsBunch(needCheck, tx.signature, tx.slot, logs)]
  }

  /** What delivering transactions i up to k of the chain means: the successful, logging ones, oldest first. */
  function Deliver(h: seq<Tx>, i: nat, k: nat, needCheck: bool): seq<LogsBunch>
    requires k <= |h|
  {
    if k <= i then [] else Deliver(h, i, k - 1, needCheck) + BunchOf(h[k - 1], needCheck)
  }

  /** The first position of a signature in the chain, or -1. */
  function IndexOf(h: seq<Tx>, s: TxSignature): (i: int)
    ensures -1 <= i < |h|
    ensures i >= 0 ==> h[i].signature == s
  {
    if h == [] then -1
    else if h[0].signature == s then 0
    else
      var i := IndexOf(h[1..], s);
      if i == -1 then -1 else i + 1
  }

  /** No signature occurs twice: each is found at its own place. */
  predicate DistinctSignatures(h: seq<Tx>) {
    forall i {:trigger IndexOf(h, h[i].signature)} :: 0 <= i < |h| ==> IndexOf(h, h[i].signature) == i
  }

  lemma IndexIsUnique(h: seq<Tx>, s: TxSignature, i: nat)
    requires DistinctSignatures(h) && i < |h| && h[i].signature == s
    ensures IndexOf(h, s) == i
  {
  }

  lemma {:induction false} DeliverSplit(h: seq<Tx>, i: nat, j: nat, k: nat, needCheck: bool)
    requires i <= j <= k <= |h|
    ensures Deliver(h, i, k, needCheck) == Deliver(h, i, j, needCheck) + Deliver(h, j, k, needCheck)
  {
    if j < k {
      DeliverSplit(h, i, j, k - 1, needCheck);
      AppendAssociative(Deliver(h, i, j, needCheck), Deliver(h, j, k - 1, needCheck), BunchOf(h[k - 1], needCheck));
    } else {
      AppendEmpty(Deliver(h, i, j, needCheck));
    }
  }

  lemma DeliverFront(h: seq<Tx>, i: nat, k: nat, needCheck: bool)
    requires i < k <= |h|
    ensures Deliver(h, i, k, needCheck) == BunchOf(h[i], needCheck) + Deliver(h, i + 1, k, needCheck)
  {
    DeliverSplit(h, i, i + 1, k, needCheck);
    AppendEmpty(BunchOf(h[i], needCheck));
    assert Deliver(h, i, i + 1, needCheck) == Deliver(h, i, i, needCheck) + BunchOf(h[i], needCheck);
  }

  lemma {:induction false} GrownDelivery(h: seq<Tx>, h': seq<Tx>, i: nat, k: nat, needCheck: bool)
    requires h <= h' && k <= |h|
    ensures Deliver(h, i, k, needCheck) == Deliver(h', i, k, needCheck)
  {
    if i < k {
      GrownDelivery(h, h', i, k - 1, needCheck);
    }
  }

  /** A stretch delivers nothing exactly when none of its transactions does, whatever the check flag. */
  lemma {:induction false} EmptyDelivery(h: seq<Tx>, i: nat, k: nat, needCheck: bool)
    requires k <= |h|
    ensures |Deliver(h, i, k, needCheck)| == 0 <==> forall j :: i <= j < k ==> DeliveredLogs(h[j]).None?
  {
    if i < k {
      EmptyDelivery(h, i, k - 1, needCheck);
      assert |Deliver(h, i, k, needCheck)| == |Deliver(h, i, k - 1, needCheck)| + |BunchOf(h[k - 1], needCheck)|;
    }
  }

  /** Transaction c is the newest delivered one of the stretch. */
  ghost predicate NewestAt(h: seq<Tx>, i: nat, k: nat, c: nat, needCheck: bool)
    requires k <= |h|
  {
    && i <= c < k && DeliveredLogs(h[c]).Some?
    && (forall j :: c < j < k ==> DeliveredLogs(h[j]).None?)
    && Deliver(h, i, k, needCheck) == Deliver(h, i, c, needCheck) + BunchOf(h[c], needCheck)
  }

  lemma NothingNewer(h: seq<Tx>, i: nat, k: nat, c: nat, needCheck: bool)
    requires i < k <= |h| && DeliveredLogs(h[k - 1]).None? && NewestAt(h, i, k - 1, c, needCheck)
    ensures NewestAt(h, i, k, c, needCheck)
  {
    AppendEmpty(Deliver(h, i, k - 1, needCheck));
  }

  lemma QuietLast(h: seq<Tx>, i: nat, k: nat, needCheck: bool)
    requires i < k <= |h| && DeliveredLogs(h[k - 1]).None?
    ensures |Deliver(h, i, k, needCheck)| == |Deliver(h, i, k - 1, needCheck)|
  {
  }

  /** A stretch that delivers something ends, as far as delivery goes, with its newest delivered transaction. */
  lemma {:induction false} NewestDelivered(h: seq<Tx>, i: nat, k: nat, needCheck: bool) returns (c: nat)
    requires i <= k <= |h| && |Deliver(h, i, k, needCheck)| > 0
    ensures NewestAt(h, i, k, c, needCheck)
    decreases k
  {
    c := k - 1;
    if DeliveredLogs(h[k - 1]).None? {
      QuietLast(h, i, k, needCheck);
      c := NewestDelivered(h, i, k - 1, needCheck);
      NothingNewer(h, i, k, c, needCheck);
    }
  }

  /** From here the next round reads on: nothing after it up to top is delivered, and it is what the last bunch says. */
  ghost predicate IsNextCursor(h: seq<Tx>, cursor: nat, top: nat, needCheck: bool, c: nat)
    requires top <= |h|
  {
    && cursor <= c < top && Deliver(h, c + 1, top, false) == []
    && var d := Deliver(h, cursor + 1, top, needCheck);
       if d == [] then c == cursor else h[c].signature == d[|d| - 1].txSignature
  }

  lemma CursorAtNewest(h: seq<Tx>, cursor: nat, top: nat, needCheck: bool, c: nat)
    requires cursor < top <= |h| && NewestAt(h, cursor + 1, top, c, needCheck)
    ensures IsNextCursor(h, cursor, top, needCheck, c)
  {
    AppendLast(Deliver(h, cursor + 1, c, needCheck), BunchOf(h[c], needCheck)[0]);
    EmptyDelivery(h, c + 1, top, false);
  }

  lemma CursorStays(h: seq<Tx>, cursor: nat, top: nat, needCheck: bool)
    requires cursor < top <= |h| && |Deliver(h, cursor + 1, top, needCheck)| == 0
    ensures IsNextCursor(h, cursor, top, needCheck, cursor)
  {
    assert Deliver(h, cursor + 1, top, needCheck) == [];
    assert |Deliver(h, cursor + 1, top, false)| == 0 by {
      EmptyDelivery(h, cursor + 1, top, needCheck);
      EmptyDelivery(h, cursor + 1, top, false);
    }
  }

  /** Where the next round reads from: the newest delivered transaction, or the old cursor. */
  lemma NextCursor(h: seq<Tx>, cursor: nat, top: nat, needCheck: bool) returns (cursor': nat)
    requires cursor < top <= |h|
    ensures IsNextCursor(h, cursor, top, needCheck, cursor')
  {
    if |Deliver(h, cursor + 1, top, needCheck)| == 0 {
      cursor' := cursor;
      CursorStays(h, cursor, top, needCheck);
    } else {
      cursor' := NewestDelivered(h, cursor + 1, top, needCheck);
      CursorAtNewest(h, cursor, top, needCheck, cursor');
    }
  }

  /** A later round, read from the cursor, extends what was delivered up to where it looked. */
  lemma LaterRoundExtends(h: seq<Tx>, cursor: nat, first: nat, seen: nat, top: nat)
    requires cursor < seen <= top <= |h| && first <= seen && Deliver(h, cursor + 1, seen, false) == []
    ensures Deliver(h, first, top, false) == Deliver(h, first, seen, false) + Deliver(h, cursor + 1, top, false)
  {
    DeliverSplit(h, cursor + 1, seen, top, false);
    DeliverSplit(h, first, seen, top, false);
  }

  /** What a run of the reader keeps: nothing is delivered between its cursor and the last position it saw. */
  ghost predicate Tracks(h: seq<Tx>, begin: nat, cursor: nat, first: nat, seen: nat) {
    && begin <= cursor < seen <= |h| && begin < first <= seen
    && Deliver(h, cursor + 1, seen, false) == []
  }

  /** Everything delivered so far: the first round's stretch to be checked, the rest not. */
  ghost function DeliveredSoFar(h: seq<Tx>, begin: nat, first: nat, seen: nat): seq<LogsBunch>
    requires first <= |h| && seen <= |h|
  {
    Deliver(h, begin + 1, first, true) + Deliver(h, first, seen, false)
  }

  lemma GrownSoFar(h: seq<Tx>, h': seq<Tx>, begin: nat, cursor: nat, first: nat, seen: nat)
    requires h <= h' && Tracks(h, begin, cursor, first, seen)
    ensures Tracks(h', begin, cursor, first, seen)
    ensures DeliveredSoFar(h', begin, first, seen) == DeliveredSoFar(h, begin, first, seen)
  {
    GrownDelivery(h, h', begin + 1, first, true);
    GrownDelivery(h, h', first, seen, false);
    GrownDelivery(h, h', cursor + 1, seen, false);
  }

  /** Where a round leaves the cursor: at the newest transaction it sent, or where it was. */
  ghost predicate CursorMoves(h: seq<Tx>, cursor: nat, top: nat, needCheck: bool, cursor': nat)
    requires top <= |h|
  {
    var d := Deliver(h, cursor + 1, top, needCheck);
    if d == [] then cursor' == cursor else cursor' < |h| && h[cursor'].signature == d[|d| - 1].txSignature
  }

  /** What one round does: while the chain grew from was to h it collected what lies between the cursor and seen', all of was included. */
  ghost predicate RoundDone(was: seq<Tx>, h: seq<Tx>, begin: nat, cursor: nat, first: nat, needCheck: bool,
                            cursor': nat, first': nat, seen': nat, bunches: seq<LogsBunch>)
  {
    && was <= h && DistinctSignatures(h) && |was| <= seen' <= |h|
    && first' == (if needCheck then seen' else first) && Tracks(h, begin, cursor', first', seen')
    && bunches == Deliver(h, cursor + 1, seen', needCheck)
    && CursorMoves(h, cursor, seen', needCheck, cursor')
  }

  /** A round that delivers from the cursor to top keeps the tracking and appends its bunches. */
  lemma RoundAdvances(h: seq<Tx>, begin: nat, cursor: nat, first: nat, seen: nat, top: nat, needCheck: bool)
    returns (cursor': nat, first': nat)
    requires Tracks(h, begin, cursor, first, seen) && seen <= top <= |h|
    requires needCheck ==> cursor == begin && first == seen == begin + 1
    ensures first' == (if needCheck then top else first) && Tracks(h, begin, cursor', first', top)
    ensures DeliveredSoFar(h, begin, first', top)
         == DeliveredSoFar(h, begin, first, seen) + Deliver(h, cursor + 1, top, needCheck)
    ensures CursorMoves(h, cursor, top, needCheck, cursor')
  {
    cursor' := NextCursor(h, cursor, top, needCheck);
    if needCheck {
      first' := top;
      FirstRound(h, begin, top);
    } else {
      first' := first;
      LaterRoundExtends(h, cursor, first, seen, top);
      AppendAssociative(Deliver(h, begin + 1, first, true), Deliver(h, first, seen, false), Deliver(h, cursor + 1, top, false));
    }
  }

  /** The same on a chain that has grown since the round began. */
  lemma RoundAdvancesGrown(was: seq<Tx>, h: seq<Tx>, begin: nat, cursor: nat, first: nat, seen: nat, top: nat, needCheck: bool)
    returns (cursor': nat, first': nat)
    requires was <= h && DistinctSignatures(was) && Tracks(was, begin, cursor, first, seen) && |was| <= top <= |h|
    requires needCheck ==> cursor == begin && first == seen == begin + 1
    ensures first' == (if needCheck then top else first) && Tracks(h, begin, cursor', first', top)
    ensures DeliveredSoFar(h, begin, first', top)
         == DeliveredSoFar(was, begin, first, seen) + Deliver(h, cursor + 1, top, needCheck)
    ensures CursorMoves(h, cursor, top, needCheck, cursor') && h[cursor] == was[cursor]
  {
    GrownSoFar(was, h, begin, cursor, first, seen);
    cursor', first' := RoundAdvances(h, begin, cursor, first, seen, top, needCheck);
    assert h[cursor] == was[cursor];
  }

  lemma FirstRound(h: seq<Tx>, begin: nat, top: nat)
    requires begin < top <= |h|
    ensures DeliveredSoFar(h, begin, top, top)
         == DeliveredSoFar(h, begin, begin + 1, begin + 1) + Deliver(h, begin + 1, top, true)
  {
  }

  // ---- What has been delivered, said of the history's entries alone ----

  /** The transaction succeeded and logged something. */
  predicate Succeeded(tx: Tx) {
    tx.meta.Some? && !tx.meta.value.failed && tx.meta.value.logMessages.Some? && |tx.meta.value.logMessages.value| > 0
  }

  /** The positions of the succeeded entries from i up to k, in order. */
  function Positions(h: seq<Tx>, i: nat, k: nat): seq<nat>
    requires k <= |h|
  {
    if k <= i then [] else Positions(h, i, k - 1) + (if Succeeded(h[k - 1]) then [k - 1] else [])
  }

  lemma {:induction false} PositionsExactly(h: seq<Tx>, i: nat, k: nat)
    requires k <= |h|
    ensures forall j {:trigger j in Positions(h, i, k)} :: j in Positions(h, i, k) <==> i <= j < k && Succeeded(h[j])
    ensures forall x, y :: 0 <= x < y < |Positions(h, i, k)| ==> Positions(h, i, k)[x] < Positions(h, i, k)[y]
  {
    if i < k {
      PositionsExactly(h, i, k - 1);
      var before := Positions(h, i, k - 1);
      assert forall x :: 0 <= x < |before| ==> before[x] in before;
    }
  }

  lemma {:induction false} PositionsJoin(h: seq<Tx>, i: nat, j: nat, k: nat)
    requires i <= j <= k <= |h|
    ensures Positions(h, i, k) == Positions(h, i, j) + Positions(h, j, k)
  {
    if j < k {
      PositionsJoin(h, i, j, k - 1);
      AppendAssociative(Positions(h, i, j), Positions(h, j, k - 1), if Succeeded(h[k - 1]) then [k - 1] else []);
    } else {
      AppendEmpty(Positions(h, i, j));
    }
  }

  /** The bunch carries this entry's signature, slot and logs, and asks for a check as given. */
  predicate Carries(tx: Tx, needCheck: bool, b: LogsBunch) {
    && Succeeded(tx) && b.needCheck == needCheck
    && b.txSignature == tx.signature && b.slot == tx.slot && b.logs == tx.meta.value.logMessages.value
  }

  /** The bunches are those of the entries at these positions, one each; those before first ask for a check. */
  ghost predicate CarryAll(h: seq<Tx>, first: nat, at: seq<nat>, bunches: seq<LogsBunch>) {
    && |bunches| == |at|
    && forall x :: 0 <= x < |at| ==> at[x] < |h| && Carries(h[at[x]], at[x] < first, bunches[x])
  }

  lemma CarryAppend(h: seq<Tx>, first: nat, a: seq<nat>, b: seq<nat>, x: seq<LogsBunch>, y: seq<LogsBunch>)
    requires CarryAll(h, first, a, x) && CarryAll(h, first, b, y)
    ensures CarryAll(h, first, a + b, x + y)
  {
    var at, all := a + b, x + y;
    forall z | 0 <= z < |at|
      ensures at[z] < |h| && Carries(h[at[z]], at[z] < first, all[z])
    {
      if z < |a| {
        assert at[z] == a[z] && all[z] == x[z];
      } else {
        assert at[z] == b[z - |a|] && all[z] == y[z - |a|];
      }
    }
  }

  lemma BunchCarries(h: seq<Tx>, first: nat, j: nat)
    requires j < |h|
    ensures CarryAll(h, first, if Succeeded(h[j]) then [j] else [], BunchOf(h[j], j < first))
  {
  }

  ghost predicate StretchCarried(h: seq<Tx>, i: nat, first: nat, k: nat, needCheck: bool)
    requires k <= |h|
  {
    CarryAll(h, first, Positions(h, i, k), Deliver(h, i, k, needCheck))
  }

  lemma NothingCarried(h: seq<Tx>, i: nat, first: nat, k: nat, needCheck: bool)
    requires k <= |h| && k <= i
    ensures StretchCarried(h, i, first, k, needCheck)
  {
  }

  lemma OneMoreCarried(h: seq<Tx>, i: nat, first: nat, k: nat, needCheck: bool)
    requires i < k <= |h| && (if needCheck then k <= first else first <= i) && StretchCarried(h, i, first, k - 1, needCheck)
    ensures StretchCarried(h, i, first, k, needCheck)
  {
    BunchCarries(h, first, k - 1);
    CarryAppend(h, first, Positions(h, i, k - 1), if Succeeded(h[k - 1]) then [k - 1] else [],
                Deliver(h, i, k - 1, needCheck), BunchOf(h[k - 1], needCheck));
  }

  lemma {:induction false} DeliverCarries(h: seq<Tx>, i: nat, first: nat, k: nat, needCheck: bool)
    requires k <= |h| && (if needCheck then k <= first else first <= i)
    ensures StretchCarried(h, i, first, k, needCheck)
  {
    if i < k {
      DeliverCarries(h, i, first, k - 1, needCheck);
      OneMoreCarried(h, i, first, k, needCheck);
    } else {
      NothingCarried(h, i, first, k, needCheck);
    }
  }

  /** Two stretches, the first to be checked. */
  lemma DeliveredCarries(h: seq<Tx>, begin: nat, first: nat, seen: nat)
    requires begin < first <= seen <= |h|
    ensures CarryAll(h, first, Positions(h, begin + 1, seen), DeliveredSoFar(h, begin, first, seen))
  {
    DeliverCarries(h, begin + 1, first, first, true);
    DeliverCarries(h, first, first, seen, false);
    PositionsJoin(h, begin + 1, first, seen);
    CarryAppend(h, first, Positions(h, begin + 1, first), Positions(h, first, seen),
                Deliver(h, begin + 1, first, true), Deliver(h, first, seen, false));
  }

  /** The given number of signatures before position top, newest first. */
  function SignaturesBack(h: seq<Tx>, top: nat, size: nat): (page: seq<TxSignature>)
    requires size <= top <= |h|
    ensures |page| == size && forall i :: 0 <= i < size ==> page[i] == h[top - 1 - i].signature
  {
    seq(size, i requires 0 <= i < size => h[top - 1 - i].signature)
  }

  /** The node: an append-only history that may grow before every request is answered. */
  class Chain {
    var history: seq<Tx>

    ghost predicate Valid()
      reads this
    {
      DistinctSignatures(history)
    }

    /** Any number of transactions is appended. */
    method Grow()
      requires Valid()
      modifies this
      ensures Valid() && old(history) <= history
    {
      var more: seq<Tx> := *;
      if DistinctSignatures(history + more) {
        history := history + more;
      }
    }

    /**
      `get_signatures_chunk`: the newest signatures strictly between `until` and `before`, newest
      first; a page may be short, but is empty only when nothing lies between. lo and at are where the
      two signatures are in the history.
    */
    method SignaturesChunk(until: TxSignature, before: Option<TxSignature>, ghost lo: nat, ghost at: nat)
      returns (page: seq<TxSignature>, ghost hi: nat)
      requires Valid() && lo < |history| && history[lo].signature == until
      requires before.Some? ==> lo < at < |history| && history[at].signature == before.value
      modifies this
      ensures Valid() && old(history) <= history
      ensures hi == if before.Some? then at else |history|
      ensures |page| < hi - lo
      ensures page == [] <==> hi == lo + 1
      ensures forall i :: 0 <= i < |page| ==> page[i] == history[hi - 1 - i].signature
    {
      Grow();
      IndexIsUnique(history, until, lo);
      var bottom, top := IndexOf(history, until), |history|;
      if before.Some? {
        IndexIsUnique(history, before.value, at);
        top := IndexOf(history, before.value);
      }
      hi := top;
      var size: nat := *;
      if size < 1 || top - size <= bottom {
        size := top - bottom - 1;
      }
      page := SignaturesBack(history, top, size);
    }

    /** `get_transaction_with_config` for a signature the node has returned. */
    method Transaction(s: TxSignature, ghost at: nat) returns (tx: Tx)
      requires Valid() && at < |history| && history[at].signature == s
      ensures tx == history[at]
    {
      IndexIsUnique(history, s, at);
      tx := history[IndexOf(history, s)];
    }
  }

  class SolanaRetroReader {
    /** Everything sent to the log channel so far. */
    var sent: seq<LogsBunch>

    constructor ()
      ensures sent == []
    {
      sent := [];
    }

    /** `process_signature`: the cursor moves even when the transaction delivers nothing. */
    method ProcessSignature(chain: Chain, bunches: seq<LogsBunch>, signature: TxSignature, needCheck: bool, ghost at: nat)
      returns (before: Option<TxSignature>, bunches': seq<LogsBunch>)
      requires chain.Valid() && at < |chain.history| && chain.history[at].signature == signature
      ensures before == Some(signature)
      ensures bunches' == BunchOf(chain.history[at], needCheck) + bunches
    {
      before := Some(signature);
      var tx := chain.Transaction(signature, at);
      match DeliveredLogs(tx)
      case None => bunches' := bunches;
      case Some(logs) => bunches' := [LogsBunch(needCheck, signature, tx.slot, logs)] + bunches;
    }

    /** `process_signatures`: a page read from position hi extends the delivery of hi up to top downwards. */
    method ProcessSignatures(chain: Chain, bunches: seq<LogsBunch>, page: seq<TxSignature>, needCheck: bool, ghost hi: nat, ghost top: nat)
      returns (before: Option<TxSignature>, bunches': seq<LogsBunch>)
      requires chain.Valid() && 0 < |page| <= hi <= top <= |chain.history|
      requires forall i :: 0 <= i < |page| ==> page[i] == chain.history[hi - 1 - i].signature
      requires bunches == Deliver(chain.history, hi, top, needCheck)
      ensures before == Some(chain.history[hi - |page|].signature)
      ensures bunches' == Deliver(chain.history, hi - |page|, top, needCheck)
    {
      before := None;
      bunches' := bunches;
      for i := 0 to |page|
        invariant i > 0 ==> before == Some(page[i - 1])
        invariant bunches' == Deliver(chain.history, hi - i, top, needCheck)
      {
        before, bunches' := ProcessSignature(chain, bunches', page[i], needCheck, hi - 1 - i);
        DeliverFront(chain.history, hi - 1 - i, top, needCheck);
      }
    }

    /** Paging in progress: positions low up to top are collected, and everything above `until` below low is still to come. */
    static ghost predicate Collecting(h: seq<Tx>, from: nat, before: Option<TxSignature>, bunches: seq<LogsBunch>,
                                      low: nat, top: nat, needCheck: bool)
    {
      && from < low <= top <= |h|
      && (if before.Some? then low < top && before.value == h[low].signature else low == top == |h|)
      && bunches == Deliver(h, low, top, needCheck)
    }

    /** One turn of the inner loop: request a page and process it. from is where `until` is. */
    method NextPage(chain: Chain, until: TxSignature, before: Option<TxSignature>, bunches: seq<LogsBunch>, needCheck: bool,
                    ghost from: nat, ghost low: nat, ghost top: nat)
      returns (page: seq<TxSignature>, before': Option<TxSignature>, bunches': seq<LogsBunch>, ghost low': nat, ghost top': nat)
      requires chain.Valid() && Collecting(chain.history, from, before, bunches, low, top, needCheck)
      requires chain.history[from].signature == until
      modifies chain
      ensures chain.Valid() && old(chain.history) <= chain.history
      ensures top' >= top
      ensures page != [] ==> Collecting(chain.history, from, before', bunches', low', top', needCheck)
      ensures page != [] ==> before'.Some? && (before.Some? ==> low' < low)
      ensures page == [] ==> top' <= |chain.history| && bunches' == Deliver(chain.history, from + 1, top', needCheck)
    {
      ghost var was := chain.history;
      ghost var hi;
      page, hi := chain.SignaturesChunk(until, before, from, low);
      top' := if before.Some? then top else hi;
      GrownDelivery(was, chain.history, low, top, needCheck);
      assert bunches == Deliver(chain.history, hi, top', needCheck);
      before', bunches', low' := before, bunches, hi;
      if page != [] {
        before', bunches' := ProcessSignatures(chain, bunches, page, needCheck, hi, top');
        low' := hi - |page|;
      }
    }

    /**
      One turn of the outer loop, up to sending: pages backwards from the newest transaction at the
      first request down to `until`. The result is exactly what lies between, although the chain
      keeps growing between requests.
    */
    method CollectRound(chain: Chain, until: TxSignature, needCheck: bool, ghost from: nat)
      returns (bunches: seq<LogsBunch>, nextUntil: Option<TxSignature>, ghost top: nat)
      requires chain.Valid() && from < |chain.history| && chain.history[from].signature == until
      modifies chain
      ensures chain.Valid() && old(chain.history) <= chain.history
      ensures |old(chain.history)| <= top <= |chain.history|
      ensures bunches == Deliver(chain.history, from + 1, top, needCheck)
      ensures nextUntil == if bunches == [] then None else Some(bunches[|bunches| - 1].txSignature)
    {
      var before: Option<TxSignature> := None;
      bunches := [];
      nextUntil := None;
      top := |chain.history|;
      ghost var low := top;
      while true
        invariant chain.Valid() && old(chain.history) <= chain.history && |old(chain.history)| <= top
        invariant Collecting(chain.history, from, before, bunches, low, top, needCheck)
        decreases before.None?, low
      {
        var page;
        page, before, bunches, low, top := NextPage(chain, until, before, bunches, needCheck, from, low, top);
        if page == [] {
          break;
        }
        if nextUntil.None? {
          nextUntil := Some(page[0]);
        }
      }
      nextUntil := if bunches == [] then None else Some(bunches[|bunches| - 1].txSignature);
    }

    /** `logs_sender.send` for each bunch in turn. */
    method SendAll(bunches: seq<LogsBunch>)
      modifies this
      ensures sent == old(sent) + bunches
    {
      for i := 0 to |bunches|
        invariant sent == old(sent) + bunches[..i]
      {
        sent := sent + [bunches[i]];
      }
      assert bunches[..|bunches|] == bunches;
    }

    /** One turn of the outer loop: collect, then send. */
    method Turn(chain: Chain, until: TxSignature, needCheck: bool, ghost begin: nat, ghost cursor: nat, ghost first: nat, ghost seen: nat)
      returns (nextUntil: Option<TxSignature>, ghost cursor': nat, ghost first': nat, ghost seen': nat, ghost bunches: seq<LogsBunch>)
      requires chain.Valid() && Tracks(chain.history, begin, cursor, first, seen)
      requires until == chain.history[cursor].signature
      requires needCheck ==> cursor == begin && first == seen == begin + 1
      modifies this, chain
      ensures chain.Valid()
      ensures RoundDone(old(chain.history), chain.history, begin, cursor, first, needCheck, cursor', first', seen', bunches)
      ensures chain.history[cursor'].signature == if nextUntil.Some? then nextUntil.value else until
      ensures sent == old(sent) + bunches
      ensures DeliveredSoFar(chain.history, begin, first', seen') == DeliveredSoFar(old(chain.history), begin, first, seen) + bunches
    {
      ghost var was := chain.history;
      var collected;
      collected, nextUntil, seen' := CollectRound(chain, until, needCheck, cursor);
      bunches := collected;
      cursor', first' := RoundAdvancesGrown(was, chain.history, begin, cursor, first, seen, seen', needCheck);
      SendAll(collected);
    }

    /**
      `read_events_backward`, observed after any number of rounds: what has been sent is exactly the
      successful transactions with logs after `txReadFrom` up to what the last round saw, oldest
      first, no gap and no repeat, and exactly the first round's bunches ask to be checked. began is
      the chain when the last round began; that round has seen all of it.
    */
    method ReadEventsBackward(chain: Chain, start: TxSignature, rounds: nat) returns (ghost first: nat, ghost seen: nat, ghost began: seq<Tx>)
      requires chain.Valid() && IndexOf(chain.history, start) >= 0
      modifies this, chain
      ensures chain.Valid() && old(chain.history) <= chain.history
      ensures old(IndexOf(chain.history, start)) < first <= seen <= |chain.history|
      ensures rounds > 0 ==> |old(chain.history)| <= first && |began| <= seen
      ensures old(chain.history) <= began <= chain.history
      ensures rounds <= 1 ==> first == seen
      ensures sent == old(sent)
                      + (Deliver(chain.history, old(IndexOf(chain.history, start)) + 1, first, true)
                         + Deliver(chain.history, first, seen, false))
      ensures |old(sent)| <= |sent|
      ensures CarryAll(chain.history, first, Positions(chain.history, old(IndexOf(chain.history, start)) + 1, seen), sent[|old(sent)|..])
    {
      var txReadFrom := Some(start);
      var until: Option<TxSignature> := None;
      var needCheck: bool;
      var nextUntil: Option<TxSignature> := None;
      ghost var begin: nat := IndexOf(chain.history, start);
      // the position from which the next round will read
      ghost var cursor := begin;
      first, seen, began := begin + 1, begin + 1, chain.history;
      for turn := 0 to rounds
        invariant chain.Valid() && old(chain.history) <= began <= chain.history
        invariant turn > 0 ==> |began| <= seen
        invariant Tracks(chain.history, begin, cursor, first, seen)
        invariant sent == old(sent) + DeliveredSoFar(chain.history, begin, first, seen)
        invariant turn == 0 ==> txReadFrom == Some(chain.history[cursor].signature) && cursor == begin && first == seen == begin + 1
        invariant turn > 0 ==> txReadFrom.None? && |old(chain.history)| <= first
        invariant turn > 0 ==> Some(chain.history[cursor].signature) == if nextUntil.Some? then nextUntil else until
        invariant turn == 1 ==> first == seen
      {
        if txReadFrom.Some? {
          until, needCheck := txReadFrom, true;
          txReadFrom := None;
        } else if nextUntil.Some? {
          until, needCheck := nextUntil, false;
        } else {
          until, needCheck := until, false;
        }
        ghost var before := DeliveredSoFar(chain.history, begin, first, seen);
        ghost var added;
        began := chain.history;
        nextUntil, cursor, first, seen, added := Turn(chain, until.value, needCheck, begin, cursor, first, seen);
        AppendAssociative(old(sent), before, added);
      }
      DeliveredCarries(chain.history, begin, first, seen);
      assert sent[|old(sent)|..] == DeliveredSoFar(chain.history, begin, first, seen);
    }
  }
}
