/** Packing instructions into messages online (solana-transactor/src/ix_compiler.rs, transactor.rs send_all_instructions). */
module IxCompiler {
  import opened Wrappers

  const MAX_CU := 1_400_000
  const MAX_MSG_LEN := 1232 - 65
  const U32_MAX := 0xFFFF_FFFF

  type u32 = x: int | 0 <= x <= U32_MAX

  datatype TransactorError = CompileError | InstructionTooBig | Overflow

  datatype InstructionBundle<I> = InstructionBundle(instruction: I, computeUnits: u32)

  datatype Message<I, A> = Message(limit: u32, instructions: seq<I>, alts: seq<A>)

  /** The serialised length of a message, None when it does not compile. The compute-limit instruction has a
      fixed width, so its value does not matter; the payer and the price are fixed for one compiler. */
  type Sizer<!I, !A> = (seq<I>, seq<A>) -> Option<nat>

  predicate ExceedsLimits(len: nat, computeUnits: nat) {
    len > MAX_MSG_LEN || computeUnits > MAX_CU
  }

  predicate ApproachesLimits(len: nat, computeUnits: nat) {
    len >= MAX_MSG_LEN - 32 || computeUnits >= MAX_CU - 200_000
  }

  /** The compiler's state; units are what the buffered instructions really cost, kept for the specification. */
  datatype Batch<I, A> = Batch(buffer: seq<I>, units: seq<nat>, total: u32, alts: seq<A>)

  /** A message and what its instructions really cost. */
  datatype Packed<I, A> = Packed(message: Message<I, A>, units: seq<nat>)

  datatype Outcome<I, A> = Outcome(batch: Batch<I, A>, out: Option<Packed<I, A>>)

  function EmptyBatch<I, A>(): Batch<I, A> {
    Batch([], [], 0, [])
  }

  /** `compile` */
  function CompileStep<I, A>(size: Sizer<I, A>, b: Batch<I, A>, ix: I, alts: seq<A>, units: u32): Result<Outcome<I, A>, TransactorError> {
    match size([ix], alts)
    case None => Err(CompileError)
    case Some(alone) =>
      if ExceedsLimits(alone, units) then Err(InstructionTooBig)
      else if b.total + units > U32_MAX then Err(Overflow)
      else
        var total := b.total + units;
        match size(b.buffer + [ix], b.alts + alts)
        case None => Err(CompileError)
        case Some(len) =>
          if ExceedsLimits(len, total) then
            if size(b.buffer, b.alts).None? then Err(CompileError)
            else Ok(Outcome(Batch([ix], [units], units, alts), Some(Packed(Message(b.total, b.buffer, b.alts), b.units))))
          else if ApproachesLimits(len, total) then
            Ok(Outcome(EmptyBatch(), Some(Packed(Message(total, b.buffer + [ix], b.alts + alts), b.units + [units]))))
          else if b.total + total > U32_MAX then Err(Overflow)
          else Ok(Outcome(Batch(b.buffer + [ix], b.units + [units], b.total + total, b.alts + alts), None))
  }

  /** `flush` */
  function FlushStep<I, A>(size: Sizer<I, A>, b: Batch<I, A>): Result<Outcome<I, A>, TransactorError> {
    if b.buffer == [] then Ok(Outcome(b, None))
    else if size(b.buffer, b.alts).None? then Err(CompileError)
    else Ok(Outcome(EmptyBatch(), Some(Packed(Message(b.total, b.buffer, b.alts), b.units))))
  }

  function Sum(s: seq<nat>): nat {
    if s == [] then 0 else Sum(s[..|s| - 1]) + s[|s| - 1]
  }

  lemma SumMore(s: seq<nat>, x: nat)
    ensures Sum(s + [x]) == Sum(s) + x
  {
    assert (s + [x])[..|s|] == s;
  }

  /** The running total after buffering these costs: adding the total onto itself doubles it each time. */
  function Doubled(s: seq<nat>): nat {
    if s == [] then 0 else 2 * Doubled(s[..|s| - 1]) + s[|s| - 1]
  }

  lemma {:induction false} DoubledBounds(s: seq<nat>)
    ensures Sum(s) <= Doubled(s)
    ensures Doubled(s) == 0 <==> forall i :: 0 <= i < |s| ==> s[i] == 0
  {
    if s != [] {
      DoubledBounds(s[..|s| - 1]);
      assert forall i :: 0 <= i < |s| - 1 ==> s[i] == s[..|s| - 1][i];
    }
  }

  /** The total is the real cost exactly when nothing but the last instruction costs anything. */
  lemma {:induction false} TotalIsRealCostExactly(s: seq<nat>)
    ensures Doubled(s) == Sum(s) <==> forall i :: 0 <= i < |s| - 1 ==> s[i] == 0
  {
    if s != [] {
      DoubledBounds(s[..|s| - 1]);
      assert forall i :: 0 <= i < |s| - 1 ==> s[i] == s[..|s| - 1][i];
    }
  }

  /** The running total over-approximates the real cost, and the buffer always compiles within the limits. */
  predicate BatchOk<I(==), A(==)>(size: Sizer<I, A>, b: Batch<I, A>) {
    && |b.units| == |b.buffer|
    && Sum(b.units) <= b.total < 2 * (MAX_CU - 200_000)
    && Sum(b.units) <= MAX_CU
    && (if b.buffer == [] then b.total == 0 && b.alts == []
        else size(b.buffer, b.alts).Some? && size(b.buffer, b.alts).value <= MAX_MSG_LEN)
  }

  /** What every emitted message satisfies. */
  predicate PackedOk<I(==), A>(size: Sizer<I, A>, p: Packed<I, A>) {
    && p.message.instructions != [] && |p.units| == |p.message.instructions|
    && size(p.message.instructions, p.message.alts).Some?
    && size(p.message.instructions, p.message.alts).value <= 1167
    && Sum(p.units) <= 1_400_000
    && Sum(p.units) <= p.message.limit < 2_400_000
  }

  function OutInstructions<I, A>(out: Option<Packed<I, A>>): seq<I> {
    if out.Some? then out.value.message.instructions else []
  }

  function OutUnits<I, A>(out: Option<Packed<I, A>>): seq<nat> {
    if out.Some? then out.value.units else []
  }

  /** When an instruction is refused: it is too big on its own, or something does not compile. The sums never overflow. */
  ghost predicate Refused<I, A>(size: Sizer<I, A>, b: Batch<I, A>, ix: I, alts: seq<A>, units: u32) {
    || size([ix], alts).None?
    || ExceedsLimits(size([ix], alts).value, units)
    || size(b.buffer + [ix], b.alts + alts).None?
  }

  lemma CompileRefuses<I, A>(size: Sizer<I, A>, b: Batch<I, A>, ix: I, alts: seq<A>, units: u32)
    requires BatchOk(size, b)
    ensures CompileStep(size, b, ix, alts, units).Err? <==> Refused(size, b, ix, alts, units)
    ensures CompileStep(size, b, ix, alts, units) != Err(Overflow)
  {
    AppendEmpty(ix, alts);
  }

  /** Nothing in the buffer: the message is the instruction alone. */
  lemma AppendEmpty<I, A>(ix: I, alts: seq<A>)
    ensures [] + [ix] == [ix] && [] + alts == alts
  {
  }

  lemma SumOne(x: nat)
    ensures Sum([x]) == x
  {
    var none: seq<nat> := [];
    SumMore(none, x);
    assert none + [x] == [x];
  }

  lemma CompileMovesOn<I, A>(size: Sizer<I, A>, b: Batch<I, A>, ix: I, alts: seq<A>, units: u32)
    requires CompileStep(size, b, ix, alts, units).Ok?
    ensures var o := CompileStep(size, b, ix, alts, units).value;
            && OutInstructions(o.out) + o.batch.buffer == b.buffer + [ix]
            && OutUnits(o.out) + o.batch.units == b.units + [units]
  {
  }

  lemma CompileKeepsBatch<I, A>(size: Sizer<I, A>, b: Batch<I, A>, ix: I, alts: seq<A>, units: u32)
    requires BatchOk(size, b) && CompileStep(size, b, ix, alts, units).Ok?
    ensures BatchOk(size, CompileStep(size, b, ix, alts, units).value.batch)
  {
    SumMore(b.units, units);
    SumOne(units);
  }

  lemma CompileEmitsGood<I, A>(size: Sizer<I, A>, b: Batch<I, A>, ix: I, alts: seq<A>, units: u32)
    requires BatchOk(size, b) && CompileStep(size, b, ix, alts, units).Ok?
    ensures var o := CompileStep(size, b, ix, alts, units).value;
            o.out.Some? ==> PackedOk(size, o.out.value)
  {
    SumMore(b.units, units);
    AppendEmpty(ix, alts);
  }

  /** One step keeps the batch good, emits only good messages, and moves every instruction on in order. */
  lemma CompileKeeps<I, A>(size: Sizer<I, A>, b: Batch<I, A>, ix: I, alts: seq<A>, units: u32)
    requires BatchOk(size, b) && CompileStep(size, b, ix, alts, units).Ok?
    ensures var o := CompileStep(size, b, ix, alts, units).value;
            && BatchOk(size, o.batch)
            && (o.out.Some? ==> PackedOk(size, o.out.value))
            && OutInstructions(o.out) + o.batch.buffer == b.buffer + [ix]
            && OutUnits(o.out) + o.batch.units == b.units + [units]
  {
    CompileMovesOn(size, b, ix, alts, units);
    CompileKeepsBatch(size, b, ix, alts, units);
    CompileEmitsGood(size, b, ix, alts, units);
  }

  lemma FlushKeeps<I, A>(size: Sizer<I, A>, b: Batch<I, A>)
    requires BatchOk(size, b)
    ensures FlushStep(size, b).Ok?
    ensures var o := FlushStep(size, b).value;
            && o.batch == EmptyBatch<I, A>().(units := o.batch.units) && |o.batch.units| == 0
            && (o.out.Some? ==> PackedOk(size, o.out.value))
            && (o.out.None? <==> b.buffer == [])
            && OutInstructions(o.out) == b.buffer && OutUnits(o.out) == b.units
  {
  }

  // ---- Whole instruction lists ----

  function OutSeq<I, A>(out: Option<Packed<I, A>>): seq<Packed<I, A>> {
    if out.Some? then [out.value] else []
  }

  /** The messages of `send_all_instructions` from a given compiler state, the final flush included. */
  function PackAll<I, A>(size: Sizer<I, A>, b: Batch<I, A>, alts: seq<A>, list: seq<InstructionBundle<I>>): Result<seq<Packed<I, A>>, TransactorError>
    decreases |list|
  {
    if list == [] then
      var o :- FlushStep(size, b);
      Ok(OutSeq(o.out))
    else
      var o :- CompileStep(size, b, list[0].instruction, alts, list[0].computeUnits);
      var rest :- PackAll(size, o.batch, alts, list[1..]);
      Ok(OutSeq(o.out) + rest)
  }

  function Instructions<I>(list: seq<InstructionBundle<I>>): seq<I> {
    if list == [] then [] else [list[0].instruction] + Instructions(list[1..])
  }

  function Units<I>(list: seq<InstructionBundle<I>>): seq<nat> {
    if list == [] then [] else [list[0].computeUnits] + Units(list[1..])
  }

  function AllInstructions<I, A>(ps: seq<Packed<I, A>>): seq<I> {
    if ps == [] then [] else ps[0].message.instructions + AllInstructions(ps[1..])
  }

  function AllUnits<I, A>(ps: seq<Packed<I, A>>): seq<nat> {
    if ps == [] then [] else ps[0].units + AllUnits(ps[1..])
  }

  lemma ConsAll<I, A>(out: Option<Packed<I, A>>, rest: seq<Packed<I, A>>)
    ensures AllInstructions(OutSeq(out) + rest) == OutInstructions(out) + AllInstructions(rest)
    ensures AllUnits(OutSeq(out) + rest) == OutUnits(out) + AllUnits(rest)
  {
    if out.Some? {
      assert (OutSeq(out) + rest)[1..] == rest;
    } else {
      assert OutSeq(out) + rest == rest;
    }
  }

  /**
    Batching preserves the program: the messages' instructions, concatenated, are the buffered ones
    followed by the input, in order; no message is empty, each fits the length and compute limits, and
    each declares a compute limit of at least what its instructions cost.
  */
  lemma {:induction false} PackAllPreservesProgram<I, A>(size: Sizer<I, A>, b: Batch<I, A>, alts: seq<A>, list: seq<InstructionBundle<I>>)
    requires BatchOk(size, b) && PackAll(size, b, alts, list).Ok?
    ensures var ps := PackAll(size, b, alts, list).value;
            && AllInstructions(ps) == b.buffer + Instructions(list)
            && AllUnits(ps) == b.units + Units(list)
            && (forall p :: p in ps ==> PackedOk(size, p))
    decreases |list|
  {
    if list == [] {
      FlushKeeps(size, b);
      var out := FlushStep(size, b).value.out;
      ConsAll(out, []);
      assert OutSeq(out) + [] == OutSeq(out);
      assert b.buffer + [] == b.buffer && b.units + [] == b.units;
    } else {
      var ix, units := list[0].instruction, list[0].computeUnits;
      CompileKeeps(size, b, ix, alts, units);
      var o := CompileStep(size, b, ix, alts, units).value;
      PackAllPreservesProgram(size, o.batch, alts, list[1..]);
      var rest := PackAll(size, o.batch, alts, list[1..]).value;
      ConsAll(o.out, rest);
      Regroup(OutInstructions(o.out), o.batch.buffer, b.buffer, ix, Instructions(list[1..]));
      Regroup(OutUnits(o.out), o.batch.units, b.units, units, Units(list[1..]));
    }
  }

  lemma Regroup<T>(out: seq<T>, kept: seq<T>, before: seq<T>, x: T, rest: seq<T>)
    requires out + kept == before + [x]
    ensures out + (kept + rest) == before + ([x] + rest)
  {
    assert out + (kept + rest) == (out + kept) + rest;
    assert before + ([x] + rest) == (before + [x]) + rest;
  }

  /** The total with which a message is checked: the running total before its last instruction, plus that one's cost. */
  function Checked(units: seq<nat>): nat
    requires units != []
  {
    Doubled(units[..|units| - 1]) + units[|units| - 1]
  }

  /** The message was emitted because it came near a limit, not when the next one did not fit or at the end. */
  predicate ClosedEarly<I, A>(size: Sizer<I, A>, instructions: seq<I>, alts: seq<A>, units: seq<nat>)
    requires units != []
  {
    size(instructions, alts).Some? && ApproachesLimits(size(instructions, alts).value, Checked(units))
  }

  /** The running total adds the total onto itself; a buffer of two or more was not near a limit when it was last checked. */
  predicate TotalIs<I, A>(size: Sizer<I, A>, b: Batch<I, A>) {
    && |b.units| == |b.buffer|
    && b.total == Doubled(b.units)
    && (|b.units| >= 2 ==> !ClosedEarly(size, b.buffer, b.alts, b.units))
  }

  /** What a message declares, as a function of the message alone. */
  predicate Declares<I, A>(size: Sizer<I, A>, p: Packed<I, A>) {
    && p.units != []
    && p.message.limit == (if ClosedEarly(size, p.message.instructions, p.message.alts, p.units) then Checked(p.units) else Doubled(p.units))
    && (ClosedEarly(size, p.message.instructions, p.message.alts, p.units) && |p.units| >= 2 ==> Checked(p.units) <= MAX_CU)
  }

  lemma DoubledLast(s: seq<nat>, x: nat)
    ensures Checked(s + [x]) == Doubled(s) + x && Doubled(s + [x]) == 2 * Doubled(s) + x
  {
    assert (s + [x])[..|s|] == s;
  }

  lemma DoubledOne(x: nat)
    ensures Checked([x]) == x == Doubled([x])
  {
    var none: seq<nat> := [];
    DoubledLast(none, x);
    assert none + [x] == [x];
  }

  lemma BufferDeclares<I, A>(size: Sizer<I, A>, b: Batch<I, A>)
    requires TotalIs(size, b) && b.buffer != []
    ensures Declares(size, Packed(Message(b.total, b.buffer, b.alts), b.units))
  {
    if |b.units| == 1 {
      DoubledOne(b.units[0]);
      assert b.units == [b.units[0]];
    }
  }

  lemma CompileTotals<I, A>(size: Sizer<I, A>, b: Batch<I, A>, ix: I, alts: seq<A>, units: u32)
    requires TotalIs(size, b) && CompileStep(size, b, ix, alts, units).Ok?
    ensures TotalIs(size, CompileStep(size, b, ix, alts, units).value.batch)
  {
    DoubledLast(b.units, units);
    DoubledOne(units);
  }

  lemma CompileDeclares<I, A>(size: Sizer<I, A>, b: Batch<I, A>, ix: I, alts: seq<A>, units: u32)
    requires TotalIs(size, b) && BatchOk(size, b) && CompileStep(size, b, ix, alts, units).Ok?
    ensures var o := CompileStep(size, b, ix, alts, units).value;
            o.out.Some? ==> Declares(size, o.out.value)
  {
    CompileEmitsGood(size, b, ix, alts, units);
    var o := CompileStep(size, b, ix, alts, units).value;
    if o.batch.buffer != [] {
      if o.out.Some? {
        BufferDeclares(size, b);
      }
    } else {
      DoubledLast(b.units, units);
    }
  }

  lemma FlushDeclares<I, A>(size: Sizer<I, A>, b: Batch<I, A>)
    requires TotalIs(size, b) && FlushStep(size, b).Ok?
    ensures FlushStep(size, b).value.out.Some? ==> Declares(size, FlushStep(size, b).value.out.value)
  {
    if b.buffer != [] {
      BufferDeclares(size, b);
    }
  }

  lemma {:induction false} AllDeclare<I, A>(size: Sizer<I, A>, b: Batch<I, A>, alts: seq<A>, list: seq<InstructionBundle<I>>)
    requires TotalIs(size, b) && BatchOk(size, b) && PackAll(size, b, alts, list).Ok?
    ensures forall p :: p in PackAll(size, b, alts, list).value ==> Declares(size, p)
    decreases |list|
  {
    if list == [] {
      FlushDeclares(size, b);
    } else {
      var ix, units := list[0].instruction, list[0].computeUnits;
      CompileDeclares(size, b, ix, alts, units);
      CompileTotals(size, b, ix, alts, units);
      CompileKeeps(size, b, ix, alts, units);
      AllDeclare(size, CompileStep(size, b, ix, alts, units).value.batch, alts, list[1..]);
    }
  }

  /** When a message declares exactly what it costs, and when it declares more than the maximum. */
  lemma LimitsExactly<I, A>(size: Sizer<I, A>, p: Packed<I, A>)
    requires Declares(size, p) && PackedOk(size, p)
    ensures var closed := ClosedEarly(size, p.message.instructions, p.message.alts, p.units);
            && (p.message.limit == Sum(p.units) <==> forall i :: 0 <= i < |p.units| - (if closed then 2 else 1) ==> p.units[i] == 0)
            && (p.message.limit > MAX_CU <==> !closed && Doubled(p.units) > MAX_CU)
  {
    var n := |p.units|;
    var init := p.units[..n - 1];
    TotalIsRealCostExactly(p.units);
    TotalIsRealCostExactly(init);
    assert Sum(p.units) == Sum(init) + p.units[n - 1];
    assert forall i :: 0 <= i < n - 1 ==> init[i] == p.units[i];
    if n == 1 {
      DoubledOne(p.units[0]);
      assert p.units == [p.units[0]];
    }
  }

  /**
    Every message `send_all_instructions` makes declares the total it was checked with when that came near
    a limit, and otherwise the running total, in which each instruction counts double for every later
    one; so it declares its real cost exactly when all but its last one (two) instructions are free, and
    more than the maximum exactly when it was not closed early and the running total is.
  */
  lemma DeclaredLimits<I, A>(size: Sizer<I, A>, alts: seq<A>, list: seq<InstructionBundle<I>>, p: Packed<I, A>)
    requires PackAll(size, EmptyBatch(), alts, list).Ok? && p in PackAll(size, EmptyBatch(), alts, list).value
    ensures Declares(size, p)
    ensures var closed := ClosedEarly(size, p.message.instructions, p.message.alts, p.units);
            && (p.message.limit == Sum(p.units) <==> forall i :: 0 <= i < |p.units| - (if closed then 2 else 1) ==> p.units[i] == 0)
            && (p.message.limit > MAX_CU <==> !closed && Doubled(p.units) > MAX_CU)
  {
    AllDeclare(size, EmptyBatch(), alts, list);
    PackAllPreservesProgram(size, EmptyBatch(), alts, list);
    LimitsExactly(size, p);
  }

  /** Exactly when a call emits a message, and which: what was buffered when it does not fit, all when it nearly fills the message. */
  lemma CompileEmitsExactly<I, A>(size: Sizer<I, A>, b: Batch<I, A>, ix: I, alts: seq<A>, units: u32)
    requires BatchOk(size, b) && CompileStep(size, b, ix, alts, units).Ok?
    ensures size(b.buffer + [ix], b.alts + alts).Some?
    ensures var len, total := size(b.buffer + [ix], b.alts + alts).value, b.total + units;
            var o := CompileStep(size, b, ix, alts, units).value;
            if len > 1167 || total > 1_400_000 then
              && o.out.Some? && o.out.value.message == Message(b.total, b.buffer, b.alts)
              && o.batch.buffer == [ix] && o.batch.alts == alts && o.batch.total == units
            else if len >= 1135 || total >= 1_200_000 then
              && o.out.Some? && o.out.value.message.instructions == b.buffer + [ix] && o.out.value.message.alts == b.alts + alts
              && o.out.value.message.limit == total && o.batch.buffer == [] && o.batch.alts == [] && o.batch.total == 0
            else
              o.out.None? && o.batch.buffer == b.buffer + [ix] && o.batch.alts == b.alts + alts && o.batch.total == b.total + total
  {
  }

  /** Every message comes with the tables of its instructions, the caller's once for each. */
  lemma {:induction false} MessagesKeepTables<I, A>(size: Sizer<I, A>, b: Batch<I, A>, alts: seq<A>, list: seq<InstructionBundle<I>>)
    requires BatchOk(size, b) && TablesOf(b, alts) && PackAll(size, b, alts, list).Ok?
    ensures forall p :: p in PackAll(size, b, alts, list).value ==> p.message.alts == Copies(alts, |p.message.instructions|)
    decreases |list|
  {
    if list != [] {
      var ix, units := list[0].instruction, list[0].computeUnits;
      CompileKeepsTables(size, b, ix, alts, units);
      CompileKeepsBatch(size, b, ix, alts, units);
      EmittedTables(size, b, ix, alts, units);
      MessagesKeepTables(size, CompileStep(size, b, ix, alts, units).value.batch, alts, list[1..]);
    }
  }

  lemma EmittedTables<I, A>(size: Sizer<I, A>, b: Batch<I, A>, ix: I, alts: seq<A>, units: u32)
    requires TablesOf(b, alts) && CompileStep(size, b, ix, alts, units).Ok?
    ensures var o := CompileStep(size, b, ix, alts, units).value;
            o.out.Some? ==> o.out.value.message.alts == Copies(alts, |o.out.value.message.instructions|)
  {
  }

  /** A message is short of the length at which messages are closed. */
  predicate Short(len: Option<nat>) {
    len.Some? && len.value < MAX_MSG_LEN - 32
  }

  /** It happens: two instructions of 600000 and 400000 units that leave room in a message declare 1600000. */
  lemma DeclaredLimitCanPassTheMaximum<I, A>(size: Sizer<I, A>, x: I, y: I, alts: seq<A>)
    requires Short(size([x], alts)) && Short(size([y], alts)) && Short(size([x, y], alts + alts))
    ensures PackAll(size, EmptyBatch(), alts, [InstructionBundle(x, 600_000), InstructionBundle(y, 400_000)])
         == Ok([Packed(Message(1_600_000, [x, y], alts + alts), [600_000, 400_000])])
  {
    var empty: Batch<I, A> := EmptyBatch();
    var first: Batch<I, A> := Batch([x], [600_000], 600_000, alts);
    var second: Batch<I, A> := Batch([x, y], [600_000, 400_000], 1_600_000, alts + alts);
    AppendEmpty(x, alts);
    assert empty.units + [600_000] == [600_000];
    BuffersQuietly(size, empty, x, alts, 600_000);
    assert [x] + [y] == [x, y] && first.units + [400_000] == second.units;
    BuffersQuietly(size, first, y, alts, 400_000);
    PackQuiet(size, second, alts, [InstructionBundle(y, 400_000)], first);
    PackQuiet(size, first, alts, [InstructionBundle(x, 600_000), InstructionBundle(y, 400_000)], EmptyBatch());
    assert [InstructionBundle(x, 600_000), InstructionBundle(y, 400_000)][1..] == [InstructionBundle(y, 400_000)];
  }

  /** An instruction that fits alone and leaves the message short of the limits is buffered. */
  lemma BuffersQuietly<I, A>(size: Sizer<I, A>, b: Batch<I, A>, ix: I, alts: seq<A>, units: u32)
    requires Short(size([ix], alts)) && Short(size(b.buffer + [ix], b.alts + alts)) && b.total + units < MAX_CU - 200_000
    ensures CompileStep(size, b, ix, alts, units)
         == Ok(Outcome(Batch(b.buffer + [ix], b.units + [units], b.total + b.total + units, b.alts + alts), None))
  {
  }

  lemma PackQuiet<I, A>(size: Sizer<I, A>, after: Batch<I, A>, alts: seq<A>, list: seq<InstructionBundle<I>>, before: Batch<I, A>)
    requires list != [] && CompileStep(size, before, list[0].instruction, alts, list[0].computeUnits) == Ok(Outcome(after, None))
    ensures PackAll(size, before, alts, list) == PackAll(size, after, alts, list[1..])
  {
    var rest := PackAll(size, after, alts, list[1..]);
    if rest.Ok? {
      assert OutSeq<I, A>(None) + rest.value == rest.value;
    }
  }

  /** An instruction fits a message of its own. */
  predicate FitsAlone<I, A>(size: Sizer<I, A>, alts: seq<A>, x: InstructionBundle<I>) {
    size([x.instruction], alts).Some? && !ExceedsLimits(size([x.instruction], alts).value, x.computeUnits)
  }

  /** A message within the length and an instruction within it compile together, whether or not within it. */
  predicate CompileTogether<I, A>(size: Sizer<I, A>, buffer: seq<I>, tables: seq<A>, ix: I, alts: seq<A>) {
    size(buffer, tables).Some? && size(buffer, tables).value <= MAX_MSG_LEN
    && size([ix], alts).Some? && size([ix], alts).value <= MAX_MSG_LEN
    ==> size(buffer + [ix], tables + alts).Some?
  }

  /** The tables n times over, as n buffered instructions of one list leave them. */
  function Copies<A>(alts: seq<A>, n: nat): seq<A> {
    if n == 0 then [] else Copies(alts, n - 1) + alts
  }

  /** The compiler's tables belong to the buffered instructions, each of which came with these. */
  predicate TablesOf<I, A(==)>(b: Batch<I, A>, alts: seq<A>) {
    b.alts == Copies(alts, |b.buffer|)
  }

  lemma CompileKeepsTables<I, A>(size: Sizer<I, A>, b: Batch<I, A>, ix: I, alts: seq<A>, units: u32)
    requires TablesOf(b, alts) && CompileStep(size, b, ix, alts, units).Ok?
    ensures TablesOf(CompileStep(size, b, ix, alts, units).value.batch, alts)
  {
    AppendEmpty(ix, alts);
    assert Copies(alts, 1) == Copies(alts, 0) + alts;
  }

  /**
    When messages over these tables that fit compile with one more instruction, a list is refused exactly
    when some instruction is too big alone. The executor passes no tables at all.
  */
  lemma {:induction false} RefusedExactlyWhenTooBig<I(!new), A>(size: Sizer<I, A>, b: Batch<I, A>, alts: seq<A>, list: seq<InstructionBundle<I>>)
    requires BatchOk(size, b) && TablesOf(b, alts)
    requires forall buffer, x :: x in list ==> CompileTogether(size, buffer, Copies(alts, |buffer|), x.instruction, alts)
    ensures PackAll(size, b, alts, list).Ok? <==> forall x :: x in list ==> FitsAlone(size, alts, x)
    decreases |list|
  {
    if list == [] {
      FlushKeeps(size, b);
    } else {
      var ix := list[0];
      assert forall x :: x in list <==> x == ix || x in list[1..];
      CompileRefuses(size, b, ix.instruction, alts, ix.computeUnits);
      assert CompileTogether(size, b.buffer, Copies(alts, |b.buffer|), ix.instruction, alts);
      AppendEmpty(ix.instruction, alts);
      var step := CompileStep(size, b, list[0].instruction, alts, list[0].computeUnits);
      assert step.Ok? <==> FitsAlone(size, alts, ix);
      if step.Ok? {
        CompileKeepsBatch(size, b, ix.instruction, alts, ix.computeUnits);
        CompileKeepsTables(size, b, ix.instruction, alts, ix.computeUnits);
        RefusedExactlyWhenTooBig(size, step.value.batch, alts, list[1..]);
        assert PackAll(size, b, alts, list).Ok? <==> PackAll(size, step.value.batch, alts, list[1..]).Ok?;
      }
    }
  }

  // ---- The compiler object ----

  class IxCompiler<I, A> {
    const size: Sizer<I, A>
    var ixBuffer: seq<I>
    var totalComputeUnits: u32
    var addressLookupTables: seq<A>
    ghost var units: seq<nat>

    constructor (size: Sizer<I, A>)
      ensures this.size == size && Value() == EmptyBatch()
    {
      this.size := size;
      ixBuffer, totalComputeUnits, addressLookupTables, units := [], 0, [], [];
    }

    ghost function Value(): Batch<I, A>
      reads this
    {
      Batch(ixBuffer, units, totalComputeUnits, addressLookupTables)
    }

    /** A failing call leaves the compiler as it was. */
    method Compile(ix: I, alts: seq<A>, computeUnits: u32) returns (r: Result<Option<Message<I, A>>, TransactorError>, ghost cost: seq<nat>)
      modifies this
      ensures match CompileStep(size, old(Value()), ix, alts, computeUnits)
              case Err(e) => r == Err(e) && Value() == old(Value())
              case Ok(o) => Value() == o.batch && cost == OutUnits(o.out)
                            && r == Ok(if o.out.Some? then Some(o.out.value.message) else None)
    {
      cost := [];
      var alone := size([ix], alts);
      if alone.None? {
        return Err(CompileError), [];
      }
      if ExceedsLimits(alone.value, computeUnits) {
        return Err(InstructionTooBig), [];
      }
      if totalComputeUnits + computeUnits > U32_MAX {
        return Err(Overflow), [];
      }
      var total := totalComputeUnits + computeUnits;
      var len := size(ixBuffer + [ix], addressLookupTables + alts);
      if len.None? {
        return Err(CompileError), [];
      }
      if ExceedsLimits(len.value, total) {
        if size(ixBuffer, addressLookupTables).None? {
          return Err(CompileError), [];
        }
        var msg := Message(totalComputeUnits, ixBuffer, addressLookupTables);
        cost := units;
        ixBuffer, units := [ix], [computeUnits];
        addressLookupTables := alts;
        totalComputeUnits := computeUnits;
        return Ok(Some(msg)), cost;
      } else if ApproachesLimits(len.value, total) {
        var msg := Message(total, ixBuffer + [ix], addressLookupTables + alts);
        cost := units + [computeUnits];
        ixBuffer, units := [], [];
        addressLookupTables := [];
        totalComputeUnits := 0;
        return Ok(Some(msg)), cost;
      }
      if totalComputeUnits + total > U32_MAX {
        return Err(Overflow), [];
      }
      ixBuffer, units := ixBuffer + [ix], units + [computeUnits];
      addressLookupTables := addressLookupTables + alts;
      totalComputeUnits := totalComputeUnits + total;
      return Ok(None), [];
    }

    method Flush() returns (r: Result<Option<Message<I, A>>, TransactorError>, ghost cost: seq<nat>)
      modifies this
      ensures match FlushStep(size, old(Value()))
              case Err(e) => r == Err(e) && Value() == old(Value())
              case Ok(o) => Value() == o.batch && cost == OutUnits(o.out)
                            && r == Ok(if o.out.Some? then Some(o.out.value.message) else None)
    {
      cost := [];
      if |ixBuffer| == 0 {
        return Ok(None), [];
      }
      if size(ixBuffer, addressLookupTables).None? {
        return Err(CompileError), [];
      }
      var msg := Message(totalComputeUnits, ixBuffer, addressLookupTables);
      cost := units;
      ixBuffer, units := [], [];
      addressLookupTables := [];
      totalComputeUnits := 0;
      return Ok(Some(msg)), cost;
    }
  }

  function Messages<I, A>(ps: seq<Packed<I, A>>): seq<Message<I, A>> {
    if ps == [] then [] else [ps[0].message] + Messages(ps[1..])
  }

  /** One message each, in order. */
  lemma {:induction false} MessagesInOrder<I, A>(ps: seq<Packed<I, A>>, i: nat)
    requires i < |ps|
    ensures |Messages(ps)| == |ps| && Messages(ps)[i] == ps[i].message
  {
    if |ps| > 1 {
      MessagesInOrder(ps[1..], if i == 0 then 0 else i - 1);
    }
  }

  class Transactor<I, A> {
    /** Every message handed to the network so far. */
    var sent: seq<Message<I, A>>

    /** Compiles everything before anything is sent; a refused list sends nothing. */
    method SendAllInstructions(size: Sizer<I, A>, list: seq<InstructionBundle<I>>, alts: seq<A>) returns (r: Result<(), TransactorError>)
      modifies this
      ensures match PackAll(size, EmptyBatch(), alts, list)
              case Err(e) => r == Err(e) && sent == old(sent)
              case Ok(ps) => r == Ok(()) && sent == old(sent) + Messages(ps)
    {
      var compiler := new IxCompiler<I, A>(size);
      var messages: seq<Message<I, A>> := [];
      assert list[0..] == list;
      WithMessagesEmpty(PackAll(size, compiler.Value(), alts, list));
      for i := 0 to |list|
        modifies compiler
        invariant compiler.size == size
        invariant WithMessages([], PackAll(size, EmptyBatch(), alts, list))
               == WithMessages(messages, PackAll(size, compiler.Value(), alts, list[i..]))
      {
        assert list[i..][0] == list[i] && list[i..][1..] == list[i + 1..];
        ghost var before, step := messages, CompileStep(size, compiler.Value(), list[i].instruction, alts, list[i].computeUnits);
        var compiled, cost := compiler.Compile(list[i].instruction, alts, list[i].computeUnits);
        if compiled.Err? {
          return Err(compiled.error);
        }
        if compiled.value.Some? {
          messages := messages + [compiled.value.value];
        }
        WithMessagesStep(before, step.value.out, PackAll(size, compiler.Value(), alts, list[i + 1..]));
      }
      assert list[|list|..] == [];
      ghost var flush := FlushStep(size, compiler.Value());
      var flushed, cost := compiler.Flush();
      if flushed.Err? {
        return Err(flushed.error);
      }
      ghost var before := messages;
      if flushed.value.Some? {
        messages := messages + [flushed.value.value];
      }
      WithMessagesLast(before, flush.value.out);
      sent := sent + messages;
      return Ok(());
    }
  }

  /** Earlier messages in front of a result. */
  ghost function WithMessages<I, A>(ms: seq<Message<I, A>>, r: Result<seq<Packed<I, A>>, TransactorError>): Result<seq<Message<I, A>>, TransactorError> {
    match r
    case Err(e) => Err(e)
    case Ok(ps) => Ok(ms + Messages(ps))
  }

  lemma WithMessagesEmpty<I, A>(r: Result<seq<Packed<I, A>>, TransactorError>)
    ensures r.Ok? ==> WithMessages([], r) == Ok(Messages(r.value))
  {
    if r.Ok? {
      assert [] + Messages(r.value) == Messages(r.value);
    }
  }

  lemma WithMessagesStep<I, A>(ms: seq<Message<I, A>>, out: Option<Packed<I, A>>, r: Result<seq<Packed<I, A>>, TransactorError>)
    ensures r.Ok? ==>
              WithMessages(ms, Ok(OutSeq(out) + r.value)) == WithMessages(if out.Some? then ms + [out.value.message] else ms, r)
  {
    if r.Ok? {
      if out.Some? {
        assert (OutSeq(out) + r.value)[1..] == r.value;
        assert ms + ([out.value.message] + Messages(r.value)) == (ms + [out.value.message]) + Messages(r.value);
      } else {
        assert OutSeq(out) + r.value == r.value;
      }
    }
  }

  lemma WithMessagesLast<I, A>(ms: seq<Message<I, A>>, out: Option<Packed<I, A>>)
    ensures ms + Messages(OutSeq(out)) == if out.Some? then ms + [out.value.message] else ms
  {
    if out.Some? {
      assert OutSeq(out)[1..] == [];
    }
  }
}
