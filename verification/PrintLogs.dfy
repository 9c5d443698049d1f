/** A printer of call trees, and the proof that parsing undoes it. */
module PrintLogs {
  import opened Wrappers
  import opened Bytes
  import opened ParseLogs

  /**
    An ordered forest: lines of text, emitted events, and calls, each followed by the rest. An event is
    logged as data or as a log message, in base64 text.
  */
  datatype Forest<T> =
    | Empty
    | Text(line: string, next: Forest)
    | Emit(asData: bool, text: string, payload: seq<byte>, event: T, next: Forest)
    | Call(program: string, body: Forest, next: Forest)

  function Decimal(n: nat): (s: string)
    ensures ' ' !in s && '\n' !in s && ':' !in s
  {
    if n < 10 then [('0' as int + n) as char] else Decimal(n / 10) + [('0' as int + n % 10) as char]
  }

  function InvokeTail(depth: nat): string {
    " invoke [" + Decimal(depth) + "]"
  }

  function InvokeLine(program: string, depth: nat): string {
    "Program " + program + InvokeTail(depth)
  }

  function SuccessLine(program: string): string {
    "Program " + program + " success"
  }

  function EventLine(asData: bool, text: string): string {
    (if asData then "Program data: " else "Program log: ") + text
  }

  /** The lines the runtime writes for a successful transaction. */
  function Lines<T>(f: Forest<T>, depth: nat): seq<string> {
    match f
    case Empty => []
    case Text(line, next) => [line] + Lines(next, depth)
    case Emit(asData, text, _, _, next) => [EventLine(asData, text)] + Lines(next, depth)
    case Call(program, body, next) =>
      [InvokeLine(program, depth)] + Lines(body, depth + 1) + [SuccessLine(program)] + Lines(next, depth)
  }

  /** The events emitted while the target is on top, in log order. */
  function Events<T>(target: string, owner: Option<string>, f: Forest<T>): seq<T>
    decreases f
  {
    match f
    case Empty => []
    case Text(_, next) => Events(target, owner, next)
    case Emit(_, _, _, event, next) => (if owner == Some(target) then [event] else []) + Events(target, owner, next)
    case Call(program, body, next) => Events(target, Some(program), body) + Events(target, owner, next)
  }

  /** Program identifiers are base58 text; these three characters are what matters here. */
  predicate IsProgramId(p: string) {
    ' ' !in p && '\n' !in p && ':' !in p
  }

  predicate Occurs(part: string, s: string, i: nat) {
    i + |part| <= |s| && s[i..i + |part|] == part
  }

  /** The line has the form of a call, `^Program (.*) invoke.*$`. */
  ghost predicate TakenForCall(line: string) {
    "Program " <= line && '\n' !in line && exists i: nat :: i >= 8 && Occurs(" invoke", line, i)
  }

  /** The line has the form of a return, `^Program (.*) success$`. */
  predicate TakenForReturn(line: string) {
    "Program " <= line && '\n' !in line && |line| >= 16 && line[|line| - 8..] == " success"
  }

  /** What a program logged. */
  function TextOf(line: string): Option<string> {
    if "Program log: " <= line then Some(line[13..])
    else if "Program data: " <= line then Some(line[14..])
    else None
  }

  /** The event the text stands for. */
  function EventOf<T>(codec: Codec<T>, text: string): Option<T> {
    match codec.base64(text)
    case None => None
    case Some(bytes) => if |bytes| >= 8 && bytes[..8] == codec.discriminator then codec.deserialize(bytes[8..]) else None
  }

  /** The target's own log line decodes without a panic or an error. */
  predicate Decodes<T>(codec: Codec<T>, text: string) {
    match codec.base64(text)
    case None => true
    case Some(bytes) =>
      |bytes| >= 8 && (bytes[..8] == codec.discriminator ==> codec.deserialize(bytes[8..]).Some?)
  }

  /** The line is not taken for a return by the program on top, and decodes if it is read as the target's own. */
  predicate PlainLine<T>(codec: Codec<T>, target: string, owner: string, line: string) {
    if owner == target && TextOf(line).Some? then Decodes(codec, TextOf(line).value)
    else "Program " + target + " log:" <= line || !TakenForReturn(line)
  }

  /**
    Calls are of identified programs, no line is taken for a call, texts stand for no event, and an emitted
    event's text is the base64 form of the discriminator and a payload that deserialises to it.
  */
  ghost predicate Printable<T>(codec: Codec<T>, f: Forest<T>) {
    match f
    case Empty => true
    case Text(line, next) =>
      && !TakenForCall(line) && (TextOf(line).Some? ==> EventOf(codec, TextOf(line).value).None?)
      && Printable(codec, next)
    case Emit(asData, text, payload, event, next) =>
      && !TakenForCall(EventLine(asData, text))
      && codec.base64(text) == Some(codec.discriminator + payload) && codec.deserialize(payload) == Some(event)
      && Printable(codec, next)
    case Call(program, body, next) => IsProgramId(program) && Printable(codec, body) && Printable(codec, next)
  }

  /** Every line is inside a call, and read as such by the program on top. */
  predicate WellFormed<T>(codec: Codec<T>, target: string, owner: Option<string>, f: Forest<T>)
    decreases f
  {
    match f
    case Empty => true
    case Text(line, next) =>
      owner.Some? && PlainLine(codec, target, owner.value, line) && WellFormed(codec, target, owner, next)
    case Emit(asData, text, _, _, next) =>
      owner.Some? && PlainLine(codec, target, owner.value, EventLine(asData, text)) && WellFormed(codec, target, owner, next)
    case Call(program, body, next) =>
      WellFormed(codec, target, Some(program), body) && WellFormed(codec, target, owner, next)
  }

  // ---- The parser's reading of a line ----

  /** The parser's regular expressions and prefixes are these forms. */
  lemma LineReadings(line: string)
    ensures InvokedProgram(line).Some? <==> TakenForCall(line)
    ensures IsSuccess(line) <==> TakenForReturn(line)
    ensures LoggedText(line) == TextOf(line)
  {
    if StartsWith(line, PROGRAM) && '\n' !in line {
      var last := LastMatch(line, INVOKE, |PROGRAM|, |line|);
      if last.Some? {
        assert Occurs(" invoke", line, last.value);
      } else {
        forall i: nat | i >= 8
          ensures !Occurs(" invoke", line, i)
        {
          assert i < |line| ==> !MatchesAt(line, INVOKE, i);
        }
      }
    }
  }

  /** The program taken from a call reaches to the last " invoke". */
  lemma CallReading(line: string)
    requires InvokedProgram(line).Some?
    ensures var p := InvokedProgram(line).value;
            && "Program " + p + " invoke" <= line
            && forall i: nat :: 8 + |p| < i ==> !Occurs(" invoke", line, i)
  {
    var last := LastMatch(line, INVOKE, |PROGRAM|, |line|).value;
    assert line[..last + 7] == line[..8] + line[8..last] + line[last..last + 7];
    forall i: nat | last < i
      ensures !Occurs(" invoke", line, i)
    {
      assert i < |line| ==> !MatchesAt(line, INVOKE, i);
    }
  }

  // ---- The printed lines, classified ----

  /** An occurrence of " invoke" starts with a space followed by an 'i'. */
  lemma InvokeCharacters(s: string, i: nat)
    ensures MatchesAt(s, INVOKE, i) ==> i + 1 < |s| && s[i] == ' ' && s[i + 1] == 'i'
  {
    if MatchesAt(s, INVOKE, i) {
      assert s[i..i + |INVOKE|][0] == s[i] && s[i..i + |INVOKE|][1] == s[i + 1];
    }
  }

  lemma DiffersAt(s: string, prefix: string, i: nat)
    requires i < |prefix| && i < |s| && s[i] != prefix[i]
    ensures !StartsWith(s, prefix)
  {
  }

  /** A line that starts with a program identifier is not a "log:" or "data:" line. */
  lemma NotLogged(program: string, rest: string)
    requires IsProgramId(program) && |rest| > 1 && rest[0] == ' '
    ensures LoggedText(PROGRAM + program + rest).None?
  {
    var s := PROGRAM + program + rest;
    var at := |PROGRAM| + |program|;
    assert s[at] == ' ';
    assert forall i :: |PROGRAM| <= i < at ==> s[i] == program[i - |PROGRAM|];
    DiffersAt(s, PROGRAM_LOG, if at < 11 then at else 11);
    DiffersAt(s, PROGRAM_DATA, if at < 12 then at else 12);
  }

  lemma InvokeTailSpaces(depth: nat)
    ensures var tail := InvokeTail(depth);
            forall k :: 0 < k < |tail| && tail[k] == ' ' ==> k + 1 < |tail| && tail[k + 1] != 'i'
  {
    var tail := InvokeTail(depth);
    var digits := Decimal(depth);
    assert forall k :: 9 <= k < |tail| - 1 ==> tail[k] == digits[k - 9];
  }

  lemma InvokeLineIsCall(program: string, depth: nat)
    requires IsProgramId(program)
    ensures InvokedProgram(InvokeLine(program, depth)) == Some(program)
    ensures LoggedText(InvokeLine(program, depth)).None? && !IsSuccess(InvokeLine(program, depth))
  {
    var s, tail := InvokeLine(program, depth), InvokeTail(depth);
    var at := |PROGRAM| + |program|;
    assert s == PROGRAM + program + tail;
    NotLogged(program, tail);
    LastInvoke(s, at, tail) by {
      assert s[at..] == tail;
      InvokeTailSpaces(depth);
    }
    assert s[|PROGRAM|..at] == program;
    assert s[|s| - 1] == ']';
    assert s[|s| - |SUCCESS|..][|SUCCESS| - 1] == s[|s| - 1];
  }

  /** No occurrence begins after the first character of a tail in which no later space is followed by an 'i'. */
  lemma NoLaterInvoke(s: string, at: nat, tail: string, i: nat)
    requires at <= |s| && s[at..] == tail && at < i < |s|
    requires forall k :: 0 < k < |tail| && tail[k] == ' ' ==> k + 1 < |tail| && tail[k + 1] != 'i'
    ensures !MatchesAt(s, INVOKE, i)
  {
    InvokeCharacters(s, i);
    assert s[i] == tail[i - at];
    if i + 1 < |s| {
      assert s[i + 1] == tail[i + 1 - at];
    }
  }

  lemma LastInvoke(s: string, at: nat, tail: string)
    requires |PROGRAM| <= at <= |s| && s[at..] == tail && INVOKE <= tail
    requires forall k :: 0 < k < |tail| && tail[k] == ' ' ==> k + 1 < |tail| && tail[k + 1] != 'i'
    ensures LastMatch(s, INVOKE, |PROGRAM|, |s|) == Some(at)
  {
    assert s[at..at + |INVOKE|] == tail[..|INVOKE|];
    assert MatchesAt(s, INVOKE, at);
    forall i: nat | at < i < |s|
      ensures !MatchesAt(s, INVOKE, i)
    {
      NoLaterInvoke(s, at, tail, i);
    }
    MatchIsLast(s, INVOKE, |PROGRAM|, |s|, at);
  }

  lemma MatchIsLast(s: string, pattern: string, lo: nat, hi: nat, at: nat)
    requires lo <= at < hi && MatchesAt(s, pattern, at)
    requires forall i: nat :: at < i < hi ==> !MatchesAt(s, pattern, i)
    ensures LastMatch(s, pattern, lo, hi) == Some(at)
  {
    var r := LastMatch(s, pattern, lo, hi);
  }

  lemma SuccessLineIsNoCall(program: string)
    requires IsProgramId(program)
    ensures InvokedProgram(SuccessLine(program)).None?
  {
    var s := SuccessLine(program);
    var at := |PROGRAM| + |program|;
    assert forall k :: 0 <= k < |SUCCESS| ==> s[at + k] == SUCCESS[k];
    forall i: nat | |PROGRAM| <= i < |s|
      ensures !MatchesAt(s, INVOKE, i)
    {
      assert i < at ==> s[i] == program[i - |PROGRAM|];
      assert i > at ==> s[i] == SUCCESS[i - at];
      InvokeCharacters(s, i);
    }
  }

  lemma SuccessLineIsReturn(program: string, target: string)
    requires IsProgramId(program) && IsProgramId(target)
    ensures InvokedProgram(SuccessLine(program)).None?
    ensures LoggedText(SuccessLine(program)).None? && HandleIrrelevantLog(target, SuccessLine(program))
  {
    var s := SuccessLine(program);
    SuccessLineIsNoCall(program);
    NotLogged(program, SUCCESS);
    NotOwnLog(program, target);
    assert s[|s| - 1] == SUCCESS[|SUCCESS| - 1] != INVOKE[|INVOKE| - 1];
    assert s[|s| - |INVOKE|..][|INVOKE| - 1] == s[|s| - 1];
    assert s[|s| - |SUCCESS|..] == SUCCESS;
  }

  lemma NotOwnLog(program: string, target: string)
    requires IsProgramId(program) && IsProgramId(target)
    ensures !StartsWith(SuccessLine(program), PROGRAM + target + " log:")
  {
    var s, own := SuccessLine(program), PROGRAM + target + " log:";
    var p, t := |PROGRAM| + |program|, |PROGRAM| + |target|;
    assert s[p] == ' ' && s[p + 1] == 's';
    assert own[t] == ' ' && own[t + 1] == 'l';
    assert forall i :: |PROGRAM| <= i < p ==> s[i] == program[i - |PROGRAM|];
    assert forall i :: |PROGRAM| <= i < t ==> own[i] == target[i - |PROGRAM|];
    DiffersAt(s, own, if p == t then p + 1 else if p < t then p else t);
  }

  // ---- Parsing undoes printing ----

  predicate MachineOk(m: Machine) {
    m.doPop ==> m.stack != []
  }

  /** The stack once a pending return is carried out. */
  function Effective(m: Machine): seq<string>
    requires MachineOk(m)
  {
    if m.doPop then m.stack[..|m.stack| - 1] else m.stack
  }

  function Owner(stack: seq<string>): Option<string> {
    if stack == [] then None else Some(stack[|stack| - 1])
  }

  /** The event a line logged by the target itself carries. */
  function EventOn<T>(codec: Codec<T>, line: string): Option<T> {
    if TextOf(line).Some? then EventOf(codec, TextOf(line).value) else None
  }

  /** A line that is not a call leaves the stack alone exactly when it is plain; then it gives the target's event, if any. */
  lemma PlainLineStep<T>(codec: Codec<T>, target: string, m: Machine, line: string)
    requires MachineOk(m) && Effective(m) != [] && !TakenForCall(line)
    ensures var owner := Effective(m)[|Effective(m)| - 1];
            var r := Step(codec, target, m, line);
            && (PlainLine(codec, target, owner, line) <==>
                  r.Ok? && MachineOk(r.value.0) && Effective(r.value.0) == Effective(m))
            && (PlainLine(codec, target, owner, line) ==>
                  Emitted(r.value.1) == if owner == target then Emitted(EventOn(codec, line)) else [])
  {
    LineReadings(line);
    BareInvokeIsCall(line);
  }

  /** An emitted event's line carries it. */
  lemma EventLineCarries<T>(codec: Codec<T>, asData: bool, text: string, payload: seq<byte>, event: T)
    requires |codec.discriminator| == 8
    requires codec.base64(text) == Some(codec.discriminator + payload) && codec.deserialize(payload) == Some(event)
    ensures TextOf(EventLine(asData, text)) == Some(text) && EventOn(codec, EventLine(asData, text)) == Some(event)
  {
    var line, bytes := EventLine(asData, text), codec.discriminator + payload;
    assert bytes[..8] == codec.discriminator && bytes[8..] == payload;
    if asData {
      assert line[8] == 'd' && "Program log: "[8] == 'l';
      assert line[14..] == text;
    } else {
      assert line[13..] == text;
    }
  }

  lemma BareInvokeIsCall(line: string)
    ensures IsBareInvoke(line) ==> InvokedProgram(line).Some?
  {
    if IsBareInvoke(line) {
      assert MatchesAt(line, INVOKE, |line| - |INVOKE|);
    }
  }

  lemma CallStep<T>(codec: Codec<T>, target: string, m: Machine, program: string, depth: nat)
    requires MachineOk(m) && IsProgramId(program)
    ensures Step(codec, target, m, InvokeLine(program, depth)) == Ok((Machine(Effective(m) + [program], false), None))
  {
    InvokeLineIsCall(program, depth);
  }

  lemma ReturnStep<T>(codec: Codec<T>, target: string, m: Machine, program: string)
    requires MachineOk(m) && IsProgramId(program) && IsProgramId(target)
    requires Effective(m) != [] && Effective(m)[|Effective(m)| - 1] == program
    ensures Step(codec, target, m, SuccessLine(program)) == Ok((Machine(Effective(m), true), None))
  {
    SuccessLineIsReturn(program, target);
  }

  lemma RunOne<T>(codec: Codec<T>, target: string, m: Machine, line: string)
    ensures Run(codec, target, m, [line]) ==
            match Step(codec, target, m, line)
            case Err(e) => Err(e)
            case Ok(r) => Ok((r.0, Emitted(r.1)))
  {
    if Step(codec, target, m, line).Ok? {
      var r := Step(codec, target, m, line).value;
      assert [line][1..] == [];
      assert Emitted(r.1) + [] == Emitted(r.1);
      assert Run<T>(codec, target, r.0, []) == Ok((r.0, []));
    }
  }

  /** The machine is back on this stack, having emitted these events. */
  predicate Reaches<T(==)>(r: Result<(Machine, seq<T>), ParseError>, stack: seq<string>, events: seq<T>) {
    r.Ok? && MachineOk(r.value.0) && Effective(r.value.0) == stack && r.value.1 == events
  }

  lemma RunThen<T>(codec: Codec<T>, target: string, m: Machine, a: seq<string>, b: seq<string>,
                   sa: seq<string>, ea: seq<T>, sb: seq<string>, eb: seq<T>)
    requires Reaches(Run(codec, target, m, a), sa, ea)
    requires Reaches(Run(codec, target, Run(codec, target, m, a).value.0, b), sb, eb)
    ensures Reaches(Run(codec, target, m, a + b), sb, ea + eb)
  {
    RunAppend(codec, target, m, a, b);
  }

  /** One plain line leaves the stack and gives the owner's event, if the owner is the target. */
  lemma LineRuns<T>(codec: Codec<T>, target: string, m: Machine, line: string)
    requires MachineOk(m) && Effective(m) != [] && !TakenForCall(line)
    requires PlainLine(codec, target, Effective(m)[|Effective(m)| - 1], line)
    ensures Reaches(Run(codec, target, m, [line]), Effective(m),
                    if Owner(Effective(m)) == Some(target) then Emitted(EventOn(codec, line)) else [])
  {
    PlainLineStep(codec, target, m, line);
    RunOne(codec, target, m, line);
  }

  /** Running over a printed forest restores the effective stack and emits the forest's events. */
  lemma {:induction false} ForestRuns<T>(codec: Codec<T>, target: string, f: Forest<T>, depth: nat, m: Machine)
    requires |codec.discriminator| == 8 && IsProgramId(target) && MachineOk(m)
    requires Printable(codec, f) && WellFormed(codec, target, Owner(Effective(m)), f)
    ensures Reaches(Run(codec, target, m, Lines(f, depth)), Effective(m), Events(target, Owner(Effective(m)), f))
    decreases f
  {
    var stack := Effective(m);
    match f
    case Empty =>
    case Text(line, next) =>
      LineRuns(codec, target, m, line);
      assert EventOn(codec, line) == None;
      ForestRuns(codec, target, next, depth, Run(codec, target, m, [line]).value.0);
      var rest := Events(target, Owner(stack), next);
      RunThen(codec, target, m, [line], Lines(next, depth), stack, [], stack, rest);
      assert [] + rest == rest;
    case Emit(asData, text, payload, event, next) =>
      var line := EventLine(asData, text);
      EventLineCarries(codec, asData, text, payload, event);
      LineRuns(codec, target, m, line);
      ForestRuns(codec, target, next, depth, Run(codec, target, m, [line]).value.0);
      RunThen(codec, target, m, [line], Lines(next, depth), stack, if Owner(stack) == Some(target) then [event] else [],
              stack, Events(target, Owner(stack), next));
    case Call(program, body, next) =>
      var inside := stack + [program];
      CallStep(codec, target, m, program, depth);
      RunOne(codec, target, m, InvokeLine(program, depth));
      var entered := Machine(inside, false);
      ForestRuns(codec, target, body, depth + 1, entered);
      var evBody := Events(target, Some(program), body);
      RunThen(codec, target, m, [InvokeLine(program, depth)], Lines(body, depth + 1), inside, [], inside, evBody);
      var soFar := [InvokeLine(program, depth)] + Lines(body, depth + 1);
      var done := Run(codec, target, m, soFar).value.0;
      ReturnStep(codec, target, done, program);
      RunOne(codec, target, done, SuccessLine(program));
      assert inside[..|inside| - 1] == stack;
      assert [] + evBody == evBody;
      RunThen(codec, target, m, soFar, [SuccessLine(program)], inside, evBody, stack, []);
      var returned := Run(codec, target, m, soFar + [SuccessLine(program)]).value.0;
      ForestRuns(codec, target, next, depth, returned);
      assert evBody + [] == evBody;
      RunThen(codec, target, m, soFar + [SuccessLine(program)], Lines(next, depth), stack, evBody,
              stack, Events(target, Owner(stack), next));
  }

  /**
    Parsing undoes printing: for every well-formed forest of calls, of any depth and with any
    recursion, parsing the printed lines succeeds and yields exactly the events emitted while the
    target was on top, in log order.
  */
  lemma ParseUndoesPrint<T>(codec: Codec<T>, target: string, f: Forest<T>)
    requires |codec.discriminator| == 8 && IsProgramId(target)
    requires Printable(codec, f) && WellFormed(codec, target, None, f)
    ensures Parse(codec, target, Lines(f, 1)) == Ok(Events(target, None, f))
  {
    ForestRuns(codec, target, f, 1, START);
  }

  // ---- Exactly when parsing undoes printing ----

  /** A run that succeeds ends on this stack or a part of it, on the whole of it exactly if the flag says so. */
  predicate EndsWithin<T>(r: Result<(Machine, seq<T>), ParseError>, stack: seq<string>, whole: bool) {
    r.Ok? ==>
      && MachineOk(r.value.0)
      && Effective(r.value.0) <= stack
      && (Effective(r.value.0) == stack <==> whole)
  }

  lemma TextStep<T>(codec: Codec<T>, target: string, m: Machine, line: string)
    requires MachineOk(m) && !TakenForCall(line)
    ensures EndsWithin(Run(codec, target, m, [line]), Effective(m),
                       Effective(m) != [] && PlainLine(codec, target, Effective(m)[|Effective(m)| - 1], line))
  {
    RunOne(codec, target, m, line);
    LineReadings(line);
    if Effective(m) != [] {
      PlainLineStep(codec, target, m, line);
    }
  }

  /** A return takes away whatever program is on top. */
  lemma AnyReturnStep<T>(codec: Codec<T>, target: string, m: Machine, program: string)
    requires MachineOk(m) && IsProgramId(program) && IsProgramId(target)
    ensures Run(codec, target, m, [SuccessLine(program)]) ==
            if Effective(m) == [] then Err(EmptyStack) else Ok((Machine(Effective(m), true), []))
  {
    RunOne(codec, target, m, SuccessLine(program));
    SuccessLineIsReturn(program, target);
  }

  lemma RunParts<T>(codec: Codec<T>, target: string, m: Machine, a: seq<string>, b: seq<string>)
    requires Run(codec, target, m, a + b).Ok?
    ensures Run(codec, target, m, a).Ok? && Run(codec, target, Run(codec, target, m, a).value.0, b).Ok?
    ensures Run(codec, target, m, a + b).value.0 == Run(codec, target, Run(codec, target, m, a).value.0, b).value.0
  {
    RunAppend(codec, target, m, a, b);
  }

  /** A call and its return end one level below the call when the body is well formed, and further down when it is not. */
  lemma CallEndsWithin<T>(codec: Codec<T>, target: string, m: Machine, program: string, body: seq<string>, depth: nat, whole: bool)
    requires MachineOk(m) && IsProgramId(program) && IsProgramId(target)
    requires EndsWithin(Run(codec, target, Machine(Effective(m) + [program], false), body), Effective(m) + [program], whole)
    ensures EndsWithin(Run(codec, target, m, [InvokeLine(program, depth)] + body + [SuccessLine(program)]), Effective(m), whole)
  {
    var invoke, success := [InvokeLine(program, depth)], [SuccessLine(program)];
    if Run(codec, target, m, invoke + body + success).Ok? {
      RunParts(codec, target, m, invoke + body, success);
      RunParts(codec, target, m, invoke, body);
      CallStep(codec, target, m, program, depth);
      RunOne(codec, target, m, invoke[0]);
      var inside := Run(codec, target, m, invoke + body).value.0;
      AnyReturnStep(codec, target, inside, program);
      var stack := Effective(inside);
      assert stack <= Effective(m) + [program] && (stack == Effective(m) + [program] <==> whole);
      assert stack[..|stack| - 1] <= Effective(m);
    }
  }

  /** From any state, printed calls end on the stack they began on exactly when they are well formed, and below it otherwise. */
  lemma {:induction false} ForestEndsWithin<T>(codec: Codec<T>, target: string, f: Forest<T>, depth: nat, m: Machine)
    requires IsProgramId(target) && MachineOk(m) && Printable(codec, f)
    ensures EndsWithin(Run(codec, target, m, Lines(f, depth)), Effective(m), WellFormed(codec, target, Owner(Effective(m)), f))
    decreases f, 0
  {
    match f
    case Empty =>
    case Text(line, next) =>
      TextStep(codec, target, m, line);
      var plain := Effective(m) != [] && PlainLine(codec, target, Effective(m)[|Effective(m)| - 1], line);
      FirstThenRest(codec, target, m, [line], plain, next, depth);
    case Emit(asData, text, _, _, next) =>
      var line := EventLine(asData, text);
      TextStep(codec, target, m, line);
      var plain := Effective(m) != [] && PlainLine(codec, target, Effective(m)[|Effective(m)| - 1], line);
      FirstThenRest(codec, target, m, [line], plain, next, depth);
    case Call(program, body, next) =>
      var inside := Effective(m) + [program];
      assert Owner(inside) == Some(program);
      ForestEndsWithin(codec, target, body, depth + 1, Machine(inside, false));
      var good := WellFormed(codec, target, Some(program), body);
      CallEndsWithin(codec, target, m, program, Lines(body, depth + 1), depth, good);
      FirstThenRest(codec, target, m, [InvokeLine(program, depth)] + Lines(body, depth + 1) + [SuccessLine(program)], good, next, depth);
  }

  lemma FirstThenRest<T>(codec: Codec<T>, target: string, m: Machine, first: seq<string>, whole: bool, next: Forest<T>, depth: nat)
    requires IsProgramId(target) && MachineOk(m) && Printable(codec, next)
    requires EndsWithin(Run(codec, target, m, first), Effective(m), whole)
    ensures EndsWithin(Run(codec, target, m, first + Lines(next, depth)), Effective(m),
                       whole && WellFormed(codec, target, Owner(Effective(m)), next))
    decreases next, 1
  {
    if Run(codec, target, m, first + Lines(next, depth)).Ok? {
      RunParts(codec, target, m, first, Lines(next, depth));
      ForestEndsWithin(codec, target, next, depth, Run(codec, target, m, first).value.0);
    }
  }

  /**
    Exactly when parsing undoes printing, for every forest of identified calls in which no text is taken
    for a call: the log parses exactly when every text is read as such by the program on top, and then
    to the logged events. A text taken for a return costs its transaction all events.
  */
  lemma ParsesExactlyWhenWellFormed<T>(codec: Codec<T>, target: string, f: Forest<T>)
    requires |codec.discriminator| == 8 && IsProgramId(target) && Printable(codec, f)
    ensures Parse(codec, target, Lines(f, 1)).Ok? <==> WellFormed(codec, target, None, f)
    ensures Parse(codec, target, Lines(f, 1)) == Ok(Events(target, None, f)) <==> WellFormed(codec, target, None, f)
  {
    ForestEndsWithin(codec, target, f, 1, START);
    if WellFormed(codec, target, None, f) {
      ParseUndoesPrint(codec, target, f);
    }
  }

  /**
    Without well-formedness it is false: a foreign program that logs a text ending in " success" is
    taken to have returned, and the whole transaction's events are lost.
  */
  lemma SuccessInTextBreaksParsing<T>(codec: Codec<T>)
    ensures var f: Forest<T> := Call("A", Text("Program log: all success", Empty), Empty);
            && !WellFormed(codec, "T", None, f)
            && Parse(codec, "T", Lines(f, 1)) == Err(EmptyStack)
  {
    var line := "Program log: all success";
    var lines := [InvokeLine("A", 1), line, SuccessLine("A")];
    assert Lines<T>(Call("A", Text(line, Empty), Empty), 1) == lines;
    TextTakenForReturn();
    SuccessLineIsReturn("A", "T");
    CallStep(codec, "T", START, "A", 1);
    assert [] + ["A"] == ["A"];
    assert Run(codec, "T", Machine(["A"], true), lines[2..]) == Err(EmptyStack);
    assert lines[1..][1..] == lines[2..];
    assert Run(codec, "T", Machine(["A"], false), lines[1..]) == Err(EmptyStack);
  }

  lemma TextTakenForReturn()
    ensures InvokedProgram("Program log: all success").None?
    ensures IsSuccess("Program log: all success") && HandleIrrelevantLog("T", "Program log: all success")
    ensures !StartsWith("Program log: all success", PROGRAM + "T" + " log:")
  {
    var line := "Program log: all success";
    assert forall i: nat :: |PROGRAM| <= i < |line| - 1 ==> !(line[i] == ' ' && line[i + 1] == 'i');
    forall i: nat | |PROGRAM| <= i < |line|
      ensures !MatchesAt(line, INVOKE, i)
    {
      InvokeCharacters(line, i);
    }
    assert line[|line| - |SUCCESS|..] == SUCCESS;
    assert line[|line| - |INVOKE|..][|INVOKE| - 1] == 's';
    var own := PROGRAM + "T" + " log:";
    assert own[8] == 'T' && line[8] == 'l';
  }

  lemma RunQuiet<T>(codec: Codec<T>, target: string, m: Machine, line: string, rest: seq<string>, m': Machine)
    requires Step(codec, target, m, line) == Ok((m', None))
    ensures Run(codec, target, m, [line] + rest) == Run(codec, target, m', rest)
  {
    assert ([line] + rest)[1..] == rest;
    AfterLaws<T>([], [], Run(codec, target, m', rest));
  }

  /**
    A text taken for a call hides events without any error: after the target itself logs "invoked", the
    machine takes "log:" for the program on top, and the event emitted next is lost.
  */
  lemma InvokeInTextHidesEvents<T>(codec: Codec<T>, target: string, asData: bool, text: string, payload: seq<byte>, event: T)
    requires IsProgramId(target) && !TakenForCall(EventLine(asData, text)) && !TakenForReturn(EventLine(asData, text))
    ensures var f := Call(target, Text("Program log: invoked", Emit(asData, text, payload, event, Empty)), Empty);
            Parse(codec, target, Lines(f, 1)) == Ok([]) && Events(target, None, f) == [event]
  {
    var told, line := "Program log: invoked", EventLine(asData, text);
    var called, hidden, ended := Machine([target], false), Machine([target, "log:"], false), Machine([target, "log:"], true);
    var success := [SuccessLine(target)];
    CallStep(codec, target, START, target, 1);
    assert [] + [target] == [target];
    RunQuiet(codec, target, START, InvokeLine(target, 1), [told] + ([line] + success), called);
    TextTakenForCall(codec, target);
    RunQuiet(codec, target, called, told, [line] + success, hidden);
    assert "log:"[3] == ':';
    LineReadings(line);
    RunQuiet(codec, target, hidden, line, success, hidden);
    SuccessLineIsReturn(target, target);
    RunOne(codec, target, hidden, SuccessLine(target));
    HiddenLines(target, told, asData, text, payload, event);
  }

  lemma HiddenLines<T>(target: string, told: string, asData: bool, text: string, payload: seq<byte>, event: T)
    ensures var f := Call(target, Text(told, Emit(asData, text, payload, event, Empty)), Empty);
            && Lines(f, 1) == [InvokeLine(target, 1)] + ([told] + ([EventLine(asData, text)] + [SuccessLine(target)]))
            && Events(target, None, f) == [event]
  {
    var last := Emit(asData, text, payload, event, Empty);
    assert Lines(last, 2) == [EventLine(asData, text)];
    assert Lines(Text(told, last), 2) == [told, EventLine(asData, text)];
    assert Events(target, Some(target), last) == [event] + [];
  }

  lemma TextTakenForCall<T>(codec: Codec<T>, target: string)
    requires IsProgramId(target)
    ensures Step(codec, target, Machine([target], false), "Program log: invoked") == Ok((Machine([target, "log:"], false), None))
  {
    var text := "Program log: invoked";
    LastInvoke(text, 12, " invoked");
    assert text[|PROGRAM|..12] == "log:";
    assert InvokedProgram(text) == Some("log:");
    assert "log:"[3] == ':';
    assert text[|text| - |SUCCESS|..][|SUCCESS| - 1] == 'd' && text[|text| - |INVOKE|..][|INVOKE| - 1] == 'd';
    assert [target] + ["log:"] == [target, "log:"];
  }
}
