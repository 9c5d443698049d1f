/** The stack machine that finds a program's events in a transaction's log (transmitter-module/src/common/solana_logs/parse_logs.rs). */
module ParseLogs {
  import opened Wrappers
  import opened Bytes

  datatype ParseError = EmptyStack | Malformed | Panicked

  /** The event decoder: base64, the 8-byte discriminator, and deserialisation of what follows it. */
  datatype Codec<T> = Codec(
    base64: string -> Option<seq<byte>>,
    discriminator: seq<byte>,
    deserialize: seq<byte> -> Option<T>)

  const PROGRAM := "Program "
  const INVOKE := " invoke"
  const SUCCESS := " success"
  const PROGRAM_LOG := "Program log: "
  const PROGRAM_DATA := "Program data: "

  predicate StartsWith(s: string, prefix: string) {
    prefix <= s
  }

  predicate EndsWith(s: string, suffix: string) {
    |suffix| <= |s| && s[|s| - |suffix|..] == suffix
  }

  predicate MatchesAt(s: string, pattern: string, i: nat) {
    i + |pattern| <= |s| && s[i..i + |pattern|] == pattern
  }

  /** The last occurrence of the pattern at or after lo and before hi. */
  function LastMatch(s: string, pattern: string, lo: nat, hi: nat): (r: Option<nat>)
    ensures r.Some? ==> lo <= r.value < hi && MatchesAt(s, pattern, r.value)
    ensures forall i :: (if r.Some? then r.value < i else lo <= i) && i < hi ==> !MatchesAt(s, pattern, i)
    decreases hi
  {
    if hi <= lo then None
    else if MatchesAt(s, pattern, hi - 1) then Some(hi - 1)
    else LastMatch(s, pattern, lo, hi - 1)
  }

  /** The capture of `^Program (.*) invoke.*$`: greedy, and no newline anywhere. */
  function InvokedProgram(log: string): Option<string> {
    if !StartsWith(log, PROGRAM) || '\n' in log then None
    else match LastMatch(log, INVOKE, |PROGRAM|, |log|)
      case None => None
      case Some(i) => Some(log[|PROGRAM|..i])
  }

  /** `^Program (.*) success$` */
  predicate IsSuccess(log: string) {
    |PROGRAM| + |SUCCESS| <= |log| && StartsWith(log, PROGRAM) && EndsWith(log, SUCCESS) && '\n' !in log
  }

  /** `^Program (.*) invoke$` */
  predicate IsBareInvoke(log: string) {
    |PROGRAM| + |INVOKE| <= |log| && StartsWith(log, PROGRAM) && EndsWith(log, INVOKE) && '\n' !in log
  }

  /** `handle_irrelevant_log`: whether the program on top returns. */
  function HandleIrrelevantLog(thisProgram: string, log: string): bool {
    if StartsWith(log, PROGRAM + thisProgram + " log:") then false
    else if IsBareInvoke(log) then false
    else IsSuccess(log)
  }

  /** What follows "Program log: " or "Program data: ". */
  function LoggedText(log: string): Option<string> {
    if StartsWith(log, PROGRAM_LOG) then Some(log[|PROGRAM_LOG|..])
    else if StartsWith(log, PROGRAM_DATA) then Some(log[|PROGRAM_DATA|..])
    else None
  }

  /** `handle_program_log`: the event on a line of the program itself, and whether the program returns. */
  function HandleProgramLog<T>(codec: Codec<T>, thisProgram: string, log: string): Result<(Option<T>, bool), ParseError> {
    match LoggedText(log)
    case None => Ok((None, HandleIrrelevantLog(thisProgram, log)))
    case Some(text) =>
      match codec.base64(text)
      case None => Ok((None, false))
      case Some(bytes) =>
        if |bytes| < 8 then Err(Panicked)
        else if bytes[..8] != codec.discriminator then Ok((None, false))
        else match codec.deserialize(bytes[8..])
          case None => Err(Malformed)
          case Some(e) => Ok((Some(e), false))
  }

  /** The call stack, and a return that takes effect at the next line. */
  datatype Machine = Machine(stack: seq<string>, doPop: bool)

  function Step<T>(codec: Codec<T>, target: string, m: Machine, log: string): Result<(Machine, Option<T>), ParseError> {
    if m.doPop && m.stack == [] then Err(EmptyStack)
    else
      var popped := if m.doPop then m.stack[..|m.stack| - 1] else m.stack;
      var invoked := InvokedProgram(log);
      var stack := if invoked.Some? then popped + [invoked.value] else popped;
      if stack == [] then Err(EmptyStack)
      else if stack[|stack| - 1] == target then
        var r :- HandleProgramLog(codec, target, log);
        Ok((Machine(stack, r.1), r.0))
      else Ok((Machine(stack, HandleIrrelevantLog(target, log)), None))
  }

  function Emitted<T>(e: Option<T>): seq<T> {
    match e
    case None => []
    case Some(x) => [x]
  }

  function Run<T>(codec: Codec<T>, target: string, m: Machine, logs: seq<string>): Result<(Machine, seq<T>), ParseError>
    decreases |logs|
  {
    if logs == [] then Ok((m, []))
    else
      var first :- Step(codec, target, m, logs[0]);
      var rest :- Run(codec, target, first.0, logs[1..]);
      Ok((rest.0, Emitted(first.1) + rest.1))
  }

  const START := Machine([], false)

  function Parse<T>(codec: Codec<T>, target: string, logs: seq<string>): Result<seq<T>, ParseError> {
    var r :- Run(codec, target, START, logs);
    Ok(r.1)
  }

  /** A result with earlier events put in front. */
  function After<T>(events: seq<T>, r: Result<(Machine, seq<T>), ParseError>): Result<(Machine, seq<T>), ParseError> {
    match r
    case Err(e) => Err(e)
    case Ok(rest) => Ok((rest.0, events + rest.1))
  }

  lemma AfterLaws<T>(a: seq<T>, b: seq<T>, r: Result<(Machine, seq<T>), ParseError>)
    ensures After([], r) == r
    ensures After(a, After(b, r)) == After(a + b, r)
  {
    if r.Ok? {
      assert [] + r.value.1 == r.value.1;
      assert a + (b + r.value.1) == (a + b) + r.value.1;
    }
  }

  /** Running over a concatenation is running over its parts in turn. */
  lemma {:induction false} RunAppend<T>(codec: Codec<T>, target: string, m: Machine, a: seq<string>, b: seq<string>)
    ensures Run(codec, target, m, a + b) ==
            match Run(codec, target, m, a)
            case Err(e) => Err(e)
            case Ok(r) => After(r.1, Run(codec, target, r.0, b))
    decreases |a|
  {
    if a == [] {
      assert a + b == b;
      AfterLaws<T>([], [], Run(codec, target, m, b));
    } else {
      assert (a + b)[1..] == a[1..] + b;
      var first := Step(codec, target, m, a[0]);
      if first.Ok? {
        RunAppend(codec, target, first.value.0, a[1..], b);
        if Run(codec, target, first.value.0, a[1..]).Ok? {
          var r := Run(codec, target, first.value.0, a[1..]).value;
          AfterLaws(Emitted(first.value.1), r.1, Run(codec, target, r.0, b));
        }
      }
    }
  }

  class Execution {
    var stack: seq<string>

    constructor ()
      ensures stack == []
    {
      stack := [];
    }

    method Program() returns (r: Result<string, ParseError>)
      ensures r == if stack == [] then Err(EmptyStack) else Ok(stack[|stack| - 1])
    {
      if |stack| == 0 {
        return Err(EmptyStack);
      }
      return Ok(stack[|stack| - 1]);
    }

    method Push(program: string)
      modifies this
      ensures stack == old(stack) + [program]
    {
      stack := stack + [program];
    }

    method Pop() returns (r: Result<(), ParseError>)
      modifies this
      ensures if old(stack) == [] then r.Err? && r.error == EmptyStack && stack == []
              else r == Ok(()) && stack == old(stack)[..|old(stack)| - 1]
    {
      if |stack| == 0 {
        return Err(EmptyStack);
      }
      stack := stack[..|stack| - 1];
      return Ok(());
    }

    method Update(log: string) returns (r: Result<string, ParseError>)
      modifies this
      ensures stack == old(stack) + (match InvokedProgram(log) case None => [] case Some(p) => [p])
      ensures r == if stack == [] then Err(EmptyStack) else Ok(stack[|stack| - 1])
    {
      match InvokedProgram(log)
      case None =>
        r := Program();
      case Some(program) =>
        Push(program);
        r := Program();
    }
  }

  /** One turn of the loop: the event on the line, and whether the program on top returns. */
  method ParseLine<T>(codec: Codec<T>, target: string, execution: Execution, doPop: bool, log: string)
    returns (r: Result<(Option<T>, bool), ParseError>)
    modifies execution
    ensures match Step(codec, target, Machine(old(execution.stack), doPop), log)
            case Err(e) => r == Err(e)
            case Ok(s) => r.Ok? && Machine(execution.stack, r.value.1) == s.0 && r.value.0 == s.1
  {
    if doPop {
      var popped := execution.Pop();
      if popped.Err? {
        return Err(popped.error);
      }
    }
    assert execution.stack + [] == execution.stack;
    var program := execution.Update(log);
    if program.Err? {
      return Err(program.error);
    }
    if target == program.value {
      r := HandleProgramLog(codec, target, log);
    } else {
      r := Ok((None, HandleIrrelevantLog(target, log)));
    }
  }

  method ParseLogs<T>(codec: Codec<T>, logs: seq<string>, target: string) returns (r: Result<seq<T>, ParseError>)
    ensures r == Parse(codec, target, logs)
  {
    var events: seq<T> := [];
    var doPop := false;
    if logs != [] {
      var execution := new Execution();
      assert logs[0..] == logs;
      AfterLaws<T>([], [], Run(codec, target, START, logs));
      for i := 0 to |logs|
        invariant Run(codec, target, START, logs) ==
                  After(events, Run(codec, target, Machine(execution.stack, doPop), logs[i..]))
      {
        assert logs[i..][0] == logs[i] && logs[i..][1..] == logs[i + 1..];
        var line := ParseLine(codec, target, execution, doPop, logs[i]);
        if line.Err? {
          return Err(line.error);
        }
        doPop := line.value.1;
        AfterLaws(events, Emitted(line.value.0), Run(codec, target, Machine(execution.stack, doPop), logs[i + 1..]));
        assert events + [] == events;
        if line.value.0.Some? {
          events := events + [line.value.0.value];
        }
      }
      assert logs[|logs|..] == [];
      assert events + [] == events;
    }
    return Ok(events);
  }
}
