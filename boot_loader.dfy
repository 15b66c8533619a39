/**
 * 2020/08.rb: the boot loader of part 1. It executes instructions until the
 * cursor comes back to an instruction it has already processed and then
 * reports the accumulator. It has no end-of-program check: when the cursor
 * leaves the program, parsing the nil it reads raises NoMethodError.
 */
module BootLoader {
  import opened Wrappers
  import opened RubyText
  import opened BootCode

  datatype Halt = Repeated | Raised(error: Exception)

  /** The state a run stops in and why it stops. */
  datatype Outcome = Outcome(machine: Machine, halt: Halt)

  /**
   * GameBootLoader#load as a function of the state: stop when the cursor
   * was already processed, otherwise parse the line at the cursor (raising
   * if there is none or it has too many fields) and execute it.
   */
  function Run(instructions: seq<string>, m: Machine): (o: Outcome)
    ensures m.processed <= o.machine.processed
    ensures o.halt == Repeated <==> o.machine.cursor in o.machine.processed
    ensures o.halt == Raised(NoMethodError) ==> At(instructions, o.machine.cursor).None?
    decreases |Unvisited(|instructions|, m.processed)|
  {
    if m.cursor in m.processed then Outcome(m, Repeated)
    else match At(instructions, m.cursor)
      case None => Outcome(m, Raised(NoMethodError))
      case Some(raw) =>
        match Parse(raw)
        case Err(e) => Outcome(m, Raised(e))
        case Ok(ins) =>
          UnvisitedShrinks(|instructions|, m.processed, m.cursor);
          Run(instructions, Execute(m, ins))
  }

  /** A run from a state on the execution path ends on the execution path. */
  lemma {:induction false} RunKeepsTrace(instructions: seq<string>, m: Machine)
    requires Trace(instructions, m)
    ensures Trace(instructions, Run(instructions, m).machine)
    decreases |Unvisited(|instructions|, m.processed)|
  {
    if m.cursor !in m.processed && Decodes(instructions, m.cursor) {
      TraceStep(instructions, m);
      UnvisitedShrinks(|instructions|, m.processed, m.cursor);
      RunKeepsTrace(instructions, Execute(m, Decoded(instructions, m.cursor)));
    }
  }

  /**
   * A run from a fresh loader follows the program from cursor 0, records no
   * cursor twice, accumulates exactly the acc arguments on its path, and
   * takes at most twice the program length steps (at most the program
   * length when it never steps on a negative cursor).
   */
  lemma FreshRun(instructions: seq<string>)
    ensures Trace(instructions, Run(instructions, Fresh).machine)
    ensures |Run(instructions, Fresh).machine.processed| <= 2 * |instructions|
  {
    FreshTrace(instructions);
    RunKeepsTrace(instructions, Fresh);
    TraceBound(instructions, Run(instructions, Fresh).machine);
  }

  /** The program of TestGameBootLoader. */
  const Example: seq<string> := [
    Line("nop", 0), Line("acc", 1), Line("jmp", 4), Line("acc", 3), Line("jmp", -3),
    Line("acc", -99), Line("acc", 1), Line("jmp", -4), Line("acc", 6)]

  lemma ExampleText()
    ensures Example == ["nop +0", "acc +1", "jmp +4", "acc +3", "jmp -3", "acc -99", "acc +1", "jmp -4", "acc +6"]
  {
    SignedTexts();
    assert Line("nop", 0) == "nop +0" && Line("acc", 1) == "acc +1" && Line("jmp", 4) == "jmp +4";
    assert Line("acc", 3) == "acc +3" && Line("jmp", -3) == "jmp -3" && Line("acc", -99) == "acc -99";
    assert Line("jmp", -4) == "jmp -4" && Line("acc", 6) == "acc +6";
  }

  /** One step of a run over a line "op +n" / "op -n" that has not been processed yet. */
  lemma RunStep(instructions: seq<string>, m: Machine, op: string, n: int, next: Machine)
    requires op != [] && All(op, IsNonSpace)
    requires m.cursor !in m.processed && At(instructions, m.cursor) == Some(Line(op, n))
    requires next == Machine(
      if op == "jmp" then m.cursor + n else m.cursor + 1,
      if op == "acc" then m.accumulator + n else m.accumulator,
      m.processed + [m.cursor])
    ensures Run(instructions, m) == Run(instructions, next)
  {
    LineParses(op, n);
    assert Execute(m, Instruction(op, SignedText(n))) == next;
  }

  /** The example program revisits cursor 1 with the accumulator at 5. */
  lemma ExampleRepeatsAtOne()
    ensures Run(Example, Fresh) == Outcome(Machine(1, 5, [0, 1, 2, 6, 7, 3, 4]), Repeated)
  {
    ExampleRun(Example);
  }

  lemma ExampleRun(p: seq<string>)
    requires p == Example
    ensures Run(p, Fresh) == Outcome(Machine(1, 5, [0, 1, 2, 6, 7, 3, 4]), Repeated)
  {
    ExampleStep0(p);
    ExampleStep1(p);
    ExampleStep2(p);
    ExampleStep3(p);
    ExampleStep4(p);
    ExampleStep5(p);
    ExampleStep6(p);
    assert 1 in [0, 1, 2, 6, 7, 3, 4];
  }

  lemma ExampleStep0(p: seq<string>)
    requires p == Example
    ensures Run(p, Machine(0, 0, [])) == Run(p, Machine(1, 0, [0]))
  {
    assert 0 !in [] && At(p, 0) == Some(Line("nop", 0));
    RunStep(p, Machine(0, 0, []), "nop", 0, Machine(1, 0, [0]));
  }

  lemma ExampleStep1(p: seq<string>)
    requires p == Example
    ensures Run(p, Machine(1, 0, [0])) == Run(p, Machine(2, 1, [0, 1]))
  {
    assert 1 !in [0] && At(p, 1) == Some(Line("acc", 1));
    RunStep(p, Machine(1, 0, [0]), "acc", 1, Machine(2, 1, [0, 1]));
  }

  lemma ExampleStep2(p: seq<string>)
    requires p == Example
    ensures Run(p, Machine(2, 1, [0, 1])) == Run(p, Machine(6, 1, [0, 1, 2]))
  {
    assert 2 !in [0, 1] && At(p, 2) == Some(Line("jmp", 4));
    RunStep(p, Machine(2, 1, [0, 1]), "jmp", 4, Machine(6, 1, [0, 1, 2]));
  }

  lemma ExampleStep3(p: seq<string>)
    requires p == Example
    ensures Run(p, Machine(6, 1, [0, 1, 2])) == Run(p, Machine(7, 2, [0, 1, 2, 6]))
  {
    assert 6 !in [0, 1, 2] && At(p, 6) == Some(Line("acc", 1));
    RunStep(p, Machine(6, 1, [0, 1, 2]), "acc", 1, Machine(7, 2, [0, 1, 2, 6]));
  }

  lemma ExampleStep4(p: seq<string>)
    requires p == Example
    ensures Run(p, Machine(7, 2, [0, 1, 2, 6])) == Run(p, Machine(3, 2, [0, 1, 2, 6, 7]))
  {
    assert 7 !in [0, 1, 2, 6] && At(p, 7) == Some(Line("jmp", -4));
    RunStep(p, Machine(7, 2, [0, 1, 2, 6]), "jmp", -4, Machine(3, 2, [0, 1, 2, 6, 7]));
  }

  lemma ExampleStep5(p: seq<string>)
    requires p == Example
    ensures Run(p, Machine(3, 2, [0, 1, 2, 6, 7])) == Run(p, Machine(4, 5, [0, 1, 2, 6, 7, 3]))
  {
    assert 3 !in [0, 1, 2, 6, 7] && At(p, 3) == Some(Line("acc", 3));
    RunStep(p, Machine(3, 2, [0, 1, 2, 6, 7]), "acc", 3, Machine(4, 5, [0, 1, 2, 6, 7, 3]));
  }

  lemma ExampleStep6(p: seq<string>)
    requires p == Example
    ensures Run(p, Machine(4, 5, [0, 1, 2, 6, 7, 3])) == Run(p, Machine(1, 5, [0, 1, 2, 6, 7, 3, 4]))
  {
    assert 4 !in [0, 1, 2, 6, 7, 3] && At(p, 4) == Some(Line("jmp", -3));
    RunStep(p, Machine(4, 5, [0, 1, 2, 6, 7, 3]), "jmp", -3, Machine(1, 5, [0, 1, 2, 6, 7, 3, 4]));
  }

  class GameBootLoader {
    var cursor: int
    var accumulator: int
    const instructions: seq<string>
    var processedInstructions: seq<int>

    function State(): Machine
      reads this
    {
      Machine(cursor, accumulator, processedInstructions)
    }

    constructor (instructions: seq<string>)
      ensures this.instructions == instructions
      ensures cursor == 0 && accumulator == 0 && processedInstructions == []
    {
      this.instructions := instructions;
      cursor := 0;
      accumulator := 0;
      processedInstructions := [];
    }

    /** load: runs until a cursor repeats; an exception leaves the state where it was raised. */
    method Load() returns (error: Option<Exception>)
      modifies this
      ensures Run(instructions, old(State())) == Outcome(State(), if error.Some? then Raised(error.value) else Repeated)
    {
      while !RepeatedInstruction()
        invariant Run(instructions, State()) == Run(instructions, old(State()))
        decreases |Unvisited(|instructions|, processedInstructions)|
      {
        var raw := At(instructions, cursor);
        if raw.None? {
          return Some(NoMethodError);
        }
        var instruction := Parse(raw.value);
        if instruction.Err? {
          return Some(instruction.error);
        }
        UnvisitedShrinks(|instructions|, processedInstructions, cursor);
        ExecuteInstruction(instruction.value);
      }
      return None;
    }

    /** execute_instruction: record the cursor, then acc adds to the accumulator, jmp moves the cursor by its argument, anything else moves it by 1. */
    method ExecuteInstruction(instruction: Instruction)
      modifies this
      ensures processedInstructions == old(processedInstructions) + [old(cursor)]
      ensures accumulator == old(accumulator) + (if IsAcc(instruction) then Change(instruction) else 0)
      ensures cursor == old(cursor) + (if IsJmp(instruction) then Change(instruction) else 1)
      ensures State() == Execute(old(State()), instruction)
    {
      processedInstructions := processedInstructions + [cursor];
      if IsAcc(instruction) {
        accumulator := accumulator + Change(instruction);
      }
      cursor := cursor + if IsJmp(instruction) then Change(instruction) else 1;
    }

    predicate RepeatedInstruction()
      reads this
    {
      cursor in processedInstructions
    }
  }

  /** GameBootLoader.load: a fresh loader, run. */
  method Load(instructions: seq<string>) returns (loader: GameBootLoader, error: Option<Exception>)
    ensures fresh(loader) && loader.instructions == instructions
    ensures Run(instructions, Fresh) == Outcome(loader.State(), if error.Some? then Raised(error.value) else Repeated)
  {
    loader := new GameBootLoader(instructions);
    error := loader.Load();
  }

  /** The scenario of TestGameBootLoader. */
  method ReturnsAccumulatorOnFirstDuplicateInstruction()
  {
    var loader, error := Load(Example);
    ExampleRepeatsAtOne();
    assert error.None? && loader.accumulator == 5;
  }
}
