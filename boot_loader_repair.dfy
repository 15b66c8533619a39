/**
 * 2020/08.2.rb: the boot loader of part 2 and the repair search.
 *
 * The loader now also stops when the line at the cursor is nil (complete?),
 * which with Ruby's indexing is any cursor outside -len..len-1. The fixer
 * walks the program in order, flips each jmp/nop line on a copy of the
 * program, loads the copy and stops at the first copy whose run completes.
 */
module BootLoaderRepair {
  import opened Wrappers
  import opened RubyText
  import opened BootCode
  import Part1 = BootLoader

  datatype Halt = Repeated | Completed | Raised(error: Exception)

  /** The state a run stops in and why it stops. */
  datatype Outcome = Outcome(machine: Machine, halt: Halt)

  /**
   * GameBootLoader#load as a function of the state: stop when the cursor
   * was already processed or its line is nil, otherwise parse the line
   * (raising when it has too many fields) and execute it.
   */
  function Run(instructions: seq<string>, m: Machine): (o: Outcome)
    ensures m.processed <= o.machine.processed
    ensures o.halt == Repeated <==> o.machine.cursor in o.machine.processed
    ensures o.halt == Completed <==> o.machine.cursor !in o.machine.processed && At(instructions, o.machine.cursor).None?
    ensures o.halt.Raised? ==> o.halt.error == ArgumentError
    decreases |Unvisited(|instructions|, m.processed)|
  {
    if m.cursor in m.processed then Outcome(m, Repeated)
    else match At(instructions, m.cursor)
      case None => Outcome(m, Completed)
      case Some(raw) =>
        match Parse(raw)
        case Err(e) => Outcome(m, Raised(e))
        case Ok(ins) =>
          UnvisitedShrinks(|instructions|, m.processed, m.cursor);
          Run(instructions, Execute(m, ins))
  }

  /** A run from a state on the execution path ends on the execution path. */
  lemma {:induction false} RunKeepsTrace(instructions: seq<string>, m: Machine)
    requires Trace(instructions, m)
    ensures Trace(instructions, Run(instructions, m).machine)
    decreases |Unvisited(|instructions|, m.processed)|
  {
    if m.cursor !in m.processed && Decodes(instructions, m.cursor) {
      TraceStep(instructions, m);
      UnvisitedShrinks(|instructions|, m.processed, m.cursor);
      RunKeepsTrace(instructions, Execute(m, Decoded(instructions, m.cursor)));
    }
  }

  /**
   * A run from a fresh loader executes only lines that exist and parse,
   * each cursor at most once, accumulates the acc arguments on its path and
   * takes at most twice the program length steps.
   */
  lemma FreshRun(instructions: seq<string>)
    ensures Trace(instructions, Run(instructions, Fresh).machine)
    ensures |Run(instructions, Fresh).machine.processed| <= 2 * |instructions|
  {
    FreshTrace(instructions);
    RunKeepsTrace(instructions, Fresh);
    TraceBound(instructions, Run(instructions, Fresh).machine);
  }

  /**
   * Both loaders take the same steps; where part 2 stops because the line
   * is nil, part 1 raises NoMethodError parsing that nil.
   */
  lemma {:induction false} AgreesWithPart1(instructions: seq<string>, m: Machine)
    ensures Part1.Run(instructions, m).machine == Run(instructions, m).machine
    ensures Run(instructions, m).halt == Repeated <==> Part1.Run(instructions, m).halt == Part1.Repeated
    ensures Run(instructions, m).halt == Completed <==> Part1.Run(instructions, m).halt == Part1.Raised(NoMethodError)
    ensures Run(instructions, m).halt == Raised(ArgumentError) <==> Part1.Run(instructions, m).halt == Part1.Raised(ArgumentError)
    decreases |Unvisited(|instructions|, m.processed)|
  {
    if m.cursor !in m.processed && Decodes(instructions, m.cursor) {
      UnvisitedShrinks(|instructions|, m.processed, m.cursor);
      AgreesWithPart1(instructions, Execute(m, Decoded(instructions, m.cursor)));
    }
  }

  // ---------------------------------------------------------------------------
  // The repair search of BootLoadFixer.fix

  /** The line at `index` parses and is not an acc: fix tries flipping it. */
  predicate Flippable(instructions: seq<string>, index: int)
  {
    0 <= index < |instructions| && Parse(instructions[index]).Ok? && !IsAcc(Parse(instructions[index]).value)
  }

  /** instruction.action = instruction.nop? ? "jmp" : "nop" */
  function Flip(ins: Instruction): (r: Instruction)
    ensures r.changeStr == ins.changeStr
    ensures IsNop(ins) ==> IsJmp(r)
    ensures !IsNop(ins) ==> IsNop(r)
  {
    ins.(action := if IsNop(ins) then "jmp" else "nop")
  }

  /** new_instructions = instructions.dup; new_instructions[index] = instruction.to_s */
  function Candidate(instructions: seq<string>, index: nat, ins: Instruction): seq<string>
    requires index < |instructions|
  {
    instructions[index := ToS(Flip(ins))]
  }

  /** The copy fix loads for a flippable line. */
  function CandidateAt(instructions: seq<string>, index: int): seq<string>
    requires Flippable(instructions, index)
  {
    Candidate(instructions, index, Parse(instructions[index]).value)
  }

  /**
   * The copy differs from the program only at `index`, where the parsed
   * line comes back with jmp for nop, nop for anything else, and its
   * argument text kept; acc lines are never altered.
   */
  lemma CandidateFlipsOneLine(instructions: seq<string>, index: int)
    requires Flippable(instructions, index)
    ensures |CandidateAt(instructions, index)| == |instructions|
    ensures forall j :: 0 <= j < |instructions| && j != index ==> CandidateAt(instructions, index)[j] == instructions[j]
    ensures var ins := Parse(instructions[index]).value;
      Parse(CandidateAt(instructions, index)[index]) == Ok(Instruction(if IsNop(ins) then "jmp" else "nop", ins.changeStr))
    ensures !IsAcc(Parse(CandidateAt(instructions, index)[index]).value)
  {
    var ins := Parse(instructions[index]).value;
    ParseOfToS(Flip(ins));
  }

  /** One attempted loader: which line was flipped and how the copy ran. */
  datatype Attempt = Attempt(index: nat, outcome: Outcome)

  /**
   * fix from line `index` on, with `last` the loader attempted so far:
   * every line is parsed (raising on too many fields), acc lines are
   * skipped, any other line is flipped and the copy loaded; a completed run
   * ends the search, and at the end the last attempted loader is returned.
   */
  function Search(instructions: seq<string>, index: nat, last: Option<Attempt>): (r: Result<Option<Attempt>, Exception>)
    ensures r.Err? ==> r.error == ArgumentError
    ensures r == Ok(None) ==> last.None?
    decreases |instructions| - index
  {
    if index >= |instructions| then Ok(last)
    else match Parse(instructions[index])
      case Err(e) => Err(e)
      case Ok(ins) =>
        if IsAcc(ins) then Search(instructions, index + 1, last)
        else
          var o := Run(Candidate(instructions, index, ins), Fresh);
          if o.halt.Raised? then Err(o.halt.error)
          else if o.halt == Completed then Ok(Some(Attempt(index, o)))
          else Search(instructions, index + 1, Some(Attempt(index, o)))
  }

  /** Every line from `index` up to `bound` parses, and flipping any of them gives a run that repeats. */
  ghost predicate AllRepeat(instructions: seq<string>, index: int, bound: int)
  {
    forall j :: index <= j < bound && 0 <= j < |instructions| ==>
      Parse(instructions[j]).Ok? && (Flippable(instructions, j) ==> Run(CandidateAt(instructions, j), Fresh).halt == Repeated)
  }

  /** The attempt made by flipping line `index`. */
  ghost predicate AttemptAt(instructions: seq<string>, a: Attempt)
  {
    Flippable(instructions, a.index) && a.outcome == Run(CandidateAt(instructions, a.index), Fresh)
  }

  /** No line from `index` on is flippable. */
  ghost predicate NoneFlippable(instructions: seq<string>, index: int)
  {
    forall j :: index <= j < |instructions| ==> !Flippable(instructions, j)
  }

  /** A search that returns a completed attempt found it at the first flippable line whose copy completes. */
  lemma {:induction false} SearchCompleted(instructions: seq<string>, index: nat, last: Option<Attempt>)
    requires last.None? || last.value.outcome.halt == Repeated
    requires Search(instructions, index, last).Ok? && Search(instructions, index, last).value.Some?
    requires Search(instructions, index, last).value.value.outcome.halt == Completed
    ensures var a := Search(instructions, index, last).value.value;
      index <= a.index < |instructions| && AttemptAt(instructions, a) && AllRepeat(instructions, index, a.index)
    decreases |instructions| - index
  {
    if index < |instructions| {
      var ins := Parse(instructions[index]).value;
      if IsAcc(ins) {
        SearchCompleted(instructions, index + 1, last);
        AllRepeatExtend(instructions, index, Search(instructions, index, last).value.value.index);
      } else {
        var o := Run(Candidate(instructions, index, ins), Fresh);
        if o.halt == Repeated {
          SearchCompleted(instructions, index + 1, Some(Attempt(index, o)));
          AllRepeatExtend(instructions, index, Search(instructions, index, last).value.value.index);
        }
      }
    }
  }

  lemma AllRepeatExtend(instructions: seq<string>, index: nat, bound: int)
    requires index < |instructions| && Parse(instructions[index]).Ok?
    requires Flippable(instructions, index) ==> Run(CandidateAt(instructions, index), Fresh).halt == Repeated
    requires AllRepeat(instructions, index + 1, bound)
    ensures AllRepeat(instructions, index, bound)
  {
  }

  /** A search that returns an attempt that did not complete went through every line, and all of them repeat. */
  lemma {:induction false} SearchExhausted(instructions: seq<string>, index: nat, last: Option<Attempt>)
    requires last.None? || last.value.outcome.halt == Repeated
    requires Search(instructions, index, last).Ok? && Search(instructions, index, last).value.Some?
    requires Search(instructions, index, last).value.value.outcome.halt != Completed
    ensures Search(instructions, index, last).value.value.outcome.halt == Repeated
    ensures AllRepeat(instructions, index, |instructions|)
    decreases |instructions| - index
  {
    if index < |instructions| {
      var ins := Parse(instructions[index]).value;
      if IsAcc(ins) {
        SearchExhausted(instructions, index + 1, last);
      } else {
        var o := Run(Candidate(instructions, index, ins), Fresh);
        assert o.halt == Repeated;
        SearchExhausted(instructions, index + 1, Some(Attempt(index, o)));
      }
      AllRepeatExtend(instructions, index, |instructions|);
    }
  }

  /**
   * The attempt such a search returns is the one it was given, when no
   * line is flippable, or else that of the last flippable line.
   */
  lemma {:induction false} SearchLastAttempt(instructions: seq<string>, index: nat, last: Option<Attempt>)
    requires Search(instructions, index, last).Ok? && Search(instructions, index, last).value.Some?
    requires Search(instructions, index, last).value.value.outcome.halt != Completed
    ensures LastAttempt(instructions, index, last, Search(instructions, index, last).value)
    decreases |instructions| - index, 1
  {
    if index < |instructions| {
      var ins := Parse(instructions[index]).value;
      if IsAcc(ins) {
        SearchLastAttempt(instructions, index + 1, last);
        assert !Flippable(instructions, index);
      } else {
        SearchLastAttemptFlip(instructions, index, last);
      }
    }
  }

  lemma {:induction false} SearchLastAttemptFlip(instructions: seq<string>, index: nat, last: Option<Attempt>)
    requires Flippable(instructions, index)
    requires Search(instructions, index, last).Ok? && Search(instructions, index, last).value.Some?
    requires Search(instructions, index, last).value.value.outcome.halt != Completed
    ensures LastAttempt(instructions, index, last, Search(instructions, index, last).value)
    decreases |instructions| - index, 0
  {
    var a := Attempt(index, Run(CandidateAt(instructions, index), Fresh));
    assert Search(instructions, index, last) == Search(instructions, index + 1, Some(a));
    SearchLastAttempt(instructions, index + 1, Some(a));
    assert AttemptAt(instructions, a);
  }

  /** `r` is `last` and no line from `index` on is flippable, or `r` is the attempt at the last flippable line. */
  ghost predicate LastAttempt(instructions: seq<string>, index: int, last: Option<Attempt>, r: Option<Attempt>)
  {
    || (r == last && NoneFlippable(instructions, index))
    || (r.Some? && index <= r.value.index < |instructions| && AttemptAt(instructions, r.value)
        && NoneFlippable(instructions, r.value.index + 1))
  }

  /** A search that returns nil found no flippable line and was given nil. */
  lemma {:induction false} SearchNil(instructions: seq<string>, index: nat, last: Option<Attempt>)
    requires Search(instructions, index, last) == Ok(None)
    ensures last.None? && AllRepeat(instructions, index, |instructions|) && NoneFlippable(instructions, index)
    decreases |instructions| - index
  {
    if index < |instructions| {
      SearchNil(instructions, index + 1, last);
    }
  }

  /**
   * fix, from the whole program: it raises only ArgumentError; it returns
   * nil exactly when every line parses and is an acc; otherwise it returns
   * the loader of a flipped line, which is the first line, in program
   * order, whose copy completes, or else the last flippable line, whose
   * copy repeats like all the others.
   */
  lemma FixResult(instructions: seq<string>)
    ensures var r := Search(instructions, 0, None);
      && (r.Err? ==> r.error == ArgumentError)
      && (r == Ok(None) ==> AllRepeat(instructions, 0, |instructions|) && NoneFlippable(instructions, 0))
      && (r.Ok? && r.value.Some? ==>
            var a := r.value.value;
            && AttemptAt(instructions, a)
            && (a.outcome.halt == Completed ==> AllRepeat(instructions, 0, a.index))
            && (a.outcome.halt != Completed ==>
                  a.outcome.halt == Repeated && AllRepeat(instructions, 0, |instructions|)
                  && NoneFlippable(instructions, a.index + 1)))
  {
    var r := Search(instructions, 0, None);
    if r == Ok(None) {
      SearchNil(instructions, 0, None);
    } else if r.Ok? && r.value.value.outcome.halt == Completed {
      SearchCompleted(instructions, 0, None);
    } else if r.Ok? {
      SearchExhausted(instructions, 0, None);
      SearchLastAttempt(instructions, 0, None);
    }
  }

  /** When the flip of line `k` completes and every earlier line parses and flips to a repeating copy, the search stops at `k`. */
  lemma {:induction false} SearchReaches(instructions: seq<string>, index: nat, last: Option<Attempt>, k: int)
    requires index <= k && Flippable(instructions, k)
    requires Run(CandidateAt(instructions, k), Fresh).halt == Completed
    requires AllRepeat(instructions, index, k)
    ensures Search(instructions, index, last) == Ok(Some(Attempt(k, Run(CandidateAt(instructions, k), Fresh))))
    decreases |instructions| - index
  {
    if index < k {
      var ins := Parse(instructions[index]).value;
      if IsAcc(ins) {
        SearchReaches(instructions, index + 1, last, k);
      } else {
        SearchReaches(instructions, index + 1, Some(Attempt(index, Run(Candidate(instructions, index, ins), Fresh))), k);
      }
    }
  }

  /** When every line parses and none is flippable, the search returns what it was given. */
  lemma {:induction false} SearchNothingToFlip(instructions: seq<string>, index: nat, last: Option<Attempt>)
    requires AllRepeat(instructions, index, |instructions|) && NoneFlippable(instructions, index)
    ensures Search(instructions, index, last) == Ok(last)
    decreases |instructions| - index
  {
    if index < |instructions| {
      assert !Flippable(instructions, index);
      SearchNothingToFlip(instructions, index + 1, last);
    }
  }

  /** fix returns nil exactly when every line parses and is an acc. */
  lemma FixNilIffAllAcc(instructions: seq<string>)
    ensures Search(instructions, 0, None) == Ok(None) <==>
      forall j :: 0 <= j < |instructions| ==> Parse(instructions[j]).Ok? && IsAcc(Parse(instructions[j]).value)
  {
    if forall j :: 0 <= j < |instructions| ==> Parse(instructions[j]).Ok? && IsAcc(Parse(instructions[j]).value) {
      SearchNothingToFlip(instructions, 0, None);
    } else if Search(instructions, 0, None) == Ok(None) {
      SearchNil(instructions, 0, None);
      forall j | 0 <= j < |instructions|
        ensures Parse(instructions[j]).Ok? && IsAcc(Parse(instructions[j]).value)
      {
        assert !Flippable(instructions, j);
      }
    }
  }

  // ---------------------------------------------------------------------------
  // The classes

  class GameBootLoader {
    var cursor: int
    var accumulator: int
    const instructions: seq<string>
    var processedInstructions: seq<int>

    function State(): Machine
      reads this
    {
      Machine(cursor, accumulator, processedInstructions)
    }

    constructor (instructions: seq<string>)
      ensures this.instructions == instructions
      ensures cursor == 0 && accumulator == 0 && processedInstructions == []
    {
      this.instructions := instructions;
      cursor := 0;
      accumulator := 0;
      processedInstructions := [];
    }

    /** load: runs until the cursor repeats or its line is nil; an exception leaves the state where it was raised. */
    method Load() returns (error: Option<Exception>)
      modifies this
      ensures Run(instructions, old(State())) == Outcome(State(),
        if error.Some? then Raised(error.value) else if AlreadyProcessed() then Repeated else Completed)
    {
      while !(AlreadyProcessed() || Complete())
        invariant Run(instructions, State()) == Run(instructions, old(State()))
        decreases |Unvisited(|instructions|, processedInstructions)|
      {
        var instruction := Parse(At(instructions, cursor).value);
        if instruction.Err? {
          return Some(instruction.error);
        }
        UnvisitedShrinks(|instructions|, processedInstructions, cursor);
        ExecuteInstruction(instruction.value);
      }
      return None;
    }

    predicate AlreadyProcessed()
      reads this
    {
      cursor in processedInstructions
    }

    /** complete?: the line at the cursor is nil. */
    predicate Complete()
      reads this
    {
      At(instructions, cursor).None?
    }

    /** execute_instruction: the same step as part 1. */
    method ExecuteInstruction(instruction: Instruction)
      modifies this
      ensures processedInstructions == old(processedInstructions) + [old(cursor)]
      ensures accumulator == old(accumulator) + (if IsAcc(instruction) then Change(instruction) else 0)
      ensures cursor == old(cursor) + (if IsJmp(instruction) then Change(instruction) else 1)
      ensures State() == Execute(old(State()), instruction)
    {
      processedInstructions := processedInstructions + [cursor];
      if IsAcc(instruction) {
        accumulator := accumulator + Change(instruction);
      }
      cursor := cursor + if IsJmp(instruction) then Change(instruction) else 1;
    }
  }

  /** GameBootLoader.load: a fresh loader, run. */
  method Load(instructions: seq<string>) returns (loader: GameBootLoader, error: Option<Exception>)
    ensures fresh(loader) && loader.instructions == instructions
    ensures Run(instructions, Fresh) == Outcome(loader.State(),
      if error.Some? then Raised(error.value) else if loader.Complete() then Completed else Repeated)
  {
    loader := new GameBootLoader(instructions);
    error := loader.Load();
    FreshRun(instructions);
  }

  class BootLoadFixer {
    /**
     * fix: the loader Search describes (nil for none), built over the
     * program with that attempt's line flipped, or the exception raised on
     * the way. The caller's program is a value and stays as it was.
     */
    static method Fix(instructions: seq<string>) returns (bootLoader: GameBootLoader?, error: Option<Exception>)
      ensures error.Some? <==> Search(instructions, 0, None).Err?
      ensures error.Some? ==> error.value == Search(instructions, 0, None).error
      ensures error.None? ==> (bootLoader == null <==> Search(instructions, 0, None).value.None?)
      ensures error.None? && bootLoader != null ==>
        Search(instructions, 0, None).value.value.outcome
          == Outcome(bootLoader.State(), if bootLoader.Complete() then Completed else Repeated)
      ensures error.None? && bootLoader != null ==>
        && Flippable(instructions, Search(instructions, 0, None).value.value.index)
        && bootLoader.instructions == CandidateAt(instructions, Search(instructions, 0, None).value.value.index)
    {
      bootLoader := null;
      ghost var last: Option<Attempt> := None;
      var index := 0;
      while index < |instructions|
        invariant 0 <= index <= |instructions|
        invariant Search(instructions, 0, None) == Search(instructions, index, last)
        invariant bootLoader == null <==> last.None?
        invariant bootLoader != null ==> last.value.outcome == Outcome(bootLoader.State(), Repeated) && !bootLoader.Complete()
        invariant bootLoader != null ==>
          && last.value.index < |instructions| && Flippable(instructions, last.value.index)
          && bootLoader.instructions == CandidateAt(instructions, last.value.index)
      {
        var instruction := Parse(instructions[index]);
        if instruction.Err? {
          return null, Some(instruction.error);
        }
        var ins := instruction.value;
        if IsAcc(ins) {
          index := index + 1;
          continue;
        }
        ins := ins.(action := if IsNop(ins) then "jmp" else "nop");
        var newInstructions := instructions[index := ToS(ins)];
        var loader, raised := Load(newInstructions);
        if raised.Some? {
          return null, raised;
        }
        bootLoader := loader;
        last := Some(Attempt(index, Outcome(loader.State(), if loader.Complete() then Completed else Repeated)));
        if bootLoader.Complete() {
          return bootLoader, None;
        }
        index := index + 1;
      }
      error := None;
    }
  }
  // ---------------------------------------------------------------------------
  // The scenario of TestBootLoaderFixer

  /** One step of a run over a line "op +n" / "op -n" that has not been processed yet. */
  lemma RunStep(instructions: seq<string>, m: Machine, op: string, n: int, next: Machine)
    requires op != [] && All(op, IsNonSpace)
    requires m.cursor !in m.processed && At(instructions, m.cursor) == Some(Line(op, n))
    requires next == Machine(
      if op == "jmp" then m.cursor + n else m.cursor + 1,
      if op == "acc" then m.accumulator + n else m.accumulator,
      m.processed + [m.cursor])
    ensures Run(instructions, m) == Run(instructions, next)
  {
    LineParses(op, n);
    assert Execute(m, Instruction(op, SignedText(n))) == next;
  }

  /** The copy fix makes of a jmp/nop line written "op +n" / "op -n". */
  lemma CandidateOfLine(instructions: seq<string>, index: int, op: string, n: int)
    requires 0 <= index < |instructions| && instructions[index] == Line(op, n)
    requires op == "jmp" || op == "nop"
    ensures Flippable(instructions, index)
    ensures CandidateAt(instructions, index) == instructions[index := Line(if op == "nop" then "jmp" else "nop", n)]
  {
    LineParses(op, n);
  }

  /** Flipping line 0: the copy's run repeats. */
  lemma ExampleFlip0(p: seq<string>)
    requires p == Part1.Example
    ensures Flippable(p, 0)
    ensures Run(CandidateAt(p, 0), Fresh) == Outcome(Machine(0, 0, [0]), Repeated)
  {
    CandidateOfLine(p, 0, "nop", 0);
    ExampleFlip0Run(CandidateAt(p, 0));
  }

  lemma ExampleFlip0Run(q: seq<string>)
    requires q == Part1.Example[0 := Line("jmp", 0)]
    ensures Run(q, Fresh) == Outcome(Machine(0, 0, [0]), Repeated)
  {
    ExampleFlip0Step0(q);
    assert 0 in [0];
  }

  lemma ExampleFlip0Step0(q: seq<string>)
    requires q == Part1.Example[0 := Line("jmp", 0)]
    ensures Run(q, Machine(0, 0, [])) == Run(q, Machine(0, 0, [0]))
  {
    assert 0 !in [] && At(q, 0) == Some(Line("jmp", 0));
    RunStep(q, Machine(0, 0, []), "jmp", 0, Machine(0, 0, [0]));
  }

  /** Flipping line 2: the copy's run repeats. */
  lemma ExampleFlip2(p: seq<string>)
    requires p == Part1.Example
    ensures Flippable(p, 2)
    ensures Run(CandidateAt(p, 2), Fresh) == Outcome(Machine(1, 4, [0, 1, 2, 3, 4]), Repeated)
  {
    CandidateOfLine(p, 2, "jmp", 4);
    ExampleFlip2Run(CandidateAt(p, 2));
  }

  lemma ExampleFlip2Run(q: seq<string>)
    requires q == Part1.Example[2 := Line("nop", 4)]
    ensures Run(q, Fresh) == Outcome(Machine(1, 4, [0, 1, 2, 3, 4]), Repeated)
  {
    ExampleFlip2Step0(q);
    ExampleFlip2Step1(q);
    ExampleFlip2Step2(q);
    ExampleFlip2Step3(q);
    ExampleFlip2Step4(q);
    assert 1 in [0, 1, 2, 3, 4];
  }

  lemma ExampleFlip2Step0(q: seq<string>)
    requires q == Part1.Example[2 := Line("nop", 4)]
    ensures Run(q, Machine(0, 0, [])) == Run(q, Machine(1, 0, [0]))
  {
    assert 0 !in [] && At(q, 0) == Some(Line("nop", 0));
    RunStep(q, Machine(0, 0, []), "nop", 0, Machine(1, 0, [0]));
  }

  lemma ExampleFlip2Step1(q: seq<string>)
    requires q == Part1.Example[2 := Line("nop", 4)]
    ensures Run(q, Machine(1, 0, [0])) == Run(q, Machine(2, 1, [0, 1]))
  {
    assert 1 !in [0] && At(q, 1) == Some(Line("acc", 1));
    RunStep(q, Machine(1, 0, [0]), "acc", 1, Machine(2, 1, [0, 1]));
  }

  lemma ExampleFlip2Step2(q: seq<string>)
    requires q == Part1.Example[2 := Line("nop", 4)]
    ensures Run(q, Machine(2, 1, [0, 1])) == Run(q, Machine(3, 1, [0, 1, 2]))
  {
    assert 2 !in [0, 1] && At(q, 2) == Some(Line("nop", 4));
    RunStep(q, Machine(2, 1, [0, 1]), "nop", 4, Machine(3, 1, [0, 1, 2]));
  }

  lemma ExampleFlip2Step3(q: seq<string>)
    requires q == Part1.Example[2 := Line("nop", 4)]
    ensures Run(q, Machine(3, 1, [0, 1, 2])) == Run(q, Machine(4, 4, [0, 1, 2, 3]))
  {
    assert 3 !in [0, 1, 2] && At(q, 3) == Some(Line("acc", 3));
    RunStep(q, Machine(3, 1, [0, 1, 2]), "acc", 3, Machine(4, 4, [0, 1, 2, 3]));
  }

  lemma ExampleFlip2Step4(q: seq<string>)
    requires q == Part1.Example[2 := Line("nop", 4)]
    ensures Run(q, Machine(4, 4, [0, 1, 2, 3])) == Run(q, Machine(1, 4, [0, 1, 2, 3, 4]))
  {
    assert 4 !in [0, 1, 2, 3] && At(q, 4) == Some(Line("jmp", -3));
    RunStep(q, Machine(4, 4, [0, 1, 2, 3]), "jmp", -3, Machine(1, 4, [0, 1, 2, 3, 4]));
  }

  /** Flipping line 4: the copy's run repeats. */
  lemma ExampleFlip4(p: seq<string>)
    requires p == Part1.Example
    ensures Flippable(p, 4)
    ensures Run(CandidateAt(p, 4), Fresh) == Outcome(Machine(6, -94, [0, 1, 2, 6, 7, 3, 4, 5]), Repeated)
  {
    CandidateOfLine(p, 4, "jmp", -3);
    ExampleFlip4Run(CandidateAt(p, 4));
  }

  lemma ExampleFlip4Run(q: seq<string>)
    requires q == Part1.Example[4 := Line("nop", -3)]
    ensures Run(q, Fresh) == Outcome(Machine(6, -94, [0, 1, 2, 6, 7, 3, 4, 5]), Repeated)
  {
    ExampleFlip4Step0(q);
    ExampleFlip4Step1(q);
    ExampleFlip4Step2(q);
    ExampleFlip4Step3(q);
    ExampleFlip4Step4(q);
    ExampleFlip4Step5(q);
    ExampleFlip4Step6(q);
    ExampleFlip4Step7(q);
    assert 6 in [0, 1, 2, 6, 7, 3, 4, 5];
  }

  lemma ExampleFlip4Step0(q: seq<string>)
    requires q == Part1.Example[4 := Line("nop", -3)]
    ensures Run(q, Machine(0, 0, [])) == Run(q, Machine(1, 0, [0]))
  {
    assert 0 !in [] && At(q, 0) == Some(Line("nop", 0));
    RunStep(q, Machine(0, 0, []), "nop", 0, Machine(1, 0, [0]));
  }

  lemma ExampleFlip4Step1(q: seq<string>)
    requires q == Part1.Example[4 := Line("nop", -3)]
    ensures Run(q, Machine(1, 0, [0])) == Run(q, Machine(2, 1, [0, 1]))
  {
    assert 1 !in [0] && At(q, 1) == Some(Line("acc", 1));
    RunStep(q, Machine(1, 0, [0]), "acc", 1, Machine(2, 1, [0, 1]));
  }

  lemma ExampleFlip4Step2(q: seq<string>)
    requires q == Part1.Example[4 := Line("nop", -3)]
    ensures Run(q, Machine(2, 1, [0, 1])) == Run(q, Machine(6, 1, [0, 1, 2]))
  {
    assert 2 !in [0, 1] && At(q, 2) == Some(Line("jmp", 4));
    RunStep(q, Machine(2, 1, [0, 1]), "jmp", 4, Machine(6, 1, [0, 1, 2]));
  }

  lemma ExampleFlip4Step3(q: seq<string>)
    requires q == Part1.Example[4 := Line("nop", -3)]
    ensures Run(q, Machine(6, 1, [0, 1, 2])) == Run(q, Machine(7, 2, [0, 1, 2, 6]))
  {
    assert 6 !in [0, 1, 2] && At(q, 6) == Some(Line("acc", 1));
    RunStep(q, Machine(6, 1, [0, 1, 2]), "acc", 1, Machine(7, 2, [0, 1, 2, 6]));
  }

  lemma ExampleFlip4Step4(q: seq<string>)
    requires q == Part1.Example[4 := Line("nop", -3)]
    ensures Run(q, Machine(7, 2, [0, 1, 2, 6])) == Run(q, Machine(3, 2, [0, 1, 2, 6, 7]))
  {
    assert 7 !in [0, 1, 2, 6] && At(q, 7) == Some(Line("jmp", -4));
    RunStep(q, Machine(7, 2, [0, 1, 2, 6]), "jmp", -4, Machine(3, 2, [0, 1, 2, 6, 7]));
  }

  lemma ExampleFlip4Step5(q: seq<string>)
    requires q == Part1.Example[4 := Line("nop", -3)]
    ensures Run(q, Machine(3, 2, [0, 1, 2, 6, 7])) == Run(q, Machine(4, 5, [0, 1, 2, 6, 7, 3]))
  {
    assert 3 !in [0, 1, 2, 6, 7] && At(q, 3) == Some(Line("acc", 3));
    RunStep(q, Machine(3, 2, [0, 1, 2, 6, 7]), "acc", 3, Machine(4, 5, [0, 1, 2, 6, 7, 3]));
  }

  lemma ExampleFlip4Step6(q: seq<string>)
    requires q == Part1.Example[4 := Line("nop", -3)]
    ensures Run(q, Machine(4, 5, [0, 1, 2, 6, 7, 3])) == Run(q, Machine(5, 5, [0, 1, 2, 6, 7, 3, 4]))
  {
    assert 4 !in [0, 1, 2, 6, 7, 3] && At(q, 4) == Some(Line("nop", -3));
    RunStep(q, Machine(4, 5, [0, 1, 2, 6, 7, 3]), "nop", -3, Machine(5, 5, [0, 1, 2, 6, 7, 3, 4]));
  }

  lemma ExampleFlip4Step7(q: seq<string>)
    requires q == Part1.Example[4 := Line("nop", -3)]
    ensures Run(q, Machine(5, 5, [0, 1, 2, 6, 7, 3, 4])) == Run(q, Machine(6, -94, [0, 1, 2, 6, 7, 3, 4, 5]))
  {
    assert 5 !in [0, 1, 2, 6, 7, 3, 4] && At(q, 5) == Some(Line("acc", -99));
    RunStep(q, Machine(5, 5, [0, 1, 2, 6, 7, 3, 4]), "acc", -99, Machine(6, -94, [0, 1, 2, 6, 7, 3, 4, 5]));
  }

  /** Flipping line 7: the copy's run completes. */
  lemma ExampleFlip7(p: seq<string>)
    requires p == Part1.Example
    ensures Flippable(p, 7)
    ensures Run(CandidateAt(p, 7), Fresh) == Outcome(Machine(9, 8, [0, 1, 2, 6, 7, 8]), Completed)
  {
    CandidateOfLine(p, 7, "jmp", -4);
    ExampleFlip7Run(CandidateAt(p, 7));
  }

  lemma ExampleFlip7Run(q: seq<string>)
    requires q == Part1.Example[7 := Line("nop", -4)]
    ensures Run(q, Fresh) == Outcome(Machine(9, 8, [0, 1, 2, 6, 7, 8]), Completed)
  {
    ExampleFlip7Step0(q);
    ExampleFlip7Step1(q);
    ExampleFlip7Step2(q);
    ExampleFlip7Step3(q);
    ExampleFlip7Step4(q);
    ExampleFlip7Step5(q);
    assert 9 !in [0, 1, 2, 6, 7, 8] && At(q, 9).None?;
  }

  lemma ExampleFlip7Step0(q: seq<string>)
    requires q == Part1.Example[7 := Line("nop", -4)]
    ensures Run(q, Machine(0, 0, [])) == Run(q, Machine(1, 0, [0]))
  {
    assert 0 !in [] && At(q, 0) == Some(Line("nop", 0));
    RunStep(q, Machine(0, 0, []), "nop", 0, Machine(1, 0, [0]));
  }

  lemma ExampleFlip7Step1(q: seq<string>)
    requires q == Part1.Example[7 := Line("nop", -4)]
    ensures Run(q, Machine(1, 0, [0])) == Run(q, Machine(2, 1, [0, 1]))
  {
    assert 1 !in [0] && At(q, 1) == Some(Line("acc", 1));
    RunStep(q, Machine(1, 0, [0]), "acc", 1, Machine(2, 1, [0, 1]));
  }

  lemma ExampleFlip7Step2(q: seq<string>)
    requires q == Part1.Example[7 := Line("nop", -4)]
    ensures Run(q, Machine(2, 1, [0, 1])) == Run(q, Machine(6, 1, [0, 1, 2]))
  {
    assert 2 !in [0, 1] && At(q, 2) == Some(Line("jmp", 4));
    RunStep(q, Machine(2, 1, [0, 1]), "jmp", 4, Machine(6, 1, [0, 1, 2]));
  }

  lemma ExampleFlip7Step3(q: seq<string>)
    requires q == Part1.Example[7 := Line("nop", -4)]
    ensures Run(q, Machine(6, 1, [0, 1, 2])) == Run(q, Machine(7, 2, [0, 1, 2, 6]))
  {
    assert 6 !in [0, 1, 2] && At(q, 6) == Some(Line("acc", 1));
    RunStep(q, Machine(6, 1, [0, 1, 2]), "acc", 1, Machine(7, 2, [0, 1, 2, 6]));
  }

  lemma ExampleFlip7Step4(q: seq<string>)
    requires q == Part1.Example[7 := Line("nop", -4)]
    ensures Run(q, Machine(7, 2, [0, 1, 2, 6])) == Run(q, Machine(8, 2, [0, 1, 2, 6, 7]))
  {
    assert 7 !in [0, 1, 2, 6] && At(q, 7) == Some(Line("nop", -4));
    RunStep(q, Machine(7, 2, [0, 1, 2, 6]), "nop", -4, Machine(8, 2, [0, 1, 2, 6, 7]));
  }

  lemma ExampleFlip7Step5(q: seq<string>)
    requires q == Part1.Example[7 := Line("nop", -4)]
    ensures Run(q, Machine(8, 2, [0, 1, 2, 6, 7])) == Run(q, Machine(9, 8, [0, 1, 2, 6, 7, 8]))
  {
    assert 8 !in [0, 1, 2, 6, 7] && At(q, 8) == Some(Line("acc", 6));
    RunStep(q, Machine(8, 2, [0, 1, 2, 6, 7]), "acc", 6, Machine(9, 8, [0, 1, 2, 6, 7, 8]));
  }

  /** The example program is repaired by flipping line 7, and the run of the copy ends with the accumulator at 8. */
  lemma ExampleRepaired()
    ensures Search(Part1.Example, 0, None) == Ok(Some(Attempt(7, Outcome(Machine(9, 8, [0, 1, 2, 6, 7, 8]), Completed))))
  {
    ExampleSearch(Part1.Example);
  }

  lemma ExampleSearch(p: seq<string>)
    requires p == Part1.Example
    ensures Search(p, 0, None) == Ok(Some(Attempt(7, Outcome(Machine(9, 8, [0, 1, 2, 6, 7, 8]), Completed))))
  {
    ExampleFlip7(p);
    ExampleEarlierFlipsRepeat(p);
    SearchReaches(p, 0, None, 7);
  }

  /** Lines 0 to 6 of the example parse, and flipping any of them gives a copy that repeats. */
  lemma ExampleEarlierFlipsRepeat(p: seq<string>)
    requires p == Part1.Example
    ensures AllRepeat(p, 0, 7)
  {
    forall j | 0 <= j < 7
      ensures Parse(p[j]).Ok? && (Flippable(p, j) ==> Run(CandidateAt(p, j), Fresh).halt == Repeated)
    {
      if j == 0 {
        ExampleFlip0(p);
      } else if j == 2 {
        ExampleFlip2(p);
      } else if j == 4 {
        ExampleFlip4(p);
      } else {
        var n := if j == 3 then 3 else if j == 5 then -99 else 1;
        assert p[j] == Line("acc", n);
        LineParses("acc", n);
      }
    }
  }

  /** TestBootLoaderFixer#test_returns_accumulator_on_first_duplicate_instruction */
  method ReturnsAccumulatorOfRepairedProgram()
  {
    var bootLoader, error := BootLoadFixer.Fix(Part1.Example);
    ExampleRepaired();
    assert error.None? && bootLoader != null && bootLoader.accumulator == 8;
  }
}
