/**
 * What 2020/08.rb and 2020/08.2.rb share word for word: the Instruction
 * struct, Ruby's array indexing, and the effect of one executed instruction
 * on the loader's cursor, accumulator and list of processed cursors.
 */
module BootCode {
  import opened Wrappers
  import opened RubyText

  /** The Ruby exceptions a boot loader run can raise. */
  datatype Exception =
    | NoMethodError   // parsing the nil read past the end of the program
    | ArgumentError   // Struct.new given more than two fields

  /**
   * GameBootLoader::Instruction, a Struct of action and change_str.
   * A field that split(" ") leaves nil is written "" here: string
   * interpolation, to_i and == treat nil and "" alike.
   */
  datatype Instruction = Instruction(action: string, changeStr: string)

  /** Instruction.parse: the fields of `raw` fed to Struct.new. There is no format check. */
  function Parse(raw: string): (r: Result<Instruction, Exception>)
    ensures r.Ok? <==> |Fields(raw)| <= 2
    ensures r.Err? ==> r.error == ArgumentError
    ensures r.Ok? ==> All(r.value.action, IsNonSpace) && All(r.value.changeStr, IsNonSpace)
  {
    var f := Fields(raw);
    if |f| > 2 then Err(ArgumentError)
    else Ok(Instruction(if |f| > 0 then f[0] else "", if |f| > 1 then f[1] else ""))
  }

  /** Instruction#to_s */
  function ToS(ins: Instruction): string
  {
    ins.action + " " + ins.changeStr
  }

  /** Instruction#change: String#to_i of the argument text, 0 when it is not numeric. */
  function Change(ins: Instruction): int
  {
    ToI(ins.changeStr)
  }

  predicate IsJmp(ins: Instruction) { ins.action == "jmp" }

  predicate IsAcc(ins: Instruction) { ins.action == "acc" }

  predicate IsNop(ins: Instruction) { ins.action == "nop" }

  /** A well-formed line "op arg" parses into its two words, and to_s gives the line back. */
  lemma ParseToSRoundTrip(op: string, arg: string)
    requires op != [] && All(op, IsNonSpace)
    requires arg != [] && All(arg, IsNonSpace)
    ensures Parse(op + " " + arg) == Ok(Instruction(op, arg))
    ensures ToS(Parse(op + " " + arg).value) == op + " " + arg
  {
    FieldsOfJoinWords([op, arg]);
    assert JoinWords([op, arg]) == op + " " + arg by {
      assert [op, arg][1..] == [arg];
    }
  }

  /** The argument of "op +n" / "op -n" is read back as n. */
  lemma ChangeOfSignedText(op: string, n: int)
    requires op != [] && All(op, IsNonSpace)
    ensures Parse(op + " " + SignedText(n)).Ok?
    ensures Change(Parse(op + " " + SignedText(n)).value) == n
  {
    ParseToSRoundTrip(op, SignedText(n));
    ToIOfSignedText(n);
  }

  /** The argument "+0d" followed by digits reads as those digits: to_i skips the radix prefix. */
  lemma ChangeOfPrefixedText(op: string, ds: string)
    requires op != [] && All(op, IsNonSpace)
    requires ds != [] && All(ds, IsDigit)
    ensures Parse(op + " +0d" + ds).Ok?
    ensures Change(Parse(op + " +0d" + ds).value) == DecimalValue(ds)
  {
    var arg := "+" + "0d" + ds;
    assert op + " +0d" + ds == op + " " + arg;
    assert All(arg, IsNonSpace) by {
      forall i | 0 <= i < |arg| ensures IsNonSpace(arg[i]) {
        if i >= 3 { assert arg[i] == ds[i - 3]; }
      }
    }
    ParseToSRoundTrip(op, arg);
    ToIOfPrefixedDigits("+", "0d", ds);
  }

  /** Printing a parsed instruction (with a non-empty action) and parsing it again gives it back. */
  lemma {:induction false} ParseOfToS(ins: Instruction)
    requires ins.action != [] && All(ins.action, IsNonSpace) && All(ins.changeStr, IsNonSpace)
    ensures Parse(ToS(ins)) == Ok(ins)
  {
    if ins.changeStr != [] {
      ParseToSRoundTrip(ins.action, ins.changeStr);
    } else {
      var w := ins.action;
      SpanAll(w, " ", IsNonSpace);
      var s := w + " ";
      assert s[0] == w[0] && !IsSpace(s[0]);
      assert s[..|w|] == w && s[|w|..] == " ";
      assert Fields(" ") == Fields(" "[1..]) == [];
      assert Fields(s) == [w] + Fields(" ");
      assert ToS(ins) == s;
    }
  }

  /** The line "op +n" / "op -n" as the puzzle input writes an instruction. */
  function Line(op: string, n: int): string
  {
    op + " " + SignedText(n)
  }

  /** Such a line parses to op with argument n. */
  lemma LineParses(op: string, n: int)
    requires op != [] && All(op, IsNonSpace)
    ensures Parse(Line(op, n)) == Ok(Instruction(op, SignedText(n)))
    ensures Change(Instruction(op, SignedText(n))) == n
  {
    ParseToSRoundTrip(op, SignedText(n));
    ToIOfSignedText(n);
  }

  // ---------------------------------------------------------------------------
  // The line under the cursor, instructions[cursor] (RubyText.At)

  /** The cursor indexes a line and that line parses. */
  predicate Decodes(instructions: seq<string>, cursor: int)
  {
    At(instructions, cursor).Some? && Parse(At(instructions, cursor).value).Ok?
  }

  function Decoded(instructions: seq<string>, cursor: int): Instruction
    requires Decodes(instructions, cursor)
  {
    Parse(At(instructions, cursor).value).value
  }

  // ---------------------------------------------------------------------------
  // Loader state and one step

  /** The loader's cursor, accumulator and processed_instructions. */
  datatype Machine = Machine(cursor: int, accumulator: int, processed: seq<int>)

  /** GameBootLoader#initialize */
  const Fresh := Machine(0, 0, [])

  /** GameBootLoader#execute_instruction as a function of the state. */
  function Execute(m: Machine, ins: Instruction): Machine
  {
    Machine(
      if IsJmp(ins) then m.cursor + Change(ins) else m.cursor + 1,
      if IsAcc(ins) then m.accumulator + Change(ins) else m.accumulator,
      m.processed + [m.cursor])
  }

  /** Where control goes after the instruction at `cursor`. */
  function Next(instructions: seq<string>, cursor: int): int
    requires Decodes(instructions, cursor)
  {
    var ins := Decoded(instructions, cursor);
    if IsJmp(ins) then cursor + Change(ins) else cursor + 1
  }

  /** Sum of the acc arguments at the given cursors. */
  function AccSum(instructions: seq<string>, cursors: seq<int>): int
    requires forall k :: 0 <= k < |cursors| ==> Decodes(instructions, cursors[k])
  {
    if cursors == [] then 0
    else
      var ins := Decoded(instructions, cursors[|cursors| - 1]);
      AccSum(instructions, cursors[..|cursors| - 1]) + (if IsAcc(ins) then Change(ins) else 0)
  }

  predicate Distinct(s: seq<int>)
  {
    forall i, j :: 0 <= i < j < |s| ==> s[i] != s[j]
  }

  /**
   * The state a run from a fresh loader can be in: processed lists the path
   * from cursor 0, each entry where the previous instruction sent control,
   * no entry twice, every entry at a line that parses; the cursor is where
   * the last processed instruction sent control; the accumulator is the sum
   * of the acc arguments on the path.
   */
  ghost predicate Trace(instructions: seq<string>, m: Machine)
  {
    && (forall k :: 0 <= k < |m.processed| ==> Decodes(instructions, m.processed[k]))
    && Distinct(m.processed)
    && (m.processed == [] ==> m.cursor == 0)
    && (m.processed != [] ==> m.processed[0] == 0 && m.cursor == Next(instructions, m.processed[|m.processed| - 1]))
    && (forall k :: 0 <= k < |m.processed| - 1 ==> m.processed[k + 1] == Next(instructions, m.processed[k]))
    && m.accumulator == AccSum(instructions, m.processed)
  }

  lemma FreshTrace(instructions: seq<string>)
    ensures Trace(instructions, Fresh)
  {
  }

  /** Executing the parsed instruction at a not yet processed cursor keeps the trace. */
  lemma TraceStep(instructions: seq<string>, m: Machine)
    requires Trace(instructions, m)
    requires m.cursor !in m.processed && Decodes(instructions, m.cursor)
    ensures Trace(instructions, Execute(m, Decoded(instructions, m.cursor)))
  {
    var ins := Decoded(instructions, m.cursor);
    var m' := Execute(m, ins);
    var p, p' := m.processed, m'.processed;
    assert p' == p + [m.cursor];
    assert p'[..|p'| - 1] == p;
    assert forall k :: 0 <= k < |p'| ==> Decodes(instructions, p'[k]) by {
      forall k | 0 <= k < |p'| ensures Decodes(instructions, p'[k]) {
        if k < |p| {
          assert p'[k] == p[k];
        }
      }
    }
    assert Distinct(p') by {
      forall i, j | 0 <= i < j < |p'| ensures p'[i] != p'[j] {
        assert p'[i] == p[i];
        if j == |p| {
          assert p[i] in p;
        } else {
          assert p'[j] == p[j];
        }
      }
    }
    assert m'.cursor == Next(instructions, m.cursor);
    assert forall k :: 0 <= k < |p'| - 1 ==> p'[k + 1] == Next(instructions, p'[k]) by {
      forall k | 0 <= k < |p'| - 1 ensures p'[k + 1] == Next(instructions, p'[k]) {
        assert p'[k] == p[k];
        if k + 1 < |p| {
          assert p'[k + 1] == p[k + 1];
        }
      }
    }
    assert m'.accumulator == AccSum(instructions, p');
  }


  // ---------------------------------------------------------------------------
  // Termination measure: cursors that can still be executed

  /** The cursors with a line that are not yet processed. */
  function Unvisited(n: nat, processed: seq<int>): set<int>
  {
    set c | -(n as int) <= c < n && c !in processed
  }

  lemma UnvisitedShrinks(n: nat, processed: seq<int>, c: int)
    requires -(n as int) <= c < n && c !in processed
    ensures |Unvisited(n, processed + [c])| < |Unvisited(n, processed)|
  {
    assert Unvisited(n, processed + [c]) == Unvisited(n, processed) - {c};
    assert c in Unvisited(n, processed);
  }

  // ---------------------------------------------------------------------------
  // Step bound

  function Range(lo: int, hi: int): (r: set<int>)
    ensures forall c :: c in r <==> lo <= c < hi
    ensures |r| == if lo < hi then hi - lo else 0
    decreases hi - lo
  {
    if lo >= hi then {} else
      var rest := Range(lo + 1, hi);
      assert lo !in rest;
      {lo} + rest
  }

  lemma {:induction false} DistinctCardinality(s: seq<int>)
    requires Distinct(s)
    ensures |set c | c in s| == |s|
  {
    if s != [] {
      var init := s[..|s| - 1];
      var last := s[|s| - 1];
      DistinctCardinality(init);
      assert (set c | c in s) == (set c | c in init) + {last};
      assert last !in (set c | c in init);
    }
  }

  /** A list of distinct integers drawn from lo..hi-1 has at most hi - lo entries. */
  lemma DistinctWithin(s: seq<int>, lo: int, hi: int)
    requires Distinct(s)
    requires forall k :: 0 <= k < |s| ==> lo <= s[k] < hi
    ensures |s| <= if lo < hi then hi - lo else 0
  {
    DistinctCardinality(s);
    var r := Range(lo, hi);
    var used := set c | c in s;
    assert used <= r;
    assert r == used + (r - used);
    assert |r| == |used| + |r - used|;
  }

  /**
   * A run executes each cursor at most once, and only cursors that index a
   * line: at most twice the program length steps, and at most the program
   * length while every processed cursor is non-negative.
   */
  lemma TraceBound(instructions: seq<string>, m: Machine)
    requires Trace(instructions, m)
    ensures |m.processed| <= 2 * |instructions|
    ensures (forall k :: 0 <= k < |m.processed| ==> m.processed[k] >= 0) ==> |m.processed| <= |instructions|
  {
    DistinctWithin(m.processed, -|instructions|, |instructions|);
    if forall k :: 0 <= k < |m.processed| ==> m.processed[k] >= 0 {
      DistinctWithin(m.processed, 0, |instructions|);
    }
  }
}
