/**
 * What 2020/12.rb and 2020/12.2.rb share: the compass bearings, the ACTIONS
 * table, the scan of a navigation instruction such as "F10" with
 * /([NSEWLRF]{1})([0-9]+)/, and an integer position on the grid.
 */
module ShipCommands {
  import opened Wrappers
  import opened RubyText

  const North := 0
  const East := 90
  const South := 180
  const West := 270
  const FullRotation := 360

  /** A value of the ACTIONS table: a compass bearing for N/E/S/W, or :left, :right, :forward. */
  datatype Action = Heading(degrees: int) | Left | Right | Forward

  predicate IsActionLetter(c: char) { c in "NSEWLRF" }

  /** ACTIONS[letter]; nil for any other key, including the nil of a failed scan. */
  function ActionOf(letter: char): (a: Option<Action>)
    ensures a.Some? <==> IsActionLetter(letter)
  {
    match letter
    case 'N' => Some(Heading(North))
    case 'E' => Some(Heading(East))
    case 'S' => Some(Heading(South))
    case 'W' => Some(Heading(West))
    case 'L' => Some(Left)
    case 'R' => Some(Right)
    case 'F' => Some(Forward)
    case _ => None
  }

  /** The action and the distance (String#to_i of the digits, nil.to_i == 0) a navigator reads from an instruction. */
  datatype Command = Command(action: Option<Action>, distance: int)

  /** /([NSEWLRF]{1})([0-9]+)/ can start matching at `i`. */
  predicate MatchStart(s: string, i: int)
  {
    0 <= i && i + 1 < |s| && IsActionLetter(s[i]) && IsDigit(s[i + 1])
  }

  /** The leftmost match at or after `from`. */
  function FirstMatch(s: string, from: nat): (r: Option<nat>)
    ensures r.Some? ==> from <= r.value && MatchStart(s, r.value)
    ensures r.Some? ==> forall j :: from <= j < r.value ==> !MatchStart(s, j)
    ensures r.None? ==> forall j :: from <= j ==> !MatchStart(s, j)
    decreases |s| - from
  {
    if from + 1 >= |s| then None
    else if MatchStart(s, from) then Some(from)
    else FirstMatch(s, from + 1)
  }

  /**
   * instruction.scan(...).flatten destructured into its first two entries:
   * the letter and the greedy digit run of the leftmost match. The run is
   * all digits, so its to_i is its decimal value (ToIOfDigits).
   */
  function ParseCommand(instruction: string): (c: Command)
    ensures c.action.None? <==> forall j :: !MatchStart(instruction, j)
    ensures c.action.None? ==> c.distance == 0
    ensures c.distance >= 0
  {
    match FirstMatch(instruction, 0)
    case None => Command(None, 0)
    case Some(i) =>
      var digits := instruction[i + 1..];
      var n := Span(digits, IsDigit);
      assert digits[..n] != [] && All(digits[..n], IsDigit);
      Command(ActionOf(instruction[i]), DecimalValue(digits[..n]))
  }

  /** The distance is distance.to_i of the digits the leftmost match captures. */
  lemma ParseCommandToI(instruction: string, i: nat)
    requires FirstMatch(instruction, 0) == Some(i)
    ensures var digits := instruction[i + 1..];
      ParseCommand(instruction).distance == ToI(digits[..Span(digits, IsDigit)])
  {
    var digits := instruction[i + 1..];
    ToIOfDigits(digits[..Span(digits, IsDigit)]);
  }

  /** An instruction written as a letter and a number, as the puzzle input writes it. */
  function CommandText(letter: char, n: nat): string
  {
    [letter] + NatDigits(n)
  }

  /** The navigator reads back the letter's action and the number from its text, whatever follows it that is not a digit. */
  lemma ParseCommandText(letter: char, n: nat, rest: string)
    requires IsActionLetter(letter)
    requires rest == [] || !IsDigit(rest[0])
    ensures ParseCommand(CommandText(letter, n) + rest) == Command(ActionOf(letter), n)
  {
    var s := CommandText(letter, n) + rest;
    var ds := NatDigits(n);
    assert MatchStart(s, 0);
    assert FirstMatch(s, 0) == Some(0);
    assert s[1..] == ds + rest;
    SpanAll(ds, rest, IsDigit);
    assert (ds + rest)[..|ds|] == ds;
    DecimalValueOfNatDigits(n);
  }

  /** An instruction written as the puzzle writes it, alone on its line. */
  lemma ParseWritten(instruction: string, letter: char, n: nat)
    requires IsActionLetter(letter) && instruction == CommandText(letter, n)
    ensures ParseCommand(instruction) == Command(ActionOf(letter), n)
  {
    ParseCommandText(letter, n, []);
    assert instruction + [] == instruction;
  }

  /** The instructions of the examples, spelled out. */
  lemma CommandTexts()
    ensures CommandText('F', 5) == "F5" && CommandText('N', 5) == "N5" && CommandText('E', 6) == "E6"
    ensures CommandText('S', 6) == "S6" && CommandText('W', 6) == "W6" && CommandText('F', 10) == "F10"
    ensures CommandText('R', 90) == "R90" && CommandText('L', 90) == "L90"
  {
    assert NatDigits(9) == "9" && NatDigits(1) == "1";
    assert NatDigits(90) == NatDigits(9) + "0";
    assert NatDigits(10) == NatDigits(1) + "0";
  }

  /** A Position struct's coordinates as a value. */
  datatype Point = Point(x: int, y: int)

  const Origin := Point(0, 0)

  function Abs(n: int): nat { if n < 0 then -n else n }

  /** manhattan_distance: position.x.abs + position.y.abs */
  function Manhattan(p: Point): (d: nat)
    ensures d == 0 <==> p == Origin
  {
    Abs(p.x) + Abs(p.y)
  }

  predicate Cardinal(bearing: int)
  {
    bearing == North || bearing == East || bearing == South || bearing == West
  }

  /** The compass cases of move: N adds to y, E to x, S subtracts from y, W from x; any other value matches no case. */
  function Step(p: Point, heading: int, distance: int): Point
  {
    if heading == North then p.(y := p.y + distance)
    else if heading == East then p.(x := p.x + distance)
    else if heading == South then p.(y := p.y - distance)
    else if heading == West then p.(x := p.x - distance)
    else p
  }

  /** The bearing opposite a compass bearing. */
  function Opposite(heading: int): int
  {
    (heading + 180) % FullRotation
  }

  /**
   * A move along a compass bearing changes exactly one coordinate, by the
   * distance; a move along any other value changes nothing; moving back
   * along the opposite bearing undoes it; and the Manhattan distance
   * changes by at most the distance.
   */
  lemma StepProperties(p: Point, heading: int, distance: int)
    ensures var q := Step(p, heading, distance);
      && (Cardinal(heading) ==>
            (q.x == p.x && Abs(q.y - p.y) == Abs(distance)) || (q.y == p.y && Abs(q.x - p.x) == Abs(distance)))
      && (!Cardinal(heading) ==> q == p)
      && (Cardinal(heading) ==> Step(q, Opposite(heading), distance) == p)
      && Manhattan(q) <= Manhattan(p) + Abs(distance)
      && Manhattan(p) <= Manhattan(q) + Abs(distance)
  {
  }

  /** Two moves along one bearing add up. */
  lemma StepAdds(p: Point, heading: int, a: int, b: int)
    ensures Step(Step(p, heading, a), heading, b) == Step(p, heading, a + b)
  {
  }
}
