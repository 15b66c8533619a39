/**
 * 2020/12.rb: a ship with a bearing (degrees from North) and a position,
 * steered by instructions that turn it, move it along a compass bearing,
 * or move it forward along its own bearing.
 */
module Navigation {
  import opened Wrappers
  import opened RubyText
  import opened ShipCommands

  /** Ship#turn: R and L turn the bearing modulo a full rotation (Ruby's % is floored, as Dafny's is for a positive divisor); anything else keeps it. */
  function Turned(bearing: int, direction: Option<Action>, degrees: int): (b: int)
    ensures direction == Some(Left) || direction == Some(Right) ==> 0 <= b < FullRotation
    ensures direction != Some(Left) && direction != Some(Right) ==> b == bearing
  {
    match direction
    case Some(Right) => (bearing + degrees) % FullRotation
    case Some(Left) => (bearing - degrees) % FullRotation
    case _ => bearing
  }

  /** Ship#move: forward moves along the bearing, a compass action along that bearing, anything else not at all. */
  function Moved(p: Point, bearing: int, direction: Option<Action>, distance: int): Point
  {
    match direction
    case Some(Forward) => Step(p, bearing, distance)
    case Some(Heading(h)) => Step(p, h, distance)
    case _ => p
  }

  /** Turning right and then left by the same angle (or the reverse) comes back to the bearing, reduced to 0..359. */
  lemma TurnBack(bearing: int, degrees: int)
    ensures Turned(Turned(bearing, Some(Right), degrees), Some(Left), degrees) == bearing % FullRotation
    ensures Turned(Turned(bearing, Some(Left), degrees), Some(Right), degrees) == bearing % FullRotation
  {
    var r := (bearing + degrees) % FullRotation;
    assert (bearing + degrees) == FullRotation * ((bearing + degrees) / FullRotation) + r;
    ModShift(r - degrees, bearing, (bearing + degrees) / FullRotation);
    var l := (bearing - degrees) % FullRotation;
    assert (bearing - degrees) == FullRotation * ((bearing - degrees) / FullRotation) + l;
    ModShift(l + degrees, bearing, (bearing - degrees) / FullRotation);
  }

  /** Values that differ by a multiple of the full rotation have the same bearing. */
  lemma ModShift(a: int, b: int, k: int)
    requires a == b - FullRotation * k
    ensures a % FullRotation == b % FullRotation
  {
    var q := b / FullRotation;
    var r := b % FullRotation;
    assert a == FullRotation * (q - k) + r;
  }

  /** Turns by multiples of 90 degrees keep a compass bearing a compass bearing. */
  lemma TurnKeepsCardinal(bearing: int, direction: Option<Action>, degrees: int)
    requires Cardinal(bearing) && degrees % 90 == 0
    ensures Cardinal(Turned(bearing, direction, degrees))
  {
    var k := degrees / 90;
    if direction == Some(Right) || direction == Some(Left) {
      var s := if direction == Some(Right) then bearing + 90 * k else bearing - 90 * k;
      assert s == 90 * (bearing / 90 + (if direction == Some(Right) then k else -k));
      var t := s % FullRotation;
      assert s == FullRotation * (s / FullRotation) + t;
      assert t == 90 * ((bearing / 90 + (if direction == Some(Right) then k else -k)) - 4 * (s / FullRotation));
    }
  }

  /** The bearing and the position of a ship. */
  datatype ShipState = ShipState(bearing: int, position: Point)

  /** A new ship faces East at the origin. */
  const Start := ShipState(East, Origin)

  /** Navigator.move_ship!: turn, then move, with the action and distance scanned from the instruction. */
  function Navigate(s: ShipState, instruction: string): ShipState
  {
    var c := ParseCommand(instruction);
    var b := Turned(s.bearing, c.action, c.distance);
    ShipState(b, Moved(s.position, b, c.action, c.distance))
  }

  /**
   * An instruction either turns the ship (L, R) and leaves it where it is,
   * or moves it (N, E, S, W, F) and keeps its bearing, where F moves along
   * the bearing; an instruction without a match changes nothing.
   */
  lemma NavigateTurnsOrMoves(s: ShipState, instruction: string)
    ensures var c := ParseCommand(instruction); var t := Navigate(s, instruction);
      && (c.action == Some(Left) || c.action == Some(Right) ==> t.position == s.position)
      && (c.action != Some(Left) && c.action != Some(Right) ==> t.bearing == s.bearing)
      && (c.action == Some(Forward) ==> t.position == Step(s.position, s.bearing, c.distance))
      && (c.action.Some? && c.action.value.Heading? ==> t.position == Step(s.position, c.action.value.degrees, c.distance))
      && (c.action.None? ==> t == s)
  {
  }

  /** The ship after a list of instructions, applied in order. */
  function Voyage(s: ShipState, instructions: seq<string>): ShipState
  {
    if instructions == [] then s
    else Navigate(Voyage(s, instructions[..|instructions| - 1]), instructions[|instructions| - 1])
  }

  /** Every L or R instruction turns by a multiple of 90 degrees. */
  predicate QuarterTurns(instructions: seq<string>)
  {
    forall k :: 0 <= k < |instructions| ==>
      var c := ParseCommand(instructions[k]);
      c.action == Some(Left) || c.action == Some(Right) ==> c.distance % 90 == 0
  }

  /** A ship that starts on a compass bearing and only turns by quarter turns stays on one, so F always moves it. */
  lemma {:induction false} VoyageKeepsCardinal(s: ShipState, instructions: seq<string>)
    requires Cardinal(s.bearing) && QuarterTurns(instructions)
    ensures Cardinal(Voyage(s, instructions).bearing)
  {
    if instructions != [] {
      var init := instructions[..|instructions| - 1];
      assert QuarterTurns(init) by {
        forall k | 0 <= k < |init| ensures init[k] == instructions[k] { }
      }
      VoyageKeepsCardinal(s, init);
      var c := ParseCommand(instructions[|instructions| - 1]);
      var b := Voyage(s, init).bearing;
      if c.action == Some(Left) || c.action == Some(Right) {
        TurnKeepsCardinal(b, c.action, c.distance);
      }
    }
  }

  /** Ship::Position, a mutable struct. */
  class Position {
    var x: int
    var y: int

    constructor (x: int, y: int)
      ensures this.x == x && this.y == y
    {
      this.x := x;
      this.y := y;
    }

    function Value(): Point
      reads this
    {
      Point(x, y)
    }
  }

  class Ship {
    var bearing: int
    const position: Position

    function State(): ShipState
      reads this, position
    {
      ShipState(bearing, position.Value())
    }

    /** Ship.new(bearing = EAST): the given bearing at the origin. */
    constructor (bearing: int := East)
      ensures this.bearing == bearing && fresh(position) && position.Value() == Origin
    {
      this.bearing := bearing;
      position := new Position(0, 0);
    }

    /** move: updates the position in place and returns it. */
    method Move(direction: Option<Action>, distance: int) returns (p: Position)
      modifies position
      ensures p == position
      ensures position.Value() == Moved(old(position.Value()), bearing, direction, distance)
      decreases if direction == Some(Forward) then 1 else 0
    {
      match direction {
        case Some(Forward) =>
          p := Move(Some(Heading(bearing)), distance);
        case Some(Heading(h)) =>
          if h == North {
            position.y := position.y + distance;
          } else if h == East {
            position.x := position.x + distance;
          } else if h == South {
            position.y := position.y - distance;
          } else if h == West {
            position.x := position.x - distance;
          }
        case _ =>
      }
      p := position;
    }

    /** turn: reassigns the bearing and returns it. */
    method Turn(direction: Option<Action>, degrees: int) returns (b: int)
      modifies this
      ensures bearing == Turned(old(bearing), direction, degrees) && b == bearing
    {
      match direction {
        case Some(Right) =>
          bearing := (bearing + degrees) % FullRotation;
        case Some(Left) =>
          bearing := (bearing - degrees) % FullRotation;
        case _ =>
      }
      b := bearing;
    }

    function ManhattanDistance(): (d: nat)
      reads this, position
      ensures d == Manhattan(position.Value())
    {
      Abs(position.x) + Abs(position.y)
    }
  }

  class Navigator {
    /** move_ship!: turn, then move; returns the ship's position. */
    static method MoveShip(ship: Ship, instruction: string) returns (p: Position)
      modifies ship, ship.position
      ensures p == ship.position
      ensures ship.State() == Navigate(old(ship.State()), instruction)
    {
      var command := ParseCommand(instruction);
      var _ := ship.Turn(command.action, command.distance);
      p := ship.Move(command.action, command.distance);
    }
  }

  /** The script: a new ship follows every instruction; the answer is its Manhattan distance. */
  method Sail(instructions: seq<string>) returns (distance: nat)
    ensures distance == Manhattan(Voyage(Start, instructions).position)
  {
    var ship := new Ship();
    for i := 0 to |instructions|
      invariant ship.State() == Voyage(Start, instructions[..i])
    {
      assert instructions[..i + 1][..i] == instructions[..i];
      var _ := Navigator.MoveShip(ship, instructions[i]);
    }
    assert instructions[..|instructions|] == instructions;
    distance := ship.ManhattanDistance();
  }

  /** A quarter turn right of East faces South, a quarter turn left faces North. */
  lemma TurnExamples()
    ensures Turned(East, Some(Right), 90) == South && Turned(East, Some(Left), 90) == North
  {
  }

  /** TestNavigator#test_move_forward */
  method MoveForward()
  {
    var instruction := "F5";
    var ship := new Ship();
    CommandTexts();
    ParseWritten(instruction, 'F', 5);
    var p := Navigator.MoveShip(ship, instruction);
    assert p.Value() == Point(5, 0);
  }

  /** TestNavigator#test_move_north */
  method MoveNorth()
  {
    var instruction := "N5";
    var ship := new Ship();
    CommandTexts();
    ParseWritten(instruction, 'N', 5);
    var p := Navigator.MoveShip(ship, instruction);
    assert p.Value() == Point(0, 5);
  }

  /** TestNavigator#test_move_east */
  method MoveEast()
  {
    var instruction := "E6";
    var ship := new Ship();
    CommandTexts();
    ParseWritten(instruction, 'E', 6);
    var p := Navigator.MoveShip(ship, instruction);
    assert p.Value() == Point(6, 0);
  }

  /** TestNavigator#test_move_south */
  method MoveSouth()
  {
    var instruction := "S6";
    var ship := new Ship();
    CommandTexts();
    ParseWritten(instruction, 'S', 6);
    var p := Navigator.MoveShip(ship, instruction);
    assert p.Value() == Point(0, -6);
  }

  /** TestNavigator#test_move_west */
  method MoveWest()
  {
    var instruction := "W6";
    var ship := new Ship();
    CommandTexts();
    ParseWritten(instruction, 'W', 6);
    var p := Navigator.MoveShip(ship, instruction);
    assert p.Value() == Point(-6, 0);
  }

  /** TestNavigator#test_turn_right */
  method TurnRight()
  {
    var instruction := "R90";
    var ship := new Ship();
    CommandTexts();
    ParseWritten(instruction, 'R', 90);
    TurnExamples();
    var p := Navigator.MoveShip(ship, instruction);
    assert ship.bearing == South;
  }

  /** TestNavigator#test_turn_left */
  method TurnLeft()
  {
    var instruction := "L90";
    var ship := new Ship();
    CommandTexts();
    ParseWritten(instruction, 'L', 90);
    TurnExamples();
    var p := Navigator.MoveShip(ship, instruction);
    assert ship.bearing == North;
  }
}
