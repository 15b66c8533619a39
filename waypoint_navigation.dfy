/**
 * 2020/12.2.rb: the ship moves toward a waypoint. N/E/S/W move the
 * waypoint, L/R rotate it about the ship, and F moves the ship by the
 * waypoint's offset that many times.
 *
 * rotate! computes the new offset with Math.cos/Math.sin and rounds; for
 * a multiple of 90 degrees the cosine and sine are 0 or ±1 once rounded, and
 * the rotation is an exact clockwise quarter turn, which is what is modelled.
 */
module WaypointNavigation {
  import opened Wrappers
  import opened RubyText
  import opened ShipCommands

  /** An offset turned clockwise by k quarter turns, k in 0..3. */
  function QuarterTurns(p: Point, k: int): Point
    requires 0 <= k < 4
  {
    if k == 0 then p
    else if k == 1 then Point(p.y, -p.x)
    else if k == 2 then Point(-p.x, -p.y)
    else Point(-p.y, p.x)
  }

  /**
   * rotate!(degrees) for a multiple of 90 degrees: clockwise quarter turns,
   * negative degrees turning back. Only multiples of 90 are ever passed.
   */
  function Rotated(p: Point, degrees: int): Point
  {
    QuarterTurns(p, (degrees / 90) % 4)
  }

  /** Cosine and sine of -degrees * PI / 180, the angle rotate! works with, for degrees = 90 * quarters. */
  function CosSin(quarters: int): (int, int)
  {
    var k := quarters % 4;
    if k == 0 then (1, 0) else if k == 1 then (0, -1) else if k == 2 then (-1, 0) else (0, 1)
  }

  /** rotate!'s formula: new_x = x cos r - y sin r, new_y = x sin r + y cos r. */
  function RotationFormula(p: Point, degrees: int): Point
  {
    var (c, s) := CosSin(degrees / 90);
    Point(p.x * c - p.y * s, p.x * s + p.y * c)
  }

  /** The quarter turns are exactly rotate!'s formula with the cosine and sine of the angle. */
  lemma RotatedIsFormula(p: Point, degrees: int)
    requires degrees % 90 == 0
    ensures Rotated(p, degrees) == RotationFormula(p, degrees)
  {
  }

  /** Quarter turns compose by adding their counts modulo 4. */
  lemma QuarterTurnsAdd(p: Point, i: int, j: int)
    requires 0 <= i < 4 && 0 <= j < 4
    ensures QuarterTurns(QuarterTurns(p, i), j) == QuarterTurns(p, (i + j) % 4)
  {
  }

  lemma QuartersOf(a: int, b: int)
    requires a % 90 == 0 && b % 90 == 0
    ensures ((a + b) / 90) % 4 == ((a / 90) % 4 + (b / 90) % 4) % 4
    ensures (((a / 90) % 4) + (-a / 90) % 4) % 4 == 0
  {
    var qa, qb := a / 90, b / 90;
    assert a == 90 * qa && b == 90 * qb;
    assert a + b == 90 * (qa + qb);
    assert (a + b) / 90 == qa + qb;
    assert -a == 90 * -qa;
    assert -a / 90 == -qa;
    Mod4(qa, qb);
    Mod4(qa, -qa);
  }

  /** A multiple of 90 degrees turned the other way is still one. */
  lemma NegatedAngle(degrees: int)
    requires degrees % 90 == 0
    ensures (degrees * -1) % 90 == 0
  {
    var q := degrees / 90;
    assert degrees * -1 == 90 * -q;
  }

  lemma Mod4(x: int, y: int)
    ensures (x + y) % 4 == (x % 4 + y % 4) % 4
  {
    var i, j := x % 4, y % 4;
    assert x == 4 * (x / 4) + i && y == 4 * (y / 4) + j;
    assert x + y == 4 * (x / 4 + y / 4) + (i + j);
  }

  /**
   * Rotating by -degrees undoes rotating by degrees, a full rotation is
   * the identity, rotations compose by adding their angles, and a rotation
   * keeps the offset's Manhattan distance.
   */
  lemma RotationProperties(p: Point, a: int, b: int)
    requires a % 90 == 0 && b % 90 == 0
    ensures Rotated(Rotated(p, a), -a) == p
    ensures Rotated(p, 360) == p
    ensures Rotated(Rotated(p, a), b) == Rotated(p, a + b)
    ensures Manhattan(Rotated(p, a)) == Manhattan(p)
  {
    assert 360 / 90 % 4 == 0;
    QuartersOf(a, b);
    var i, j, k := (a / 90) % 4, (b / 90) % 4, (-a / 90) % 4;
    var q := Rotated(p, a);
    assert q == QuarterTurns(p, i);
    QuarterTurnsAdd(p, i, j);
    assert Rotated(q, b) == QuarterTurns(q, j);
    assert Rotated(p, a + b) == QuarterTurns(p, (i + j) % 4);
    QuarterTurnsAdd(p, i, k);
    assert Rotated(q, -a) == QuarterTurns(q, k);
    QuarterTurnsKeepDistance(p, i);
  }

  lemma QuarterTurnsKeepDistance(p: Point, k: int)
    requires 0 <= k < 4
    ensures Manhattan(QuarterTurns(p, k)) == Manhattan(p)
  {
    var x, y := Abs(p.x), Abs(p.y);
    assert Abs(-p.x) == x && Abs(-p.y) == y;
    if k == 1 {
      assert Manhattan(Point(p.y, -p.x)) == y + x;
    } else if k == 2 {
      assert Manhattan(Point(-p.x, -p.y)) == x + y;
    } else if k == 3 {
      assert Manhattan(Point(-p.y, p.x)) == y + x;
    }
  }

  /** The rotations of TestNavigator: R90 and L90 of the default waypoint. */
  lemma RotationExamples()
    ensures Rotated(Point(10, 1), 90) == Point(1, -10)
    ensures Rotated(Point(10, 1), -90) == Point(-1, 10)
  {
  }

  /** Ship and waypoint positions as values. */
  datatype NavState = NavState(ship: Point, waypoint: Point)

  /** A new ship at the origin and the default waypoint at (10, 1). */
  const Start := NavState(Origin, Point(10, 1))

  /** Every L or R turns by a multiple of 90 degrees, the angles the model covers. */
  predicate Supported(c: Command)
  {
    c.action == Some(Left) || c.action == Some(Right) ==> c.distance % 90 == 0
  }

  /** Waypoint#move: a compass action moves the waypoint along it; any other value (nil) leaves it. */
  function WaypointMoved(p: Point, direction: Option<Action>, distance: int): Point
  {
    match direction
    case Some(Heading(h)) => Step(p, h, distance)
    case _ => p
  }

  /** Ship#move_to(position:, times:): the ship moves by times copies of the given offset. */
  function MovedTo(p: Point, offset: Point, times: int): Point
  {
    Point(p.x + offset.x * times, p.y + offset.y * times)
  }

  /** Navigator#process_instruction! on a scanned command. */
  function Apply(s: NavState, c: Command): NavState
    requires Supported(c)
  {
    match c.action
    case Some(Left) => s.(waypoint := Rotated(s.waypoint, c.distance * -1))
    case Some(Right) => s.(waypoint := Rotated(s.waypoint, c.distance))
    case Some(Forward) => s.(ship := MovedTo(s.ship, s.waypoint, c.distance))
    case _ => s.(waypoint := WaypointMoved(s.waypoint, c.action, c.distance))
  }

  /**
   * F moves only the ship, by distance times the waypoint; N/E/S/W move
   * only the waypoint, along one axis by the distance; L/R only turn the
   * waypoint about the ship, keeping its distance; an instruction without
   * a match changes nothing.
   */
  lemma ApplyEffects(s: NavState, c: Command)
    requires Supported(c)
    ensures var t := Apply(s, c);
      && (c.action == Some(Forward) ==>
            t.waypoint == s.waypoint && t.ship == Point(s.ship.x + s.waypoint.x * c.distance, s.ship.y + s.waypoint.y * c.distance))
      && (c.action.Some? && c.action.value.Heading? ==> t.ship == s.ship && t.waypoint == Step(s.waypoint, c.action.value.degrees, c.distance))
      && (c.action == Some(Left) || c.action == Some(Right) ==> t.ship == s.ship && Manhattan(t.waypoint) == Manhattan(s.waypoint))
      && (c.action == Some(Right) ==> Apply(t, Command(Some(Left), c.distance)) == s)
      && (c.action.None? ==> t == s)
  {
    var d := c.distance;
    assert d * -1 == -d;
    match c.action
    case Some(Left) =>
      RotationProperties(s.waypoint, -d, 0);
    case Some(Right) =>
      RotationProperties(s.waypoint, d, 0);
      var t := Apply(s, c);
      assert Apply(t, Command(Some(Left), d)).waypoint == Rotated(Rotated(s.waypoint, d), -d);
    case _ =>
  }

  /** F a then F b is F (a + b). */
  lemma ForwardAdds(s: NavState, a: int, b: int)
    ensures Apply(Apply(s, Command(Some(Forward), a)), Command(Some(Forward), b)) == Apply(s, Command(Some(Forward), a + b))
  {
    assert s.waypoint.x * a + s.waypoint.x * b == s.waypoint.x * (a + b);
    assert s.waypoint.y * a + s.waypoint.y * b == s.waypoint.y * (a + b);
  }

  /** Every instruction is supported. */
  predicate AllSupported(instructions: seq<string>)
  {
    forall k :: 0 <= k < |instructions| ==> Supported(ParseCommand(instructions[k]))
  }

  /** The ship and waypoint after a list of instructions, applied in order. */
  function Voyage(s: NavState, instructions: seq<string>): NavState
    requires AllSupported(instructions)
  {
    if instructions == [] then s
    else
      var init := instructions[..|instructions| - 1];
      assert AllSupported(init) by {
        forall k | 0 <= k < |init| ensures init[k] == instructions[k] { }
      }
      Apply(Voyage(s, init), ParseCommand(instructions[|instructions| - 1]))
  }

  /** The Position struct, mutable. */
  class Position {
    var x: int
    var y: int

    constructor (x: int, y: int)
      ensures this.x == x && this.y == y
    {
      this.x := x;
      this.y := y;
    }

    function Value(): Point
      reads this
    {
      Point(x, y)
    }
  }

  class Ship {
    const position: Position

    /** Ship.new: always at the origin (the constructor's argument is not used). */
    constructor ()
      ensures fresh(position) && position.Value() == Origin
    {
      position := new Position(0, 0);
    }

    /** move_to: adds times copies of the given position to the ship's, in place, and returns the given position. */
    method MoveTo(position: Position, times: int := 1) returns (p: Position)
      modifies this.position
      ensures p == position
      ensures this.position.Value() == MovedTo(old(this.position.Value()), old(position.Value()), times)
    {
      this.position.x := this.position.x + position.x * times;
      this.position.y := this.position.y + position.y * times;
      p := position;
    }

    function ManhattanDistance(): (d: nat)
      reads this, position
      ensures d == Manhattan(position.Value())
    {
      Abs(position.x) + Abs(position.y)
    }
  }

  class Waypoint {
    var position: Position

    /** Waypoint.new(position): keeps the given Position object. */
    constructor (position: Position)
      ensures this.position == position
    {
      this.position := position;
    }

    /** Waypoint.new: a new Position at (10, 1). */
    constructor Default()
      ensures fresh(position) && position.Value() == Point(10, 1)
    {
      position := new Position(10, 1);
    }

    /** rotate!: replaces the position with a new one, turned clockwise by the angle. */
    method Rotate(degrees: int)
      requires degrees % 90 == 0
      modifies this
      ensures fresh(position)
      ensures position.Value() == Rotated(old(position.Value()), degrees)
    {
      var (c, s) := CosSin(degrees / 90);
      var newX := position.x * c - position.y * s;
      var newY := position.x * s + position.y * c;
      RotatedIsFormula(position.Value(), degrees);
      position := new Position(newX, newY);
    }

    /** move: updates the position in place along a compass action and returns it. */
    method Move(direction: Option<Action>, distance: int) returns (p: Position)
      modifies position
      ensures p == position
      ensures position.Value() == WaypointMoved(old(position.Value()), direction, distance)
    {
      if direction.Some? && direction.value.Heading? {
        var h := direction.value.degrees;
        if h == North {
          position.y := position.y + distance;
        } else if h == East {
          position.x := position.x + distance;
        } else if h == South {
          position.y := position.y - distance;
        } else if h == West {
          position.x := position.x - distance;
        }
      }
      p := position;
    }
  }

  class Navigator {
    const ship: Ship
    const waypoint: Waypoint

    constructor (ship: Ship, waypoint: Waypoint)
      ensures this.ship == ship && this.waypoint == waypoint
    {
      this.ship := ship;
      this.waypoint := waypoint;
    }

    /** The ship and the waypoint do not share one Position object. */
    predicate Valid()
      reads this, waypoint
    {
      ship.position != waypoint.position
    }

    function State(): NavState
      reads this, ship, waypoint, ship.position, waypoint.position
    {
      NavState(ship.position.Value(), waypoint.position.Value())
    }

    /** process_instruction!: dispatch on the scanned action; returns the navigator. */
    method ProcessInstruction(instruction: string) returns (self: Navigator)
      requires Valid() && Supported(ParseCommand(instruction))
      modifies waypoint, waypoint.position, ship.position
      ensures self == this && Valid()
      ensures waypoint.position == old(waypoint.position) || fresh(waypoint.position)
      ensures State() == Apply(old(State()), ParseCommand(instruction))
    {
      var command := ParseCommand(instruction);
      match command.action {
        case Some(Left) =>
          NegatedAngle(command.distance);
          waypoint.Rotate(command.distance * -1);
        case Some(Right) =>
          waypoint.Rotate(command.distance);
        case Some(Forward) =>
          var _ := ship.MoveTo(waypoint.position, command.distance);
        case _ =>
          var _ := waypoint.Move(command.action, command.distance);
      }
      self := this;
    }
  }

  /** The script: a new ship and the default waypoint follow every instruction; the answer is the ship's Manhattan distance. */
  method Sail(instructions: seq<string>) returns (distance: nat)
    requires AllSupported(instructions)
    ensures distance == Manhattan(Voyage(Start, instructions).ship)
  {
    var ship := new Ship();
    var start := new Position(10, 1);
    var waypoint := new Waypoint(start);
    var navigator := new Navigator(ship, waypoint);
    for i := 0 to |instructions|
      invariant navigator.ship == ship && navigator.waypoint == waypoint && navigator.Valid()
      invariant fresh(ship.position) && fresh(waypoint) && fresh(waypoint.position)
      invariant AllSupported(instructions[..i])
      invariant navigator.State() == Voyage(Start, instructions[..i])
    {
      assert instructions[..i + 1][..i] == instructions[..i];
      var _ := navigator.ProcessInstruction(instructions[i]);
    }
    assert instructions[..|instructions|] == instructions;
    distance := ship.ManhattanDistance();
  }

  /** R90 and L90 on the start state turn the default waypoint a quarter turn either way. */
  lemma ApplyTurnExample(s: NavState, c: Command)
    requires s == Start && (c == Command(Some(Right), 90) || c == Command(Some(Left), 90))
    ensures Apply(s, c) == NavState(Origin, if c.action == Some(Right) then Point(1, -10) else Point(-1, 10))
  {
    RotationExamples();
    assert c.distance * -1 == -90;
  }

  /** F10 on the start state moves the ship ten times the default waypoint. */
  lemma ApplyForwardExample(s: NavState, c: Command)
    requires s == Start && c == Command(Some(Forward), 10)
    ensures Apply(s, c) == NavState(Point(100, 10), Point(10, 1))
  {
  }

  /** N5, E6, S6 and W6 on the start state move the default waypoint and leave the ship. */
  lemma ApplyMoveExample(s: NavState, c: Command, to: Point)
    requires s == Start
    requires (c, to) in [(Command(Some(Heading(North)), 5), Point(10, 6)), (Command(Some(Heading(East)), 6), Point(16, 1)),
                         (Command(Some(Heading(South)), 6), Point(10, -5)), (Command(Some(Heading(West)), 6), Point(4, 1))]
    ensures Apply(s, c) == NavState(Origin, to)
  {
  }

  /** TestNavigator#setup: a new ship and a waypoint at its default position. */
  method Setup() returns (navigator: Navigator)
    ensures fresh(navigator) && fresh(navigator.ship) && fresh(navigator.ship.position)
    ensures fresh(navigator.waypoint) && fresh(navigator.waypoint.position)
    ensures navigator.Valid() && navigator.State() == Start
  {
    var ship := new Ship();
    var waypoint := new Waypoint.Default();
    navigator := new Navigator(ship, waypoint);
  }

  /** TestNavigator#test_move_forward */
  method MoveForward()
  {
    var instruction := "F10";
    var navigator := Setup();
    CommandTexts();
    ParseWritten(instruction, 'F', 10);
    ApplyForwardExample(Start, Command(Some(Forward), 10));
    var _ := navigator.ProcessInstruction(instruction);
    assert navigator.ship.position.Value() == Point(100, 10);
    assert navigator.waypoint.position.Value() == Point(10, 1);
  }

  /** TestNavigator#test_move_north */
  method MoveNorth()
  {
    var instruction := "N5";
    var navigator := Setup();
    CommandTexts();
    ParseWritten(instruction, 'N', 5);
    ApplyMoveExample(Start, Command(Some(Heading(North)), 5), Point(10, 6));
    var _ := navigator.ProcessInstruction(instruction);
    assert navigator.ship.position.Value() == Origin;
    assert navigator.waypoint.position.Value() == Point(10, 6);
  }

  /** TestNavigator#test_move_east */
  method MoveEast()
  {
    var instruction := "E6";
    var navigator := Setup();
    CommandTexts();
    ParseWritten(instruction, 'E', 6);
    ApplyMoveExample(Start, Command(Some(Heading(East)), 6), Point(16, 1));
    var _ := navigator.ProcessInstruction(instruction);
    assert navigator.ship.position.Value() == Origin;
    assert navigator.waypoint.position.Value() == Point(16, 1);
  }

  /** TestNavigator#test_move_south */
  method MoveSouth()
  {
    var instruction := "S6";
    var navigator := Setup();
    CommandTexts();
    ParseWritten(instruction, 'S', 6);
    ApplyMoveExample(Start, Command(Some(Heading(South)), 6), Point(10, -5));
    var _ := navigator.ProcessInstruction(instruction);
    assert navigator.ship.position.Value() == Origin;
    assert navigator.waypoint.position.Value() == Point(10, -5);
  }

  /** TestNavigator#test_move_west */
  method MoveWest()
  {
    var instruction := "W6";
    var navigator := Setup();
    CommandTexts();
    ParseWritten(instruction, 'W', 6);
    ApplyMoveExample(Start, Command(Some(Heading(West)), 6), Point(4, 1));
    var _ := navigator.ProcessInstruction(instruction);
    assert navigator.ship.position.Value() == Origin;
    assert navigator.waypoint.position.Value() == Point(4, 1);
  }

  /** TestNavigator#test_turn_right */
  method TurnRight()
  {
    var instruction := "R90";
    var navigator := Setup();
    CommandTexts();
    ParseWritten(instruction, 'R', 90);
    ApplyTurnExample(Start, Command(Some(Right), 90));
    var _ := navigator.ProcessInstruction(instruction);
    assert navigator.ship.position.Value() == Origin;
    assert navigator.waypoint.position.Value() == Point(1, -10);
  }

  /** TestNavigator#test_turn_left */
  method TurnLeft()
  {
    var instruction := "L90";
    var navigator := Setup();
    CommandTexts();
    ParseWritten(instruction, 'L', 90);
    ApplyTurnExample(Start, Command(Some(Left), 90));
    var _ := navigator.ProcessInstruction(instruction);
    assert navigator.ship.position.Value() == Origin;
    assert navigator.waypoint.position.Value() == Point(-1, 10);
  }
}
