/**
 * The robot's grid world of 3d-world.js: grid cells, the four facings,
 * a level descriptor, and the two primitive moves (a step forward,
 * a quarter turn). Positions are cells (x, y) with x growing east and
 * y growing south, as in the source's direction table.
 */
module Grid {

  datatype Dir = North | East | South | West

  datatype Pos = Pos(x: int, y: int)

  /** The part of World3D that the commands change: `playerPosition` and `playerDirection`. */
  datatype Robot = Robot(pos: Pos, dir: Dir)

  /**
   * A level's world descriptor: `size`, `player` (start cell and facing),
   * `goal` and `walls`.
   */
  datatype Level = Level(width: int, height: int, start: Pos, startDir: Dir, goal: Pos, walls: seq<Pos>)

  /** The error results a run can end with. */
  datatype Error =
    | EmptyProgram
    | TooManySteps
    | OutOfBounds
    | HitWall
    | GoalNotReached
    | UnknownCommand(kind: string)

  /** The `{success, error}` result of one command. */
  datatype Outcome = Ok | Fail(error: Error)

  /** The robot after a command, together with the command's result. */
  datatype Step = Step(robot: Robot, outcome: Outcome)

  /** The start state of a level. */
  function Start(lv: Level): Robot {
    Robot(lv.start, lv.startDir)
  }

  /** The unit step taken by a forward move for each facing. */
  function Delta(d: Dir): Pos {
    match d
    case East => Pos(1, 0)
    case West => Pos(-1, 0)
    case North => Pos(0, -1)
    case South => Pos(0, 1)
  }

  /** The cell straight ahead of the robot. */
  function Ahead(r: Robot): Pos {
    Pos(r.pos.x + Delta(r.dir).x, r.pos.y + Delta(r.dir).y)
  }

  predicate InBounds(lv: Level, p: Pos) {
    0 <= p.x < lv.width && 0 <= p.y < lv.height
  }

  /** `walls.some(wall => wall.x === x && wall.y === y)`. */
  predicate SomeWallAt(walls: seq<Pos>, x: int, y: int) {
    if walls == [] then false
    else (walls[0].x == x && walls[0].y == y) || SomeWallAt(walls[1..], x, y)
  }

  /** The search finds a wall exactly when the cell is one of the level's walls. */
  lemma {:induction false} SomeWallAtIsMember(walls: seq<Pos>, x: int, y: int)
    ensures SomeWallAt(walls, x, y) <==> Pos(x, y) in walls
    decreases |walls|
  {
    if walls != [] {
      SomeWallAtIsMember(walls[1..], x, y);
      assert walls == [walls[0]] + walls[1..];
    }
  }

  predicate IsWall(lv: Level, p: Pos) {
    SomeWallAt(lv.walls, p.x, p.y)
  }

  /** A cell the robot may stand on. */
  predicate Open(lv: Level, p: Pos) {
    InBounds(lv, p) && !IsWall(lv, p)
  }

  /**
   * `moveForward`: the bounds check comes first, then the wall check;
   * only a move that passes both commits the new position.
   */
  function Move(lv: Level, r: Robot): (s: Step)
    ensures s.outcome.Ok? <==> Open(lv, Ahead(r))
    ensures s.outcome == Fail(OutOfBounds) <==> !InBounds(lv, Ahead(r))
    ensures s.outcome == Fail(HitWall) <==> InBounds(lv, Ahead(r)) && IsWall(lv, Ahead(r))
    ensures s.outcome.Ok? ==> s.robot == Robot(Ahead(r), r.dir)
    ensures s.outcome.Fail? ==> s.robot == r
  {
    var t := Ahead(r);
    if t.x < 0 || t.x >= lv.width || t.y < 0 || t.y >= lv.height then
      Step(r, Fail(OutOfBounds))
    else if SomeWallAt(lv.walls, t.x, t.y) then
      Step(r, Fail(HitWall))
    else
      Step(Robot(t, r.dir), Ok)
  }

  /** The order `turnLeft` cycles through. */
  const LeftOrder: seq<Dir> := [North, West, South, East]

  /** The order `turnRight` cycles through. */
  const RightOrder: seq<Dir> := [North, East, South, West]

  /** `Array.prototype.indexOf` on a four-element rotation table that holds every facing. */
  function IndexIn(order: seq<Dir>, d: Dir): (i: nat)
    requires |order| == 4 && d in order
    ensures i < 4 && order[i] == d
    ensures forall j :: 0 <= j < i ==> order[j] != d
  {
    if order[0] == d then 0
    else if order[1] == d then 1
    else if order[2] == d then 2
    else 3
  }

  /** Where a facing sits in a table that lists North, then the other three in some order. */
  function IndexOfCase(d: Dir, order: seq<Dir>): (i: nat)
    requires order == LeftOrder || order == RightOrder
    ensures i < |order| && order[i] == d
  {
    match d
    case North => 0
    case South => 2
    case East => if order == LeftOrder then 3 else 1
    case West => if order == LeftOrder then 1 else 3
  }

  /** `turnLeft`: the facing after the current one in LeftOrder, wrapping around. */
  function LeftOf(d: Dir): Dir {
    assert d in LeftOrder by { assert d == LeftOrder[IndexOfCase(d, LeftOrder)]; }
    LeftOrder[(IndexIn(LeftOrder, d) + 1) % 4]
  }

  /** `turnRight`: the facing after the current one in RightOrder, wrapping around. */
  function RightOf(d: Dir): Dir {
    assert d in RightOrder by { assert d == RightOrder[IndexOfCase(d, RightOrder)]; }
    RightOrder[(IndexIn(RightOrder, d) + 1) % 4]
  }

  /** A left turn: north to west, west to south, south to east, east to north. */
  lemma LeftCycle()
    ensures LeftOf(North) == West && LeftOf(West) == South
    ensures LeftOf(South) == East && LeftOf(East) == North
  {
  }

  /** A right turn: north to east, east to south, south to west, west to north. */
  lemma RightCycle()
    ensures RightOf(North) == East && RightOf(East) == South
    ensures RightOf(South) == West && RightOf(West) == North
  {
  }

  /** The two turns undo each other, in either order. */
  lemma TurnsInverse(d: Dir)
    ensures RightOf(LeftOf(d)) == d
    ensures LeftOf(RightOf(d)) == d
  {
    LeftCycle();
    RightCycle();
  }

  /** Four turns the same way are the identity. */
  lemma FourTurns(d: Dir)
    ensures LeftOf(LeftOf(LeftOf(LeftOf(d)))) == d
    ensures RightOf(RightOf(RightOf(RightOf(d)))) == d
  {
    LeftCycle();
    RightCycle();
  }

  /** Turning around: two left turns and two right turns face the same way, opposite to d. */
  lemma TurnAround(d: Dir)
    ensures LeftOf(LeftOf(d)) == RightOf(RightOf(d))
    ensures Delta(LeftOf(LeftOf(d))) == Pos(-Delta(d).x, -Delta(d).y)
  {
    LeftCycle();
    RightCycle();
  }

  /**
   * A successful move can be undone: turning around and moving again
   * succeeds from the open cell the robot came from and brings it back there.
   */
  lemma MoveUndo(lv: Level, r: Robot)
    requires Open(lv, r.pos)
    requires Move(lv, r).outcome.Ok?
    ensures var back := Robot(Move(lv, r).robot.pos, LeftOf(LeftOf(r.dir)));
            Move(lv, back) == Step(Robot(r.pos, back.dir), Ok)
  {
    TurnAround(r.dir);
    var back := Robot(Move(lv, r).robot.pos, LeftOf(LeftOf(r.dir)));
    assert Ahead(back) == r.pos;
  }

  /** Whatever the outcome, a move leaves the robot on an open cell if it started on one. */
  lemma MoveKeepsOpen(lv: Level, r: Robot)
    requires Open(lv, r.pos)
    ensures Open(lv, Move(lv, r).robot.pos)
  {
  }
}
