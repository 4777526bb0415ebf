/**
 * World3D of 3d-world.js, without the scene graph: the loaded level and
 * the robot's position and facing, updated in place by the command
 * methods. Every method is proved to do what the functions of module
 * Interpreter say; the animation waits are instantaneous here.
 */
module World {
  import opened Common
  import opened Grid
  import opened Interpreter

  class World3D {
    /** `worldData`: None until a level is loaded. */
    var worldData: Option<Level>
    var playerPosition: Pos
    var playerDirection: Dir

    /** The robot as the commands see it. */
    function State(): Robot
      reads this
    {
      Robot(playerPosition, playerDirection)
    }

    constructor ()
      ensures worldData == None
      ensures playerPosition == Pos(0, 0) && playerDirection == East
    {
      worldData := None;
      playerPosition := Pos(0, 0);
      playerDirection := East;
    }

    /** `loadLevel`, position and facing only: the level becomes current and the robot stands at its start. */
    method LoadLevel(lv: Level)
      modifies this
      ensures worldData == Some(lv)
      ensures State() == Start(lv)
    {
      worldData := Some(lv);
      playerPosition := lv.start;
      playerDirection := lv.startDir;
    }

    method MoveForward() returns (o: Outcome)
      requires worldData.Some?
      modifies this`playerPosition
      ensures Step(State(), o) == Move(worldData.value, old(State()))
    {
      var lv := worldData.value;
      var delta := Delta(playerDirection);
      var newX := playerPosition.x + delta.x;
      var newY := playerPosition.y + delta.y;
      if newX < 0 || newX >= lv.width || newY < 0 || newY >= lv.height {
        return Fail(OutOfBounds);
      }
      var i := 0;
      while i < |lv.walls|
        invariant 0 <= i <= |lv.walls|
        invariant forall k :: 0 <= k < i ==> lv.walls[k] != Pos(newX, newY)
      {
        if lv.walls[i].x == newX && lv.walls[i].y == newY {
          SomeWallAtIsMember(lv.walls, newX, newY);
          return Fail(HitWall);
        }
        i := i + 1;
      }
      SomeWallAtIsMember(lv.walls, newX, newY);
      playerPosition := Pos(newX, newY);
      return Ok;
    }

    method TurnLeft() returns (o: Outcome)
      modifies this`playerDirection
      ensures o == Ok
      ensures playerDirection == LeftOf(old(playerDirection))
    {
      playerDirection := LeftOf(playerDirection);
      return Ok;
    }

    method TurnRight() returns (o: Outcome)
      modifies this`playerDirection
      ensures o == Ok
      ensures playerDirection == RightOf(old(playerDirection))
    {
      playerDirection := RightOf(playerDirection);
      return Ok;
    }

    method ExecuteCommand(c: Cmd) returns (o: Outcome)
      requires worldData.Some?
      modifies this`playerPosition, this`playerDirection
      ensures Step(State(), o) == Exec(worldData.value, old(State()), c)
      decreases c, 1
    {
      match c
      case Forward => o := MoveForward();
      case Left => o := TurnLeft();
      case Right => o := TurnRight();
      case Repeat(_, _) => o := ExecuteRepeat(c);
      case Unknown(kind) => o := Fail(UnknownCommand(kind));
    }

    /** `executeRepeat`: `count || 2` passes over the children, returning the first failure. */
    method ExecuteRepeat(c: Cmd) returns (o: Outcome)
      requires c.Repeat? && worldData.Some?
      modifies this`playerPosition, this`playerDirection
      ensures Step(State(), o) == Exec(worldData.value, old(State()), c)
      decreases c, 0
    {
      var lv := worldData.value;
      var repeatCount := if c.count == 0 then 2 else c.count;
      var children := c.children;
      ghost var r0 := State();
      var i := 0;
      while i < repeatCount
        invariant 0 <= i <= Iterations(c.count)
        invariant worldData == Some(lv)
        invariant Step(State(), Ok) == ExecTimes(lv, r0, children, i)
      {
        ghost var ri := State();
        for j := 0 to |children|
          invariant worldData == Some(lv)
          invariant Step(State(), Ok) == ExecSeq(lv, ri, children[..j])
        {
          ExecSeqSnoc(lv, ri, children, j);
          var result := ExecuteCommand(children[j]);
          if result.Fail? {
            ExecSeqFailedPrefix(lv, ri, children, j + 1);
            ExecTimesFailStable(lv, r0, children, i + 1, Iterations(c.count));
            return result;
          }
        }
        assert children[..|children|] == children;
        i := i + 1;
      }
      assert i == Iterations(c.count);
      return Ok;
    }

    /**
     * `executeProgram`: reject an empty program, reset the robot to the
     * level start, then run the top-level commands, at most 50 of them,
     * checking the goal after each.
     */
    method ExecuteProgram(program: seq<Cmd>) returns (r: RunResult)
      requires worldData.Some?
      modifies this`playerPosition, this`playerDirection
      ensures Finish(State(), r) == Run(worldData.value, old(State()), program)
    {
      if |program| == 0 {
        return Lose(EmptyProgram);
      }
      var lv := worldData.value;
      playerPosition := lv.start;
      playerDirection := lv.startDir;
      var steps := 0;
      for i := 0 to |program|
        invariant steps == i
        invariant worldData == Some(lv)
        invariant RunFrom(lv, State(), program[i..], steps) == Run(lv, old(State()), program)
      {
        assert program[i..][0] == program[i];
        assert program[i..][1..] == program[i + 1..];
        if steps >= MaxSteps {
          return Lose(TooManySteps);
        }
        var result := ExecuteCommand(program[i]);
        if result.Fail? {
          return Lose(result.error);
        }
        steps := steps + 1;
        if playerPosition == lv.goal {
          return Win(Score(steps));
        }
      }
      return Lose(GoalNotReached);
    }

    /** `resetLevel`: back to the level's start, or nothing at all when no level is loaded. */
    method ResetLevel()
      modifies this`playerPosition, this`playerDirection
      ensures worldData.None? ==> State() == old(State())
      ensures worldData.Some? ==> State() == Start(worldData.value)
    {
      if worldData.None? {
        return;
      }
      playerPosition := worldData.value.start;
      playerDirection := worldData.value.startDir;
    }
  }
}
