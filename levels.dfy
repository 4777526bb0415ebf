/**
 * The level table of `generateLevelData` in roblox-adventure.js, and
 * runs of the interpreter on its three worlds.
 */
module LevelTable {
  import opened Common
  import opened Grid
  import opened Interpreter

  /** One entry of `generateLevelData` (the objective text is left out). */
  datatype LevelData = LevelData(number: nat, world: Level, maxBlocks: nat, targetSteps: nat)

  /** The levels of `generateLevelData`: three of them. */
  const Levels: seq<LevelData> := [
    LevelData(1, Level(5, 5, Pos(0, 0), East, Pos(4, 0), []), 5, 4),
    LevelData(2, Level(5, 5, Pos(0, 0), East, Pos(4, 2), [Pos(2, 0), Pos(2, 1)]), 8, 6),
    LevelData(3, Level(6, 4, Pos(0, 0), East, Pos(5, 3), [Pos(1, 1), Pos(2, 1), Pos(3, 1), Pos(4, 1)]), 6, 8)
  ]

  /** The number of levels the progress bar counts to. */
  const MaxLevel: int := 10

  /** `this.levelData[levelNum - 1]`: undefined outside the table. */
  function LevelEntry(levelNum: int): (r: Option<LevelData>)
    ensures r.Some? <==> 1 <= levelNum <= |Levels|
    ensures r.Some? ==> r.value == Levels[levelNum - 1]
  {
    if 1 <= levelNum <= |Levels| then Some(Levels[levelNum - 1]) else None
  }

  /** Every fixture is numbered by its place, starts and ends on open cells, and has a positive target. */
  lemma FixturesWellFormed()
    ensures forall i :: 0 <= i < |Levels| ==>
              var w := Levels[i].world;
              Levels[i].number == i + 1 && Open(w, w.start) && Open(w, w.goal) && Levels[i].targetSteps > 0
  {
  }

  // ---------------------------------------------------------------------
  // Runs on the fixtures

  /** Level 1: four separate forward moves reach the goal on the fourth step and score 80. */
  lemma Level1FourForwards(r: Robot)
    ensures Run(Levels[0].world, r, [Forward, Forward, Forward, Forward]).result == Win(80)
  {
    Level1Cells(Levels[0].world);
    Level1Forwards(Levels[0].world, [Forward, Forward, Forward, Forward]);
  }

  /** On level 1 the top row is free of walls. */
  lemma Level1Cells(lv: Level)
    requires lv.width == 5 && lv.height == 5 && lv.walls == []
    ensures forall i :: 1 <= i <= 5 ==> (Open(lv, Walk(Pos(0, 0), East, i)) <==> i <= 4)
  {
  }

  /** Four single forward moves from the corner of a top row free for four cells. */
  lemma Level1Forwards(lv: Level, prog: seq<Cmd>)
    requires lv.start == Pos(0, 0) && lv.startDir == East && lv.goal == Pos(4, 0)
    requires forall i :: 1 <= i <= 5 ==> (Open(lv, Walk(Pos(0, 0), East, i)) <==> i <= 4)
    requires prog == [Forward, Forward, Forward, Forward]
    ensures Run(lv, Robot(Pos(0, 0), East), prog).result == Win(80)
  {
    assert Open(lv, Pos(1, 0)) && Open(lv, Pos(2, 0)) && Open(lv, Pos(3, 0)) && Open(lv, Pos(4, 0)) by {
      assert Walk(Pos(0, 0), East, 1) == Pos(1, 0) && Walk(Pos(0, 0), East, 2) == Pos(2, 0);
      assert Walk(Pos(0, 0), East, 3) == Pos(3, 0) && Walk(Pos(0, 0), East, 4) == Pos(4, 0);
    }
    RunFromContinues(lv, Robot(Pos(0, 0), East), prog, 0, Robot(Pos(1, 0), East));
    RunFromContinues(lv, Robot(Pos(1, 0), East), prog[1..], 1, Robot(Pos(2, 0), East));
    assert prog[1..][1..] == prog[2..];
    RunFromContinues(lv, Robot(Pos(2, 0), East), prog[2..], 2, Robot(Pos(3, 0), East));
    assert prog[2..][1..] == prog[3..];
  }

  /** Level 1: one repeat of four forward moves is a single step and scores 95. */
  lemma Level1OneRepeat(r: Robot)
    ensures Run(Levels[0].world, r, [Repeat(4, [Forward])]).result == Win(95)
  {
    Level1Cells(Levels[0].world);
    RunSingleWalk(Levels[0].world, r, 4);
  }

  /**
   * Level 1: five forward moves in one repeat pass over the goal on the
   * fourth move, but the goal is only checked after the whole repeat, and
   * the fifth move leaves the grid.
   */
  lemma Level1OvershootInRepeat(r: Robot)
    ensures Run(Levels[0].world, r, [Repeat(5, [Forward])]) == Finish(Robot(Pos(4, 0), East), Lose(OutOfBounds))
  {
    Level1Cells(Levels[0].world);
    RunBlockedWalk(Levels[0].world, r, 5, 4);
  }

  /** Level 1: a repeat whose count is left to default (2) moves the robot two cells and stops short. */
  lemma Level1DefaultCount(r: Robot)
    ensures Run(Levels[0].world, r, [Repeat(0, [Forward])]) == Finish(Robot(Pos(2, 0), East), Lose(GoalNotReached))
  {
    Level1Cells(Levels[0].world);
    RunSingleWalk(Levels[0].world, r, 0);
  }

  /** Level 2: walking east hits the wall at (2, 0) after one move. */
  lemma Level2Wall(r: Robot)
    ensures Run(Levels[1].world, r, [Repeat(3, [Forward])]) == Finish(Robot(Pos(1, 0), East), Lose(HitWall))
  {
    var lv := Levels[1].world;
    RunBlockedWalk(lv, r, 3, 1);
  }

  /** Level 2: down two cells, then four cells east, in five top-level steps. */
  lemma Level2Solution(r: Robot)
    ensures Run(Levels[1].world, r, [Right, Forward, Forward, Left, Repeat(4, [Forward])]).result == Win(75)
  {
    Level2Route(Levels[1].world, r);
  }

  /** The route of Level2Solution on any world laid out like level 2. */
  lemma Level2Route(lv: Level, r: Robot)
    requires lv.width == 5 && lv.height == 5 && lv.start == Pos(0, 0) && lv.startDir == East && lv.goal == Pos(4, 2)
    requires lv.walls == [Pos(2, 0), Pos(2, 1)]
    ensures Run(lv, r, [Right, Forward, Forward, Left, Repeat(4, [Forward])]).result == Win(75)
  {
    var prog := [Right, Forward, Forward, Left, Repeat(4, [Forward])];
    var p2 := Robot(Pos(0, 2), East);
    Level2Descent(lv, prog);
    forall i | 1 <= i <= 4 ensures Open(lv, Walk(p2.pos, p2.dir, i)) {
      SomeWallAtIsMember(lv.walls, i, 2);
    }
    assert prog[4..] == [Repeat(4, [Forward])] + [];
    RunFromWalk(lv, p2, 4, [], 4);
  }

  /** The first four commands of the level 2 route: turn south, two cells down, turn east. */
  lemma Level2Descent(lv: Level, prog: seq<Cmd>)
    requires lv.width == 5 && lv.height == 5 && lv.start == Pos(0, 0) && lv.startDir == East && lv.goal == Pos(4, 2)
    requires lv.walls == [Pos(2, 0), Pos(2, 1)]
    requires |prog| == 5 && prog[..4] == [Right, Forward, Forward, Left]
    ensures RunFrom(lv, Robot(Pos(0, 0), East), prog, 0) == RunFrom(lv, Robot(Pos(0, 2), East), prog[4..], 4)
  {
    RightCycle();
    LeftCycle();
    assert prog[0] == Right && prog[1] == Forward && prog[2] == Forward && prog[3] == Left by {
      assert prog[..4][0] == prog[0] && prog[..4][1] == prog[1] && prog[..4][2] == prog[2] && prog[..4][3] == prog[3];
    }
    SomeWallAtIsMember(lv.walls, 0, 1);
    SomeWallAtIsMember(lv.walls, 0, 2);
    RunFromContinues(lv, Robot(Pos(0, 0), East), prog, 0, Robot(Pos(0, 0), South));
    RunFromContinues(lv, Robot(Pos(0, 0), South), prog[1..], 1, Robot(Pos(0, 1), South));
    assert prog[1..][1..] == prog[2..];
    RunFromContinues(lv, Robot(Pos(0, 1), South), prog[2..], 2, Robot(Pos(0, 2), South));
    assert prog[2..][1..] == prog[3..];
    RunFromContinues(lv, Robot(Pos(0, 2), South), prog[3..], 3, Robot(Pos(0, 2), East));
    assert prog[3..][1..] == prog[4..];
  }

  /** Level 3: along the top row, then down the last column, in three top-level steps. */
  lemma Level3Solution(r: Robot)
    ensures Run(Levels[2].world, r, [Repeat(5, [Forward]), Right, Repeat(3, [Forward])]).result == Win(85)
  {
    Level3Cells(Levels[2].world);
    Level3Route(Levels[2].world, r);
  }

  /** On level 3 the top row and the last column are free of walls. */
  lemma Level3Cells(lv: Level)
    requires lv.width == 6 && lv.height == 4 && lv.walls == [Pos(1, 1), Pos(2, 1), Pos(3, 1), Pos(4, 1)]
    ensures forall i :: 1 <= i <= 5 ==> Open(lv, Walk(Pos(0, 0), East, i))
    ensures forall i :: 1 <= i <= 3 ==> Open(lv, Walk(Pos(5, 0), South, i))
  {
    forall i | 1 <= i <= 5 ensures Open(lv, Walk(Pos(0, 0), East, i)) {
      SomeWallAtIsMember(lv.walls, i, 0);
    }
    forall i | 1 <= i <= 3 ensures Open(lv, Walk(Pos(5, 0), South, i)) {
      SomeWallAtIsMember(lv.walls, 5, i);
    }
  }

  /** The route of Level3Solution on any world with level 3's start, goal and free cells. */
  lemma Level3Route(lv: Level, r: Robot)
    requires lv.start == Pos(0, 0) && lv.startDir == East && lv.goal == Pos(5, 3)
    requires forall i :: 1 <= i <= 5 ==> Open(lv, Walk(Pos(0, 0), East, i))
    requires forall i :: 1 <= i <= 3 ==> Open(lv, Walk(Pos(5, 0), South, i))
    ensures Run(lv, r, [Repeat(5, [Forward]), Right, Repeat(3, [Forward])]).result == Win(85)
  {
    var prog := [Repeat(5, [Forward]), Right, Repeat(3, [Forward])];
    var corner := Robot(Pos(5, 0), South);
    Level3TopRow(lv, prog);
    assert prog[2..] == [Repeat(3, [Forward])] + [];
    RunFromWalk(lv, corner, 3, [], 2);
  }

  /** The first two commands of the level 3 route: along the top row, then turn south. */
  lemma Level3TopRow(lv: Level, prog: seq<Cmd>)
    requires lv.goal == Pos(5, 3)
    requires forall i :: 1 <= i <= 5 ==> Open(lv, Walk(Pos(0, 0), East, i))
    requires |prog| == 3 && prog[0] == Repeat(5, [Forward]) && prog[1] == Right
    ensures RunFrom(lv, Robot(Pos(0, 0), East), prog, 0) == RunFrom(lv, Robot(Pos(5, 0), South), prog[2..], 2)
  {
    assert prog == [Repeat(5, [Forward])] + prog[1..];
    RunFromWalk(lv, Robot(Pos(0, 0), East), 5, prog[1..], 0);
    Level3TurnSouth(lv, prog[1..]);
    assert prog[1..][1..] == prog[2..];
  }

  /** At the top right corner of level 3 a right turn faces the robot south. */
  lemma Level3TurnSouth(lv: Level, cs: seq<Cmd>)
    requires lv.goal == Pos(5, 3)
    requires |cs| == 2 && cs[0] == Right
    ensures RunFrom(lv, Robot(Pos(5, 0), East), cs, 1) == RunFrom(lv, Robot(Pos(5, 0), South), cs[1..], 2)
  {
    RightCycle();
    RunFromContinues(lv, Robot(Pos(5, 0), East), cs, 1, Robot(Pos(5, 0), South));
  }

  /** An `if-wall` block from the editor stops the run as an unknown command. */
  lemma IfWallStopsRun(r: Robot)
    ensures Run(Levels[0].world, r, [Forward, Unknown("if-wall"), Forward]) ==
            Finish(Robot(Pos(1, 0), East), Lose(UnknownCommand("if-wall")))
  {
  }

}
