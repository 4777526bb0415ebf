/**
 * RobloxAdventureGame of roblox-adventure.js without the page: the level
 * table, the star rating, the running score, level progression, and the
 * `isRunning` flag that keeps a second run or a reset out while a run is
 * in progress. The world and the workspace are the World3D and
 * BlockSystem objects of world.dfy and blocks.dfy.
 */
module Game {
  import opened Common
  import opened Grid
  import opened Interpreter
  import opened World
  import opened Blocks
  import opened LevelTable

  // ---------------------------------------------------------------------
  // Stars

  /**
   * `calculateStars` for a level with this target: 3 stars from
   * efficiency 1.5, 2 from 1.0, else 1, where efficiency is
   * `score / (targetSteps * 10)`. With a zero target, a positive score is
   * an infinite efficiency and a zero score is NaN, which passes no test.
   */
  function Stars(score: nat, targetSteps: nat): (stars: nat)
    ensures 1 <= stars <= 3
  {
    if targetSteps == 0 && score == 0 then 1
    else if 2 * score >= 30 * targetSteps then 3
    else if score >= 10 * targetSteps then 2
    else 1
  }

  /** The efficiency the source compares, as an exact quotient. */
  function Efficiency(score: nat, targetSteps: nat): real
    requires targetSteps > 0
  {
    score as real / (10 * targetSteps) as real
  }

  /** The integer thresholds agree with the efficiency tests of `calculateStars`. */
  lemma StarsMatchEfficiency(score: nat, targetSteps: nat)
    requires targetSteps > 0
    ensures Stars(score, targetSteps) == 3 <==> Efficiency(score, targetSteps) >= 1.5
    ensures Stars(score, targetSteps) >= 2 <==> Efficiency(score, targetSteps) >= 1.0
  {
    var d := (10 * targetSteps) as real;
    QuotientAtLeast(score as real, d, 1.5);
    QuotientAtLeast(score as real, d, 1.0);
  }

  lemma QuotientAtLeast(a: real, d: real, c: real)
    requires d > 0.0
    ensures a / d >= c <==> a >= c * d
  {
    var q := a / d;
    assert q * d == a;
    if q >= c {
      assert (q - c) * d >= 0.0;
    } else {
      assert (c - q) * d > 0.0;
    }
  }

  /** More score never means fewer stars. */
  lemma StarsMonotone(s1: nat, s2: nat, targetSteps: nat)
    requires s1 <= s2
    ensures Stars(s1, targetSteps) <= Stars(s2, targetSteps)
  {
  }

  /** `calculateStars` on the current level: None where the level has no entry (the source then throws). */
  function CalculateStars(currentLevel: int, score: nat): (r: Option<nat>)
    ensures r.Some? <==> 1 <= currentLevel <= |Levels|
    ensures r.Some? ==> 1 <= r.value <= 3
  {
    match LevelEntry(currentLevel)
    case None => None
    case Some(data) => Some(Stars(score, data.targetSteps))
  }

  // ---------------------------------------------------------------------
  // The controller

  class RobloxAdventureGame {
    var currentLevel: int
    const maxLevel: int
    var score: nat
    var isRunning: bool
    const world3D: World3D
    const blockSystem: BlockSystem

    /** A level is loaded in the world, and the current level is within `1..maxLevel`. */
    ghost predicate Valid()
      reads this, world3D
    {
      maxLevel == MaxLevel && 1 <= currentLevel <= maxLevel && world3D.worldData.Some?
    }

    /** The constructor, with `init`'s `loadLevel(this.currentLevel)`. */
    constructor ()
      ensures Valid()
      ensures currentLevel == 1 && score == 0 && !isRunning
      ensures world3D.worldData == Some(Levels[0].world) && world3D.State() == Start(Levels[0].world)
      ensures blockSystem.blocks == []
      ensures fresh(world3D) && fresh(blockSystem)
    {
      currentLevel := 1;
      maxLevel := MaxLevel;
      score := 0;
      isRunning := false;
      world3D := new World3D();
      blockSystem := new BlockSystem();
      new;
      LoadLevel(currentLevel);
    }

    /**
     * `loadLevel`: a level without an entry changes nothing; otherwise its
     * world is loaded and the workspace is cleared.
     */
    method LoadLevel(levelNum: int)
      modifies world3D, blockSystem
      ensures old(Valid()) ==> Valid()
      ensures LevelEntry(levelNum).None? ==> unchanged(world3D) && unchanged(blockSystem)
      ensures LevelEntry(levelNum).Some? ==>
                var w := LevelEntry(levelNum).value.world;
                world3D.worldData == Some(w) && world3D.State() == Start(w) && blockSystem.blocks == []
    {
      var levelData := LevelEntry(levelNum);
      if levelData.None? {
        return;
      }
      world3D.LoadLevel(levelData.value.world);
      blockSystem.ClearWorkspace();
    }

    /**
     * The synchronous start of `runProgram`: refused while a run is in
     * progress; otherwise the flag is raised and the program is read from
     * the workspace.
     */
    method StartRun() returns (started: bool, program: seq<Cmd>)
      modifies this`isRunning
      ensures Valid() <==> old(Valid())
      ensures started == !old(isRunning)
      ensures isRunning
      ensures started ==> program == CommandsOf(blockSystem.blocks)
    {
      if isRunning {
        return false, [];
      }
      isRunning := true;
      program := blockSystem.GetProgram();
      started := true;
    }

    /**
     * The end of `runProgram`, once `executeProgram` has answered: a win
     * goes to `levelCompleted`; whatever happened, `finally` lowers the flag.
     */
    method FinishRun(result: RunResult) returns (stars: Option<nat>)
      requires isRunning
      modifies this`isRunning, this`score
      ensures Valid() <==> old(Valid())
      ensures !isRunning
      ensures result.Win? ==> score == old(score) + result.score && stars == CalculateStars(currentLevel, result.score)
      ensures result.Lose? ==> score == old(score) && stars == None
    {
      stars := None;
      if result.Win? {
        stars := LevelCompleted(result.score);
      }
      isRunning := false;
    }

    /**
     * `runProgram` with the animation waits taken as instantaneous: a
     * whole run between StartRun and FinishRun. While another run is in
     * progress it does nothing.
     */
    method RunProgram() returns (outcome: Option<RunResult>)
      requires Valid()
      modifies this`isRunning, this`score, world3D`playerPosition, world3D`playerDirection
      ensures Valid()
      ensures old(isRunning) ==> outcome == None && isRunning && score == old(score) && unchanged(world3D)
      ensures !old(isRunning) ==>
                var f := Run(world3D.worldData.value, old(world3D.State()), CommandsOf(blockSystem.blocks));
                && !isRunning
                && outcome == Some(f.result)
                && world3D.State() == f.robot
                && score == old(score) + (if f.result.Win? then f.result.score else 0)
    {
      var started, program := StartRun();
      if !started {
        return None;
      }
      var result := world3D.ExecuteProgram(program);
      var stars := FinishRun(result);
      outcome := Some(result);
    }

    /** `resetProgram`: ignored while a run is in progress, otherwise `resetLevel`. */
    method ResetProgram()
      requires Valid()
      modifies world3D`playerPosition, world3D`playerDirection
      ensures Valid()
      ensures isRunning ==> unchanged(world3D)
      ensures !isRunning ==> world3D.State() == Start(world3D.worldData.value)
    {
      if isRunning {
        return;
      }
      world3D.ResetLevel();
    }

    /**
     * `levelCompleted`: the earned score is added to the total first; then
     * the stars are computed, which throws (None) on a level with no entry.
     */
    method LevelCompleted(earnedScore: nat) returns (stars: Option<nat>)
      modifies this`score
      ensures Valid() <==> old(Valid())
      ensures score == old(score) + earnedScore
      ensures stars == CalculateStars(currentLevel, earnedScore)
    {
      score := score + earnedScore;
      stars := CalculateStars(currentLevel, earnedScore);
    }

    /**
     * `nextLevel`: below the last level, move to the next one and load it
     * (which does nothing past the level table); at the last level, the
     * state stays as it is (the page then leaves the game).
     */
    method NextLevel()
      requires Valid()
      modifies this`currentLevel, world3D, blockSystem
      ensures Valid()
      ensures old(currentLevel) < maxLevel ==> currentLevel == old(currentLevel) + 1
      ensures old(currentLevel) >= maxLevel ==>
                currentLevel == old(currentLevel) && unchanged(world3D) && unchanged(blockSystem)
      ensures LevelEntry(currentLevel).None? ==> unchanged(world3D) && unchanged(blockSystem)
      ensures currentLevel != old(currentLevel) && LevelEntry(currentLevel).Some? ==>
                var w := LevelEntry(currentLevel).value.world;
                world3D.worldData == Some(w) && world3D.State() == Start(w) && blockSystem.blocks == []
    {
      if currentLevel < maxLevel {
        currentLevel := currentLevel + 1;
        LoadLevel(currentLevel);
      }
    }
  }

  /** On level 1, a win in four steps (score 80) earns three stars. */
  lemma Level1Stars()
    ensures CalculateStars(1, 80) == Some(3)
    ensures CalculateStars(1, 95) == Some(3)
  {
  }

  /**
   * Past level 3 there is no entry: `nextLevel` can still raise the level
   * to 4, the world keeps level 3, and the stars for a win there are
   * undefined, although the score has already been added.
   */
  lemma BeyondTheTable(score: nat)
    ensures 3 < MaxLevel && LevelEntry(4).None?
    ensures CalculateStars(4, score).None?
  {
  }
}
