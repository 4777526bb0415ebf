/**
 * The command language of World3D (3d-world.js) and its meaning as
 * functions: one command, a sequence of commands, a repeat block, and a
 * whole program run with its step cap, goal check and score. The World
 * class in world.dfy is proved to compute exactly these functions.
 */
module Interpreter {
  import opened Grid

  /**
   * A program command `{type, count?, children?}`. A repeat without a
   * count behaves as one with count 0 (both default to 2), and one
   * without children as one with none. `Unknown` carries any other type
   * string, such as the editor's `if-wall`.
   */
  datatype Cmd =
    | Forward
    | Left
    | Right
    | Repeat(count: int, children: seq<Cmd>)
    | Unknown(kind: string)

  /** The cap on top-level commands of one run. */
  const MaxSteps: nat := 50

  /** The win score after `steps` top-level commands: `max(100 - 5*steps, 10)`. */
  function Score(steps: nat): (score: nat)
    ensures 10 <= score <= 100
    ensures steps >= 1 ==> score <= 95
    ensures steps <= 18 ==> score == 100 - 5 * steps
    ensures steps >= 18 ==> score == 10
  {
    if 100 - 5 * steps > 10 then 100 - 5 * steps else 10
  }

  /** The result of `executeProgram`: a win with its score, or an error. */
  datatype RunResult = Win(score: nat) | Lose(error: Error)

  /** The robot when a run ends, with the run's result. */
  datatype Finish = Finish(robot: Robot, result: RunResult)

  /** How many times a repeat runs its children: `count || 2`, and no times for a negative count. */
  function Iterations(count: int): (n: nat)
    ensures count == 0 ==> n == 2
    ensures count < 0 ==> n == 0
    ensures count > 0 ==> n == count
  {
    var n := if count == 0 then 2 else count;
    if n < 0 then 0 else n
  }

  /** The four type strings `executeCommand` dispatches on. */
  predicate CommandType(kind: string) {
    kind == "move-forward" || kind == "turn-left" || kind == "turn-right" || kind == "repeat"
  }

  /**
   * A command tree whose `Unknown` commands carry only types that
   * `executeCommand` does not dispatch on, as the editor builds them.
   */
  predicate WellFormed(c: Cmd)
    decreases c
  {
    match c
    case Unknown(kind) => !CommandType(kind)
    case Repeat(_, cs) => forall i :: 0 <= i < |cs| ==> WellFormed(cs[i])
    case _ => true
  }

  /** `executeCommand`. */
  function Exec(lv: Level, r: Robot, c: Cmd): Step
    decreases c, 2
  {
    match c
    case Forward => Move(lv, r)
    case Left => Step(Robot(r.pos, LeftOf(r.dir)), Ok)
    case Right => Step(Robot(r.pos, RightOf(r.dir)), Ok)
    case Repeat(n, cs) => ExecTimes(lv, r, cs, Iterations(n))
    case Unknown(k) => Step(r, Fail(UnknownCommand(k)))
  }

  /** The children of a repeat, in order, stopping at the first that fails. */
  function ExecSeq(lv: Level, r: Robot, cs: seq<Cmd>): Step
    decreases cs, 0
  {
    if cs == [] then Step(r, Ok)
    else
      var s := Exec(lv, r, cs[0]);
      if s.outcome.Fail? then s else ExecSeq(lv, s.robot, cs[1..])
  }

  /** `executeRepeat`'s outer loop: `k` passes over the children, stopping at the first failure. */
  function ExecTimes(lv: Level, r: Robot, cs: seq<Cmd>, k: nat): Step
    decreases cs, 1, k
  {
    if k == 0 then Step(r, Ok)
    else
      var s := ExecTimes(lv, r, cs, k - 1);
      if s.outcome.Fail? then s else ExecSeq(lv, s.robot, cs)
  }

  /**
   * `executeProgram`'s loop from the command `cs[0]` on, with `steps`
   * top-level commands already done.
   */
  function RunFrom(lv: Level, r: Robot, cs: seq<Cmd>, steps: nat): Finish
    decreases |cs|
  {
    if cs == [] then Finish(r, Lose(GoalNotReached))
    else if steps >= MaxSteps then Finish(r, Lose(TooManySteps))
    else
      var s := Exec(lv, r, cs[0]);
      if s.outcome.Fail? then Finish(s.robot, Lose(s.outcome.error))
      else if s.robot.pos == lv.goal then Finish(s.robot, Win(Score(steps + 1)))
      else RunFrom(lv, s.robot, cs[1..], steps + 1)
  }

  /** `executeProgram`: an empty program fails first; otherwise reset to the start and run. */
  function Run(lv: Level, r: Robot, prog: seq<Cmd>): Finish {
    if prog == [] then Finish(r, Lose(EmptyProgram))
    else RunFrom(lv, Start(lv), prog, 0)
  }

  // ---------------------------------------------------------------------
  // Sequences of commands

  /** Running `a + b` runs `a`, then `b` from where `a` left the robot, unless `a` failed. */
  lemma {:induction false} ExecSeqAppend(lv: Level, r: Robot, a: seq<Cmd>, b: seq<Cmd>)
    ensures ExecSeq(lv, r, a + b) ==
            var s := ExecSeq(lv, r, a);
            if s.outcome.Fail? then s else ExecSeq(lv, s.robot, b)
    decreases |a|
  {
    if a == [] {
      assert a + b == b;
    } else {
      assert (a + b)[0] == a[0];
      assert (a + b)[1..] == a[1..] + b;
      var s := Exec(lv, r, a[0]);
      if s.outcome.Ok? {
        ExecSeqAppend(lv, s.robot, a[1..], b);
      }
    }
  }

  /** One more child: the prefix `cs[..j+1]` is the prefix `cs[..j]` followed by `cs[j]`. */
  lemma ExecSeqSnoc(lv: Level, r: Robot, cs: seq<Cmd>, j: nat)
    requires j < |cs|
    ensures ExecSeq(lv, r, cs[..j + 1]) ==
            var s := ExecSeq(lv, r, cs[..j]);
            if s.outcome.Fail? then s else Exec(lv, s.robot, cs[j])
  {
    assert cs[..j + 1] == cs[..j] + [cs[j]];
    ExecSeqAppend(lv, r, cs[..j], [cs[j]]);
  }

  /** Once a prefix has failed, the rest of the children are never run. */
  lemma ExecSeqFailedPrefix(lv: Level, r: Robot, cs: seq<Cmd>, j: nat)
    requires j <= |cs|
    requires ExecSeq(lv, r, cs[..j]).outcome.Fail?
    ensures ExecSeq(lv, r, cs) == ExecSeq(lv, r, cs[..j])
  {
    assert cs == cs[..j] + cs[j..];
    ExecSeqAppend(lv, r, cs[..j], cs[j..]);
  }

  /**
   * A failing sequence fails at its first failing command: every command
   * before it succeeded, and the sequence's result is that command's result.
   */
  lemma {:induction false} ExecSeqFirstFailure(lv: Level, r: Robot, cs: seq<Cmd>)
    requires ExecSeq(lv, r, cs).outcome.Fail?
    ensures exists j :: 0 <= j < |cs| && ExecSeq(lv, r, cs[..j]).outcome.Ok? &&
                        Exec(lv, ExecSeq(lv, r, cs[..j]).robot, cs[j]) == ExecSeq(lv, r, cs)
    decreases |cs|
  {
    var s := Exec(lv, r, cs[0]);
    assert cs[..0] == [];
    if s.outcome.Ok? {
      ExecSeqFirstFailure(lv, s.robot, cs[1..]);
      var j :| 0 <= j < |cs[1..]| && ExecSeq(lv, s.robot, cs[1..][..j]).outcome.Ok? &&
               Exec(lv, ExecSeq(lv, s.robot, cs[1..][..j]).robot, cs[1..][j]) == ExecSeq(lv, s.robot, cs[1..]);
      assert cs[..j + 1] == [cs[0]] + cs[1..][..j];
      ExecSeqAppend(lv, r, [cs[0]], cs[1..][..j]);
      assert ExecSeq(lv, r, [cs[0]]) == s by {
        assert [cs[0]][1..] == [];
      }
    }
  }

  // ---------------------------------------------------------------------
  // Repeat blocks

  /** After a failing pass, further passes change nothing. */
  lemma {:induction false} ExecTimesFailStable(lv: Level, r: Robot, cs: seq<Cmd>, i: nat, k: nat)
    requires i <= k
    requires ExecTimes(lv, r, cs, i).outcome.Fail?
    ensures ExecTimes(lv, r, cs, k) == ExecTimes(lv, r, cs, i)
    decreases k
  {
    if k > i {
      ExecTimesFailStable(lv, r, cs, i, k - 1);
    }
  }

  /** The children written out `k` times, one pass after another. */
  function Repeated(cs: seq<Cmd>, k: nat): (body: seq<Cmd>)
    ensures |body| == k * |cs|
  {
    if k == 0 then [] else Repeated(cs, k - 1) + cs
  }

  /** `k` passes over the children run exactly like the children written out `k` times. */
  lemma {:induction false} ExecTimesIsRepeated(lv: Level, r: Robot, cs: seq<Cmd>, k: nat)
    ensures ExecTimes(lv, r, cs, k) == ExecSeq(lv, r, Repeated(cs, k))
    decreases k
  {
    if k > 0 {
      ExecTimesIsRepeated(lv, r, cs, k - 1);
      ExecSeqAppend(lv, r, Repeated(cs, k - 1), cs);
    }
  }

  /** A repeat runs its children `Iterations(count)` times in a row. */
  lemma RepeatRunsChildren(lv: Level, r: Robot, n: int, cs: seq<Cmd>)
    ensures Exec(lv, r, Repeat(n, cs)) == ExecSeq(lv, r, Repeated(cs, Iterations(n)))
  {
    ExecTimesIsRepeated(lv, r, cs, Iterations(n));
  }

  /**
   * A count of 0 (the value of a missing count, too) runs the children twice;
   * a negative count runs them no times and succeeds.
   */
  lemma RepeatCountDefaults(lv: Level, r: Robot, n: int, cs: seq<Cmd>)
    ensures Exec(lv, r, Repeat(0, cs)) == ExecSeq(lv, r, cs + cs)
    ensures n < 0 ==> Exec(lv, r, Repeat(n, cs)) == Step(r, Ok)
    ensures n > 0 ==> Exec(lv, r, Repeat(n, cs)) == ExecSeq(lv, r, Repeated(cs, n))
  {
    RepeatRunsChildren(lv, r, 0, cs);
    assert Repeated(cs, 2) == [] + cs + cs;
    assert [] + cs + cs == cs + cs;
    RepeatRunsChildren(lv, r, n, cs);
  }

  /** `k` passes over no children succeed and leave the robot where it was. */
  lemma {:induction false} ExecTimesNoChildren(lv: Level, r: Robot, k: nat)
    ensures ExecTimes(lv, r, [], k) == Step(r, Ok)
    decreases k
  {
    if k > 0 {
      ExecTimesNoChildren(lv, r, k - 1);
    }
  }

  /** A repeat with no children succeeds with no change, whatever its count. */
  lemma RepeatNoChildren(lv: Level, r: Robot, n: int)
    ensures Exec(lv, r, Repeat(n, [])) == Step(r, Ok)
  {
    ExecTimesNoChildren(lv, r, Iterations(n));
  }

  /**
   * A failing repeat stops at the first failing child of the written-out
   * passes and returns that child's result (its error, and the robot as
   * the earlier children left it).
   */
  lemma RepeatStopsAtFirstFailure(lv: Level, r: Robot, n: int, cs: seq<Cmd>)
    requires Exec(lv, r, Repeat(n, cs)).outcome.Fail?
    ensures var body := Repeated(cs, Iterations(n));
            exists j :: 0 <= j < |body| && ExecSeq(lv, r, body[..j]).outcome.Ok? &&
                        Exec(lv, ExecSeq(lv, r, body[..j]).robot, body[j]) == Exec(lv, r, Repeat(n, cs))
  {
    RepeatRunsChildren(lv, r, n, cs);
    ExecSeqFirstFailure(lv, r, Repeated(cs, Iterations(n)));
  }

  // ---------------------------------------------------------------------
  // Grid invariant: committed positions are open cells

  lemma {:induction false} ExecKeepsOpen(lv: Level, r: Robot, c: Cmd)
    requires Open(lv, r.pos)
    ensures Open(lv, Exec(lv, r, c).robot.pos)
    decreases c, 2
  {
    match c
    case Forward => MoveKeepsOpen(lv, r);
    case Left =>
    case Right =>
    case Repeat(n, cs) => ExecTimesKeepsOpen(lv, r, cs, Iterations(n));
    case Unknown(_) =>
  }

  lemma {:induction false} ExecSeqKeepsOpen(lv: Level, r: Robot, cs: seq<Cmd>)
    requires Open(lv, r.pos)
    ensures Open(lv, ExecSeq(lv, r, cs).robot.pos)
    decreases cs, 0
  {
    if cs != [] {
      ExecKeepsOpen(lv, r, cs[0]);
      var s := Exec(lv, r, cs[0]);
      if s.outcome.Ok? {
        ExecSeqKeepsOpen(lv, s.robot, cs[1..]);
      }
    }
  }

  lemma {:induction false} ExecTimesKeepsOpen(lv: Level, r: Robot, cs: seq<Cmd>, k: nat)
    requires Open(lv, r.pos)
    ensures Open(lv, ExecTimes(lv, r, cs, k).robot.pos)
    decreases cs, 1, k
  {
    if k > 0 {
      ExecTimesKeepsOpen(lv, r, cs, k - 1);
      var s := ExecTimes(lv, r, cs, k - 1);
      if s.outcome.Ok? {
        ExecSeqKeepsOpen(lv, s.robot, cs);
      }
    }
  }

  lemma {:induction false} RunFromKeepsOpen(lv: Level, r: Robot, cs: seq<Cmd>, steps: nat)
    requires Open(lv, r.pos)
    ensures Open(lv, RunFrom(lv, r, cs, steps).robot.pos)
    decreases |cs|
  {
    if cs != [] && steps < MaxSteps {
      ExecKeepsOpen(lv, r, cs[0]);
      var s := Exec(lv, r, cs[0]);
      if s.outcome.Ok? && s.robot.pos != lv.goal {
        RunFromKeepsOpen(lv, s.robot, cs[1..], steps + 1);
      }
    }
  }

  /**
   * If the level starts the robot on an open cell, every position a run
   * commits, and so the one it ends on, is inside the grid and not a wall.
   */
  lemma RunKeepsOpen(lv: Level, r: Robot, prog: seq<Cmd>)
    requires Open(lv, lv.start) && Open(lv, r.pos)
    ensures Open(lv, Run(lv, r, prog).robot.pos)
  {
    if prog != [] {
      RunFromKeepsOpen(lv, Start(lv), prog, 0);
    }
  }

  // ---------------------------------------------------------------------
  // Command errors

  /** A command, however nested, can only fail by a blocked move or an unknown type. */
  predicate CommandError(e: Error) {
    e == OutOfBounds || e == HitWall || e.UnknownCommand?
  }

  lemma {:induction false} ExecErrors(lv: Level, r: Robot, c: Cmd)
    ensures Exec(lv, r, c).outcome.Fail? ==> CommandError(Exec(lv, r, c).outcome.error)
    decreases c, 2
  {
    match c
    case Repeat(n, cs) => ExecTimesErrors(lv, r, cs, Iterations(n));
    case _ =>
  }

  lemma {:induction false} ExecSeqErrors(lv: Level, r: Robot, cs: seq<Cmd>)
    ensures ExecSeq(lv, r, cs).outcome.Fail? ==> CommandError(ExecSeq(lv, r, cs).outcome.error)
    decreases cs, 0
  {
    if cs != [] {
      ExecErrors(lv, r, cs[0]);
      var s := Exec(lv, r, cs[0]);
      if s.outcome.Ok? {
        ExecSeqErrors(lv, s.robot, cs[1..]);
      }
    }
  }

  lemma {:induction false} ExecTimesErrors(lv: Level, r: Robot, cs: seq<Cmd>, k: nat)
    ensures ExecTimes(lv, r, cs, k).outcome.Fail? ==> CommandError(ExecTimes(lv, r, cs, k).outcome.error)
    decreases cs, 1, k
  {
    if k > 0 {
      ExecTimesErrors(lv, r, cs, k - 1);
      var s := ExecTimes(lv, r, cs, k - 1);
      if s.outcome.Ok? {
        ExecSeqErrors(lv, s.robot, cs);
      }
    }
  }

  // ---------------------------------------------------------------------
  // Turns

  /** A command tree with no forward move anywhere in it. */
  predicate TurnsOnly(c: Cmd)
    decreases c
  {
    match c
    case Forward => false
    case Repeat(_, cs) => forall i :: 0 <= i < |cs| ==> TurnsOnly(cs[i])
    case _ => true
  }

  /** Commands without a forward move never change the robot's position. */
  lemma {:induction false} TurnsKeepPosition(lv: Level, r: Robot, c: Cmd)
    requires TurnsOnly(c)
    ensures Exec(lv, r, c).robot.pos == r.pos
    decreases c, 2
  {
    match c
    case Repeat(n, cs) => TimesTurnsKeepPosition(lv, r, cs, Iterations(n));
    case _ =>
  }

  lemma {:induction false} SeqTurnsKeepPosition(lv: Level, r: Robot, cs: seq<Cmd>)
    requires forall i :: 0 <= i < |cs| ==> TurnsOnly(cs[i])
    ensures ExecSeq(lv, r, cs).robot.pos == r.pos
    decreases cs, 0
  {
    if cs != [] {
      TurnsKeepPosition(lv, r, cs[0]);
      var s := Exec(lv, r, cs[0]);
      if s.outcome.Ok? {
        SeqTurnsKeepPosition(lv, s.robot, cs[1..]);
      }
    }
  }

  lemma {:induction false} TimesTurnsKeepPosition(lv: Level, r: Robot, cs: seq<Cmd>, k: nat)
    requires forall i :: 0 <= i < |cs| ==> TurnsOnly(cs[i])
    ensures ExecTimes(lv, r, cs, k).robot.pos == r.pos
    decreases cs, 1, k
  {
    if k > 0 {
      TimesTurnsKeepPosition(lv, r, cs, k - 1);
      var s := ExecTimes(lv, r, cs, k - 1);
      if s.outcome.Ok? {
        SeqTurnsKeepPosition(lv, s.robot, cs);
      }
    }
  }

  /** A left turn then a right turn (or the reverse) is the identity on the robot. */
  lemma LeftRightCancel(lv: Level, r: Robot)
    ensures ExecSeq(lv, r, [Left, Right]) == Step(r, Ok)
    ensures ExecSeq(lv, r, [Right, Left]) == Step(r, Ok)
  {
    TurnsInverse(r.dir);
    assert [Left, Right][1..] == [Right];
    assert [Right, Left][1..] == [Left];
  }

  /** Four left turns, or four right turns, are the identity on the robot. */
  lemma FourTurnsCancel(lv: Level, r: Robot)
    ensures Exec(lv, r, Repeat(4, [Left])) == Step(r, Ok)
    ensures Exec(lv, r, Repeat(4, [Right])) == Step(r, Ok)
  {
    FourTurns(r.dir);
    var d := r.dir;
    assert ExecTimes(lv, r, [Left], 1) == Step(Robot(r.pos, LeftOf(d)), Ok);
    assert ExecTimes(lv, r, [Left], 2) == Step(Robot(r.pos, LeftOf(LeftOf(d))), Ok);
    assert ExecTimes(lv, r, [Left], 3) == Step(Robot(r.pos, LeftOf(LeftOf(LeftOf(d)))), Ok);
    assert ExecTimes(lv, r, [Left], 4) == Step(r, Ok);
    assert ExecTimes(lv, r, [Right], 1) == Step(Robot(r.pos, RightOf(d)), Ok);
    assert ExecTimes(lv, r, [Right], 2) == Step(Robot(r.pos, RightOf(RightOf(d))), Ok);
    assert ExecTimes(lv, r, [Right], 3) == Step(Robot(r.pos, RightOf(RightOf(RightOf(d)))), Ok);
    assert ExecTimes(lv, r, [Right], 4) == Step(r, Ok);
  }

  /** An unknown command type, such as `if-wall`, fails and changes nothing. */
  lemma UnknownFails(lv: Level, r: Robot, kind: string)
    requires !CommandType(kind)
    ensures Exec(lv, r, Unknown(kind)) == Step(r, Fail(UnknownCommand(kind)))
  {
  }

  // ---------------------------------------------------------------------
  // Whole runs

  /** An empty program fails before anything is reset. */
  lemma RunEmpty(lv: Level, r: Robot)
    ensures Run(lv, r, []) == Finish(r, Lose(EmptyProgram))
  {
  }

  /** A non-empty program starts from the level start, whatever the robot's state before. */
  lemma RunResets(lv: Level, r1: Robot, r2: Robot, prog: seq<Cmd>)
    requires prog != []
    ensures Run(lv, r1, prog) == Run(lv, r2, prog)
  {
  }

  /** Every win score is between 10 and 95, and fewer steps never score less. */
  lemma ScoreBounds(k: nat, m: nat)
    requires 1 <= k <= m
    ensures 10 <= Score(k) <= 95
    ensures Score(m) <= Score(k)
  {
  }

  /** The robot after the first `k` top-level commands, run one after another from the level start. */
  function After(lv: Level, prog: seq<Cmd>, k: nat): Step
    requires k <= |prog|
  {
    ExecSeq(lv, Start(lv), prog[..k])
  }

  /** The first `k` top-level commands succeed and leave the robot on the goal. */
  predicate AtGoalAfter(lv: Level, prog: seq<Cmd>, k: nat) {
    1 <= k <= |prog| && After(lv, prog, k).outcome.Ok? && After(lv, prog, k).robot.pos == lv.goal
  }

  /** The first `i` top-level commands succeed, and none of them ends on the goal. */
  predicate ClearUpTo(lv: Level, prog: seq<Cmd>, i: nat) {
    i <= |prog| && After(lv, prog, i).outcome.Ok? &&
    forall j :: 1 <= j <= i ==> !AtGoalAfter(lv, prog, j)
  }

  /** While the first `i` top-level commands are clear, the run is at command `i` with `i` steps taken. */
  lemma {:induction false} RunReachesPrefix(lv: Level, r: Robot, prog: seq<Cmd>, i: nat)
    requires prog != [] && i <= MaxSteps && ClearUpTo(lv, prog, i)
    ensures Run(lv, r, prog) == RunFrom(lv, After(lv, prog, i).robot, prog[i..], i)
    decreases i
  {
    if i == 0 {
      assert prog[..0] == [] && prog[0..] == prog;
    } else {
      assert ClearUpTo(lv, prog, i - 1) by {
        ExecSeqSnoc(lv, Start(lv), prog, i - 1);
      }
      RunReachesPrefix(lv, r, prog, i - 1);
      ExecSeqSnoc(lv, Start(lv), prog, i - 1);
      assert !AtGoalAfter(lv, prog, i);
      assert prog[i - 1..][0] == prog[i - 1];
      assert prog[i - 1..][1..] == prog[i..];
    }
  }

  /** One top-level command taken from a clear prefix: the run ends on it or carries on from it. */
  lemma RunFromStep(lv: Level, prog: seq<Cmd>, i: nat)
    requires i < |prog| && i < MaxSteps && ClearUpTo(lv, prog, i)
    ensures var s := After(lv, prog, i + 1);
            RunFrom(lv, After(lv, prog, i).robot, prog[i..], i) ==
              if s.outcome.Fail? then Finish(s.robot, Lose(s.outcome.error))
              else if s.robot.pos == lv.goal then Finish(s.robot, Win(Score(i + 1)))
              else RunFrom(lv, s.robot, prog[i + 1..], i + 1)
    ensures After(lv, prog, i + 1).outcome.Fail? ==> CommandError(After(lv, prog, i + 1).outcome.error)
  {
    ExecSeqSnoc(lv, Start(lv), prog, i);
    assert prog[i..][0] == prog[i];
    assert prog[i..][1..] == prog[i + 1..];
    ExecErrors(lv, After(lv, prog, i).robot, prog[i]);
  }

  /** Where the run can go from a clear prefix: each result has its exact reason. */
  lemma {:induction false} RunFromCases(lv: Level, prog: seq<Cmd>, i: nat)
    requires i <= MaxSteps && ClearUpTo(lv, prog, i)
    ensures var f := RunFrom(lv, After(lv, prog, i).robot, prog[i..], i);
            && (f.result.Win? ==>
                  exists k :: i < k <= MaxSteps && ClearUpTo(lv, prog, k - 1) &&
                              AtGoalAfter(lv, prog, k) && f.result.score == Score(k))
            && (f.result == Lose(TooManySteps) ==> MaxSteps < |prog| && ClearUpTo(lv, prog, MaxSteps))
            && (f.result == Lose(GoalNotReached) ==> |prog| <= MaxSteps && ClearUpTo(lv, prog, |prog|))
    decreases |prog| - i
  {
    if i < |prog| && i < MaxSteps {
      RunFromStep(lv, prog, i);
      var s := After(lv, prog, i + 1);
      if s.outcome.Fail? {
        assert CommandError(s.outcome.error);
      } else if s.robot.pos == lv.goal {
        assert AtGoalAfter(lv, prog, i + 1) && ClearUpTo(lv, prog, (i + 1) - 1);
      } else {
        RunFromCases(lv, prog, i + 1);
      }
    } else if i == |prog| {
      assert prog[i..] == [];
    }
  }

  /** The first top-level command that ends on the goal wins, scored by its position in the program. */
  lemma WinWhenGoalFirstReached(lv: Level, r: Robot, prog: seq<Cmd>, k: nat)
    requires 1 <= k <= MaxSteps && ClearUpTo(lv, prog, k - 1) && AtGoalAfter(lv, prog, k)
    ensures Run(lv, r, prog) == Finish(After(lv, prog, k).robot, Win(Score(k)))
  {
    RunReachesPrefix(lv, r, prog, k - 1);
    ExecSeqSnoc(lv, Start(lv), prog, k - 1);
    assert prog[k - 1..][0] == prog[k - 1];
  }

  /**
   * A run wins only that way: some top-level command among the first 50
   * is the first to end on the goal, and the score counts the commands up
   * to it. So the robot ends on the goal and the score is in 10..95.
   */
  lemma WinOnlyAtGoal(lv: Level, r: Robot, prog: seq<Cmd>)
    requires Run(lv, r, prog).result.Win?
    ensures exists k :: 1 <= k <= MaxSteps && ClearUpTo(lv, prog, k - 1) && AtGoalAfter(lv, prog, k) &&
                        Run(lv, r, prog).result.score == Score(k)
    ensures Run(lv, r, prog).robot.pos == lv.goal
    ensures 10 <= Run(lv, r, prog).result.score <= 95
  {
    assert ClearUpTo(lv, prog, 0) by { assert prog[..0] == []; }
    RunReachesPrefix(lv, r, prog, 0);
    RunFromCases(lv, prog, 0);
    var k :| 1 <= k <= MaxSteps && ClearUpTo(lv, prog, k - 1) && AtGoalAfter(lv, prog, k) &&
             Run(lv, r, prog).result.score == Score(k);
    WinWhenGoalFirstReached(lv, r, prog, k);
  }

  /**
   * The step cap: a run fails with TooManySteps exactly when the program
   * has more than 50 top-level commands and the first 50 all succeed
   * without any of them ending on the goal.
   */
  lemma TooManyStepsExactly(lv: Level, r: Robot, prog: seq<Cmd>)
    ensures Run(lv, r, prog).result == Lose(TooManySteps) <==>
            MaxSteps < |prog| && ClearUpTo(lv, prog, MaxSteps)
  {
    if prog != [] {
      assert ClearUpTo(lv, prog, 0) by { assert prog[..0] == []; }
      RunReachesPrefix(lv, r, prog, 0);
      RunFromCases(lv, prog, 0);
      if MaxSteps < |prog| && ClearUpTo(lv, prog, MaxSteps) {
        RunReachesPrefix(lv, r, prog, MaxSteps);
      }
    }
  }

  /**
   * A run fails with GoalNotReached exactly when the program is non-empty,
   * has at most 50 top-level commands, and all of them succeed without any
   * ending on the goal.
   */
  lemma GoalNotReachedExactly(lv: Level, r: Robot, prog: seq<Cmd>)
    ensures Run(lv, r, prog).result == Lose(GoalNotReached) <==>
            prog != [] && |prog| <= MaxSteps && ClearUpTo(lv, prog, |prog|)
  {
    if prog != [] {
      assert ClearUpTo(lv, prog, 0) by { assert prog[..0] == []; }
      RunReachesPrefix(lv, r, prog, 0);
      RunFromCases(lv, prog, 0);
      if |prog| <= MaxSteps && ClearUpTo(lv, prog, |prog|) {
        RunReachesPrefix(lv, r, prog, |prog|);
      }
    }
  }

  /** From a clear prefix, a command error is the error of the first top-level command that fails, within the cap. */
  lemma {:induction false} RunFromCommandError(lv: Level, prog: seq<Cmd>, i: nat)
    requires i <= MaxSteps && ClearUpTo(lv, prog, i)
    ensures var f := RunFrom(lv, After(lv, prog, i).robot, prog[i..], i);
            f.result.Lose? && CommandError(f.result.error) ==>
              exists k :: i < k <= MaxSteps && k <= |prog| && ClearUpTo(lv, prog, k - 1) &&
                          After(lv, prog, k) == Step(f.robot, Fail(f.result.error))
    decreases |prog| - i
  {
    if i < |prog| && i < MaxSteps {
      RunFromStep(lv, prog, i);
      var s := After(lv, prog, i + 1);
      if s.outcome.Fail? {
        assert ClearUpTo(lv, prog, (i + 1) - 1);
      } else if s.robot.pos != lv.goal {
        RunFromCommandError(lv, prog, i + 1);
      }
    } else if i == |prog| {
      assert prog[i..] == [];
    }
  }

  /** When top-level command `k` (within the cap) is the first to fail, the run ends there with its error. */
  lemma CommandFailsAt(lv: Level, r: Robot, prog: seq<Cmd>, k: nat)
    requires 1 <= k <= MaxSteps && k <= |prog| && ClearUpTo(lv, prog, k - 1)
    requires After(lv, prog, k).outcome.Fail?
    ensures Run(lv, r, prog) == Finish(After(lv, prog, k).robot, Lose(After(lv, prog, k).outcome.error))
    ensures CommandError(After(lv, prog, k).outcome.error)
  {
    RunReachesPrefix(lv, r, prog, k - 1);
    RunFromStep(lv, prog, k - 1);
  }

  /**
   * A run fails with a command's own error (out of bounds, a wall, an
   * unknown command) exactly when some top-level command among the first
   * 50 fails after a clear prefix; the run then returns that command's
   * error, with the robot where that command left it.
   */
  lemma CommandErrorExactly(lv: Level, r: Robot, prog: seq<Cmd>)
    ensures (Run(lv, r, prog).result.Lose? && CommandError(Run(lv, r, prog).result.error)) <==>
            exists k :: 1 <= k <= MaxSteps && k <= |prog| && ClearUpTo(lv, prog, k - 1) &&
                        After(lv, prog, k).outcome.Fail?
    ensures Run(lv, r, prog).result.Lose? && CommandError(Run(lv, r, prog).result.error) ==>
            exists k :: 1 <= k <= MaxSteps && k <= |prog| && ClearUpTo(lv, prog, k - 1) &&
                        After(lv, prog, k) == Step(Run(lv, r, prog).robot, Fail(Run(lv, r, prog).result.error))
  {
    if prog != [] {
      assert ClearUpTo(lv, prog, 0) by { assert prog[..0] == []; }
      RunReachesPrefix(lv, r, prog, 0);
      RunFromCommandError(lv, prog, 0);
      if exists k :: 1 <= k <= MaxSteps && k <= |prog| && ClearUpTo(lv, prog, k - 1) && After(lv, prog, k).outcome.Fail? {
        var k :| 1 <= k <= MaxSteps && k <= |prog| && ClearUpTo(lv, prog, k - 1) && After(lv, prog, k).outcome.Fail?;
        CommandFailsAt(lv, r, prog, k);
      }
    }
  }

  lemma {:induction false} RunFromTruncate(lv: Level, r: Robot, cs: seq<Cmd>, steps: nat, n: nat)
    requires 1 <= n <= |cs| && MaxSteps < steps + n
    ensures RunFrom(lv, r, cs, steps) == RunFrom(lv, r, cs[..n], steps)
    decreases n
  {
    if steps < MaxSteps {
      assert cs[..n][0] == cs[0];
      assert cs[..n][1..] == cs[1..][..n - 1];
      var s := Exec(lv, r, cs[0]);
      if s.outcome.Ok? && s.robot.pos != lv.goal {
        RunFromTruncate(lv, s.robot, cs[1..], steps + 1, n - 1);
      }
    }
  }

  /** No command after the 51st top-level one has any effect on a run. */
  lemma RunIgnoresTail(lv: Level, r: Robot, prog: seq<Cmd>)
    requires MaxSteps < |prog|
    ensures Run(lv, r, prog) == Run(lv, r, prog[..MaxSteps + 1])
  {
    RunFromTruncate(lv, Start(lv), prog, 0, MaxSteps + 1);
  }

  // ---------------------------------------------------------------------
  // Straight walks

  /** The cell `i` steps ahead of `p` when facing `d`. */
  function Walk(p: Pos, d: Dir, i: int): Pos {
    match d
    case East => Pos(p.x + i, p.y)
    case West => Pos(p.x - i, p.y)
    case North => Pos(p.x, p.y - i)
    case South => Pos(p.x, p.y + i)
  }

  /** `k` passes of a single forward move over open cells walk `k` cells straight ahead. */
  lemma {:induction false} WalkStraight(lv: Level, r: Robot, k: nat)
    requires forall i :: 1 <= i <= k ==> Open(lv, Walk(r.pos, r.dir, i))
    ensures ExecTimes(lv, r, [Forward], k) == Step(Robot(Walk(r.pos, r.dir, k), r.dir), Ok)
    decreases k
  {
    if k > 0 {
      WalkStraight(lv, r, k - 1);
      var r' := Robot(Walk(r.pos, r.dir, k - 1), r.dir);
      assert Ahead(r') == Walk(r.pos, r.dir, k);
      assert ExecSeq(lv, r', [Forward]) == Move(lv, r') by {
        assert [Forward][1..] == [];
      }
    }
  }

  /**
   * A straight walk that is blocked after `k` open cells stops there with
   * the blocked move's error, however many more passes the repeat asks for.
   */
  lemma WalkBlocked(lv: Level, r: Robot, k: nat, extra: nat)
    requires forall i :: 1 <= i <= k ==> Open(lv, Walk(r.pos, r.dir, i))
    requires !Open(lv, Walk(r.pos, r.dir, k + 1))
    ensures ExecTimes(lv, r, [Forward], k + 1 + extra) ==
            Move(lv, Robot(Walk(r.pos, r.dir, k), r.dir))
  {
    WalkStraight(lv, r, k);
    var r' := Robot(Walk(r.pos, r.dir, k), r.dir);
    assert Ahead(r') == Walk(r.pos, r.dir, k + 1);
    assert ExecSeq(lv, r', [Forward]) == Move(lv, r') by {
      assert [Forward][1..] == [];
    }
    ExecTimesFailStable(lv, r, [Forward], k + 1, k + 1 + extra);
  }

  /** A top-level command that succeeds off the goal hands the rest of the program its robot. */
  lemma RunFromContinues(lv: Level, r: Robot, cs: seq<Cmd>, steps: nat, next: Robot)
    requires cs != [] && steps < MaxSteps
    requires Exec(lv, r, cs[0]) == Step(next, Ok) && next.pos != lv.goal
    ensures RunFrom(lv, r, cs, steps) == RunFrom(lv, next, cs[1..], steps + 1)
  {
  }

  /**
   * A repeat of `n` forward moves over open cells is one top-level step:
   * the run either wins on the cell it reaches or goes on from there.
   */
  lemma RunFromWalk(lv: Level, r: Robot, n: int, rest: seq<Cmd>, steps: nat)
    requires 1 <= n && steps < MaxSteps
    requires forall i :: 1 <= i <= n ==> Open(lv, Walk(r.pos, r.dir, i))
    ensures var e := Robot(Walk(r.pos, r.dir, n), r.dir);
            RunFrom(lv, r, [Repeat(n, [Forward])] + rest, steps) ==
            if e.pos == lv.goal then Finish(e, Win(Score(steps + 1))) else RunFrom(lv, e, rest, steps + 1)
  {
    WalkStraight(lv, r, n);
    assert ([Repeat(n, [Forward])] + rest)[1..] == rest;
  }

  /**
   * A program that is one repeat of `n` forward moves, blocked after `k < n`
   * open cells, loses where it is blocked with the blocked move's error:
   * the goal is never looked at inside the repeat.
   */
  lemma RunBlockedWalk(lv: Level, r: Robot, n: int, k: nat)
    requires k < n
    requires forall i :: 1 <= i <= k ==> Open(lv, Walk(lv.start, lv.startDir, i))
    requires !Open(lv, Walk(lv.start, lv.startDir, k + 1))
    ensures var s := Move(lv, Robot(Walk(lv.start, lv.startDir, k), lv.startDir));
            Run(lv, r, [Repeat(n, [Forward])]) == Finish(s.robot, Lose(s.outcome.error))
  {
    WalkBlocked(lv, Start(lv), k, n - k - 1);
    assert Iterations(n) == n;
  }

  /**
   * A program that is one repeat of forward moves over open cells is a
   * single step: it wins with 95 if the walk ends on the goal and otherwise
   * runs out of commands, wherever it passed on the way.
   */
  lemma RunSingleWalk(lv: Level, r: Robot, n: int)
    requires 1 <= Iterations(n)
    requires forall i :: 1 <= i <= Iterations(n) ==> Open(lv, Walk(lv.start, lv.startDir, i))
    ensures var e := Robot(Walk(lv.start, lv.startDir, Iterations(n)), lv.startDir);
            Run(lv, r, [Repeat(n, [Forward])]) ==
            if e.pos == lv.goal then Finish(e, Win(95)) else Finish(e, Lose(GoalNotReached))
  {
    var prog := [Repeat(n, [Forward])];
    WalkStraight(lv, Start(lv), Iterations(n));
    assert Exec(lv, Start(lv), prog[0]) == Step(Robot(Walk(lv.start, lv.startDir, Iterations(n)), lv.startDir), Ok);
    assert prog[1..] == [];
    assert Score(1) == 95;
    var e := Robot(Walk(lv.start, lv.startDir, Iterations(n)), lv.startDir);
    assert Run(lv, r, prog) == RunFrom(lv, Start(lv), prog, 0);
    assert RunFrom(lv, Start(lv), prog, 0) == if e.pos == lv.goal then Finish(e, Win(95)) else RunFrom(lv, e, [], 1);
  }
}
