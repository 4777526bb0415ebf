# Roblox Adventure: the block-program interpreter

Roblox Adventure is a browser coding game. The player drags blocks into
a workspace: move forward, turn left, turn right, a repeat block with a
count and nested blocks, and an unfinished "if wall" block. The game
turns the blocks into a command tree and runs it on a robot in a grid
world. The run ends on a win, with a score, or on an error.

This project models three parts of the game in Dafny:

- **The interpreter** (`World3D` in 3d-world.js). `grid.dfy` holds the
  grid, the facings and the two primitive moves.
  - `interpreter.dfy` gives commands, repeats and whole runs their
    meaning as functions. It proves their properties: defaults, early
    stop, the 50-step cap, the goal check, the score range, and that the
    robot stays on open cells.
  - `world.dfy` is the `World3D` class. Its fields `playerPosition`,
    `playerDirection` and `worldData` are updated in place. Each method
    is proved to compute exactly those functions.
- **The editor's translation and block list** (`BlockSystem` in
  block-system.js), in `blocks.dfy`.
  - A block is a record: its type, the text of its count input, and its
    nested blocks.
  - The file models `parseInt` on the count text, and the block-to-command
    translation (default counts, unknown types dropped).
  - The `BlockSystem` class holds the `blocks` list. Its methods add,
    remove, clear, drop into a repeat, read the program, validate and
    load.
- **The controller** (`RobloxAdventureGame` in roblox-adventure.js).
  - `levels.dfy` holds the three fixtures of `generateLevelData` and
    example runs proved on them.
  - `game.dfy` holds the star rating and the controller class: score,
    level progression, and the `isRunning` guard.

Every `await` is one plain step in sequence. The animation waits have no
effect on the model.

## Model

| member | source | states |
|---|---|---|
| Grid.Move | game-coding/games/roblox-adventure/js/3d-world.js:381-413 | A forward move succeeds exactly when the cell ahead is in bounds and not a wall. Out of bounds is reported exactly when the cell is outside the grid, and a wall hit exactly when it is inside the grid and a wall. On success the robot moves by its facing's unit step. On failure position and facing are unchanged. |
| Grid.SomeWallAt | game-coding/games/roblox-adventure/js/3d-world.js:400 | The `walls.some` search of `moveForward`. `Grid.SomeWallAtIsMember` proves it finds a wall exactly when the cell is in the wall list. |
| Grid.SomeWallAtIsMember | game-coding/games/roblox-adventure/js/3d-world.js:400 | The `walls.some` search finds a wall exactly when the cell is in the wall list. |
| Grid.IndexIn | game-coding/games/roblox-adventure/js/3d-world.js:417 | `indexOf` on a four-entry rotation table returns the first index holding the facing. |
| Grid.LeftOf | game-coding/games/roblox-adventure/js/3d-world.js:415-423 | The facing after a left turn. `Grid.LeftCycle`, `Grid.TurnsInverse` and `Grid.FourTurns` carry its properties. |
| Grid.RightOf | game-coding/games/roblox-adventure/js/3d-world.js:425-433 | The facing after a right turn. `Grid.RightCycle`, `Grid.TurnsInverse` and `Grid.FourTurns` carry its properties. |
| Grid.LeftCycle | game-coding/games/roblox-adventure/js/3d-world.js:415-423 | A left turn goes north to west to south to east to north. |
| Grid.RightCycle | game-coding/games/roblox-adventure/js/3d-world.js:425-433 | A right turn goes north to east to south to west to north. |
| Grid.TurnsInverse | game-coding/games/roblox-adventure/js/3d-world.js:415-433 | The left and right turns undo each other, in either order. |
| Grid.FourTurns | game-coding/games/roblox-adventure/js/3d-world.js:415-433 | Four turns the same way return the original facing. |
| Grid.TurnAround | game-coding/games/roblox-adventure/js/3d-world.js:382-387 | Two left turns and two right turns give the same facing. Its unit step is the negation of the original one. |
| Grid.MoveUndo | game-coding/games/roblox-adventure/js/3d-world.js:381-413 | After a successful move from an open cell, turning around and moving again succeeds and returns the robot to that cell. |
| Grid.MoveKeepsOpen | game-coding/games/roblox-adventure/js/3d-world.js:394-407 | Whatever its outcome, a move from an open cell leaves the robot on an open cell. |
| Interpreter.Score | game-coding/games/roblox-adventure/js/3d-world.js:351 | The win score is between 10 and 100, at most 95 after at least one step, exactly `100 - 5*steps` up to 18 steps, and 10 from 18 steps on. |
| Interpreter.Iterations | game-coding/games/roblox-adventure/js/3d-world.js:436-439 | A repeat runs its children twice for a 0 or missing count, not at all for a negative count, and `count` times otherwise. |
| Interpreter.Exec | game-coding/games/roblox-adventure/js/3d-world.js:366-379 | The meaning of one command. `Interpreter.ExecErrors`, `Interpreter.ExecKeepsOpen`, `Interpreter.UnknownFails` and `Interpreter.RepeatRunsChildren` carry its properties, and `World.World3D.ExecuteCommand` is proved equal to it. |
| Interpreter.ExecSeq | game-coding/games/roblox-adventure/js/3d-world.js:440-445 | One pass over a repeat's children. `Interpreter.ExecSeqAppend`, `Interpreter.ExecSeqFirstFailure` and `Interpreter.ExecSeqKeepsOpen` carry its properties. |
| Interpreter.ExecTimes | game-coding/games/roblox-adventure/js/3d-world.js:435-449 | The passes of a repeat. `Interpreter.ExecTimesIsRepeated`, `Interpreter.ExecTimesFailStable` and `Interpreter.ExecTimesNoChildren` carry its properties, and `World.World3D.ExecuteRepeat` is proved equal to it. |
| Interpreter.RunFrom | game-coding/games/roblox-adventure/js/3d-world.js:332-359 | The loop of `executeProgram`. `Interpreter.RunFromCases`, `Interpreter.RunFromCommandError`, `Interpreter.RunFromTruncate` and `Interpreter.RunFromKeepsOpen` carry its properties. |
| Interpreter.Run | game-coding/games/roblox-adventure/js/3d-world.js:321-364 | A whole run. `Interpreter.RunEmpty`, `Interpreter.RunResets`, `Interpreter.WinOnlyAtGoal`, `Interpreter.TooManyStepsExactly`, `Interpreter.GoalNotReachedExactly` and `Interpreter.CommandErrorExactly` carry its properties, and `World.World3D.ExecuteProgram` is proved equal to it. |
| Interpreter.ExecSeqAppend | game-coding/games/roblox-adventure/js/3d-world.js:439-445 | Running `a + b` runs `a`, then `b` from where `a` stopped, unless `a` failed. |
| Interpreter.ExecSeqSnoc | game-coding/games/roblox-adventure/js/3d-world.js:439-445 | One more child runs from where the previous children stopped, unless they failed. |
| Interpreter.ExecSeqFailedPrefix | game-coding/games/roblox-adventure/js/3d-world.js:441-443 | After a failing prefix, the rest of the children do not run, and the result is the prefix's failure. |
| Interpreter.ExecSeqFirstFailure | game-coding/games/roblox-adventure/js/3d-world.js:441-443 | A failing sequence has a first failing child. Every child before it succeeded, and the sequence's result is that child's result. |
| Interpreter.ExecTimesFailStable | game-coding/games/roblox-adventure/js/3d-world.js:439-445 | Once a pass of a repeat fails, later passes change nothing. |
| Interpreter.Repeated | game-coding/games/roblox-adventure/js/3d-world.js:439-440 | The children laid out `k` times have `k` times as many commands. |
| Interpreter.ExecTimesIsRepeated | game-coding/games/roblox-adventure/js/3d-world.js:439-445 | `k` passes over the children equal one run of the children laid out `k` times. |
| Interpreter.RepeatRunsChildren | game-coding/games/roblox-adventure/js/3d-world.js:435-449 | A repeat runs its children `count || 2` times in sequence, and no times for a negative count. |
| Interpreter.RepeatCountDefaults | game-coding/games/roblox-adventure/js/3d-world.js:436 | A 0 or missing count runs the children twice. A negative count succeeds with no change. A positive count `n` runs them `n` times. |
| Interpreter.ExecTimesNoChildren | game-coding/games/roblox-adventure/js/3d-world.js:437-448 | Any number of passes over no children succeeds with no change. |
| Interpreter.RepeatNoChildren | game-coding/games/roblox-adventure/js/3d-world.js:437-448 | A repeat with no children (`children || []`) succeeds with no state change, whatever its count. |
| Interpreter.RepeatStopsAtFirstFailure | game-coding/games/roblox-adventure/js/3d-world.js:439-445 | A failing repeat stops at its first failing child. The repeat returns that child's result, and every earlier child succeeded. |
| Interpreter.ExecKeepsOpen | game-coding/games/roblox-adventure/js/3d-world.js:366-449 | From an open cell, any command, nested repeats included, leaves the robot on an open cell. |
| Interpreter.ExecSeqKeepsOpen | game-coding/games/roblox-adventure/js/3d-world.js:439-445 | From an open cell, a sequence of children leaves the robot on an open cell. |
| Interpreter.ExecTimesKeepsOpen | game-coding/games/roblox-adventure/js/3d-world.js:439-445 | From an open cell, any number of passes leaves the robot on an open cell. |
| Interpreter.RunFromKeepsOpen | game-coding/games/roblox-adventure/js/3d-world.js:335-359 | From an open cell, the run loop ends with the robot on an open cell. |
| Interpreter.RunKeepsOpen | game-coding/games/roblox-adventure/js/3d-world.js:321-364 | If the level's start and the robot's current cell are open, every run ends with the robot on an open cell. The current cell matters because an empty program does not reset the robot. |
| Interpreter.ExecErrors | game-coding/games/roblox-adventure/js/3d-world.js:366-379 | A command can only fail with out of bounds, a wall hit, or an unknown command. |
| Interpreter.ExecSeqErrors | game-coding/games/roblox-adventure/js/3d-world.js:439-445 | A sequence of children can only fail with a command error. |
| Interpreter.ExecTimesErrors | game-coding/games/roblox-adventure/js/3d-world.js:439-445 | A repeat's passes can only fail with a command error. |
| Interpreter.TurnsKeepPosition | game-coding/games/roblox-adventure/js/3d-world.js:415-433 | A command built only from turns (repeats of turns included) never changes the position. |
| Interpreter.SeqTurnsKeepPosition | game-coding/games/roblox-adventure/js/3d-world.js:415-433 | A sequence of turn-only commands never changes the position. |
| Interpreter.TimesTurnsKeepPosition | game-coding/games/roblox-adventure/js/3d-world.js:415-433 | Repeated passes of turn-only commands never change the position. |
| Interpreter.LeftRightCancel | game-coding/games/roblox-adventure/js/3d-world.js:415-433 | Left then right, or right then left, succeeds and leaves the robot as it was. |
| Interpreter.FourTurnsCancel | game-coding/games/roblox-adventure/js/3d-world.js:415-449 | A repeat of four left turns, or of four right turns, succeeds and leaves the robot as it was. |
| Interpreter.UnknownFails | game-coding/games/roblox-adventure/js/3d-world.js:376-377 | A command whose type is none of the four dispatched ones, such as `if-wall`, fails as unknown, names its type, and changes nothing. |
| Interpreter.RunEmpty | game-coding/games/roblox-adventure/js/3d-world.js:322-324 | An empty program fails as empty, and the robot is not reset. |
| Interpreter.RunResets | game-coding/games/roblox-adventure/js/3d-world.js:327-330 | A non-empty run does not depend on where the robot was before: it starts from the level's start. |
| Interpreter.ScoreBounds | game-coding/games/roblox-adventure/js/3d-world.js:351 | The score `max(100 - 5*steps, 10)` lies in 10..95 for at least one step and does not rise with more steps. |
| Interpreter.RunReachesPrefix | game-coding/games/roblox-adventure/js/3d-world.js:335-356 | While the first `i` top-level commands succeed without reaching the goal, the run is at command `i`, with `i` steps counted, and the robot is where those commands left it. |
| Interpreter.RunFromCases | game-coding/games/roblox-adventure/js/3d-world.js:335-359 | From a clear prefix, the loop has four possible ends, the fourth (a command's own error) being `Interpreter.RunFromCommandError`. A win means some later top-level command first ends on the goal, within 50 steps, and scores for that count. The step-limit error means more than 50 commands, with the first 50 clear. Goal not reached means at most 50 commands, all clear. |
| Interpreter.WinWhenGoalFirstReached | game-coding/games/roblox-adventure/js/3d-world.js:347-351 | When top-level command `k` (at most 50) is the first to end on the goal, the run wins with score `Score(k)` at that cell. |
| Interpreter.WinOnlyAtGoal | game-coding/games/roblox-adventure/js/3d-world.js:347-351 | A win happens only at the goal. It comes just after the first top-level command to end there, and scores 10..95. |
| Interpreter.TooManyStepsExactly | game-coding/games/roblox-adventure/js/3d-world.js:332-339 | The step-limit error happens exactly when there are more than 50 top-level commands and the first 50 run without failing or reaching the goal. |
| Interpreter.GoalNotReachedExactly | game-coding/games/roblox-adventure/js/3d-world.js:359 | Goal not reached happens exactly when a non-empty program of at most 50 commands runs to its end without failing or reaching the goal. |
| Interpreter.RunFromCommandError | game-coding/games/roblox-adventure/js/3d-world.js:336-343 | From a clear prefix, a command's own error ends the loop only at some top-level command within the first 50 that fails after a clear prefix. The run returns that command's error, with the robot where it stopped. |
| Interpreter.CommandFailsAt | game-coding/games/roblox-adventure/js/3d-world.js:340-343 | When top-level command `k` (within 50) is the first to fail after a clear prefix, the run loses with that command's error, which is out of bounds, a wall or an unknown command. |
| Interpreter.CommandErrorExactly | game-coding/games/roblox-adventure/js/3d-world.js:336-343 | A run loses with a command's own error exactly when some top-level command within the first 50 fails after a clear prefix. That command's state is the run's final robot and error. |
| Interpreter.RunFromTruncate | game-coding/games/roblox-adventure/js/3d-world.js:336-338 | Commands past the step cap are never looked at. |
| Interpreter.RunIgnoresTail | game-coding/games/roblox-adventure/js/3d-world.js:336-338 | A program longer than 51 commands runs exactly like its first 51. |
| Interpreter.WalkStraight | game-coding/games/roblox-adventure/js/3d-world.js:381-413 | `k` forward moves over open cells go `k` cells straight ahead and keep the facing. |
| Interpreter.WalkBlocked | game-coding/games/roblox-adventure/js/3d-world.js:389-403 | Forward moves end at the first cell that is not open. Passes after that failure change nothing. |
| Interpreter.RunFromContinues | game-coding/games/roblox-adventure/js/3d-world.js:340-355 | A top-level command that succeeds away from the goal, within the cap, moves the run on to the next command with one more step. |
| Interpreter.RunFromWalk | game-coding/games/roblox-adventure/js/3d-world.js:340-355 | A top-level repeat of forward moves over open cells is one step. It wins at its endpoint if that is the goal, and otherwise the run continues from there. |
| Interpreter.RunBlockedWalk | game-coding/games/roblox-adventure/js/3d-world.js:340-343 | A one-command program whose repeat walks into a blocked cell loses with that move's error. The robot stays on the last open cell. |
| Interpreter.RunSingleWalk | game-coding/games/roblox-adventure/js/3d-world.js:321-359 | A one-command program whose repeat walks over open cells wins with 95 if it ends on the goal, and otherwise fails as goal not reached. |
| World.World3D.constructor | game-coding/games/roblox-adventure/js/3d-world.js:3-16 | No level is loaded. The robot is at (0, 0) facing east. |
| World.World3D.LoadLevel | game-coding/games/roblox-adventure/js/3d-world.js:106-129 | Loading a level stores it and puts the robot on the level's start cell and facing. |
| World.World3D.MoveForward | game-coding/games/roblox-adventure/js/3d-world.js:381-413 | The method updates `playerPosition` and returns exactly what `Grid.Move` gives for the old state. |
| World.World3D.TurnLeft | game-coding/games/roblox-adventure/js/3d-world.js:415-423 | The method succeeds and sets the facing to the left turn of the old one. Nothing else changes. |
| World.World3D.TurnRight | game-coding/games/roblox-adventure/js/3d-world.js:425-433 | The method succeeds and sets the facing to the right turn of the old one. Nothing else changes. |
| World.World3D.ExecuteCommand | game-coding/games/roblox-adventure/js/3d-world.js:366-379 | The dispatch leaves the state and returns the result the command's meaning gives for the old state. |
| World.World3D.ExecuteRepeat | game-coding/games/roblox-adventure/js/3d-world.js:435-449 | The nested loops with early return leave exactly the state and result of the repeat's meaning. |
| World.World3D.ExecuteProgram | game-coding/games/roblox-adventure/js/3d-world.js:321-364 | The counting loop with its early returns ends in the state and result of `Interpreter.Run` on the old state. |
| World.World3D.ResetLevel | game-coding/games/roblox-adventure/js/3d-world.js:482-489 | With no level the state is unchanged. Otherwise the robot is back on the level's start cell and facing. |
| Blocks.TrimStart | game-coding/games/roblox-adventure/js/block-system.js:229 | `parseInt` drops exactly the leading white space. The rest is a suffix that starts with a non-space. |
| Blocks.DigitRun | game-coding/games/roblox-adventure/js/block-system.js:229 | `parseInt` reads the longest prefix of digits of the radix. |
| Blocks.ParseDigits | game-coding/games/roblox-adventure/js/block-system.js:229 | The digits part of `parseInt`: `0x` selects base 16, and the longest digit run is read. `Blocks.ParseDigitsDecimal` proves it reads decimal text back. |
| Blocks.ParseInt | game-coding/games/roblox-adventure/js/block-system.js:229 | `parseInt` with no radix. `Blocks.ParseIntText` proves it reads back any integer's decimal text, and `Blocks.RepeatCount` states the count built from it. |
| Blocks.RepeatCount | game-coding/games/roblox-adventure/js/block-system.js:228-229 | The count is never 0. It is 2 when the input is missing or parses to NaN or 0, and the parsed integer otherwise. |
| Blocks.Decimal | game-coding/games/roblox-adventure/js/block-system.js:229 | The decimal text of a natural number is all digits, with no leading zero. |
| Blocks.DecimalValue | game-coding/games/roblox-adventure/js/block-system.js:229 | The digits of the decimal text read back as the number. |
| Blocks.ParseDigitsDecimal | game-coding/games/roblox-adventure/js/block-system.js:229 | The digit reader reads a number's decimal text back as that number. |
| Blocks.ParseIntDecimal | game-coding/games/roblox-adventure/js/block-system.js:229 | `parseInt` reads a natural number's decimal text back as that number. |
| Blocks.ParseIntMinusDecimal | game-coding/games/roblox-adventure/js/block-system.js:229 | `parseInt` reads a minus sign and decimal text as the negative number. |
| Blocks.ParseIntText | game-coding/games/roblox-adventure/js/block-system.js:229 | `parseInt` reads back any integer typed as its decimal text. |
| Blocks.RepeatCountText | game-coding/games/roblox-adventure/js/block-system.js:228-229 | A count typed as an integer's text gives that integer, and 0 gives 2. |
| Blocks.BlockToCommand | game-coding/games/roblox-adventure/js/block-system.js:214-245 | A block gives a command exactly when its type is one of the five known ones, and the command has the block's type. move-forward, turn-left and turn-right give the same-named commands, and if-wall gives an `if-wall` command. A repeat gives a repeat with the parsed count whose children are the translation of its nested blocks (`getNestedCommands`). Every command it gives is well formed: an unknown command never carries one of the four types the interpreter dispatches on. |
| Blocks.CommandsOf | game-coding/games/roblox-adventure/js/block-system.js:201-212 | Translating a block list gives at most one command per block, and every command is well formed. |
| Blocks.CommandsOfAppend | game-coding/games/roblox-adventure/js/block-system.js:247-262 | Translation keeps order: the commands of `a + b` are those of `a` followed by those of `b`. |
| Blocks.CommandsOfDropsOnlyUnknown | game-coding/games/roblox-adventure/js/block-system.js:201-212 | There is one command per block of a known type, and each command is the translation of one of the blocks. |
| Blocks.CanNestBlock | game-coding/games/roblox-adventure/js/block-system.js:129-133 | Anything but a repeat may be nested. `Blocks.BlockSystem.DropIntoRepeat` and `Blocks.NestFreeIsFlat` carry its consequence: no repeat inside a repeat. |
| Blocks.NestFreeIsFlat | game-coding/games/roblox-adventure/js/block-system.js:129-133 | Blocks whose nested blocks passed `canNestBlock` translate to commands with no repeat among a repeat's children. |
| Blocks.CountKindPositive | game-coding/games/roblox-adventure/js/block-system.js:308-320 | The count of one block type among the top-level blocks is positive exactly when some top-level block has that type. |
| Blocks.CommandToBlock | game-coding/games/roblox-adventure/js/block-system.js:346-350 | Always builds nothing. `Blocks.BlockSystem.LoadProgram` carries its consequence: a loaded program leaves the workspace empty. |
| Blocks.OptionToSeq | game-coding/games/roblox-adventure/js/block-system.js:335-340 | A block is added only when `commandToBlock` built one. |
| Blocks.BlockSystem.constructor | game-coding/games/roblox-adventure/js/block-system.js:3-8 | The workspace starts with no blocks. |
| Blocks.BlockSystem.AddBlockToWorkspace | game-coding/games/roblox-adventure/js/block-system.js:135-149 | The block is appended at the end of the list. The workspace keeps repeats out of repeats exactly when it did before and the new block has no repeat inside it. |
| Blocks.BlockSystem.RemoveBlock | game-coding/games/roblox-adventure/js/block-system.js:171-185 | The list loses its first copy of the block, as `RemoveFirst` gives, and nothing else. A workspace with no repeat inside a repeat keeps that property. |
| Blocks.BlockSystem.ClearWorkspace | game-coding/games/roblox-adventure/js/block-system.js:195-199 | The list is empty, so no repeat holds a repeat. |
| Blocks.BlockSystem.DropIntoRepeat | game-coding/games/roblox-adventure/js/block-system.js:104-118 | A block `canNestBlock` accepts is appended to the repeat's nested blocks. A repeat block is refused and the list is unchanged. Either way no repeat ever gets a repeat inside it. |
| Blocks.BlockSystem.GetProgram | game-coding/games/roblox-adventure/js/block-system.js:201-212 | The loop returns the translation of the whole list, in order, with unknown blocks dropped. On a workspace with no repeat inside a repeat, no command of the program has a repeat among a repeat's children. |
| Blocks.BlockSystem.ValidateProgram | game-coding/games/roblox-adventure/js/block-system.js:302-322 | The program is valid exactly when the list is non-empty and some top-level block is a move-forward. An empty list is reported as empty. Any other invalid list is reported as missing a move block. Turns do not matter. |
| Blocks.BlockSystem.LoadProgram | game-coding/games/roblox-adventure/js/block-system.js:329-350 | A text that fails to parse leaves the list as it was. Any text that parses leaves it empty. Either way a workspace with no repeat inside a repeat keeps that property. |
| Blocks.RemoveFirst | game-coding/games/roblox-adventure/js/block-system.js:171-175 | The list after `indexOf` and `splice`. `Blocks.RemoveFirstSpec` and `Blocks.RemoveFirstKeepsOrder` carry its properties. |
| Blocks.IndexOf | game-coding/games/roblox-adventure/js/block-system.js:172 | `indexOf` returns -1 exactly when the block is absent. Otherwise it returns the first index holding the block. |
| Blocks.RemoveFirstSpec | game-coding/games/roblox-adventure/js/block-system.js:172-175 | Removal takes out exactly one copy of a present block, so the length drops by one. An absent block leaves the list unchanged. |
| Blocks.RemoveFirstKeepsOrder | game-coding/games/roblox-adventure/js/block-system.js:172-175 | A present block loses its first occurrence: the blocks before it stay, and the ones after it follow in order. |
| LevelTable.LevelEntry | game-coding/games/roblox-adventure/js/roblox-adventure.js:186-188 | A level has data exactly when its number is 1..3, and the data is that fixture. |
| LevelTable.FixturesWellFormed | game-coding/games/roblox-adventure/js/roblox-adventure.js:141-184 | Each fixture is numbered by its place and has a positive target. Its start and goal lie inside its grid, and no wall sits on either. |
| LevelTable.Level1FourForwards | game-coding/games/roblox-adventure/js/roblox-adventure.js:144-155 | On level 1, four separate forward moves win with score 80. |
| LevelTable.Level1OneRepeat | game-coding/games/roblox-adventure/js/roblox-adventure.js:144-155 | On level 1, one repeat of four forward moves wins with score 95. |
| LevelTable.Level1OvershootInRepeat | game-coding/games/roblox-adventure/js/3d-world.js:340-353 | On level 1, a repeat of five forward moves passes the goal mid-repeat without winning. It then fails out of bounds at (4, 0). |
| LevelTable.Level1DefaultCount | game-coding/games/roblox-adventure/js/3d-world.js:436 | On level 1, a repeat with the default count moves two cells and ends as goal not reached. |
| LevelTable.Level2Wall | game-coding/games/roblox-adventure/js/roblox-adventure.js:157-168 | On level 2, walking east hits the wall at (2, 0) after one cell. |
| LevelTable.Level2Solution | game-coding/games/roblox-adventure/js/roblox-adventure.js:157-168 | On level 2, right, two forwards, left and a repeat of four forwards win in five steps with score 75. |
| LevelTable.Level3Solution | game-coding/games/roblox-adventure/js/roblox-adventure.js:170-181 | On level 3, a repeat of five forwards, a right turn and a repeat of three forwards win in three steps with score 85. |
| LevelTable.IfWallStopsRun | game-coding/games/roblox-adventure/js/block-system.js:237-239 | The editor's `if-wall` command stops a run as an unknown command after the moves before it. |
| Game.Stars | game-coding/games/roblox-adventure/js/roblox-adventure.js:339-346 | The star rating is always 1, 2 or 3. |
| Game.StarsMatchEfficiency | game-coding/games/roblox-adventure/js/roblox-adventure.js:341-345 | The integer thresholds give 3 stars exactly when the efficiency is at least 1.5, and at least 2 exactly when it is at least 1.0. |
| Game.StarsMonotone | game-coding/games/roblox-adventure/js/roblox-adventure.js:339-346 | A higher score never earns fewer stars. |
| Game.CalculateStars | game-coding/games/roblox-adventure/js/roblox-adventure.js:339-346 | Stars are defined exactly for levels 1..3, and lie in 1..3. |
| Game.RobloxAdventureGame.constructor | game-coding/games/roblox-adventure/js/roblox-adventure.js:3-33 | The game starts at level 1 with score 0 and not running. Level 1 is loaded, with the robot at its start, and the workspace is empty. |
| Game.RobloxAdventureGame.LoadLevel | game-coding/games/roblox-adventure/js/roblox-adventure.js:186-206 | A level with no data changes nothing. Otherwise its world is loaded, the robot is at its start, and the workspace is cleared. A valid controller stays valid. |
| Game.RobloxAdventureGame.StartRun | game-coding/games/roblox-adventure/js/roblox-adventure.js:287-297 | A run starts exactly when none is in progress. The flag is then raised and the program is read from the workspace. Validity is kept. |
| Game.RobloxAdventureGame.FinishRun | game-coding/games/roblox-adventure/js/roblox-adventure.js:298-312 | After any result the flag is lowered. A win adds its score and computes the stars. A loss changes the score by nothing. Validity is kept. |
| Game.RobloxAdventureGame.RunProgram | game-coding/games/roblox-adventure/js/roblox-adventure.js:287-313 | While a run is in progress nothing happens. Otherwise the workspace's program runs, as `Interpreter.Run` says. The world ends in the run's state, a win's score is added, and the flag is false again. |
| Game.RobloxAdventureGame.ResetProgram | game-coding/games/roblox-adventure/js/roblox-adventure.js:315-319 | While running the world is untouched. Otherwise the robot is back at the level's start. The controller stays valid. |
| Game.RobloxAdventureGame.LevelCompleted | game-coding/games/roblox-adventure/js/roblox-adventure.js:321-337 | The earned score is added to the total, so the total never decreases. The stars are those of the current level. Validity is kept. |
| Game.RobloxAdventureGame.NextLevel | game-coding/games/roblox-adventure/js/roblox-adventure.js:352-363 | Below `maxLevel` the level goes up by one. If it has data, its world is loaded with the robot on its start cell and the workspace is cleared; otherwise world and workspace are unchanged. At `maxLevel` nothing changes. The level stays in 1..10. |
| Game.Level1Stars | game-coding/games/roblox-adventure/js/roblox-adventure.js:339-346 | On level 1 (target 4), scores 80 and 95 both earn three stars. |
| Game.BeyondTheTable | game-coding/games/roblox-adventure/js/roblox-adventure.js:352-356 | Level 4 is reachable below `maxLevel` (10) but has no data, and there the stars are undefined. |

## Behaviour worth knowing

- `maxLevel` is 10, but only levels 1 to 3 have data.
  - `NextLevel` can raise the current level to 4..10.
  - `loadLevel` then returns early, and the world keeps level 3.
  - A win there adds its score first. Then `calculateStars` reads the
    `targetSteps` of an undefined entry and throws.
  - `runProgram`'s `catch` swallows the exception, and `finally` still
    lowers the flag.
  - The model writes the failed star computation as `None`.
- The goal is checked only after each top-level command. A repeat that
  passes over the goal mid-way does not win, and can still fail
  afterwards (`LevelTable.Level1OvershootInRepeat`).
- The editor emits an `if-wall` command that the interpreter does not
  know. Any program containing one fails when it reaches that command.

## Left out

- Three.js scene building: lights, ground, meshes, the camera and its math, the radian mapping of `setPlayerRotation`. These are library calls and floating point, with no effect on position or facing.
- Animation: `animatePlayerMovement`, `animatePlayerRotation`, `animate`, `delay`. These are timers and easing. Every `await` is one instantaneous step in sequence.
- DOM and input handling: drag and drop, touch handlers, the placeholder element, `highlightBlock`, `showError`, `executeVisualProgram`, button text, the modal, the progress bar. It is all presentation.
- Text shown to the player: translations, `alert`, page navigation (`goBackToMenu`), each level's objective text, and the wording of error messages. Errors are the `Error` datatype instead of strings.
- game-coding/js/game-platform.js is not part of this model. It only wires up the page.
- `serializeProgram` and `JSON.parse` are not modelled. `LoadProgram` takes the parse result as a parameter: `None` for a parse error, else an array of commands or some other value.
- The `try`/`catch` of `executeProgram`: it catches only host exceptions, such as an unknown direction string, and the `Dir` type makes those impossible.
  - `runProgram`'s `catch` is modelled only through `FinishRun`, which lowers the flag on every path.
- Interleavings of `runProgram` with other handlers during its `await`s, beyond the `isRunning` flag. `StartRun` and `FinishRun` represent the two halves of one run, and `RunProgram` runs them back to back.
- World3D.ExecuteProgram: requires a loaded level. On a fresh world and a non-empty program, the source's reset reads `this.worldData.player` outside the `try` and throws.
- Blocks.ParseInt: counts are integers.
  - Fractions, exponent forms, `Infinity`, precision loss on very long digit strings, and NaN counts in a command tree are not represented.
  - The white space `parseInt` skips is the fixed list of `IsJsSpace`.
- Blocks.BlockToCommand: a repeat's nested commands are read from its own `nested` list.
  - The source uses `querySelectorAll('.nested-block')`, which would also pick up blocks inside a nested repeat.
  - `canNestBlock` keeps a repeat out of a repeat (`Blocks.BlockSystem.DropIntoRepeat`). The workspace only ever receives fresh palette copies, which have no nested blocks (block-system.js:64-65). So every workspace the editor builds keeps repeats out of repeats, and on those the two readings agree (`Blocks.BlockSystem.GetProgram`, `Blocks.NestFreeIsFlat`).
- Interpreter.Exec: an `Unknown` command that carries one of the four dispatched type names would run as that command in the source, but fails in the model. Such a command is not well formed (`Interpreter.WellFormed`), and the editor never builds one (`Blocks.CommandsOf`).
- Blocks.BlockSystem.RemoveBlock: `indexOf` compares DOM elements by identity. The model compares blocks by value and removes the first equal one.
  - Removing a block from a repeat's nested list is not modelled.
- Blocks.CommandToBlock: it always builds nothing, as in the source. So the property about it is `Blocks.BlockSystem.LoadProgram`'s empty result.
- Game.RobloxAdventureGame.FinishRun: it does not model the `showError` for a loss or the success modal for a win. It models only the score, the stars and the flag.
