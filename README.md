# Robot programming game: simulation core

A model, in Dafny, of the simulation core of `Roby.py`. The game is a
children's programming game. The player queues a program of tokens
(FORWARD, LEFT, RIGHT) for a robot on a 13 × 8 grid. RETURN then replays the
program, one command every 800 ms, and the robot collects the treasures it
lands on. Collecting all five wins and resets the game.

The project has four modules:

- `Grid` (grid.dfy) holds the board geometry: `GridWidth = 800 / 60 = 13` and `GridHeight = (600 - 100) / 60 = 8`.
- `RobotMotion` (robot.dfy) models the robot. `Pose` is the robot as a value, with pure functions for the clamped
  advance and the two quarter turns. The class `Robot` has mutable fields `x`, `y` and `direction`, and its
  methods are proved to follow those functions.
- `GameRules` (game_rules.dfy) models the game state as a value (`GameState`). Each transition is a function:
  `Collect` (check_treasure_collection), `Reset` (reset_game), `Tick` (one call of execute_commands) and
  `Input` (one call of handle_input). The invariant `Inv` collects everything that holds between frames:
  - the robot is on the grid and faces one of the four directions;
  - every treasure is on the grid;
  - the robot never stands on a treasure;
  - `score + |treasures| == 5`, with at least one treasure left;
  - while executing, the program is non-empty and `index <= |commands|`;
  - while idle, `index <= 1`.

  Every transition preserves `Inv`. Lemmas relate several ticks to a plain replay (`Run`) of the program.
- `GameObject` (game.dfy) models the class `Game`. Its fields are updated in place:
  - The methods that change the game (`CheckTreasureCollection`, `ShowVictory`, `ResetGame`, `ExecuteCommands`,
    `HandleInput`) each end in `Snapshot() == F(old(Snapshot()), …)` for their transition `F` in `GameRules`.
  - The constructor ends in `Snapshot() == Initial(treasures)`.
  - `GenerateTreasures` may change only `treasures` and ends in `FreshTreasures` for the robot's cell.

Inputs from outside the core become parameters:
- The frame time read from the game clock becomes `dt: nat` (milliseconds).
- A pygame event becomes `Event`: a `KeyDown` of one of the keys the game reacts to, `OtherKey`, or `OtherEvent`.
- The random draws of treasure generation become a choice among the cells the draws would accept (see below).

Behaviours of the code that the model keeps as written:
- **Timer after a step.** A replay step sets the timer to 0. It does not subtract the 800 ms interval.
- **At most one command per frame.** A frame replays at most one command, however large `dt` is.
- **Timer on reset.** A reset does not touch the timer.
- **Keys while executing.** While a program runs, every key is ignored, R included.
- **Winning mid-replay.** Winning during a replay resets the game from inside the collection check. The
  replay step then still increments the cursor and zeroes the timer, so the game ends up idle, with an empty
  program and `index == 1` (`GameRules.WinningTickLeavesCursorOne`). This is harmless, because RETURN
  sets the cursor back to 0.

## Model

| member | source | states |
|---|---|---|
| `RobotMotion.Ahead` | Roby.py:31-39 | the unclamped cell ahead differs from the robot's cell by exactly one along the facing axis (x for right/left, y for down/up) |
| `RobotMotion.Advanced` | Roby.py:31-39 | moving forward never changes the direction and keeps an on-grid robot on the grid |
| `RobotMotion.AdvanceMovesAheadOrStays` | Roby.py:31-39 | from a reachable pose, the clamped move equals "go to the cell ahead if it is on the grid, else stay": walking into a wall changes nothing |
| `RobotMotion.TurnedRight` | Roby.py:41-42 | a right turn keeps the cell and yields a direction in 0..3; up (3) turns to right (0) |
| `RobotMotion.TurnedLeft` | Roby.py:44-45 | a left turn keeps the cell and yields a direction in 0..3; right (0) turns to up (3) |
| `RobotMotion.TurnRightRotatesClockwise` | Roby.py:29-45 | on a reachable pose, a right turn rotates the facing step (dx, dy) to (-dy, dx): right to down to left to up to right |
| `RobotMotion.TurnLeftRotatesCounterClockwise` | Roby.py:29-45 | on a reachable pose, a left turn rotates the facing step (dx, dy) to (dy, -dx) |
| `RobotMotion.TurnsAreInverse` | Roby.py:41-45 | right-then-left and left-then-right both restore the direction (modulo 4; exactly on reachable poses) |
| `RobotMotion.FourRightTurnsAreIdentity` | Roby.py:41-42 | four right turns restore the direction |
| `RobotMotion.Robot.constructor` | Roby.py:26-29 | a new robot stands at the given cell facing right |
| `RobotMotion.Robot.MoveForward` | Roby.py:31-39 | the in-place update yields exactly the clamped advance of the old pose |
| `RobotMotion.Robot.TurnRight` | Roby.py:41-42 | the in-place update yields exactly the right turn of the old pose |
| `RobotMotion.Robot.TurnLeft` | Roby.py:44-45 | the in-place update yields exactly the left turn of the old pose |
| `GameRules.FreeCellExists` | Roby.py:68-74 | while fewer than five treasures are placed, some on-grid cell is neither a treasure nor the robot's cell, so every draw loop can end |
| `GameRules.Initial` | Roby.py:55-63 | the start-up state with well-generated treasures satisfies the game invariant |
| `GameRules.Reset` | Roby.py:161-168 | a reset puts the robot home facing right, zeroes score and cursor, empties the program, stops replay, leaves the timer alone, and (with well-generated treasures) satisfies the invariant |
| `GameRules.Collect` | Roby.py:142-148 | off a treasure nothing changes; from any settled state the check re-establishes the invariant: the robot no longer stands on a treasure and the score plus the number of treasures is 5 |
| `GameRules.CollectTakesExactlyOne` | Roby.py:144-146 | landing on a treasure removes exactly that cell, adds exactly 1 to the score and changes nothing else |
| `GameRules.CollectIsIdempotent` | Roby.py:142-146 | checking a second time on the same cell has no further effect |
| `GameRules.WinningResets` | Roby.py:142-148 | collecting the fifth treasure is a full reset |
| `GameRules.Apply` | Roby.py:178-185 | applying any command to a reachable pose yields a reachable pose |
| `GameRules.Run` | Roby.py:177-189 | replaying any sequence of commands from a reachable pose keeps the robot on the grid with a valid direction |
| `GameRules.ExampleProgram` | Roby.py:178-185 | FORWARD, FORWARD, RIGHT, FORWARD from (0,0) facing right ends at (2,1) facing down |
| `GameRules.Tick` | Roby.py:170-192 | a tick preserves the invariant; it is a no-op when idle or when the program is empty; below 800 ms only the timer changes |
| `GameRules.TickAppliesOneCommand` | Roby.py:176-189 | once 800 ms have accumulated and a command is left, exactly that command is applied, the treasure under the robot (if any) is collected, the cursor advances by 1, the timer is 0 and the program is unchanged |
| `GameRules.WinningTickLeavesCursorOne` | Roby.py:187-189 | a step that collects the last treasure leaves an idle, reset game whose cursor is 1 |
| `GameRules.RunningProgramIsFrozen` | Roby.py:170-192 | a tick never changes a running program, except that winning empties it |
| `GameRules.ReplayStopsOnlyAtEnd` | Roby.py:176-192 | replay stops exactly on a tick where 800 ms have accumulated and the cursor is past the last command (or the round is won); stopping at the end only clears the running flag and resets the cursor to 0: robot, treasures, score and program are unchanged and the timer keeps the accumulated time |
| `GameRules.IdleStaysIdle` | Roby.py:172-173 | any number of ticks leave an idle game unchanged |
| `GameRules.RunningTickStepsAtMostOnce` | Roby.py:175-189 | a tick of a running replay that neither wins nor stops either only lets time pass or applies exactly the command at the cursor and moves the cursor on by one |
| `GameRules.ReplayFollowsProgram` | Roby.py:170-192 | for any frame times, while the replay runs and the round is not won, the program is unchanged, the cursor only moves forward within it, and the robot stands where the commands before the cursor take it |
| `GameRules.ReplayEndsAfterWholeProgram` | Roby.py:170-192 | for any frame times, a replay started at the first command that stops without a win stops only after the last command: the robot stands where the whole program takes it, with the cursor back at 0 |
| `GameRules.LongFramesStepEveryTick` | Roby.py:175-189 | with frames of at least 800 ms and no win, every tick moves the cursor on by one |
| `GameRules.ReplayRunsWholeProgram` | Roby.py:170-192 | with frames of at least 800 ms, an n-command program replayed from the start stops on tick n + 1 unless the round was won: the robot ends where the whole program takes it, idle, with the cursor back at 0 |
| `GameRules.Input` | Roby.py:194-210 | while executing, or for a non-key event or a key the game does not handle, nothing changes; while idle, R is exactly a full reset; every event preserves the invariant |
| `GameRules.EditKeyAppendsOneToken` | Roby.py:197-202 | while idle, SPACE, LEFT and RIGHT append exactly their token at the end and change nothing else |
| `GameRules.BackspaceUndoesLastToken` | Roby.py:209-210 | while idle, BACKSPACE drops the last token of a non-empty program and leaves an empty program alone |
| `GameRules.BackspaceUndoesAppend` | Roby.py:197-210 | appending a token and pressing BACKSPACE restores the state |
| `GameRules.ReturnStartsOnlyNonEmptyProgram` | Roby.py:203-206 | while idle, RETURN starts replay if and only if the program is non-empty, with cursor 0 and timer 0; it changes nothing else, and nothing at all on an empty program |
| `GameObject.Game.constructor` | Roby.py:55-63 | a new game is the start-up state, with five well-placed treasures, and satisfies the invariant |
| `GameObject.Game.GenerateTreasures` | Roby.py:65-74 | afterwards there are exactly five distinct treasures, all on the grid, none on the robot's cell |
| `GameObject.Game.CheckTreasureCollection` | Roby.py:142-148 | the in-place update follows `Collect`; on a win the robot is new and the treasures are freshly generated |
| `GameObject.Game.ShowVictory` | Roby.py:150-159 | what remains of the victory screen is a full reset, following `Reset` |
| `GameObject.Game.ResetGame` | Roby.py:161-168 | the in-place reset follows `Reset`, with a new robot and freshly generated treasures |
| `GameObject.Game.ExecuteCommands` | Roby.py:170-192 | one frame of replay follows `Tick` and preserves the game invariant |
| `GameObject.Game.HandleInput` | Roby.py:194-210 | one event follows `Input` and preserves the game invariant |

## Left out

- Drawing is not modelled: `draw_grid`, `draw_robot`, `draw_treasures`, `draw_ui` (including its program-text formatting) and the banner, screen flip and 3-second wait of `show_victory`. These are presentation calls into pygame.
- The window, clocks and fonts set up in `Game.__init__` are not modelled. They are pygame objects with no game logic.
- The main loop `run` is not modelled: its event polling, frame pacing and quit. The startup prints are left out too. This is I/O plumbing; the model takes one event per `HandleInput` call and one frame time `dt` per `ExecuteCommands` call.
- `GameObject.Game.GenerateTreasures` does not model the probability distribution of `random.randint`. It picks any cell the rejection loop would accept, so the resulting treasure set is what the draws can produce. The loop's termination with probability 1 is replaced by the proof that an acceptable cell always exists.
- Score, cursor and timer are natural numbers. The source never makes them negative.
- Commands are an enumeration rather than strings. The source only ever stores the three known tokens, so the fall-through for an unknown string cannot happen.
