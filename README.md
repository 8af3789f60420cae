# Terminal Racer: a Dafny model of the game core

Terminal Racer is a terminal arcade game. The player is an `@` on the bottom
row of a track 20 columns wide and 20 rows high. Obstacles scroll down one row
per simulation tick. The game ends when an obstacle reaches the player.

This project models the game-state logic of `src/main.cpp` and proves
properties of it:

- the obstacle tick (`updateObstacles`);
- the collision check (`checkCollision`);
- one pass of the game loop;
- the frame clock and the tick interval derived from the difficulty level;
- key movement and the quit keys;
- `keyToDisplay`, the label of a control binding;
- the Windows translation of extended console keys into arrow sequences;
- the in-memory best-score update and the level check.

The source keeps the game state in globals. Here those globals are the fields
of one class, `Racer.Game`, and its methods update them in place. Pure
functions in the other modules specify each method, and lemmas prove the
properties of those functions.

Modules (one file each):

- `Numerals`: how `operator<<` prints an `int` in decimal and in upper-case hexadecimal.
- `Keys`: key byte strings, the arrow sequences, and the Windows branch of `getInputSequence`.
- `KeyDisplay`: `keyToDisplay`, and a partial inverse `LabelToKey` that reads a label back.
- `Track`: the constants, obstacles, the tick, the collision predicate, and the well-formedness invariant of the obstacle list.
- `FrameClock`: the tick interval and the clock that decides when the simulation advances.
- `Controls`: movement, quit keys, level acceptance, and the best score.
- `Racer`: the `Game` class with the loop.

How outside inputs are modelled:

- Every `rand()` call becomes an explicit natural number. The model applies the source's own `% 10` and `% TRACK_WIDTH` to it.
- The steady clock becomes integer milliseconds.
- A key press becomes its byte string (`seq` of bytes). An empty string means no key.
- `isprint` is the ASCII range 0x20 to 0x7E.

Three behaviours of the code are worth knowing; the model follows the code:

- A quit key does not end the pass at once. `gameOver` is set, but the rest of that pass still runs: the tick, the collision check and the clock reset (`Racer.Game.Step`).
- A new obstacle enters as soon as the last one is below row 2, so consecutive obstacles are at least two rows apart and up to ten can be on the screen at once (`Track.ObstacleCountBound`).
- Collisions are only checked right after a tick. A player who steers into an obstacle already on the bottom row is never hit by it (`Track.BottomObstacleNeverHits`).

## Model

| member | source | states |
|---|---|---|
| `Numerals.NumeralRoundTrip` | src/main.cpp:235 | the digits printed for a number, read back in the same base, give that number; the digits are upper-case, at least one, with no leading zero |
| `Numerals.DecimalInjective` | src/main.cpp:173 | two ints print the same decimal text exactly when they are equal |
| `Keys.ExtendedKeyInjective` | src/main.cpp:161-176 | distinct extended scan codes translate to distinct key sequences |
| `Keys.ExtendedKey` | src/main.cpp:164-176 | definition of the translation of an extended scan code; its keys have at least three bytes; specified by `Keys.ExtendedKeyInjective` and `KeyDisplay.ExtendedKeyLabels` |
| `Keys.WindowsInput` | src/main.cpp:150-181 | the result is empty exactly when no key was hit; it is one of the four arrow sequences, the same ones a Unix terminal sends, exactly when an extended key with an arrow code was read; it is one byte, the first byte narrowed to a char, exactly for a plain key, so a plain key never reads as an extended key |
| `KeyDisplay.KeyToDisplay` | src/main.cpp:220-239 | definition of the label; a label is never empty and has one character exactly for a single printable key other than the space; specified by `KeyDisplay.DisplayRoundTrip` and `KeyDisplay.DisplayDistinguishes` |
| `KeyDisplay.SeqBodyRoundTrip` | src/main.cpp:232-238 | the `0x<hex> ` rendering of a byte sequence parses back to that sequence |
| `KeyDisplay.DisplayRoundTrip` | src/main.cpp:220-239 | every label reads back as the key it came from, except that carriage return reads back as line feed (both show as ENTER) |
| `KeyDisplay.DisplayDistinguishes` | src/main.cpp:220-239 | two keys get the same label if and only if they are equal or are the two ENTER keys |
| `KeyDisplay.ArrowLabels` | src/main.cpp:222-225 | each arrow label is produced by its own three-byte escape sequence and by no other key |
| `KeyDisplay.ExtendedKeyLabels` | src/main.cpp:164-168 | the Windows arrow codes 72, 80, 77, 75 get exactly the four arrow labels; every other extended key gets a `SEQ(` label |
| `Track.Advance` | src/main.cpp:262 | every obstacle moves one row down in the same column, and the order is kept |
| `Track.Evict` | src/main.cpp:263-266 | definition: the front obstacle is dropped once past the bottom row; specified by `Track.TickMovesEveryObstacle` and `Track.OnlyFrontPassesBottom` |
| `Track.Spawn` | src/main.cpp:267-272 | definition of the spawn rule, with `Track.ShouldSpawn` as its condition; specified by `Track.TickSpawns` |
| `Track.Tick` | src/main.cpp:261-272 | definition of one tick as the move, the eviction and the spawn; specified by `Track.TickMovesEveryObstacle`, `Track.TickSpawns` and `Track.TickPreservesWellFormed` |
| `Track.SpawnColumn` | src/main.cpp:270 | a new obstacle's column lies strictly between the borders, in 2 to TRACK_WIDTH+1 |
| `Track.TickGain` | src/main.cpp:263-266 | one tick scores either 0 or 10 points |
| `Track.TickMovesEveryObstacle` | src/main.cpp:261-266 | the kept obstacles are the old ones in order, each one row lower in the same column; only the front one can go, exactly when its new row is past the bottom, and then the tick scores 10; at most one obstacle is added |
| `Track.TickSpawns` | src/main.cpp:267-272 | an obstacle is appended if and only if the list after eviction is empty and the spawn draw mod 10 is below 3, or the last obstacle's row is above 2; it enters at row 1 in column draw mod 20 + 2 |
| `Track.OnlyFrontPassesBottom` | src/main.cpp:263-266 | on a well-formed list only the front obstacle can pass the bottom, so after eviction every obstacle is on screen; each obstacle scores once |
| `Track.TickPreservesWellFormed` | src/main.cpp:261-272 | a tick keeps every obstacle between the borders and in rows 1 to SCREEN_HEIGHT, with rows strictly decreasing from front to back and at least two apart |
| `Track.EmptyTrackWellFormed` | src/main.cpp:420 | the empty obstacle list of a new game is well formed |
| `Track.ObstacleCountBound` | src/main.cpp:267-272 | a well-formed list holds at most ten obstacles |
| `Track.Collides` | src/main.cpp:274-281 | a collision is exactly an obstacle at the player's column on the bottom row being in the list; specified by `Track.CollisionAtBottom` and `Track.TickCollision` |
| `Track.CollisionAtBottom` | src/main.cpp:274-281 | on a well-formed list at most one obstacle is on the bottom row, and a collision happens exactly when that obstacle is in the player's column |
| `Track.TickCollision` | src/main.cpp:261-281 | after a tick a collision happens if and only if the front obstacle was one row above the bottom in the player's column |
| `Track.BottomObstacleNeverHits` | src/main.cpp:274-281 | an obstacle already on the bottom row causes no collision at the next tick, whatever the player's column |
| `FrameClock.TickInterval` | src/main.cpp:425-426 | the interval is 120 - 20*level, with a floor of 20 ms |
| `FrameClock.IntervalByLevel` | src/main.cpp:425-426 | levels 1 to 5 tick every 100, 80, 60, 40 and 20 ms |
| `FrameClock.IntervalNonIncreasing` | src/main.cpp:425-426 | a higher level never has a longer interval |
| `FrameClock.NextReference` | src/main.cpp:444-449 | the reference time is reset to the current time exactly when the whole elapsed time reaches the interval, and is kept otherwise |
| `FrameClock.ClockIsLastTick` | src/main.cpp:443-449 | after any run of polls, the reference time is the time of the last tick, or the start time if there was no tick |
| `FrameClock.TicksAreSpaced` | src/main.cpp:443-449 | ticks happen only at poll times; the first comes at least one interval after the start, and each later one at least one interval after the one before |
| `Controls.MovePlayer` | src/main.cpp:433-437 | a key moves the player at most one column and keeps a player who was on the track on the track |
| `Controls.Quits` | src/main.cpp:433-441 | a key quits when it is "q", "Q" or Ctrl-C and is bound to neither move; a quitting key is one byte; specified by `Controls.MoveOrQuit` and `Controls.LeftBindingWins` |
| `Controls.MoveRules` | src/main.cpp:433-437 | the player moves left if and only if the key is the left binding and the column is above 2; right if and only if it is the right binding, not the left, and the column is below TRACK_WIDTH+1 |
| `Controls.LeftBindingWins` | src/main.cpp:434-437 | when both bindings are the same key, that key moves the player left and does not quit |
| `Controls.MoveOrQuit` | src/main.cpp:433-441 | a quitting key never moves the player; no key neither moves nor quits |
| `Controls.SelectLevel` | src/main.cpp:361-366 | an entered number from 1 to 5 becomes the level; any other number, or input that is not a number, keeps the current level, whatever it is; a level in 1 to 5 stays in 1 to 5 |
| `Controls.BestScore` | src/main.cpp:249-251 | the best score after a game is the larger of the old best and the game's score |
| `Controls.BestScoreExamples` | src/main.cpp:249-251 | 150 against a best of 100 becomes 150; 50 against 100, and any score not above the best, leave the best unchanged |
| `Racer.Game.constructor` | src/main.cpp:45-56 | the initial globals: no obstacles, player at column 11, score 0, not over, best 0, level 1, bindings "a" and "d" |
| `Racer.Game.StartGame` | src/main.cpp:417-429 | the reset at the start of a game: not over, score 0, player at column 11, no obstacles, clock reference at the start time |
| `Racer.Game.MoveObstaclesDown` | src/main.cpp:262 | the loop over the obstacle list leaves every obstacle, in place, one row lower in the same column |
| `Racer.Game.RemovePassed` | src/main.cpp:263-266 | the front obstacle is removed, and 10 points are scored, exactly when it is past the bottom row; the list is otherwise unchanged |
| `Racer.Game.SpawnObstacle` | src/main.cpp:267-272 | an obstacle is appended at row 1 in column draw mod 20 + 2 exactly when the spawn rule holds, and the list is otherwise unchanged |
| `Racer.Game.UpdateObstacles` | src/main.cpp:261-273 | the obstacle list becomes its tick, the score rises by that tick's gain, and a well-formed list stays well formed |
| `Racer.Game.CheckCollision` | src/main.cpp:274-281 | `gameOver` becomes true if some obstacle is on the bottom row in the player's column; otherwise it keeps its value and is never reset to false |
| `Racer.Game.HandleInput` | src/main.cpp:433-441 | the key moves the player as the movement rules say, and sets `gameOver` exactly for a quit key bound to neither move; `gameOver` is never reset |
| `Racer.Game.Step` | src/main.cpp:431-450 | one pass: the player moves by the key; the game ends on a quit key bound to no move; the simulation ticks and collisions are checked if and only if the interval has passed, and only then is the clock reference reset; the new state is `Racer.StepState` of the old one; the invariant is kept |
| `Racer.Game.SaveHighestScore` | src/main.cpp:249-258 | the best score becomes the larger of the two, and the file would be written exactly when the game beat the old best |
| `Racer.Game.SetLevel` | src/main.cpp:361-366 | the level changes only to an entered number from 1 to 5 |
| `Racer.StepState` | src/main.cpp:431-450 | one loop pass on the game state as a value: the player moves by at most one column, a game that is over stays over, and a pass ends the game only by a quit key or by a collision in the new state |
| `Racer.Run` | src/main.cpp:431-453 | the loop passes over a list of passes, stopping at the first one that ends the game: at most one pass per event, and the run stops early only when the game is over |
| `Racer.RunStopReason` | src/main.cpp:431-453 | a run that ends the game ends it in its last pass, by that pass's quit key or by a collision in the final state |
| `Racer.Game.PlayPasses` | src/main.cpp:431-453 | the `while (!gameOver)` loop: the final fields and the number of passes are those of `Racer.Run` from the state before the loop; the tick times and the clock reference are those the frame clock gives for the poll times; the invariant is kept |
| `Racer.Game.GameLoop` | src/main.cpp:416-456 | a game: after the reset the final fields and the number of passes are those of `Racer.Run` from the reset state; a game that is over ended in its last pass by a quit key or a collision; the tick times and the clock reference follow the frame clock; the best score is updated when the game ended; the level and the bindings are unchanged |

## Left out

- Terminal mode control (`setupTerminal`, `restoreTerminal`), the cursor (`gotoxy`, `hideCursor`, `showCursor`) and all rendering in `draw` and the menus: these are calls into the operating system and output only.
- The Unix branch of `getInputSequence`: it depends on `select`, `ioctl(FIONREAD)`, `read` and an 8 ms sleep loop, so it turns on timing and operating-system buffers. It is not part of this model, and neither is splitting an escape sequence across polls. Only its result, a byte string, is modelled. `_kbhit` and `_getch` on Windows are modelled only as their results.
- The menus and prompts (`showMenu`, `showLevelSelect`, `showControlsMenu`): interactive input and output. What they decide is kept: the level range check (`SetLevel`). Rebinding the controls is not modelled; the bindings are fields that keep their values.
- Reading and writing the high-score file (`loadHighestScore`, the `std::ofstream` in `saveHighestScore`): file I/O. `SaveHighestScore` only reports whether the write would happen.
- `srand(time)` and `rand()`: they become explicit inputs.
- `std::chrono`, the 1 ms sleep and the clock's sub-millisecond resolution: the clock is given in whole milliseconds, so the truncation done by `duration_cast` is not modelled.
- The exception handler in `main` and the menu loop of `main`.
- The `isprint` locale: it is modelled as ASCII 0x20 to 0x7E.
- `Racer.Game.GameLoop` and `Racer.Game.PlayPasses`: the source polls until the game is over. The model stops when its finite list of loop passes runs out (as `Racer.Run` does), and then it does not save the score.
- `Racer.Game.Step`: `long long` score overflow and `int` column overflow are not modelled; the integers are unbounded. Score grows by 10 per evicted obstacle.
- The extended scan code from `_getch` is a value from 0 to 255. The model accepts any `int` code and prints a negative one with a minus sign, as `operator<<` does.
