/** The game state and the game loop (src/main.cpp:42-56, 249-281, 366,
    416-456). The source keeps the state in globals; here they are the fields
    of one `Game` object, which the methods update in place as the source's
    functions update the globals. */
module Racer {
  import opened Keys
  import opened Track
  import opened FrameClock
  import opened Controls
  import opened Wrappers

  /** What one pass of the game loop reads from outside: the key sequence
      from `getInputSequence`, the clock in milliseconds, and the two
      `rand()` results a tick would use. */
  datatype Event = Event(input: Key, now: int, spawnDraw: nat, columnDraw: nat)

  /** The clock readings of a run of loop passes. */
  function Times(events: seq<Event>): seq<int>
  {
    seq(|events|, i requires 0 <= i < |events| => events[i].now)
  }

  /** The part of the game state that a loop pass changes. */
  datatype State = State(obstacles: seq<Car>, playerX: int, score: int, gameOver: bool,
                         lastUpdateTime: int)

  /** A run of loop passes: the state it ends in and how many passes ran. */
  datatype Outcome = Outcome(final: State, steps: nat)

  /** One pass of the `gameLoop` body on a state, with the tick interval
      `interval` and the bindings `left` and `right`. A pass can end the game
      only by a quit key or by a collision right after a tick. */
  function StepState(s: State, e: Event, interval: int, left: Key, right: Key): (r: State)
    ensures r.playerX - 1 <= s.playerX <= r.playerX + 1
    ensures s.gameOver ==> r.gameOver
    ensures r.gameOver && !s.gameOver ==>
              Quits(e.input, left, right) || Collides(r.obstacles, r.playerX)
  {
    var px := MovePlayer(s.playerX, e.input, left, right);
    var ticked := ShouldAdvance(s.lastUpdateTime, e.now, interval);
    var obs := if ticked then Tick(s.obstacles, e.spawnDraw, e.columnDraw) else s.obstacles;
    State(obs, px, s.score + (if ticked then TickGain(s.obstacles) else 0),
          s.gameOver || Quits(e.input, left, right) || (ticked && Collides(obs, px)),
          NextReference(s.lastUpdateTime, e.now, interval))
  }

  /** The passes of `gameLoop` over `events`, stopping at the first pass that
      leaves the game over. */
  function Run(s: State, events: seq<Event>, interval: int, left: Key, right: Key): (r: Outcome)
    ensures r.steps <= |events|
    ensures r.steps < |events| ==> r.final.gameOver
    ensures !s.gameOver && !r.final.gameOver ==> r.steps == |events|
    decreases |events|
  {
    if events == [] || s.gameOver then Outcome(s, 0)
    else
      var next := Run(StepState(s, events[0], interval, left, right), events[1..], interval, left, right);
      Outcome(next.final, next.steps + 1)
  }

  /** A run that ends the game ends it in its last pass, by that pass's key
      or by a collision in the final state. */
  lemma {:induction false} RunStopReason(s: State, events: seq<Event>, interval: int, left: Key, right: Key)
    requires !s.gameOver
    ensures var r := Run(s, events, interval, left, right);
            r.final.gameOver ==>
              0 < r.steps &&
              (Quits(events[r.steps - 1].input, left, right) ||
               Collides(r.final.obstacles, r.final.playerX))
    decreases |events|
  {
    if events != [] {
      var t := StepState(s, events[0], interval, left, right);
      if !t.gameOver {
        RunStopReason(t, events[1..], interval, left, right);
        var r := Run(t, events[1..], interval, left, right);
        if r.final.gameOver {
          assert events[1..][r.steps - 1] == events[r.steps];
        }
      }
    }
  }

  /** A run from pass `i` on that is not over yet takes pass `i` first. */
  lemma RunFrom(s: State, events: seq<Event>, i: nat, interval: int, left: Key, right: Key)
    requires i < |events| && !s.gameOver
    ensures var r := Run(StepState(s, events[i], interval, left, right), events[i + 1..], interval, left, right);
            Run(s, events[i..], interval, left, right) == Outcome(r.final, r.steps + 1)
  {
    assert events[i..][1..] == events[i + 1..];
  }

  /** One more poll extends the frame clock's history by that poll. */
  lemma ClockFrom(start: int, interval: int, events: seq<Event>, i: nat)
    requires i < |events|
    ensures var before := ClockAfter(start, interval, Times(events[..i]));
            var now := events[i].now;
            ClockAfter(start, interval, Times(events[..i + 1])) == NextReference(before, now, interval) &&
            TickTimes(start, interval, Times(events[..i + 1])) ==
              TickTimes(start, interval, Times(events[..i])) +
              (if ShouldAdvance(before, now, interval) then [now] else [])
  {
    var times := Times(events[..i + 1]);
    assert times[..i] == Times(events[..i]) && times[i] == events[i].now;
  }

  class Game {
    var obstacles: seq<Car>
    var playerX: int
    var score: int
    var gameOver: bool
    var highestScore: int
    var difficultyLevel: int
    var moveLeftKey: Key
    var moveRightKey: Key
    /** The reference time of the frame clock, local to `gameLoop` in the source. */
    var lastUpdateTime: int

    /** What every reachable state satisfies. */
    ghost predicate Valid()
      reads this
    {
      WellFormed(obstacles) && OnTrack(playerX) && score >= 0 &&
      1 <= difficultyLevel <= 5
    }

    /** The fields a loop pass changes, as a value. */
    function Snapshot(): State
      reads this
    {
      State(obstacles, playerX, score, gameOver, lastUpdateTime)
    }

    /** The globals' initial values. */
    constructor ()
      ensures Valid()
      ensures obstacles == [] && playerX == StartPlayerX && score == 0 && !gameOver
      ensures highestScore == 0 && difficultyLevel == 1
      ensures moveLeftKey == [0x61] && moveRightKey == [0x64]
    {
      obstacles := [];
      playerX := StartPlayerX;
      score := 0;
      gameOver := false;
      highestScore := 0;
      difficultyLevel := 1;
      moveLeftKey := [0x61];   // "a"
      moveRightKey := [0x64];  // "d"
      lastUpdateTime := 0;
    }

    /** The reset at the start of `gameLoop`, with the clock read at `now`. */
    method StartGame(now: int)
      requires Valid()
      modifies this`gameOver, this`score, this`playerX, this`obstacles, this`lastUpdateTime
      ensures Valid()
      ensures !gameOver && score == 0 && playerX == StartPlayerX && obstacles == []
      ensures lastUpdateTime == now
    {
      gameOver := false;
      score := 0;
      playerX := StartPlayerX;
      obstacles := [];
      lastUpdateTime := now;
    }

    /** The first statement of `updateObstacles`: every obstacle, in place,
      one row further down. */
    method MoveObstaclesDown()
      modifies this`obstacles
      ensures obstacles == Advance(old(obstacles))
    {
      var i := 0;
      while i < |obstacles|
        invariant 0 <= i <= |obstacles| == |old(obstacles)|
        invariant forall j :: 0 <= j < i ==> obstacles[j] == Car(old(obstacles)[j].x, old(obstacles)[j].y + 1)
        invariant forall j :: i <= j < |obstacles| ==> obstacles[j] == old(obstacles)[j]
      {
        obstacles := obstacles[i := Car(obstacles[i].x, obstacles[i].y + 1)];
        i := i + 1;
      }
    }

    /** The second part of `updateObstacles`: the front obstacle, once past
      the bottom row, leaves the list and scores 10 points. */
    method RemovePassed()
      modifies this`obstacles, this`score
      ensures obstacles == Evict(old(obstacles))
      ensures score == old(score) + (if PassedBottom(old(obstacles)) then 10 else 0)
    {
      if |obstacles| > 0 && obstacles[0].y > ScreenHeight {
        obstacles := obstacles[1..];
        score := score + 10;
      }
    }

    /** The last part of `updateObstacles`: the spawn rule with its two draws. */
    method SpawnObstacle(spawnDraw: nat, columnDraw: nat)
      modifies this`obstacles
      ensures obstacles == Spawn(old(obstacles), spawnDraw, columnDraw)
    {
      var shouldSpawn := (spawnDraw % 10 < 3 && |obstacles| == 0) ||
                         (|obstacles| > 0 && obstacles[|obstacles| - 1].y > 2);
      if shouldSpawn {
        var newX := columnDraw % TrackWidth + 2;
        obstacles := obstacles + [Car(newX, 1)];
      }
    }

    /** `updateObstacles`: one simulation tick on the obstacle list and the score. */
    method UpdateObstacles(spawnDraw: nat, columnDraw: nat)
      requires WellFormed(obstacles)
      modifies this`obstacles, this`score
      ensures WellFormed(obstacles)
      ensures obstacles == Tick(old(obstacles), spawnDraw, columnDraw)
      ensures score == old(score) + TickGain(old(obstacles))
    {
      TickPreservesWellFormed(obstacles, spawnDraw, columnDraw);
      MoveObstaclesDown();
      RemovePassed();
      SpawnObstacle(spawnDraw, columnDraw);
    }

    /** `checkCollision`: ends the game when an obstacle is on the bottom row in
      the player's column, and otherwise leaves `gameOver` as it was. */
    method CheckCollision()
      modifies this`gameOver
      ensures gameOver == (old(gameOver) || Collides(obstacles, playerX))
    {
      var i := 0;
      while i < |obstacles|
        invariant 0 <= i <= |obstacles|
        invariant gameOver == old(gameOver)
        invariant forall j :: 0 <= j < i ==> !(obstacles[j].y == ScreenHeight && obstacles[j].x == playerX)
      {
        if obstacles[i].y == ScreenHeight && obstacles[i].x == playerX {
          gameOver := true;
          break;
        }
        i := i + 1;
      }
    }

    /** The key handling at the top of a `gameLoop` pass: the left binding,
      then the right binding, moves the player unless a border is in the way;
      a quit key that is bound to neither move ends the game. */
    method HandleInput(input: Key)
      modifies this`playerX, this`gameOver
      ensures playerX == MovePlayer(old(playerX), input, moveLeftKey, moveRightKey)
      ensures gameOver == (old(gameOver) || Quits(input, moveLeftKey, moveRightKey))
    {
      if |input| > 0 {
        if input == moveLeftKey {
          if playerX > 2 { playerX := playerX - 1; }
        } else if input == moveRightKey {
          if playerX < TrackWidth + 1 { playerX := playerX + 1; }
        } else if input == [0x71] || input == [0x51] || input == [0x03] {
          gameOver := true;
        }
      }
    }

    /** One pass of the `gameLoop` body with the tick interval `updateDuration`:
      the key acts on the player or ends the game, and if the interval has
      passed since the last tick the obstacles advance, the collision check
      runs and the clock's reference is reset. A quit key does not stop the
      rest of the pass. */
    method Step(e: Event, updateDuration: int)
      requires Valid()
      modifies this`obstacles, this`score, this`playerX, this`gameOver, this`lastUpdateTime
      ensures Valid()
      ensures playerX == MovePlayer(old(playerX), e.input, moveLeftKey, moveRightKey)
      ensures lastUpdateTime == NextReference(old(lastUpdateTime), e.now, updateDuration)
      ensures var ticked := ShouldAdvance(old(lastUpdateTime), e.now, updateDuration);
              obstacles == (if ticked then Tick(old(obstacles), e.spawnDraw, e.columnDraw) else old(obstacles)) &&
              score == old(score) + (if ticked then TickGain(old(obstacles)) else 0) &&
              gameOver == (old(gameOver) || Quits(e.input, moveLeftKey, moveRightKey)
                           || (ticked && Collides(obstacles, playerX)))
      ensures Snapshot() == StepState(old(Snapshot()), e, updateDuration, moveLeftKey, moveRightKey)
    {
      HandleInput(e.input);
      var elapsed := e.now - lastUpdateTime;
      if elapsed >= updateDuration {
        UpdateObstacles(e.spawnDraw, e.columnDraw);
        CheckCollision();
        lastUpdateTime := e.now;
      }
    }

    /** `saveHighestScore` without the file: the best score is raised to this
      game's score when that is higher, and `written` says whether the file
      would be rewritten. */
    method SaveHighestScore() returns (written: bool)
      modifies this`highestScore
      ensures highestScore == BestScore(old(highestScore), score)
      ensures written == (score > old(highestScore))
    {
      written := score > highestScore;
      if written {
        highestScore := score;
      }
    }

    /** The end of `showLevelSelect`: `entered` is the number read, or None
      when the input was not a number and the current level was kept. */
    method SetLevel(entered: Option<int>)
      requires Valid()
      modifies this`difficultyLevel
      ensures Valid()
      ensures difficultyLevel == SelectLevel(old(difficultyLevel), entered)
    {
      var inputLevel := match entered case Some(n) => n case None => difficultyLevel;
      if 1 <= inputLevel && inputLevel <= 5 {
        difficultyLevel := inputLevel;
      }
    }

    /** The `while (!gameOver)` loop of `gameLoop` over the loop passes
      `events`, with the clock's reference at `start` and the tick interval
      `updateDuration`. It stops when the game is over, or when the events
      run out (the source would keep polling). `ticks` are the times at which
      the simulation advanced. */
    method PlayPasses(ghost start: int, events: seq<Event>, updateDuration: int)
      returns (steps: nat, ghost ticks: seq<int>)
      requires Valid() && lastUpdateTime == start
      modifies this`obstacles, this`score, this`playerX, this`gameOver, this`lastUpdateTime
      ensures Valid()
      ensures var r := Run(old(Snapshot()), events, updateDuration, moveLeftKey, moveRightKey);
              Snapshot() == r.final && steps == r.steps
      ensures ticks == TickTimes(start, updateDuration, Times(events[..steps]))
      ensures lastUpdateTime == ClockAfter(start, updateDuration, Times(events[..steps]))
    {
      ghost var run := Run(Snapshot(), events, updateDuration, moveLeftKey, moveRightKey);
      steps, ticks := 0, [];
      assert events[steps..] == events;
      while !gameOver && steps < |events|
        invariant Valid() && steps <= |events|
        invariant lastUpdateTime == ClockAfter(start, updateDuration, Times(events[..steps]))
        invariant ticks == TickTimes(start, updateDuration, Times(events[..steps]))
        invariant var rest := Run(Snapshot(), events[steps..], updateDuration, moveLeftKey, moveRightKey);
                  run == Outcome(rest.final, steps + rest.steps)
      {
        var e := events[steps];
        RunFrom(Snapshot(), events, steps, updateDuration, moveLeftKey, moveRightKey);
        ClockFrom(start, updateDuration, events, steps);
        ghost var ticked := ShouldAdvance(lastUpdateTime, e.now, updateDuration);
        Step(e, updateDuration);
        if ticked {
          ticks := ticks + [e.now];
        }
        steps := steps + 1;
      }
    }

    /** `gameLoop` over the loop passes `events`, started with the clock at
      `start`: the reset, the passes, and the best score saved once the game
      is over. */
    method GameLoop(start: int, events: seq<Event>) returns (steps: nat, ghost ticks: seq<int>)
      requires Valid()
      modifies this`obstacles, this`score, this`playerX, this`gameOver, this`lastUpdateTime, this`highestScore
      ensures Valid()
      ensures steps <= |events| && (steps < |events| ==> gameOver) && (!gameOver ==> steps == |events|)
      ensures ticks == TickTimes(start, TickInterval(difficultyLevel), Times(events[..steps]))
      ensures lastUpdateTime == ClockAfter(start, TickInterval(difficultyLevel), Times(events[..steps]))
      ensures highestScore == if gameOver then BestScore(old(highestScore), score) else old(highestScore)
      ensures difficultyLevel == old(difficultyLevel)
      ensures moveLeftKey == old(moveLeftKey) && moveRightKey == old(moveRightKey)
      ensures var r := Run(State([], StartPlayerX, 0, false, start), events,
                           TickInterval(difficultyLevel), moveLeftKey, moveRightKey);
              Snapshot() == r.final && steps == r.steps
      ensures gameOver ==>
                0 < steps && (Quits(events[steps - 1].input, moveLeftKey, moveRightKey) ||
                              Collides(obstacles, playerX))
    {
      StartGame(start);
      var updateDuration := TickInterval(difficultyLevel);
      RunStopReason(Snapshot(), events, updateDuration, moveLeftKey, moveRightKey);
      steps, ticks := PlayPasses(start, events, updateDuration);
      if gameOver {
        var _ := SaveHighestScore();
      }
    }
  }
}
