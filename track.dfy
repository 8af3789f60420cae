/** The obstacle track (src/main.cpp:29-31, 43, 261-281): obstacles scroll down
    one row per simulation tick, the front one leaves past the bottom edge and
    scores, and new ones enter at the top row. */
module Track {

  const TrackWidth := 20
  const ScreenHeight := 20
  /** The player's column at the start of a game: the middle of the track. */
  const StartPlayerX := TrackWidth / 2 + 1

  /** An obstacle's column and row; column 1 and column TrackWidth + 2 are the
      borders and row 1 is the top. */
  datatype Car = Car(x: int, y: int)

  /** A column strictly between the two borders. */
  predicate OnTrack(x: int)
  {
    2 <= x <= TrackWidth + 1
  }

  /** The obstacle list that ticks keep: every obstacle between the borders
      and on the screen, the front one lowest, and each obstacle at least two
      rows above the one in front of it. */
  ghost predicate WellFormed(obs: seq<Car>)
  {
    (forall i :: 0 <= i < |obs| ==> OnTrack(obs[i].x) && 1 <= obs[i].y <= ScreenHeight) &&
    Spaced(obs)
  }

  /** Every obstacle one row further down. */
  function Advance(obs: seq<Car>): (r: seq<Car>)
    ensures |r| == |obs|
    ensures forall i :: 0 <= i < |obs| ==> r[i] == Car(obs[i].x, obs[i].y + 1)
  {
    if obs == [] then [] else [Car(obs[0].x, obs[0].y + 1)] + Advance(obs[1..])
  }

  /** The front obstacle has gone past the bottom row. */
  predicate PassedBottom(obs: seq<Car>)
  {
    obs != [] && obs[0].y > ScreenHeight
  }

  /** Drops the front obstacle when it has gone past the bottom row. */
  function Evict(obs: seq<Car>): seq<Car>
  {
    if PassedBottom(obs) then obs[1..] else obs
  }

  /** The spawn rule, given the first `rand()` of the tick, which is drawn
      whether or not it decides: a new obstacle enters when the track is empty
      and the draw is 0, 1 or 2 modulo 10, or when the last obstacle has moved
      below row 2. */
  predicate ShouldSpawn(obs: seq<Car>, spawnDraw: nat)
  {
    (spawnDraw % 10 < 3 && obs == []) || (obs != [] && obs[|obs| - 1].y > 2)
  }

  /** The column of a new obstacle from the second `rand()`. */
  function SpawnColumn(columnDraw: nat): (x: int)
    ensures OnTrack(x)
  {
    columnDraw % TrackWidth + 2
  }

  /** The list after the spawn rule: the new obstacle, if any, enters last
      at row 1. */
  function Spawn(obs: seq<Car>, spawnDraw: nat, columnDraw: nat): seq<Car>
  {
    if ShouldSpawn(obs, spawnDraw) then obs + [Car(SpawnColumn(columnDraw), 1)] else obs
  }

  /** The obstacle list after one tick. */
  function Tick(obs: seq<Car>, spawnDraw: nat, columnDraw: nat): seq<Car>
  {
    Spawn(Evict(Advance(obs)), spawnDraw, columnDraw)
  }

  /** The points one tick scores. */
  function TickGain(obs: seq<Car>): (points: int)
    ensures points == 0 || points == 10
  {
    if PassedBottom(Advance(obs)) then 10 else 0
  }

  /** Some obstacle is on the player's row, the bottom one, in the player's column. */
  predicate Collides(obs: seq<Car>, playerX: int)
    ensures Collides(obs, playerX) <==> Car(playerX, ScreenHeight) in obs
  {
    exists i :: 0 <= i < |obs| && obs[i].y == ScreenHeight && obs[i].x == playerX
  }

  /** The obstacles a tick keeps are the old ones after the front one, if
      that passed the bottom row, each one row lower. */
  lemma EvictKeepsRest(obs: seq<Car>)
    ensures var rest := Evict(Advance(obs));
            var gone := if obs != [] && obs[0].y + 1 > ScreenHeight then 1 else 0;
            |rest| == |obs| - gone &&
            forall i :: 0 <= i < |rest| ==> rest[i] == Car(obs[i + gone].x, obs[i + gone].y + 1)
  {
    var adv := Advance(obs);
    if PassedBottom(adv) {
      forall i | 0 <= i < |adv| - 1 ensures adv[1..][i] == adv[i + 1] {
      }
    } else {
      assert Evict(adv) == adv;
      forall i | 0 <= i < |adv| ensures adv[i] == Car(obs[i].x, obs[i].y + 1) {
      }
    }
  }

  /** What one tick does to a list: the obstacles that stay are the old ones,
      in order, each one row lower in the same column; only the front one can
      go, and it goes exactly when it passes the bottom row, scoring 10; and
      at most one obstacle enters, behind the others. */
  lemma TickMovesEveryObstacle(obs: seq<Car>, spawnDraw: nat, columnDraw: nat)
    ensures var r := Tick(obs, spawnDraw, columnDraw);
            var gone := if obs != [] && obs[0].y + 1 > ScreenHeight then 1 else 0;
            var kept := |obs| - gone;
            (|r| == kept || |r| == kept + 1) &&
            (forall i :: 0 <= i < kept ==> r[i] == Car(obs[i + gone].x, obs[i + gone].y + 1)) &&
            TickGain(obs) == 10 * gone
  {
    EvictKeepsRest(obs);
    var rest := Evict(Advance(obs));
    var r := Tick(obs, spawnDraw, columnDraw);
    assert forall i :: 0 <= i < |rest| ==> r[i] == rest[i];
  }

  /** A new obstacle enters exactly under the spawn rule, at the top row and
      in the column the draw selects. */
  lemma TickSpawns(obs: seq<Car>, spawnDraw: nat, columnDraw: nat)
    ensures var rest := Evict(Advance(obs));
            var r := Tick(obs, spawnDraw, columnDraw);
            (|r| == |rest| + 1 <==>
               (rest == [] && spawnDraw % 10 < 3) || (rest != [] && rest[|rest| - 1].y > 2)) &&
            (|r| == |rest| + 1 ==>
               r[|rest|] == Car(columnDraw % TrackWidth + 2, 1) && OnTrack(r[|rest|].x))
  {
  }

  /** On a well-formed list only the front obstacle can pass the bottom row
      in a tick, so evicting the front leaves every obstacle on the screen: an
      obstacle scores once, in the tick it leaves. */
  lemma OnlyFrontPassesBottom(obs: seq<Car>)
    requires WellFormed(obs)
    ensures forall i :: 1 <= i < |obs| ==> Advance(obs)[i].y <= ScreenHeight
    ensures forall c :: c in Evict(Advance(obs)) ==> c.y <= ScreenHeight
  {
    var adv := Advance(obs);
    forall i | 1 <= i < |obs| ensures adv[i].y <= ScreenHeight {
      assert obs[0].y >= obs[i].y + 2 * i;
    }
  }

  /** The rows a list keeps apart, as the second half of WellFormed states it. */
  ghost predicate Spaced(obs: seq<Car>)
  {
    forall i, j :: 0 <= i < j < |obs| ==> obs[i].y >= obs[j].y + 2 * (j - i)
  }

  lemma AdvanceSpaced(obs: seq<Car>)
    requires Spaced(obs)
    ensures Spaced(Advance(obs))
  {
    var adv := Advance(obs);
    forall i, j | 0 <= i < j < |adv| ensures adv[i].y >= adv[j].y + 2 * (j - i) {
      assert adv[i].y == obs[i].y + 1 && adv[j].y == obs[j].y + 1;
    }
  }

  lemma TailSpaced(obs: seq<Car>)
    requires Spaced(obs) && obs != []
    ensures Spaced(obs[1..])
  {
    var t := obs[1..];
    forall i, j | 0 <= i < j < |t| ensures t[i].y >= t[j].y + 2 * (j - i) {
      assert t[i] == obs[i + 1] && t[j] == obs[j + 1];
    }
  }

  lemma AdvanceEvictSpaced(obs: seq<Car>)
    requires Spaced(obs)
    ensures Spaced(Evict(Advance(obs)))
  {
    AdvanceSpaced(obs);
    if PassedBottom(Advance(obs)) {
      TailSpaced(Advance(obs));
    }
  }

  /** After the move and the eviction every obstacle is between the borders
      and on the screen. */
  lemma AdvanceEvictOnScreen(obs: seq<Car>)
    requires WellFormed(obs)
    ensures var rest := Evict(Advance(obs));
            forall i :: 0 <= i < |rest| ==> OnTrack(rest[i].x) && 1 <= rest[i].y <= ScreenHeight
  {
    var rest := Evict(Advance(obs));
    EvictKeepsRest(obs);
    var gone := if obs != [] && obs[0].y + 1 > ScreenHeight then 1 else 0;
    forall i | 0 <= i < |rest| ensures OnTrack(rest[i].x) && 1 <= rest[i].y <= ScreenHeight {
      assert rest[i] == Car(obs[i + gone].x, obs[i + gone].y + 1);
      if i + gone > 0 {
        assert obs[0].y >= obs[i + gone].y + 2 * (i + gone);
      }
    }
  }

  /** Moving every obstacle down and evicting the one past the bottom keeps a
      list well formed. */
  lemma AdvanceEvictWellFormed(obs: seq<Car>)
    requires WellFormed(obs)
    ensures WellFormed(Evict(Advance(obs)))
  {
    AdvanceEvictOnScreen(obs);
    AdvanceEvictSpaced(obs);
  }

  /** Adding an obstacle at the top row behind a list whose last obstacle is
      below row 2 keeps it well formed. */
  lemma SpawnWellFormed(rest: seq<Car>, x: int)
    requires WellFormed(rest) && OnTrack(x)
    requires rest == [] || rest[|rest| - 1].y > 2
    ensures WellFormed(rest + [Car(x, 1)])
  {
    var r := rest + [Car(x, 1)];
    var n := |rest|;
    forall i, j | 0 <= i < j < |r| ensures r[i].y >= r[j].y + 2 * (j - i) {
      if j == n {
        if i < n - 1 {
          assert rest[i].y >= rest[n - 1].y + 2 * (n - 1 - i);
        }
      } else {
        assert r[i] == rest[i] && r[j] == rest[j];
      }
    }
  }

  /** A tick keeps the obstacle list well formed. */
  lemma TickPreservesWellFormed(obs: seq<Car>, spawnDraw: nat, columnDraw: nat)
    requires WellFormed(obs)
    ensures WellFormed(Tick(obs, spawnDraw, columnDraw))
  {
    AdvanceEvictWellFormed(obs);
    var rest := Evict(Advance(obs));
    if ShouldSpawn(rest, spawnDraw) {
      SpawnWellFormed(rest, SpawnColumn(columnDraw));
    }
  }

  /** The game starts with no obstacles, which is well formed. */
  lemma EmptyTrackWellFormed()
    ensures WellFormed([])
  {
  }

  /** Since obstacles keep two rows apart, at most ten are on the screen. */
  lemma ObstacleCountBound(obs: seq<Car>)
    requires WellFormed(obs)
    ensures |obs| <= (ScreenHeight + 1) / 2
  {
    if |obs| > 1 {
      assert obs[0].y >= obs[|obs| - 1].y + 2 * (|obs| - 1);
    }
  }

  /** On a well-formed list at most one obstacle is on the bottom row, so the
      collision check is decided by that obstacle's column alone. */
  lemma CollisionAtBottom(obs: seq<Car>, playerX: int, k: nat)
    requires WellFormed(obs)
    requires k < |obs| && obs[k].y == ScreenHeight
    ensures Collides(obs, playerX) <==> obs[k].x == playerX
  {
  }

  /** After the move and the eviction only the old front obstacle can be on
      the bottom row, and only if it was one row above it. */
  lemma EvictBottomRow(obs: seq<Car>, i: nat)
    requires WellFormed(obs)
    requires i < |Evict(Advance(obs))| && Evict(Advance(obs))[i].y == ScreenHeight
    ensures i == 0 && obs != [] && obs[0].y == ScreenHeight - 1
    ensures Evict(Advance(obs))[0].x == obs[0].x
  {
    EvictKeepsRest(obs);
    var gone := if obs != [] && obs[0].y + 1 > ScreenHeight then 1 else 0;
    var k := i + gone;
    assert obs[k].y == ScreenHeight - 1;
  }

  /** After a tick only the old front obstacle can be on the bottom row, and
      only if it was one row above it. */
  lemma TickBottomRow(obs: seq<Car>, spawnDraw: nat, columnDraw: nat, i: nat)
    requires WellFormed(obs)
    requires i < |Tick(obs, spawnDraw, columnDraw)| && Tick(obs, spawnDraw, columnDraw)[i].y == ScreenHeight
    ensures i == 0 && obs != [] && obs[0].y == ScreenHeight - 1
    ensures Tick(obs, spawnDraw, columnDraw)[0].x == obs[0].x
  {
    var rest := Evict(Advance(obs));
    if i < |rest| {
      EvictBottomRow(obs, i);
    }
  }

  /** The collision check after a tick hits exactly when the front obstacle
      was one row above the bottom in the player's column: that obstacle is
      the only one that can reach the bottom row, and a new one enters at the
      top. */
  lemma TickCollision(obs: seq<Car>, spawnDraw: nat, columnDraw: nat, playerX: int)
    requires WellFormed(obs)
    ensures Collides(Tick(obs, spawnDraw, columnDraw), playerX) <==>
              obs != [] && obs[0].y == ScreenHeight - 1 && obs[0].x == playerX
  {
    var r := Tick(obs, spawnDraw, columnDraw);
    if Collides(r, playerX) {
      var i :| 0 <= i < |r| && r[i].y == ScreenHeight && r[i].x == playerX;
      TickBottomRow(obs, spawnDraw, columnDraw, i);
    }
    if obs != [] && obs[0].y == ScreenHeight - 1 {
      EvictKeepsRest(obs);
      assert r[0] == Car(obs[0].x, ScreenHeight);
    }
  }

  /** An obstacle already on the bottom row leaves at the next tick without a
      hit, whatever the player's column: the collision check runs only right
      after a tick, so a player who steers into such an obstacle between two
      ticks is never hit by it. */
  lemma BottomObstacleNeverHits(obs: seq<Car>, spawnDraw: nat, columnDraw: nat, playerX: int)
    requires WellFormed(obs) && obs != [] && obs[0].y == ScreenHeight
    ensures !Collides(Tick(obs, spawnDraw, columnDraw), playerX)
  {
    TickCollision(obs, spawnDraw, columnDraw, playerX);
  }
}
