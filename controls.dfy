/** How one key press acts on the game (src/main.cpp:433-441), which levels the
    level prompt accepts (src/main.cpp:361-366) and how the best score is kept
    (src/main.cpp:249-251). */
module Controls {
  import opened Keys
  import opened Track
  import opened Wrappers

  /** The keys that end a game when they are not bound to a move:
      `q`, `Q` and Ctrl-C. */
  predicate IsQuitKey(k: Key)
  {
    k == [0x71] || k == [0x51] || k == [0x03]
  }

  /** The player's column after the key `input`: the left binding is tested
      first, then the right one, and a move that would reach a border is
      ignored. No key at all changes nothing. */
  function MovePlayer(playerX: int, input: Key, left: Key, right: Key): (x: int)
    ensures OnTrack(playerX) ==> OnTrack(x)
    ensures x == playerX - 1 || x == playerX || x == playerX + 1
  {
    if input == [] then playerX
    else if input == left then (if playerX > 2 then playerX - 1 else playerX)
    else if input == right then (if playerX < TrackWidth + 1 then playerX + 1 else playerX)
    else playerX
  }

  /** The key `input` ends the game: a quit key that is bound to neither move. */
  predicate Quits(input: Key, left: Key, right: Key)
    ensures Quits(input, left, right) ==> |input| == 1
  {
    input != [] && input != left && input != right && IsQuitKey(input)
  }

  /** The player moves left exactly on the left binding away from the left
      border, and right exactly on the right binding, when that is not also
      the left binding, away from the right border. */
  lemma MoveRules(playerX: int, input: Key, left: Key, right: Key)
    ensures var x := MovePlayer(playerX, input, left, right);
            (x == playerX - 1 <==> input != [] && input == left && playerX > 2) &&
            (x == playerX + 1 <==>
               input != [] && input != left && input == right && playerX < TrackWidth + 1)
  {
  }

  /** A key bound to both moves moves the player left. */
  lemma LeftBindingWins(playerX: int, k: Key)
    requires k != [] && playerX > 2
    ensures MovePlayer(playerX, k, k, k) == playerX - 1 && !Quits(k, k, k)
  {
  }

  /** A key press either moves the player or quits, never both; no key press
      does neither. */
  lemma MoveOrQuit(playerX: int, input: Key, left: Key, right: Key)
    requires OnTrack(playerX)
    ensures Quits(input, left, right) ==> MovePlayer(playerX, input, left, right) == playerX
    ensures input == [] ==> MovePlayer(playerX, input, left, right) == playerX && !Quits(input, left, right)
  {
  }

  /** The level after the level prompt: a number from 1 to 5 replaces the
      current level; any other number, or input that is not a number, keeps it. */
  function SelectLevel(current: int, entered: Option<int>): (level: int)
    ensures 1 <= current <= 5 ==> 1 <= level <= 5
    ensures entered.Some? && 1 <= entered.value <= 5 ==> level == entered.value
    ensures level != current ==> entered.Some? && level == entered.value
    ensures !(entered.Some? && 1 <= entered.value <= 5) ==> level == current
  {
    match entered
    case Some(n) => if 1 <= n <= 5 then n else current
    case None => current
  }

  /** The best score after a game that scored `score`. */
  function BestScore(highest: int, score: int): (best: int)
    ensures best >= highest && best >= score
    ensures best == highest || best == score
  {
    if score > highest then score else highest
  }

  /** The best score moves only when the game beat it: 150 against 100
      becomes 150, 50 against 100 stays 100. */
  lemma BestScoreExamples()
    ensures BestScore(100, 150) == 150 && BestScore(100, 50) == 100
    ensures forall h, s :: s <= h ==> BestScore(h, s) == h
  {
  }
}
