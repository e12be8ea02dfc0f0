/**
 * The game-loop fragments of src/main.rs: the gravity step, spawning with the
 * game-over check, the ghost projection, and the high-score list update.
 */
module MainLoop {
  import opened Wrappers
  import opened Collision
  import opened Shapes
  import opened Pieces
  import opened Board

  /** How many entries each high-score list keeps. */
  const NbHighscores: nat := 5

  /**
   * One gravity tick (tickDue stands for the elapsed-time check): the falling
   * piece tries to move one row down, and a lock is requested exactly when that
   * move is rejected. Every due tick restarts the timer.
   */
  method GravityStep(tetris: Tetris, tickDue: bool) returns (lock: bool, timerReset: bool)
    requires tetris.Valid()
    modifies tetris.currentPiece
    ensures tetris.Valid()
    ensures timerReset == tickDue
    ensures lock <==>
      tickDue && tetris.currentPiece != null &&
      !Fits(tetris.gameMap, tetris.currentPiece.states[old(tetris.currentPiece.currentState)],
            old(tetris.currentPiece.x), old(tetris.currentPiece.y) + 1)
    ensures tetris.currentPiece != null ==>
      tetris.currentPiece.CurrentPose() ==
        if tickDue && !lock then old(tetris.currentPiece.CurrentPose()).(y := old(tetris.currentPiece.y) + 1)
        else old(tetris.currentPiece.CurrentPose())
  {
    lock, timerReset := false, tickDue;
    if tickDue {
      var piece := tetris.currentPiece;
      if piece != null {
        var moved := piece.ChangePosition(tetris.gameMap, piece.x, piece.y + 1);
        lock := !moved;
      }
    }
  }

  /**
   * Between pieces, the queued piece becomes the falling one only if it fits
   * where it stands; otherwise the game is over and nothing changes. When it
   * is promoted a new piece is drawn into the queue.
   */
  method Spawn(tetris: Tetris, prev: int, draw1: nat, draw2: nat) returns (gameOver: bool, newPrev: int)
    requires tetris.Valid() && draw1 < 256 && draw2 < 256
    modifies tetris
    ensures tetris.Valid() && tetris.gameMap == old(tetris.gameMap)
    ensures old(tetris.currentPiece) != null ==>
      !gameOver && newPrev == prev &&
      tetris.currentPiece == old(tetris.currentPiece) && tetris.nextPiece == old(tetris.nextPiece)
    ensures old(tetris.currentPiece) == null ==>
      (gameOver <==> !PoseFits(tetris.gameMap, old(tetris.nextPiece).states, old(tetris.nextPiece).CurrentPose()))
    ensures old(tetris.currentPiece) == null && gameOver ==>
      newPrev == prev && tetris.currentPiece == null && tetris.nextPiece == old(tetris.nextPiece)
    ensures old(tetris.currentPiece) == null && !gameOver ==>
      tetris.currentPiece == old(tetris.nextPiece) &&
      PoseFits(tetris.gameMap, tetris.currentPiece.states, tetris.currentPiece.CurrentPose()) &&
      newPrev == SelectDraw(prev, draw1, draw2) && fresh(tetris.nextPiece) &&
      tetris.nextPiece.states == States(KindOfDraw(newPrev)) &&
      tetris.nextPiece.CurrentPose() == Pose(0, SpawnX(KindOfDraw(newPrev)), 0)
  {
    gameOver, newPrev := false, prev;
    if tetris.currentPiece == null {
      var fits := tetris.nextPiece.TestCurrentPosition(tetris.gameMap);
      if !fits {
        gameOver := true;
        return;
      }
      tetris.currentPiece := tetris.nextPiece;
      var piece, pick := CreateNewTetrimino(prev, draw1, draw2);
      tetris.nextPiece := piece;
      newPrev := pick;
    }
  }

  /**
   * The ghost: a clone of the falling piece dropped until the next row down is
   * rejected. The falling piece itself is left as it was.
   */
  method GhostProjection(tetris: Tetris) returns (projection: Tetrimino?)
    requires tetris.Valid()
    ensures projection == null <==> tetris.currentPiece == null
    ensures projection != null ==>
      fresh(projection) && projection.Valid() &&
      projection.states == tetris.currentPiece.states &&
      projection.CurrentPose() == Dropped(tetris.gameMap, tetris.currentPiece.states, tetris.currentPiece.CurrentPose())
    ensures tetris.currentPiece != null ==> unchanged(tetris.currentPiece)
  {
    projection := null;
    var current := tetris.currentPiece;
    if current != null {
      projection := new Tetrimino.Clone(current);
      projection.DropToRest(tetris.gameMap);
    }
  }

  predicate SortedAsc(s: seq<nat>) {
    forall i, j :: 0 <= i < j < |s| ==> s[i] <= s[j]
  }

  /** x inserted before the first entry it does not exceed. */
  function Insert(x: nat, s: seq<nat>): (r: seq<nat>)
    ensures |r| == |s| + 1 && multiset(r) == multiset(s) + multiset{x}
  {
    if s == [] || x <= s[0] then [x] + s
    else
      assert s == [s[0]] + s[1..];
      [s[0]] + Insert(x, s[1..])
  }

  /** Inserting into an ascending list keeps it ascending; the head is x or the old head. */
  lemma {:induction false} InsertSorted(x: nat, s: seq<nat>)
    requires SortedAsc(s)
    ensures SortedAsc(Insert(x, s))
    ensures Insert(x, s)[0] == x || (s != [] && Insert(x, s)[0] == s[0])
    decreases |s|
  {
    if s != [] && x > s[0] {
      var rest := Insert(x, s[1..]);
      InsertSorted(x, s[1..]);
      var r := [s[0]] + rest;
      assert Insert(x, s) == r;
      forall i, j | 0 <= i < j < |r| ensures r[i] <= r[j] {
        assert r[j] == rest[j - 1] && rest[0] <= rest[j - 1];
        if i > 0 {
          assert r[i] == rest[i - 1];
        }
      }
    }
  }

  /** The ascending ordering of a list (the standard library's sort). */
  function SortAscending(s: seq<nat>): (r: seq<nat>)
    ensures SortedAsc(r) && multiset(r) == multiset(s)
  {
    if s == [] then []
    else
      assert s == [s[0]] + s[1..];
      var rest := SortAscending(s[1..]);
      InsertSorted(s[0], rest);
      Insert(s[0], rest)
  }

  /** The index of the first entry below value, if any. */
  function FirstBelow(v: seq<nat>, value: nat): (r: Option<nat>)
    ensures r.Some? ==>
      r.value < |v| && v[r.value] < value && forall j :: 0 <= j < r.value ==> v[j] >= value
    ensures r.None? ==> forall j :: 0 <= j < |v| ==> v[j] >= value
  {
    if v == [] then None
    else if value > v[0] then Some(0)
    else match FirstBelow(v[1..], value)
      case None => None
      case Some(i) => Some(i + 1)
  }

  /**
   * update_vec as written: a short list gets the value appended and is sorted;
   * a full list has its first entry below the value overwritten, or stays as
   * it is when there is none. The flag says whether the list changed.
   */
  function UpdatedScores(v: seq<nat>, value: nat): (r: (seq<nat>, bool))
    ensures |v| < NbHighscores ==>
      r.1 && SortedAsc(r.0) && multiset(r.0) == multiset(v) + multiset{value}
    ensures |v| >= NbHighscores ==> |r.0| == |v|
    ensures |v| >= NbHighscores ==> (r.1 <==> exists i :: 0 <= i < |v| && v[i] < value)
    ensures |v| >= NbHighscores ==> forall j :: 0 <= j < |v| ==>
      r.0[j] == v[j] ||
      (r.1 && r.0[j] == value && v[j] < value && forall k :: 0 <= k < j ==> v[k] >= value)
    ensures |v| >= NbHighscores && r.1 ==>
      exists i :: 0 <= i < |v| && v[i] < value && (forall k :: 0 <= k < i ==> v[k] >= value) && r.0 == v[i := value]
  {
    if |v| < NbHighscores then (SortAscending(v + [value]), true)
    else match FirstBelow(v, value)
      case Some(i) => (v[i := value], true)
      case None => (v, false)
  }

  /** update_vec: pushes and sorts a short list, otherwise scans for the first entry below the value. */
  method UpdateVec(v: seq<nat>, value: nat) returns (r: seq<nat>, updated: bool)
    ensures (r, updated) == UpdatedScores(v, value)
  {
    if |v| < NbHighscores {
      r := SortAscending(v + [value]);
      return r, true;
    }
    r := v;
    var i := 0;
    while i < |r|
      invariant 0 <= i <= |r| && r == v
      invariant forall j :: 0 <= j < i ==> v[j] >= value
    {
      if value > r[i] {
        assert FirstBelow(v, value) == Some(i);
        r := r[i := value];
        return r, true;
      }
      i := i + 1;
    }
    assert FirstBelow(v, value) == None;
    return r, false;
  }

  /**
   * Scores that update_vec drops although a smaller one stays: from the sorted
   * list 1..5, games scoring 10, 6 and 7 leave 10, 7, 3, 4, 5, losing the 6.
   */
  lemma FirstBelowLosesHigherScore()
    ensures UpdatedScores([1, 2, 3, 4, 5], 10) == ([10, 2, 3, 4, 5], true)
    ensures UpdatedScores([10, 2, 3, 4, 5], 6) == ([10, 6, 3, 4, 5], true)
    ensures UpdatedScores([10, 6, 3, 4, 5], 7) == ([10, 7, 3, 4, 5], true)
  {
    assert FirstBelow([1, 2, 3, 4, 5], 10) == Some(0);
    assert [1, 2, 3, 4, 5][0 := 10] == [10, 2, 3, 4, 5];
    assert FirstBelow([10, 2, 3, 4, 5], 6) == Some(1);
    assert [10, 2, 3, 4, 5][1 := 6] == [10, 6, 3, 4, 5];
    assert FirstBelow([10, 6, 3, 4, 5], 7) == Some(1);
    assert [10, 6, 3, 4, 5][1 := 7] == [10, 7, 3, 4, 5];
  }

  /** The index of a smallest entry. */
  function MinIndex(v: seq<nat>): (m: nat)
    requires |v| > 0
    ensures m < |v| && forall j :: 0 <= j < |v| ==> v[m] <= v[j]
  {
    if |v| == 1 then 0
    else
      var m := MinIndex(v[1..]) + 1;
      if v[0] <= v[m] then 0 else m
  }

  /**
   * The update the high-score list evidently intends: a full list replaces its
   * smallest entry when the value is larger, so exactly one value is dropped
   * and it is no larger than anything kept.
   */
  function UpdatedTopScores(v: seq<nat>, value: nat): (r: (seq<nat>, bool))
    ensures |v| < NbHighscores ==>
      r.1 && SortedAsc(r.0) && multiset(r.0) == multiset(v) + multiset{value}
    ensures |v| >= NbHighscores ==> |r.0| == |v|
    ensures |v| >= NbHighscores ==>
      exists d :: multiset(r.0) + multiset{d} == multiset(v) + multiset{value} &&
                  forall j :: 0 <= j < |r.0| ==> d <= r.0[j]
  {
    if |v| < NbHighscores then (SortAscending(v + [value]), true)
    else
      var m := MinIndex(v);
      if value > v[m] then
        ReplacedMinimumIsDropped(v, m, value, v[m := value]);
        (v[m := value], true)
      else
        assert forall j :: 0 <= j < |v| ==> value <= v[j];
        (v, false)
  }

  /** Overwriting a smallest entry with a larger value drops that entry and nothing kept is smaller. */
  lemma ReplacedMinimumIsDropped(v: seq<nat>, m: nat, value: nat, r: seq<nat>)
    requires m < |v| && value > v[m] && r == v[m := value]
    requires forall j :: 0 <= j < |v| ==> v[m] <= v[j]
    ensures multiset(r) + multiset{v[m]} == multiset(v) + multiset{value}
    ensures forall j :: 0 <= j < |r| ==> v[m] <= r[j]
  {
    assert v == v[..m] + [v[m]] + v[m + 1..];
    assert r == v[..m] + [value] + v[m + 1..];
  }

  /** On the list from FirstBelowLosesHigherScore, the intended update keeps the 6 and drops the 3. */
  lemma TopScoresKeepHigherScore()
    ensures UpdatedTopScores([10, 6, 3, 4, 5], 7) == ([10, 6, 7, 4, 5], true)
  {
    assert MinIndex([10, 6, 3, 4, 5]) == 2;
    assert [10, 6, 3, 4, 5][2 := 7] == [10, 6, 7, 4, 5];
  }
}
