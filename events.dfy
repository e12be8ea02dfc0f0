/**
 * The input handler of src/event.rs over a batch of already-decoded intents:
 * left, right and down accumulate into one combined move tried after the batch,
 * rotation and hard drop act on the piece at once, and the handler decides
 * whether the piece locks.
 */
module Events {
  import opened Collision
  import opened Pieces
  import opened Board
  import Shapes

  /** A decoded input event; Other stands for every event the handler ignores. */
  datatype Intent = Down | Left | Right | Rotate | HardDrop | Hold | Quit | Other

  /** The game operations the handler calls after the batch: make_permanent and hold_piece. */
  datatype Request = Lock | HoldSwap

  /**
   * The handler's working state: the piece's pose, the accumulated target
   * (tmp_x, tmp_y), the lock and hold flags, whether quit was seen and whether
   * the gravity timer was reset.
   */
  datatype Batch = Batch(pose: Pose, tmpX: int, tmpY: nat, lock: bool, hold: bool, quit: bool, timerReset: bool)

  /** The working state before the first event: the target is the piece's own position. */
  function Start(p: Pose): Batch {
    Batch(p, p.x, p.y, false, false, false, false)
  }

  /** The effect of one event. */
  function Step(field: Field, states: seq<Grid>, b: Batch, e: Intent): (r: Batch)
    requires WellFormed(states) && b.pose.state < |states|
    ensures r.pose.state < |states|
  {
    match e
    case Down => b.(tmpY := b.tmpY + 1, timerReset := true)
    case Right => b.(tmpX := b.tmpX + 1)
    case Left => b.(tmpX := b.tmpX - 1)
    case Rotate => b.(pose := Rotated(field, states, b.pose))
    case Hold => b.(hold := true)
    case HardDrop => b.(pose := Dropped(field, states, b.pose), lock := true)
    case Quit => b.(quit := true)
    case Other => b
  }

  /** The events in order, stopping after the first Quit. */
  function Run(field: Field, states: seq<Grid>, b: Batch, intents: seq<Intent>): (r: Batch)
    requires WellFormed(states) && b.pose.state < |states|
    ensures r.pose.state < |states|
    decreases |intents|
  {
    if intents == [] then b
    else
      var next := Step(field, states, b, intents[0]);
      if intents[0] == Quit then next else Run(field, states, next, intents[1..])
  }

  /**
   * After the batch: unless a hard drop already asked for a lock, try the
   * combined move; a rejected move locks only when it went down.
   */
  function Settle(field: Field, states: seq<Grid>, b: Batch): (r: Batch)
    requires WellFormed(states) && b.pose.state < |states|
    ensures r.pose == b.pose ||
      (!b.lock && r.pose == Pose(b.pose.state, b.tmpX, b.tmpY) && PoseFits(field, states, r.pose))
    ensures b.lock ==> r.lock
    ensures r.lock && !b.lock ==> r.pose == b.pose && b.tmpY != b.pose.y
    ensures !b.lock && Fits(field, states[b.pose.state], b.tmpX, b.tmpY) ==>
      r.pose == Pose(b.pose.state, b.tmpX, b.tmpY) && !r.lock
    ensures r.tmpX == b.tmpX && r.tmpY == b.tmpY && r.hold == b.hold && r.quit == b.quit &&
      r.timerReset == b.timerReset
  {
    if b.lock then b
    else if Fits(field, states[b.pose.state], b.tmpX, b.tmpY) then b.(pose := Pose(b.pose.state, b.tmpX, b.tmpY))
    else b.(lock := b.tmpY != b.pose.y)
  }

  /** What one call of the handler does to a piece in pose p. */
  function Outcome(field: Field, states: seq<Grid>, p: Pose, intents: seq<Intent>): (r: Batch)
    requires WellFormed(states) && p.state < |states|
    ensures r.pose.state < |states|
    ensures Run(field, states, Start(p), intents).lock ==> r.lock
  {
    Settle(field, states, Run(field, states, Start(p), intents))
  }

  /** How many times e occurs in s. */
  function Count(s: seq<Intent>, e: Intent): nat {
    if s == [] then 0 else (if s[0] == e then 1 else 0) + Count(s[1..], e)
  }

  /** An event that does not occur is counted zero times. */
  lemma {:induction false} CountAbsent(s: seq<Intent>, e: Intent)
    requires e !in s
    ensures Count(s, e) == 0
    decreases |s|
  {
    if s != [] {
      assert e !in s[1..];
      CountAbsent(s[1..], e);
    }
  }

  /** The events the handler acts on: those before the first Quit. */
  function Processed(intents: seq<Intent>): (r: seq<Intent>)
    ensures |r| <= |intents| && r == intents[..|r|] && Quit !in r
    ensures |r| < |intents| ==> intents[|r|] == Quit
  {
    if intents == [] || intents[0] == Quit then []
    else [intents[0]] + Processed(intents[1..])
  }

  /** Everything after the first Quit is ignored; the batch ends with quit set iff a Quit occurred. */
  lemma {:induction false} QuitDiscardsRest(field: Field, states: seq<Grid>, b: Batch, intents: seq<Intent>)
    requires WellFormed(states) && b.pose.state < |states| && !b.quit
    ensures Run(field, states, b, intents) ==
            Run(field, states, b, Processed(intents)).(quit := Quit in intents)
    decreases |intents|
  {
    if intents != [] && intents[0] != Quit {
      var next := Step(field, states, b, intents[0]);
      QuitDiscardsRest(field, states, next, intents[1..]);
      var ps := Processed(intents);
      assert ps == [intents[0]] + Processed(intents[1..]);
      assert ps[0] == intents[0] && ps[1..] == Processed(intents[1..]);
      assert (Quit in intents) == (Quit in intents[1..]);
    }
  }

  /**
   * Without Quit or hard drop, the target is the start position moved one row
   * per Down, one column per Right and back one per Left; the piece's row, the
   * lock flag stay as they were.
   */
  lemma {:induction false} RunCounts(field: Field, states: seq<Grid>, b: Batch, intents: seq<Intent>)
    requires WellFormed(states) && b.pose.state < |states|
    requires Quit !in intents && HardDrop !in intents
    ensures var r := Run(field, states, b, intents);
      r.tmpY == b.tmpY + Count(intents, Down) &&
      r.tmpX == b.tmpX + Count(intents, Right) - Count(intents, Left) &&
      r.pose.y == b.pose.y && r.lock == b.lock && r.quit == b.quit &&
      r.hold == (b.hold || Hold in intents) &&
      r.timerReset == (b.timerReset || Down in intents)
    decreases |intents|
  {
    if intents != [] {
      var e := intents[0];
      StepCounts(field, states, b, e);
      RunCounts(field, states, Step(field, states, b, e), intents[1..]);
    }
  }

  /** One event other than Quit and hard drop: its effect on the target and the flags. */
  lemma StepCounts(field: Field, states: seq<Grid>, b: Batch, e: Intent)
    requires WellFormed(states) && b.pose.state < |states|
    requires e != Quit && e != HardDrop
    ensures var r := Step(field, states, b, e);
      r.tmpY == b.tmpY + (if e == Down then 1 else 0) &&
      r.tmpX == b.tmpX + (if e == Right then 1 else 0) - (if e == Left then 1 else 0) &&
      r.pose.y == b.pose.y && r.lock == b.lock && r.quit == b.quit &&
      r.hold == (b.hold || e == Hold) && r.timerReset == (b.timerReset || e == Down)
  {
  }

  /** Once a lock is requested, later events never withdraw it. */
  lemma {:induction false} LockIsSticky(field: Field, states: seq<Grid>, b: Batch, intents: seq<Intent>)
    requires WellFormed(states) && b.pose.state < |states| && b.lock
    ensures Run(field, states, b, intents).lock
    decreases |intents|
  {
    if intents != [] && intents[0] != Quit {
      LockIsSticky(field, states, Step(field, states, b, intents[0]), intents[1..]);
    }
  }

  /** A processed hard drop always ends in a lock request. */
  lemma {:induction false} HardDropLocks(field: Field, states: seq<Grid>, b: Batch, intents: seq<Intent>)
    requires WellFormed(states) && b.pose.state < |states|
    requires HardDrop in Processed(intents)
    ensures Run(field, states, b, intents).lock
    decreases |intents|
  {
    if intents[0] == HardDrop {
      LockIsSticky(field, states, Step(field, states, b, HardDrop), intents[1..]);
    } else {
      HardDropLocks(field, states, Step(field, states, b, intents[0]), intents[1..]);
    }
  }

  /**
   * The lock decision: a lock is requested exactly when a hard drop was
   * processed, or the combined move, which went down at least one row, was
   * rejected. The combined move aims at the position captured before the batch
   * plus the accumulated steps, in whatever state rotations left the piece.
   */
  lemma {:induction false} LockDecision(field: Field, states: seq<Grid>, p: Pose, intents: seq<Intent>)
    requires WellFormed(states) && p.state < |states|
    ensures var ps := Processed(intents);
      var r := Run(field, states, Start(p), ps);
      Outcome(field, states, p, intents).lock <==>
        HardDrop in ps ||
        (Count(ps, Down) > 0 &&
         !Fits(field, states[r.pose.state], p.x + Count(ps, Right) - Count(ps, Left), p.y + Count(ps, Down)))
  {
    if HardDrop in Processed(intents) {
      HardDropLocks(field, states, Start(p), intents);
    } else {
      NoHardDropLock(field, states, p, intents);
    }
  }

  /** One handler call is the fold over the events followed by the combined move. */
  lemma OutcomeSettlesRun(field: Field, states: seq<Grid>, p: Pose, intents: seq<Intent>)
    requires WellFormed(states) && p.state < |states|
    ensures Outcome(field, states, p, intents) == Settle(field, states, Run(field, states, Start(p), intents))
  {
  }

  /** Without a processed hard drop, the lock comes from the combined move alone. */
  lemma NoHardDropLock(field: Field, states: seq<Grid>, p: Pose, intents: seq<Intent>)
    requires WellFormed(states) && p.state < |states|
    requires HardDrop !in Processed(intents)
    ensures var ps := Processed(intents);
      var r := Run(field, states, Start(p), ps);
      Outcome(field, states, p, intents).lock <==>
        Count(ps, Down) > 0 &&
        !Fits(field, states[r.pose.state], p.x + Count(ps, Right) - Count(ps, Left), p.y + Count(ps, Down))
  {
    var ps := Processed(intents);
    var full := Run(field, states, Start(p), intents);
    var r := Run(field, states, Start(p), ps);
    ProcessedPrefixDecides(field, states, Start(p), intents);
    RunCounts(field, states, Start(p), ps);
    OutcomeSettlesRun(field, states, p, intents);
    assert full.pose.y == p.y;
    SettleLocksAt(field, states, full, r.pose.state,
                  p.x + Count(ps, Right) - Count(ps, Left), p.y + Count(ps, Down), Count(ps, Down));
  }

  /** The batch's pose, target and lock flag are those of the events before the first Quit. */
  lemma ProcessedPrefixDecides(field: Field, states: seq<Grid>, b: Batch, intents: seq<Intent>)
    requires WellFormed(states) && b.pose.state < |states| && !b.quit
    ensures var full := Run(field, states, b, intents);
      var r := Run(field, states, b, Processed(intents));
      full.pose == r.pose && full.tmpX == r.tmpX && full.tmpY == r.tmpY && full.lock == r.lock
  {
    QuitDiscardsRest(field, states, b, intents);
  }

  /**
   * After a batch without a lock, aiming at column x, row y = dy rows below
   * the piece, in state st: a lock is due iff the target lies on another row
   * (dy > 0) and does not fit.
   */
  lemma SettleLocksAt(field: Field, states: seq<Grid>, b: Batch, st: nat, x: int, y: nat, dy: nat)
    requires WellFormed(states) && b.pose.state < |states|
    requires !b.lock && b.pose.state == st && b.tmpX == x && b.tmpY == y && y == b.pose.y + dy
    ensures Settle(field, states, b).lock <==> dy > 0 && !Fits(field, states[st], x, y)
  {
  }

  /**
   * Without a processed hard drop, the piece ends at the combined target (the
   * pre-batch position plus one column per Right, minus one per Left, plus one
   * row per Down) when that fits in the state the rotations left, and otherwise
   * where the rotations left it.
   */
  lemma NoHardDropPose(field: Field, states: seq<Grid>, p: Pose, intents: seq<Intent>)
    requires WellFormed(states) && p.state < |states|
    requires HardDrop !in Processed(intents)
    ensures var ps := Processed(intents);
      var r := Run(field, states, Start(p), ps);
      var tx, ty := p.x + Count(ps, Right) - Count(ps, Left), p.y + Count(ps, Down);
      Outcome(field, states, p, intents).pose ==
        if Fits(field, states[r.pose.state], tx, ty) then Pose(r.pose.state, tx, ty) else r.pose
  {
    var ps := Processed(intents);
    var full := Run(field, states, Start(p), intents);
    var r := Run(field, states, Start(p), ps);
    ProcessedPrefixDecides(field, states, Start(p), intents);
    RunCounts(field, states, Start(p), ps);
    assert Outcome(field, states, p, intents) == Settle(field, states, full);
    SettleMovesTo(field, states, full, r.pose.state,
                  p.x + Count(ps, Right) - Count(ps, Left), p.y + Count(ps, Down));
  }

  /**
   * After a batch without a lock, aiming at column x, row y in state st: the
   * piece moves to the target iff it fits there, and otherwise stays.
   */
  lemma SettleMovesTo(field: Field, states: seq<Grid>, b: Batch, st: nat, x: int, y: nat)
    requires WellFormed(states) && b.pose.state < |states|
    requires !b.lock && b.pose.state == st && b.tmpX == x && b.tmpY == y
    ensures Settle(field, states, b).pose == if Fits(field, states[st], x, y) then Pose(st, x, y) else b.pose
  {
  }

  /** A batch with neither Down nor hard drop never locks, whether its move is accepted or not. */
  lemma {:induction false} SidewaysNeverLocks(field: Field, states: seq<Grid>, p: Pose, intents: seq<Intent>)
    requires WellFormed(states) && p.state < |states|
    requires Down !in intents && HardDrop !in intents
    ensures !Outcome(field, states, p, intents).lock
  {
    LockDecision(field, states, p, intents);
    var ps := Processed(intents);
    assert Down !in ps && HardDrop !in ps by {
      assert ps == intents[..|ps|];
    }
    CountAbsent(ps, Down);
  }

  /**
   * A lone rotation keeps whatever kick it chose: the combined move back to
   * the captured column either lands where the piece already is (no kick) or
   * is rejected without locking (a kick was needed).
   */
  lemma {:induction false} SingleRotateKeepsKick(field: Field, states: seq<Grid>, p: Pose)
    requires WellFormed(states) && p.state < |states|
    ensures Outcome(field, states, p, [Rotate]).pose == Rotated(field, states, p)
    ensures !Outcome(field, states, p, [Rotate]).lock
  {
    var r := Rotated(field, states, p);
    var next := NextState(p.state, |states|);
    assert Run(field, states, Start(p), [Rotate]) == Start(p).(pose := r);
    if Fits(field, states[next], p.x, p.y) {
      RotateInPlaceWhenRoom(field, states, p);
    }
  }

  /** Running two batches back to back is running their concatenation, when the first has no Quit. */
  lemma {:induction false} RunAppend(field: Field, states: seq<Grid>, b: Batch, first: seq<Intent>, second: seq<Intent>)
    requires WellFormed(states) && b.pose.state < |states| && Quit !in first
    ensures Run(field, states, b, first + second) ==
            Run(field, states, Run(field, states, b, first), second)
    decreases |first|
  {
    if first != [] {
      assert first[0] in first;
      var next := Step(field, states, b, first[0]);
      assert (first + second)[0] == first[0] && (first + second)[1..] == first[1..] + second;
      assert Run(field, states, b, first + second) == Run(field, states, next, first[1..] + second);
      RunAppend(field, states, next, first[1..], second);
    } else {
      assert first + second == second;
    }
  }

  /**
   * A batch ending in a hard drop locks the piece where the drop left it: a
   * pose whose next row down does not fit, in the column and state the earlier
   * events produced.
   */
  lemma {:induction false} HardDropEndsAtRest(field: Field, states: seq<Grid>, p: Pose, before: seq<Intent>)
    requires WellFormed(states) && p.state < |states| && Quit !in before
    ensures var o := Outcome(field, states, p, before + [HardDrop]);
      var q := Run(field, states, Start(p), before).pose;
      o.lock && o.pose == Dropped(field, states, q) &&
      !Fits(field, states[q.state], q.x, o.pose.y + 1)
  {
    RunAppend(field, states, Start(p), before, [HardDrop]);
  }

  /**
   * A Rotate after a hard drop still turns the dropped piece, and the lock that
   * follows keeps it wherever the rotation left it.
   */
  lemma {:induction false} RotateAfterHardDrop(field: Field, states: seq<Grid>, p: Pose)
    requires WellFormed(states) && p.state < |states|
    ensures var o := Outcome(field, states, p, [HardDrop, Rotate]);
      o.lock && o.pose == Rotated(field, states, Dropped(field, states, p))
  {
    assert [HardDrop, Rotate][1..] == [Rotate];
    assert [Rotate][1..] == [];
  }

  /**
   * On an empty 4x4 field an upright I piece is already at rest; a hard drop
   * followed by a Rotate locks it lying flat in the top row, with three free
   * rows under it.
   */
  lemma HardDropThenRotateLocksAboveFloor()
    ensures var field := [[0, 0, 0, 0], [0, 0, 0, 0], [0, 0, 0, 0], [0, 0, 0, 0]];
      var states := Shapes.States(Shapes.I);
      WellFormed(states) &&
      var o := Outcome(field, states, Pose(1, 0, 0), [HardDrop, Rotate]);
      o.lock && o.pose == Pose(0, 0, 0) && Fits(field, states[0], 0, 1)
  {
    var field := [[0, 0, 0, 0], [0, 0, 0, 0], [0, 0, 0, 0], [0, 0, 0, 0]];
    var states := Shapes.States(Shapes.I);
    Shapes.StateCounts(Shapes.I);
    var p := Pose(1, 0, 0);
    assert Blocked(field, states[1], 0, 1, 3, 1);
    assert !Fits(field, states[1], 0, 1);
    assert Dropped(field, states, p) == p;
    TopRowFits(field, states[0], 0, 0);
    TopRowFits(field, states[0], 0, 1);
    RotateInPlaceWhenRoom(field, states, p);
    RotateAfterHardDrop(field, states, p);
  }

  /**
   * The corrected step: once a lock is due the piece stays put, so a later
   * Rotate or hard drop no longer moves it.
   */
  function GuardedStep(field: Field, states: seq<Grid>, b: Batch, e: Intent): (r: Batch)
    requires WellFormed(states) && b.pose.state < |states|
    ensures r.pose.state < |states|
    ensures b.lock ==> r.lock && r.pose == b.pose
    ensures !b.lock ==> r == Step(field, states, b, e)
  {
    if b.lock && (e == Rotate || e == HardDrop) then b else Step(field, states, b, e)
  }

  /** The corrected fold: GuardedStep over the events, stopping after the first Quit. */
  function RunGuarded(field: Field, states: seq<Grid>, b: Batch, intents: seq<Intent>): (r: Batch)
    requires WellFormed(states) && b.pose.state < |states|
    ensures r.pose.state < |states|
    ensures b.lock ==> r.lock && r.pose == b.pose
    decreases |intents|
  {
    if intents == [] then b
    else
      var next := GuardedStep(field, states, b, intents[0]);
      if intents[0] == Quit then next else RunGuarded(field, states, next, intents[1..])
  }

  /** The corrected handler call. */
  function OutcomeGuarded(field: Field, states: seq<Grid>, p: Pose, intents: seq<Intent>): (r: Batch)
    requires WellFormed(states) && p.state < |states|
    ensures r.pose.state < |states|
  {
    Settle(field, states, RunGuarded(field, states, Start(p), intents))
  }

  /** Without a hard drop no lock arises during the fold, so the guard changes nothing. */
  lemma {:induction false} RunGuardedAgrees(field: Field, states: seq<Grid>, b: Batch, intents: seq<Intent>)
    requires WellFormed(states) && b.pose.state < |states| && !b.lock
    requires HardDrop !in intents
    ensures RunGuarded(field, states, b, intents) == Run(field, states, b, intents)
    decreases |intents|
  {
    if intents != [] && intents[0] != Quit {
      StepCounts(field, states, b, intents[0]);
      assert HardDrop !in intents[1..];
      RunGuardedAgrees(field, states, Step(field, states, b, intents[0]), intents[1..]);
    }
  }

  /** The piece rests: its next row down does not fit. */
  predicate Resting(field: Field, states: seq<Grid>, q: Pose)
    requires WellFormed(states) && q.state < |states|
  {
    !Fits(field, states[q.state], q.x, q.y + 1)
  }

  /** A processed hard drop is either the first event or processed in the rest; the first is not Quit. */
  lemma ProcessedHead(intents: seq<Intent>)
    requires HardDrop in Processed(intents)
    ensures intents != [] && intents[0] != Quit
    ensures intents[0] == HardDrop || HardDrop in Processed(intents[1..])
  {
  }

  /** The guarded fold with one event taken off the front. */
  lemma RunGuardedUnfold(field: Field, states: seq<Grid>, b: Batch, e: Intent, rest: seq<Intent>)
    requires WellFormed(states) && b.pose.state < |states| && e != Quit
    ensures RunGuarded(field, states, b, [e] + rest) == RunGuarded(field, states, GuardedStep(field, states, b, e), rest)
  {
    assert ([e] + rest)[0] == e && ([e] + rest)[1..] == rest;
  }

  /** A hard drop from an unlocked batch locks the piece where it rests. */
  lemma GuardedDropRests(field: Field, states: seq<Grid>, b: Batch)
    requires WellFormed(states) && b.pose.state < |states| && !b.lock
    ensures var r := GuardedStep(field, states, b, HardDrop);
      r.lock && Resting(field, states, r.pose)
  {
  }

  /** Events other than hard drop and Quit never lock. */
  lemma GuardedStepUnlocked(field: Field, states: seq<Grid>, b: Batch, e: Intent)
    requires WellFormed(states) && b.pose.state < |states| && !b.lock
    requires e != HardDrop && e != Quit
    ensures !GuardedStep(field, states, b, e).lock
  {
  }

  /**
   * With the guard, a processed hard drop always locks the piece at rest:
   * where it locks, the next row down does not fit.
   */
  lemma {:induction false} GuardedHardDropLocksAtRest(field: Field, states: seq<Grid>, b: Batch, intents: seq<Intent>)
    requires WellFormed(states) && b.pose.state < |states| && !b.lock
    requires HardDrop in Processed(intents)
    ensures var r := RunGuarded(field, states, b, intents);
      r.lock && Resting(field, states, r.pose)
    decreases |intents|
  {
    ProcessedHead(intents);
    var e, rest := intents[0], intents[1..];
    assert intents == [e] + rest;
    RunGuardedUnfold(field, states, b, e, rest);
    if e == HardDrop {
      GuardedDropRests(field, states, b);
    } else {
      GuardedStepUnlocked(field, states, b, e);
      GuardedHardDropLocksAtRest(field, states, GuardedStep(field, states, b, e), rest);
    }
  }

  /** The corrected handler call locks every hard-dropped piece where it rests. */
  lemma HardDropLocksAtRest(field: Field, states: seq<Grid>, p: Pose, intents: seq<Intent>)
    requires WellFormed(states) && p.state < |states|
    requires HardDrop in Processed(intents)
    ensures var o := OutcomeGuarded(field, states, p, intents);
      o.lock && Resting(field, states, o.pose)
  {
    GuardedHardDropLocksAtRest(field, states, Start(p), intents);
  }

  /** One event taken off the front of a batch. */
  lemma RunUnfold(field: Field, states: seq<Grid>, b: Batch, e: Intent, rest: seq<Intent>)
    requires WellFormed(states) && b.pose.state < |states|
    ensures Run(field, states, b, [e] + rest) ==
      if e == Quit then Step(field, states, b, e) else Run(field, states, Step(field, states, b, e), rest)
  {
    assert ([e] + rest)[0] == e && ([e] + rest)[1..] == rest;
  }

  /**
   * The event loop of handle_events: walks the batch, stopping at Quit, moving
   * the target, rotating and hard-dropping the piece as the events say.
   */
  method ApplyIntents(piece: Tetrimino, field: Field, intents: seq<Intent>)
    returns (tmpX: int, tmpY: nat, locked: bool, hold: bool, quit: bool, timerReset: bool)
    requires piece.Valid()
    modifies piece
    ensures piece.Valid()
    ensures Run(field, piece.states, Start(old(piece.CurrentPose())), intents) ==
      Batch(piece.CurrentPose(), tmpX, tmpY, locked, hold, quit, timerReset)
  {
    tmpX, tmpY := piece.x, piece.y;
    locked, hold, quit, timerReset := false, false, false, false;
    ghost var b0 := Start(piece.CurrentPose());
    var i := 0;
    while i < |intents| && !quit
      invariant 0 <= i <= |intents|
      invariant piece.Valid()
      invariant quit ==> i < |intents| && intents[i] == Quit
      invariant Run(field, piece.states, b0, intents) ==
        if quit then Batch(piece.CurrentPose(), tmpX, tmpY, locked, hold, true, timerReset)
        else Run(field, piece.states, Batch(piece.CurrentPose(), tmpX, tmpY, locked, hold, false, timerReset), intents[i..])
      decreases |intents| - i, !quit
    {
      ghost var b := Batch(piece.CurrentPose(), tmpX, tmpY, locked, hold, false, timerReset);
      assert intents[i..] == [intents[i]] + intents[i + 1..];
      RunUnfold(field, piece.states, b, intents[i], intents[i + 1..]);
      tmpX, tmpY, locked, hold, quit, timerReset := ApplyIntent(piece, field, intents[i], tmpX, tmpY, locked, hold, timerReset);
      if !quit {
        i := i + 1;
      }
    }
  }

  /** One arm of the event match: the effect of a single event on the piece and the working state. */
  method ApplyIntent(piece: Tetrimino, field: Field, e: Intent, tmpX: int, tmpY: nat, locked: bool, hold: bool, timerReset: bool)
    returns (tmpX': int, tmpY': nat, locked': bool, hold': bool, quit': bool, timerReset': bool)
    requires piece.Valid()
    modifies piece
    ensures piece.Valid()
    ensures Step(field, piece.states, Batch(old(piece.CurrentPose()), tmpX, tmpY, locked, hold, false, timerReset), e) ==
      Batch(piece.CurrentPose(), tmpX', tmpY', locked', hold', quit', timerReset')
    ensures quit' <==> e == Quit
  {
    tmpX', tmpY', locked', hold', quit', timerReset' := tmpX, tmpY, locked, hold, false, timerReset;
    match e {
      case Quit =>
        quit' := true;
      case Down =>
        timerReset' := true;
        tmpY' := tmpY + 1;
      case Right =>
        tmpX' := tmpX + 1;
      case Left =>
        tmpX' := tmpX - 1;
      case Rotate =>
        piece.Rotate(field);
      case Hold =>
        hold' := true;
      case HardDrop =>
        piece.DropToRest(field);
        locked' := true;
      case Other =>
    }
  }

  /**
   * handle_events: with a falling piece, walks the batch (stopping at Quit),
   * then tries the combined move unless a lock is already due, and returns the
   * game calls to make, the lock before the hold. Without a falling piece no
   * event is read.
   */
  method HandleEvents(tetris: Tetris, intents: seq<Intent>)
    returns (locked: bool, quit: bool, timerReset: bool, requests: seq<Request>)
    requires tetris.Valid()
    modifies tetris.currentPiece
    ensures tetris.Valid()
    ensures old(tetris.currentPiece) == null ==> !locked && !quit && !timerReset && requests == []
    ensures tetris.currentPiece != null ==>
      var o := Outcome(tetris.gameMap, tetris.currentPiece.states, old(tetris.currentPiece.CurrentPose()), intents);
      tetris.currentPiece.CurrentPose() == o.pose &&
      locked == o.lock && quit == o.quit && timerReset == (o.timerReset || o.lock) &&
      requests == (if o.lock then [Lock] else []) + (if o.hold then [HoldSwap] else [])
  {
    locked, quit, timerReset, requests := false, false, false, [];
    var piece := tetris.currentPiece;
    if piece == null {
      return;
    }
    var field := tetris.gameMap;
    var tmpX, tmpY, hold;
    tmpX, tmpY, locked, hold, quit, timerReset := ApplyIntents(piece, field, intents);
    if !locked {
      var moved := piece.ChangePosition(field, tmpX, tmpY);
      if !moved && tmpY != piece.y {
        locked := true;
      }
    }
    if locked {
      requests := [Lock];
      timerReset := true;
    }
    if hold {
      requests := requests + [HoldSwap];
    }
  }
}
