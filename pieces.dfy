/**
 * The falling piece of src/tetrimino/mod.rs: its pose, the move, rotation and
 * drop rules stated as functions on poses, the Tetrimino object whose methods
 * update its pose in place, and the next-piece generator.
 */
module Pieces {
  import opened Wrappers
  import opened Collision
  import opened Shapes

  /** Rotation index and anchor of a piece; x is signed, y is a row index. */
  datatype Pose = Pose(state: nat, x: int, y: nat)

  predicate PoseFits(field: Field, states: seq<Grid>, p: Pose)
    requires WellFormed(states) && p.state < |states|
  {
    Fits(field, states[p.state], p.x, p.y)
  }

  /** The horizontal offsets a rotation tries, in order. */
  const KickOffsets: seq<int> := [0, -1, 1, -2, 2, -3]

  /** The rotation state after `current`, wrapping to 0 after the last one. */
  function NextState(current: nat, count: nat): (next: nat)
    requires current < count
    ensures next < count
    ensures next == (current + 1) % count
  {
    if current + 1 >= count then 0 else current + 1
  }

  /** Offset i is the first of the offsets at which the template fits. */
  predicate FirstFit(field: Field, g: Grid, x: int, y: nat, offsets: seq<int>, i: int)
    requires IsTemplate(g)
  {
    0 <= i < |offsets| && Fits(field, g, x + offsets[i], y) &&
    forall j :: 0 <= j < i ==> !Fits(field, g, x + offsets[j], y)
  }

  /** The template fits at none of the offsets. */
  predicate NoneFits(field: Field, g: Grid, x: int, y: nat, offsets: seq<int>)
    requires IsTemplate(g)
  {
    forall j :: 0 <= j < |offsets| ==> !Fits(field, g, x + offsets[j], y)
  }

  /** The index of the first offset at which the template fits, if any. */
  function FirstKick(field: Field, g: Grid, x: int, y: nat, offsets: seq<int>): (r: Option<nat>)
    requires IsTemplate(g)
    ensures r.Some? ==>
      r.value < |offsets| && Fits(field, g, x + offsets[r.value], y) &&
      forall j :: 0 <= j < r.value ==> !Fits(field, g, x + offsets[j], y)
    ensures r.None? ==> forall j :: 0 <= j < |offsets| ==> !Fits(field, g, x + offsets[j], y)
    decreases |offsets|
  {
    if offsets == [] then None
    else if Fits(field, g, x + offsets[0], y) then Some(0)
    else match FirstKick(field, g, x, y, offsets[1..])
      case None => None
      case Some(i) => Some(i + 1)
  }

  /**
   * A rotation against any table of kick offsets: the next state at the first
   * offset that fits, or the pose unchanged when none does.
   */
  function RotatedWith(field: Field, states: seq<Grid>, p: Pose, offsets: seq<int>): (r: Pose)
    requires WellFormed(states) && p.state < |states|
    ensures r.state < |states| && r.y == p.y
    ensures NoneFits(field, states[NextState(p.state, |states|)], p.x, p.y, offsets) ==> r == p
    ensures r == p || (r.state == NextState(p.state, |states|) && PoseFits(field, states, r))
    ensures forall i :: FirstFit(field, states[NextState(p.state, |states|)], p.x, p.y, offsets, i) ==>
      r == Pose(NextState(p.state, |states|), p.x + offsets[i], p.y)
  {
    var next := NextState(p.state, |states|);
    FirstKickFindsFirstFit(field, states[next], p.x, p.y, offsets);
    match FirstKick(field, states[next], p.x, p.y, offsets)
    case Some(i) => Pose(next, p.x + offsets[i], p.y)
    case None => p
  }

  /** The pose after a rotation, with the kick table of the game. */
  function Rotated(field: Field, states: seq<Grid>, p: Pose): (r: Pose)
    requires WellFormed(states) && p.state < |states|
    ensures r.state < |states| && r.y == p.y
    ensures NoneFits(field, states[NextState(p.state, |states|)], p.x, p.y, KickOffsets) ==> r == p
    ensures r == p || (r.state == NextState(p.state, |states|) && PoseFits(field, states, r))
    ensures forall i :: FirstFit(field, states[NextState(p.state, |states|)], p.x, p.y, KickOffsets, i) ==>
      r == Pose(NextState(p.state, |states|), p.x + KickOffsets[i], p.y)
  {
    RotatedWith(field, states, p, KickOffsets)
  }

  /**
   * The pose after moving down one row at a time until the next row down is
   * rejected: every row passed through fits and the one below the result does not.
   */
  function Dropped(field: Field, states: seq<Grid>, p: Pose): (r: Pose)
    requires WellFormed(states) && p.state < |states|
    ensures r.state == p.state && r.x == p.x && r.y >= p.y
    ensures forall k: nat :: p.y < k <= r.y ==> Fits(field, states[p.state], p.x, k)
    ensures !Fits(field, states[p.state], p.x, r.y + 1)
    decreases |field| - p.y
  {
    if Fits(field, states[p.state], p.x, p.y + 1) then
      FitsOnlyWithinRows(field, states[p.state], p.x, p.y + 1);
      Dropped(field, states, p.(y := p.y + 1))
    else p
  }

  /** The first offset at which the template fits is the one FirstKick finds. */
  lemma FirstKickIsFirstFit(field: Field, g: Grid, x: int, y: nat, offsets: seq<int>, i: nat)
    requires IsTemplate(g) && i < |offsets| && Fits(field, g, x + offsets[i], y)
    requires forall j :: 0 <= j < i ==> !Fits(field, g, x + offsets[j], y)
    ensures FirstKick(field, g, x, y, offsets) == Some(i)
  {
  }

  /** Whichever offset is the first to fit, FirstKick finds it. */
  lemma FirstKickFindsFirstFit(field: Field, g: Grid, x: int, y: nat, offsets: seq<int>)
    requires IsTemplate(g)
    ensures forall i :: FirstFit(field, g, x, y, offsets, i) ==> FirstKick(field, g, x, y, offsets) == Some(i)
  {
    forall i | FirstFit(field, g, x, y, offsets, i)
      ensures FirstKick(field, g, x, y, offsets) == Some(i)
    {
      FirstKickIsFirstFit(field, g, x, y, offsets, i);
    }
  }

  /** A drop from a pose that fits ends in a pose that fits. */
  lemma DroppedFits(field: Field, states: seq<Grid>, p: Pose)
    requires WellFormed(states) && p.state < |states| && PoseFits(field, states, p)
    ensures PoseFits(field, states, Dropped(field, states, p))
  {
    var r := Dropped(field, states, p);
    if r.y > p.y {
      assert Fits(field, states[p.state], p.x, r.y);
    }
  }

  /** When the next state fits where the piece stands, rotation keeps the anchor. */
  lemma {:induction false} RotateInPlaceWhenRoom(field: Field, states: seq<Grid>, p: Pose)
    requires WellFormed(states) && p.state < |states|
    requires Fits(field, states[NextState(p.state, |states|)], p.x, p.y)
    ensures Rotated(field, states, p) == Pose(NextState(p.state, |states|), p.x, p.y)
  {
    var next := NextState(p.state, |states|);
    assert p.x + KickOffsets[0] == p.x;
    FirstKickIsFirstFit(field, states[next], p.x, p.y, KickOffsets, 0);
  }

  /** The kind each generator draw 0..6 selects; its tag is the draw plus one. */
  function KindOfDraw(n: nat): (k: Kind)
    requires n < 7
    ensures Tag(k) == n + 1
  {
    match n
    case 0 => I
    case 1 => J
    case 2 => L
    case 3 => O
    case 4 => S
    case 5 => Z
    case _ => T
  }

  /** The generator's remembered pick before the first call: no draw equals it. */
  const InitialPrev: int := 7

  /**
   * The generator's pick from two random bytes: the first byte modulo 7, or,
   * when that equals the previous pick, the second byte modulo 7.
   */
  function SelectDraw(prev: int, draw1: nat, draw2: nat): (pick: nat)
    requires draw1 < 256 && draw2 < 256
    ensures pick < 7
    ensures pick == draw1 % 7 || pick == draw2 % 7
    ensures draw1 % 7 != prev ==> pick == draw1 % 7
    ensures pick == prev ==> draw1 % 7 == prev && draw2 % 7 == prev
  {
    var first := draw1 % 7;
    if first == prev then draw2 % 7 else first
  }

  /** On the first call the second byte is never used. */
  lemma FirstCallUsesFirstDraw(draw1: nat, draw2: nat)
    requires draw1 < 256 && draw2 < 256
    ensures SelectDraw(InitialPrev, draw1, draw2) == draw1 % 7
  {
  }

  class Tetrimino {
    const states: seq<Grid>
    var x: int
    var y: nat
    var currentState: nat

    ghost predicate Valid()
      reads this
    {
      WellFormed(states) && currentState < |states|
    }

    function CurrentPose(): Pose
      reads this
    {
      Pose(currentState, x, y)
    }

    /** A fresh piece of kind k in its spawn pose (the seven `new` constructors). */
    constructor New(k: Kind)
      ensures Valid() && states == States(k)
      ensures CurrentPose() == Pose(0, SpawnX(k), 0)
    {
      StateCounts(k);
      states := States(k);
      x := SpawnX(k);
      y := 0;
      currentState := 0;
    }

    /** A copy of another piece (derive(Clone)): same states and pose, no sharing. */
    constructor Clone(other: Tetrimino)
      requires other.Valid()
      ensures Valid() && states == other.states && CurrentPose() == other.CurrentPose()
    {
      states := other.states;
      x := other.x;
      y := other.y;
      currentState := other.currentState;
    }

    /** The collision test: scans the 4x4 template row by row and stops at the first blocked cell. */
    method TestPosition(field: Field, tmpState: nat, px: int, py: nat) returns (ok: bool)
      requires tmpState < |states| && IsTemplate(states[tmpState])
      ensures ok <==> Fits(field, states[tmpState], px, py)
    {
      var g := states[tmpState];
      for dy := 0 to 4
        invariant forall r, c :: 0 <= r < dy && 0 <= c < 4 ==> !Blocked(field, g, px, py, r, c)
      {
        for dx := 0 to 4
          invariant forall r, c :: 0 <= r < dy && 0 <= c < 4 ==> !Blocked(field, g, px, py, r, c)
          invariant forall c :: 0 <= c < dx ==> !Blocked(field, g, px, py, dy, c)
        {
          var cx := px + dx;
          if g[dy][dx] != 0 &&
             (py + dy >= |field| || cx < 0 || cx >= |field[py + dy]| || field[py + dy][cx] != 0)
          {
            assert Blocked(field, g, px, py, dy, dx);
            return false;
          }
        }
      }
      return true;
    }

    method TestCurrentPosition(field: Field) returns (ok: bool)
      requires Valid()
      ensures ok <==> PoseFits(field, states, CurrentPose())
    {
      ok := TestPosition(field, currentState, x, y);
    }

    /** Moves the anchor to (newX, newY) when the current state fits there; otherwise changes nothing. */
    method ChangePosition(field: Field, newX: int, newY: nat) returns (ok: bool)
      requires Valid()
      modifies this
      ensures Valid()
      ensures ok <==> Fits(field, states[old(currentState)], newX, newY)
      ensures CurrentPose() == if ok then Pose(old(currentState), newX, newY) else old(CurrentPose())
      ensures ok ==> PoseFits(field, states, CurrentPose())
    {
      ok := TestPosition(field, currentState, newX, newY);
      if ok {
        x := newX;
        y := newY;
      }
    }

    /** Tries the offsets in order for state tmpState and reports the first that fits. */
    method FindKick(field: Field, tmpState: nat, px: int, py: nat, offsets: seq<int>) returns (kick: Option<nat>)
      requires tmpState < |states| && IsTemplate(states[tmpState])
      ensures kick == FirstKick(field, states[tmpState], px, py, offsets)
    {
      ghost var first := FirstKick(field, states[tmpState], px, py, offsets);
      var i := 0;
      while i < |offsets|
        invariant 0 <= i <= |offsets|
        invariant first.None? || i <= first.value
      {
        var fits := TestPosition(field, tmpState, px + offsets[i], py);
        if fits {
          return Some(i);
        }
        i := i + 1;
      }
      return None;
    }

    /** Steps to the next rotation state at the first kick offset that fits. */
    method Rotate(field: Field)
      requires Valid()
      modifies this
      ensures Valid()
      ensures CurrentPose() == Rotated(field, states, old(CurrentPose()))
    {
      var tmpState := currentState + 1;
      if tmpState >= |states| {
        tmpState := 0;
      }
      assert tmpState == NextState(currentState, |states|);
      var kick := FindKick(field, tmpState, x, y, KickOffsets);
      if kick.Some? {
        currentState := tmpState;
        x := x + KickOffsets[kick.value];
      }
    }

    /** Moves down one row at a time until the move is rejected (the hard-drop and ghost loops). */
    method DropToRest(field: Field)
      requires Valid()
      modifies this
      ensures Valid()
      ensures CurrentPose() == Dropped(field, states, old(CurrentPose()))
    {
      var px := x;
      var py := y;
      while true
        invariant Valid() && x == px && y == py && currentState == old(currentState)
        invariant Dropped(field, states, old(CurrentPose())) == Dropped(field, states, CurrentPose())
        decreases |field| - py
      {
        var moved := ChangePosition(field, px, py + 1);
        if !moved {
          break;
        }
        FitsOnlyWithinRows(field, states[currentState], px, py + 1);
        py := py + 1;
      }
    }
  }

  /**
   * Draws the next kind (re-drawing once when the first draw repeats the
   * previous pick) and builds its piece; the pick becomes the new previous pick.
   */
  method CreateNewTetrimino(prev: int, draw1: nat, draw2: nat) returns (piece: Tetrimino, pick: nat)
    requires draw1 < 256 && draw2 < 256
    ensures pick == SelectDraw(prev, draw1, draw2)
    ensures fresh(piece) && piece.Valid()
    ensures piece.states == States(KindOfDraw(pick))
    ensures piece.CurrentPose() == Pose(0, SpawnX(KindOfDraw(pick)), 0)
  {
    pick := draw1 % 7;
    if prev == pick {
      pick := draw2 % 7;
    }
    piece := new Tetrimino.New(KindOfDraw(pick));
  }
}
