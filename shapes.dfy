/**
 * The shape catalog of src/tetrimino/shape_impl_data.rs: the rotation states
 * and spawn anchor of each of the seven kinds.
 */
module Shapes {
  import opened Collision

  datatype Kind = I | J | L | O | S | Z | T

  /** The cell value a kind writes into its templates (and into the field). */
  function Tag(k: Kind): int {
    match k
    case I => 1
    case J => 2
    case L => 3
    case O => 4
    case S => 5
    case Z => 6
    case T => 7
  }

  /** The rotation states of each kind, in the order the constructors list them. */
  function States(k: Kind): (states: seq<Grid>)
    ensures 1 <= |states| <= 4
  {
    match k
    case I => [
      [[1, 1, 1, 1],
       [0, 0, 0, 0],
       [0, 0, 0, 0],
       [0, 0, 0, 0]],
      [[0, 1, 0, 0],
       [0, 1, 0, 0],
       [0, 1, 0, 0],
       [0, 1, 0, 0]]]
    case J => [
      [[2, 2, 2, 0],
       [2, 0, 0, 0],
       [0, 0, 0, 0],
       [0, 0, 0, 0]],
      [[2, 2, 0, 0],
       [0, 2, 0, 0],
       [0, 2, 0, 0],
       [0, 0, 0, 0]],
      [[0, 0, 2, 0],
       [2, 2, 2, 0],
       [0, 0, 0, 0],
       [0, 0, 0, 0]],
      [[2, 0, 0, 0],
       [2, 0, 0, 0],
       [2, 2, 0, 0],
       [0, 0, 0, 0]]]
    case L => [
      [[3, 3, 3, 0],
       [0, 0, 3, 0],
       [0, 0, 0, 0],
       [0, 0, 0, 0]],
      [[0, 3, 0, 0],
       [0, 3, 0, 0],
       [3, 3, 0, 0],
       [0, 0, 0, 0]],
      [[3, 0, 0, 0],
       [3, 3, 3, 0],
       [0, 0, 0, 0],
       [0, 0, 0, 0]],
      [[3, 3, 0, 0],
       [3, 0, 0, 0],
       [3, 0, 0, 0],
       [0, 0, 0, 0]]]
    case O => [
      [[4, 4, 0, 0],
       [4, 4, 0, 0],
       [0, 0, 0, 0],
       [0, 0, 0, 0]]]
    case S => [
      [[0, 5, 5, 0],
       [5, 5, 0, 0],
       [0, 0, 0, 0],
       [0, 0, 0, 0]],
      [[0, 5, 0, 0],
       [0, 5, 5, 0],
       [0, 0, 5, 0],
       [0, 0, 0, 0]]]
    case Z => [
      [[6, 6, 0, 0],
       [0, 6, 6, 0],
       [0, 0, 0, 0],
       [0, 0, 0, 0]],
      [[0, 0, 6, 0],
       [0, 6, 6, 0],
       [0, 6, 0, 0],
       [0, 0, 0, 0]]]
    case T => [
      [[7, 7, 7, 0],
       [0, 7, 0, 0],
       [0, 0, 0, 0],
       [0, 0, 0, 0]],
      [[0, 7, 0, 0],
       [7, 7, 0, 0],
       [0, 7, 0, 0],
       [0, 0, 0, 0]],
      [[0, 7, 0, 0],
       [7, 7, 7, 0],
       [0, 0, 0, 0],
       [0, 0, 0, 0]],
      [[0, 7, 0, 0],
       [0, 7, 7, 0],
       [0, 7, 0, 0],
       [0, 0, 0, 0]]]
  }

  /** The spawn column of each kind; every kind spawns in row 0 with state 0. */
  function SpawnX(k: Kind): (x: int)
    ensures 4 <= x <= 5
    ensures x == 5 <==> k == O
  {
    match k
    case I => 4
    case J => 4
    case L => 4
    case O => 5
    case S => 4
    case Z => 4
    case T => 4
  }

  /** Occupied cells in one four-cell row of a template. */
  function RowCount(row: seq<int>): (n: nat)
    requires |row| == 4
    ensures n <= 4
    ensures n == 0 <==> forall c :: 0 <= c < 4 ==> row[c] == 0
  {
    (if row[0] != 0 then 1 else 0) + (if row[1] != 0 then 1 else 0) +
    (if row[2] != 0 then 1 else 0) + (if row[3] != 0 then 1 else 0)
  }

  /** Occupied cells in a 4x4 template. */
  function CellCount(g: Grid): (n: nat)
    requires IsTemplate(g)
    ensures n <= 16
  {
    RowCount(g[0]) + RowCount(g[1]) + RowCount(g[2]) + RowCount(g[3])
  }

  /** A template whose count is positive has an occupied cell. */
  lemma {:induction false} CountedCellExists(g: Grid)
    requires IsTemplate(g) && CellCount(g) > 0
    ensures HasOccupied(g)
  {
    var r :| 0 <= r < 4 && RowCount(g[r]) > 0;
    var c :| 0 <= c < 4 && g[r][c] != 0;
  }

  /** Every cell of a four-cell row is empty or carries tag. */
  predicate RowTagged(row: seq<int>, tag: int)
    requires |row| == 4
  {
    (row[0] == 0 || row[0] == tag) && (row[1] == 0 || row[1] == tag) &&
    (row[2] == 0 || row[2] == tag) && (row[3] == 0 || row[3] == tag)
  }

  /** The facts every rotation state of the catalog satisfies, row by row. */
  predicate GoodState(g: Grid, tag: int) {
    |g| == 4 &&
    |g[0]| == 4 && |g[1]| == 4 && |g[2]| == 4 && |g[3]| == 4 &&
    RowTagged(g[0], tag) && RowTagged(g[1], tag) && RowTagged(g[2], tag) && RowTagged(g[3], tag) &&
    RowCount(g[0]) + RowCount(g[1]) + RowCount(g[2]) + RowCount(g[3]) == 4
  }

  /** A good state is a 4x4 template with four cells, each empty or tagged. */
  lemma GoodStateCells(g: Grid, tag: int)
    requires GoodState(g, tag)
    ensures IsTemplate(g) && CellCount(g) == 4
    ensures forall r, c :: 0 <= r < 4 && 0 <= c < 4 ==> g[r][c] == 0 || g[r][c] == tag
  {
    forall r, c | 0 <= r < 4 && 0 <= c < 4 ensures g[r][c] == 0 || g[r][c] == tag {
      assert RowTagged(g[r], tag);
    }
  }

  /** One state of one kind is a 4x4 template with four cells, all carrying the kind's tag. */
  lemma {:induction false} StateIsGood(k: Kind, i: nat)
    requires i < |States(k)|
    ensures GoodState(States(k)[i], Tag(k))
  {
    match k
    case I => GoodI(i);
    case J => GoodJ(i);
    case L => GoodL(i);
    case O => GoodO(i);
    case S => GoodS(i);
    case Z => GoodZ(i);
    case T => GoodT(i);
  }

  lemma {:induction false} GoodI(i: nat)
    requires i < |States(I)|
    ensures GoodState(States(I)[i], Tag(I))
  {
    if i == 0 {
      assert GoodState(States(I)[0], Tag(I));
    } else {
      assert GoodState(States(I)[1], Tag(I));
    }
  }

  lemma {:induction false} GoodJ(i: nat)
    requires i < |States(J)|
    ensures GoodState(States(J)[i], Tag(J))
  {
    if i == 0 {
      assert GoodState(States(J)[0], Tag(J));
    } else if i == 1 {
      assert GoodState(States(J)[1], Tag(J));
    } else if i == 2 {
      assert GoodState(States(J)[2], Tag(J));
    } else {
      assert GoodState(States(J)[3], Tag(J));
    }
  }

  lemma {:induction false} GoodL(i: nat)
    requires i < |States(L)|
    ensures GoodState(States(L)[i], Tag(L))
  {
    if i == 0 {
      assert GoodState(States(L)[0], Tag(L));
    } else if i == 1 {
      assert GoodState(States(L)[1], Tag(L));
    } else if i == 2 {
      assert GoodState(States(L)[2], Tag(L));
    } else {
      assert GoodState(States(L)[3], Tag(L));
    }
  }

  lemma {:induction false} GoodO(i: nat)
    requires i < |States(O)|
    ensures GoodState(States(O)[i], Tag(O))
  {
    assert GoodState(States(O)[0], Tag(O));
  }

  lemma {:induction false} GoodS(i: nat)
    requires i < |States(S)|
    ensures GoodState(States(S)[i], Tag(S))
  {
    if i == 0 {
      assert GoodState(States(S)[0], Tag(S));
    } else {
      assert GoodState(States(S)[1], Tag(S));
    }
  }

  lemma {:induction false} GoodZ(i: nat)
    requires i < |States(Z)|
    ensures GoodState(States(Z)[i], Tag(Z))
  {
    if i == 0 {
      assert GoodState(States(Z)[0], Tag(Z));
    } else {
      assert GoodState(States(Z)[1], Tag(Z));
    }
  }

  lemma {:induction false} GoodT(i: nat)
    requires i < |States(T)|
    ensures GoodState(States(T)[i], Tag(T))
  {
    if i == 0 {
      assert GoodState(States(T)[0], Tag(T));
    } else if i == 1 {
      assert GoodState(States(T)[1], Tag(T));
    } else if i == 2 {
      assert GoodState(States(T)[2], Tag(T));
    } else {
      assert GoodState(States(T)[3], Tag(T));
    }
  }

  /** Every kind has the classic number of rotation states, and each is a 4x4 template with an occupied cell. */
  lemma StateCounts(k: Kind)
    ensures WellFormed(States(k))
    ensures |States(k)| == match k
      case I => 2 case J => 4 case L => 4 case O => 1
      case S => 2 case Z => 2 case T => 4
  {
    forall i | 0 <= i < |States(k)| ensures IsTemplate(States(k)[i]) && HasOccupied(States(k)[i]) {
      StateIsGood(k, i);
      GoodStateCells(States(k)[i], Tag(k));
      CountedCellExists(States(k)[i]);
    }
  }

  /** Every occupied cell of every state of a kind carries that kind's tag. */
  lemma CellsCarryTag(k: Kind)
    ensures forall i, r, c :: 0 <= i < |States(k)| && 0 <= r < 4 && 0 <= c < 4 ==>
      |States(k)[i]| == 4 && |States(k)[i][r]| == 4 &&
      (States(k)[i][r][c] == 0 || States(k)[i][r][c] == Tag(k))
  {
    forall i | 0 <= i < |States(k)|
      ensures forall r, c :: 0 <= r < 4 && 0 <= c < 4 ==>
        |States(k)[i]| == 4 && |States(k)[i][r]| == 4 &&
        (States(k)[i][r][c] == 0 || States(k)[i][r][c] == Tag(k))
    {
      StateIsGood(k, i);
      GoodStateCells(States(k)[i], Tag(k));
    }
  }

  /** Every state of every kind occupies exactly four cells. */
  lemma FourCellsEach(k: Kind)
    ensures forall i :: 0 <= i < |States(k)| ==> IsTemplate(States(k)[i]) && CellCount(States(k)[i]) == 4
  {
    forall i | 0 <= i < |States(k)| ensures IsTemplate(States(k)[i]) && CellCount(States(k)[i]) == 4 {
      StateIsGood(k, i);
      GoodStateCells(States(k)[i], Tag(k));
    }
  }

  /** In its spawn pose a piece occupies only rows 0..1 and columns up to 7. */
  lemma SpawnExtent(k: Kind)
    ensures forall dy, dx :: 0 <= dy < 4 && 0 <= dx < 4 && States(k)[0][dy][dx] != 0 ==>
      dy <= 1 && 0 <= SpawnX(k) + dx <= 7
  {
  }

  /** The spawn pose fits on any all-empty field of at least 2 rows and 8 columns. */
  lemma {:induction false} SpawnFitsEmptyField(k: Kind, field: Field)
    requires |field| >= 2
    requires forall r :: 0 <= r < |field| ==> |field[r]| >= 8
    requires forall r, c :: 0 <= r < |field| && 0 <= c < |field[r]| ==> field[r][c] == 0
    ensures IsTemplate(States(k)[0]) && Fits(field, States(k)[0], SpawnX(k), 0)
  {
    StateCounts(k);
    SpawnExtent(k);
    var g := States(k)[0];
    forall dy, dx | 0 <= dy < 4 && 0 <= dx < 4 ensures !Blocked(field, g, SpawnX(k), 0, dy, dx) {
    }
  }
}
