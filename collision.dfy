/**
 * The collision test of src/tetrimino/mod.rs: a 4x4 rotation template placed
 * with its top-left corner at column x, row y of a play field.
 */
module Collision {

  /** One rotation state: 4 rows of 4 cells, 0 empty, 1..7 the kind's tag. */
  type Grid = seq<seq<int>>

  /** The play field, rows top to bottom. Rows may differ in width. */
  type Field = seq<seq<int>>

  predicate IsTemplate(g: Grid) {
    |g| == 4 && forall r :: 0 <= r < 4 ==> |g[r]| == 4
  }

  /** Some cell of the template is occupied. */
  predicate HasOccupied(g: Grid)
    requires IsTemplate(g)
  {
    exists dy, dx :: 0 <= dy < 4 && 0 <= dx < 4 && g[dy][dx] != 0
  }

  /** A list of rotation states every piece carries: non-empty, each a 4x4 template with an occupied cell. */
  predicate WellFormed(states: seq<Grid>) {
    |states| > 0 &&
    forall i :: 0 <= i < |states| ==> IsTemplate(states[i]) && HasOccupied(states[i])
  }

  /**
   * Template cell (dy, dx) is occupied and, placed at (x, y), lands on or below
   * the row count, left of column 0, at or right of its row's width, or on a
   * non-zero field cell.
   */
  predicate Blocked(field: Field, g: Grid, x: int, y: nat, dy: nat, dx: nat)
    requires IsTemplate(g) && dy < 4 && dx < 4
  {
    g[dy][dx] != 0 &&
    (y + dy >= |field| || x + dx < 0 || x + dx >= |field[y + dy]| || field[y + dy][x + dx] != 0)
  }

  /** The template fits at (x, y): no template cell is blocked. */
  predicate Fits(field: Field, g: Grid, x: int, y: nat)
    requires IsTemplate(g)
  {
    forall dy, dx :: 0 <= dy < 4 && 0 <= dx < 4 ==> !Blocked(field, g, x, y, dy, dx)
  }

  /** Field coordinate (r, c) is covered by an occupied template cell placed at (x, y). */
  predicate Covers(g: Grid, x: int, y: nat, r: int, c: int)
    requires IsTemplate(g)
  {
    y <= r < y + 4 && x <= c < x + 4 && g[r - y][c - x] != 0
  }

  /** (r, c) is inside the field, within its row, and empty. */
  predicate FreeCell(field: Field, r: int, c: int) {
    0 <= r < |field| && 0 <= c < |field[r]| && field[r][c] == 0
  }

  /**
   * Reference reading of the collision test in absolute field coordinates:
   * the template fits exactly when every field cell one of its occupied cells
   * covers exists and is empty.
   */
  lemma {:induction false} FitsIffCoveredCellsFree(field: Field, g: Grid, x: int, y: nat)
    requires IsTemplate(g)
    ensures Fits(field, g, x, y) <==> forall r, c :: Covers(g, x, y, r, c) ==> FreeCell(field, r, c)
  {
    if Fits(field, g, x, y) {
      forall r, c | Covers(g, x, y, r, c) ensures FreeCell(field, r, c) {
        assert !Blocked(field, g, x, y, r - y, c - x);
      }
    }
    if forall r, c :: Covers(g, x, y, r, c) ==> FreeCell(field, r, c) {
      forall dy, dx | 0 <= dy < 4 && 0 <= dx < 4 ensures !Blocked(field, g, x, y, dy, dx) {
        if g[dy][dx] != 0 {
          assert Covers(g, x, y, y + dy, x + dx);
        }
      }
    }
  }

  /**
   * Empty template cells impose nothing: two templates with the same occupied
   * cells fit at the same places, whatever their empty cells hang over.
   */
  lemma {:induction false} OnlyOccupiedCellsMatter(field: Field, g1: Grid, g2: Grid, x: int, y: nat)
    requires IsTemplate(g1) && IsTemplate(g2)
    requires forall dy, dx :: 0 <= dy < 4 && 0 <= dx < 4 ==> (g1[dy][dx] != 0 <==> g2[dy][dx] != 0)
    ensures Fits(field, g1, x, y) <==> Fits(field, g2, x, y)
  {
    if Fits(field, g1, x, y) {
      forall dy, dx | 0 <= dy < 4 && 0 <= dx < 4 ensures !Blocked(field, g2, x, y, dy, dx) {
        assert !Blocked(field, g1, x, y, dy, dx);
      }
    }
    if Fits(field, g2, x, y) {
      forall dy, dx | 0 <= dy < 4 && 0 <= dx < 4 ensures !Blocked(field, g1, x, y, dy, dx) {
        assert !Blocked(field, g2, x, y, dy, dx);
      }
    }
  }

  /** A template with an occupied cell fits only with its anchor row inside the field. */
  lemma {:induction false} FitsOnlyWithinRows(field: Field, g: Grid, x: int, y: nat)
    requires IsTemplate(g) && HasOccupied(g) && Fits(field, g, x, y)
    ensures y < |field|
  {
    var dy, dx :| 0 <= dy < 4 && 0 <= dx < 4 && g[dy][dx] != 0;
    assert !Blocked(field, g, x, y, dy, dx);
  }

  /** A template occupied only in its top row fits wherever that row lands on four free cells. */
  lemma TopRowFits(field: Field, g: Grid, x: int, y: nat)
    requires IsTemplate(g)
    requires forall dy, dx :: 1 <= dy < 4 && 0 <= dx < 4 ==> g[dy][dx] == 0
    requires y < |field| && 0 <= x && x + 4 <= |field[y]|
    requires forall c :: x <= c < x + 4 ==> field[y][c] == 0
    ensures Fits(field, g, x, y)
  {
    forall dy, dx | 0 <= dy < 4 && 0 <= dx < 4
      ensures !Blocked(field, g, x, y, dy, dx)
    {
      if dy == 0 {
        assert field[y][x + dx] == 0;
      } else {
        assert g[dy][dx] == 0;
      }
    }
  }
}
