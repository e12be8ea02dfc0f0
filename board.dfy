/**
 * The part of the game state that src/main.rs and src/event.rs read and write:
 * the field, the falling piece and the queued next piece. The rest of the
 * struct (score, lines, level, held piece) and its operations live in
 * src/tetris.rs, which is not part of this model.
 */
module Board {
  import opened Collision
  import opened Pieces

  class Tetris {
    var gameMap: Field
    var currentPiece: Tetrimino?
    var nextPiece: Tetrimino

    /** Both pieces are well formed and are distinct objects. */
    ghost predicate Valid()
      reads this, currentPiece, nextPiece
    {
      nextPiece.Valid() &&
      (currentPiece != null ==> currentPiece.Valid() && currentPiece != nextPiece)
    }

    /** A game state between pieces: no falling piece, `next` queued. */
    constructor (field: Field, next: Tetrimino)
      requires next.Valid()
      ensures Valid() && gameMap == field && currentPiece == null && nextPiece == next
    {
      gameMap := field;
      currentPiece := null;
      nextPiece := next;
    }
  }
}
