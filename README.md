# Tetris piece engine, input handling and score file: a Dafny model

This project models the game logic of a Rust Tetris clone. SDL, files, clocks
and randomness are stripped away. It covers:

- the falling-piece engine (`src/tetrimino/mod.rs`): the collision test against a ragged field, all-or-nothing moves, rotation with the ordered kick table `0, -1, 1, -2, 2, -3`, and the "re-draw once if it repeats" piece generator;
- the seven piece kinds and their rotation states (`src/tetrimino/shape_impl_data.rs`);
- the keyboard handler (`src/event.rs`), as a fold over already-decoded intents;
- the game-loop fragments of `src/main.rs`: the gravity step, spawning with the game-over check, the ghost (drop-preview) piece, and the high-score list update `update_vec`;
- the score-file text format (`src/file_io.rs`): rendering and parsing a list of u32 values, the saved content, and the parsing half of loading.

Modules, in dependency order:

- `Wrappers`: the `Option` type.
- `Collision`: the collision test as the predicate `Fits`. It is restated in absolute board coordinates, and it is shown that only occupied template cells matter.
- `Shapes`: the shape catalog as literal data, with lemmas on the state counts, the 4x4 size, the four cells per state, the tags and the spawn pose.
- `Pieces`: the functions `Rotated`, `Dropped` and `SelectDraw` that specify the piece operations, and the class `Tetrimino`. Its methods update `x`, `y` and `currentState` in place and are proved equal to those functions.
- `Board`: the fields of the game struct that the loop and the handler touch.
- `Events`: `handle_events`. The pure fold `Run`/`Settle` specifies it; `HandleEvents` is the imperative loop proved against that fold.
- `MainLoop`: gravity, spawn, ghost and `update_vec`.
- `FileIo`: the score-file format.

The random bytes and the generator's remembered previous pick (a `static mut` in the source) are passed in explicitly. The pick is `byte % 7`, as in the code. The draw is therefore slightly biased towards kinds 0 to 3, and the model keeps that bias. The calls into `src/tetris.rs`, which is not part of this model, are returned as a list of requests, in the order the handler makes them. Those calls are `make_permanent` (lock the piece into the field) and `hold_piece`. The elapsed-time check and the timer reset are booleans.

## Model

| member | source | states |
|---|---|---|
| Collision.Fits | src/tetrimino/mod.rs:56-72 | the collision test itself, by definition: no occupied cell of the 4x4 template placed at (x, y) lies below the last row, left of column 0, right of its row's width, or on a non-zero field cell; its meaning is proved in FitsIffCoveredCellsFree |
| Collision.FitsIffCoveredCellsFree | src/tetrimino/mod.rs:56-72 | a template fits at (x, y) iff every board cell one of its occupied cells covers is inside the field (row index less than the number of rows, column within that row's own width) and empty |
| Collision.OnlyOccupiedCellsMatter | src/tetrimino/mod.rs:61-66 | two templates with the same occupied cells fit at exactly the same places, so empty template cells may hang off the field |
| Collision.FitsOnlyWithinRows | src/tetrimino/mod.rs:63 | a template with an occupied cell fits only with its anchor row inside the field (this bounds every drop) |
| Shapes.States | src/tetrimino/shape_impl_data.rs:5-180 | the rotation-state literals of each kind, one to four states per kind; their contents are checked by StateIsGood and StateCounts |
| Shapes.SpawnX | src/tetrimino/shape_impl_data.rs:20-176 | the spawn column is 4 for every kind and 5 for O alone |
| Shapes.StateIsGood | src/tetrimino/shape_impl_data.rs:5-180 | every rotation state of every kind is 4x4, has exactly four occupied cells, and every occupied cell carries the kind's tag |
| Shapes.GoodI | src/tetrimino/shape_impl_data.rs:8-19 | both I states are 4x4 with four cells tagged 1 |
| Shapes.GoodJ | src/tetrimino/shape_impl_data.rs:32-51 | all four J states are 4x4 with four cells tagged 2 |
| Shapes.GoodL | src/tetrimino/shape_impl_data.rs:64-82 | all four L states are 4x4 with four cells tagged 3 |
| Shapes.GoodO | src/tetrimino/shape_impl_data.rs:95-101 | the single O state is 4x4 with four cells tagged 4 |
| Shapes.GoodS | src/tetrimino/shape_impl_data.rs:114-123 | both S states are 4x4 with four cells tagged 5 |
| Shapes.GoodZ | src/tetrimino/shape_impl_data.rs:136-145 | both Z states are 4x4 with four cells tagged 6 |
| Shapes.GoodT | src/tetrimino/shape_impl_data.rs:158-175 | all four T states are 4x4 with four cells tagged 7 |
| Shapes.StateCounts | src/tetrimino/shape_impl_data.rs:5-180 | the state counts are I=2, J=4, L=4, O=1, S=2, Z=2, T=4, and every state is a template with an occupied cell |
| Shapes.CellsCarryTag | src/tetrimino/shape_impl_data.rs:5-180 | every cell of every state is 0 or the kind's tag (I=1 … T=7) |
| Shapes.FourCellsEach | src/tetrimino/shape_impl_data.rs:5-180 | every state of every kind occupies exactly four cells |
| Shapes.RowCount | src/tetrimino/shape_impl_data.rs:5-180 | the number of occupied cells of a four-cell row is at most four and is zero iff every cell is zero |
| Shapes.GoodStateCells | src/tetrimino/shape_impl_data.rs:5-180 | a state whose rows each hold only 0 or the tag and whose row counts sum to four is a 4x4 template with four occupied cells, each carrying the tag |
| Shapes.CountedCellExists | src/tetrimino/shape_impl_data.rs:5-180 | a template with a positive cell count has an occupied cell |
| Shapes.SpawnExtent | src/tetrimino/shape_impl_data.rs:20-178 | in the spawn pose (x 4, or 5 for O; state 0; y 0) the occupied cells lie in rows 0-1 and columns 0-7 |
| Shapes.SpawnFitsEmptyField | src/tetrimino/shape_impl_data.rs:5-180 | every kind's spawn pose fits on an all-zero field of at least 2 rows and 8 columns |
| Pieces.NextState | src/tetrimino/mod.rs:75-78 | the next state is current+1, wrapping to 0 after the last, so a one-state piece stays in state 0 |
| Pieces.FirstKick | src/tetrimino/mod.rs:79-87 | the result is the index of the first kick offset at which the template fits; none means no offset fits |
| Pieces.FirstKickIsFirstFit | src/tetrimino/mod.rs:80-86 | an offset that fits with no earlier offset fitting is the one chosen |
| Pieces.FirstKickFindsFirstFit | src/tetrimino/mod.rs:80-86 | for every offset that is the first to fit, FirstKick returns that offset |
| Pieces.RotatedWith | src/tetrimino/mod.rs:74-88 | a rotation against a table of kick offsets never changes y; when no offset fits the pose is unchanged; when some offset fits, the result is the next state at the first fitting offset, and that pose fits |
| Pieces.Rotated | src/tetrimino/mod.rs:74-88 | rotation never changes y; when all six offsets are rejected the pose is unchanged; when some offset fits, the result is the next state at the first fitting offset, and that pose fits |
| Pieces.Tetrimino.FindKick | src/tetrimino/mod.rs:79-87 | the scan over the offsets, returning at the first position that passes the collision test, answers exactly FirstKick |
| Pieces.RotateInPlaceWhenRoom | src/tetrimino/mod.rs:79-85 | when the next state fits at the current anchor, rotation keeps the anchor |
| Pieces.Dropped | src/event.rs:49-54 | dropping keeps state and column, every row passed fits, and the row below the resting row does not fit |
| Pieces.DroppedFits | src/event.rs:49-54 | a drop from a fitting pose ends in a fitting pose |
| Pieces.KindOfDraw | src/tetrimino/mod.rs:38-46 | pick 0..6 selects I, J, L, O, S, Z, T, whose tag is the pick plus one |
| Pieces.SelectDraw | src/tetrimino/mod.rs:32-37 | the pick is a draw mod 7; the second draw is used only when the first repeats the previous pick, so a repeat happens only when both draws repeat it |
| Pieces.FirstCallUsesFirstDraw | src/tetrimino/mod.rs:32-35 | with the initial previous value 7, the first draw is always kept |
| Pieces.Tetrimino.New | src/tetrimino/shape_impl_data.rs:5-180 | a new piece has its kind's states, state 0, y 0 and x 4 (5 for O) |
| Pieces.Tetrimino.Clone | src/tetrimino/mod.rs:19-25 | a clone has the same states and pose as the original, as a separate object |
| Pieces.Tetrimino.TestPosition | src/tetrimino/mod.rs:56-72 | the nested scan with early return answers exactly Fits |
| Pieces.Tetrimino.TestCurrentPosition | src/tetrimino/mod.rs:51-54 | the answer is whether the piece fits in its current pose |
| Pieces.Tetrimino.ChangePosition | src/tetrimino/mod.rs:90-99 | succeeds iff the current state fits at the target; on success the anchor becomes the target and the piece fits there, on failure nothing changes; the state is never touched |
| Pieces.Tetrimino.Rotate | src/tetrimino/mod.rs:74-88 | the new pose is Rotated of the old one |
| Pieces.Tetrimino.DropToRest | src/event.rs:47-56 | the new pose is Dropped of the old one (the hard-drop loop, also used for the ghost) |
| Pieces.CreateNewTetrimino | src/tetrimino/mod.rs:31-48 | the pick is SelectDraw of the previous pick and the draws, and the piece is a new spawn-pose piece of the picked kind |
| Board.Tetris.constructor | src/main.rs:90 | a game between pieces: the given field, no falling piece (assumed, see Left out), the given piece queued |
| Events.Step | src/event.rs:15-58 | one event keeps the piece's state index valid (Down/Right/Left move the target, Rotate and hard drop act on the piece) |
| Events.Run | src/event.rs:14-59 | the events fold, stopping after the first Quit, keeps the piece's state index valid |
| Events.CountAbsent | src/event.rs:22-37 | an event that does not occur in a batch is counted zero times |
| Events.Processed | src/event.rs:16-21 | the processed events are the prefix before the first Quit, which holds no Quit |
| Events.QuitDiscardsRest | src/event.rs:16-21 | everything after the first Quit is ignored, and quit is set iff a Quit occurred |
| Events.RunCounts | src/event.rs:22-37 | without Quit or hard drop, the target is the start plus one row per Down and one column per Right, minus one per Left; the piece's row and the lock flag are unchanged; hold is set iff a Hold occurred; the timer is reset iff a Down occurred |
| Events.StepCounts | src/event.rs:22-37 | one Down adds a row to the target, one Right adds a column and one Left removes one; Hold sets the hold flag and Down the timer reset; the piece's row, the lock and the quit flag are untouched |
| Events.LockIsSticky | src/event.rs:55 | once a lock is requested, later events never withdraw it |
| Events.HardDropLocks | src/event.rs:47-56 | a processed hard drop always requests a lock |
| Events.LockDecision | src/event.rs:47-66 | a lock is requested iff a hard drop was processed, or at least one Down was processed and the combined move (pre-batch position plus the accumulated steps, in the state rotations left) does not fit |
| Events.NoHardDropLock | src/event.rs:22-66 | without a processed hard drop, a lock is requested iff at least one Down was processed and the combined move does not fit |
| Events.ProcessedPrefixDecides | src/event.rs:16-21 | the pose, the target and the lock flag of a batch are those of its events before the first Quit |
| Events.NoHardDropPose | src/event.rs:22-66 | without a processed hard drop, the piece ends at the combined target (pre-batch position plus one column per Right, minus one per Left, plus one row per Down, in the state the rotations left) when that fits, and otherwise where the rotations left it |
| Events.SettleLocksAt | src/event.rs:60-66 | after a batch without a lock, aiming dy rows below the piece, a lock is due iff dy > 0 and the target does not fit |
| Events.SettleMovesTo | src/event.rs:60-61 | after a batch without a lock, the piece moves to the target iff it fits there, and otherwise stays |
| Events.SidewaysNeverLocks | src/event.rs:60-66 | a batch with neither Down nor hard drop never locks |
| Events.SingleRotateKeepsKick | src/event.rs:38-66 | after a lone rotation the piece stays where the rotation put it, and no lock is requested, even though the combined move aims at the pre-batch column |
| Events.RunAppend | src/event.rs:14-59 | running two batches in turn is running their concatenation, when the first has no Quit |
| Events.HardDropEndsAtRest | src/event.rs:49-56 | a batch ending in a hard drop leaves the piece in a pose whose next row down does not fit |
| Events.RotateAfterHardDrop | src/event.rs:38-56 | a hard drop followed by a Rotate requests a lock, and the piece is left in the pose the rotation gives from where the drop stopped |
| Events.HardDropThenRotateLocksAboveFloor | src/event.rs:38-56 | on an empty 4x4 field, an upright I piece given a hard drop then a Rotate is locked lying flat in the top row although the row below it still fits |
| Events.GuardedStep | src/event.rs:15-58 | the corrected step: once a lock is due the piece and the lock stay as they are; before that it is the event's step |
| Events.RunGuarded | src/event.rs:14-59 | the corrected fold keeps the state index valid and, from a batch with a lock due, leaves the piece where it is |
| Events.OutcomeGuarded | src/event.rs:6-77 | the corrected handler call keeps the state index valid |
| Events.RunGuardedAgrees | src/event.rs:14-59 | on events without a hard drop the corrected fold is the fold as written |
| Events.GuardedHardDropLocksAtRest | src/event.rs:47-56 | with the corrected fold, a batch whose events process a hard drop ends locked with the piece where its next row down does not fit |
| Events.HardDropLocksAtRest | src/event.rs:47-66 | the corrected handler call locks every hard-dropped piece where it rests, whatever events follow the drop |
| Events.RunUnfold | src/event.rs:14-21 | the fold over an event followed by more events is that event's step, then the rest unless the event was Quit |
| Events.ApplyIntents | src/event.rs:14-59 | the event loop leaves the piece in the pose of the fold and returns the fold's target and flags |
| Events.ApplyIntent | src/event.rs:15-58 | one arm of the event match changes the piece and the working state exactly as Step does, and sets quit only for Quit |
| Events.Settle | src/event.rs:60-66 | after the loop: without a lock due, a target that fits is always taken and then no lock is requested; otherwise the piece stays; only a move that fits is taken; a lock already due stays; a new lock leaves the piece where it was and comes only from a target on another row; target, hold, quit and timer flags are untouched |
| Events.Outcome | src/event.rs:6-77 | one call of the handler keeps the state index valid and never withdraws a lock its events requested; without a processed hard drop its pose is given by NoHardDropPose, its lock in every case by LockDecision; after a hard drop a later Rotate still turns the locked piece (see HardDropThenRotateLocksAboveFloor) |
| Events.HandleEvents | src/event.rs:6-77 | without a falling piece nothing happens; otherwise the piece ends in the pose of the fold's outcome, locked/quit equal the outcome's flags, the timer is reset on Down or lock, and the requests are the lock first, then the hold |
| MainLoop.GravityStep | src/main.rs:196-208 | on a due tick the falling piece moves one row down if that fits, a lock is requested exactly when it does not, and the timer is reset; off a due tick nothing changes |
| MainLoop.Spawn | src/main.rs:222-229 | with no falling piece, the game is over iff the queued piece does not fit where it stands, and then nothing changes; otherwise it becomes the falling piece and a new piece is drawn into the queue |
| MainLoop.GhostProjection | src/main.rs:284-290 | the ghost is a new piece at Dropped of the falling piece's pose; the falling piece is unchanged |
| MainLoop.Insert | src/main.rs:69 | insertion adds exactly one copy of the value and keeps every other entry |
| MainLoop.InsertSorted | src/main.rs:69 | insertion into an ascending list gives an ascending list, headed by the value or by the old head |
| MainLoop.SortAscending | src/main.rs:69 | the result is ascending and a permutation of the input |
| MainLoop.FirstBelow | src/main.rs:72-76 | the result is the first index whose entry is below the value; none means no entry is below it |
| MainLoop.UpdatedScores | src/main.rs:66-80 | a list shorter than 5 becomes the sorted list with the value added (flag true); a full list keeps its length, the flag is true iff some entry is below the value, and then the result is the list with its first entry below the value overwritten by the value; otherwise the list is unchanged |
| MainLoop.UpdateVec | src/main.rs:66-80 | the loop computes exactly UpdatedScores |
| MainLoop.FirstBelowLosesHigherScore | src/main.rs:72-76 | scores 10, 6, 7 added to the list 1..5 leave 10, 7, 3, 4, 5: the 6 is lost while 3 stays |
| MainLoop.MinIndex | src/main.rs:72-76 | the index of a smallest entry |
| MainLoop.UpdatedTopScores | src/main.rs:66-80 | the corrected update: a short list as before; a full list keeps its length and, when the value beats the smallest entry, drops exactly one value, which is no larger than anything kept |
| MainLoop.ReplacedMinimumIsDropped | src/main.rs:72-76 | overwriting a smallest entry with a larger value drops that entry, and every kept entry is at least as large |
| MainLoop.TopScoresKeepHigherScore | src/main.rs:72-76 | the corrected update of 10, 6, 3, 4, 5 with 7 gives 10, 6, 7, 4, 5 |
| FileIo.DigitChar | src/file_io.rs:19 | the character for a value 0..9 is a decimal digit |
| FileIo.NatToString | src/file_io.rs:19 | the rendering of a number is a non-empty string of decimal digits with no leading zero (it starts with '0' only for 0) |
| FileIo.NatToStringValue | src/file_io.rs:19 | the digits of the rendering read back as the number |
| FileIo.ParseU32 | src/file_io.rs:31 | a parsed value is at most 2^32-1 |
| FileIo.ParseU32Rejects | src/file_io.rs:31 | the empty token, a lone '+', and any token with a character that is neither a digit nor a leading '+' fail to parse |
| FileIo.NatToStringParses | src/file_io.rs:19-31 | every u32 parses back from its rendering |
| FileIo.NewlineTokenRejected | src/file_io.rs:31 | a token holding a newline never parses |
| FileIo.FirstIndex | src/file_io.rs:31 | the position of the first separator |
| FileIo.Join | src/file_io.rs:18-21 | the joined text starts with the first part, and with two or more parts the separator follows it |
| FileIo.Split | src/file_io.rs:31 | the pieces hold no separator, there is at least one, and joining them with the separator gives the text back |
| FileIo.SplitJoin | src/file_io.rs:20-31 | splitting pieces joined with a separator they do not hold gives the pieces back |
| FileIo.Rendered | src/file_io.rs:19 | the renderings of the values, one per value, in order |
| FileIo.SliceToString | src/file_io.rs:18-21 | the joined rendering is empty iff the list is |
| FileIo.NoNewlineInRendering | src/file_io.rs:18-21 | a rendered list holds no newline |
| FileIo.FilterMap | src/file_io.rs:31 | filtering parses keeps at most one value per token |
| FileIo.FilterMapKeepsAll | src/file_io.rs:31 | when every token parses, all their values are kept in order |
| FileIo.FilterMapDropsAll | src/file_io.rs:31 | when no token parses, nothing is kept |
| FileIo.FilterMapAppend | src/file_io.rs:31 | filtering two token lists in turn is filtering their concatenation |
| FileIo.FilterMapBounded | src/file_io.rs:31 | when every parse stays within a bound, so does every value kept |
| FileIo.LineToSlice | src/file_io.rs:30-32 | every value read from a line is a u32 |
| FileIo.LineToSliceRoundTrip | src/file_io.rs:18-32 | line_to_slice(slice_to_string(s)) == s for every u32 list, including the empty one |
| FileIo.TrailingNewlineDropsLast | src/file_io.rs:27-32 | a rendered list followed by a newline reads back without its last value |
| FileIo.SaveContent | src/file_io.rs:23-28 | the saved text is the high-score rendering up to its first newline, and it ends with a newline |
| FileIo.SplitOnce | src/file_io.rs:36 | with a newline, the text is the first part, a newline and the second part, and the first part holds no newline; without one, the single part is the text |
| FileIo.SavedContentParts | src/file_io.rs:25-37 | saved content splits into the rendered high scores and the rendered lines with their newline |
| FileIo.LoadContent | src/file_io.rs:34-45 | loading gives a result iff the content holds a newline |
| FileIo.SaveThenLoad | src/file_io.rs:23-45 | saving then loading returns the high scores whole but the lines list without its last value |
| FileIo.TrimNewline | src/file_io.rs:36-37 | exactly one trailing newline is removed, if there is one |
| FileIo.LoadContentTrimmed | src/file_io.rs:34-45 | the corrected load gives a result iff the content holds a newline |
| FileIo.SaveThenLoadTrimmed | src/file_io.rs:23-45 | with the corrected load, both lists survive a save and load whole |

## Left out

- Rendering, windows, fonts, images and audio: `src/create_texture.rs`, the texture groups, and the drawing and setup code in `src/main.rs`. These are foreign calls with no game logic.
- `print_game_information` prints results. It also chains load, `update_vec` and save; the model covers each of those three operations but not the glue between them, which is I/O.
- File access (`write_into_file`, `read_from_file`, the file name). Save and load are modelled over strings, so a failed read or write is not modelled.
- Clocks: `is_time_over` becomes the `tickDue` input, and each `SystemTime::now()` reset becomes a flag.
- Randomness: `rand::random::<u8>()` becomes the byte parameters `draw1` and `draw2`. The `static mut PREV` becomes a value passed in and returned.
- `src/tetris.rs` is not part of this model, so `make_permanent`, line clearing, score, level, `hold_piece` and `Tetris::new` have no semantics here. The handler and the gravity step return lock and hold requests instead of calling them. `Board.Tetris.constructor` takes the field and the first queued piece as parameters.
- Board.Tetris.constructor: the game starts with no falling piece. This is an assumption about `Tetris::new`, whose body is in `src/tetris.rs`; src/main.rs:90 only calls it.
- Machine widths: u8 cells, the usize row, the isize column, u8 state index and u32 scores are unbounded integers. Overflow is not modelled; in the source it cannot arise for fields of playable size. The u32 bound is kept where parsing checks it.
- SDL event decoding: keys are decoded into `Events.Intent` before the handler sees them: S or Down gives Down, D or Right gives Right, A or Left gives Left, W or Up gives Rotate, Space gives Hold, Return gives HardDrop, and Escape or a window close gives Quit. All other events become `Other`.
- Events.HandleEvents: follows the handler as written, so it keeps the Rotate-after-Return behaviour of the third Findings row. The corrected guard is stated on the fold (`Events.OutcomeGuarded`), not on the method.
- MainLoop.UpdateVec: works on a value and returns the new list, rather than mutating a `Vec` in place. No aliasing is involved, so the contents and the flag are stated exactly.

## Findings

| source | as written | input that shows it | evidently intended | confidence | as-written member | corrected member |
|---|---|---|---|---|---|---|
| src/file_io.rs:27-37 | the lines list is saved with a trailing newline, and `splitn(2, "\n")` leaves that newline on the second part, so its last number fails to parse | saving high scores [5] and lines [7] writes "5\n7\n", which loads as ([5], []) | the trailing newline is removed before parsing, so both lists read back whole | high (not executed) | FileIo.SaveThenLoad | FileIo.SaveThenLoadTrimmed |
| src/main.rs:72-76 | a full list overwrites the first entry in stored order that is below the new value, and the list is no longer sorted after the first overwrite | from the list 1..5, scores 10, 6 and 7 give 10, 7, 3, 4, 5, so the 6 is dropped while 3 stays | the smallest entry is replaced, so the list keeps the five best values | medium (not executed) | MainLoop.FirstBelowLosesHigherScore | MainLoop.TopScoresKeepHigherScore |
| src/event.rs:38-56 | Return only sets the lock flag, so a Rotate later in the same batch still turns the dropped piece, which is then locked wherever the rotation left it | on an empty 4x4 field, an upright I piece posed at (0, 0) given Return then Up is locked flat in row 0 with three free rows under it | once a lock is due, later events no longer move the piece, so a hard-dropped piece always locks at rest | medium (not executed) | Events.HardDropThenRotateLocksAboveFloor | Events.HardDropLocksAtRest |
