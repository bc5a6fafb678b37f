# Chess rules core of Chess-NEA, in Dafny

This project models the rules logic of a Unity chess game, with the Unity presentation layer removed:

- **Move generation for each kind of piece.** A piece's `GetMoves` maps the 8×8 grid of pieces and the piece's own side and square (`currentX`, `currentY`) to a list of destination squares. The model covers the Pawn, Knight, King, Bishop, Rook and Queen overrides and the base-class list.
- **The pawn's special-move classifier.** `GetSpecialMoves` flags promotion, and detects en passant from the last entry of a move list.
- **The board's state transitions.** These are the starting layout (`SpawnPieces`, `SetAllPiecePositions`), turn initialisation in `Awake`, and the state part of `ResetButton`. `MovePiece` validates a move, records a capture, relocates the piece and passes the turn. `ContainsValidMove` is the membership test, and the click-driven pick-up/release cycle of `Update` is modelled as `PickUp`/`Play`.

The grid is an immutable `map<(int, int), Piece>`; a square missing from the map is an empty cell. Each operation is a pure function over that map or over a `GameState` record holding:

- the grid;
- whose turn it is;
- the two captured-piece lists;
- the set of sides whose victory message is showing. The two messages are switched on independently and only a reset switches them off, so after both Kings fall both show.

Side 0 of the source is `White` and side 1 is `Black`.

Module layout, one per source file plus two shared walks:

| module | file | models |
|---|---|---|
| `Pieces` | pieces.dfy | `Piece.cs`: the `PieceType` enumeration, the piece fields, the base `GetMoves`, and the square geometry the generators share |
| `Rays` | rays.dfy | the ray walk every Bishop, Rook and Queen loop performs |
| `Jumps` | jumps.dfy | the in-bounds, empty-or-enemy filter the Knight and King apply to their offset tables |
| `PawnMoves`, `KnightMoves`, `KingMoves`, `BishopMoves`, `RookMoves`, `QueenMoves` | pawn.dfy … queen.dfy | the per-kind overrides |
| `BoardState` | board.dfy | `Board.cs` |

How the move generators are characterised:

- **Bishop, Rook and Queen.** Each result is pinned down exactly: a square is a destination **iff** all of the following hold:
  - it lies on a diagonal (or a rank or file) through the piece;
  - it is on the board;
  - every square strictly between is empty;
  - it is not held by a piece of the mover's side.

  No destination appears twice. The Queen's list is, term for term, the Bishop's list followed by the Rook's.
- **Knight and King.** Each is characterised the same way, by the knight-jump and Chebyshev-distance-1 relations.
- **Pawn.** Characterised by its three clauses: the single step, the double step from the start rank, and the diagonal capture onto an enemy.

## Model

| member | source | states |
|---|---|---|
| `Pieces.PieceTypeOf` | Chess/Assets/Scripts/Pieces/Piece.cs:4-13 | the kind an integer 0..6 stands for has that integer as its enumeration value |
| `Pieces.PieceTypeValues` | Chess/Assets/Scripts/Pieces/Piece.cs:4-13 | the seven kinds have seven distinct values: mapping a kind to its value and back gives the kind again |
| `Pieces.BaseMoves` | Chess/Assets/Scripts/Pieces/Piece.cs:40-52 | the base list has four distinct squares, all on the board, and they are exactly the four centre squares (files 3-4, ranks 3-4) |
| `Pieces.BaseMovesIgnoreInputs` | Chess/Assets/Scripts/Pieces/Piece.cs:40-52 | the base list is the same for every board and every piece, and is (3,3), (3,4), (4,3), (4,4) in that order |
| `Rays.WalkSteps` | Chess/Assets/Scripts/Pieces/Bishop.cs:15-36 | the i-th square a walk lists is i steps along its direction from where it starts |
| `Rays.WalkSafe` | Chess/Assets/Scripts/Pieces/Bishop.cs:18-35 | every square a walk lists is on the board and not held by a piece of the walker's side |
| `Rays.RaysAlongSafe` | Chess/Assets/Scripts/Pieces/Queen.cs:15-194 | every square the concatenated walks list is on the board and not friendly |
| `Rays.WalkSound` | Chess/Assets/Scripts/Pieces/Rook.cs:11-30 | every square a walk lists is reached over empty squares only |
| `Rays.WalkComplete` | Chess/Assets/Scripts/Pieces/Rook.cs:11-30 | every on-board square, not held by the walker's side, that is reached over empty squares is listed: the walk stops only at the edge or at the first occupied square |
| `Rays.RayIff` | Chess/Assets/Scripts/Pieces/Rook.cs:11-30 | a square is on the ray along a direction iff it lies some n >= 1 steps that way, is on the board, has every square before it empty, and is not friendly |
| `Rays.RayToward` | Chess/Assets/Scripts/Pieces/Bishop.cs:15-36 | the ray along a direction holds exactly the squares on a rank, file or diagonal through the piece that point that way, are on the board, have a clear path and are not friendly |
| `Rays.RaysAlongIff` | Chess/Assets/Scripts/Pieces/Queen.cs:15-194 | the concatenated rays along a list of directions hold exactly the clear, on-board, non-friendly line squares whose direction is in the list |
| `Rays.RaysAlongDistinct` | Chess/Assets/Scripts/Pieces/Bishop.cs:15-114 | rays along distinct directions never list a square twice |
| `Rays.RaysAlongAppend` | Chess/Assets/Scripts/Pieces/Queen.cs:15-194 | walking the rays of two direction lists one after the other gives the two results concatenated |
| `Rays.WalkDistinct` | Chess/Assets/Scripts/Pieces/Rook.cs:11-30 | a single ray never lists a square twice |
| `BishopMoves.GetMoves` | Chess/Assets/Scripts/Pieces/Bishop.cs:6-117 | every destination is on the board and is not held by a piece of the bishop's side |
| `BishopMoves.Characterization` | Chess/Assets/Scripts/Pieces/Bishop.cs:15-114 | a square is a destination iff it is diagonal to the bishop and not its own square, is on the board, has every square strictly between empty, and is not friendly |
| `BishopMoves.NoDuplicates` | Chess/Assets/Scripts/Pieces/Bishop.cs:15-114 | the four diagonal walks list no square twice |
| `RookMoves.GetMoves` | Chess/Assets/Scripts/Pieces/Rook.cs:6-90 | every destination is on the board and is not held by a piece of the rook's side |
| `RookMoves.Characterization` | Chess/Assets/Scripts/Pieces/Rook.cs:11-88 | a square is a destination iff it shares exactly one coordinate with the rook, is on the board, has every square strictly between empty, and is not friendly; so the first occupied square of a walk is listed iff it is an enemy |
| `RookMoves.NoDuplicates` | Chess/Assets/Scripts/Pieces/Rook.cs:11-88 | the four orthogonal walks list no square twice |
| `QueenMoves.GetMoves` | Chess/Assets/Scripts/Pieces/Queen.cs:6-197 | every destination is on the board and is not held by a piece of the queen's side |
| `QueenMoves.BishopThenRook` | Chess/Assets/Scripts/Pieces/Queen.cs:15-194 | the queen's list equals the bishop's list for the same piece and board followed by the rook's list |
| `QueenMoves.Characterization` | Chess/Assets/Scripts/Pieces/Queen.cs:15-194 | a square is a destination iff it lies on a rank, file or diagonal through the queen, is on the board, has a clear path, and is not friendly |
| `QueenMoves.NoDuplicates` | Chess/Assets/Scripts/Pieces/Queen.cs:15-194 | the eight walks list no square twice |
| `Jumps.Keep` | Chess/Assets/Scripts/Pieces/Knight.cs:26-38 | a candidate is kept iff it is on the board and empty or enemy-held; the filter never lengthens the list or introduces a duplicate |
| `KnightMoves.GetMoves` | Chess/Assets/Scripts/Pieces/Knight.cs:6-42 | a square is a destination iff it is a (1,2) or (2,1) jump away, on the board, and not friendly; no duplicates, at most eight |
| `KingMoves.GetMoves` | Chess/Assets/Scripts/Pieces/King.cs:6-51 | a square is a destination iff it is at Chebyshev distance 1, on the board, and not friendly; no duplicates, at most eight |
| `PawnMoves.Direction` | Chess/Assets/Scripts/Pieces/Pawn.cs:15 | the forward step is +1 exactly for White and -1 for Black |
| `PawnMoves.Advances` | Chess/Assets/Scripts/Pieces/Pawn.cs:21-39 | the straight moves are the empty square ahead, and the square two ahead from the start rank (1 for White, 6 for Black) when both squares are empty |
| `PawnMoves.Captures` | Chess/Assets/Scripts/Pieces/Pawn.cs:44-68 | a diagonal move is listed iff it is one file over on the rank ahead, on the board, and held by an enemy; on an edge file only the inward diagonal is considered |
| `PawnMoves.GetMoves` | Chess/Assets/Scripts/Pieces/Pawn.cs:12-72 | nothing is listed when the rank ahead is off the board; no square is listed twice, so there are at most four |
| `PawnMoves.Characterization` | Chess/Assets/Scripts/Pieces/Pawn.cs:21-68 | a square is a destination iff it is the empty square ahead, the double step from the start rank over two empty squares, or an enemy-held forward diagonal |
| `PawnMoves.GetSpecialMoves` | Chess/Assets/Scripts/Pieces/Pawn.cs:74-123 | Promotion iff White on rank 6 or Black on rank 1; EnPassant iff otherwise the last move left an enemy pawn, moved two ranks, beside the pawn on its rank; en passant appends the forward diagonal onto the victim's file; every other outcome leaves the move list unchanged, including an empty history |
| `PawnMoves.EnPassantTarget` | Chess/Assets/Scripts/Pieces/Pawn.cs:104-114 | en passant keeps every earlier entry and adds one square: a forward diagonal of the pawn, directly behind the victim |
| `BoardState.GetMoves` | Chess/Assets/Scripts/Board.cs:116 | a held piece's move list, dispatched on its kind, has no duplicates and stays on the board; every kind with an override never lists a friendly square |
| `BoardState.BaseSafe` | Chess/Assets/Scripts/Pieces/Piece.cs:40-52 | the base list has no duplicates and stays on the board |
| `BoardState.PawnSafe` | Chess/Assets/Scripts/Pieces/Pawn.cs:12-72 | a pawn's list has no duplicates, stays on the board and lists no friendly square |
| `BoardState.KnightSafe` | Chess/Assets/Scripts/Pieces/Knight.cs:6-42 | a knight's list has no duplicates, stays on the board and lists no friendly square |
| `BoardState.KingSafe` | Chess/Assets/Scripts/Pieces/King.cs:6-51 | a king's list has no duplicates, stays on the board and lists no friendly square |
| `BoardState.BishopSafe` | Chess/Assets/Scripts/Pieces/Bishop.cs:6-117 | a bishop's list has no duplicates, stays on the board and lists no friendly square |
| `BoardState.RookSafe` | Chess/Assets/Scripts/Pieces/Rook.cs:6-90 | a rook's list has no duplicates, stays on the board and lists no friendly square |
| `BoardState.QueenSafe` | Chess/Assets/Scripts/Pieces/Queen.cs:6-197 | a queen's list has no duplicates, stays on the board and lists no friendly square |
| `BoardState.FillKeys` | Chess/Assets/Scripts/Board.cs:280-284 | the placement loop adds exactly the two cells per remaining file |
| `BoardState.FillValues` | Chess/Assets/Scripts/Board.cs:280-284 | each placed cell holds a freshly spawned piece of its file's kind, White on the white rank and Black on the black rank; other cells keep their pieces |
| `BoardState.FillSize` | Chess/Assets/Scripts/Board.cs:280-284 | on a grid whose target cells are empty, the loop adds two pieces per file |
| `BoardState.SpawnPiecesKeys` | Chess/Assets/Scripts/Board.cs:256-284 | the starting grid occupies ranks 0, 1, 6 and 7 of every file and no other square |
| `BoardState.SpawnPiecesSize` | Chess/Assets/Scripts/Board.cs:256-284 | the starting grid holds 32 pieces |
| `BoardState.SpawnPiecesFile` | Chess/Assets/Scripts/Board.cs:260-284 | on each file, White's back-rank piece is on rank 0 and Black's on rank 7, in the order Rook, Knight, Bishop, Queen, King, Bishop, Knight, Rook; White's pawn is on rank 1 and Black's on rank 6 |
| `BoardState.SpawnPiecesLayout` | Chess/Assets/Scripts/Board.cs:253-285 | the whole starting grid: every file laid out as above, ranks 2 to 5 empty, 32 pieces |
| `BoardState.SetAllPiecePositions` | Chess/Assets/Scripts/Board.cs:321-343 | every piece gets its own square as its position; side, kind and the set of occupied squares are unchanged |
| `BoardState.PlaceFile` | Chess/Assets/Scripts/Board.cs:321-343 | writing positions into a file laid out as spawned gives the same file with each piece aware of its square |
| `BoardState.Awake` | Chess/Assets/Scripts/Board.cs:47-60 | at start-up White is to move, no piece is captured, no victory is shown, and 32 pieces are on the grid |
| `BoardState.StartingPosition` | Chess/Assets/Scripts/Board.cs:57-59 | at start-up every file is laid out with each piece aware of its square, the grid is well formed, and ranks 2 to 5 are empty |
| `BoardState.ResetButton` | Chess/Assets/Scripts/Board.cs:381-425 | after a reset White is to move, both captured lists are empty and no victory is shown |
| `BoardState.ResetIsAwake` | Chess/Assets/Scripts/Board.cs:381-425 | whatever the state before, a reset yields exactly the start-up state |
| `BoardState.Relocate` | Chess/Assets/Scripts/Board.cs:523-526 | the mover ends on the target with its position fields set to the target, its old square is empty, every other square is as it was, and the occupied squares are the old ones plus the target minus the origin |
| `BoardState.RelocateCount` | Chess/Assets/Scripts/Board.cs:523-525 | relocating onto an occupied square leaves one square fewer occupied; onto an empty square, the same number |
| `BoardState.BothVictoriesShow` | Chess/Assets/Scripts/Board.cs:372-378 | once both Kings have been taken, in either order, both sides' victory messages are showing |
| `BoardState.MovePiece` | Chess/Assets/Scripts/Board.cs:471-539 | the move goes through iff the target is in the available list and not held by the mover's side; a refused move changes nothing; a move that goes through puts the mover on the target with its position updated, empties its origin, leaves every other square as it was, and flips the turn; a captured White piece joins the White list and a Black one the Black list; capturing a King switches on the mover's victory message and leaves the other side's message as it was |
| `BoardState.MovePreservesWellFormed` | Chess/Assets/Scripts/Board.cs:523-526 | a move keeps every piece on the board and aware of its own square |
| `BoardState.MoveConservesPieces` | Chess/Assets/Scripts/Board.cs:479-525 | pieces on the grid plus captured pieces is the same number before and after a move |
| `BoardState.PickUp` | Chess/Assets/Scripts/Board.cs:106-119 | a click picks up a piece iff the square holds one of the side to move; the piece held is the one on that square, its move list is exactly that piece's `GetMoves` on the current grid, and so stays on the board |
| `BoardState.Play` | Chess/Assets/Scripts/Board.cs:104-139 | a turn that goes through moves a piece of the side to move onto a square of its move list that is not friendly, relocates it, flips the turn, records any capture, and never adds to the mover's own captured list; a turn that does not go through changes nothing; the grid stays well formed and the piece count is conserved |
| `BoardState.Replay` | Chess/Assets/Scripts/Board.cs:62-139 | any sequence of turns keeps the grid well formed and the total count of pieces, and never switches off a victory message that is showing |
| `BoardState.GameKeepsAllPieces` | Chess/Assets/Scripts/Board.cs:47-60 | in every game from start-up, the 32 pieces are each either on the grid or in a captured list, and every piece on the grid knows its square |
| `BoardState.ContainsValidMove` | Chess/Assets/Scripts/Board.cs:543-549 | the linear search answers true iff the queried square occurs in the move list |

## Left out

- Rendering and input (Board.cs lines 62-176 and 181-248): raycasting, hover and highlight layers, the drag plane, tile mesh generation, `HighlightTiles`/`UnhighlightTiles`, `ExitButton`, and the UI half of `ResetButton`. A click is modelled as a square given to `PickUp`, and a release as a square given to `Play`. The "release off the board" path only drops the piece, so the model has nothing to represent for it.
- Asset loading and instantiation (`LoadPrefabs`, `LoadPieceMaterials`, prefab and material indexing in `SpawnPiece`). `SpawnPiece` builds a piece value with the given kind and side, and positions left at 0.
- Floating-point positions and animation: `Piece.Update`, `SetPosition`, `SetScale`, and the placement of captured pieces beside the board. Only the integer `currentX`/`currentY` updates are kept. `Debug.Log` calls have no effect on state and are dropped.
- `DisplayVictory`/`Checkmate` are modelled as the `winners` field of the game state, the set of victory messages switched on, not as UI. As in the source, a captured King does not stop play.
- `BoardState.GetMoves` chooses the override by the piece's `type` field. The source chooses it by the component class of the prefab `prefabs[(int) type - 1]` (Board.cs line 290), loaded in whatever order `Resources.LoadAll` returns (line 458), and sets `type` separately (line 304). The model assumes each prefab carries the subclass for its `type`.
- `firstMoveMade` (Board.cs line 535): the flag is set but never read. Pawn move generation uses the start rank instead.
- The move list read by `GetSpecialMoves` is not built anywhere in Board.cs, so it is a parameter. Board.cs does not call `GetSpecialMoves`, so the result is not wired into `MovePiece`: en-passant pawn removal and promotion execution do not exist in the code.
- `PawnMoves.GetSpecialMoves` requires the last move's destination to be occupied. The source reads that square's piece with no null check.
- `MovePiece` requires a listed target to be on the board. The source indexes the grid with it.
- The `SpecialMove` enumeration is declared outside the files modelled here; the model gives it the three values `Pawn.cs` uses.
- Both board dimensions are the constant 8, as Board.cs always passes them. The pawn's rank bound, which the source compares against the file count, therefore equals the rank bound.
- `ContainsValidMove` compares an integer move with a floating-point query position. Every query the board makes is an integer square, so the query is modelled as an integer square.
- Rules a reader of chess might expect are absent from the code and are not modelled: filtering out moves that leave one's own King in check, castling, a recorded move history, stalemate, and checkmate detected by the absence of legal moves. The only win is the capture of a King.
- Quirks the model reproduces as harmless:
  - the Rook's `continue` on the origin square can never fire, because each loop starts one step away;
  - the Bishop's down-left walk checks only the file bound, and the rank bound is enforced by its loop condition.
