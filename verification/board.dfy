/** The game state the board keeps (Board.cs): the grid of pieces, whose
    turn it is, the two lists of captured pieces and the victory messages;
    with the starting layout, moving a piece, move-list membership, reset,
    and the turn-checked pick-up that feeds a move. */
module BoardState {
  import opened Pieces
  import PawnMoves
  import KnightMoves
  import KingMoves
  import BishopMoves
  import RookMoves
  import QueenMoves

  /** A move list with no square twice and every square on the board; a
      kind with an override of its own never lists a friendly square. */
  predicate SafeMoves(b: Board, p: Piece, r: seq<Square>) {
    && Distinct(r)
    && (forall i :: 0 <= i < |r| ==> InBounds(r[i]))
    && (p.kind != None ==> forall i :: 0 <= i < |r| ==> !Friendly(b, p.side, r[i]))
  }

  lemma BaseSafe(b: Board, p: Piece)
    requires p.kind == None
    ensures SafeMoves(b, p, BaseMoves(b, p))
  {
  }

  lemma PawnSafe(b: Board, p: Piece)
    requires InBounds(p.Pos())
    ensures SafeMoves(b, p, PawnMoves.GetMoves(b, p))
  {
    var r := PawnMoves.GetMoves(b, p);
    forall i | 0 <= i < |r|
      ensures InBounds(r[i]) && !Friendly(b, p.side, r[i])
    {
      assert r[i] in r;
      PawnMoves.Characterization(b, p, r[i]);
    }
  }

  lemma KnightSafe(b: Board, p: Piece)
    ensures SafeMoves(b, p, KnightMoves.GetMoves(b, p))
  {
    var r := KnightMoves.GetMoves(b, p);
    forall i | 0 <= i < |r|
      ensures InBounds(r[i]) && !Friendly(b, p.side, r[i])
    {
      assert r[i] in r;
    }
  }

  lemma KingSafe(b: Board, p: Piece)
    ensures SafeMoves(b, p, KingMoves.GetMoves(b, p))
  {
    var r := KingMoves.GetMoves(b, p);
    forall i | 0 <= i < |r|
      ensures InBounds(r[i]) && !Friendly(b, p.side, r[i])
    {
      assert r[i] in r;
    }
  }

  lemma BishopSafe(b: Board, p: Piece)
    requires InBounds(p.Pos())
    ensures SafeMoves(b, p, BishopMoves.GetMoves(b, p))
  {
    BishopMoves.NoDuplicates(b, p);
  }

  lemma RookSafe(b: Board, p: Piece)
    requires InBounds(p.Pos())
    ensures SafeMoves(b, p, RookMoves.GetMoves(b, p))
  {
    RookMoves.NoDuplicates(b, p);
  }

  lemma QueenSafe(b: Board, p: Piece)
    requires InBounds(p.Pos())
    ensures SafeMoves(b, p, QueenMoves.GetMoves(b, p))
  {
    QueenMoves.NoDuplicates(b, p);
  }

  /** A piece's move list, chosen by its kind: each prefab is taken to carry
      the subclass of the kind it is spawned as. A kind without an override
      uses the base list. */
  function GetMoves(b: Board, p: Piece): (r: seq<Square>)
    requires InBounds(p.Pos())
    ensures SafeMoves(b, p, r)
  {
    match p.kind
    case None => BaseSafe(b, p); BaseMoves(b, p)
    case Pawn => PawnSafe(b, p); PawnMoves.GetMoves(b, p)
    case Rook => RookSafe(b, p); RookMoves.GetMoves(b, p)
    case Knight => KnightSafe(b, p); KnightMoves.GetMoves(b, p)
    case Bishop => BishopSafe(b, p); BishopMoves.GetMoves(b, p)
    case Queen => QueenSafe(b, p); QueenMoves.GetMoves(b, p)
    case King => KingSafe(b, p); KingMoves.GetMoves(b, p)
  }

  /** The game: the grid, whose turn it is, the two captured lists, and the
      sides whose victory message is showing. The two messages are switched on
      independently and only a reset switches them off, so both can show. */
  datatype GameState = GameState(
    board: Board,
    whiteTurn: bool,
    deadWhite: seq<Piece>,
    deadBlack: seq<Piece>,
    winners: set<Side>)

  /** Every piece stands on the board and knows the square it stands on. */
  predicate WellFormed(b: Board) {
    forall s :: s in b ==> InBounds(s) && b[s].Pos() == s
  }

  /** `p` is the piece on its own square. */
  predicate Holds(b: Board, p: Piece) {
    p.Pos() in b && b[p.Pos()] == p
  }

  /** A freshly created piece: kind and side set, position fields still at their default of 0. */
  function SpawnPiece(kind: PieceType, side: Side): Piece {
    Piece(side, 0, 0, kind)
  }

  /** The back-rank kinds across files 0..7. */
  const BackRank: seq<PieceType> := [Rook, Knight, Bishop, Queen, King, Bishop, Knight, Rook]

  /** Places, on every file from `i` on, a White piece of the file's kind on
      `whiteRank` and a Black one on `blackRank`. The back ranks are sixteen
      explicit placements in the source and the pawns a loop over the files;
      both are this loop. */
  function Fill(b: Board, i: int, kinds: seq<PieceType>, whiteRank: int, blackRank: int): Board
    requires 0 <= i && |kinds| == Size
    decreases Size - i
  {
    if i >= Size then b
    else
      var b1 := b[(i, whiteRank) := SpawnPiece(kinds[i], White)][(i, blackRank) := SpawnPiece(kinds[i], Black)];
      Fill(b1, i + 1, kinds, whiteRank, blackRank)
  }

  const Pawns: seq<PieceType> := [Pawn, Pawn, Pawn, Pawn, Pawn, Pawn, Pawn, Pawn]

  /** The starting grid, before positions are written into the pieces. */
  function SpawnPieces(): Board {
    Fill(Fill(map[], 0, BackRank, 0, 7), 0, Pawns, 1, 6)
  }

  /** The cells the loop fills from file `i` on. */
  predicate Filled(i: int, whiteRank: int, blackRank: int, s: Square) {
    i <= s.0 < Size && (s.1 == whiteRank || s.1 == blackRank)
  }

  /** The loop adds exactly its cells. */
  lemma {:induction false} FillKeys(b: Board, i: int, kinds: seq<PieceType>, wr: int, br: int)
    requires 0 <= i <= Size && |kinds| == Size
    ensures forall s :: s in Fill(b, i, kinds, wr, br) <==> s in b || Filled(i, wr, br, s)
    decreases Size - i
  {
    if i < Size {
      var b1 := b[(i, wr) := SpawnPiece(kinds[i], White)][(i, br) := SpawnPiece(kinds[i], Black)];
      FillKeys(b1, i + 1, kinds, wr, br);
      assert forall s :: Filled(i, wr, br, s) <==> Filled(i + 1, wr, br, s) || s == (i, wr) || s == (i, br);
    }
  }

  /** Each filled cell holds a piece of its file's kind, White on `wr` and
      Black on `br`; every other square keeps its piece. */
  lemma {:induction false} FillValues(b: Board, i: int, kinds: seq<PieceType>, wr: int, br: int, s: Square)
    requires 0 <= i <= Size && |kinds| == Size && wr != br
    requires s in b || Filled(i, wr, br, s)
    ensures s in Fill(b, i, kinds, wr, br)
    ensures Fill(b, i, kinds, wr, br)[s] ==
      if Filled(i, wr, br, s) then SpawnPiece(kinds[s.0], if s.1 == wr then White else Black) else b[s]
    decreases Size - i
  {
    FillKeys(b, i, kinds, wr, br);
    if i < Size {
      var b1 := b[(i, wr) := SpawnPiece(kinds[i], White)][(i, br) := SpawnPiece(kinds[i], Black)];
      FillValues(b1, i + 1, kinds, wr, br, s);
    }
  }

  /** On a grid where its cells are empty, the loop adds two squares per file. */
  lemma {:induction false} FillSize(b: Board, i: int, kinds: seq<PieceType>, wr: int, br: int)
    requires 0 <= i <= Size && |kinds| == Size && wr != br
    requires forall s :: s in b ==> !Filled(i, wr, br, s)
    ensures |Fill(b, i, kinds, wr, br)| == |b| + 2 * (Size - i)
    decreases Size - i
  {
    if i < Size {
      var b1 := b[(i, wr) := SpawnPiece(kinds[i], White)][(i, br) := SpawnPiece(kinds[i], Black)];
      assert (i, wr) !in b && (i, br) !in b;
      assert |b1| == |b| + 2;
      FillSize(b1, i + 1, kinds, wr, br);
    }
  }

  /** The starting grid occupies ranks 0, 1, 6 and 7 of every file and nothing else. */
  lemma SpawnPiecesKeys()
    ensures forall s :: s in SpawnPieces() <==> InBounds(s) && (s.1 == 0 || s.1 == 1 || s.1 == 6 || s.1 == 7)
  {
    FillKeys(map[], 0, BackRank, 0, 7);
    FillKeys(Fill(map[], 0, BackRank, 0, 7), 0, Pawns, 1, 6);
  }

  /** The starting grid holds 32 pieces. */
  lemma SpawnPiecesSize()
    ensures |SpawnPieces()| == 32
  {
    var backs := Fill(map[], 0, BackRank, 0, 7);
    FillKeys(map[], 0, BackRank, 0, 7);
    FillSize(map[], 0, BackRank, 0, 7);
    FillSize(backs, 0, Pawns, 1, 6);
  }

  /** File `f` of grid `b` as the game starts: White's back-rank piece on
      rank 0 and Black's on rank 7, in the order Rook, Knight, Bishop, Queen,
      King, Bishop, Knight, Rook; a White pawn on rank 1 and a Black pawn on
      rank 6. With `placed` the pieces know their squares; without, they
      are as spawned. */
  predicate FileLaidOut(b: Board, f: int, placed: bool)
    requires 0 <= f < Size
  {
    && (f, 0) in b && b[(f, 0)] == Placed(BackRank[f], White, (f, 0), placed)
    && (f, 7) in b && b[(f, 7)] == Placed(BackRank[f], Black, (f, 7), placed)
    && (f, 1) in b && b[(f, 1)] == Placed(Pawn, White, (f, 1), placed)
    && (f, 6) in b && b[(f, 6)] == Placed(Pawn, Black, (f, 6), placed)
  }

  /** A spawned piece, with its position fields written in when `placed`. */
  function Placed(kind: PieceType, side: Side, s: Square, placed: bool): Piece {
    if placed then Piece(side, s.0, s.1, kind) else SpawnPiece(kind, side)
  }

  lemma SpawnPiecesFile(f: int)
    requires 0 <= f < Size
    ensures FileLaidOut(SpawnPieces(), f, false)
  {
    var backs := Fill(map[], 0, BackRank, 0, 7);
    FillValues(map[], 0, BackRank, 0, 7, (f, 0));
    FillValues(map[], 0, BackRank, 0, 7, (f, 7));
    FillValues(backs, 0, Pawns, 1, 6, (f, 0));
    FillValues(backs, 0, Pawns, 1, 6, (f, 7));
    FillValues(backs, 0, Pawns, 1, 6, (f, 1));
    FillValues(backs, 0, Pawns, 1, 6, (f, 6));
  }

  /** The whole starting grid: every file laid out, ranks 2 to 5 empty, 32 pieces. */
  lemma SpawnPiecesLayout()
    ensures forall f :: 0 <= f < Size ==> FileLaidOut(SpawnPieces(), f, false)
    ensures forall s :: s in SpawnPieces() <==> InBounds(s) && (s.1 == 0 || s.1 == 1 || s.1 == 6 || s.1 == 7)
    ensures |SpawnPieces()| == 32
  {
    SpawnPiecesKeys();
    SpawnPiecesSize();
    forall f | 0 <= f < Size
      ensures FileLaidOut(SpawnPieces(), f, false)
    {
      SpawnPiecesFile(f);
    }
  }

  /** Writes into every piece the square it stands on. */
  function SetAllPiecePositions(b: Board): (r: Board)
    ensures r.Keys == b.Keys
    ensures forall s :: s in r ==> r[s].Pos() == s && r[s].side == b[s].side && r[s].kind == b[s].kind
  {
    map s | s in b :: b[s].(x := s.0, y := s.1)
  }


  /** Clears the grid and the captured lists, gives the move to White, and
      lays the pieces out afresh. */
  function ResetButton(g: GameState): (r: GameState)
    ensures r.whiteTurn && r.deadWhite == [] && r.deadBlack == [] && r.winners == {}
  {
    var cleared := GameState(map[], true, [], [], {});
    cleared.(board := SetAllPiecePositions(SpawnPieces()))
  }

  /** Writing positions in turns a file laid out as spawned into one laid out as placed. */
  lemma PlaceFile(b: Board, f: int)
    requires 0 <= f < Size && FileLaidOut(b, f, false)
    ensures FileLaidOut(SetAllPiecePositions(b), f, true)
  {
  }

  /** The state when the board wakes up: 32 pieces, nothing captured, no
      victory shown, and White to move. */
  function Awake(): (g: GameState)
    ensures g.whiteTurn && g.deadWhite == [] && g.deadBlack == [] && g.winners == {}
    ensures |g.board| == 32
  {
    var sp := SpawnPieces();
    SpawnPiecesSize();
    var b := SetAllPiecePositions(sp);
    assert |b| == |b.Keys| == |sp.Keys| == |sp|;
    GameState(b, true, [], [], {})
  }

  /** At start-up every piece stands where the layout puts it and knows its
      square, and ranks 2 to 5 are empty. */
  lemma StartingPosition()
    ensures WellFormed(Awake().board)
    ensures forall f :: 0 <= f < Size ==> FileLaidOut(Awake().board, f, true)
    ensures forall s :: s in Awake().board <==> InBounds(s) && (s.1 == 0 || s.1 == 1 || s.1 == 6 || s.1 == 7)
  {
    SpawnPiecesLayout();
    var sp := SpawnPieces();
    var b := Awake().board;
    assert b == SetAllPiecePositions(sp);
    forall f | 0 <= f < Size
      ensures FileLaidOut(b, f, true)
    {
      PlaceFile(sp, f);
    }
  }

  /** Reset forgets the whole previous state: it yields the start-up state. */
  lemma ResetIsAwake(g: GameState)
    ensures ResetButton(g) == Awake()
  {
  }

  /** The result of a move request: whether it went through, and the state after it. */
  datatype MoveResult = MoveResult(moved: bool, state: GameState)

  /** Records a captured piece: it joins its own side's list, and taking a
      King switches on the other side's victory message. */
  function Kill(g: GameState, victim: Piece): GameState {
    if victim.side == White then
      g.(deadWhite := g.deadWhite + [victim],
         winners := if victim.kind == King then g.winners + {Black} else g.winners)
    else
      g.(deadBlack := g.deadBlack + [victim],
         winners := if victim.kind == King then g.winners + {White} else g.winners)
  }

  /** A message once switched on stays on: when each King is taken in turn,
      both sides' messages show, whichever was taken first. */
  lemma BothVictoriesShow(g: GameState, first: Piece, second: Piece)
    requires first.kind == King && second.kind == King && first.side != second.side
    ensures Kill(Kill(g, first), second).winners == g.winners + {White, Black}
  {
  }

  /** `after` is `before` with `p` moved onto `target` (position fields
      updated) and its old square emptied; every other square is as it was. */
  ghost predicate Relocated(before: Board, after: Board, p: Piece, target: Square) {
    && target in after && after[target] == p.(x := target.0, y := target.1)
    && p.Pos() !in after
    && forall s :: s != target && s != p.Pos() ==>
         (s in after <==> s in before) && (s in after ==> after[s] == before[s])
  }

  /** The captured-piece lists and the victory messages after a move onto
      `target`: a captured piece joins its own side's list, taking a King
      switches on the mover's message and leaves any other one showing, and a
      move onto an empty square changes none of them. */
  ghost predicate Buried(g: GameState, g': GameState, mover: Side, target: Square) {
    if target !in g.board then
      g'.deadWhite == g.deadWhite && g'.deadBlack == g.deadBlack && g'.winners == g.winners
    else
      var victim := g.board[target];
      && (victim.side == White ==> g'.deadWhite == g.deadWhite + [victim] && g'.deadBlack == g.deadBlack)
      && (victim.side == Black ==> g'.deadBlack == g.deadBlack + [victim] && g'.deadWhite == g.deadWhite)
      && g'.winners == (if victim.kind == King then g.winners + {mover} else g.winners)
  }

  /** Puts `p` on `target`, empties the square it came from, and writes the
      new square into its position. */
  function Relocate(b: Board, p: Piece, target: Square): (r: Board)
    requires p.Pos() != target
    ensures r.Keys == (b.Keys + {target}) - {p.Pos()}
    ensures Relocated(b, r, p, target)
  {
    var prev := p.Pos();
    var b1 := b[target := p] - {prev};
    b1[target := b1[target].(x := target.0, y := target.1)]
  }

  /** Moves the held piece to `target` if `target` is in the available list
      and does not hold a piece of the mover's side; otherwise refuses and
      changes nothing. A successful move captures, relocates and passes the turn. */
  function MovePiece(g: GameState, available: seq<Square>, target: Square, held: Piece): (r: MoveResult)
    requires target in available ==> InBounds(target)
    requires Holds(g.board, held)
    ensures r.moved <==> target in available && !Friendly(g.board, held.side, target)
    ensures !r.moved ==> r.state == g
    ensures r.moved ==> Relocated(g.board, r.state.board, held, target)
    ensures r.moved ==> r.state.whiteTurn == !g.whiteTurn
    ensures r.moved ==> Buried(g, r.state, held.side, target)
  {
    if target !in available then MoveResult(false, g)
    else if target in g.board && held.side == g.board[target].side then MoveResult(false, g)
    else
      var g1 := if target in g.board then Kill(g, g.board[target]) else g;
      MoveResult(true, g1.(board := Relocate(g1.board, held, target), whiteTurn := !g1.whiteTurn))
  }

  /** A successful move keeps every piece on the board and aware of its square. */
  lemma MovePreservesWellFormed(g: GameState, available: seq<Square>, target: Square, held: Piece)
    requires target in available ==> InBounds(target)
    requires Holds(g.board, held) && WellFormed(g.board)
    ensures WellFormed(MovePiece(g, available, target, held).state.board)
  {
  }

  /** Occupying `target` and vacating `prev` changes the number of occupied
      squares by one less when `target` was already occupied. */
  lemma RelocateCount(before: set<Square>, prev: Square, target: Square)
    requires prev in before && prev != target
    ensures |(before + {target}) - {prev}| == if target in before then |before| - 1 else |before|
  {
    if target in before {
      assert before + {target} == before;
    } else {
      assert |before + {target}| == |before| + 1;
    }
  }

  /** A move neither creates nor destroys pieces: whatever leaves the grid
      joins a captured list. */
  lemma MoveConservesPieces(g: GameState, available: seq<Square>, target: Square, held: Piece)
    requires target in available ==> InBounds(target)
    requires Holds(g.board, held)
    ensures var g' := MovePiece(g, available, target, held).state;
      |g'.board| + |g'.deadWhite| + |g'.deadBlack| == |g.board| + |g.deadWhite| + |g.deadBlack|
  {
    var r := MovePiece(g, available, target, held);
    if r.moved {
      RelocateCount(g.board.Keys, held.Pos(), target);
    }
  }

  /** What a click on square `s` picks up: the piece there, with its move
      list, when it belongs to the side whose turn it is; otherwise nothing. */
  datatype Selection = NothingHeld | Held(piece: Piece, moves: seq<Square>)

  function PickUp(g: GameState, s: Square): (sel: Selection)
    requires WellFormed(g.board)
    ensures sel.Held? <==> s in g.board && (g.board[s].side == White <==> g.whiteTurn)
    ensures sel.Held? ==> Holds(g.board, sel.piece) && sel.piece.Pos() == s
    ensures sel.Held? ==> sel.moves == GetMoves(g.board, sel.piece)
    ensures sel.Held? ==> forall i :: 0 <= i < |sel.moves| ==> InBounds(sel.moves[i])
  {
    if s in g.board && (g.board[s].side == White <==> g.whiteTurn)
    then Held(g.board[s], GetMoves(g.board, g.board[s]))
    else NothingHeld
  }

  /** One turn: pick up the piece on `from`, release it on `to`. A turn
      that goes through moves a piece of the side to move to a square of its
      move list, flips the turn, captures only a piece of the other side,
      keeps the grid well formed and conserves the number of pieces. */
  function Play(g: GameState, from: Square, to: Square): (r: MoveResult)
    requires WellFormed(g.board)
    ensures WellFormed(r.state.board)
    ensures |r.state.board| + |r.state.deadWhite| + |r.state.deadBlack| ==
            |g.board| + |g.deadWhite| + |g.deadBlack|
    ensures !r.moved ==> r.state == g
    ensures r.moved ==>
      && from in g.board && (g.board[from].side == White <==> g.whiteTurn)
      && to != from && to in GetMoves(g.board, g.board[from])
      && !Friendly(g.board, g.board[from].side, to)
      && r.state.whiteTurn == !g.whiteTurn
      && Relocated(g.board, r.state.board, g.board[from], to)
      && Buried(g, r.state, g.board[from].side, to)
    ensures r.moved && g.whiteTurn ==> r.state.deadWhite == g.deadWhite
    ensures r.moved && !g.whiteTurn ==> r.state.deadBlack == g.deadBlack
  {
    match PickUp(g, from)
    case NothingHeld => MoveResult(false, g)
    case Held(p, moves) =>
      MovePreservesWellFormed(g, moves, to, p);
      MoveConservesPieces(g, moves, to, p);
      MovePiece(g, moves, to, p)
  }

  /** A sequence of turns, each a (from, to) pair of clicks. */
  function Replay(g: GameState, turns: seq<(Square, Square)>): (r: GameState)
    requires WellFormed(g.board)
    ensures WellFormed(r.board)
    ensures |r.board| + |r.deadWhite| + |r.deadBlack| == |g.board| + |g.deadWhite| + |g.deadBlack|
    ensures g.winners <= r.winners
    decreases |turns|
  {
    if |turns| == 0 then g
    else Replay(Play(g, turns[0].0, turns[0].1).state, turns[1..])
  }

  /** However a game from start-up goes, its 32 pieces are all either on the
      grid or in a captured list, and every piece on the grid knows its square. */
  lemma GameKeepsAllPieces(turns: seq<(Square, Square)>)
    ensures WellFormed(Awake().board)
    ensures var g := Replay(Awake(), turns);
      WellFormed(g.board) && |g.board| + |g.deadWhite| + |g.deadBlack| == 32
  {
    StartingPosition();
  }

  /** Linear search of a move list for a square. */
  method ContainsValidMove(available: seq<Square>, position: Square) returns (found: bool)
    ensures found <==> position in available
  {
    var i := 0;
    while i < |available|
      invariant 0 <= i <= |available|
      invariant position !in available[..i]
    {
      if available[i] == position {
        return true;
      }
      i := i + 1;
    }
    return false;
  }
}
