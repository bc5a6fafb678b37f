/** Queen move generation (Pieces/Queen.cs): the source repeats the four
    bishop loops and then the four rook loops. */
module QueenMoves {
  import opened Pieces
  import opened Rays
  import BishopMoves
  import RookMoves

  /** The eight walks in the source's order. */
  const Directions: seq<Dir> :=
    [Dir(1, 1), Dir(1, -1), Dir(-1, -1), Dir(-1, 1), Dir(0, 1), Dir(0, -1), Dir(1, 0), Dir(-1, 0)]

  function GetMoves(b: Board, p: Piece): (r: seq<Square>)
    requires InBounds(p.Pos())
    ensures forall i :: 0 <= i < |r| ==> InBounds(r[i]) && !Friendly(b, p.side, r[i])
  {
    RaysAlongSafe(b, p.side, p.Pos(), Directions);
    RaysAlong(b, p.side, p.Pos(), Directions)
  }

  /** The queen's list is the bishop's list followed by the rook's list. */
  lemma BishopThenRook(b: Board, p: Piece)
    requires InBounds(p.Pos())
    ensures GetMoves(b, p) == BishopMoves.GetMoves(b, p) + RookMoves.GetMoves(b, p)
  {
    assert Directions == BishopMoves.Diagonals + RookMoves.Orthogonals;
    RaysAlongAppend(b, p.side, p.Pos(), BishopMoves.Diagonals, RookMoves.Orthogonals);
  }

  /** A destination is exactly a square on a rank, file or diagonal through
      the queen, on the board, reached over empty squares, and not friendly. */
  lemma Characterization(b: Board, p: Piece, t: Square)
    requires InBounds(p.Pos())
    ensures t in GetMoves(b, p) <==>
      (Diagonal(p.Pos(), t) || Orthogonal(p.Pos(), t)) &&
      InBounds(t) && PathClear(b, p.Pos(), t) && !Friendly(b, p.side, t)
  {
    BishopThenRook(b, p);
    BishopMoves.Characterization(b, p, t);
    RookMoves.Characterization(b, p, t);
  }

  /** No destination is listed twice: the bishop part and the rook part are
      disjoint because no square is both diagonal and orthogonal to another. */
  lemma NoDuplicates(b: Board, p: Piece)
    requires InBounds(p.Pos())
    ensures Distinct(GetMoves(b, p))
  {
    BishopThenRook(b, p);
    BishopMoves.NoDuplicates(b, p);
    RookMoves.NoDuplicates(b, p);
    forall t | t in BishopMoves.GetMoves(b, p)
      ensures t !in RookMoves.GetMoves(b, p)
    {
      BishopMoves.Characterization(b, p, t);
      RookMoves.Characterization(b, p, t);
    }
    DistinctConcat(BishopMoves.GetMoves(b, p), RookMoves.GetMoves(b, p));
  }
}
