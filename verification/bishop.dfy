/** Bishop move generation (Pieces/Bishop.cs): four diagonal ray walks. */
module BishopMoves {
  import opened Pieces
  import opened Rays

  /** The walk order of the source: up-right, down-right, down-left, up-left. */
  const Diagonals: seq<Dir> := [Dir(1, 1), Dir(1, -1), Dir(-1, -1), Dir(-1, 1)]

  function GetMoves(b: Board, p: Piece): (r: seq<Square>)
    requires InBounds(p.Pos())
    ensures forall i :: 0 <= i < |r| ==> InBounds(r[i]) && !Friendly(b, p.side, r[i])
  {
    RaysAlongSafe(b, p.side, p.Pos(), Diagonals);
    RaysAlong(b, p.side, p.Pos(), Diagonals)
  }

  /** A destination is exactly a square on a diagonal through the bishop,
      on the board, with every square strictly between empty, and either
      empty or held by an enemy (which is then the first occupied square). */
  lemma Characterization(b: Board, p: Piece, t: Square)
    requires InBounds(p.Pos())
    ensures t in GetMoves(b, p) <==>
      Diagonal(p.Pos(), t) && InBounds(t) && PathClear(b, p.Pos(), t) && !Friendly(b, p.side, t)
  {
    RaysAlongIff(b, p.side, p.Pos(), Diagonals, t);
  }

  /** The four rays are disjoint, so no destination is listed twice. */
  lemma NoDuplicates(b: Board, p: Piece)
    requires InBounds(p.Pos())
    ensures Distinct(GetMoves(b, p))
  {
    RaysAlongDistinct(b, p.side, p.Pos(), Diagonals);
  }
}
