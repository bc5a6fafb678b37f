/** Rook move generation (Pieces/Rook.cs): four orthogonal ray walks. The
    source's `continue` on the rook's own coordinate never fires, since each
    loop starts one square away from the rook. */
module RookMoves {
  import opened Pieces
  import opened Rays

  /** The walk order of the source: up the file, down the file, right along the rank, left along the rank. */
  const Orthogonals: seq<Dir> := [Dir(0, 1), Dir(0, -1), Dir(1, 0), Dir(-1, 0)]

  function GetMoves(b: Board, p: Piece): (r: seq<Square>)
    requires InBounds(p.Pos())
    ensures forall i :: 0 <= i < |r| ==> InBounds(r[i]) && !Friendly(b, p.side, r[i])
  {
    RaysAlongSafe(b, p.side, p.Pos(), Orthogonals);
    RaysAlong(b, p.side, p.Pos(), Orthogonals)
  }

  /** A destination is exactly a square sharing one coordinate with the rook,
      on the board, with every square strictly between empty, and either
      empty or held by an enemy (which is then the first occupied square). */
  lemma Characterization(b: Board, p: Piece, t: Square)
    requires InBounds(p.Pos())
    ensures t in GetMoves(b, p) <==>
      Orthogonal(p.Pos(), t) && InBounds(t) && PathClear(b, p.Pos(), t) && !Friendly(b, p.side, t)
  {
    RaysAlongIff(b, p.side, p.Pos(), Orthogonals, t);
  }

  /** The four rays are disjoint, so no destination is listed twice. */
  lemma NoDuplicates(b: Board, p: Piece)
    requires InBounds(p.Pos())
    ensures Distinct(GetMoves(b, p))
  {
    RaysAlongDistinct(b, p.side, p.Pos(), Orthogonals);
  }
}
