/** King move generation (Pieces/King.cs): the eight unit offsets. */
module KingMoves {
  import opened Pieces
  import opened Jumps

  /** The candidate squares in the source's order: the four orthogonal neighbours, then the four diagonal ones. */
  function Candidates(o: Square): seq<Square> {
    var (x, y) := o;
    [(x, y + 1), (x, y - 1), (x + 1, y), (x - 1, y),
     (x + 1, y + 1), (x - 1, y + 1), (x + 1, y - 1), (x - 1, y - 1)]
  }

  /** A destination is exactly a square at Chebyshev distance one that is on the board and empty or
      enemy-held; each appears once, so there are at most eight. */
  function GetMoves(b: Board, p: Piece): (r: seq<Square>)
    ensures forall t :: t in r <==> Dist(p.Pos(), t) == 1 && InBounds(t) && !Friendly(b, p.side, t)
    ensures Distinct(r) && |r| <= 8
  {
    assert Distinct(Candidates(p.Pos()));
    Keep(b, p.side, Candidates(p.Pos()))
  }
}
