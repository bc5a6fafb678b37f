/** Knight move generation (Pieces/Knight.cs): the eight L-shaped offsets. */
module KnightMoves {
  import opened Pieces
  import opened Jumps

  /** The candidate squares in the source's order. */
  function Candidates(o: Square): seq<Square> {
    var (x, y) := o;
    [(x + 2, y + 1), (x + 1, y + 2),
     (x - 2, y + 1), (x - 1, y + 2),
     (x + 2, y - 1), (x + 1, y - 2),
     (x - 2, y - 1), (x - 1, y - 2)]
  }

  /** `t` is a knight's jump away from `o`. */
  predicate Jump(o: Square, t: Square) {
    (Abs(t.0 - o.0) == 1 && Abs(t.1 - o.1) == 2) || (Abs(t.0 - o.0) == 2 && Abs(t.1 - o.1) == 1)
  }

  /** A destination is exactly a knight's jump that is on the board and empty or
      enemy-held; each appears once, so there are at most eight. */
  function GetMoves(b: Board, p: Piece): (r: seq<Square>)
    ensures forall t :: t in r <==> Jump(p.Pos(), t) && InBounds(t) && !Friendly(b, p.side, t)
    ensures Distinct(r) && |r| <= 8
  {
    assert Distinct(Candidates(p.Pos()));
    Keep(b, p.side, Candidates(p.Pos()))
  }
}
