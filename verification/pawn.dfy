/** Pawn move generation and the pawn's special-move classifier (Pieces/Pawn.cs). */
module PawnMoves {
  import opened Pieces

  /** The rank step of a forward move: up the board for White, down for Black. */
  function Direction(side: Side): (dir: int)
    ensures dir == 1 || dir == -1
    ensures dir == 1 <==> side == White
  {
    if side == White then 1 else -1
  }

  /** The rank from which the double step is offered. */
  function StartRank(side: Side): int {
    if side == White then 1 else 6
  }

  /** The square as a capture destination: listed when an enemy holds it. */
  function Capture(b: Board, side: Side, s: Square): seq<Square> {
    if Enemy(b, side, s) then [s] else []
  }

  /** The straight moves: the square ahead when it is empty, and the square
      two ahead from the start rank when both squares are empty. */
  function Advances(b: Board, p: Piece): (r: seq<Square>)
    requires InBounds(p.Pos()) && InBounds((p.x, p.y + Direction(p.side)))
    ensures forall t :: t in r <==>
      || (t == (p.x, p.y + Direction(p.side)) && t !in b)
      || (p.y == StartRank(p.side) && t == (p.x, p.y + 2 * Direction(p.side)) &&
          (p.x, p.y + Direction(p.side)) !in b && t !in b)
    ensures Distinct(r) && |r| <= 2
  {
    var dir := Direction(p.side);
    var (x, y) := (p.x, p.y);
    var ahead := y + dir;
    var single := if (x, ahead) !in b then [(x, ahead)] else [];
    var whiteDouble :=
      if y == 1 && p.side == White && (x, y + 2 * dir) !in b && (x, y + dir) !in b
      then [(x, y + 2 * dir)] else [];
    var blackDouble :=
      if y == 6 && p.side == Black && (x, y + 2 * dir) !in b && (x, y + dir) !in b
      then [(x, y + 2 * dir)] else [];
    single + whiteDouble + blackDouble
  }

  /** The diagonal captures: both forward diagonals off the edge files, only
      the inward one on an edge file, each listed when an enemy holds it. */
  function Captures(b: Board, p: Piece): (r: seq<Square>)
    requires InBounds(p.Pos()) && InBounds((p.x, p.y + Direction(p.side)))
    ensures forall t :: t in r <==>
      t.1 == p.y + Direction(p.side) && Abs(t.0 - p.x) == 1 && InBounds(t) && Enemy(b, p.side, t)
    ensures Distinct(r) && |r| <= 2
  {
    var (x, ahead) := (p.x, p.y + Direction(p.side));
    var inner :=
      if x > 0 && x < Size - 1
      then Capture(b, p.side, (x + 1, ahead)) + Capture(b, p.side, (x - 1, ahead)) else [];
    var rightEdge := if x == Size - 1 then Capture(b, p.side, (x - 1, ahead)) else [];
    var leftEdge := if x == 0 then Capture(b, p.side, (x + 1, ahead)) else [];
    inner + rightEdge + leftEdge
  }

  /** The destinations of a pawn: its advances followed by its captures, and
      nothing at all when the rank ahead is off the board. No square is
      listed twice, so there are at most four. */
  function GetMoves(b: Board, p: Piece): (r: seq<Square>)
    requires InBounds(p.Pos())
    ensures !InBounds((p.x, p.y + Direction(p.side))) ==> r == []
    ensures Distinct(r) && |r| <= 4
  {
    var ahead := p.y + Direction(p.side);
    if !(ahead > -1 && ahead < Size) then []
    else
      var adv := Advances(b, p);
      var cap := Captures(b, p);
      assert forall t :: t in adv ==> t !in cap;
      DistinctConcat(adv, cap);
      adv + cap
  }

  /** A square is a pawn's destination exactly when it is the empty square
      ahead, the double step from the start rank over two empty squares, or
      an enemy-held forward diagonal. */
  lemma Characterization(b: Board, p: Piece, t: Square)
    requires InBounds(p.Pos())
    ensures t in GetMoves(b, p) <==>
      || (t == (p.x, p.y + Direction(p.side)) && InBounds(t) && t !in b)
      || (p.y == StartRank(p.side) && t == (p.x, p.y + 2 * Direction(p.side)) &&
          (p.x, p.y + Direction(p.side)) !in b && t !in b)
      || (t.1 == p.y + Direction(p.side) && Abs(t.0 - p.x) == 1 && InBounds(t) && Enemy(b, p.side, t))
  {
    if InBounds((p.x, p.y + Direction(p.side))) {
      assert GetMoves(b, p) == Advances(b, p) + Captures(b, p);
    }
  }

  /** The classification a pawn move can carry. */
  datatype SpecialMove = None | EnPassant | Promotion

  /** One entry of a move list: where a piece came from and where it went. */
  datatype MoveRecord = MoveRecord(from: Square, to: Square)

  /** The classification together with the (possibly extended) move list. */
  datatype SpecialResult = SpecialResult(kind: SpecialMove, moves: seq<Square>)

  /** The pawn stands one rank short of its last rank. */
  predicate OnPromotionRank(p: Piece) {
    (p.side == White && p.y == 6) || (p.side == Black && p.y == 1)
  }

  /** Move `m` left an enemy pawn, after a two-rank move, on the square
      beside the pawn on its own rank. */
  predicate EnPassantVictim(b: Board, p: Piece, m: MoveRecord) {
    && m.to in b
    && b[m.to].kind == PieceType.Pawn
    && Abs(m.from.1 - m.to.1) == 2
    && b[m.to].side != p.side
    && m.to.1 == p.y
    && Abs(m.to.0 - p.x) == 1
  }

  /** Flags promotion, or else detects en passant from the last entry of the
      move list and appends its destination: the forward diagonal onto the
      victim's file. The list is otherwise left as it was. */
  function GetSpecialMoves(b: Board, p: Piece, moveList: seq<MoveRecord>, available: seq<Square>): (r: SpecialResult)
    requires |moveList| > 0 && !OnPromotionRank(p) ==> moveList[|moveList| - 1].to in b
    ensures r.kind == Promotion <==> OnPromotionRank(p)
    ensures r.kind == EnPassant <==>
      !OnPromotionRank(p) && |moveList| > 0 && EnPassantVictim(b, p, moveList[|moveList| - 1])
    ensures r.kind == EnPassant ==>
      r.moves == available + [(moveList[|moveList| - 1].to.0, p.y + Direction(p.side))]
    ensures r.kind != EnPassant ==> r.moves == available
  {
    var dir := Direction(p.side);
    if (p.side == White && p.y == 6) || (p.side == Black && p.y == 1) then
      SpecialResult(Promotion, available)
    else if |moveList| > 0 then
      var last := moveList[|moveList| - 1];
      if b[last.to].kind == PieceType.Pawn && Abs(last.from.1 - last.to.1) == 2
         && b[last.to].side != p.side && last.to.1 == p.y then
        if last.to.0 == p.x + 1 then SpecialResult(EnPassant, available + [(p.x + 1, p.y + dir)])
        else if last.to.0 == p.x - 1 then SpecialResult(EnPassant, available + [(p.x - 1, p.y + dir)])
        else SpecialResult(SpecialMove.None, available)
      else SpecialResult(SpecialMove.None, available)
    else SpecialResult(SpecialMove.None, available)
  }

  /** The square en passant adds is a forward diagonal of the pawn, directly
      past the victim, and every earlier entry of the list is kept. */
  lemma EnPassantTarget(b: Board, p: Piece, moveList: seq<MoveRecord>, available: seq<Square>)
    requires |moveList| > 0 && !OnPromotionRank(p) ==> moveList[|moveList| - 1].to in b
    requires GetSpecialMoves(b, p, moveList, available).kind == EnPassant
    ensures var r := GetSpecialMoves(b, p, moveList, available);
      var e := r.moves[|r.moves| - 1];
      var victim := moveList[|moveList| - 1].to;
      && |r.moves| == |available| + 1
      && r.moves[..|available|] == available
      && Dist(p.Pos(), e) == 1 && e.1 == p.y + Direction(p.side)
      && e == (victim.0, victim.1 + Direction(p.side))
  {
  }
}
