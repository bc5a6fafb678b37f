/** Pieces, squares and the board they stand on, and the geometry shared by
    the move generators. */
module Pieces {

  /** The two sides. The source stores them as the integers 0 (White) and 1 (Black). */
  datatype Side = White | Black {
    function Other(): (s: Side)
      ensures s != this
    {
      if White? then Black else White
    }
  }

  /** The kinds of piece, in the order of the enumeration's integer values. */
  datatype PieceType = None | Pawn | Rook | Knight | Bishop | Queen | King {

    /** The integer the enumeration assigns to the kind. */
    function Value(): (n: int)
      ensures 0 <= n <= 6
      ensures n == 0 <==> None?
    {
      match this
      case None => 0
      case Pawn => 1
      case Rook => 2
      case Knight => 3
      case Bishop => 4
      case Queen => 5
      case King => 6
    }
  }

  /** The kind an integer in 0..6 stands for. */
  function PieceTypeOf(n: int): (t: PieceType)
    requires 0 <= n <= 6
    ensures t.Value() == n
  {
    if n == 0 then None
    else if n == 1 then Pawn
    else if n == 2 then Rook
    else if n == 3 then Knight
    else if n == 4 then Bishop
    else if n == 5 then Queen
    else King
  }

  /** Distinct kinds have distinct values, so the enumeration and 0..6 are in bijection. */
  lemma PieceTypeValues(t: PieceType)
    ensures PieceTypeOf(t.Value()) == t
  {
  }

  /** A (file, rank) pair. */
  type Square = (int, int)

  /** A piece: its side, the square it believes it is on, and its kind. */
  datatype Piece = Piece(side: Side, x: int, y: int, kind: PieceType) {
    function Pos(): Square { (x, y) }
  }

  /** The occupancy grid: a square absent from the map is an empty cell. */
  type Board = map<Square, Piece>

  /** Number of files and of ranks. */
  const Size: int := 8

  predicate InBounds(s: Square) {
    0 <= s.0 < Size && 0 <= s.1 < Size
  }

  /** The square holds a piece of `side`. */
  predicate Friendly(b: Board, side: Side, s: Square) {
    s in b && b[s].side == side
  }

  /** The square holds a piece of the other side. */
  predicate Enemy(b: Board, side: Side, s: Square) {
    s in b && b[s].side != side
  }

  predicate Distinct<T(==)>(s: seq<T>) {
    forall i, j :: 0 <= i < j < |s| ==> s[i] != s[j]
  }

  lemma DistinctConcat<T>(a: seq<T>, b: seq<T>)
    requires Distinct(a) && Distinct(b)
    requires forall t :: t in a ==> t !in b
    ensures Distinct(a + b)
  {
    forall i, j | 0 <= i < j < |a + b|
      ensures (a + b)[i] != (a + b)[j]
    {
      if j < |a| {
      } else if i >= |a| {
        assert (a + b)[i] == b[i - |a|] && (a + b)[j] == b[j - |a|];
      } else {
        assert (a + b)[i] == a[i] && (a + b)[j] == b[j - |a|];
        assert a[i] in a;
      }
    }
  }

  function Abs(n: int): (r: nat)
    ensures r == n || r == -n
  {
    if n < 0 then -n else n
  }

  function Sign(n: int): (r: int)
    ensures Scale(Abs(n), r) == n
    ensures -1 <= r <= 1 && (r == 0 <==> n == 0)
  {
    if n < 0 then -1 else if n > 0 then 1 else 0
  }

  /** `n` times a unit `c` in -1..1, written without multiplication. */
  function Scale(n: int, c: int): int {
    if c > 0 then n else if c < 0 then -n else 0
  }

  /** Chebyshev (king-move) distance between two squares. */
  function Dist(a: Square, b: Square): (r: nat)
    ensures r >= Abs(b.0 - a.0) && r >= Abs(b.1 - a.1)
    ensures r == Abs(b.0 - a.0) || r == Abs(b.1 - a.1)
  {
    var dx := Abs(b.0 - a.0);
    var dy := Abs(b.1 - a.1);
    if dx < dy then dy else dx
  }

  /** `t` lies on a diagonal through `o` and is not `o`. */
  predicate Diagonal(o: Square, t: Square) {
    Abs(t.0 - o.0) == Abs(t.1 - o.1) > 0
  }

  /** `t` shares exactly one coordinate with `o`. */
  predicate Orthogonal(o: Square, t: Square) {
    (t.0 == o.0) != (t.1 == o.1)
  }

  /** The `j`-th square on the straight path from `o` towards `t`. */
  function Between(o: Square, t: Square, j: int): Square {
    (o.0 + Scale(j, Sign(t.0 - o.0)), o.1 + Scale(j, Sign(t.1 - o.1)))
  }

  /** Every square strictly between `o` and `t` is empty. */
  predicate PathClear(b: Board, o: Square, t: Square) {
    forall j :: 0 < j < Dist(o, t) ==> Between(o, t, j) !in b
  }

  /** The move list of the base class, used by a piece whose kind has no
      override of its own: the four centre squares, whatever the board and
      wherever the piece stands. */
  function BaseMoves(b: Board, p: Piece): (r: seq<Square>)
    ensures |r| == 4 && Distinct(r)
    ensures forall s :: s in r <==> 3 <= s.0 <= 4 && 3 <= s.1 <= 4
    ensures forall i :: 0 <= i < |r| ==> InBounds(r[i])
  {
    [(3, 3), (3, 4), (4, 3), (4, 4)]
  }

  /** The base move list depends on neither the board nor the piece. */
  lemma BaseMovesIgnoreInputs(b1: Board, p1: Piece, b2: Board, p2: Piece)
    ensures BaseMoves(b1, p1) == BaseMoves(b2, p2)
    ensures BaseMoves(b1, p1) == [(3, 3), (3, 4), (4, 3), (4, 4)]
  {
  }
}
