/** The ray walk shared by the Bishop, Rook and Queen move generators: every
    one of their loops steps away from the piece in a fixed direction, adds
    empty squares, adds an enemy-held square and stops there, and stops
    without adding at a friendly piece or at the edge of the board. */
module Rays {
  import opened Pieces

  /** A unit step along a rank, a file or a diagonal. */
  datatype Dir = Dir(dx: int, dy: int) {
    predicate Unit() {
      -1 <= dx <= 1 && -1 <= dy <= 1 && (dx != 0 || dy != 0)
    }
  }

  /** The square `n` steps from `o` in direction `d`. */
  function Step(o: Square, d: Dir, n: int): Square {
    (o.0 + Scale(n, d.dx), o.1 + Scale(n, d.dy))
  }

  /** The neighbour of `s` in direction `d`. */
  function Next(s: Square, d: Dir): Square {
    (s.0 + d.dx, s.1 + d.dy)
  }

  /** An upper bound on the steps left before the walk leaves the board. */
  function Reach(s: Square, d: Dir): int {
    (if d.dx > 0 then Size - s.0 else if d.dx < 0 then s.0 + 1 else 0) +
    (if d.dy > 0 then Size - s.1 else if d.dy < 0 then s.1 + 1 else 0)
  }

  /** The walk from square `s` onwards: empty squares are listed and the walk
      goes on; an enemy-held square is listed and ends it; a friendly piece or
      the edge of the board ends it without listing. */
  function Walk(b: Board, side: Side, s: Square, d: Dir): seq<Square>
    requires d.Unit()
    decreases Reach(s, d)
  {
    if !InBounds(s) then []
    else if s !in b then [s] + Walk(b, side, Next(s, d), d)
    else if b[s].side != side then [s]
    else []
  }

  /** One step on from `s`, `i - 1` more steps are `i` steps from `s`. */
  lemma StepShift(s: Square, d: Dir, i: int)
    requires d.Unit()
    ensures Step(Next(s, d), d, i - 1) == Step(s, d, i)
  {
  }

  lemma StepZero(s: Square, d: Dir)
    ensures Step(s, d, 0) == s
  {
  }

  /** The `i`-th square a walk lists is `i` steps from its start. */
  lemma {:induction false} WalkSteps(b: Board, side: Side, s: Square, d: Dir)
    requires d.Unit()
    ensures forall i :: 0 <= i < |Walk(b, side, s, d)| ==> Walk(b, side, s, d)[i] == Step(s, d, i)
    decreases Reach(s, d)
  {
    var r := Walk(b, side, s, d);
    StepZero(s, d);
    if InBounds(s) && s !in b {
      var rest := Walk(b, side, Next(s, d), d);
      WalkUnfold(b, side, s, d);
      WalkSteps(b, side, Next(s, d), d);
      forall i | 0 < i < |r|
        ensures r[i] == Step(s, d, i)
      {
        assert r[i] == rest[i - 1];
        StepShift(s, d, i);
      }
    }
  }

  /** Every square a walk lists is on the board and not held by the walker's side. */
  lemma {:induction false} WalkSafe(b: Board, side: Side, s: Square, d: Dir)
    requires d.Unit()
    ensures forall t :: t in Walk(b, side, s, d) ==> InBounds(t) && !Friendly(b, side, t)
    decreases Reach(s, d)
  {
    if InBounds(s) && s !in b {
      WalkUnfold(b, side, s, d);
      WalkSafe(b, side, Next(s, d), d);
    }
  }

  /** The ray of a piece of `side` standing on `o`: the walk from its neighbour in direction `d`. */
  function Ray(b: Board, side: Side, o: Square, d: Dir): seq<Square>
    requires d.Unit()
  {
    Walk(b, side, Step(o, d, 1), d)
  }

  /** `t` is `n` steps from `o` along `d`, on the board, not friendly, and the
      steps from `k` up to it are empty. */
  predicate Reached(b: Board, side: Side, o: Square, d: Dir, k: int, n: int, t: Square) {
    k <= n && t == Step(o, d, n) && InBounds(t) && !Friendly(b, side, t) &&
    forall j :: k <= j < n ==> Step(o, d, j) !in b
  }

  lemma StepNext(o: Square, d: Dir, k: int)
    requires d.Unit()
    ensures Step(o, d, k + 1) == Next(Step(o, d, k), d)
  {
  }

  /** A square between two on-board squares of a line is on the board. */
  lemma StepConvex(o: Square, d: Dir, n: int, j: int)
    requires d.Unit() && 0 <= j <= n
    requires InBounds(o) && InBounds(Step(o, d, n))
    ensures InBounds(Step(o, d, j))
  {
  }

  /** A square `n >= 1` steps along `d` lies `n` away in direction `d`, and
      the straight path towards it is the walk along `d`. */
  lemma StepGeometry(o: Square, d: Dir, n: int)
    requires d.Unit() && n >= 1
    ensures Dist(o, Step(o, d, n)) == n
    ensures Sign(Step(o, d, n).0 - o.0) == d.dx && Sign(Step(o, d, n).1 - o.1) == d.dy
    ensures forall j :: Between(o, Step(o, d, n), j) == Step(o, d, j)
  {
  }

  /** Past an empty on-board square the walk goes on from the next square. */
  lemma WalkUnfold(b: Board, side: Side, s: Square, d: Dir)
    requires d.Unit() && InBounds(s) && s !in b
    ensures Walk(b, side, s, d) == [s] + Walk(b, side, Next(s, d), d)
  {
  }

  lemma WalkEmpty(b: Board, side: Side, o: Square, d: Dir, k: int)
    requires d.Unit() && InBounds(Step(o, d, k)) && Step(o, d, k) !in b
    ensures Walk(b, side, Step(o, d, k), d) == [Step(o, d, k)] + Walk(b, side, Step(o, d, k + 1), d)
  {
    StepNext(o, d, k);
    WalkUnfold(b, side, Step(o, d, k), d);
  }

  lemma ReachedExtend(b: Board, side: Side, o: Square, d: Dir, k: int, n: int, t: Square)
    requires Step(o, d, k) !in b && Reached(b, side, o, d, k + 1, n, t)
    ensures Reached(b, side, o, d, k, n, t)
  {
  }

  /** A walk that lists its first square lists an on-board, non-friendly square. */
  lemma WalkHead(b: Board, side: Side, o: Square, d: Dir, k: int)
    requires d.Unit() && Step(o, d, k) in Walk(b, side, Step(o, d, k), d)
    ensures Reached(b, side, o, d, k, k, Step(o, d, k))
  {
  }

  /** Any other square of the walk lies past an empty first square. */
  lemma WalkTail(b: Board, side: Side, o: Square, d: Dir, k: int, t: Square)
    requires d.Unit() && t in Walk(b, side, Step(o, d, k), d) && t != Step(o, d, k)
    ensures InBounds(Step(o, d, k)) && Step(o, d, k) !in b
    ensures t in Walk(b, side, Step(o, d, k + 1), d)
  {
    assert InBounds(Step(o, d, k)) && Step(o, d, k) !in b;
    WalkEmpty(b, side, o, d, k);
  }

  /** Every square of the walk from step `k` is reached over empty squares from step `k`. */
  lemma {:induction false} WalkSound(b: Board, side: Side, o: Square, d: Dir, k: int, t: Square)
    requires d.Unit() && k >= 1
    requires t in Walk(b, side, Step(o, d, k), d)
    ensures exists n :: Reached(b, side, o, d, k, n, t)
    decreases Reach(Step(o, d, k), d)
  {
    if t == Step(o, d, k) {
      WalkHead(b, side, o, d, k);
    } else {
      WalkTail(b, side, o, d, k, t);
      StepNext(o, d, k);
      WalkSound(b, side, o, d, k + 1, t);
      var n :| Reached(b, side, o, d, k + 1, n, t);
      ReachedExtend(b, side, o, d, k, n, t);
    }
  }

  /** Every square reached over empty squares from step `k` is on the walk from step `k`. */
  lemma {:induction false} WalkComplete(b: Board, side: Side, o: Square, d: Dir, k: int, n: int, t: Square)
    requires d.Unit() && k >= 1 && InBounds(o)
    requires Reached(b, side, o, d, k, n, t)
    ensures t in Walk(b, side, Step(o, d, k), d)
    decreases n - k
  {
    var s := Step(o, d, k);
    StepConvex(o, d, n, k);
    if n > k {
      assert s !in b;
      WalkEmpty(b, side, o, d, k);
      assert Reached(b, side, o, d, k + 1, n, t);
      WalkComplete(b, side, o, d, k + 1, n, t);
    }
  }

  /** A square is on the ray from `o` along `d` exactly when it lies in that
      direction, is on the board, is reached over empty squares and is not
      friendly. */
  lemma RayIff(b: Board, side: Side, o: Square, d: Dir, t: Square)
    requires d.Unit() && InBounds(o)
    ensures t in Ray(b, side, o, d) <==>
      Dist(o, t) >= 1 && t == Step(o, d, Dist(o, t)) &&
      InBounds(t) && PathClear(b, o, t) && !Friendly(b, side, t)
  {
    if Dist(o, t) >= 1 && t == Step(o, d, Dist(o, t)) {
      StepGeometry(o, d, Dist(o, t));
      if InBounds(t) && PathClear(b, o, t) && !Friendly(b, side, t) {
        assert Reached(b, side, o, d, 1, Dist(o, t), t);
        WalkComplete(b, side, o, d, 1, Dist(o, t), t);
      }
    }
    if t in Ray(b, side, o, d) {
      WalkSound(b, side, o, d, 1, t);
      var n :| Reached(b, side, o, d, 1, n, t);
      StepGeometry(o, d, n);
    }
  }

  /** The unit direction pointing from `o` towards `t`. */
  function Toward(o: Square, t: Square): (d: Dir)
    ensures t != o ==> d.Unit()
  {
    Dir(Sign(t.0 - o.0), Sign(t.1 - o.1))
  }

  /** A square some steps along a unit direction lies on a rank, file or
      diagonal through `o`, in that direction. */
  lemma StepIsLine(o: Square, d: Dir, n: int)
    requires d.Unit() && n >= 1
    ensures Step(o, d, n) != o && Toward(o, Step(o, d, n)) == d
    ensures Diagonal(o, Step(o, d, n)) || Orthogonal(o, Step(o, d, n))
  {
    StepGeometry(o, d, n);
  }

  /** A square on a rank, file or diagonal through `o` is reached by stepping
      towards it as often as it is far. */
  lemma LineIsStep(o: Square, t: Square)
    requires t != o && (Diagonal(o, t) || Orthogonal(o, t))
    ensures Toward(o, t).Unit() && t == Step(o, Toward(o, t), Dist(o, t))
  {
  }

  /** The ray along `d` holds exactly the squares that lie on a rank, file
      or diagonal through `o` in direction `d`, are on the board, are reached
      over empty squares and are not friendly. */
  lemma RayToward(b: Board, side: Side, o: Square, d: Dir, t: Square)
    requires d.Unit() && InBounds(o)
    ensures t in Ray(b, side, o, d) <==>
      t != o && d == Toward(o, t) && (Diagonal(o, t) || Orthogonal(o, t)) &&
      InBounds(t) && PathClear(b, o, t) && !Friendly(b, side, t)
  {
    RayIff(b, side, o, d, t);
    if Dist(o, t) >= 1 && t == Step(o, d, Dist(o, t)) {
      StepIsLine(o, d, Dist(o, t));
    }
    if t != o && d == Toward(o, t) && (Diagonal(o, t) || Orthogonal(o, t)) {
      LineIsStep(o, t);
    }
  }

  /** The rays along each direction of `ds` in turn, as the source's
      consecutive loops produce them. */
  function RaysAlong(b: Board, side: Side, o: Square, ds: seq<Dir>): seq<Square>
    requires forall d :: d in ds ==> d.Unit()
  {
    if |ds| == 0 then [] else Ray(b, side, o, ds[0]) + RaysAlong(b, side, o, ds[1..])
  }

  /** Every square the rays list is on the board and not held by the walker's side. */
  lemma {:induction false} RaysAlongSafe(b: Board, side: Side, o: Square, ds: seq<Dir>)
    requires forall d :: d in ds ==> d.Unit()
    ensures forall i :: 0 <= i < |RaysAlong(b, side, o, ds)| ==>
      InBounds(RaysAlong(b, side, o, ds)[i]) && !Friendly(b, side, RaysAlong(b, side, o, ds)[i])
  {
    if |ds| > 0 {
      var head := Ray(b, side, o, ds[0]);
      var rest := RaysAlong(b, side, o, ds[1..]);
      WalkSafe(b, side, Step(o, ds[0], 1), ds[0]);
      RaysAlongSafe(b, side, o, ds[1..]);
      forall i | 0 <= i < |head + rest|
        ensures InBounds((head + rest)[i]) && !Friendly(b, side, (head + rest)[i])
      {
        if i >= |head| {
          assert (head + rest)[i] == rest[i - |head|];
        }
      }
    }
  }

  lemma {:induction false} RaysAlongIff(b: Board, side: Side, o: Square, ds: seq<Dir>, t: Square)
    requires forall d :: d in ds ==> d.Unit()
    requires InBounds(o)
    ensures t in RaysAlong(b, side, o, ds) <==>
      t != o && Toward(o, t) in ds && (Diagonal(o, t) || Orthogonal(o, t)) &&
      InBounds(t) && PathClear(b, o, t) && !Friendly(b, side, t)
  {
    if |ds| > 0 {
      RayToward(b, side, o, ds[0], t);
      RaysAlongIff(b, side, o, ds[1..], t);
      assert ds == [ds[0]] + ds[1..];
    }
  }

  lemma {:induction false} RaysAlongDistinct(b: Board, side: Side, o: Square, ds: seq<Dir>)
    requires forall d :: d in ds ==> d.Unit()
    requires InBounds(o) && Distinct(ds)
    ensures Distinct(RaysAlong(b, side, o, ds))
  {
    if |ds| > 0 {
      var head := Ray(b, side, o, ds[0]);
      var rest := RaysAlong(b, side, o, ds[1..]);
      WalkDistinct(b, side, Step(o, ds[0], 1), ds[0]);
      RaysAlongDistinct(b, side, o, ds[1..]);
      forall t | t in head
        ensures t !in rest
      {
        RayToward(b, side, o, ds[0], t);
        RaysAlongIff(b, side, o, ds[1..], t);
        assert ds[0] !in ds[1..];
      }
      DistinctConcat(head, rest);
    }
  }

  lemma {:induction false} RaysAlongAppend(b: Board, side: Side, o: Square, ds1: seq<Dir>, ds2: seq<Dir>)
    requires forall d :: d in ds1 ==> d.Unit()
    requires forall d :: d in ds2 ==> d.Unit()
    ensures RaysAlong(b, side, o, ds1 + ds2) == RaysAlong(b, side, o, ds1) + RaysAlong(b, side, o, ds2)
  {
    if |ds1| > 0 {
      var ds := ds1 + ds2;
      assert ds[0] == ds1[0] && ds[1..] == ds1[1..] + ds2;
      RaysAlongAppend(b, side, o, ds1[1..], ds2);
      assert RaysAlong(b, side, o, ds) == Ray(b, side, o, ds1[0]) + RaysAlong(b, side, o, ds1[1..] + ds2);
    } else {
      assert ds1 + ds2 == ds2;
    }
  }

  /** A ray never visits the same square twice. */
  lemma WalkDistinct(b: Board, side: Side, s: Square, d: Dir)
    requires d.Unit()
    ensures Distinct(Walk(b, side, s, d))
  {
    var r := Walk(b, side, s, d);
    WalkSteps(b, side, s, d);
    forall i, j | 0 <= i < j < |r|
      ensures r[i] != r[j]
    {
      assert r[i] == Step(s, d, i) && r[j] == Step(s, d, j);
    }
  }
}
