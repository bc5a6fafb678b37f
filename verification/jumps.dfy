/** The offset filter shared by the Knight and King move generators: each
    candidate square is kept, in order, when it is on the board and is
    either empty or held by an enemy. */
module Jumps {
  import opened Pieces

  function Keep(b: Board, side: Side, cands: seq<Square>): (r: seq<Square>)
    ensures |r| <= |cands|
    ensures forall t :: t in r <==> t in cands && InBounds(t) && !Friendly(b, side, t)
    ensures Distinct(cands) ==> Distinct(r)
  {
    if |cands| == 0 then []
    else
      var c := cands[0];
      var rest := Keep(b, side, cands[1..]);
      assert Distinct(cands) ==> c !in cands[1..];
      if InBounds(c) && c !in b then [c] + rest
      else if InBounds(c) && b[c].side != side then [c] + rest
      else rest
  }
}
