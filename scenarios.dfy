/**
 * Two concrete positions in a corner of the board: a suicide that is
 * refused and a single-stone capture that is allowed.
 */
module Scenarios {
  import opened Grid
  import opened Groups
  import opened Rules

  /** White stones on (1, 0) and (0, 1); everything else empty. */
  function CornerTrap(): (b: Board)
    ensures IsGrid(b)
    ensures At(b, Pos(1, 0)) == White && At(b, Pos(0, 1)) == White
    ensures forall q :: InBounds(q) && q != Pos(1, 0) && q != Pos(0, 1) ==> At(b, q) == Empty
  {
    Put(Put(EmptyBoard(), Pos(1, 0), White), Pos(0, 1), White)
  }

  /** A white stone on (0, 0) and a black stone on (1, 0); everything else empty. */
  function CornerAtari(): (b: Board)
    ensures IsGrid(b)
    ensures At(b, Pos(0, 0)) == White && At(b, Pos(1, 0)) == Black
    ensures forall q :: InBounds(q) && q != Pos(0, 0) && q != Pos(1, 0) ==> At(b, q) == Empty
  {
    Put(Put(EmptyBoard(), Pos(0, 0), White), Pos(1, 0), Black)
  }

  /** The group that start reaches is just start, when no neighbour of start holds `color`. */
  lemma LoneStone(b: Board, color: Color, start: Pos)
    requires IsGrid(b) && InBounds(start)
    requires forall q :: InBounds(q) && Adjacent(start, q) ==> At(b, q) != color
    ensures forall r :: Reaches(b, color, start, r) ==> r == start
  {
    ReachedWithin(b, color, start, {start});
  }

  /**
   * Black playing into the corner between two white stones captures
   * nothing and has no liberty, so the move is refused as suicide.
   */
  lemma CornerSuicideRefused()
    ensures Judge(CornerTrap(), Black, Pos(0, 0)) == IllegalSuicide
  {
    var b, p := CornerTrap(), Pos(0, 0);
    var placed := Put(b, p, Black);
    LoneStone(placed, Black, p);
    assert !ReachesLiberty(placed, Black, p);
    forall n | InBounds(n) && Adjacent(p, n)
      ensures ReachesLiberty(placed, At(placed, n), n)
    {
      ReachesSelf(placed, At(placed, n), n);
      if n == Pos(1, 0) {
        assert At(placed, Pos(2, 0)) == Empty;
      } else {
        assert n == Pos(0, 1) && At(placed, Pos(0, 2)) == Empty;
      }
    }
    CapturesMembers(b, Black, p);
    assert Captures(b, Black, p) == {};
  }

  /**
   * Black filling the last liberty of the white corner stone captures
   * exactly that stone; the move is legal and empties the corner.
   */
  lemma CornerCaptureAllowed()
    ensures Judge(CornerAtari(), Black, Pos(0, 1)) == Legal
    ensures Captures(CornerAtari(), Black, Pos(0, 1)) == {Pos(0, 0)}
    ensures At(After(CornerAtari(), Black, Pos(0, 1)), Pos(0, 0)) == Empty
    ensures At(After(CornerAtari(), Black, Pos(0, 1)), Pos(0, 1)) == Black
  {
    var b, p, w := CornerAtari(), Pos(0, 1), Pos(0, 0);
    var placed := Put(b, p, Black);
    CapturesMembers(b, Black, p);
    LoneStone(placed, White, w);
    ReachesSelf(placed, White, w);
    assert !ReachesLiberty(placed, White, w);
    assert CapturedVia(placed, Black, w, w);
    assert CapturedBy(placed, p, Black, w);
    forall q | CapturedBy(placed, p, Black, q)
      ensures q == w
    {
      var n :| InBounds(n) && Adjacent(p, n) && CapturedVia(placed, Black, n, q);
      assert n == w;
    }
  }
}
