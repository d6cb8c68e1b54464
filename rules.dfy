/**
 * What a move does, stated over board values: the verdict on placing a
 * stone, the opposing stones it captures and the board after a legal move,
 * with the properties the engine's rule subset promises.
 */
module Rules {
  import opened Grid
  import opened Groups

  /** The three ways a placement attempt can end. */
  datatype Verdict = IllegalOccupied | IllegalSuicide | Legal

  /**
   * The stones removed when `mover` plays at p: every member of every
   * liberty-less group of another colour next to p, judged with the new
   * stone on the board.
   */
  ghost function Captures(b: Board, mover: Color, p: Pos): set<Pos>
    requires IsGrid(b) && InBounds(p)
  {
    set q | q in AllCells() && CapturedBy(Put(b, p, mover), p, mover, q)
  }

  /**
   * The verdict on `mover` playing at p: an occupied cell is refused; a move
   * that captures nothing and leaves its own stone's group without a liberty
   * (both judged before any capture is removed) is suicide; anything else is
   * legal.
   */
  ghost function Judge(b: Board, mover: Color, p: Pos): Verdict
    requires IsGrid(b) && InBounds(p)
  {
    if At(b, p) != Empty then IllegalOccupied
    else if Captures(b, mover, p) == {} && !ReachesLiberty(Put(b, p, mover), mover, p) then IllegalSuicide
    else Legal
  }

  /** The board once a legal move at p is committed: the stone placed, the captures removed. */
  ghost function After(b: Board, mover: Color, p: Pos): Board
    requires IsGrid(b) && InBounds(p)
  {
    Clear(Put(b, p, mover), Captures(b, mover, p))
  }

  /** Membership in Captures is exactly the capture condition (which already implies being on the board). */
  lemma CapturesMembers(b: Board, mover: Color, p: Pos)
    requires IsGrid(b) && InBounds(p)
    ensures forall q :: q in Captures(b, mover, p) <==> CapturedBy(Put(b, p, mover), p, mover, q)
  {
    var placed := Put(b, p, mover);
    forall q | CapturedBy(placed, p, mover, q)
      ensures q in AllCells()
    {
      var n :| InBounds(n) && Adjacent(p, n) && CapturedVia(placed, mover, n, q);
      ReachedInBounds(placed, At(placed, n), n, q);
    }
  }

  /**
   * The verdict as the engine computes it: from the captured list and the
   * liberty flag of the mover's group, both taken with the stone placed.
   */
  lemma JudgeBySearch(b: Board, mover: Color, p: Pos, captured: seq<Pos>, hasLiberty: bool)
    requires IsGrid(b) && InBounds(p) && At(b, p) == Empty
    requires forall q :: q in captured <==> CapturedBy(Put(b, p, mover), p, mover, q)
    requires hasLiberty <==> ReachesLiberty(Put(b, p, mover), mover, p)
    ensures Judge(b, mover, p) == if |captured| == 0 && !hasLiberty then IllegalSuicide else Legal
    ensures (set q | q in captured) == Captures(b, mover, p)
  {
    CapturesMembers(b, mover, p);
    if |captured| > 0 {
      assert captured[0] in Captures(b, mover, p);
    }
  }

  /**
   * Captured cells are opponent stones other than p: each held a stone of
   * the other player's colour before the move.
   */
  lemma CapturesAreOpponentStones(b: Board, mover: Color, p: Pos)
    requires IsGrid(b) && InBounds(p) && mover != Empty
    ensures forall q :: q in Captures(b, mover, p) ==> InBounds(q) && q != p && At(b, q) == Other(mover)
  {
    var placed := Put(b, p, mover);
    forall q | q in Captures(b, mover, p)
      ensures InBounds(q) && q != p && At(b, q) == Other(mover)
    {
      var n :| InBounds(n) && Adjacent(p, n) && CapturedVia(placed, mover, n, q);
      ReachedSameColor(placed, n, q);
    }
  }

  /**
   * A legal move leaves the mover's stone at p, empties every captured cell
   * (each of which held an opponent stone) and changes no other cell.
   */
  lemma LegalMoveEffect(b: Board, mover: Color, p: Pos)
    requires IsGrid(b) && InBounds(p) && mover != Empty
    requires Judge(b, mover, p) == Legal
    ensures At(b, p) == Empty
    ensures IsGrid(After(b, mover, p)) && At(After(b, mover, p), p) == mover
    ensures forall q :: q in Captures(b, mover, p) ==>
      InBounds(q) && At(b, q) == Other(mover) && At(After(b, mover, p), q) == Empty
    ensures forall q :: InBounds(q) && q != p && q !in Captures(b, mover, p) ==>
      At(After(b, mover, p), q) == At(b, q)
  {
    CapturesAreOpponentStones(b, mover, p);
  }

  /**
   * The suicide test looks at the board before captures are removed, yet the
   * verdict is the same as asking whether the mover's group breathes once
   * the captures are gone: a capture always frees a cell next to p.
   */
  lemma LegalIffLibertyAfterCaptures(b: Board, mover: Color, p: Pos)
    requires IsGrid(b) && InBounds(p) && At(b, p) == Empty && mover != Empty
    ensures Judge(b, mover, p) == Legal <==> ReachesLiberty(After(b, mover, p), mover, p)
  {
    var placed := Put(b, p, mover);
    var gone := Captures(b, mover, p);
    var after := After(b, mover, p);
    CapturesMembers(b, mover, p);
    if gone == {} {
      SameCells(after, placed);
    } else {
      var q :| q in gone;
      var n :| InBounds(n) && Adjacent(p, n) && CapturedVia(placed, mover, n, q);
      ReachesSelf(placed, At(placed, n), n);
      assert CapturedVia(placed, mover, n, n);
      assert n in gone;
      ReachesSelf(after, mover, p);
      assert HasLiberty(after, p);
    }
  }

  /** p is the only empty cell next to the group that start reaches through `color`. */
  ghost predicate OnlyLiberty(b: Board, color: Color, start: Pos, p: Pos)
    requires IsGrid(b)
  {
    forall r, l :: Reaches(b, color, start, r) && InBounds(l) && Adjacent(r, l) && At(b, l) == Empty ==> l == p
  }

  /** Boards that agree on which cells hold `color` have the same chains through `color`. */
  lemma SameChains(a: Board, b: Board, color: Color)
    requires IsGrid(a) && IsGrid(b)
    requires forall q :: InBounds(q) ==> (At(a, q) == color <==> At(b, q) == color)
    ensures forall s, r :: Reaches(a, color, s, r) <==> Reaches(b, color, s, r)
  {
    forall path | IsChain(a, color, path)
      ensures IsChain(b, color, path)
    {
      forall i | 0 < i < |path|
        ensures Link(b, color, path, i)
      {
        assert Link(a, color, path, i);
      }
    }
    forall path | IsChain(b, color, path)
      ensures IsChain(a, color, path)
    {
      forall i | 0 < i < |path|
        ensures Link(a, color, path, i)
      {
        assert Link(b, color, path, i);
      }
    }
  }

  /**
   * An opposing group next to the empty cell p is captured by a stone at p
   * exactly when p was its last liberty: filling any other liberty leaves it
   * on the board.
   */
  lemma CapturedIffLastLiberty(b: Board, mover: Color, p: Pos, n: Pos)
    requires IsGrid(b) && InBounds(p) && At(b, p) == Empty && mover != Empty
    requires InBounds(n) && Adjacent(p, n) && At(b, n) != Empty && At(b, n) != mover
    ensures CapturedVia(Put(b, p, mover), mover, n, n) <==> OnlyLiberty(b, At(b, n), n, p)
  {
    var placed := Put(b, p, mover);
    var c := At(b, n);
    SameChains(b, placed, c);
    ReachesSelf(placed, c, n);
    if OnlyLiberty(b, c, n, p) {
      forall r, l | Reaches(placed, c, n, r) && InBounds(l) && Adjacent(r, l)
        ensures At(placed, l) != Empty
      {
        if l != p {
          assert Reaches(b, c, n, r);
        }
      }
    }
    if !OnlyLiberty(b, c, n, p) {
      var r, l :| Reaches(b, c, n, r) && InBounds(l) && Adjacent(r, l) && At(b, l) == Empty && l != p;
      assert HasLiberty(placed, r);
    }
  }
}
