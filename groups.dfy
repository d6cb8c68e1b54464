/**
 * Groups and liberties as the engine's searches see them: the cells a
 * search started at one cell reaches by orthogonal steps onto stones of a
 * given colour, and whether any of them touches an empty cell.
 */
module Groups {
  import opened Grid

  /**
   * A walk that starts at any board cell and then steps only orthogonally,
   * and only onto cells holding `color`.
   */
  ghost predicate IsChain(b: Board, color: Color, path: seq<Pos>)
    requires IsGrid(b)
  {
    |path| > 0 && InBounds(path[0]) &&
    forall i :: 0 < i < |path| ==> Link(b, color, path, i)
  }

  /** The step into path[i] lands on a board cell of `color` next to path[i - 1]. */
  ghost predicate Link(b: Board, color: Color, path: seq<Pos>, i: int)
    requires IsGrid(b) && 0 < i < |path|
  {
    InBounds(path[i]) && At(b, path[i]) == color && Adjacent(path[i - 1], path[i])
  }

  /** p is start, or is reachable from start through cells of `color`. */
  ghost predicate Reaches(b: Board, color: Color, start: Pos, p: Pos)
    requires IsGrid(b)
  {
    exists path :: IsChain(b, color, path) && path[0] == start && path[|path| - 1] == p
  }

  /** Some orthogonal neighbour of p on the board is empty. */
  ghost predicate HasLiberty(b: Board, p: Pos)
    requires IsGrid(b)
  {
    exists q :: InBounds(q) && Adjacent(p, q) && At(b, q) == Empty
  }

  /** Some cell that start reaches through `color` has an empty neighbour. */
  ghost predicate ReachesLiberty(b: Board, color: Color, start: Pos)
    requires IsGrid(b)
  {
    exists p :: Reaches(b, color, start, p) && HasLiberty(b, p)
  }

  /** Every `color` neighbour of a cell of `from` lies in `into`. */
  ghost predicate ClosedFrom(b: Board, color: Color, from: set<Pos>, into: set<Pos>)
    requires IsGrid(b)
  {
    forall p, q :: p in from && InBounds(q) && Adjacent(p, q) && At(b, q) == color ==> q in into
  }

  /**
   * p is a member of the group of the stone at n, where n holds a stone of
   * a colour other than `placed` and that group has no liberty.
   */
  ghost predicate CapturedVia(b: Board, placed: Color, n: Pos, p: Pos)
    requires IsGrid(b) && InBounds(n)
  {
    At(b, n) != Empty && At(b, n) != placed &&
    !ReachesLiberty(b, At(b, n), n) && Reaches(b, At(b, n), n, p)
  }

  /** p belongs to a liberty-less opposing group next to `at`. */
  ghost predicate CapturedBy(b: Board, at: Pos, placed: Color, p: Pos)
    requires IsGrid(b)
  {
    exists n :: InBounds(n) && Adjacent(at, n) && CapturedVia(b, placed, n, p)
  }

  lemma ReachesSelf(b: Board, color: Color, p: Pos)
    requires IsGrid(b) && InBounds(p)
    ensures Reaches(b, color, p, p)
  {
    assert IsChain(b, color, [p]);
  }

  lemma ReachesStep(b: Board, color: Color, start: Pos, p: Pos, q: Pos)
    requires IsGrid(b) && Reaches(b, color, start, p)
    requires InBounds(q) && Adjacent(p, q) && At(b, q) == color
    ensures Reaches(b, color, start, q)
  {
    var path :| IsChain(b, color, path) && path[0] == start && path[|path| - 1] == p;
    var longer := path + [q];
    assert IsChain(b, color, longer) by {
      forall i | 0 < i < |longer|
        ensures Link(b, color, longer, i)
      {
        if i < |path| {
          assert Link(b, color, path, i);
          assert longer[i] == path[i] && longer[i - 1] == path[i - 1];
        }
      }
    }
    assert longer[0] == start && longer[|longer| - 1] == q;
  }

  lemma {:induction false} ChainStaysInside(b: Board, color: Color, path: seq<Pos>, s: set<Pos>)
    requires IsGrid(b) && IsChain(b, color, path)
    requires path[0] in s && ClosedFrom(b, color, s, s)
    ensures path[|path| - 1] in s
  {
    if |path| > 1 {
      var prefix := path[..|path| - 1];
      assert IsChain(b, color, prefix) by {
        forall i | 0 < i < |prefix|
          ensures Link(b, color, prefix, i)
        {
          assert Link(b, color, path, i);
          assert prefix[i] == path[i] && prefix[i - 1] == path[i - 1];
        }
      }
      ChainStaysInside(b, color, prefix, s);
      var last := |path| - 1;
      assert Link(b, color, path, last);
      assert path[last - 1] in s && Adjacent(path[last - 1], path[last]);
    }
  }

  /** A set that holds start and is closed under `color` steps holds everything start reaches. */
  lemma ReachedWithin(b: Board, color: Color, start: Pos, s: set<Pos>)
    requires IsGrid(b) && start in s && ClosedFrom(b, color, s, s)
    ensures forall p :: Reaches(b, color, start, p) ==> p in s
  {
    forall p | Reaches(b, color, start, p)
      ensures p in s
    {
      var path :| IsChain(b, color, path) && path[0] == start && path[|path| - 1] == p;
      ChainStaysInside(b, color, path, s);
    }
  }

  /** Cells reached from a stone lie on the board and have the stone's colour. */
  lemma ReachedSameColor(b: Board, start: Pos, p: Pos)
    requires IsGrid(b) && InBounds(start) && Reaches(b, At(b, start), start, p)
    ensures InBounds(p) && At(b, p) == At(b, start)
  {
    var path :| IsChain(b, At(b, start), path) && path[0] == start && path[|path| - 1] == p;
    if |path| > 1 {
      assert Link(b, At(b, start), path, |path| - 1);
    }
  }

  /** Cells reached from a board cell lie on the board. */
  lemma ReachedInBounds(b: Board, color: Color, start: Pos, p: Pos)
    requires IsGrid(b) && Reaches(b, color, start, p)
    ensures InBounds(p)
  {
    var path :| IsChain(b, color, path) && path[0] == start && path[|path| - 1] == p;
    if |path| > 1 {
      assert Link(b, color, path, |path| - 1);
    }
  }

  /** The liberty test for one cell, read off its neighbour list. */
  lemma LibertyAmongNeighbors(b: Board, p: Pos)
    requires IsGrid(b) && InBounds(p)
    ensures HasLiberty(b, p) <==> exists q :: q in Neighbors(p) && At(b, q) == Empty
  {
    if HasLiberty(b, p) {
      var q :| InBounds(q) && Adjacent(p, q) && At(b, q) == Empty;
      assert q in Neighbors(p);
    }
  }
}
