/**
 * The engine's three read-only board searches: the liberty search, the
 * collection of a captured group's members and the captured-group scan
 * around a newly placed stone. Each takes the board as a value, so none of
 * them can change it.
 */
module Search {
  import opened Grid
  import opened Groups

  /**
   * The state of a breadth-first search from start over `color` cells:
   * `visited` holds exactly the processed cells `done` and the cells waiting
   * in `queue`; the two are disjoint, the queue has no repeats, and every
   * visited cell is on the board and reached from start.
   */
  ghost predicate Frontier(b: Board, color: Color, start: Pos, visited: set<Pos>, queue: seq<Pos>, done: set<Pos>)
    requires IsGrid(b)
  {
    start in visited &&
    (forall p :: p in visited ==> InBounds(p) && Reaches(b, color, start, p)) &&
    (forall p :: p in visited <==> p in done || p in queue) &&
    (forall i :: 0 <= i < |queue| ==> queue[i] !in done) &&
    (forall i, j :: 0 <= i < j < |queue| ==> queue[i] != queue[j])
  }

  lemma FrontierInit(b: Board, color: Color, start: Pos)
    requires IsGrid(b) && InBounds(start)
    ensures Frontier(b, color, start, {start}, [start], {})
  {
    ReachesSelf(b, color, start);
  }

  /** Enqueuing a newly reached cell keeps the search state consistent. */
  lemma FrontierPush(b: Board, color: Color, start: Pos, visited: set<Pos>, queue: seq<Pos>, done: set<Pos>, n: Pos)
    requires IsGrid(b) && Frontier(b, color, start, visited, queue, done)
    requires n !in visited && InBounds(n) && Reaches(b, color, start, n)
    ensures Frontier(b, color, start, visited + {n}, queue + [n], done)
  {
    var q := queue + [n];
    forall i, j | 0 <= i < j < |q|
      ensures q[i] != q[j]
    {
      if j < |queue| {
        assert q[i] == queue[i] && q[j] == queue[j];
      } else {
        assert q[i] == queue[i] && queue[i] in visited;
      }
    }
    forall i | 0 <= i < |q|
      ensures q[i] !in done
    {
      if i < |queue| {
        assert q[i] == queue[i];
      }
    }
  }

  /** Taking the head off the queue moves it to the processed cells. */
  lemma FrontierPop(b: Board, color: Color, start: Pos, visited: set<Pos>, queue: seq<Pos>, done: set<Pos>)
    requires IsGrid(b) && Frontier(b, color, start, visited, queue, done) && |queue| > 0
    ensures Frontier(b, color, start, visited, queue[1..], done + {queue[0]})
  {
    var rest := queue[1..];
    forall p | p in visited
      ensures p in done + {queue[0]} || p in rest
    {
      if p in queue && p != queue[0] {
        var i :| 0 <= i < |queue| && queue[i] == p;
        assert rest[i - 1] == p;
      }
    }
    forall i | 0 <= i < |rest|
      ensures rest[i] !in done + {queue[0]}
    {
      assert rest[i] == queue[i + 1];
    }
    forall i, j | 0 <= i < j < |rest|
      ensures rest[i] != rest[j]
    {
      assert rest[i] == queue[i + 1] && rest[j] == queue[j + 1];
    }
  }

  /**
   * While the neighbours ns of the cell c are scanned: c is the cell being
   * expanded, and every `color` cell among the first k neighbours is visited.
   */
  ghost predicate Scanned(b: Board, color: Color, start: Pos, c: Pos, ns: seq<Pos>, k: int,
                          visited: set<Pos>, queue: seq<Pos>, done: set<Pos>)
    requires IsGrid(b) && InBounds(c) && ns == Neighbors(c) && 0 <= k <= |ns|
  {
    Frontier(b, color, start, visited, [c] + queue, done) &&
    forall j :: 0 <= j < k && At(b, ns[j]) == color ==> ns[j] in visited
  }

  /** Scanning one more neighbour, and enqueuing it when it is a new `color` cell. */
  lemma ScanStep(b: Board, color: Color, start: Pos, c: Pos, ns: seq<Pos>, k: int,
                 visited: set<Pos>, queue: seq<Pos>, done: set<Pos>)
    requires IsGrid(b) && InBounds(c) && ns == Neighbors(c) && 0 <= k < |ns|
    requires Scanned(b, color, start, c, ns, k, visited, queue, done)
    ensures At(b, ns[k]) == color && ns[k] !in visited ==>
      Scanned(b, color, start, c, ns, k + 1, visited + {ns[k]}, queue + [ns[k]], done)
    ensures !(At(b, ns[k]) == color && ns[k] !in visited) ==>
      Scanned(b, color, start, c, ns, k + 1, visited, queue, done)
  {
    var n := ns[k];
    if At(b, n) == color && n !in visited {
      ReachesStep(b, color, start, c, n);
      FrontierPush(b, color, start, visited, [c] + queue, done, n);
      assert [c] + queue + [n] == [c] + (queue + [n]);
    }
  }

  /** Once all neighbours of c are scanned, c joins the processed cells. */
  lemma FinishCell(b: Board, color: Color, start: Pos, c: Pos,
                   visited0: set<Pos>, visited: set<Pos>, queue: seq<Pos>, done: set<Pos>)
    requires IsGrid(b) && InBounds(c)
    requires Scanned(b, color, start, c, Neighbors(c), |Neighbors(c)|, visited, queue, done)
    requires ClosedFrom(b, color, done, visited0) && visited0 <= visited
    ensures Frontier(b, color, start, visited, queue, done + {c})
    ensures ClosedFrom(b, color, done + {c}, visited)
    ensures c !in done && |done + {c}| == |done| + 1
  {
    var ns := Neighbors(c);
    FrontierPop(b, color, start, visited, [c] + queue, done);
    assert ([c] + queue)[1..] == queue;
    assert c !in done by {
      assert ([c] + queue)[0] == c;
    }
    forall p, q | p in done + {c} && InBounds(q) && Adjacent(p, q) && At(b, q) == color
      ensures q in visited
    {
      if p == c {
        assert q in ns;
        var j :| 0 <= j < |ns| && ns[j] == q;
      }
    }
  }

  /** Some cell among the first k of ns is empty. */
  ghost predicate SomeEmpty(b: Board, ns: seq<Pos>, k: int)
    requires IsGrid(b) && 0 <= k <= |ns| && forall j :: 0 <= j < |ns| ==> InBounds(ns[j])
  {
    exists j :: 0 <= j < k && At(b, ns[j]) == Empty
  }

  lemma SomeEmptyStep(b: Board, ns: seq<Pos>, k: int)
    requires IsGrid(b) && 0 <= k < |ns| && forall j :: 0 <= j < |ns| ==> InBounds(ns[j])
    ensures SomeEmpty(b, ns, k + 1) <==> SomeEmpty(b, ns, k) || At(b, ns[k]) == Empty
  {
  }

  /** Some processed cell has a liberty. */
  ghost predicate LibertyAmong(b: Board, done: set<Pos>)
    requires IsGrid(b)
  {
    exists p :: p in done && HasLiberty(b, p)
  }

  /** Processing c adds its own liberty test, which its neighbour scan decides. */
  lemma LibertyAmongStep(b: Board, done: set<Pos>, c: Pos)
    requires IsGrid(b) && InBounds(c)
    ensures LibertyAmong(b, done + {c}) <==>
      LibertyAmong(b, done) || SomeEmpty(b, Neighbors(c), |Neighbors(c)|)
  {
    LibertyAmongNeighbors(b, c);
    var ns := Neighbors(c);
    if SomeEmpty(b, ns, |ns|) {
      var j :| 0 <= j < |ns| && At(b, ns[j]) == Empty;
      assert ns[j] in ns;
    }
    if HasLiberty(b, c) {
      var q :| q in ns && At(b, q) == Empty;
      var j :| 0 <= j < |ns| && ns[j] == q;
    }
    if LibertyAmong(b, done + {c}) && !LibertyAmong(b, done) {
      assert HasLiberty(b, c);
    }
  }

  /** `group` lists the processed cells, each once. */
  ghost predicate Lists(group: seq<Pos>, done: set<Pos>) {
    (forall p :: p in group <==> p in done) &&
    forall i, j :: 0 <= i < j < |group| ==> group[i] != group[j]
  }

  lemma ListsAppend(group: seq<Pos>, done: set<Pos>, c: Pos)
    requires Lists(group, done) && c !in done
    ensures Lists(group + [c], done + {c})
  {
    var g := group + [c];
    forall i, j | 0 <= i < j < |g|
      ensures g[i] != g[j]
    {
      assert g[i] == group[i];
      if j < |group| {
        assert g[j] == group[j];
      }
    }
  }

  /** Some of the first k neighbours ns of the new stone leads into a captured group holding p. */
  ghost predicate CapturedAmong(b: Board, placed: Color, ns: seq<Pos>, k: int, p: Pos)
    requires IsGrid(b) && 0 <= k <= |ns| && forall j :: 0 <= j < |ns| ==> InBounds(ns[j])
  {
    exists j :: 0 <= j < k && CapturedVia(b, placed, ns[j], p)
  }

  lemma CapturedAmongStep(b: Board, placed: Color, ns: seq<Pos>, k: int)
    requires IsGrid(b) && 0 <= k < |ns| && forall j :: 0 <= j < |ns| ==> InBounds(ns[j])
    ensures forall p :: CapturedAmong(b, placed, ns, k + 1, p) <==>
      CapturedAmong(b, placed, ns, k, p) || CapturedVia(b, placed, ns[k], p)
  {
    forall p | CapturedAmong(b, placed, ns, k + 1, p) && !CapturedVia(b, placed, ns[k], p)
      ensures CapturedAmong(b, placed, ns, k, p)
    {
      var j :| 0 <= j < k + 1 && CapturedVia(b, placed, ns[j], p);
    }
  }

  /**
   * The inner loop of getGroupLiberties, for the cell c just taken off the
   * queue: any empty neighbour sets the liberty flag, and every unvisited
   * neighbour of `color` is marked visited and enqueued.
   */
  method ScanForLiberty(b: Board, color: Color, c: Pos, hasLiberty0: bool, visited0: set<Pos>, queue0: seq<Pos>,
                        ghost start: Pos, ghost done: set<Pos>)
    returns (hasLiberty: bool, visited: set<Pos>, queue: seq<Pos>)
    requires IsGrid(b) && InBounds(c)
    requires Frontier(b, color, start, visited0, [c] + queue0, done)
    ensures Scanned(b, color, start, c, Neighbors(c), |Neighbors(c)|, visited, queue, done)
    ensures visited0 <= visited && (visited == visited0 ==> |queue| == |queue0|)
    ensures hasLiberty <==> hasLiberty0 || SomeEmpty(b, Neighbors(c), |Neighbors(c)|)
  {
    hasLiberty, visited, queue := hasLiberty0, visited0, queue0;
    var ns := Neighbors(c);
    var k := 0;
    while k < |ns|
      invariant 0 <= k <= |ns|
      invariant Scanned(b, color, start, c, ns, k, visited, queue, done)
      invariant visited0 <= visited && (visited == visited0 ==> |queue| == |queue0|)
      invariant hasLiberty <==> hasLiberty0 || SomeEmpty(b, ns, k)
    {
      var n := ns[k];
      var cell := At(b, n);
      SomeEmptyStep(b, ns, k);
      if cell == Empty {
        hasLiberty := true;
      }
      ScanStep(b, color, start, c, ns, k, visited, queue, done);
      if cell == color && n !in visited {
        visited := visited + {n};
        queue := queue + [n];
      }
      k := k + 1;
    }
  }

  /**
   * getGroupLiberties: breadth-first search from start through cells of
   * `color`, reporting whether any cell it reaches has an empty neighbour.
   * `steps` counts the cells taken off the queue.
   */
  method GroupHasLiberty(b: Board, start: Pos, color: Color) returns (hasLiberty: bool, ghost steps: nat)
    requires IsGrid(b) && InBounds(start)
    ensures hasLiberty <==> ReachesLiberty(b, color, start)
    ensures steps <= N * N
  {
    var visited := {start};
    var queue := [start];
    hasLiberty := false;
    ghost var done: set<Pos> := {};
    steps := 0;
    FrontierInit(b, color, start);
    while |queue| > 0
      invariant Frontier(b, color, start, visited, queue, done)
      invariant ClosedFrom(b, color, done, visited)
      invariant hasLiberty <==> LibertyAmong(b, done)
      invariant steps == |done|
      decreases AllCells() - visited, |queue|
    {
      ghost var visited0, queue0 := visited, queue;
      var c := queue[0];
      queue := queue[1..];
      assert [c] + queue == queue0;
      hasLiberty, visited, queue := ScanForLiberty(b, color, c, hasLiberty, visited, queue, start, done);
      FinishCell(b, color, start, c, visited0, visited, queue, done);
      LibertyAmongStep(b, done, c);
      done := done + {c};
      steps := steps + 1;
    }
    ReachedWithin(b, color, start, done);
    AtMostAllCells(done);
  }

  /**
   * The inner loop of the member collection in findCapturedGroups, for the
   * cell c just taken off the queue: every unvisited neighbour of `color` is
   * marked visited and enqueued.
   */
  method ScanForMembers(b: Board, color: Color, c: Pos, visited0: set<Pos>, queue0: seq<Pos>,
                        ghost start: Pos, ghost done: set<Pos>)
    returns (visited: set<Pos>, queue: seq<Pos>)
    requires IsGrid(b) && InBounds(c)
    requires Frontier(b, color, start, visited0, [c] + queue0, done)
    ensures Scanned(b, color, start, c, Neighbors(c), |Neighbors(c)|, visited, queue, done)
    ensures visited0 <= visited && (visited == visited0 ==> |queue| == |queue0|)
  {
    visited, queue := visited0, queue0;
    var ns := Neighbors(c);
    var k := 0;
    while k < |ns|
      invariant 0 <= k <= |ns|
      invariant Scanned(b, color, start, c, ns, k, visited, queue, done)
      invariant visited0 <= visited && (visited == visited0 ==> |queue| == |queue0|)
    {
      var n := ns[k];
      var cell := At(b, n);
      ScanStep(b, color, start, c, ns, k, visited, queue, done);
      if cell == color && n !in visited {
        visited := visited + {n};
        queue := queue + [n];
      }
      k := k + 1;
    }
  }

  /**
   * The member collection of a captured group in findCapturedGroups:
   * breadth-first search from start through cells of `color`, listing each
   * cell when it leaves the queue.
   */
  method CollectGroup(b: Board, start: Pos, color: Color) returns (group: seq<Pos>)
    requires IsGrid(b) && InBounds(start)
    ensures |group| > 0 && group[0] == start
    ensures forall p :: p in group <==> Reaches(b, color, start, p)
    ensures forall i, j :: 0 <= i < j < |group| ==> group[i] != group[j]
  {
    group := [];
    var queue := [start];
    var visited := {start};
    ghost var done: set<Pos> := {};
    FrontierInit(b, color, start);
    while |queue| > 0
      invariant Frontier(b, color, start, visited, queue, done)
      invariant ClosedFrom(b, color, done, visited)
      invariant Lists(group, done)
      invariant |group| > 0 ==> group[0] == start
      invariant |group| == 0 ==> queue == [start]
      decreases AllCells() - visited, |queue|
    {
      ghost var visited0, queue0, group0 := visited, queue, group;
      var c := queue[0];
      queue := queue[1..];
      assert [c] + queue == queue0;
      group := group + [c];
      visited, queue := ScanForMembers(b, color, c, visited, queue, start, done);
      FinishCell(b, color, start, c, visited0, visited, queue, done);
      ListsAppend(group0, done, c);
      done := done + {c};
    }
    ReachedWithin(b, color, start, done);
  }

  /**
   * findCapturedGroups: for each neighbour of `at` that holds a stone of a
   * colour other than `placed`, and whose group has no liberty, append the
   * group's members. A group touching `at` at two cells is listed twice.
   */
  method FindCapturedGroups(b: Board, at: Pos, placed: Color) returns (captured: seq<Pos>)
    requires IsGrid(b) && InBounds(at)
    ensures forall p :: p in captured <==> CapturedBy(b, at, placed, p)
    ensures forall p :: p in captured ==> InBounds(p) && At(b, p) != Empty && At(b, p) != placed
  {
    captured := [];
    var checked: set<Pos> := {};
    var ns := Neighbors(at);
    var k := 0;
    while k < |ns|
      invariant 0 <= k <= |ns|
      invariant forall n :: n in checked ==> n in ns[..k]
      invariant forall p :: p in captured <==> CapturedAmong(b, placed, ns, k, p)
    {
      var n := ns[k];
      CapturedAmongStep(b, placed, ns, k);
      var target := At(b, n);
      if target != Empty && target != placed && n !in checked {
        var breathes, _ := GroupHasLiberty(b, n, target);
        if !breathes {
          var group := CollectGroup(b, n, target);
          captured := captured + group;
        }
        checked := checked + {n};
      }
      k := k + 1;
    }
    forall p | p in captured
      ensures CapturedBy(b, at, placed, p) && InBounds(p) && At(b, p) != Empty && At(b, p) != placed
    {
      var j :| 0 <= j < |ns| && CapturedVia(b, placed, ns[j], p);
      ReachedSameColor(b, ns[j], p);
    }
  }
}
