/**
 * The 19×19 Go board: cell colours, coordinates, orthogonal adjacency and
 * the neighbour list the engine walks.
 */
module Grid {

  /** Number of lines in each direction (boardSize). */
  const N: nat := 19

  /** A cell is empty (null in the page) or holds a black ('B') or white ('W') stone. */
  datatype Color = Empty | Black | White

  /** The turn flip: Black is followed by White, anything else by Black. */
  function Other(c: Color): (r: Color)
    ensures r != Empty
    ensures c != Empty ==> r != c
  {
    if c == Black then White else Black
  }

  /** A grid coordinate: column x, row y. */
  datatype Pos = Pos(x: int, y: int)

  /** The board, indexed board[x][y]. */
  type Board = seq<seq<Color>>

  predicate InBounds(p: Pos) {
    0 <= p.x < N && 0 <= p.y < N
  }

  predicate IsGrid(b: Board) {
    |b| == N && forall i :: 0 <= i < N ==> |b[i]| == N
  }

  function At(b: Board, p: Pos): Color
    requires IsGrid(b) && InBounds(p)
  {
    b[p.x][p.y]
  }

  /** p and q differ by exactly 1 in exactly one coordinate. */
  predicate Adjacent(p: Pos, q: Pos) {
    (p.x == q.x && (p.y == q.y + 1 || q.y == p.y + 1)) ||
    (p.y == q.y && (p.x == q.x + 1 || q.x == p.x + 1))
  }

  /**
   * The orthogonal neighbours of p that lie on the board, in the order
   * left, right, up, down.
   */
  function Neighbors(p: Pos): (ns: seq<Pos>)
    ensures |ns| <= 4
    ensures forall i :: 0 <= i < |ns| ==> Adjacent(p, ns[i])
    ensures forall i, j :: 0 <= i < j < |ns| ==> ns[i] != ns[j]
    ensures InBounds(p) ==> forall q :: q in ns <==> InBounds(q) && Adjacent(p, q)
  {
    (if p.x > 0 then [Pos(p.x - 1, p.y)] else []) +
    (if p.x < N - 1 then [Pos(p.x + 1, p.y)] else []) +
    (if p.y > 0 then [Pos(p.x, p.y - 1)] else []) +
    (if p.y < N - 1 then [Pos(p.x, p.y + 1)] else [])
  }

  /** The board with cell p set to c. */
  function Put(b: Board, p: Pos, c: Color): (r: Board)
    requires IsGrid(b) && InBounds(p)
    ensures IsGrid(r) && At(r, p) == c
    ensures forall q :: InBounds(q) && q != p ==> At(r, q) == At(b, q)
  {
    b[p.x := b[p.x][p.y := c]]
  }

  /** The board with every cell of s emptied. */
  function Clear(b: Board, s: set<Pos>): (r: Board)
    requires IsGrid(b)
    ensures IsGrid(r)
    ensures forall q :: InBounds(q) ==> At(r, q) == if q in s then Empty else At(b, q)
  {
    seq(N, i requires 0 <= i < N => seq(N, j requires 0 <= j < N => if Pos(i, j) in s then Empty else b[i][j]))
  }

  /** The board of a new game. */
  function EmptyBoard(): (r: Board)
    ensures IsGrid(r)
    ensures forall p :: InBounds(p) ==> At(r, p) == Empty
  {
    seq(N, _ => seq(N, _ => Empty))
  }

  /** Two boards with the same cells are the same board. */
  lemma SameCells(a: Board, b: Board)
    requires IsGrid(a) && IsGrid(b)
    requires forall p :: InBounds(p) ==> At(a, p) == At(b, p)
    ensures a == b
  {
    forall i | 0 <= i < N
      ensures a[i] == b[i]
    {
      forall j | 0 <= j < N
        ensures a[i][j] == b[i][j]
      {
        assert At(a, Pos(i, j)) == At(b, Pos(i, j));
      }
    }
  }

  /** Every coordinate of the board. */
  function AllCells(): (s: set<Pos>)
    ensures forall p :: p in s <==> InBounds(p)
  {
    set x, y | 0 <= x < N && 0 <= y < N :: Pos(x, y)
  }

  ghost function Row(x: int, cols: nat): set<Pos> {
    set y | 0 <= y < cols :: Pos(x, y)
  }

  ghost function Block(rows: nat, cols: nat): set<Pos> {
    set x, y | 0 <= x < rows && 0 <= y < cols :: Pos(x, y)
  }

  lemma {:induction false} RowSize(x: int, cols: nat)
    ensures |Row(x, cols)| == cols
  {
    if cols == 0 {
      assert Row(x, cols) == {};
    } else {
      RowSize(x, cols - 1);
      assert Row(x, cols) == Row(x, cols - 1) + {Pos(x, cols - 1)};
    }
  }

  lemma {:induction false} BlockSize(rows: nat, cols: nat)
    ensures |Block(rows, cols)| == rows * cols
  {
    if rows == 0 {
      assert Block(rows, cols) == {};
    } else {
      var top, last := Block(rows - 1, cols), Row(rows - 1, cols);
      BlockSize(rows - 1, cols);
      RowSize(rows - 1, cols);
      assert Block(rows, cols) == top + last by {
        forall p | p in Block(rows, cols) ensures p in top + last {
          if p.x == rows - 1 { assert p in last; } else { assert p in top; }
        }
      }
      assert top !! last;
      assert rows * cols == (rows - 1) * cols + cols;
    }
  }

  /** Any set of board coordinates has at most N×N members. */
  lemma AtMostAllCells(s: set<Pos>)
    requires forall p :: p in s ==> InBounds(p)
    ensures |s| <= N * N
  {
    BlockSize(N, N);
    assert AllCells() == Block(N, N);
    assert AllCells() == s + (AllCells() - s);
  }
}
