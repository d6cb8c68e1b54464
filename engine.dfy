/**
 * The board engine: the board and the player to move, the placement
 * transaction and the reset.
 */
module Engine {
  import opened Grid
  import opened Groups
  import opened Search
  import opened Rules

  class Game {
    /** The 19×19 grid (board). */
    var board: Board
    /** The colour to move next (currentPlayer). */
    var turn: Color

    ghost predicate Valid()
      reads this
    {
      IsGrid(board) && turn != Empty
    }

    /** A new game: an empty board with Black to move. */
    constructor ()
      ensures Valid()
      ensures board == EmptyBoard() && turn == Black
    {
      board := EmptyBoard();
      turn := Black;
    }

    /**
     * resetGame: whatever the state, the board becomes empty and Black is
     * to move; so resetting twice leaves the same state as resetting once.
     */
    method Reset()
      modifies this
      ensures Valid()
      ensures board == EmptyBoard() && turn == Black
    {
      board := EmptyBoard();
      turn := Black;
    }

    /**
     * The removal step of handlePlaceStone: every listed cell is emptied, in
     * order; repeats are harmless.
     */
    method RemoveStones(cells: seq<Pos>)
      requires Valid() && forall q :: q in cells ==> InBounds(q)
      modifies this
      ensures Valid() && turn == old(turn)
      ensures board == Clear(old(board), set q | q in cells)
    {
      var i := 0;
      while i < |cells|
        invariant 0 <= i <= |cells|
        invariant Valid() && turn == old(turn)
        invariant forall q :: InBounds(q) ==>
          At(board, q) == if q in cells[..i] then Empty else At(old(board), q)
      {
        board := Put(board, cells[i], Empty);
        i := i + 1;
      }
      assert cells[..i] == cells;
      SameCells(board, Clear(old(board), set q | q in cells));
    }

    /**
     * handlePlaceStone: the player to move tries to put a stone at (x, y).
     * An occupied cell is refused with nothing changed. Otherwise the stone
     * goes down, the captured opposing stones are collected, and the move is
     * refused as suicide, with the board rolled back, when it captures
     * nothing and its own group has no liberty. A legal move removes the
     * captured stones and passes the turn. `captured` is the list of removed
     * cells (possibly with repeats), empty on a refusal.
     */
    method PlaceStone(x: int, y: int) returns (v: Verdict, captured: seq<Pos>)
      requires Valid() && InBounds(Pos(x, y))
      modifies this
      ensures Valid()
      ensures v == Judge(old(board), old(turn), Pos(x, y))
      ensures v != Legal ==> board == old(board) && turn == old(turn) && captured == []
      ensures v == Legal ==> board == After(old(board), old(turn), Pos(x, y)) && turn == Other(old(turn))
      ensures v == Legal ==> forall q :: q in captured <==> q in Captures(old(board), old(turn), Pos(x, y))
    {
      var p := Pos(x, y);
      if board[x][y] != Empty {
        return IllegalOccupied, [];
      }
      var original := board;
      board := Put(board, p, turn);
      var capturedStones := FindCapturedGroups(board, p, turn);
      var hasLiberties, _ := GroupHasLiberty(board, p, turn);
      JudgeBySearch(original, turn, p, capturedStones, hasLiberties);
      if |capturedStones| == 0 && !hasLiberties {
        board := original;
        return IllegalSuicide, [];
      }
      RemoveStones(capturedStones);
      turn := Other(turn);
      return Legal, capturedStones;
    }
  }
}
