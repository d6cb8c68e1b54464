# Go board engine: a verified model

This project models the rules engine of a small browser Go board, `Site/JS/Go.js`. The engine has these parts:

- a 19×19 board, where each cell is empty, black or white;
- the player to move, who is Black at the start;
- a search that tells whether a group of stones has a liberty;
- a search that collects the opposing groups captured by a new stone;
- the placement transaction:
  - an occupied cell is refused;
  - otherwise the stone goes down and the captures are collected;
  - a move that captures nothing and leaves its own group without a liberty is rolled back as suicide;
  - otherwise the captured stones are removed and the turn passes;
- the reset, which empties the board and gives the move back to Black.

The model has six modules:

- `Grid` holds the board as a value: colours, coordinates, `Neighbors`, and the functions `Put` and `Clear`.
- `Groups` holds the meaning of a group. `Reaches` says a cell can be reached from a start cell by orthogonal steps onto one colour. `ReachesLiberty` says such a group touches an empty cell. `CapturedBy` describes a stone captured by a placement.
- `Search` holds the breadth-first searches as imperative methods with loop invariants. Each is proved equal to its definition in `Groups`.
- `Rules` gives the verdict (`Judge`), the captured set (`Captures`) and the board after a legal move (`After`), and proves rule-level properties about them.
- `Engine` holds the mutable state (`board` and `currentPlayer`) as the class `Game`. Its `PlaceStone` is proved to follow `Rules`, and `Reset` is proved to restore the start state.
- `Scenarios` checks two corner positions: a suicide that is refused and a capture that is allowed.

## Model

| member | source | states |
|---|---|---|
| Grid.Neighbors | Site/JS/Go.js:49-56 | at most four distinct orthogonal neighbours; for a board cell, a cell is listed iff it is on the board and adjacent |
| Grid.Other | Site/JS/Go.js:142 | the next player is never "empty" and differs from the current one |
| Grid.Put | Site/JS/Go.js:122 | one cell gets the new colour, every other cell keeps its own |
| Grid.Clear | Site/JS/Go.js:137-139 | the cells of the set become empty, every other cell keeps its own |
| Grid.EmptyBoard | Site/JS/Go.js:6 | a 19×19 grid whose every cell is empty |
| Grid.AtMostAllCells | Site/JS/Go.js:58-80 | any set of board cells, such as the visited set of a search, has at most 19×19 members; this bounds the searches |
| Groups.ReachedWithin | Site/JS/Go.js:65-77 | a set that holds the start and is closed under same-colour steps holds the whole group, which is why the searches are complete |
| Groups.ReachedSameColor | Site/JS/Go.js:98-109 | every cell of a stone's group is on the board and has that stone's colour |
| Groups.LibertyAmongNeighbors | Site/JS/Go.js:68-71 | a cell has a liberty exactly when one of its listed neighbours is empty |
| Search.GroupHasLiberty | Site/JS/Go.js:58-80 | the search answers true iff some cell of the group reached from the start cell has an empty neighbour; it handles at most 19×19 cells |
| Search.CollectGroup | Site/JS/Go.js:93-109 | the collected list starts at the start cell, has no repeats, and holds exactly the cells of its group |
| Search.FindCapturedGroups | Site/JS/Go.js:82-116 | a cell is listed iff it belongs to a liberty-less group of another colour next to the placed stone; every listed cell holds an opposing stone |
| Rules.JudgeBySearch | Site/JS/Go.js:125-134 | the engine's test (empty capture list and no liberty) gives the suicide verdict exactly as the rule defines it; the listed cells are exactly the captured set |
| Rules.CapturesAreOpponentStones | Site/JS/Go.js:86-111 | every captured cell is on the board, is not the placed cell, and held a stone of the opponent's colour |
| Rules.LegalMoveEffect | Site/JS/Go.js:118-142 | a legal move was on an empty cell; afterwards the cell holds the mover's stone, every captured opponent stone is gone, and no other cell changed |
| Rules.LegalIffLibertyAfterCaptures | Site/JS/Go.js:125-134 | testing suicide before the captures are removed gives the same verdict as asking whether the mover's group has a liberty once they are removed |
| Rules.SameChains | Site/JS/Go.js:65-77 | two boards that agree on where one colour lies have the same groups of that colour |
| Rules.CapturedIffLastLiberty | Site/JS/Go.js:86-91 | an opposing group next to the played cell is captured exactly when that cell was its only liberty |
| Engine.Game.constructor | Site/JS/Go.js:3-6 | a new game has an empty 19×19 board and Black to move |
| Engine.Game.Reset | Site/JS/Go.js:159-161 | from any state, the board becomes empty and Black is to move |
| Engine.Game.RemoveStones | Site/JS/Go.js:136-139 | emptying the listed cells one by one yields the board with exactly that set cleared; the turn is unchanged |
| Engine.Game.PlaceStone | Site/JS/Go.js:118-145 | the verdict matches the rule; a refusal (occupied or suicide) leaves board and turn unchanged; a legal move leaves exactly the board the rule prescribes and passes the turn; the returned cells are exactly the captured set |
| Scenarios.CornerSuicideRefused | Site/JS/Go.js:127-133 | Black playing into a corner between two white stones is refused as suicide |
| Scenarios.CornerCaptureAllowed | Site/JS/Go.js:136-139 | Black filling the last liberty of a white corner stone is legal, captures exactly that stone and empties its cell |

## Left out

- Drawing the board (`drawBoard`, lines 8-47) and the status text in the page (lines 143-144 and 162-163) are I/O and are not modelled.
- Of the click handler (lines 148-157), only the bounds check is modelled, as the precondition of `PlaceStone`. The conversion from pixel coordinates is left out.
- `Site/JS/navBar.js` is not part of this model.
- The searches read the global board in the source; in the model they take the board as a value. They do not change it in either version.
- `handlePlaceStone` returns nothing. The verdict and the captured list that `PlaceStone` returns are added so that its outcome can be stated.
- The deep copy used for rollback (line 121) is a board value snapshot. Aliasing of the row arrays is not modelled.
- The positional-superko rule, passing, scoring and game end do not exist in the source and are not modelled.
- The `checked` set in `findCapturedGroups` is kept. Neighbours of one cell are distinct, so it never skips a cell. Two neighbours in the same captured group are each searched, and that group is listed twice. The model states the captured list by membership, so repeats are allowed.
- Search.GroupHasLiberty: its bound on the number of steps is a ghost result that only bounds the work done; the source has no such value.
