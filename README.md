# Crossword placement engine

This is a model of the placement search in `crosswordsMaker.js`, a crossword generator, written in Dafny and verified.

The generator keeps three character boards of one size:
- the **letter board**, where `-` marks an empty cell;
- the **across guard board**;
- the **down guard board**.

Placing a word writes its letters on the letter board. It also stamps an exclusion pattern on the guard board of the word's orientation:
- `H` or `V` on the word's cells;
- `O` on the cell before and the cell after the word, along its axis;
- `N` on the cells alongside the word.

A word may be placed where all of the following hold:
- neither end is a flank (`O`) or side (`N`) in either guard board;
- no letter cell holds a word, flank or side of its own orientation;
- no letter cell holds a flank of the other orientation;
- no letter cell holds a different letter.

The overlap score of a placement is the number of letters the word shares with the board.

The solver sorts the words by length, longest first. From the starting board it runs a backtracking search. Each level takes the first remaining word. It then scans the board in row-major order for the next position its scan accepts, with the quirks listed below, and branches on fresh copies of the three boards. The solver keeps the complete branch with the highest total score.

The project has five modules:
- `Grids` (`grids.dfy`): the markers, states as values (three grids and their size), the placement rule, the overlap score, and the effect of a placement. `Place` writes the letters and stamps the guard pattern.
- `Boards` (`board.dfy`): class `Board`, an `array2<char>` updated in place. A ghost field `contents` holds the same grid as a value, and `Valid()` ties the two together. `Snapshot` reads three boards as a state.
- `Search` (`search.dfy`): branches of the search and their scores and final states. It also specifies the scan order of one level: `FirstAccepted` describes the scan's first result and `Exhausted` a scan without one.
- `WordOrder` (`word_order.dfy`): the stable sort by descending length.
- `Solvers` (`solver.dfy`): class `Solver`, covering the search, the scan and the two placement checks. Each method is proved against the value-level definitions above.

The search loop runs until the scan yields nothing. Termination is proved with the measure "rows left, columns left, across before down". That order is strict because each scan resumes after its previous result. The recursion between the search methods decreases on the length of the word list.

The source creates a new copy at the end of the loop body (line 445) but never uses it. The model omits that copy; placements work only on fresh copies, as in the source. `Solve` and its helpers modify only the solver, so the three boards of a search level are proved unchanged by the whole level.

With an empty word list the code records no solution: the best score stays at -1 and there is no best board (lines 350 and 384-386).

Other behaviours of the code are modelled as written:
- The strict fit tests (lines 483 and 495) mean a word never reaches the last column or the last row. `Legal` includes this test, so every branch of a recorded solution obeys it (`Search.BranchClearOfEdge`).
- Every row of a scan starts at the previous result's column `inX` (line 472), not at column 0.
- After a down result the scan resumes on the next row (lines 466-469). After an across result it tries down at the same cell.

## Model

| member | source | states |
|---|---|---|
| Boards.Board.constructor | crosswordsMaker.js:105-121 | a new board of the given size and mode has every cell empty and an array of its own |
| Boards.Board.CopyOf | crosswordsMaker.js:122-139 | a board built from another has the same size and the same characters, in a fresh array |
| Boards.Board.Copy | crosswordsMaker.js:314-319 | the copy is a fresh board with a fresh array holding the source's characters, so later writes to either board never reach the other |
| Boards.Board.Clear | crosswordsMaker.js:166-176 | afterwards every cell is empty |
| Boards.Board.SetLetter | crosswordsMaker.js:178-184 | exactly cell `(x, y)` changes, to the given letter |
| Boards.Board.SetWordHorizontal | crosswordsMaker.js:186-199 | returns true iff the word fits from `x` to the right edge; on success cell `(x+i, y)` holds `word[i]`; no other cell changes, and on failure nothing changes |
| Boards.Board.SetWordVertical | crosswordsMaker.js:201-214 | the mirror: success iff the word fits from `y` to the bottom edge; only the cells `(x, y+j)` change, each to `word[j]` |
| Boards.Board.SetWordHorizontalGuard | crosswordsMaker.js:216-261 | refuses on a board in cell mode and when the word does not fit; otherwise the footprint is `H`, the in-bounds flanks `(x-1, y)` and `(x+len, y)` are `O`, and the in-bounds cells above and below each letter are `N`; nothing outside the rectangle `[x-1, x+len] × [y-1, y+1]` changes; the grid equals `Guard` of the old grid |
| Boards.Board.SetWordVerticalGuard | crosswordsMaker.js:263-312 | the mirror: `V` on the footprint, `O` above and below, `N` left and right; nothing outside `[x-1, x+1] × [y-1, y+len]` changes |
| Grids.Overlaps | crosswordsMaker.js:555-558 | the overlap score of the first `n` letters is at most `n` |
| Grids.NoConflictingOverwrite | crosswordsMaker.js:545-549 | writing a word where the placement rule allows it keeps every letter already on the board, and the footprint then spells the word |
| Grids.OverlapsCountFilled | crosswordsMaker.js:555-558 | for an allowed placement, the overlap score equals the number of footprint cells that already hold a letter |
| Search.BranchCons | crosswordsMaker.js:427-443 | a legal first placement followed by a branch of the remaining words is a branch of the whole list; its final state and total compose |
| Search.AchievesCons | crosswordsMaker.js:427-443 | what the rest of a branch achieves from the state and score a legal placement leaves is what the whole list achieves |
| Search.BranchClearOfEdge | crosswordsMaker.js:483-495 | no word of a branch reaches the last column (across) or the last row (down), because of the scan's strict fit test |
| Search.BranchScoreBounded | crosswordsMaker.js:428 | the total score of a branch lies between 0 and the total number of letters of its words |
| Search.LettersPersist | crosswordsMaker.js:416-426 | along a branch, a letter once on the board is never replaced |
| Search.WordsSurvive | crosswordsMaker.js:416-426 | at the end of a branch every placed word can still be read where it was placed |
| Search.FirstAcceptedLegal | crosswordsMaker.js:479-499 | the first result of a scan is a legal placement of the word with its true overlap score |
| Search.ScanStartEmpty | crosswordsMaker.js:466-471 | nothing has been visited at the point where a scan starts |
| Search.NextCell | crosswordsMaker.js:472-499 | stepping to the next cell of a row extends the passed-over and rejected prefixes of the scan by one cell |
| Search.NextRow | crosswordsMaker.js:471-502 | past the last column, the visited prefix of row `y` is the visited prefix ending where row `y+1` starts at `inX` |
| Search.ScanAdvances | crosswordsMaker.js:405-414 | a result after the scan's start is strictly lower in the loop's measure (rows left, columns left, across before down) |
| WordOrder.Insert | crosswordsMaker.js:358-364 | inserting into a list sorted by descending length keeps it sorted and adds exactly the word |
| WordOrder.SortByLengthDesc | crosswordsMaker.js:358-364 | the sorted list is ordered by descending length and is a permutation of the input |
| WordOrder.SortKeepsWords | crosswordsMaker.js:358-364 | every word of the sorted list is an input word and every input word is in the sorted list |
| WordOrder.InsertStable | crosswordsMaker.js:358-364 | insertion puts the new word first among the words of its length |
| WordOrder.SortStable | crosswordsMaker.js:358-364 | the words of each length keep their input order (the comparator looks only at lengths, and the sort is stable) |
| WordOrder.SumLengthsInsert | crosswordsMaker.js:358-364 | insertion adds the word's length to the total number of letters |
| WordOrder.SumLengthsSort | crosswordsMaker.js:358-364 | sorting keeps the total number of letters |
| Solvers.Solver.constructor | crosswordsMaker.js:347-351 | a new solver keeps its board and word list and has best score -1 and no best boards |
| Solvers.Solver.GenerateBoard | crosswordsMaker.js:355-380 | the best score never decreases; an empty list leaves it unchanged; when a solution is recorded, some branch of the length-sorted list achieves its score and final state from the starting board, the best boards hold that state, and the score lies between 0 and the total number of letters; every placement of that branch passes the scan's strict fit test; the starting board and the word list are unchanged |
| Solvers.Solver.Solve | crosswordsMaker.js:382-447 | the best score never decreases; when it does not increase, the solver is unchanged; an empty list changes nothing; a new best solution is achieved by a branch of this level's words from this level's state, with the sum of the branch's overlap scores added to `prevScore`; every placement of the branch passes the scan's strict fit test and the placement rule; the best boards hold its final state |
| Solvers.Solver.Step | crosswordsMaker.js:408-446 | one turn of the loop: when the scan yields a position, that position lies on the board and comes strictly after the previous one in scan order; the bookkeeping is as in `Solve` |
| Solvers.Solver.Explore | crosswordsMaker.js:416-446 | places the first word at a legal position on copies and goes on from there; the bookkeeping is as in `Solve` |
| Solvers.Solver.Advance | crosswordsMaker.js:427-446 | after a placement: with no word left, the best score becomes the branch's score exactly when that is strictly higher, and the recorded branch is then this one placement; otherwise the search goes on with the rest; any new best is achieved by a branch that starts with this placement |
| Solvers.Solver.KeepIfBetter | crosswordsMaker.js:430-441 | replaces the best solution exactly when the score is strictly higher, with a fresh copy of the letter board and the two guard boards themselves; otherwise nothing changes |
| Solvers.Solver.PlaceOnCopies | crosswordsMaker.js:416-426 | the three new boards are fresh and distinct, and together they hold `Place` of the three old ones; the old boards are not modified |
| Solvers.Solver.GetNextValidPosition | crosswordsMaker.js:454-517 | on success, the result is the first position in scan order that the scan accepts, a legal placement with its overlap score, strictly after the previous result; on failure, every visited cell was rejected and all coordinates are -1 |
| Solvers.Solver.ScanRow | crosswordsMaker.js:471-502 | one row of the scan from column `inX`: either the row's first accepted position, or every cell of the row rejected |
| Solvers.Solver.CanWordBePlacedHorizontal | crosswordsMaker.js:520-563 | accepts iff the across placement rule holds; the score is the overlap count on acceptance and 0 on rejection, and lies between 0 and the word length |
| Solvers.Solver.CanWordBePlacedVertical | crosswordsMaker.js:566-609 | the mirror for down placements, with the roles of the guard boards swapped |

## Left out

- Drawing: class `Cell`, the canvas context, `draw`, `drawWithOutCells` and `createBoardToDraw` are canvas work and floating-point layout. The drawing call on the new best board (line 437) is dropped for the same reason.
- Cell mode: a board in cell mode is modelled by its `hasCells` flag only, and every cell holds one character. The guard stamps on such a board are modelled as returning false. The source logs through `console.write` / `Console.write` first, which are not defined and would stop the program before that return.
- Boards.Board.CopyOf: the source's `sourceBoardHasCells` argument is not modelled; the copy reads the source board's characters directly.
- Logging: the `console.log` calls are not modelled.
- Manual tests, page start-up and form handling (`test_001`…`test_004`, `init`, `startCrosswordsMaker`, `onSubmit` and the field checks) are DOM and timer code.
- Unused copies: the source makes copies of the two guard boards when a new best is found (lines 434-435) and a copy of the letter board at the end of the loop body (line 445); none is ever read, so the model does not make them.
- Solvers.Solver.Advance, Explore, Step, KeepIfBetter and PlaceOnCopies: these split the inline loop body of `solve` into smaller methods, each with its own contract. The order of operations is the source's.
- Solvers.Solver: the `bestSolution` array `[score, board, horiz, vert]` is modelled as four fields. A ghost field records the state the best boards hold, and another records the branch that produced it.
- Words are required to be non-empty. With an empty word the source reads `currWord[0]` and the cell at column `x - 1`, outside the board.
- Position arguments are required to lie on the board, as every caller in the source ensures.
- Solvers.Solver.GenerateBoard: the starting board is required to be in plain-character mode, as every caller in the source builds it (lines 742, 805). A board in cell mode would be copied as `Cell` objects (line 136), and the scan would pass over every cell (line 476).
- Characters: a Dafny `char` stands for one UTF-16 code unit, which is what `word.length` and `word[i]` count in the source (lines 187, 476, 527, 556). A character outside the Basic Multilingual Plane is two code units there and two `char`s here; the model does not treat it as one letter.
- Words containing `-`: the source uses `-` as the empty-cell marker and compares letters against it (lines 476, 549, 556), and the input form accepts any characters. A `-` inside a placed word therefore leaves a cell that reads as empty, and a later crossing word may overwrite it. The model behaves the same way. `Search.WordsSurvive` states its guarantee only for words without `-`, because it does not hold for the others.
- Optimality of the search and its running time are not stated; the scan does not try every legal position.
