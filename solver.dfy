/**
 * The backtracking solver. One level of `Solve` takes the first word of its
 * list, scans the board for each position its scan accepts, and for each one
 * branches on fresh copies of the three boards, so the boards of the
 * level itself never change. The best complete branch seen so far is kept in
 * the solver's fields.
 */
module Solvers {
  import opened Grids
  import opened Boards
  import opened Search
  import opened WordOrder

  /** The three boards are well formed and hold the search state `f`. */
  ghost predicate Holds(letters: Board, horiz: Board, vert: Board, f: State)
    reads letters, horiz, vert, letters.cells, horiz.cells, vert.cells
  {
    Aligned(letters, horiz, vert) && Snapshot(letters, horiz, vert) == f
  }

  class Solver {
    const board: Board
    const wordList: seq<string>
    /** The best solution: its score (-1 while there is none) and its three boards. */
    var bestScore: int
    var bestLetters: Board?
    var bestHoriz: Board?
    var bestVert: Board?
    /** The placements that led to the best solution, from the state of the current search level. */
    ghost var bestPlacements: seq<Placement>
    /** The search state the best boards hold. */
    ghost var bestState: State

    constructor (board: Board, wordList: seq<string>)
      ensures this.board == board && this.wordList == wordList
      ensures bestScore == -1 && bestLetters == null && bestHoriz == null && bestVert == null
    {
      this.board := board;
      this.wordList := wordList;
      bestScore := -1;
      bestLetters, bestHoriz, bestVert := null, null, null;
      bestPlacements := [];
      bestState := State(0, 0, [], [], []);
    }

    /**
     * Sorts a copy of the word list by descending length and searches from
     * three copies of the starting board, with score 0.
     */
    method GenerateBoard()
      requires board.Valid() && !board.hasCells
      requires forall k :: 0 <= k < |wordList| ==> 1 <= |wordList[k]|
      modifies this
      ensures bestScore >= old(bestScore)
      ensures bestScore == old(bestScore) ==>
        bestLetters == old(bestLetters) && bestHoriz == old(bestHoriz) && bestVert == old(bestVert)
      ensures |wordList| == 0 ==> bestScore == old(bestScore)
      ensures bestScore > old(bestScore) ==>
        bestLetters != null && bestHoriz != null && bestVert != null &&
        Holds(bestLetters, bestHoriz, bestVert, bestState) &&
        Achieves(State(board.sizeX, board.sizeY, board.contents, board.contents, board.contents),
                 SortByLengthDesc(wordList), 0, bestPlacements, bestScore, bestState)
      ensures bestScore > old(bestScore) ==> 0 <= bestScore <= SumLengths(wordList)
      ensures board.contents == old(board.contents)
    {
      var words := SortByLengthDesc(wordList);
      SortKeepsWords(wordList);
      var state := board.Copy(false);
      var stateHoriz := board.Copy(false);
      var stateVert := board.Copy(false);
      Solve(state, stateHoriz, stateVert, words, 0);
      if bestScore > old(bestScore) {
        BranchScoreBounded(Snapshot(state, stateHoriz, stateVert), words, bestPlacements);
        SumLengthsSort(wordList);
      }
    }

    /**
     * Places the words of `wordList` one by one from the given state, trying
     * every position the scan yields for the first word; records a complete
     * branch when its score strictly beats the best so far.
     */
    method Solve(state: Board, stateHoriz: Board, stateVert: Board, wordList: seq<string>, prevScore: int)
      requires Aligned(state, stateHoriz, stateVert)
      requires forall k :: 0 <= k < |wordList| ==> 1 <= |wordList[k]|
      modifies this
      decreases |wordList|, 3
      ensures bestScore >= old(bestScore)
      ensures bestScore == old(bestScore) ==>
        unchanged(this)
      ensures |wordList| == 0 ==> bestScore == old(bestScore)
      ensures bestScore > old(bestScore) ==>
        bestLetters != null && bestHoriz != null && bestVert != null &&
        Holds(bestLetters, bestHoriz, bestVert, bestState) &&
        Achieves(old(Snapshot(state, stateHoriz, stateVert)), wordList, prevScore, bestPlacements, bestScore, bestState)
    {
      if |wordList| == 0 {
        return;
      }
      var orientation: Option<Orientation> := None;
      var newX, newY := 0, 0;
      var hasNotFinished := true;
      while hasNotFinished
        invariant 0 <= newX && 0 <= newY
        invariant orientation == None ==> newX == 0 && newY == 0
        invariant orientation.Some? ==> newX < state.sizeX && newY < state.sizeY
        invariant bestScore >= old(bestScore)
        invariant bestScore == old(bestScore) ==>
          unchanged(this)
        invariant bestScore > old(bestScore) ==>
          bestLetters != null && bestHoriz != null && bestVert != null &&
          Holds(bestLetters, bestHoriz, bestVert, bestState) &&
          Achieves(old(Snapshot(state, stateHoriz, stateVert)), wordList, prevScore, bestPlacements, bestScore, bestState)
        decreases state.sizeY - StartRow(ScanStart(newX, newY, orientation)), state.sizeX - newX,
          if orientation == Some(Horizontal) then 0 else 1
      {
        var valid, x, y, o := Step(state, stateHoriz, stateVert, wordList, prevScore, newX, newY, orientation);
        if !valid {
          hasNotFinished := false;
          break;
        }
        ScanAdvances(state.sizeX, state.sizeY, ScanStart(newX, newY, orientation), x, y, o.value);
        newX, newY, orientation := x, y, o;
      }
    }

    /**
     * One turn of the search loop: asks the scan for the next position of the
     * first word after `(inX, inY, last)` and, when there is one, explores it.
     */
    method Step(state: Board, stateHoriz: Board, stateVert: Board, wordList: seq<string>, prevScore: int,
                inX: int, inY: int, last: Option<Orientation>)
      returns (valid: bool, newX: int, newY: int, orientation: Option<Orientation>)
      requires Aligned(state, stateHoriz, stateVert)
      requires forall k :: 0 <= k < |wordList| ==> 1 <= |wordList[k]|
      requires 1 <= |wordList| && 0 <= inX && 0 <= inY
      modifies this
      decreases |wordList|, 2
      ensures valid ==> orientation.Some? && 0 <= newX < state.sizeX && 0 <= newY < state.sizeY
      ensures valid ==> ScanAfter(ScanStart(inX, inY, last), newX, newY, orientation.value)
      ensures bestScore >= old(bestScore)
      ensures bestScore == old(bestScore) ==>
        unchanged(this)
      ensures bestScore > old(bestScore) ==>
        bestLetters != null && bestHoriz != null && bestVert != null &&
        Holds(bestLetters, bestHoriz, bestVert, bestState) &&
        Achieves(old(Snapshot(state, stateHoriz, stateVert)), wordList, prevScore, bestPlacements, bestScore, bestState)
    {
      var currX, currY, partialScore;
      valid, currX, currY, newX, newY, orientation, partialScore :=
        GetNextValidPosition(inX, inY, state, stateHoriz, stateVert, wordList[0], last, Snapshot(state, stateHoriz, stateVert));
      if valid {
        Explore(state, stateHoriz, stateVert, wordList, prevScore, currX, currY, orientation.value, partialScore);
      }
    }

    /**
     * The body of the search loop for one accepted position: places the first
     * word on copies of the boards and goes on from there.
     */
    method Explore(state: Board, stateHoriz: Board, stateVert: Board, wordList: seq<string>, prevScore: int,
                   currX: int, currY: int, o: Orientation, partialScore: int)
      requires Aligned(state, stateHoriz, stateVert)
      requires forall k :: 0 <= k < |wordList| ==> 1 <= |wordList[k]|
      requires 1 <= |wordList| && Legal(Snapshot(state, stateHoriz, stateVert), wordList[0], Placement(currX, currY, o, partialScore))
      modifies this
      decreases |wordList|, 1
      ensures bestScore >= old(bestScore)
      ensures bestScore == old(bestScore) ==>
        unchanged(this)
      ensures bestScore > old(bestScore) ==>
        bestLetters != null && bestHoriz != null && bestVert != null &&
        Holds(bestLetters, bestHoriz, bestVert, bestState) &&
        Achieves(old(Snapshot(state, stateHoriz, stateVert)), wordList, prevScore, bestPlacements, bestScore, bestState)
    {
      var newState, newStateHoriz, newStateVert := PlaceOnCopies(state, stateHoriz, stateVert, currX, currY, o, wordList[0]);
      Advance(newState, newStateHoriz, newStateVert, wordList, prevScore, Placement(currX, currY, o, partialScore),
              Snapshot(state, stateHoriz, stateVert));
    }

    /**
     * Goes on from the boards `newState`, `newStateHoriz`, `newStateVert` that
     * placement `p` of the first word left in state `s`: records the result
     * when it was the last word and beats the best score, or searches on with
     * the remaining words.
     */
    method Advance(newState: Board, newStateHoriz: Board, newStateVert: Board, wordList: seq<string>, prevScore: int,
                   p: Placement, ghost s: State)
      requires Aligned(newState, newStateHoriz, newStateVert)
      requires forall k :: 0 <= k < |wordList| ==> 1 <= |wordList[k]|
      requires s.Valid() && 1 <= |wordList| && Legal(s, wordList[0], p)
      requires Snapshot(newState, newStateHoriz, newStateVert) == Apply(s, wordList[0], p)
      modifies this
      decreases |wordList|, 0
      ensures bestScore >= old(bestScore)
      ensures bestScore == old(bestScore) ==>
        unchanged(this)
      ensures bestScore > old(bestScore) ==>
        bestLetters != null && bestHoriz != null && bestVert != null &&
        Holds(bestLetters, bestHoriz, bestVert, bestState) &&
        Achieves(s, wordList, prevScore, bestPlacements, bestScore, bestState)
      ensures |wordList| == 1 ==>
        bestScore == if prevScore + p.score > old(bestScore) then prevScore + p.score else old(bestScore)
      ensures |wordList| == 1 && prevScore + p.score > old(bestScore) ==> bestPlacements == [p]
    {
      var newWordList := wordList[1..];
      var score := prevScore + p.score;
      if |newWordList| == 0 {
        ghost var before := bestScore;
        KeepIfBetter(newState, newStateHoriz, newStateVert, score, [p]);
        if bestScore > before {
          AchievesCons(s, wordList, prevScore, p, [], bestScore, bestState);
          assert [p] + [] == [p];
        }
      } else {
        ghost var before := bestScore;
        Solve(newState, newStateHoriz, newStateVert, newWordList, score);
        if bestScore > before {
          ghost var rest := bestPlacements;
          bestPlacements := [p] + rest;
          AchievesCons(s, wordList, prevScore, p, rest, bestScore, bestState);
        }
      }
    }

    /**
     * Records a complete placement when its score strictly beats the best so
     * far: a copy of the letter board and the two guard boards themselves.
     */
    method KeepIfBetter(newState: Board, newStateHoriz: Board, newStateVert: Board, score: int,
                        ghost ps: seq<Placement>)
      requires Aligned(newState, newStateHoriz, newStateVert)
      modifies this
      ensures bestScore == if score > old(bestScore) then score else old(bestScore)
      ensures score > old(bestScore) ==>
        bestLetters != null && fresh(bestLetters) && bestHoriz == newStateHoriz && bestVert == newStateVert &&
        bestPlacements == ps && bestState == Snapshot(newState, newStateHoriz, newStateVert) &&
        Holds(bestLetters, bestHoriz, bestVert, bestState)
      ensures score <= old(bestScore) ==>
        unchanged(this)
    {
      var bestSoFar := bestScore;
      if score > bestSoFar {
        var bestStateBoard := newState.Copy(false);
        bestScore, bestLetters, bestHoriz, bestVert := score, bestStateBoard, newStateHoriz, newStateVert;
        bestPlacements := ps;
        bestState := Snapshot(newState, newStateHoriz, newStateVert);
      }
    }

    /**
     * Copies the three boards and writes `word` at `(x, y)` on the copy of the
     * letter board and stamps its pattern on the copy of its orientation's
     * guard board; the originals are unchanged.
     */
    static method PlaceOnCopies(state: Board, stateHoriz: Board, stateVert: Board,
                                x: int, y: int, o: Orientation, word: string)
      returns (newState: Board, newStateHoriz: Board, newStateVert: Board)
      requires Aligned(state, stateHoriz, stateVert)
      requires Fits(state.sizeX, state.sizeY, o, x, y, |word|)
      ensures fresh(newState) && fresh(newState.cells) && fresh(newStateHoriz) && fresh(newStateHoriz.cells)
      ensures fresh(newStateVert) && fresh(newStateVert.cells)
      ensures newState.cells != newStateHoriz.cells && newState.cells != newStateVert.cells &&
        newStateHoriz.cells != newStateVert.cells
      ensures Aligned(newState, newStateHoriz, newStateVert) && newState.sizeX == state.sizeX && newState.sizeY == state.sizeY
      ensures Snapshot(newState, newStateHoriz, newStateVert) == Place(Snapshot(state, stateHoriz, stateVert), o, x, y, word)
    {
      newState := state.Copy(false);
      newStateHoriz := stateHoriz.Copy(false);
      newStateVert := stateVert.Copy(false);
      if o == Horizontal {
        var _ := newState.SetWordHorizontal(x, y, word);
        var _ := newStateHoriz.SetWordHorizontalGuard(x, y, word);
      } else {
        var _ := newState.SetWordVertical(x, y, word);
        var _ := newStateVert.SetWordVerticalGuard(x, y, word);
      }
    }

    /**
     * Resumes the row-major scan for the next position of `currWord`: after a
     * down result it moves to the next row, every row starts at column `inX`,
     * across is tried before down at each cell (across is not retried at the
     * previous across result), and cells holding another first letter are
     * passed over. Returns the first accepted position, or `valid == false`.
     */
    method GetNextValidPosition(inX: int, inY: int, state: Board, stateHoriz: Board, stateVert: Board,
                                currWord: string, lastOrientation: Option<Orientation>, ghost s: State)
      returns (valid: bool, currX: int, currY: int, newX: int, newY: int,
               orientation: Option<Orientation>, partialScore: int)
      requires Aligned(state, stateHoriz, stateVert)
      requires 0 <= inX && 0 <= inY && 1 <= |currWord| && s == Snapshot(state, stateHoriz, stateVert)
      ensures valid ==> (orientation.Some? && newX == currX && newY == currY &&
        FirstAccepted(s, currWord, ScanStart(inX, inY, lastOrientation),
                      currX, currY, orientation.value, partialScore))
      ensures valid ==> orientation.Some? && Legal(s, currWord, Placement(currX, currY, orientation.value, partialScore))
      ensures valid ==> ScanAfter(ScanStart(inX, inY, lastOrientation), currX, currY, orientation.value)
      ensures valid && lastOrientation.Some? ==>
        PositionBefore(inY, inX, lastOrientation.value, currY, currX, orientation.value)
      ensures !valid ==> (currX == -1 && currY == -1 && newX == -1 && newY == -1 && partialScore == 0 &&
        Exhausted(s, currWord, ScanStart(inX, inY, lastOrientation)))
    {
      ghost var sc := ScanStart(inX, inY, lastOrientation);
      valid, currX, currY, newX, newY, partialScore := false, -1, -1, -1, -1, 0;
      var last := lastOrientation;
      var startY := inY;
      if last == Some(Vertical) {
        startY := inY + 1;
        last := None;
      }
      ScanStartEmpty(s, currWord, sc);
      var x, y := inX, startY;
      var found := false;
      while y < state.sizeY && !found
        invariant StartRow(sc) == startY <= y && inX <= x
        invariant !found ==> RejectedBefore(s, currWord, sc, inX, y)
        invariant !found ==> (last == Some(Horizontal) <==> sc.last == Some(Horizontal) && SkippedBefore(s, currWord, sc, inX, y))
        invariant !found ==> partialScore == 0
        invariant found ==> (y < state.sizeY && x < state.sizeX && last.Some? &&
          FirstAccepted(s, currWord, sc, x, y, last.value, partialScore) &&
          (last == Some(Horizontal) ==> !(sc.last == Some(Horizontal) && SkippedBefore(s, currWord, sc, x, y))))
        decreases state.sizeY - y, if found then 0 else 1
      {
        found, x, last, partialScore := ScanRow(inX, y, state, stateHoriz, stateVert, currWord, last, sc);
        if !found {
          y := y + 1;
        }
      }
      if found {
        valid := true;
        currX, currY, newX, newY := x, y, x, y;
        FirstAcceptedLegal(s, currWord, sc, x, y, last.value, partialScore);
      }
      orientation := last;
    }

    /**
     * One row of the scan: the cells of row `y` from column `sc.inX` rightwards,
     * each tried across (unless the previous result was across and this is
     * the first cell not passed over) and then down.
     */
    method ScanRow(inX: int, y: int, state: Board, stateHoriz: Board, stateVert: Board, currWord: string,
                   last0: Option<Orientation>, ghost sc: ScanStart)
      returns (found: bool, x: int, last: Option<Orientation>, partialScore: int)
      requires Aligned(state, stateHoriz, stateVert) && 1 <= |currWord|
      requires 0 <= inX == sc.inX && 0 <= StartRow(sc) <= y < state.sizeY
      requires RejectedBefore(Snapshot(state, stateHoriz, stateVert), currWord, sc, sc.inX, y)
      requires last0 == Some(Horizontal) <==>
        sc.last == Some(Horizontal) && SkippedBefore(Snapshot(state, stateHoriz, stateVert), currWord, sc, sc.inX, y)
      ensures sc.inX <= x
      ensures !found ==> (partialScore == 0 &&
        RejectedBefore(Snapshot(state, stateHoriz, stateVert), currWord, sc, sc.inX, y + 1) &&
        (last == Some(Horizontal) <==>
         sc.last == Some(Horizontal) && SkippedBefore(Snapshot(state, stateHoriz, stateVert), currWord, sc, sc.inX, y + 1)))
      ensures found ==> (x < state.sizeX && last.Some? &&
        FirstAccepted(Snapshot(state, stateHoriz, stateVert), currWord, sc, x, y, last.value, partialScore) &&
        (last == Some(Horizontal) ==>
         !(sc.last == Some(Horizontal) && SkippedBefore(Snapshot(state, stateHoriz, stateVert), currWord, sc, x, y))))
    {
      ghost var s := Snapshot(state, stateHoriz, stateVert);
      found, last, partialScore := false, last0, 0;
      x := inX;
      while x < state.sizeX && !found
        invariant sc.inX <= x
        invariant !found ==> RejectedBefore(s, currWord, sc, x, y)
        invariant !found ==> (last == Some(Horizontal) <==> sc.last == Some(Horizontal) && SkippedBefore(s, currWord, sc, x, y))
        invariant !found ==> partialScore == 0
        invariant found ==> (x < state.sizeX && last.Some? &&
          FirstAccepted(s, currWord, sc, x, y, last.value, partialScore) &&
          (last == Some(Horizontal) ==> !(sc.last == Some(Horizontal) && SkippedBefore(s, currWord, sc, x, y))))
        decreases state.sizeX - x, if found then 0 else 1
      {
        NextCell(s, currWord, sc, x, y);
        var currPosLetter := state.cells[x, y];
        if !(currPosLetter != EMPTY && currPosLetter != currWord[0]) {
          var res := false;
          if last != Some(Horizontal) {
            last := Some(Horizontal);
            if x < state.sizeX - |currWord| {
              res, partialScore := CanWordBePlacedHorizontal(x, y, state, stateHoriz, stateVert, currWord);
              found := res;
            }
          }
          if !found && last == Some(Horizontal) {
            last := Some(Vertical);
            if y < state.sizeY - |currWord| {
              res, partialScore := CanWordBePlacedVertical(x, y, state, stateHoriz, stateVert, currWord);
              found := res;
            }
          }
        }
        if !found {
          x := x + 1;
        }
      }
      if !found {
        NextRow(s, currWord, sc, x, y);
      }
    }

    /**
     * The across placement rule at `(x, y)`: rejects when either end cell is a
     * flank or side in either guard board, or when a letter's cell holds an
     * across word, flank or side in the across guard board, a flank in the down
     * guard board, or another letter; otherwise accepts with the number of
     * letters already on the board.
     */
    method CanWordBePlacedHorizontal(x: int, y: int, state: Board, stateHoriz: Board, stateVert: Board, word: string)
      returns (result: bool, partialScore: int)
      requires Aligned(state, stateHoriz, stateVert)
      requires 1 <= |word| && Fits(state.sizeX, state.sizeY, Horizontal, x, y, |word|)
      ensures result == Placeable(Snapshot(state, stateHoriz, stateVert), Horizontal, x, y, word)
      ensures partialScore == if result then Overlaps(Snapshot(state, stateHoriz, stateVert), Horizontal, x, y, word, |word|) else 0
      ensures 0 <= partialScore <= |word|
    {
      ghost var s := Snapshot(state, stateHoriz, stateVert);
      var endX := x + |word| - 1;
      if stateHoriz.cells[x, y] == NO_CURR_ORIENT || stateVert.cells[x, y] == NO_CURR_ORIENT ||
         stateHoriz.cells[x, y] == NO_HORIZ_NO_VERT || stateVert.cells[x, y] == NO_HORIZ_NO_VERT ||
         stateHoriz.cells[endX, y] == NO_CURR_ORIENT || stateVert.cells[endX, y] == NO_CURR_ORIENT ||
         stateHoriz.cells[endX, y] == NO_HORIZ_NO_VERT || stateVert.cells[endX, y] == NO_HORIZ_NO_VERT
      {
        return false, 0;
      }
      partialScore := 0;
      var i := 0;
      while i < |word|
        invariant 0 <= i <= |word|
        invariant forall j :: 0 <= j < i ==> CellFree(s, Horizontal, x, y, word, j)
        invariant partialScore == Overlaps(s, Horizontal, x, y, word, i)
      {
        var xi := x + i;
        if stateHoriz.cells[xi, y] == HORIZONTAL || stateHoriz.cells[xi, y] == NO_HORIZ_NO_VERT ||
           stateVert.cells[xi, y] == NO_HORIZ_NO_VERT || stateHoriz.cells[xi, y] == NO_CURR_ORIENT ||
           (state.cells[xi, y] != EMPTY && state.cells[xi, y] != word[i])
        {
          assert !CellFree(s, Horizontal, x, y, word, i);
          return false, 0;
        }
        if state.cells[xi, y] != EMPTY && state.cells[xi, y] == word[i] {
          partialScore := partialScore + 1;
        }
        i := i + 1;
      }
      result := true;
    }

    /** The down placement rule at `(x, y)`: the mirror of the across rule, with the guard boards' roles swapped. */
    method CanWordBePlacedVertical(x: int, y: int, state: Board, stateHoriz: Board, stateVert: Board, word: string)
      returns (result: bool, partialScore: int)
      requires Aligned(state, stateHoriz, stateVert)
      requires 1 <= |word| && Fits(state.sizeX, state.sizeY, Vertical, x, y, |word|)
      ensures result == Placeable(Snapshot(state, stateHoriz, stateVert), Vertical, x, y, word)
      ensures partialScore == if result then Overlaps(Snapshot(state, stateHoriz, stateVert), Vertical, x, y, word, |word|) else 0
      ensures 0 <= partialScore <= |word|
    {
      ghost var s := Snapshot(state, stateHoriz, stateVert);
      var endY := y + |word| - 1;
      if stateHoriz.cells[x, y] == NO_CURR_ORIENT || stateVert.cells[x, y] == NO_CURR_ORIENT ||
         stateHoriz.cells[x, y] == NO_HORIZ_NO_VERT || stateVert.cells[x, y] == NO_HORIZ_NO_VERT ||
         stateHoriz.cells[x, endY] == NO_CURR_ORIENT || stateVert.cells[x, endY] == NO_CURR_ORIENT ||
         stateHoriz.cells[x, endY] == NO_HORIZ_NO_VERT || stateVert.cells[x, endY] == NO_HORIZ_NO_VERT
      {
        return false, 0;
      }
      partialScore := 0;
      var i := 0;
      while i < |word|
        invariant 0 <= i <= |word|
        invariant forall j :: 0 <= j < i ==> CellFree(s, Vertical, x, y, word, j)
        invariant partialScore == Overlaps(s, Vertical, x, y, word, i)
      {
        var yi := y + i;
        if stateVert.cells[x, yi] == VERTICAL || stateVert.cells[x, yi] == NO_HORIZ_NO_VERT ||
           stateHoriz.cells[x, yi] == NO_HORIZ_NO_VERT || stateVert.cells[x, yi] == NO_CURR_ORIENT ||
           (state.cells[x, yi] != EMPTY && state.cells[x, yi] != word[i])
        {
          assert !CellFree(s, Vertical, x, y, word, i);
          return false, 0;
        }
        if state.cells[x, yi] != EMPTY && state.cells[x, yi] == word[i] {
          partialScore := partialScore + 1;
        }
        i := i + 1;
      }
      result := true;
    }
  }
}
