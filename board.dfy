/**
 * The board: a `sizeX` by `sizeY` array of characters, updated in place.
 * One class plays three roles in the search: the letter grid and the two
 * guard grids. `hasCells` records the drawable mode of a board; in that mode
 * every cell still holds one character, and only the guard stamps treat it
 * differently (they refuse to run).
 */
module Boards {
  import opened Grids

  /** The grid of a freshly cleared board: every cell empty. */
  function Blank(sizeX: nat, sizeY: nat): (g: Grid)
    ensures Shaped(g, sizeX, sizeY)
    ensures forall c, r :: 0 <= c < sizeX && 0 <= r < sizeY ==> g[c][r] == EMPTY
  {
    seq(sizeX, c => seq(sizeY, r => EMPTY))
  }

  class Board {
    const sizeX: nat
    const sizeY: nat
    const hasCells: bool
    const cells: array2<char>
    /** The board's cells as a value: `contents[x][y]` is `cells[x, y]`. */
    ghost var contents: Grid

    predicate Dimensions()
    {
      cells.Length0 == sizeX && cells.Length1 == sizeY
    }

    ghost predicate Valid()
      reads this, cells
    {
      Dimensions() && Shaped(contents, sizeX, sizeY) &&
      forall c, r {:trigger cells[c, r]} :: 0 <= c < sizeX && 0 <= r < sizeY ==> contents[c][r] == cells[c, r]
    }

    /** A new board with every cell empty. */
    constructor (sizeX: nat, sizeY: nat, hasCells: bool)
      ensures Valid() && fresh(cells)
      ensures this.sizeX == sizeX && this.sizeY == sizeY && this.hasCells == hasCells
      ensures contents == Blank(sizeX, sizeY)
    {
      this.sizeX, this.sizeY, this.hasCells := sizeX, sizeY, hasCells;
      cells := new char[sizeX, sizeY];
      new;
      Clear();
    }

    /** A new board of the size of `src`, holding the same characters in an array of its own. */
    constructor CopyOf(src: Board, hasCells: bool)
      requires src.Valid()
      ensures Valid() && fresh(cells)
      ensures sizeX == src.sizeX && sizeY == src.sizeY && this.hasCells == hasCells
      ensures contents == src.contents
    {
      sizeX, sizeY, this.hasCells := src.sizeX, src.sizeY, hasCells;
      cells := new char[src.sizeX, src.sizeY];
      contents := src.contents;
      new;
      var x := 0;
      while x < sizeX
        invariant 0 <= x <= sizeX
        invariant contents == src.contents
        invariant forall c, r :: 0 <= c < x && 0 <= r < sizeY ==> cells[c, r] == src.cells[c, r]
      {
        var y := 0;
        while y < sizeY
          invariant 0 <= y <= sizeY
          invariant contents == src.contents
          invariant forall c, r :: 0 <= c < x && 0 <= r < sizeY ==> cells[c, r] == src.cells[c, r]
          invariant forall r :: 0 <= r < y ==> cells[x, r] == src.cells[x, r]
        {
          cells[x, y] := src.cells[x, y];
          y := y + 1;
        }
        x := x + 1;
      }
    }

    /** A deep copy: writes to either board afterwards do not reach the other. */
    method Copy(hasCells: bool) returns (b: Board)
      requires Valid()
      ensures fresh(b) && fresh(b.cells) && b.Valid()
      ensures b.sizeX == sizeX && b.sizeY == sizeY && b.hasCells == hasCells
      ensures b.contents == contents
    {
      b := new Board.CopyOf(this, hasCells);
    }

    /** Empties every cell. */
    method Clear()
      requires Dimensions()
      modifies this, cells
      ensures Valid() && contents == Blank(sizeX, sizeY)
    {
      var x := 0;
      while x < sizeX
        invariant 0 <= x <= sizeX
        invariant forall c, r :: 0 <= c < x && 0 <= r < sizeY ==> cells[c, r] == EMPTY
      {
        var y := 0;
        while y < sizeY
          invariant 0 <= y <= sizeY
          invariant forall c, r :: 0 <= c < x && 0 <= r < sizeY ==> cells[c, r] == EMPTY
          invariant forall r :: 0 <= r < y ==> cells[x, r] == EMPTY
        {
          cells[x, y] := EMPTY;
          y := y + 1;
        }
        x := x + 1;
      }
      contents := Blank(sizeX, sizeY);
    }

    /** Puts one character on one cell. */
    method SetLetter(x: int, y: int, letter: char)
      requires Valid() && 0 <= x < sizeX && 0 <= y < sizeY
      modifies this, cells
      ensures Valid()
      ensures contents == old(contents)[x := old(contents)[x][y := letter]]
    {
      cells[x, y] := letter;
      contents := contents[x := contents[x][y := letter]];
    }

    /** Writes `word` from `(x, y)` rightwards, when it fits in the row. */
    method SetWordHorizontal(x: int, y: int, word: string) returns (ok: bool)
      requires Valid() && 0 <= x && 0 <= y < sizeY
      modifies this, cells
      ensures Valid()
      ensures ok <==> |word| <= sizeX - x
      ensures ok ==> forall i :: 0 <= i < |word| ==> cells[x + i, y] == word[i]
      ensures forall c, r :: 0 <= c < sizeX && 0 <= r < sizeY && !(ok && r == y && x <= c < x + |word|) ==>
        cells[c, r] == old(cells[c, r])
      ensures contents == if ok then Write(old(contents), Horizontal, x, y, word) else old(contents)
    {
      if |word| <= sizeX - x {
        var i := 0;
        while i < |word|
          invariant 0 <= i <= |word| && contents == old(contents)
          invariant forall c, r :: 0 <= c < sizeX && 0 <= r < sizeY ==>
            cells[c, r] == if r == y && x <= c < x + i then word[c - x] else old(cells[c, r])
        {
          cells[x + i, y] := word[i];
          i := i + 1;
        }
        ok := true;
        contents := Write(contents, Horizontal, x, y, word);
      } else {
        ok := false;
      }
    }

    /** Writes `word` from `(x, y)` downwards, when it fits in the column. */
    method SetWordVertical(x: int, y: int, word: string) returns (ok: bool)
      requires Valid() && 0 <= x < sizeX && 0 <= y
      modifies this, cells
      ensures Valid()
      ensures ok <==> |word| <= sizeY - y
      ensures ok ==> forall j :: 0 <= j < |word| ==> cells[x, y + j] == word[j]
      ensures forall c, r :: 0 <= c < sizeX && 0 <= r < sizeY && !(ok && c == x && y <= r < y + |word|) ==>
        cells[c, r] == old(cells[c, r])
      ensures contents == if ok then Write(old(contents), Vertical, x, y, word) else old(contents)
    {
      if |word| <= sizeY - y {
        var j := 0;
        while j < |word|
          invariant 0 <= j <= |word| && contents == old(contents)
          invariant forall c, r :: 0 <= c < sizeX && 0 <= r < sizeY ==>
            cells[c, r] == if c == x && y <= r < y + j then word[r - y] else old(cells[c, r])
        {
          cells[x, y + j] := word[j];
          j := j + 1;
        }
        ok := true;
        contents := Write(contents, Vertical, x, y, word);
      } else {
        ok := false;
      }
    }

    /**
     * Stamps the exclusion pattern of an across word on this guard board:
     * `H` on the word, `O` on the cell before and the cell after it, `N` above
     * and below each letter; cells beyond the board's edge are skipped.
     */
    method SetWordHorizontalGuard(x: int, y: int, word: string) returns (ok: bool)
      requires Valid() && 0 <= y < sizeY
      modifies this, cells
      ensures Valid()
      ensures ok <==> !hasCells && |word| <= sizeX - x
      ensures ok ==> forall c :: 0 <= c < sizeX && x <= c < x + |word| ==> cells[c, y] == HORIZONTAL
      ensures ok && 0 <= x - 1 < sizeX ==> cells[x - 1, y] == NO_HORIZ_NO_VERT
      ensures ok && 0 <= x + |word| < sizeX ==> cells[x + |word|, y] == NO_HORIZ_NO_VERT
      ensures ok ==> forall c, r :: 0 <= c < sizeX && 0 <= r == y - 1 && x <= c < x + |word| ==> cells[c, r] == NO_CURR_ORIENT
      ensures ok ==> forall c, r :: 0 <= c < sizeX && y + 1 == r < sizeY && x <= c < x + |word| ==> cells[c, r] == NO_CURR_ORIENT
      ensures forall c, r :: 0 <= c < sizeX && 0 <= r < sizeY && !(ok && y - 1 <= r <= y + 1 && x - 1 <= c <= x + |word|) ==>
        cells[c, r] == old(cells[c, r])
      ensures contents == if ok then Guard(old(contents), Horizontal, x, y, |word|) else old(contents)
    {
      if hasCells {
        return false;
      }
      if |word| <= sizeX - x {
        var i := -1;
        while i < |word| + 1
          invariant -1 <= i <= |word| + 1 && contents == old(contents)
          invariant forall c, r :: 0 <= c < sizeX && 0 <= r < sizeY ==>
            cells[c, r] == if c < x + i then GuardCell(old(cells[c, r]), Horizontal, x, y, |word|, c, r) else old(cells[c, r])
        {
          if x + i < 0 || x + i > sizeX - 1 {
            i := i + 1;
            continue;
          }
          // The row above the word.
          if y > 0 {
            if !(i == -1 || i == |word|) {
              cells[x + i, y - 1] := NO_CURR_ORIENT;
            }
          }
          // The word's own row: flanks before and after, the word in between.
          if i == -1 || i == |word| {
            cells[x + i, y] := NO_HORIZ_NO_VERT;
          } else {
            cells[x + i, y] := HORIZONTAL;
          }
          // The row below the word.
          if y < sizeY - 1 {
            if !(i == -1 || i == |word|) {
              cells[x + i, y + 1] := NO_CURR_ORIENT;
            }
          }
          i := i + 1;
        }
        ok := true;
        contents := Guard(contents, Horizontal, x, y, |word|);
      } else {
        ok := false;
      }
    }

    /**
     * Stamps the exclusion pattern of a down word on this guard board:
     * `V` on the word, `O` on the cell above and the cell below it, `N` left
     * and right of each letter; cells beyond the board's edge are skipped.
     */
    method SetWordVerticalGuard(x: int, y: int, word: string) returns (ok: bool)
      requires Valid() && 0 <= x < sizeX
      modifies this, cells
      ensures Valid()
      ensures ok <==> !hasCells && |word| <= sizeY - y
      ensures ok ==> forall r :: 0 <= r < sizeY && y <= r < y + |word| ==> cells[x, r] == VERTICAL
      ensures ok && 0 <= y - 1 < sizeY ==> cells[x, y - 1] == NO_HORIZ_NO_VERT
      ensures ok && 0 <= y + |word| < sizeY ==> cells[x, y + |word|] == NO_HORIZ_NO_VERT
      ensures ok ==> forall c, r :: 0 <= c == x - 1 && 0 <= r < sizeY && y <= r < y + |word| ==> cells[c, r] == NO_CURR_ORIENT
      ensures ok ==> forall c, r :: x + 1 == c < sizeX && 0 <= r < sizeY && y <= r < y + |word| ==> cells[c, r] == NO_CURR_ORIENT
      ensures forall c, r :: 0 <= c < sizeX && 0 <= r < sizeY && !(ok && x - 1 <= c <= x + 1 && y - 1 <= r <= y + |word|) ==>
        cells[c, r] == old(cells[c, r])
      ensures contents == if ok then Guard(old(contents), Vertical, x, y, |word|) else old(contents)
    {
      if hasCells {
        return false;
      }
      if |word| <= sizeY - y {
        var i := -1;
        while i < |word| + 1
          invariant -1 <= i <= |word| + 1 && contents == old(contents)
          invariant forall c, r :: 0 <= c < sizeX && 0 <= r < sizeY ==>
            cells[c, r] == if r < y + i then GuardCell(old(cells[c, r]), Vertical, x, y, |word|, c, r) else old(cells[c, r])
        {
          if y + i < 0 || y + i > sizeY - 1 {
            i := i + 1;
            continue;
          }
          // The column left of the word.
          if x > 0 {
            if !(i == -1 || i == |word|) {
              cells[x - 1, y + i] := NO_CURR_ORIENT;
            }
          }
          // The word's own column: flanks above and below, the word in between.
          if i == -1 || i == |word| {
            cells[x, y + i] := NO_HORIZ_NO_VERT;
          } else {
            cells[x, y + i] := VERTICAL;
          }
          // The column right of the word.
          if x < sizeX - 1 {
            if !(i == -1 || i == |word|) {
              cells[x + 1, y + i] := NO_CURR_ORIENT;
            }
          }
          i := i + 1;
        }
        ok := true;
        contents := Guard(contents, Vertical, x, y, |word|);
      } else {
        ok := false;
      }
    }
  }

  /** The three boards of one search state are well formed and of one size. */
  ghost predicate Aligned(letters: Board, horiz: Board, vert: Board)
    reads letters, horiz, vert, letters.cells, horiz.cells, vert.cells
  {
    letters.Valid() && horiz.Valid() && vert.Valid() &&
    horiz.sizeX == letters.sizeX && horiz.sizeY == letters.sizeY &&
    vert.sizeX == letters.sizeX && vert.sizeY == letters.sizeY
  }

  /** The search state the three boards hold. */
  ghost function Snapshot(letters: Board, horiz: Board, vert: Board): (s: State)
    reads letters, horiz, vert
    ensures Aligned(letters, horiz, vert) ==> s.Valid()
    ensures s.sizeX == letters.sizeX && s.sizeY == letters.sizeY
  {
    State(letters.sizeX, letters.sizeY, letters.contents, horiz.contents, vert.contents)
  }
}
