/**
 * Value-level view of the crossword grids: the cell markers, the placement
 * rules (which cells a word may occupy, and how many letters it shares with
 * the board), and the effect of placing a word on the letter grid and on the
 * guard grid of its orientation.
 *
 * A grid is indexed `g[x][y]`, column first, exactly like `board[x][y]`.
 */
module Grids {

  /** Letter-grid value of a free cell. */
  const EMPTY: char := '-'
  /** Guard markers. */
  const HORIZONTAL: char := 'H'
  const VERTICAL: char := 'V'
  /** Flank of a word along its own axis: no word of either orientation may start, end or pass here. */
  const NO_HORIZ_NO_VERT: char := 'O'
  /** Side of a word: no parallel word may pass here, and no word may start or end here. */
  const NO_CURR_ORIENT: char := 'N'

  datatype Option<T> = None | Some(value: T)

  datatype Orientation = Horizontal | Vertical

  type Grid = seq<seq<char>>

  predicate Shaped(g: Grid, sizeX: nat, sizeY: nat)
  {
    |g| == sizeX && forall c :: 0 <= c < sizeX ==> |g[c]| == sizeY
  }

  /** One search state: the letter grid and the two guard grids, all of one size. */
  datatype State = State(sizeX: nat, sizeY: nat, letters: Grid, horiz: Grid, vert: Grid)
  {
    predicate Valid()
    {
      Shaped(letters, sizeX, sizeY) && Shaped(horiz, sizeX, sizeY) && Shaped(vert, sizeX, sizeY)
    }

    predicate InBounds(c: int, r: int)
    {
      0 <= c < sizeX && 0 <= r < sizeY
    }
  }

  /** Column and row of letter `i` of a word anchored at `(x, y)`. */
  function Col(o: Orientation, x: int, i: int): int
  {
    if o == Horizontal then x + i else x
  }

  function Row(o: Orientation, y: int, i: int): int
  {
    if o == Vertical then y + i else y
  }

  /** A word of length `len` anchored at `(x, y)` lies inside a `sizeX` by `sizeY` grid. */
  predicate Fits(sizeX: nat, sizeY: nat, o: Orientation, x: int, y: int, len: nat)
  {
    0 <= x && 0 <= y &&
    if o == Horizontal then x + len <= sizeX && y < sizeY else y + len <= sizeY && x < sizeX
  }

  /** The guard grid that records words of orientation `o`, and the other one. */
  function Own(s: State, o: Orientation): Grid
  {
    if o == Horizontal then s.horiz else s.vert
  }

  function Other(s: State, o: Orientation): Grid
  {
    if o == Horizontal then s.vert else s.horiz
  }

  function Mark(o: Orientation): char
  {
    if o == Horizontal then HORIZONTAL else VERTICAL
  }

  /** Guard markers that forbid a word to start or end on a cell. */
  predicate Blocks(m: char)
  {
    m == NO_CURR_ORIENT || m == NO_HORIZ_NO_VERT
  }

  /** Neither guard grid forbids a word to start or end at `(c, r)`. */
  predicate EndFree(s: State, c: int, r: int)
    requires s.Valid() && s.InBounds(c, r)
  {
    !Blocks(s.horiz[c][r]) && !Blocks(s.vert[c][r])
  }

  /**
   * Letter `i` of `w` may go on its cell: the own guard grid holds no word of
   * this orientation, flank or side there, the other guard grid holds no flank,
   * and the letter grid is free or already holds that very letter.
   */
  predicate CellFree(s: State, o: Orientation, x: int, y: int, w: string, i: int)
    requires s.Valid() && 0 <= i < |w| && s.InBounds(Col(o, x, i), Row(o, y, i))
  {
    var c, r := Col(o, x, i), Row(o, y, i);
    Own(s, o)[c][r] != Mark(o) && Own(s, o)[c][r] != NO_HORIZ_NO_VERT && Own(s, o)[c][r] != NO_CURR_ORIENT &&
    Other(s, o)[c][r] != NO_HORIZ_NO_VERT &&
    (s.letters[c][r] == EMPTY || s.letters[c][r] == w[i])
  }

  /** The placement rule: both ends may end a word and every letter's cell is free. */
  predicate Placeable(s: State, o: Orientation, x: int, y: int, w: string)
    requires s.Valid() && 1 <= |w| && Fits(s.sizeX, s.sizeY, o, x, y, |w|)
  {
    EndFree(s, x, y) &&
    EndFree(s, Col(o, x, |w| - 1), Row(o, y, |w| - 1)) &&
    forall i :: 0 <= i < |w| ==> CellFree(s, o, x, y, w, i)
  }

  /** Letter `i` of `w` crosses a letter already on the board. */
  predicate Crosses(s: State, o: Orientation, x: int, y: int, w: string, i: int)
    requires s.Valid() && 0 <= i < |w| && s.InBounds(Col(o, x, i), Row(o, y, i))
  {
    var l := s.letters[Col(o, x, i)][Row(o, y, i)];
    l != EMPTY && l == w[i]
  }

  /** Number of the first `n` letters of `w` that cross a letter already on the board. */
  function Overlaps(s: State, o: Orientation, x: int, y: int, w: string, n: nat): (k: nat)
    requires s.Valid() && 1 <= |w| && Fits(s.sizeX, s.sizeY, o, x, y, |w|) && n <= |w|
    ensures k <= n
  {
    if n == 0 then 0
    else Overlaps(s, o, x, y, w, n - 1) + (if Crosses(s, o, x, y, w, n - 1) then 1 else 0)
  }

  /** Number of the first `n` cells of the footprint that hold a letter. */
  function Filled(s: State, o: Orientation, x: int, y: int, len: nat, n: nat): nat
    requires s.Valid() && 1 <= len && Fits(s.sizeX, s.sizeY, o, x, y, len) && n <= len
  {
    if n == 0 then 0
    else Filled(s, o, x, y, len, n - 1) + (if s.letters[Col(o, x, n - 1)][Row(o, y, n - 1)] != EMPTY then 1 else 0)
  }

  /** New value of cell `(c, r)`, formerly `prev`, after writing `w` at `(x, y)`. */
  function WriteCell(prev: char, o: Orientation, x: int, y: int, w: string, c: int, r: int): char
  {
    if o == Horizontal && r == y && x <= c < x + |w| then w[c - x]
    else if o == Vertical && c == x && y <= r < y + |w| then w[r - y]
    else prev
  }

  /** The letter grid after writing `w` at `(x, y)`. */
  function Write(g: Grid, o: Orientation, x: int, y: int, w: string): (g': Grid)
    ensures |g'| == |g| && forall c :: 0 <= c < |g| ==> |g'[c]| == |g[c]|
  {
    seq(|g|, c requires 0 <= c < |g| =>
      seq(|g[c]|, r requires 0 <= r < |g[c]| => WriteCell(g[c][r], o, x, y, w, c, r)))
  }

  /**
   * New value of guard cell `(c, r)`, formerly `prev`, after stamping the
   * exclusion pattern of a word of length `len` at `(x, y)`: the word's mark
   * on the footprint, flanks on the cell before and the cell after it, and
   * sides along the footprint.
   */
  function GuardCell(prev: char, o: Orientation, x: int, y: int, len: nat, c: int, r: int): char
  {
    if o == Horizontal then
      if r == y && x <= c < x + len then HORIZONTAL
      else if r == y && (c == x - 1 || c == x + len) then NO_HORIZ_NO_VERT
      else if (r == y - 1 || r == y + 1) && x <= c < x + len then NO_CURR_ORIENT
      else prev
    else
      if c == x && y <= r < y + len then VERTICAL
      else if c == x && (r == y - 1 || r == y + len) then NO_HORIZ_NO_VERT
      else if (c == x - 1 || c == x + 1) && y <= r < y + len then NO_CURR_ORIENT
      else prev
  }

  /** The guard grid after stamping the pattern of a word of length `len` at `(x, y)`. */
  function Guard(g: Grid, o: Orientation, x: int, y: int, len: nat): (g': Grid)
    ensures |g'| == |g| && forall c :: 0 <= c < |g| ==> |g'[c]| == |g[c]|
  {
    seq(|g|, c requires 0 <= c < |g| =>
      seq(|g[c]|, r requires 0 <= r < |g[c]| => GuardCell(g[c][r], o, x, y, len, c, r)))
  }

  /** The state after placing `w` at `(x, y)`: letters written, own guard grid stamped, other guard grid untouched. */
  function Place(s: State, o: Orientation, x: int, y: int, w: string): (s': State)
    requires s.Valid()
    ensures s'.Valid() && s'.sizeX == s.sizeX && s'.sizeY == s.sizeY
  {
    if o == Horizontal then
      s.(letters := Write(s.letters, o, x, y, w), horiz := Guard(s.horiz, o, x, y, |w|))
    else
      s.(letters := Write(s.letters, o, x, y, w), vert := Guard(s.vert, o, x, y, |w|))
  }

  /**
   * No conflicting overwrite: placing a word where the rule allows it keeps
   * every letter already on the board, and the cells it writes hold the word.
   */
  lemma NoConflictingOverwrite(s: State, o: Orientation, x: int, y: int, w: string)
    requires s.Valid() && 1 <= |w| && Fits(s.sizeX, s.sizeY, o, x, y, |w|)
    requires Placeable(s, o, x, y, w)
    ensures forall c, r :: s.InBounds(c, r) && s.letters[c][r] != EMPTY ==>
      Place(s, o, x, y, w).letters[c][r] == s.letters[c][r]
    ensures forall i :: 0 <= i < |w| ==> Place(s, o, x, y, w).letters[Col(o, x, i)][Row(o, y, i)] == w[i]
  {
    var g := Place(s, o, x, y, w).letters;
    forall c, r | s.InBounds(c, r) && s.letters[c][r] != EMPTY
      ensures g[c][r] == s.letters[c][r]
    {
      if o == Horizontal && r == y && x <= c < x + |w| {
        assert CellFree(s, o, x, y, w, c - x);
      } else if o == Vertical && c == x && y <= r < y + |w| {
        assert CellFree(s, o, x, y, w, r - y);
      }
    }
  }

  /**
   * The overlap score of an allowed placement is the number of footprint cells
   * that already held a letter: every such letter equals the word's.
   */
  lemma {:induction false} OverlapsCountFilled(s: State, o: Orientation, x: int, y: int, w: string, n: nat)
    requires s.Valid() && 1 <= |w| && Fits(s.sizeX, s.sizeY, o, x, y, |w|) && n <= |w|
    requires Placeable(s, o, x, y, w)
    ensures Overlaps(s, o, x, y, w, n) == Filled(s, o, x, y, |w|, n)
  {
    if n > 0 {
      OverlapsCountFilled(s, o, x, y, w, n - 1);
      assert CellFree(s, o, x, y, w, n - 1);
    }
  }
}
