/**
 * What the backtracking search explores: a branch places the words of a list
 * one after another, each at a position the placement rule allows in the state
 * left by the ones before; its score is the sum of the overlap scores. The
 * second half states the order in which one level of the search scans the
 * board for the next position of a word.
 */
module Search {
  import opened Grids
  import opened WordOrder

  /** Where and how one word was placed, and the overlap score it earned. */
  datatype Placement = Placement(x: int, y: int, o: Orientation, score: int)

  /**
   * The scan's strict fit test: the last letter of a word of length `len`
   * anchored at `(x, y)` stays clear of the last column (across) or the last
   * row (down).
   */
  predicate ClearOfEdge(sizeX: nat, sizeY: nat, o: Orientation, x: int, y: int, len: nat)
  {
    if o == Horizontal then x + len < sizeX else y + len < sizeY
  }

  /**
   * `p` is a position the placement rule and the strict fit test allow for
   * `w` in `s`, and `p` carries its true overlap score. Every result of the
   * scan is legal, but not every legal position is visited by a scan.
   */
  predicate Legal(s: State, w: string, p: Placement)
    requires s.Valid()
  {
    1 <= |w| && Fits(s.sizeX, s.sizeY, p.o, p.x, p.y, |w|) &&
    ClearOfEdge(s.sizeX, s.sizeY, p.o, p.x, p.y, |w|) &&
    Placeable(s, p.o, p.x, p.y, w) && p.score == Overlaps(s, p.o, p.x, p.y, w, |w|)
  }

  function Apply(s: State, w: string, p: Placement): (s': State)
    requires s.Valid()
    ensures s'.Valid() && s'.sizeX == s.sizeX && s'.sizeY == s.sizeY
  {
    Place(s, p.o, p.x, p.y, w)
  }

  /** `ps` places every word of `words`, in order, each legally in the state left by the earlier ones. */
  predicate Branch(s: State, words: seq<string>, ps: seq<Placement>)
    requires s.Valid()
    decreases |words|
  {
    |ps| == |words| &&
    (|words| > 0 ==> Legal(s, words[0], ps[0]) && Branch(Apply(s, words[0], ps[0]), words[1..], ps[1..]))
  }

  /** The state at the end of a branch. */
  function Final(s: State, words: seq<string>, ps: seq<Placement>): (f: State)
    requires s.Valid() && |ps| == |words|
    ensures f.Valid() && f.sizeX == s.sizeX && f.sizeY == s.sizeY
    decreases |words|
  {
    if |words| == 0 then s else Final(Apply(s, words[0], ps[0]), words[1..], ps[1..])
  }

  /** A legal first placement followed by a branch from the state it leaves is a branch. */
  lemma BranchCons(s: State, words: seq<string>, p: Placement, ps: seq<Placement>)
    requires s.Valid() && 1 <= |words| && Legal(s, words[0], p)
    requires Branch(Apply(s, words[0], p), words[1..], ps)
    ensures Branch(s, words, [p] + ps)
    ensures Final(s, words, [p] + ps) == Final(Apply(s, words[0], p), words[1..], ps)
    ensures Total([p] + ps) == p.score + Total(ps)
  {
    assert ([p] + ps)[0] == p && ([p] + ps)[1..] == ps;
  }

  /** The score of a branch: the sum of its overlap scores. */
  function Total(ps: seq<Placement>): int
  {
    if ps == [] then 0 else ps[0].score + Total(ps[1..])
  }

  /**
   * `f` and `score` are what branch `ps` of `words` leaves when started from
   * `s` with score `prevScore`: its final state and `prevScore` plus its total.
   */
  predicate Achieves(s: State, words: seq<string>, prevScore: int, ps: seq<Placement>, score: int, f: State)
  {
    s.Valid() && Branch(s, words, ps) && score == prevScore + Total(ps) && f == Final(s, words, ps)
  }

  /** A legal first placement followed by what the rest achieves is what the whole list achieves. */
  lemma AchievesCons(s: State, words: seq<string>, prevScore: int, p: Placement, ps: seq<Placement>,
                     score: int, f: State)
    requires s.Valid() && 1 <= |words| && Legal(s, words[0], p)
    requires Achieves(Apply(s, words[0], p), words[1..], prevScore + p.score, ps, score, f)
    ensures Achieves(s, words, prevScore, [p] + ps, score, f)
  {
    BranchCons(s, words, p, ps);
  }

  /** No word of a branch reaches the last column (across) or the last row (down). */
  lemma {:induction false} BranchClearOfEdge(s: State, words: seq<string>, ps: seq<Placement>)
    requires s.Valid() && Branch(s, words, ps)
    ensures forall k :: 0 <= k < |words| ==>
      ClearOfEdge(s.sizeX, s.sizeY, ps[k].o, ps[k].x, ps[k].y, |words[k]|)
    decreases |words|
  {
    if |words| > 0 {
      var s' := Apply(s, words[0], ps[0]);
      BranchClearOfEdge(s', words[1..], ps[1..]);
      forall k | 1 <= k < |words|
        ensures ClearOfEdge(s.sizeX, s.sizeY, ps[k].o, ps[k].x, ps[k].y, |words[k]|)
      {
        assert words[1..][k - 1] == words[k] && ps[1..][k - 1] == ps[k];
      }
    }
  }

  /** A branch scores at least 0 and at most the total number of letters it places. */
  lemma {:induction false} BranchScoreBounded(s: State, words: seq<string>, ps: seq<Placement>)
    requires s.Valid() && Branch(s, words, ps)
    ensures 0 <= Total(ps) <= SumLengths(words)
    decreases |words|
  {
    if |words| > 0 {
      BranchScoreBounded(Apply(s, words[0], ps[0]), words[1..], ps[1..]);
    }
  }

  /** `w` can be read on the letter grid of `s` at placement `p`. */
  predicate Spelled(s: State, w: string, p: Placement)
    requires s.Valid()
  {
    forall i :: 0 <= i < |w| ==>
      s.InBounds(Col(p.o, p.x, i), Row(p.o, p.y, i)) && s.letters[Col(p.o, p.x, i)][Row(p.o, p.y, i)] == w[i]
  }

  /** Along a branch, a letter once on the board is never replaced. */
  lemma {:induction false} LettersPersist(s: State, words: seq<string>, ps: seq<Placement>)
    requires s.Valid() && Branch(s, words, ps)
    ensures forall c, r :: s.InBounds(c, r) && s.letters[c][r] != EMPTY ==>
      Final(s, words, ps).letters[c][r] == s.letters[c][r]
    decreases |words|
  {
    if |words| > 0 {
      var p := ps[0];
      NoConflictingOverwrite(s, p.o, p.x, p.y, words[0]);
      LettersPersist(Apply(s, words[0], p), words[1..], ps[1..]);
    }
  }

  /**
   * No conflicting letters: at the end of a branch every placed word can still
   * be read where it was placed (for words without the empty-cell character).
   */
  lemma {:induction false} WordsSurvive(s: State, words: seq<string>, ps: seq<Placement>)
    requires s.Valid() && Branch(s, words, ps)
    requires forall k, i :: 0 <= k < |words| && 0 <= i < |words[k]| ==> words[k][i] != EMPTY
    ensures forall k :: 0 <= k < |words| ==> Spelled(Final(s, words, ps), words[k], ps[k])
    decreases |words|
  {
    if |words| > 0 {
      var w, p := words[0], ps[0];
      var s' := Apply(s, w, p);
      NoConflictingOverwrite(s, p.o, p.x, p.y, w);
      assert Spelled(s', w, p) by {
        forall i | 0 <= i < |w|
          ensures s'.InBounds(Col(p.o, p.x, i), Row(p.o, p.y, i)) && s'.letters[Col(p.o, p.x, i)][Row(p.o, p.y, i)] == w[i]
        {
        }
      }
      LettersPersist(s', words[1..], ps[1..]);
      WordsSurvive(s', words[1..], ps[1..]);
      var f := Final(s, words, ps);
      assert f == Final(s', words[1..], ps[1..]);
      forall k | 0 <= k < |words|
        ensures Spelled(f, words[k], ps[k])
      {
        if k == 0 {
          forall i | 0 <= i < |w|
            ensures f.InBounds(Col(p.o, p.x, i), Row(p.o, p.y, i)) && f.letters[Col(p.o, p.x, i)][Row(p.o, p.y, i)] == w[i]
          {
            assert w[i] != EMPTY;
          }
        } else {
          assert words[1..][k - 1] == words[k] && ps[1..][k - 1] == ps[k];
        }
      }
    }
  }

  // ----- The scan of one search level -----

  /** Where a scan starts: the position and orientation of the previous result, if any. */
  datatype ScanStart = ScanStart(inX: int, inY: int, last: Option<Orientation>)

  /** After a down result the scan moves to the next row; otherwise it starts on the given row. */
  function StartRow(sc: ScanStart): int
  {
    if sc.last == Some(Vertical) then sc.inY + 1 else sc.inY
  }

  /** The cells a scan visits: rows from its start row, and in every row the columns from `inX`. */
  predicate InRegion(s: State, sc: ScanStart, c: int, r: int)
  {
    s.InBounds(c, r) && StartRow(sc) <= r && sc.inX <= c
  }

  /** Row-major order of cells. */
  predicate Before(c': int, r': int, c: int, r: int)
  {
    r' < r || (r' == r && c' < c)
  }

  /** The scan passes over a cell that holds a letter other than the word's first. */
  predicate Skipped(s: State, w: string, c: int, r: int)
    requires s.Valid() && 1 <= |w| && s.InBounds(c, r)
  {
    s.letters[c][r] != EMPTY && s.letters[c][r] != w[0]
  }

  /** Every cell the scan visits before `(c, r)` is passed over. */
  ghost predicate SkippedBefore(s: State, w: string, sc: ScanStart, c: int, r: int)
    requires s.Valid() && 1 <= |w|
  {
    forall c', r' :: InRegion(s, sc, c', r') && Before(c', r', c, r) ==> Skipped(s, w, c', r')
  }

  /**
   * The scan tries the across orientation at `(c, r)`, unless the previous
   * result was across and `(c, r)` is the first cell it does not pass over
   * (which is the previous result's own cell when the letters are unchanged).
   */
  ghost predicate AcrossTried(s: State, w: string, sc: ScanStart, c: int, r: int)
    requires s.Valid() && 1 <= |w|
  {
    !(sc.last == Some(Horizontal) && SkippedBefore(s, w, sc, c, r))
  }

  /**
   * The scan accepts orientation `o` at `(c, r)`: the word fits strictly inside
   * the board (so its last cell is never in the last column or row) and the
   * placement rule allows it.
   */
  predicate Accepts(s: State, w: string, o: Orientation, c: int, r: int)
    requires s.Valid() && 1 <= |w| && s.InBounds(c, r)
  {
    ClearOfEdge(s.sizeX, s.sizeY, o, c, r, |w|) && Placeable(s, o, c, r, w)
  }

  /** The scan leaves `(c, r)` without a result. */
  ghost predicate Rejected(s: State, w: string, sc: ScanStart, c: int, r: int)
    requires s.Valid() && 1 <= |w| && s.InBounds(c, r)
  {
    Skipped(s, w, c, r) ||
    ((!AcrossTried(s, w, sc, c, r) || !Accepts(s, w, Horizontal, c, r)) && !Accepts(s, w, Vertical, c, r))
  }

  /** Every cell the scan visits before `(c, r)` is left without a result. */
  ghost predicate RejectedBefore(s: State, w: string, sc: ScanStart, c: int, r: int)
    requires s.Valid() && 1 <= |w|
  {
    forall c', r' :: InRegion(s, sc, c', r') && Before(c', r', c, r) ==> Rejected(s, w, sc, c', r')
  }

  /**
   * `(c, r, o)` with overlap score `score` is the scan's first result: it is
   * in the scanned region, the anchor is free or holds the word's first
   * letter, the orientation is accepted there, across is preferred when it is
   * tried, and every cell visited earlier was left without a result.
   */
  ghost predicate FirstAccepted(s: State, w: string, sc: ScanStart, c: int, r: int, o: Orientation, score: int)
    requires s.Valid() && 1 <= |w|
  {
    InRegion(s, sc, c, r) && !Skipped(s, w, c, r) && Accepts(s, w, o, c, r) &&
    score == Overlaps(s, o, c, r, w, |w|) &&
    (o == Horizontal ==> AcrossTried(s, w, sc, c, r)) &&
    (o == Vertical ==> !(AcrossTried(s, w, sc, c, r) && Accepts(s, w, Horizontal, c, r))) &&
    RejectedBefore(s, w, sc, c, r)
  }

  /** The first result of a scan is a legal placement of the word. */
  lemma FirstAcceptedLegal(s: State, w: string, sc: ScanStart, c: int, r: int, o: Orientation, score: int)
    requires s.Valid() && 1 <= |w|
    requires FirstAccepted(s, w, sc, c, r, o, score)
    ensures Legal(s, w, Placement(c, r, o, score))
  {
  }

  /** The scan finds no result: every cell it visits is left without one. */
  ghost predicate Exhausted(s: State, w: string, sc: ScanStart)
    requires s.Valid() && 1 <= |w|
  {
    forall c, r :: InRegion(s, sc, c, r) ==> Rejected(s, w, sc, c, r)
  }

  // Steps of the scan: from one cell to the next, and from the end of a row to the next row.

  /** Nothing precedes the start of the scan. */
  lemma ScanStartEmpty(s: State, w: string, sc: ScanStart)
    requires s.Valid() && 1 <= |w|
    ensures SkippedBefore(s, w, sc, sc.inX, StartRow(sc)) && RejectedBefore(s, w, sc, sc.inX, StartRow(sc))
  {
  }

  lemma NextCell(s: State, w: string, sc: ScanStart, x: int, y: int)
    requires s.Valid() && 1 <= |w|
    ensures SkippedBefore(s, w, sc, x + 1, y) <==>
      SkippedBefore(s, w, sc, x, y) && (InRegion(s, sc, x, y) ==> Skipped(s, w, x, y))
    ensures RejectedBefore(s, w, sc, x, y) && (InRegion(s, sc, x, y) ==> Rejected(s, w, sc, x, y)) ==>
      RejectedBefore(s, w, sc, x + 1, y)
  {
    if SkippedBefore(s, w, sc, x, y) && (InRegion(s, sc, x, y) ==> Skipped(s, w, x, y)) {
      forall c', r' | InRegion(s, sc, c', r') && Before(c', r', x + 1, y)
        ensures Skipped(s, w, c', r')
      {
        if !(c' == x && r' == y) {
          assert Before(c', r', x, y);
        }
      }
    }
    if RejectedBefore(s, w, sc, x, y) && (InRegion(s, sc, x, y) ==> Rejected(s, w, sc, x, y)) {
      forall c', r' | InRegion(s, sc, c', r') && Before(c', r', x + 1, y)
        ensures Rejected(s, w, sc, c', r')
      {
        if !(c' == x && r' == y) {
          assert Before(c', r', x, y);
        }
      }
    }
  }

  lemma NextRow(s: State, w: string, sc: ScanStart, x: int, y: int)
    requires s.Valid() && 1 <= |w| && s.sizeX <= x
    ensures SkippedBefore(s, w, sc, sc.inX, y + 1) <==> SkippedBefore(s, w, sc, x, y)
    ensures RejectedBefore(s, w, sc, sc.inX, y + 1) <==> RejectedBefore(s, w, sc, x, y)
  {
    assert forall c', r' :: InRegion(s, sc, c', r') ==> (Before(c', r', sc.inX, y + 1) <==> Before(c', r', x, y));
  }

  /** Position `(x1, y1, o1)` precedes `(x2, y2, o2)` in the order (row, column, across before down). */
  predicate PositionBefore(y1: int, x1: int, o1: Orientation, y2: int, x2: int, o2: Orientation)
  {
    y1 < y2 || (y1 == y2 && (x1 < x2 || (x1 == x2 && o1 == Horizontal && o2 == Vertical)))
  }

  /**
   * A position after the scan's start is strictly smaller in the measure
   * (rows left from the start row, columns left, across before down).
   */
  lemma ScanAdvances(sizeX: int, sizeY: int, sc: ScanStart, x: int, y: int, o: Orientation)
    requires 0 <= x < sizeX && 0 <= y < sizeY && ScanAfter(sc, x, y, o)
    ensures var a0, b0, c0 := sizeY - StartRow(sc), sizeX - sc.inX, if sc.last == Some(Horizontal) then 0 else 1;
      var a1, b1, c1 := sizeY - StartRow(ScanStart(x, y, Some(o))), sizeX - x, if o == Horizontal then 0 else 1;
      0 <= a1 && 0 <= b1 && (a1 < a0 || (a1 == a0 && (b1 < b0 || (b1 == b0 && c1 < c0))))
  {
  }

  /**
   * `(x, y, o)` comes strictly after the scan's start in the order (row,
   * column, across before down), and never in a column left of `inX`.
   */
  predicate ScanAfter(sc: ScanStart, x: int, y: int, o: Orientation)
  {
    sc.inX <= x &&
    match sc.last
    case Some(Vertical) => sc.inY < y
    case Some(Horizontal) => sc.inY < y || (sc.inY == y && (sc.inX < x || o == Vertical))
    case None => sc.inY <= y
  }
}
