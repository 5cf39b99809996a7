/**
 * The ordering of the word list before the search: longest first, words of
 * equal length in their input order (the library sort is stable and its
 * comparator looks at lengths only).
 */
module WordOrder {

  predicate LengthDescending(ws: seq<string>)
  {
    forall i, j :: 0 <= i < j < |ws| ==> |ws[i]| >= |ws[j]|
  }

  /** The words of length `n`, in their order in `ws`. */
  function OfLength(ws: seq<string>, n: nat): seq<string>
  {
    if ws == [] then [] else (if |ws[0]| == n then [ws[0]] else []) + OfLength(ws[1..], n)
  }

  /** A word no shorter than the head of a sorted list can go in front of it. */
  lemma ConsDescending(a: string, ws: seq<string>)
    requires LengthDescending(ws) && (ws == [] || |a| >= |ws[0]|)
    ensures LengthDescending([a] + ws)
  {
    var r := [a] + ws;
    forall i, j | 0 <= i < j < |r|
      ensures |r[i]| >= |r[j]|
    {
      if i == 0 && j > 1 {
        assert |ws[0]| >= |ws[j - 1]|;
      }
    }
  }

  lemma TailDescending(ws: seq<string>)
    requires LengthDescending(ws) && ws != []
    ensures LengthDescending(ws[1..])
  {
    forall i, j | 0 <= i < j < |ws[1..]|
      ensures |ws[1..][i]| >= |ws[1..][j]|
    {
      assert ws[1..][i] == ws[i + 1] && ws[1..][j] == ws[j + 1];
    }
  }

  /** Inserts `w` before the first word that is not longer than `w`. */
  function Insert(w: string, ws: seq<string>): (r: seq<string>)
    requires LengthDescending(ws)
    ensures LengthDescending(r)
    ensures multiset(r) == multiset(ws) + multiset{w}
    ensures r[0] == w || (|ws| > 0 && r[0] == ws[0])
  {
    if ws == [] || |w| >= |ws[0]| then
      ConsDescending(w, ws);
      [w] + ws
    else
      assert ws == [ws[0]] + ws[1..];
      TailDescending(ws);
      var rest := Insert(w, ws[1..]);
      ConsDescending(ws[0], rest);
      [ws[0]] + rest
  }

  function SortByLengthDesc(ws: seq<string>): (r: seq<string>)
    ensures LengthDescending(r)
    ensures multiset(r) == multiset(ws)
  {
    if ws == [] then []
    else
      assert ws == [ws[0]] + ws[1..];
      Insert(ws[0], SortByLengthDesc(ws[1..]))
  }

  /** Sorting neither drops nor invents a word. */
  lemma SortKeepsWords(ws: seq<string>)
    ensures forall k :: 0 <= k < |SortByLengthDesc(ws)| ==> SortByLengthDesc(ws)[k] in ws
    ensures forall k :: 0 <= k < |ws| ==> ws[k] in SortByLengthDesc(ws)
  {
    var r := SortByLengthDesc(ws);
    forall k | 0 <= k < |r|
      ensures r[k] in ws
    {
      assert r[k] in multiset(ws);
    }
    forall k | 0 <= k < |ws|
      ensures ws[k] in r
    {
      assert ws[k] in multiset(r);
    }
  }

  lemma {:induction false} InsertStable(w: string, ws: seq<string>, n: nat)
    requires LengthDescending(ws)
    ensures OfLength(Insert(w, ws), n) == (if |w| == n then [w] else []) + OfLength(ws, n)
  {
    if ws == [] || |w| >= |ws[0]| {
      assert Insert(w, ws) == [w] + ws;
      assert ([w] + ws)[0] == w && ([w] + ws)[1..] == ws;
    } else {
      TailDescending(ws);
      var r := Insert(w, ws[1..]);
      assert Insert(w, ws) == [ws[0]] + r;
      InsertStable(w, ws[1..], n);
      assert ([ws[0]] + r)[0] == ws[0] && ([ws[0]] + r)[1..] == r;
      calc {
        OfLength([ws[0]] + r, n);
        (if |ws[0]| == n then [ws[0]] else []) + OfLength(r, n);
        (if |ws[0]| == n then [ws[0]] else []) + ((if |w| == n then [w] else []) + OfLength(ws[1..], n));
        { assert |w| != n || |ws[0]| != n; }
        (if |w| == n then [w] else []) + ((if |ws[0]| == n then [ws[0]] else []) + OfLength(ws[1..], n));
        (if |w| == n then [w] else []) + OfLength(ws, n);
      }
    }
  }

  /** Stability: the words of each length keep their relative order. */
  lemma {:induction false} SortStable(ws: seq<string>, n: nat)
    ensures OfLength(SortByLengthDesc(ws), n) == OfLength(ws, n)
  {
    if ws != [] {
      SortStable(ws[1..], n);
      InsertStable(ws[0], SortByLengthDesc(ws[1..]), n);
    }
  }

  /** The total number of letters in a list of words. */
  function SumLengths(words: seq<string>): nat
  {
    if words == [] then 0 else |words[0]| + SumLengths(words[1..])
  }

  /** Inserting a word into a list adds its length to the total length. */
  lemma {:induction false} SumLengthsInsert(w: string, ws: seq<string>)
    requires LengthDescending(ws)
    ensures SumLengths(Insert(w, ws)) == |w| + SumLengths(ws)
  {
    if ws == [] || |w| >= |ws[0]| {
      assert ([w] + ws)[1..] == ws;
    } else {
      TailDescending(ws);
      var r := Insert(w, ws[1..]);
      SumLengthsInsert(w, ws[1..]);
      assert ([ws[0]] + r)[1..] == r;
    }
  }

  /** Sorting keeps the total length of the words. */
  lemma {:induction false} SumLengthsSort(ws: seq<string>)
    ensures SumLengths(SortByLengthDesc(ws)) == SumLengths(ws)
  {
    if ws != [] {
      SumLengthsSort(ws[1..]);
      SumLengthsInsert(ws[0], SortByLengthDesc(ws[1..]));
    }
  }
}
