/**
 * The 9-cell board of the move engine (back-end/ai_player.py): cells, the
 * eight winning lines, and the two terminal tests `check_winner` and
 * `check_tie`.
 */
module Board {
  import opened Wrappers

  /** One cell: the blank ' ', the AI's mark 'X' or the opponent's mark 'O'. */
  datatype Cell = Empty | X | O

  /** A position on the 3x3 grid, row-major. */
  type Index = i: nat | i < 9

  /** The eight winning lines, in the order the source scans them: rows, columns, diagonals. */
  const Lines: seq<(Index, Index, Index)> :=
    [(0, 1, 2), (3, 4, 5), (6, 7, 8),
     (0, 3, 6), (1, 4, 7), (2, 5, 8),
     (0, 4, 8), (2, 4, 6)]

  /** Line k holds three equal marks (the three cells equal and not blank). */
  predicate Complete(b: seq<Cell>, k: nat)
    requires |b| == 9 && k < |Lines|
  {
    var (i, j, l) := Lines[k];
    b[i] != Empty && b[i] == b[j] && b[j] == b[l]
  }

  /** The mark occupying line k. */
  function LineMark(b: seq<Cell>, k: nat): Cell
    requires |b| == 9 && k < |Lines|
  {
    b[Lines[k].0]
  }

  /** The scan of `check_winner` from line k on; it never reports the blank. */
  function WinnerFrom(b: seq<Cell>, k: nat): (r: Option<Cell>)
    requires |b| == 9 && k <= |Lines|
    ensures r.Some? ==> r.value != Empty
    decreases |Lines| - k
  {
    if k == |Lines| then None
    else if Complete(b, k) then Some(LineMark(b, k))
    else WinnerFrom(b, k + 1)
  }

  /** `check_winner`: the mark of the first complete line, or None. A winner is X or O, never the blank. */
  function Winner(b: seq<Cell>): (r: Option<Cell>)
    requires |b| == 9
    ensures r.Some? ==> r.value != Empty
  {
    WinnerFrom(b, 0)
  }

  /**
   * The scan from line k finds a mark exactly when some line from k on is
   * complete, and the mark it finds is that of the first such line.
   */
  lemma {:induction false} WinnerFromSpec(b: seq<Cell>, k: nat)
    requires |b| == 9 && k <= |Lines|
    ensures WinnerFrom(b, k).Some? ==>
      WinnerFrom(b, k).value != Empty &&
      exists j :: k <= j < |Lines| && Complete(b, j) && LineMark(b, j) == WinnerFrom(b, k).value &&
                  forall j' :: k <= j' < j ==> !Complete(b, j')
    ensures WinnerFrom(b, k).None? <==> forall j :: k <= j < |Lines| ==> !Complete(b, j)
    decreases |Lines| - k
  {
    if k < |Lines| && !Complete(b, k) {
      WinnerFromSpec(b, k + 1);
    }
  }

  /** Winner reports the mark of the first complete line, and None when no line is complete. */
  lemma WinnerSpec(b: seq<Cell>)
    requires |b| == 9
    ensures Winner(b).Some? ==>
      Winner(b).value != Empty &&
      exists k :: 0 <= k < |Lines| && Complete(b, k) && LineMark(b, k) == Winner(b).value &&
                  forall j :: 0 <= j < k ==> !Complete(b, j)
    ensures Winner(b).None? <==> forall k :: 0 <= k < |Lines| ==> !Complete(b, k)
  {
    WinnerFromSpec(b, 0);
  }

  /** `check_tie` of the engine: no blank cell is left. The winner is not consulted. */
  predicate IsFull(b: seq<Cell>)
  {
    Empty !in b
  }

  /** The number of blank cells; every placement lowers it by one. */
  function EmptyCount(b: seq<Cell>): nat
  {
    multiset(b)[Empty]
  }

  lemma {:induction false} EmptyCountAtMost(b: seq<Cell>)
    ensures EmptyCount(b) <= |b|
    ensures EmptyCount(b) == 0 <==> IsFull(b)
  {
    if b != [] {
      var init := b[..|b| - 1];
      assert b == init + [b[|b| - 1]];
      EmptyCountAtMost(init);
    }
  }

  /** Placing a mark into a blank cell leaves one blank fewer. */
  lemma PlaceLowersEmptyCount(b: seq<Cell>, i: nat, c: Cell)
    requires i < |b| && b[i] == Empty && c != Empty
    ensures EmptyCount(b[i := c]) == EmptyCount(b) - 1
  {
  }

  /** The blank cells among the first n, in increasing order: `empty_cells` of `random_move`. */
  function EmptyCellsBelow(b: seq<Cell>, n: nat): (r: seq<Index>)
    requires |b| == 9 && n <= 9
    ensures forall i: int :: i in r <==> 0 <= i < n && b[i] == Empty
    ensures forall p, q :: 0 <= p < q < |r| ==> r[p] < r[q]
  {
    if n == 0 then []
    else
      var rest := EmptyCellsBelow(b, n - 1);
      if b[n - 1] == Empty then
        assert forall p :: 0 <= p < |rest| ==> rest[p] in rest;
        rest + [n - 1]
      else rest
  }

  /** All blank cells, in increasing order. */
  function EmptyCells(b: seq<Cell>): (r: seq<Index>)
    requires |b| == 9
    ensures forall i: int :: i in r <==> 0 <= i < 9 && b[i] == Empty
    ensures r == [] <==> IsFull(b)
  {
    var r := EmptyCellsBelow(b, 9);
    assert forall i | 0 <= i < 9 :: b[i] == Empty ==> i in r;
    assert r != [] ==> r[0] in r && b[r[0]] in b;
    r
  }
}
