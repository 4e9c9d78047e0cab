/**
 * The static evaluator `heuristic_evaluation` (back-end/ai_player.py), used
 * when the search reaches its depth cutoff. Positive scores favour the AI (X).
 * The weights are asymmetric: a near-win is worth +10 but a
 * near-loss only -8, one X in an open line +2 but one O only -1.
 */
module Evaluator {
  import opened Board

  /** `line.count(c)` for the three cells of a line. */
  function Occurrences(line: seq<Cell>, c: Cell): nat
    requires |line| == 3
  {
    (if line[0] == c then 1 else 0) + (if line[1] == c then 1 else 0) + (if line[2] == c then 1 else 0)
  }

  /** The three cells of line k, in the order the line lists them. */
  function LineCells(b: seq<Cell>, k: nat): (line: seq<Cell>)
    requires |b| == 9 && k < |Lines|
    ensures |line| == 3
  {
    [b[Lines[k].0], b[Lines[k].1], b[Lines[k].2]]
  }

  /** Near-win / near-loss part of a line: two marks and a blank. */
  function ThreatScore(line: seq<Cell>): int
    requires |line| == 3
  {
    if Occurrences(line, X) == 2 && Occurrences(line, Empty) == 1 then 10
    else if Occurrences(line, O) == 2 && Occurrences(line, Empty) == 1 then -8
    else 0
  }

  /** Control part of a line: one mark and two blanks. */
  function ControlScore(line: seq<Cell>): int
    requires |line| == 3
  {
    if Occurrences(line, X) == 1 && Occurrences(line, Empty) == 2 then 2
    else if Occurrences(line, O) == 1 && Occurrences(line, Empty) == 2 then -1
    else 0
  }

  /** What line k contributes. */
  function LineScore(b: seq<Cell>, k: nat): int
    requires |b| == 9 && k < |Lines|
  {
    ThreatScore(LineCells(b, k)) + ControlScore(LineCells(b, k))
  }

  /** The contributions of the first n lines, summed. */
  function LinesScore(b: seq<Cell>, n: nat): int
    requires |b| == 9 && n <= |Lines|
  {
    if n == 0 then 0 else LinesScore(b, n - 1) + LineScore(b, n - 1)
  }

  /** A positional bonus: +weight for X, -weight for O, nothing for a blank. */
  function Bonus(c: Cell, weight: int): int
  {
    if c == X then weight else if c == O then -weight else 0
  }

  /** The corner cells, in the order the source visits them. */
  const Corners: seq<Index> := [0, 2, 6, 8]

  /** The corner bonuses of the first n corners, summed. */
  function CornersScore(b: seq<Cell>, n: nat): int
    requires |b| == 9 && n <= |Corners|
  {
    if n == 0 then 0 else CornersScore(b, n - 1) + Bonus(b[Corners[n - 1]], 2)
  }

  /**
   * The heuristic value of a board: all lines, then the centre (+-5), then
   * the corners (+-2 each). It lies in [-77, 93]: 8 lines in [-8, 10], the
   * centre in [-5, 5], four corners in [-2, 2].
   */
  function Heuristic(b: seq<Cell>): (r: int)
    requires |b| == 9
    ensures -77 <= r <= 93
  {
    LinesScoreBounds(b, |Lines|);
    CornersScoreBounds(b, |Corners|);
    LinesScore(b, |Lines|) + Bonus(b[4], 5) + CornersScore(b, |Corners|)
  }

  /** A line scores at most +10 and at least -8: the two parts never both fire against each other. */
  lemma LineScoreBounds(b: seq<Cell>, k: nat)
    requires |b| == 9 && k < |Lines|
    ensures -8 <= LineScore(b, k) <= 10
  {
  }

  lemma {:induction false} LinesScoreBounds(b: seq<Cell>, n: nat)
    requires |b| == 9 && n <= |Lines|
    ensures -8 * n <= LinesScore(b, n) <= 10 * n
  {
    if n > 0 {
      LinesScoreBounds(b, n - 1);
      LineScoreBounds(b, n - 1);
    }
  }

  lemma {:induction false} CornersScoreBounds(b: seq<Cell>, n: nat)
    requires |b| == 9 && n <= |Corners|
    ensures -2 * n <= CornersScore(b, n) <= 2 * n
  {
    if n > 0 {
      CornersScoreBounds(b, n - 1);
    }
  }

  /** `heuristic_evaluation`, accumulating the score line by line and then over the centre and corners. */
  method HeuristicEvaluation(board: array<Cell>) returns (score: int)
    requires board.Length == 9
    ensures score == Heuristic(board[..])
  {
    ghost var b := board[..];
    score := 0;
    for k := 0 to |Lines|
      invariant score == LinesScore(b, k)
    {
      var line := [board[Lines[k].0], board[Lines[k].1], board[Lines[k].2]];
      assert line == LineCells(b, k);
      var xs, os, blanks := Occurrences(line, X), Occurrences(line, O), Occurrences(line, Empty);
      ghost var before := score;
      if xs == 2 && blanks == 1 {
        score := score + 10;
      } else if os == 2 && blanks == 1 {
        score := score - 8;
      }
      assert score == before + ThreatScore(line);
      if xs == 1 && blanks == 2 {
        score := score + 2;
      } else if os == 1 && blanks == 2 {
        score := score - 1;
      }
      assert score == before + LineScore(b, k);
    }
    if board[4] == X {
      score := score + 5;
    } else if board[4] == O {
      score := score - 5;
    }
    ghost var linesAndCentre := score;
    for c := 0 to |Corners|
      invariant score == linesAndCentre + CornersScore(b, c)
    {
      if board[Corners[c]] == X {
        score := score + 2;
      } else if board[Corners[c]] == O {
        score := score - 2;
      }
    }
  }
}
