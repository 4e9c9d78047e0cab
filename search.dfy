/**
 * The adversarial search of back-end/ai_player.py: depth-limited minimax with
 * alpha-beta pruning (`minimax_with_cutoff`) and the top-level move choice
 * (`get_best_move_with_cutoff`). Both place a mark in the caller's board in
 * place, recurse, and undo the placement.
 *
 * `Value` is the plain, unpruned minimax value of a position; it is the
 * reference the pruning search is proved against.
 */
module Search {
  import opened Wrappers
  import opened Board
  import opened Evaluator

  /** The depth at which the search stops and evaluates statically. */
  const DepthCutoff := 5

  /** Integer stand-ins for float('-inf') and float('inf'): every score lies strictly between them. */
  const NegInf := -1000
  const PosInf := 1000

  function Max(a: int, b: int): int { if a >= b then a else b }
  function Min(a: int, b: int): int { if a <= b then a else b }

  /** The mark the side to move places: X when maximizing, O when minimizing. */
  function MarkOf(isMaximizing: bool): Cell
  {
    if isMaximizing then X else O
  }

  /**
   * The unpruned minimax value of board b, reached after `depth` plies, with
   * the side to move given by isMaximizing: an X line scores 10 - depth, an O
   * line depth - 10, a full board 0, the cutoff the static evaluation, and
   * otherwise the best value over all moves into blank cells.
   */
  function Value(b: seq<Cell>, depth: nat, isMaximizing: bool, cutoff: int): int
    requires |b| == 9
    decreases EmptyCount(b), 1
  {
    var w := Winner(b);
    if w == Some(X) then 10 - depth
    else if w == Some(O) then depth - 10
    else if IsFull(b) then 0
    else if depth >= cutoff then Heuristic(b)
    else BestChild(b, depth, isMaximizing, cutoff, 9)
  }

  /**
   * The best value of the moves into the blank cells among the first n, for
   * the side to move, starting from the sentinel of that side.
   */
  function BestChild(b: seq<Cell>, depth: nat, isMaximizing: bool, cutoff: int, n: nat): int
    requires |b| == 9 && n <= 9
    decreases EmptyCount(b), 0, n
  {
    if n == 0 then (if isMaximizing then NegInf else PosInf)
    else
      var prev := BestChild(b, depth, isMaximizing, cutoff, n - 1);
      if b[n - 1] != Empty then prev
      else
        var v := Value(b[n - 1 := MarkOf(isMaximizing)], depth + 1, !isMaximizing, cutoff);
        if isMaximizing then Max(prev, v) else Min(prev, v)
  }

  /** The value of the move into blank cell i. */
  function ChildValue(b: seq<Cell>, depth: nat, isMaximizing: bool, cutoff: int, i: nat): int
    requires |b| == 9 && i < 9
  {
    Value(b[i := MarkOf(isMaximizing)], depth + 1, !isMaximizing, cutoff)
  }

  /** No move into a blank cell below n does better for the side to move than BestChild. */
  lemma {:induction false} BestChildBoundsChildren(b: seq<Cell>, depth: nat, isMaximizing: bool, cutoff: int, n: nat)
    requires |b| == 9 && n <= 9
    ensures forall j :: 0 <= j < n && b[j] == Empty ==>
              if isMaximizing then ChildValue(b, depth, isMaximizing, cutoff, j) <= BestChild(b, depth, isMaximizing, cutoff, n)
              else BestChild(b, depth, isMaximizing, cutoff, n) <= ChildValue(b, depth, isMaximizing, cutoff, j)
  {
    if n > 0 {
      BestChildBoundsChildren(b, depth, isMaximizing, cutoff, n - 1);
    }
  }

  /**
   * In a position reachable from a search root, when some cell below n is
   * blank, BestChild is the value of one of those moves: the sentinel never
   * survives a move.
   */
  lemma {:induction false} BestChildAttained(b: seq<Cell>, depth: nat, isMaximizing: bool, cutoff: int, n: nat)
    requires |b| == 9 && n <= 9 && depth + EmptyCount(b) <= 9
    requires exists j :: 0 <= j < n && b[j] == Empty
    ensures exists j :: 0 <= j < n && b[j] == Empty &&
                        BestChild(b, depth, isMaximizing, cutoff, n) == ChildValue(b, depth, isMaximizing, cutoff, j)
  {
    var prev := BestChild(b, depth, isMaximizing, cutoff, n - 1);
    if exists j :: 0 <= j < n - 1 && b[j] == Empty {
      BestChildAttained(b, depth, isMaximizing, cutoff, n - 1);
      var j :| 0 <= j < n - 1 && b[j] == Empty && prev == ChildValue(b, depth, isMaximizing, cutoff, j);
      if b[n - 1] == Empty {
        var v := ChildValue(b, depth, isMaximizing, cutoff, n - 1);
        assert BestChild(b, depth, isMaximizing, cutoff, n) == prev || BestChild(b, depth, isMaximizing, cutoff, n) == v;
      }
    } else {
      BestChildBounds(b, depth, isMaximizing, cutoff, n);
      BestChildBounds(b, depth, isMaximizing, cutoff, n - 1);
      assert b[n - 1] == Empty;
    }
  }

  /** Looking at more cells only improves BestChild for the side to move. */
  lemma {:induction false} BestChildMonotone(b: seq<Cell>, depth: nat, isMaximizing: bool, cutoff: int, m: nat, n: nat)
    requires |b| == 9 && m <= n <= 9
    ensures isMaximizing ==> BestChild(b, depth, isMaximizing, cutoff, m) <= BestChild(b, depth, isMaximizing, cutoff, n)
    ensures !isMaximizing ==> BestChild(b, depth, isMaximizing, cutoff, n) <= BestChild(b, depth, isMaximizing, cutoff, m)
    decreases n
  {
    if m < n {
      BestChildMonotone(b, depth, isMaximizing, cutoff, m, n - 1);
    }
  }

  /**
   * Every position reachable from the root of a search (depth counts the
   * marks placed since the root, so depth + blanks <= 9) scores in [-77, 93].
   * In particular no score reaches the sentinels NegInf and PosInf.
   */
  lemma {:induction false} ValueBounds(b: seq<Cell>, depth: nat, isMaximizing: bool, cutoff: int)
    requires |b| == 9 && depth + EmptyCount(b) <= 9
    ensures -77 <= Value(b, depth, isMaximizing, cutoff) <= 93
    decreases EmptyCount(b), 1
  {
    var w := Winner(b);
    if w == Some(X) || w == Some(O) || IsFull(b) {
    } else if depth >= cutoff {
    } else {
      assert exists j :: 0 <= j < 9 && b[j] == Empty;
      BestChildBounds(b, depth, isMaximizing, cutoff, 9);
    }
  }

  /**
   * BestChild over the cells below n is a score in [-77, 93] once one of
   * them is blank, and the sentinel of the side to move otherwise.
   */
  lemma {:induction false} BestChildBounds(b: seq<Cell>, depth: nat, isMaximizing: bool, cutoff: int, n: nat)
    requires |b| == 9 && n <= 9 && depth + EmptyCount(b) <= 9
    ensures (exists j :: 0 <= j < n && b[j] == Empty) ==> -77 <= BestChild(b, depth, isMaximizing, cutoff, n) <= 93
    ensures (forall j :: 0 <= j < n ==> b[j] != Empty) ==>
              BestChild(b, depth, isMaximizing, cutoff, n) == if isMaximizing then NegInf else PosInf
    decreases EmptyCount(b), 0, n
  {
    if n > 0 {
      BestChildBounds(b, depth, isMaximizing, cutoff, n - 1);
      if b[n - 1] == Empty {
        var m := MarkOf(isMaximizing);
        PlaceLowersEmptyCount(b, n - 1, m);
        ValueBounds(b[n - 1 := m], depth + 1, !isMaximizing, cutoff);
      }
    }
  }

  /**
   * What a fail-soft alpha-beta search guarantees of its result r for the
   * window (alpha, beta), given the true minimax value v: exact inside the
   * window, a bound on the correct side outside it.
   */
  predicate FailSoft(r: int, v: int, alpha: int, beta: int)
  {
    && (v <= alpha ==> v <= r <= alpha)
    && (alpha < v < beta ==> r == v)
    && (beta <= v ==> beta <= r <= v)
  }

  /** With the full window a fail-soft result is the minimax value itself. */
  lemma FullWindowIsExact(r: int, v: int)
    requires NegInf <= v <= PosInf
    requires FailSoft(r, v, NegInf, PosInf)
    ensures r == v
  {
  }

  /**
   * One child of the maximizing loop, searched fail-soft with the window
   * (max(alpha, best), beta): either the loop goes on, with best between the
   * unpruned maximum so far and that maximum raised to alpha, or it is cut
   * and best is already a fail-soft answer for the whole node.
   */
  lemma MaxLoopStep(b: seq<Cell>, depth: nat, cutoff: int, alpha: int, beta: int, i: nat, best: int, s: int)
    requires |b| == 9 && i < 9 && b[i] == Empty
    requires Max(alpha, best) < beta
    requires var m := BestChild(b, depth, true, cutoff, i); m <= best <= Max(alpha, m)
    requires FailSoft(s, ChildValue(b, depth, true, cutoff, i), Max(alpha, best), beta)
    ensures var best' := Max(s, best);
            var m := BestChild(b, depth, true, cutoff, i + 1);
            && (Max(alpha, best') < beta ==> m <= best' <= Max(alpha, m))
            && (beta <= Max(alpha, best') ==> FailSoft(best', BestChild(b, depth, true, cutoff, 9), alpha, beta))
  {
    BestChildMonotone(b, depth, true, cutoff, i + 1, 9);
  }

  /** The minimizing mirror of MaxLoopStep, cut when the bound drops to alpha. */
  lemma MinLoopStep(b: seq<Cell>, depth: nat, cutoff: int, alpha: int, beta: int, i: nat, best: int, s: int)
    requires |b| == 9 && i < 9 && b[i] == Empty
    requires alpha < Min(beta, best)
    requires var m := BestChild(b, depth, false, cutoff, i); Min(beta, m) <= best <= m
    requires FailSoft(s, ChildValue(b, depth, false, cutoff, i), alpha, Min(beta, best))
    ensures var best' := Min(s, best);
            var m := BestChild(b, depth, false, cutoff, i + 1);
            && (alpha < Min(beta, best') ==> Min(beta, m) <= best' <= m)
            && (Min(beta, best') <= alpha ==> FailSoft(best', BestChild(b, depth, false, cutoff, 9), alpha, beta))
  {
    BestChildMonotone(b, depth, false, cutoff, i + 1, 9);
  }

  /**
   * `minimax_with_cutoff`: the alpha-beta search, placing and undoing marks in
   * `board`. It leaves the board as it found it, on the pruning paths too, and
   * its result satisfies the fail-soft bounds against the unpruned value.
   * The two loops over the moves are MaximizeOverMoves and MinimizeOverMoves.
   */
  method MinimaxWithCutoff(board: array<Cell>, depth: nat, isMaximizing: bool, cutoff: int, alpha: int, beta: int)
    returns (score: int)
    requires board.Length == 9
    requires depth + EmptyCount(board[..]) <= 9
    requires NegInf <= alpha < beta <= PosInf
    modifies board
    ensures board[..] == old(board[..])
    ensures FailSoft(score, Value(old(board[..]), depth, isMaximizing, cutoff), alpha, beta)
    decreases EmptyCount(board[..]), 1
  {
    var winner := Winner(board[..]);
    if winner == Some(X) {
      return 10 - depth;
    } else if winner == Some(O) {
      return depth - 10;
    } else if IsFull(board[..]) {
      return 0;
    }

    if depth >= cutoff {
      score := HeuristicEvaluation(board);
    } else if isMaximizing {
      score := MaximizeOverMoves(board, depth, cutoff, alpha, beta);
    } else {
      score := MinimizeOverMoves(board, depth, cutoff, alpha, beta);
    }
  }

  /**
   * The maximizing branch of `minimax_with_cutoff`: X tries every blank cell
   * in index order, raising alpha to the best value so far, and stops as soon
   * as alpha reaches beta.
   */
  method MaximizeOverMoves(board: array<Cell>, depth: nat, cutoff: int, alpha: int, beta: int) returns (best: int)
    requires board.Length == 9
    requires depth + EmptyCount(board[..]) <= 9
    requires NegInf <= alpha < beta <= PosInf
    modifies board
    ensures board[..] == old(board[..])
    ensures FailSoft(best, BestChild(old(board[..]), depth, true, cutoff, 9), alpha, beta)
    decreases EmptyCount(board[..]), 0
  {
    ghost var b := board[..];
    best := NegInf;
    var a := alpha;
    var i := 0;
    while i < 9
      invariant 0 <= i <= 9 && board[..] == b
      invariant a == Max(alpha, best) && a < beta
      invariant var m := BestChild(b, depth, true, cutoff, i); m <= best <= Max(alpha, m)
    {
      if board[i] == Empty {
        board[i] := X;
        assert board[..] == b[i := X];
        PlaceLowersEmptyCount(b, i, X);
        var s := MinimaxWithCutoff(board, depth + 1, false, cutoff, a, beta);
        board[i] := Empty;
        assert board[..] == b;
        MaxLoopStep(b, depth, cutoff, alpha, beta, i, best, s);
        best := Max(s, best);
        a := Max(a, best);
        if beta <= a {
          break;
        }
      }
      i := i + 1;
    }
  }

  /**
   * The minimizing branch of `minimax_with_cutoff`: O tries every blank cell
   * in index order, lowering beta to the best value so far, and stops as soon
   * as beta reaches alpha.
   */
  method MinimizeOverMoves(board: array<Cell>, depth: nat, cutoff: int, alpha: int, beta: int) returns (best: int)
    requires board.Length == 9
    requires depth + EmptyCount(board[..]) <= 9
    requires NegInf <= alpha < beta <= PosInf
    modifies board
    ensures board[..] == old(board[..])
    ensures FailSoft(best, BestChild(old(board[..]), depth, false, cutoff, 9), alpha, beta)
    decreases EmptyCount(board[..]), 0
  {
    ghost var b := board[..];
    best := PosInf;
    var bt := beta;
    var i := 0;
    while i < 9
      invariant 0 <= i <= 9 && board[..] == b
      invariant bt == Min(beta, best) && alpha < bt
      invariant var m := BestChild(b, depth, false, cutoff, i); Min(beta, m) <= best <= m
    {
      if board[i] == Empty {
        board[i] := O;
        assert board[..] == b[i := O];
        PlaceLowersEmptyCount(b, i, O);
        var s := MinimaxWithCutoff(board, depth + 1, true, cutoff, alpha, bt);
        board[i] := Empty;
        assert board[..] == b;
        MinLoopStep(b, depth, cutoff, alpha, beta, i, best, s);
        best := Min(s, best);
        bt := Min(bt, best);
        if bt <= alpha {
          break;
        }
      }
      i := i + 1;
    }
  }

  /** The score the root search gives to the AI's move into cell i. */
  function RootScore(b: seq<Cell>, i: nat): int
    requires |b| == 9 && i < 9
  {
    Value(b[i := X], 0, false, DepthCutoff)
  }

  /**
   * m is the move `get_best_move_with_cutoff` must return: None exactly when
   * the board is full, otherwise a blank cell with the highest root score,
   * and the lowest such cell since only a strictly better score replaces it.
   */
  predicate IsBestMove(b: seq<Cell>, m: Option<nat>)
    requires |b| == 9
  {
    match m
    case None => IsFull(b)
    case Some(i) =>
      && i < 9 && b[i] == Empty
      && (forall j :: 0 <= j < 9 && b[j] == Empty ==> RootScore(b, j) <= RootScore(b, i))
      && (forall j :: 0 <= j < i && b[j] == Empty ==> RootScore(b, j) < RootScore(b, i))
  }

  /** At most one move satisfies IsBestMove: the choice is deterministic. */
  lemma BestMoveUnique(b: seq<Cell>, m1: Option<nat>, m2: Option<nat>)
    requires |b| == 9 && IsBestMove(b, m1) && IsBestMove(b, m2)
    ensures m1 == m2
  {
  }

  /**
   * `get_best_move_with_cutoff`: tries X in every blank cell in index order,
   * searches each with the full window, and keeps the first best cell. The
   * board is restored.
   */
  method GetBestMoveWithCutoff(board: array<Cell>) returns (bestMove: Option<nat>)
    requires board.Length == 9
    modifies board
    ensures board[..] == old(board[..])
    ensures IsBestMove(old(board[..]), bestMove)
  {
    ghost var b := board[..];
    var bestScore := NegInf;
    bestMove := None;
    var depthCutoff := DepthCutoff;
    EmptyCountAtMost(b);

    for i := 0 to 9
      invariant board[..] == b
      invariant bestMove.None? ==> bestScore == NegInf && forall j :: 0 <= j < i ==> b[j] != Empty
      invariant bestMove.Some? ==>
        && bestMove.value < i && b[bestMove.value] == Empty
        && bestScore == RootScore(b, bestMove.value)
        && (forall j :: 0 <= j < i && b[j] == Empty ==> RootScore(b, j) <= bestScore)
        && (forall j :: 0 <= j < bestMove.value && b[j] == Empty ==> RootScore(b, j) < bestScore)
    {
      if board[i] == Empty {
        board[i] := X;
        var score := MinimaxWithCutoff(board, 0, false, depthCutoff, NegInf, PosInf);
        board[i] := Empty;
        assert board[..] == b;
        ValueBounds(b[i := X], 0, false, DepthCutoff);
        FullWindowIsExact(score, RootScore(b, i));
        if score > bestScore {
          bestScore := score;
          bestMove := Some(i);
        }
      }
    }
    if bestMove.None? {
      assert forall j :: 0 <= j < 9 ==> b[j] != Empty;
    }
  }
}
