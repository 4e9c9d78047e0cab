/**
 * The console game of back-end/test_ai.py: its own `check_tie` (which,
 * unlike the engine's, also requires no winner), the input check of
 * `get_user_move`, and the turn loop of `main`, in which the human places O
 * first and the AI answers with X. Console lines arrive as a sequence:
 * Some(n) is a line that parses as the integer n, None a line that does
 * not. The AI's random draws are oracles indexed by the AI's move number.
 * The file's `check_winner` is the engine's scan line for line, so it is
 * Board.Winner here.
 */
module ConsoleGame {
  import opened Wrappers
  import opened Board
  import opened AiPlayer

  /** `check_tie` of the console game: no blank cell and no winner. */
  predicate IsTie(b: seq<Cell>)
    requires |b| == 9
  {
    IsFull(b) && Winner(b).None?
  }

  /** A tie is a full board on which no line is complete. */
  lemma TieMeansNoCompleteLine(b: seq<Cell>)
    requires |b| == 9
    ensures IsTie(b) <==> IsFull(b) && forall k :: 0 <= k < |Lines| ==> !Complete(b, k)
  {
    WinnerSpec(b);
  }

  /** The engine's `check_tie` differs: a full board can hold a winning line and still be a tie there. */
  lemma EngineTieIgnoresWinner()
    ensures exists b: seq<Cell> :: |b| == 9 && IsFull(b) && !IsTie(b)
  {
    var b := [X, X, X, O, O, X, X, O, O];
    assert Complete(b, 0);
    WinnerSpec(b);
    assert IsFull(b) && !IsTie(b);
  }

  /** The input check of `get_user_move`: a number in 0..8 naming a blank cell. */
  predicate Accepts(b: seq<Cell>, line: Option<int>)
    requires |b| == 9
  {
    line.Some? && 0 <= line.value <= 8 && b[line.value] == Empty
  }

  /**
   * `get_user_move`: readTo lines from position pos on and returns the first
   * accepted one with the position after it, or None when the lines run out.
   */
  method GetUserMove(b: seq<Cell>, input: seq<Option<int>>, pos: nat) returns (move: Option<nat>, next: nat)
    requires |b| == 9 && pos <= |input|
    ensures pos <= next <= |input|
    ensures move.Some? ==>
              pos < next && input[next - 1] == Some(move.value as int) && Accepts(b, input[next - 1])
    ensures move.None? ==> next == |input|
    ensures forall k :: pos <= k < (if move.Some? then next - 1 else next) ==> !Accepts(b, input[k])
  {
    next := pos;
    while next < |input|
      invariant pos <= next <= |input|
      invariant forall k :: pos <= k < next ==> !Accepts(b, input[k])
    {
      var line := input[next];
      next := next + 1;
      if line.Some? && 0 <= line.value <= 8 && b[line.value] == Empty {
        return Some(line.value), next;
      }
    }
    move := None;
  }

  /** The mark of the k-th placement (from 0): the human's O on even turns, the AI's X on odd ones. */
  function TurnMark(k: nat): Cell
  {
    if k % 2 == 0 then O else X
  }

  /** The marks alternate: the placement after an O is an X and vice versa. */
  lemma TurnMarkAlternates(k: nat)
    ensures TurnMark(k) != Empty
    ensures TurnMark(k + 1) == if TurnMark(k) == O then X else O
  {
  }

  /** Counting turns: one more placement flips the parity, and an AI placement (odd n) completes a round. */
  lemma TurnParity(n: nat)
    ensures ((n + 1) % 2 == 0) == (n % 2 == 1)
    ensures (n + 1) / 2 == if n % 2 == 1 then n / 2 + 1 else n / 2
  {
  }

  /** The board after the placements `moves` on an empty board, marks alternating from O. */
  function Play(moves: seq<nat>): (b: seq<Cell>)
    ensures |b| == 9
  {
    if moves == [] then seq(9, _ => Empty)
    else
      var prev := Play(moves[..|moves| - 1]);
      var i := moves[|moves| - 1];
      if i < 9 then prev[i := TurnMark(|moves| - 1)] else prev
  }

  /** Every placement was into a blank cell of a board that had no winner yet. */
  predicate LegalGame(moves: seq<nat>)
    decreases |moves|
  {
    moves == [] ||
    var k := |moves| - 1;
    && LegalGame(moves[..k])
    && moves[k] < 9 && Play(moves[..k])[moves[k]] == Empty && Winner(Play(moves[..k])).None?
  }

  /** LegalGame, placement by placement: placement k went into a blank cell of the board after the first k, which had no winner. */
  lemma {:induction false} LegalGameStep(moves: seq<nat>, k: nat)
    requires LegalGame(moves) && k < |moves|
    ensures moves[k] < 9 && Play(moves[..k])[moves[k]] == Empty && Winner(Play(moves[..k])).None?
    decreases |moves|
  {
    var n := |moves| - 1;
    if k < n {
      var init := moves[..n];
      LegalGameStep(init, k);
      assert init[..k] == moves[..k] && init[k] == moves[k];
    }
  }

  /** Appending a legal placement keeps the game legal and writes just that cell. */
  lemma LegalExtend(moves: seq<nat>, i: nat)
    requires LegalGame(moves) && i < 9 && Play(moves)[i] == Empty && Winner(Play(moves)).None?
    ensures LegalGame(moves + [i])
    ensures Play(moves + [i]) == Play(moves)[i := TurnMark(|moves|)]
  {
    assert (moves + [i])[..|moves|] == moves;
  }

  /** The game starts on a board of nine blanks. */
  lemma EmptyBoardBlanks()
    ensures EmptyCount(Play([])) == 9
  {
    assert Play([]) == [Empty, Empty, Empty, Empty, Empty, Empty, Empty, Empty, Empty];
  }

  /** Each legal placement fills one blank: k placements leave 9 - k blanks, so a game has at most 9. */
  lemma {:induction false} LegalGameBlanks(moves: seq<nat>)
    requires LegalGame(moves)
    ensures EmptyCount(Play(moves)) == 9 - |moves|
    ensures |moves| <= 9
  {
    if moves == [] {
      EmptyBoardBlanks();
    } else {
      var last := |moves| - 1;
      var init := moves[..last];
      LegalGameBlanks(init);
      assert Play(moves) == Play(init)[moves[last] := TurnMark(last)];
      PlaceLowersEmptyCount(Play(init), moves[last], TurnMark(last));
      EmptyCountAtMost(Play(moves));
    }
  }

  /** How a console game ends. InputExhausted is end of input, where the console would raise an error. */
  datatype Outcome = AiWins | HumanWins | Tie | AiStuck | InputExhausted

  /**
   * One turn's placement. On the human's turn it is `get_user_move`: the
   * first accepted line from pos on, with every line before it rejected, or
   * None when the lines run out. On the AI's turn it is `make_move` with the
   * given draws (which searches on `board` and restores it), and no line is
   * read.
   */
  method NextPlacement(ai: AIPlayer, board: array<Cell>, humanTurn: bool, input: seq<Option<int>>, pos: nat,
                       coin: real, roll: nat)
    returns (cell: Option<nat>, next: nat)
    requires board.Length == 9 && pos <= |input|
    modifies board
    ensures board[..] == old(board[..])
    ensures pos <= next <= |input|
    ensures cell.Some? ==> cell.value < 9 && board[cell.value] == Empty
    ensures humanTurn && cell.Some? ==>
              pos < next && input[next - 1] == Some(cell.value as int) && Accepts(board[..], input[next - 1])
    ensures humanTurn && cell.None? ==> next == |input|
    ensures humanTurn ==>
              forall k :: pos <= k < (if cell.Some? then next - 1 else next) ==> !Accepts(board[..], input[k])
    ensures !humanTurn ==> next == pos && Chooses(ai.difficulty, board[..], coin, roll, cell)
  {
    if humanTurn {
      cell, next := GetUserMove(board[..], input, pos);
    } else {
      cell := ai.MakeMove(board, coin, roll);
      ChoosesIsLegal(ai.difficulty, board[..], coin, roll, cell);
      next := pos;
    }
  }

  /** Where the input stood before placement k: the start, or just after the line of the last read. */
  function ReadBefore(readTo: seq<nat>, k: nat): nat
    requires k <= |readTo|
  {
    if k == 0 then 0 else readTo[k - 1]
  }

  /**
   * The human's placement `cell` is the first accepted line from position
   * `from` on: every line before it is rejected, and `to` is the position
   * just after it.
   */
  predicate HumanRead(input: seq<Option<int>>, b: seq<Cell>, from: nat, to: nat, cell: nat)
    requires |b| == 9
  {
    && from < to <= |input|
    && input[to - 1] == Some(cell as int) && Accepts(b, input[to - 1])
    && forall p :: from <= p < to - 1 ==> !Accepts(b, input[p])
  }

  /**
   * Placement k of a game, made on board b as `main` makes it: on the
   * human's turns (even k) a HumanRead of the input; on the AI's turns (odd
   * k) the choice of `make_move` with the AI's (k / 2)-th draws, with no line
   * read.
   */
  predicate Step(difficulty: string, input: seq<Option<int>>, coin: nat -> real, roll: nat -> nat,
                 b: seq<Cell>, k: nat, from: nat, to: nat, cell: nat)
    requires |b| == 9
  {
    if k % 2 == 0 then HumanRead(input, b, from, to, cell)
    else to == from && Chooses(difficulty, b, coin(k / 2), roll(k / 2), Some(cell))
  }

  /**
   * Every placement of the game is a Step, made on the board of the
   * placements before it; readTo[k] is the input position after placement k.
   */
  predicate Follows(difficulty: string, input: seq<Option<int>>, coin: nat -> real, roll: nat -> nat,
                    moves: seq<nat>, readTo: seq<nat>)
    decreases |moves|
  {
    && |readTo| == |moves|
    && (moves == [] ||
        var k := |moves| - 1;
        && Follows(difficulty, input, coin, roll, moves[..k], readTo[..k])
        && Step(difficulty, input, coin, roll, Play(moves[..k]), k, ReadBefore(readTo, k), readTo[k], moves[k]))
  }

  /** A placement made as `main` makes it extends a game that follows the input and the AI. */
  lemma FollowsExtend(difficulty: string, input: seq<Option<int>>, coin: nat -> real, roll: nat -> nat,
                      moves: seq<nat>, readTo: seq<nat>, i: nat, r: nat)
    requires Follows(difficulty, input, coin, roll, moves, readTo)
    requires Step(difficulty, input, coin, roll, Play(moves), |moves|, ReadBefore(readTo, |moves|), r, i)
    ensures Follows(difficulty, input, coin, roll, moves + [i], readTo + [r])
  {
    var ms, rs := moves + [i], readTo + [r];
    assert ms[..|moves|] == moves && rs[..|moves|] == readTo;
  }

  /**
   * What the console reports about final board b: the AI wins exactly on an
   * X line, the human exactly on an O line, a tie exactly on a full board
   * without a line; the AI is stuck only on an unknown difficulty and the
   * input runs out only while the game is still open.
   */
  predicate Verdict(outcome: Outcome, b: seq<Cell>, difficulty: string)
    requires |b| == 9
  {
    && (outcome == AiWins <==> Winner(b) == Some(X))
    && (outcome == HumanWins <==> Winner(b) == Some(O))
    && (outcome == Tie <==> IsTie(b))
    && (outcome == AiStuck ==> difficulty !in {"easy", "medium", "hard"} && Winner(b).None? && !IsFull(b))
    && (outcome == InputExhausted ==> Winner(b).None? && !IsFull(b))
  }

  /** A winning line ends the game with its owner's victory. */
  lemma VerdictOnWin(b: seq<Cell>, difficulty: string)
    requires |b| == 9 && Winner(b).Some?
    ensures Verdict(if Winner(b).value == X then AiWins else HumanWins, b, difficulty)
  {
    WinnerSpec(b);
  }

  /**
   * On an open board the game stops without a placement only by end of
   * input on the human's turn, or, on the AI's turn, because `make_move`
   * gives no move, which it does only on an unknown difficulty.
   */
  lemma VerdictOnOpenBoard(b: seq<Cell>, difficulty: string, humanTurn: bool, coin: real, roll: nat)
    requires |b| == 9 && Winner(b).None? && !IsFull(b)
    requires !humanTurn ==> Chooses(difficulty, b, coin, roll, None)
    ensures Verdict(if humanTurn then InputExhausted else AiStuck, b, difficulty)
  {
    if !humanTurn {
      NoMoveMeansUnknownDifficulty(difficulty, b, coin, roll);
    }
  }

  /**
   * How a game with placements `moves` ends: the outcome is the Verdict on
   * its final board; end of input comes on the human's turn after every
   * remaining line was rejected; the AI is stuck on its turn when
   * `make_move` gives no move; `consumed` is how far the input was read.
   */
  predicate GameOver(difficulty: string, input: seq<Option<int>>, coin: nat -> real, roll: nat -> nat,
                     outcome: Outcome, moves: seq<nat>, readTo: seq<nat>, consumed: nat)
  {
    && |readTo| == |moves|
    && Verdict(outcome, Play(moves), difficulty)
    && (outcome == InputExhausted ==>
          && |moves| % 2 == 0 && consumed == |input|
          && forall p :: ReadBefore(readTo, |moves|) <= p < |input| ==> !Accepts(Play(moves), input[p]))
    && (outcome == AiStuck ==>
          |moves| % 2 == 1 && Chooses(difficulty, Play(moves), coin(|moves| / 2), roll(|moves| / 2), None))
    && (outcome != InputExhausted ==> consumed == ReadBefore(readTo, |moves|))
  }

  /**
   * The checks after a placement: a winning line ends the game with its
   * owner's victory, then a full board ends it in a tie; otherwise the game
   * goes on, on a board with no winner and a blank cell.
   */
  method CheckEnd(board: array<Cell>, difficulty: string) returns (end: Option<Outcome>)
    requires board.Length == 9
    ensures end.None? ==> Winner(board[..]).None? && !IsFull(board[..])
    ensures end.Some? ==> end.value in {AiWins, HumanWins, Tie} && Verdict(end.value, board[..], difficulty)
  {
    var winner := Winner(board[..]);
    if winner.Some? {
      VerdictOnWin(board[..], difficulty);
      return Some(if winner.value == X then AiWins else HumanWins);
    }
    if IsTie(board[..]) {
      return Some(Tie);
    }
    return None;
  }

  /**
   * One turn of `main` on an open board: the placement of NextPlacement is
   * written with the turn's mark and the end checks follow; when there is
   * no placement the board is left as it is and the game ends by end of
   * input or with the AI stuck. The game after the turn is moves' (with the
   * input positions readTo').
   */
  method TakeTurn(ai: AIPlayer, board: array<Cell>, playerTurn: bool, input: seq<Option<int>>, pos: nat,
                  coin: nat -> real, roll: nat -> nat, aiMoves: nat, moves: seq<nat>, readTo: seq<nat>)
    returns (next: nat, end: Option<Outcome>, moves': seq<nat>, readTo': seq<nat>)
    requires board.Length == 9 && board[..] == Play(moves) && LegalGame(moves)
    requires Follows(ai.difficulty, input, coin, roll, moves, readTo)
    requires Winner(Play(moves)).None? && !IsFull(Play(moves))
    requires playerTurn <==> |moves| % 2 == 0
    requires aiMoves == |moves| / 2
    requires pos == ReadBefore(readTo, |moves|) && pos <= |input|
    modifies board
    ensures board[..] == Play(moves') && LegalGame(moves') && Follows(ai.difficulty, input, coin, roll, moves', readTo')
    ensures pos <= next <= |input|
    ensures end.None? ==>
              && |moves'| == |moves| + 1 && readTo' == readTo + [next] && moves'[..|moves|] == moves
              && Winner(Play(moves')).None? && !IsFull(Play(moves'))
              && EmptyCount(Play(moves')) < EmptyCount(Play(moves))
    ensures end.Some? ==> GameOver(ai.difficulty, input, coin, roll, end.value, moves', readTo', next)
  {
    var cell;
    cell, next := NextPlacement(ai, board, playerTurn, input, pos, coin(aiMoves), roll(aiMoves));
    if cell.None? {
      VerdictOnOpenBoard(board[..], ai.difficulty, playerTurn, coin(aiMoves), roll(aiMoves));
      end := Some(if playerTurn then InputExhausted else AiStuck);
      moves', readTo' := moves, readTo;
      return;
    }
    var i := cell.value;
    ghost var before := board[..];
    assert Step(ai.difficulty, input, coin, roll, Play(moves), |moves|, pos, next, i);
    board[i] := if playerTurn then O else X;
    assert TurnMark(|moves|) == board[i];
    LegalExtend(moves, i);
    FollowsExtend(ai.difficulty, input, coin, roll, moves, readTo, i, next);
    PlaceLowersEmptyCount(before, i, TurnMark(|moves|));
    moves', readTo' := moves + [i], readTo + [next];
    assert moves'[..|moves|] == moves;
    end := CheckEnd(board, ai.difficulty);
  }

  /**
   * The turn loop of `main` on a fresh board: the human places O on an
   * accepted input, the AI places X on its move, and after each placement a
   * winner or a tie ends the game. Returns the outcome, the cells placed in
   * order, the input position after each placement, and how far the input
   * was read; the board ends as Play(moves).
   */
  method PlayFrom(ai: AIPlayer, board: array<Cell>, input: seq<Option<int>>, coin: nat -> real, roll: nat -> nat)
    returns (outcome: Outcome, moves: seq<nat>, readTo: seq<nat>, consumed: nat)
    requires board.Length == 9 && board[..] == Play([])
    modifies board
    ensures board[..] == Play(moves) && LegalGame(moves) && |moves| <= 9
    ensures Follows(ai.difficulty, input, coin, roll, moves, readTo)
    ensures GameOver(ai.difficulty, input, coin, roll, outcome, moves, readTo, consumed)
  {
    var playerTurn := true;
    var pos := 0;
    var aiMoves := 0;
    moves, readTo := [], [];
    EmptyBoardBlanks();
    EmptyCountAtMost(Play(moves));

    while true
      invariant board[..] == Play(moves) && LegalGame(moves)
      invariant Follows(ai.difficulty, input, coin, roll, moves, readTo)
      invariant Winner(Play(moves)).None? && !IsFull(Play(moves))
      invariant playerTurn <==> |moves| % 2 == 0
      invariant aiMoves == |moves| / 2
      invariant pos == ReadBefore(readTo, |moves|) && pos <= |input|
      decreases EmptyCount(Play(moves))
    {
      var next, end, moves', readTo' := TakeTurn(ai, board, playerTurn, input, pos, coin, roll, aiMoves, moves, readTo);
      if end.Some? {
        moves, readTo, pos := moves', readTo', next;
        outcome := end.value;
        break;
      }
      TurnParity(|moves|);
      moves, readTo, pos := moves', readTo', next;
      if !playerTurn {
        aiMoves := aiMoves + 1;
      }
      playerTurn := !playerTurn;
    }
    consumed := pos;
    LegalGameBlanks(moves);
  }

  /**
   * `main` from the chosen difficulty on: an AI player on that difficulty,
   * an empty board, and the turn loop. Returns the outcome, the final
   * board, the cells placed in order, the input position after each
   * placement, and how far the input was read.
   */
  method PlayGame(difficulty: string, input: seq<Option<int>>, coin: nat -> real, roll: nat -> nat)
    returns (outcome: Outcome, final: seq<Cell>, moves: seq<nat>, readTo: seq<nat>, consumed: nat)
    ensures LegalGame(moves) && final == Play(moves) && |moves| <= 9
    ensures Follows(difficulty, input, coin, roll, moves, readTo)
    ensures GameOver(difficulty, input, coin, roll, outcome, moves, readTo, consumed)
  {
    var ai := new AIPlayer();
    ai.SetDifficulty(difficulty);
    var board := new Cell[9](_ => Empty);
    assert board[..] == Play([]);
    outcome, moves, readTo, consumed := PlayFrom(ai, board, input, coin, roll);
    final := board[..];
  }
}
