/**
 * The `AIPlayer` of back-end/ai_player.py: a username, a mutable difficulty,
 * and the dispatch from difficulty to a move strategy. The draws of the
 * `random` module are explicit parameters: `roll` picks among the blank
 * cells and `coin` plays the role of `random.random()`.
 */
module AiPlayer {
  import opened Wrappers
  import opened Board
  import opened Search

  /**
   * `random_move`: the blank cell at position roll (mod their number) of the
   * blank cells in index order, or None when there is none.
   */
  function RandomMove(b: seq<Cell>, roll: nat): (r: Option<nat>)
    requires |b| == 9
    ensures r.None? <==> IsFull(b)
    ensures r.Some? ==> r.value < 9 && b[r.value] == Empty
  {
    var cells := EmptyCells(b);
    if cells == [] then None else Some(cells[roll % |cells|] as nat)
  }

  /** The roll oracle does not narrow the choice: every blank cell is drawn by some roll. */
  lemma RandomMoveCoversBlanks(b: seq<Cell>, i: nat)
    requires |b| == 9 && i < 9 && b[i] == Empty
    ensures exists roll: nat :: RandomMove(b, roll) == Some(i)
  {
    var cells := EmptyCells(b);
    assert i in cells;
    var p :| 0 <= p < |cells| && cells[p] == i;
    var roll: nat := p;
    SmallMod(p, |cells|);
    assert RandomMove(b, roll) == Some(i);
  }

  /** A position below n is its own remainder modulo n. */
  lemma SmallMod(p: nat, n: nat)
    requires p < n
    ensures p % n == p
  {
    assert p == 0 * n + p;
  }

  /** What any strategy must return: a blank cell, and None only on a full board. */
  predicate LegalMove(b: seq<Cell>, m: Option<nat>)
    requires |b| == 9
  {
    match m
    case None => IsFull(b)
    case Some(i) => i < 9 && b[i] == Empty
  }

  /** The search's choice is a legal move. */
  lemma BestMoveIsLegal(b: seq<Cell>, m: Option<nat>)
    requires |b| == 9 && IsBestMove(b, m)
    ensures LegalMove(b, m)
  {
  }

  /**
   * What `make_move` returns on board b for a difficulty, given the draws:
   * "easy" the random move, "medium" the random move when coin < 0.5 and the
   * search's move otherwise, "hard" the search's move, anything else None.
   */
  predicate Chooses(difficulty: string, b: seq<Cell>, coin: real, roll: nat, m: Option<nat>)
    requires |b| == 9
  {
    if difficulty == "easy" then m == RandomMove(b, roll)
    else if difficulty == "medium" then (if coin < 0.5 then m == RandomMove(b, roll) else IsBestMove(b, m))
    else if difficulty == "hard" then IsBestMove(b, m)
    else m.None?
  }

  /** On a known difficulty the choice is a legal move; on any other there is no move. */
  lemma ChoosesIsLegal(difficulty: string, b: seq<Cell>, coin: real, roll: nat, m: Option<nat>)
    requires |b| == 9 && Chooses(difficulty, b, coin, roll, m)
    ensures difficulty in {"easy", "medium", "hard"} ==> LegalMove(b, m)
    ensures difficulty !in {"easy", "medium", "hard"} ==> m.None?
  {
    if difficulty == "hard" || (difficulty == "medium" && 0.5 <= coin) {
      BestMoveIsLegal(b, m);
    }
  }

  /** Given the draws, the choice is determined: at most one move satisfies Chooses. */
  lemma ChoosesIsDeterministic(difficulty: string, b: seq<Cell>, coin: real, roll: nat, m1: Option<nat>, m2: Option<nat>)
    requires |b| == 9 && Chooses(difficulty, b, coin, roll, m1) && Chooses(difficulty, b, coin, roll, m2)
    ensures m1 == m2
  {
    if difficulty == "hard" || (difficulty == "medium" && 0.5 <= coin) {
      BestMoveUnique(b, m1, m2);
    }
  }

  /** An AI that gives no move on an open board has an unknown difficulty. */
  lemma NoMoveMeansUnknownDifficulty(difficulty: string, b: seq<Cell>, coin: real, roll: nat)
    requires |b| == 9 && !IsFull(b) && Chooses(difficulty, b, coin, roll, None)
    ensures difficulty !in {"easy", "medium", "hard"}
  {
    ChoosesIsLegal(difficulty, b, coin, roll, None);
  }

  class AIPlayer {
    var username: string
    var difficulty: string

    /** A new player is "AI_Player" on the default difficulty "easy". */
    constructor ()
      ensures username == "AI_Player" && difficulty == "easy"
    {
      username := "AI_Player";
      difficulty := "easy";
    }

    /** `set_difficulty`: stores any string; only the difficulty changes. */
    method SetDifficulty(d: string)
      modifies this
      ensures difficulty == d && username == old(username)
    {
      difficulty := d;
    }

    /** `minimax_move`: the search's move. */
    method MinimaxMove(board: array<Cell>) returns (move: Option<nat>)
      requires board.Length == 9
      modifies board
      ensures board[..] == old(board[..])
      ensures IsBestMove(old(board[..]), move)
    {
      move := GetBestMoveWithCutoff(board);
    }

    /** `mixed_move`: the random move when coin < 0.5, the search's move otherwise. */
    method MixedMove(board: array<Cell>, coin: real, roll: nat) returns (move: Option<nat>)
      requires board.Length == 9
      modifies board
      ensures board[..] == old(board[..])
      ensures coin < 0.5 ==> move == RandomMove(old(board[..]), roll)
      ensures 0.5 <= coin ==> IsBestMove(old(board[..]), move)
      ensures LegalMove(old(board[..]), move)
    {
      if coin < 0.5 {
        move := RandomMove(board[..], roll);
      } else {
        move := MinimaxMove(board);
        BestMoveIsLegal(old(board[..]), move);
      }
    }

    /**
     * `make_move`: "easy" draws a random move, "medium" mixes, "hard"
     * searches, and any other difficulty gives no move. On the three known
     * difficulties the move is legal; the board is left as it was.
     */
    method MakeMove(board: array<Cell>, coin: real, roll: nat) returns (move: Option<nat>)
      requires board.Length == 9
      modifies board
      ensures board[..] == old(board[..])
      ensures Chooses(difficulty, old(board[..]), coin, roll, move)
      ensures difficulty in {"easy", "medium", "hard"} ==> LegalMove(old(board[..]), move)
    {
      if difficulty == "easy" {
        move := RandomMove(board[..], roll);
      } else if difficulty == "medium" {
        move := MixedMove(board, coin, roll);
      } else if difficulty == "hard" {
        move := MinimaxMove(board);
        BestMoveIsLegal(old(board[..]), move);
      } else {
        move := None;
      }
    }
  }
}
