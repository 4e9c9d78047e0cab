/**
 * The board logic of back-end/routes/game_routes.py. Here a board is nine
 * strings with "" for a blank cell, as the route stores it, and its
 * `check_winner` tests a line's first cell for truthiness instead of
 * comparing with a blank. The stored game and the players' counters stand
 * in for the two database collections.
 */
module GameRoutes {
  import opened Wrappers
  import opened Json
  import Board

  /** The eight lines, in the order this file lists them (the engine's order). */
  const Lines: seq<(nat, nat, nat)> :=
    [(0, 1, 2), (3, 4, 5), (6, 7, 8),
     (0, 3, 6), (1, 4, 7), (2, 5, 8),
     (0, 4, 8), (2, 4, 6)]

  /** Line k holds three equal non-empty strings. */
  predicate Complete(b: seq<string>, k: nat)
    requires |b| == 9 && k < |Lines|
  {
    var (i, j, l) := Lines[k];
    b[i] != "" && b[i] == b[j] && b[j] == b[l]
  }

  /** The scan of `check_winner` from line k on. */
  function WinnerFrom(b: seq<string>, k: nat): Option<string>
    requires |b| == 9 && k <= |Lines|
    decreases |Lines| - k
  {
    if k == |Lines| then None
    else if Complete(b, k) then Some(b[Lines[k].0])
    else WinnerFrom(b, k + 1)
  }

  /** `check_winner` of the routes. */
  function Winner(b: seq<string>): Option<string>
    requires |b| == 9
  {
    WinnerFrom(b, 0)
  }

  lemma {:induction false} WinnerFromSpec(b: seq<string>, k: nat)
    requires |b| == 9 && k <= |Lines|
    ensures WinnerFrom(b, k).Some? ==>
      WinnerFrom(b, k).value != "" &&
      exists j :: k <= j < |Lines| && Complete(b, j) && b[Lines[j].0] == WinnerFrom(b, k).value &&
                  forall j' :: k <= j' < j ==> !Complete(b, j')
    ensures WinnerFrom(b, k).None? <==> forall j :: k <= j < |Lines| ==> !Complete(b, j)
    decreases |Lines| - k
  {
    if k < |Lines| && !Complete(b, k) {
      WinnerFromSpec(b, k + 1);
    }
  }

  /**
   * The routes' `check_winner` never reports the blank "": it reports the
   * string of the first line with three equal non-empty cells, and None
   * exactly when there is no such line.
   */
  lemma WinnerSpec(b: seq<string>)
    requires |b| == 9
    ensures Winner(b).Some? ==>
      Winner(b).value != "" &&
      exists k :: 0 <= k < |Lines| && Complete(b, k) && b[Lines[k].0] == Winner(b).value &&
                  forall j :: 0 <= j < k ==> !Complete(b, j)
    ensures Winner(b).None? <==> forall k :: 0 <= k < |Lines| ==> !Complete(b, k)
  {
    WinnerFromSpec(b, 0);
  }

  /** The string a cell of the engine's board is stored as. */
  function CellString(c: Board.Cell): string
  {
    match c
    case Empty => ""
    case X => "X"
    case O => "O"
  }

  function Encode(b: seq<Board.Cell>): (r: seq<string>)
    ensures |r| == |b| && forall i :: 0 <= i < |b| ==> r[i] == CellString(b[i])
  {
    seq(|b|, i requires 0 <= i < |b| => CellString(b[i]))
  }

  /** The two `check_winner`s agree: on an encoded engine board the routes find the engine's winner. */
  lemma WinnerAgreesWithEngine(b: seq<Board.Cell>)
    requires |b| == 9
    ensures Winner(Encode(b)) == match Board.Winner(b) case None => None case Some(c) => Some(CellString(c))
  {
    var e := Encode(b);
    forall k | 0 <= k < |Lines|
      ensures Complete(e, k) == Board.Complete(b, k) && e[Lines[k].0] == CellString(Board.LineMark(b, k))
    {
    }
    WinnerFromAgrees(b, 0);
  }

  lemma {:induction false} WinnerFromAgrees(b: seq<Board.Cell>, k: nat)
    requires |b| == 9 && k <= |Lines|
    requires forall j | 0 <= j < |Lines| ::
      Complete(Encode(b), j) == Board.Complete(b, j) && Encode(b)[Lines[j].0] == CellString(Board.LineMark(b, j))
    ensures WinnerFrom(Encode(b), k) ==
            match Board.WinnerFrom(b, k) case None => None case Some(c) => Some(CellString(c))
    decreases |Lines| - k
  {
    if k < |Lines| && !Board.Complete(b, k) {
      WinnerFromAgrees(b, k + 1);
    }
  }

  /** A board as the routes write it: only blanks and the two marks. */
  predicate Marked(b: seq<string>)
  {
    |b| == 9 && forall i :: 0 <= i < 9 ==> b[i] in {"", "X", "O"}
  }

  /** On such a board the winner is X or O, so the draw branch of the stats update is never taken. */
  lemma MarkedWinnerIsAMark(b: seq<string>)
    requires Marked(b) && Winner(b).Some?
    ensures Winner(b).value == "X" || Winner(b).value == "O"
  {
    WinnerSpec(b);
  }

  /** A player's counters. */
  datatype Stats = Stats(wins: int, losses: int, draws: int)

  datatype Counter = Wins | Losses | Draws

  function Bump(s: Stats, c: Counter): Stats
  {
    match c
    case Wins => s.(wins := s.wins + 1)
    case Losses => s.(losses := s.losses + 1)
    case Draws => s.(draws := s.draws + 1)
  }

  /**
   * One `$inc` on the player whose id is the JSON string `id`: no player
   * matches an id that is absent or not a string, and then nothing changes.
   */
  function Increment(players: map<string, Stats>, id: Json, c: Counter): (r: map<string, Stats>)
    ensures r.Keys == players.Keys
    ensures forall p :: p in players && id != JStr(p) ==> r[p] == players[p]
    ensures id.JStr? && id.s in players ==> r[id.s] == Bump(players[id.s], c)
  {
    if id.JStr? && id.s in players then players[id.s := Bump(players[id.s], c)] else players
  }

  /**
   * `update_player_stats_after_game`: for "X" the first player wins and the
   * second loses, for "O" the reverse, and any other value counts a draw
   * for both.
   */
  function StatsAfterGame(players: map<string, Stats>, first: Json, second: Json, winner: string): map<string, Stats>
  {
    if winner == "X" then Increment(Increment(players, first, Wins), second, Losses)
    else if winner == "O" then Increment(Increment(players, second, Wins), first, Losses)
    else Increment(Increment(players, first, Draws), second, Draws)
  }

  /**
   * A game won by X adds one win to the first player and one loss to the
   * second, a game won by O the reverse; draws and every other counter stay.
   * The two ids may be the same player (one win and one loss), and an id
   * that names no player changes nothing.
   */
  lemma StatsAfterWin(players: map<string, Stats>, first: string, second: string, winner: string)
    requires winner == "X" || winner == "O"
    ensures var r := StatsAfterGame(players, JStr(first), JStr(second), winner);
            var (w, l) := if winner == "X" then (first, second) else (second, first);
            && r.Keys == players.Keys
            && forall p :: p in players ==>
                 && r[p].wins == players[p].wins + (if p == w then 1 else 0)
                 && r[p].losses == players[p].losses + (if p == l then 1 else 0)
                 && r[p].draws == players[p].draws
  {
  }

  /**
   * Any other winner value counts a draw for both players (two draws when
   * the ids are the same player); wins and losses stay.
   */
  lemma StatsAfterDraw(players: map<string, Stats>, first: string, second: string, winner: string)
    requires winner != "X" && winner != "O"
    ensures var r := StatsAfterGame(players, JStr(first), JStr(second), winner);
            && r.Keys == players.Keys
            && forall p :: p in players ==>
                 && r[p].wins == players[p].wins
                 && r[p].losses == players[p].losses
                 && r[p].draws == players[p].draws + (if p == first then 1 else 0) + (if p == second then 1 else 0)
  {
  }

  /** A stored game document. Its id and players are fixed; the move route updates the rest. */
  class Game {
    const id: string
    const firstPlayerId: Json
    const secondPlayerId: Json
    var decision: Json
    var difficulty: int
    var board: seq<string>
    var completed: bool

    /** The document `create_game` builds: a blank board, not completed, decision 0 (draw), difficulty 1 (easy). */
    constructor (id: string, first: Json, second: Json)
      ensures this.id == id && firstPlayerId == first && secondPlayerId == second
      ensures board == seq(9, _ => "") && !completed
      ensures decision == JInt(0) && difficulty == 1
    {
      this.id := id;
      firstPlayerId := first;
      secondPlayerId := second;
      decision := JInt(0);
      difficulty := 1;
      board := seq(9, _ => "");
      completed := false;
    }
  }

  /** `create_game`: both player ids must be truthy, otherwise the 400 answer. */
  method CreateGame(body: Body, id: string) returns (r: Result<Game, string>)
    ensures r.Err? <==> !Truthy(Get(body, "first_player_id")) || !Truthy(Get(body, "second_player_id"))
    ensures r.Err? ==> r.error == "Player IDs are required"
    ensures r.Ok? ==>
              && fresh(r.value) && r.value.id == id
              && r.value.firstPlayerId == Get(body, "first_player_id")
              && r.value.secondPlayerId == Get(body, "second_player_id")
              && r.value.board == seq(9, _ => "") && Marked(r.value.board) && !r.value.completed
              && r.value.decision == JInt(0) && r.value.difficulty == 1
  {
    var first := Get(body, "first_player_id");
    var second := Get(body, "second_player_id");
    if !Truthy(first) || !Truthy(second) {
      return Err("Player IDs are required");
    }
    var game := new Game(id, first, second);
    return Ok(game);
  }

  /**
   * Python list indexing of the nine cells: an int (or bool) in -9..8 names
   * a cell, negative ones counted from the end; anything else raises.
   */
  function CellIndex(index: Json): (r: Option<nat>)
    ensures r.Some? ==> r.value < 9
    ensures index.JInt? && 0 <= index.i < 9 ==> r == Some(index.i as nat)
    ensures index.JInt? && -9 <= index.i < 0 ==> r == Some((index.i + 9) as nat)
    ensures r.None? <==> !IsPyInt(index) || !(-9 <= PyIntValue(index) < 9)
  {
    if IsPyInt(index) && -9 <= PyIntValue(index) < 9 then
      var i := PyIntValue(index);
      Some((if i < 0 then i + 9 else i) as nat)
    else None
  }

  /** The answers of `make_move`. ServerError is an exception the route does not catch. */
  datatype MoveResult =
    | BadRequest(message: string)
    | NotFound(message: string)
    | ServerError
    | Moved(board: seq<string>, winner: Option<string>)

  /** The players' counters, standing in for the players collection. */
  class PlayerTable {
    var stats: map<string, Stats>

    constructor (stats: map<string, Stats>)
      ensures this.stats == stats
    {
      this.stats := stats;
    }
  }

  /**
   * `make_move`: rejects a missing index or a player other than "X"/"O",
   * then a game that does not exist, then an occupied cell, leaving
   * everything unchanged; otherwise writes the player's mark into that one
   * cell and, when the board now has a winner, completes the game with it
   * as the decision and updates both players' counters. The `completed`
   * flag is not consulted, so a finished game still takes moves.
   */
  method MakeMove(game: Game?, index: Json, player: Json, players: PlayerTable) returns (r: MoveResult)
    requires game != null ==> |game.board| == 9
    modifies game, players
    ensures game != null ==> |game.board| == 9
    ensures index == JNull || (player != JStr("X") && player != JStr("O")) ==>
              r == BadRequest("Invalid move data.") && (game != null ==> unchanged(game)) && unchanged(players)
    ensures index != JNull && (player == JStr("X") || player == JStr("O")) && game == null ==>
              r == NotFound("Game not found.") && unchanged(players)
    ensures index != JNull && (player == JStr("X") || player == JStr("O")) && game != null ==>
              match CellIndex(index)
              case None => r == ServerError && unchanged(game) && unchanged(players)
              case Some(i) =>
                if old(game.board)[i] != "" then
                  r == BadRequest("Cell already occupied.") && unchanged(game) && unchanged(players)
                else
                  && game.board == old(game.board)[i := player.s]
                  && r == Moved(game.board, Winner(game.board))
                  && (Winner(game.board).Some? ==>
                        && game.completed && game.decision == JStr(Winner(game.board).value)
                        && players.stats == StatsAfterGame(old(players.stats), game.firstPlayerId,
                                                           game.secondPlayerId, Winner(game.board).value))
                  && (Winner(game.board).None? ==>
                        game.completed == old(game.completed) && game.decision == old(game.decision) &&
                        unchanged(players))
                  && game.difficulty == old(game.difficulty)
    ensures game != null && old(Marked(game.board)) ==> Marked(game.board)
  {
    if index == JNull || !(player == JStr("X") || player == JStr("O")) {
      return BadRequest("Invalid move data.");
    }
    if game == null {
      return NotFound("Game not found.");
    }
    var cell := CellIndex(index);
    if cell.None? {
      return ServerError;
    }
    var i := cell.value;
    if game.board[i] != "" {
      return BadRequest("Cell already occupied.");
    }
    game.board := game.board[i := player.s];
    var winner := Winner(game.board);
    if winner.Some? {
      game.completed := true;
      game.decision := JStr(winner.value);
      players.stats := StatsAfterGame(players.stats, game.firstPlayerId, game.secondPlayerId, winner.value);
    }
    r := Moved(game.board, winner);
  }
}
