# Tic-tac-toe move engine and game rules, in Dafny

This project models the back end of a tic-tac-toe web game. At its centre is
the AI's move engine in `back-end/ai_player.py`:

- win and tie detection on a 9-cell, row-major board with 8 lines;
- a static heuristic with fixed weights;
- depth-limited minimax with alpha-beta pruning, which places a mark in the
  caller's board, recurses, and takes the mark back;
- the `AIPlayer` class, which picks a move according to its difficulty.

Around the engine the model covers:

- the console game of `back-end/test_ai.py`: its own tie test, the input
  check and the turn loop;
- the board rules of the game routes: `check_winner`, game creation, the
  move route and the stats update after a won game;
- the request checks of the player routes.

Files:

| file | module | models |
|---|---|---|
| `wrappers.dfy` | `Wrappers` | `Option` and `Result` |
| `board.dfy` | `Board` | cells, the 8 lines, `check_winner`, the engine's `check_tie`, blank cells |
| `evaluator.dfy` | `Evaluator` | `heuristic_evaluation` |
| `search.dfy` | `Search` | `minimax_with_cutoff`, `get_best_move_with_cutoff`, and the unpruned minimax value they are proved against |
| `ai_player.dfy` | `AiPlayer` | `AIPlayer` and `random_move` |
| `console_game.dfy` | `ConsoleGame` | `test_ai.py`: `check_tie`, `get_user_move`, `main` |
| `json.dfy` | `Json` | JSON request values, with Python truthiness and `isinstance(_, int)` |
| `game_routes.dfy` | `GameRoutes` | `check_winner`, `create_game`, `make_move`, `update_player_stats_after_game` |
| `player_routes.dfy` | `PlayerRoutes` | the checks of `create_player` and `update_player_stats`, and the new player record |

How the engine is modelled:

- The board is an `array<Cell>`, because the search writes into the caller's
  list and restores it.
- The reference for the search is `Search.Value`, the plain minimax value
  without pruning. It uses the same terminal scores, cutoff and heuristic.
- The alpha-beta search returns a *fail-soft* result (`Search.FailSoft`):
  - exactly `Value` when `Value` lies strictly inside the window;
  - a value between `Value` and alpha when `Value` is at most alpha;
  - a value between beta and `Value` when `Value` is at least beta.
- With the full window, as the root search calls it, the result is exactly
  `Value` (`Search.FullWindowIsExact` together with `Search.ValueBounds`).
- `float('-inf')` and `float('inf')` become the integers -1000 and 1000.
  From any position reachable from a root search, every score lies in
  [-77, 93], so the sentinels are never reached.
- `random.choice` and `random.random()` become parameters. `roll` picks one
  of the blank cells (modulo their number). `coin` stands for the draw that
  is compared with 0.5.

## Model

| member | source | states |
|---|---|---|
| Board.WinnerFrom | back-end/ai_player.py:171-174 | the scan of the lines from line k on; it never reports the blank as a winner |
| Board.Winner | back-end/ai_player.py:163-174 | `check_winner`, the engine's and the console's (back-end/test_ai.py:69-80 is the same scan): the mark of the first complete line in the source's order, or None; a winner is never the blank |
| Board.WinnerFromSpec | back-end/ai_player.py:171-174 | the scan from line k returns a mark exactly when some line from k on is complete, and that mark is the one on the first such line |
| Board.WinnerSpec | back-end/ai_player.py:163-174 | `check_winner` returns a non-blank mark only if all three cells of a line hold it, and it is the first such line; it returns None exactly when no line is complete. `check_winner` in back-end/test_ai.py:69-80 is the same scan, so this one function models both |
| Board.IsFull | back-end/ai_player.py:176-178 | the engine's `check_tie`: no cell is blank; it does not look for a winner |
| Board.EmptyCountAtMost | back-end/ai_player.py:176-178 | a board has no more blanks than cells, and it has zero blanks exactly when `check_tie` holds (no `' '` cell) |
| Board.PlaceLowersEmptyCount | back-end/ai_player.py:89-92 | placing a mark on a blank cell leaves exactly one blank fewer; this is the measure that makes the search terminate |
| Board.EmptyCellsBelow | back-end/ai_player.py:31 | the blank cells below n, in increasing index order, and nothing else |
| Board.EmptyCells | back-end/ai_player.py:31 | `empty_cells` holds exactly the blank cells, and it is empty exactly when the board is full |
| Evaluator.LineCells | back-end/ai_player.py:134 | the line being scored has exactly three cells |
| Evaluator.LineScoreBounds | back-end/ai_player.py:136-146 | one line adds between -8 and +10 |
| Evaluator.LinesScoreBounds | back-end/ai_player.py:133-146 | n lines add between -8n and +10n |
| Evaluator.CornersScoreBounds | back-end/ai_player.py:154-159 | n corners add between -2n and +2n |
| Evaluator.Heuristic | back-end/ai_player.py:116-161 | the static value of a board: the eight line scores, the centre bonus and the four corner bonuses summed; every board evaluates into [-77, 93] |
| Evaluator.HeuristicEvaluation | back-end/ai_player.py:116-161 | the loop's score is the sum of the eight line scores (+10 for two X and a blank, else -8 for two O and a blank; +2 for one X and two blanks, else -1 for one O and two blanks), plus ±5 for the centre and ±2 for each corner |
| Search.Value | back-end/ai_player.py:70-114 | the unpruned minimax value the search is proved against: 10 - depth on an X line, depth - 10 on an O line, 0 on a full board, the heuristic at the cutoff, otherwise the best child for the side to move |
| Search.BestChildBoundsChildren | back-end/ai_player.py:87-114 | no move into a blank cell is better for the side to move than the unpruned best: every child is at most it when maximizing, and at least it when minimizing |
| Search.BestChildAttained | back-end/ai_player.py:88-96 | from a reachable position with a blank cell, the unpruned best is the value of one of the moves; the -inf/+inf start value never survives |
| Search.BestChildMonotone | back-end/ai_player.py:96-97 | looking at more cells only raises the running maximum, or lowers the running minimum |
| Search.BestChildBounds | back-end/ai_player.py:87-114 | once a blank cell has been seen, the best child is a score in [-77, 93]; before that it is the side's sentinel |
| Search.ValueBounds | back-end/ai_player.py:75-114 | every position reachable from a root search scores in [-77, 93]; this covers an X line (10 - depth), an O line (depth - 10), a full board (0), the cutoff (the heuristic) and the best child |
| Search.FullWindowIsExact | back-end/ai_player.py:60-61 | with the window (-inf, +inf), a fail-soft result is exactly the minimax value |
| Search.MaxLoopStep | back-end/ai_player.py:89-99 | one iteration of the maximizing loop: it either keeps best between the unpruned maximum so far and that maximum raised to alpha, or, when it breaks on beta <= alpha, best is already a fail-soft answer for the whole node |
| Search.MinLoopStep | back-end/ai_player.py:103-113 | the minimizing mirror of MaxLoopStep |
| Search.MinimaxWithCutoff | back-end/ai_player.py:70-114 | the board is the same on return as on entry, the pruning paths included, and the result is fail-soft against the unpruned minimax value; the method terminates because every recursive call sees one blank fewer |
| Search.MaximizeOverMoves | back-end/ai_player.py:87-100 | the maximizing branch restores the board and returns a fail-soft bound on the best child |
| Search.MinimizeOverMoves | back-end/ai_player.py:101-114 | the minimizing branch restores the board and returns a fail-soft bound on the best child |
| Search.BestMoveUnique | back-end/ai_player.py:64-66 | the move choice is deterministic: at most one move meets IsBestMove |
| Search.GetBestMoveWithCutoff | back-end/ai_player.py:49-68 | the board is restored; the result is None exactly when there is no blank cell; otherwise it is a blank cell with the highest root score, and the lowest such index, because only a strictly higher score replaces the current best |
| AiPlayer.RandomMove | back-end/ai_player.py:29-32 | `random_move` returns None exactly when the board is full; otherwise it returns a blank cell |
| AiPlayer.RandomMoveCoversBlanks | back-end/ai_player.py:31-32 | every blank cell is the result for some draw, so the roll parameter does not narrow the choice |
| AiPlayer.BestMoveIsLegal | back-end/ai_player.py:43-47 | the search's move is a blank cell, and it is None only on a full board |
| AiPlayer.Chooses | back-end/ai_player.py:18-41 | what `make_move` returns for a difficulty and the draws: "easy" the random move, "medium" the random move on a draw below 0.5 and the search's move otherwise, "hard" the search's move, any other difficulty None |
| AiPlayer.ChoosesIsLegal | back-end/ai_player.py:18-47 | on "easy", "medium" and "hard" the move is a blank cell, and None only on a full board; on any other difficulty there is no move |
| AiPlayer.ChoosesIsDeterministic | back-end/ai_player.py:18-68 | given the draws, `make_move` has one possible result, because the search keeps the first best cell |
| AiPlayer.NoMoveMeansUnknownDifficulty | back-end/ai_player.py:18-32 | if `make_move` gives no move on a board with a blank cell, the difficulty is none of "easy", "medium" and "hard" |
| AiPlayer.AIPlayer.constructor | back-end/ai_player.py:7-12 | a new player is "AI_Player" on difficulty "easy" |
| AiPlayer.AIPlayer.SetDifficulty | back-end/ai_player.py:14-16 | only the difficulty changes, to any given string |
| AiPlayer.AIPlayer.MinimaxMove | back-end/ai_player.py:43-47 | returns the search's move and restores the board |
| AiPlayer.AIPlayer.MixedMove | back-end/ai_player.py:34-41 | a draw below 0.5 gives the random move, any other draw the search's move; either way the move is legal |
| AiPlayer.AIPlayer.MakeMove | back-end/ai_player.py:18-27 | the move is the one Chooses names for the player's difficulty and the draws ("easy" random, "medium" mixed, "hard" the search, anything else None); on the three known difficulties it is legal; the board is restored |
| ConsoleGame.IsTie | back-end/test_ai.py:82-84 | the console's `check_tie`: no blank cell and no winner |
| ConsoleGame.TieMeansNoCompleteLine | back-end/test_ai.py:82-84 | the console's `check_tie` holds exactly when no cell is blank and no line is complete |
| ConsoleGame.EngineTieIgnoresWinner | back-end/ai_player.py:176-178 | some full board is a tie for the engine but not for the console, because the engine's test never looks for a winner |
| ConsoleGame.GetUserMove | back-end/test_ai.py:12-25 | the returned move is a number in 0..8 naming a blank cell, and it is the first such input line; every line skipped before it is rejected; None only when the input runs out |
| ConsoleGame.TurnMarkAlternates | back-end/test_ai.py:40-47 | turns alternate between the human's O and the AI's X |
| ConsoleGame.Play | back-end/test_ai.py:34-47 | the board after a sequence of placements on the empty board, with O on even turns and X on odd ones; it always has nine cells |
| ConsoleGame.LegalGameStep | back-end/test_ai.py:40-67 | in a legal game, placement k went into a blank cell of the board after the first k placements, and that board had no winner |
| ConsoleGame.LegalExtend | back-end/test_ai.py:42-47 | a turn writes the turn's mark into one blank cell and changes no other cell; the game stays legal |
| ConsoleGame.EmptyBoardBlanks | back-end/test_ai.py:34 | the game starts with nine blank cells |
| ConsoleGame.LegalGameBlanks | back-end/test_ai.py:37-67 | after k legal placements 9 - k cells are blank, so a game has at most 9 placements |
| ConsoleGame.NextPlacement | back-end/test_ai.py:40-50 | on the human's turn the placement is the first accepted line from the current position, every line before it is rejected, and None means the lines ran out; on the AI's turn it is exactly what `make_move` chooses with the turn's draws (Chooses), no line is read, and the board is as it was |
| ConsoleGame.Follows | back-end/test_ai.py:37-67 | every placement of the game is the one `main` makes: on the human's turns the first accepted line after the previous read, on the AI's turns the choice of `make_move` with the AI's draws for that turn |
| ConsoleGame.FollowsExtend | back-end/test_ai.py:40-47 | a placement made that way extends a game that follows the input and the AI |
| ConsoleGame.VerdictOnWin | back-end/test_ai.py:53-60 | a winning line ends the game as "AI wins" for X and "You win" for O |
| ConsoleGame.VerdictOnOpenBoard | back-end/test_ai.py:40-50 | on an open board the game stops without a placement only by end of input on the human's turn, or because `make_move` gave no move on the AI's turn; the lemma derives from `make_move`'s contract that this happens only on an unknown difficulty |
| ConsoleGame.CheckEnd | back-end/test_ai.py:52-65 | after a placement, a winning line ends the game with its owner's win, then a full board ends it in a tie; otherwise the game goes on with no winner and a blank cell |
| ConsoleGame.GameOver | back-end/test_ai.py:37-67 | how a game ends: the outcome matches the final board; end of input comes on the human's turn after every remaining line was rejected; the AI is stuck when `make_move` gives no move on its turn |
| ConsoleGame.TakeTurn | back-end/test_ai.py:38-67 | one turn: the game either goes on with one more placement that follows the input and the AI, one blank fewer and no winner, or it ends as GameOver states |
| ConsoleGame.PlayFrom | back-end/test_ai.py:34-67 | the turn loop on a fresh board ends, and ends as GameOver states, with placements that form a legal game and follow the input and the AI |
| ConsoleGame.PlayGame | back-end/test_ai.py:27-67 | the placements form a legal game (O first, alternating, each into a blank cell of a board with no winner yet, at most 9) and each is the one `main` makes from the input or the AI's move; the AI wins exactly on an X line, the human exactly on an O line, a tie is declared exactly on a full board with no line; the game stops early only when the input runs out (all of it read) or the AI gives no move (only on an unknown difficulty) |
| Json.Lookup | back-end/routes/player_routes.py:30 | `data.get(key)` finds a value exactly when the body has an entry with that key, and the value is that entry's |
| GameRoutes.Winner | back-end/routes/game_routes.py:119-132 | the routes' `check_winner`: the string of the first line whose three cells are equal and truthy, or None |
| GameRoutes.WinnerFromSpec | back-end/routes/game_routes.py:129-132 | the scan from line k returns a string exactly when some line from k on has three equal non-empty cells, and it is the first such line's string |
| GameRoutes.WinnerSpec | back-end/routes/game_routes.py:119-132 | the routes' `check_winner` never returns `''`: it returns the string of the first line with three equal truthy cells, and None exactly when there is none |
| GameRoutes.WinnerAgreesWithEngine | back-end/routes/game_routes.py:119-132 | writing `' '`, X and O as `''`, "X" and "O", the routes' `check_winner` finds the same winner as the engine's |
| GameRoutes.MarkedWinnerIsAMark | back-end/routes/game_routes.py:114-117 | on a board of `''`, "X" and "O" the winner is "X" or "O", so `make_move` never reaches the draw branch of the stats update |
| GameRoutes.Increment | back-end/routes/game_routes.py:108-117 | one `$inc` changes only the counter of the player whose id matches, and nothing when no player matches |
| GameRoutes.StatsAfterGame | back-end/routes/game_routes.py:99-117 | `update_player_stats_after_game`: two `$inc` updates, by the winner value: X, O, or anything else (a draw) |
| GameRoutes.StatsAfterWin | back-end/routes/game_routes.py:99-113 | for X the first player gains a win and the second a loss, for O the reverse; draws and every other counter stay; when both ids name one player it gains a win and a loss; an id that names no player changes nothing |
| GameRoutes.StatsAfterDraw | back-end/routes/game_routes.py:114-117 | any other winner value adds a draw to each of the two players (two draws when both ids name one player), and wins and losses stay |
| GameRoutes.Game.constructor | back-end/routes/game_routes.py:40-48 | a new game has nine `''` cells, is not completed, and has decision 0 and difficulty 1 |
| GameRoutes.CreateGame | back-end/routes/game_routes.py:22-57 | a missing or falsy player id is rejected with "Player IDs are required"; otherwise the new game document is created |
| GameRoutes.CellIndex | back-end/routes/game_routes.py:80 | Python indexing of the nine cells: 0..8 names that cell, -9..-1 counts from the end, True and False are 1 and 0, and any other value raises |
| GameRoutes.MakeMove | back-end/routes/game_routes.py:60-97 | the checks run in this order: a missing index, or a player other than X/O, gives 400; a missing game gives 404; an index that cannot index the board raises; an occupied cell gives 400. None of these change anything. Otherwise exactly that cell becomes the player's mark. A winner marks the game completed, with the winner as decision, and updates the stats; without a winner nothing else changes, so a full board with no winner is never completed. Boards stay within `''`, X and O |
| PlayerRoutes.CreatePlayer | back-end/routes/player_routes.py:23-59 | a player is accepted exactly when the name is a non-empty string and the theme is falsy, "white" or "dark"; a falsy name gives "name is required", a truthy non-string name "must be a string"; a new player has 0 wins, losses and draws, and the theme defaults to "white" only when the key is absent |
| PlayerRoutes.CreatedPlayerWellFormed | back-end/routes/player_routes.py:30-53 | every created player has a non-empty name and a theme that is "white", "dark" or falsy |
| PlayerRoutes.EmptyThemeKept | back-end/routes/player_routes.py:34-52 | a present empty theme passes the check and is stored as `""` |
| PlayerRoutes.ValidateStats | back-end/routes/player_routes.py:90-96 | a body passes exactly when every key is wins/losses/draws and every value is an int equal to 1; otherwise the error names the first offending entry, checking key, then type, then value |
| PlayerRoutes.EmptyStatsPass | back-end/routes/player_routes.py:90-99 | an empty body passes, because the loop never runs |
| PlayerRoutes.TruePassesDecrementFails | back-end/routes/player_routes.py:93-96 | `true` passes as the int 1, while -1 is rejected even though the message mentions decrements |

## Left out

- Database and web plumbing are not modelled: `back-end/database.py`, `back-end/config.py`, `back-end/stats.py`, the `get_db` calls, uuid generation, `jsonify` and the HTTP status plumbing. The collections become a `Game` object and a `PlayerTable` map; new ids are parameters.
- `create_player` looks up an existing player by name and returns it (back-end/routes/player_routes.py:40-43). That lookup is a database read and is not modelled.
- The `$inc` update in `update_player_stats` (back-end/routes/player_routes.py:98-111) is a database write. Only its validation is modelled, so what the database does with a `true` value is not.
- Request bodies that are not JSON objects are not modelled; `data.get` would raise on them. Duplicate keys are merged by the JSON parser, so a body has each key once.
- A game document without a `board` field is not modelled. The default of `make_move` (back-end/routes/game_routes.py:79) is not modelled; stored boards have nine cells.
- `back-end/app.py` is not modelled. It is SocketIO/HTTP wiring that repeats the move route.
- The front end (`front_end/src/*.jsx`) is not modelled.
- Console I/O is not modelled. `print_board` and the prompts are left out. Parsing with `int()` becomes an input sequence of `Option<int>`, where None is a line `int()` rejects. End of input ends the game as `InputExhausted`, where the console would raise.
- The `.strip().lower()` of the difficulty typed at the console (back-end/test_ai.py:30) is not modelled; the difficulty arrives already normalised.
- Randomness is not modelled as probability. Only which moves are possible is stated. In the console game the draws are functions of the AI's move number: the AI's j-th move uses `coin(j)` and `roll(j)`.
- Game-theoretic optimality is not claimed. With a depth cutoff of 5 and the heuristic, the engine does not compute exact game values; the model proves the search equal to the same cutoff minimax.
- Search.MinimaxWithCutoff: requires depth + blanks <= 9 and NegInf <= alpha < beta <= PosInf. Every call the engine makes meets this. It keeps scores away from the sentinels that replace the floats.
- Search.MinimaxWithCutoff: its two loops are written as the methods MaximizeOverMoves and MinimizeOverMoves. The source has one function with an if/else.
- Board cells are `' '`, `'X'` and `'O'` only. The engine treats any other string as an occupied, non-scoring cell; that case is not modelled.
- `make_move` ignores the `completed` flag. A finished game still accepts moves. Every later move on a won board counts the stats again, because the old line stays complete and `check_winner` finds it again. The model states this behaviour and does not change it.
