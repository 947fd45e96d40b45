# Expert Iteration: a Dafny model of the trainer, its memory, Connect Four and matchmaking

This project models the core of an Expert Iteration (ExIt) system for two-player
board games. The parts modelled are:

- **Memory** (`memory.dfy`). There are two sample memories. `MemoryList` keeps three
  aligned lists (states, policies, values) bounded by `max_memory_size = 50000`.
  It keeps the most recent entries and draws random mini-batches of
  `min(1024, size)` distinct positions. `MemorySet` is a dictionary from state to
  (policy, value). A repeated state overwrites its entry, and random keys are
  evicted until the size bound holds.
- **Expert Iteration** (`expert_iteration.dfy`). This is the bounded softmax over the
  expert's action values, with clamping, a shift by `|lower_bound|` and
  normalisation, plus a uniform fallback when the total is 0. It also covers:
  - greedy (`argmax`, first maximum) and random (`np.random.choice`) action choice;
  - `ex_it_state`, which records a sample and then advances the game;
  - `start_ex_it`, which plays whole games and counts them.
- **Evaluator** (`evaluator.dfy`). This is the zero-sum evaluation of a state from
  one player's perspective, and the reward for playing one action.
- **Connect Four** (`connect_four.dfy`). The 6 x 7 board is a flat array of 42
  cells. The model covers:
  - the checks `advance` makes and the drop of a piece into the lowest empty cell;
  - the winner scan of `update_game_state` over rows, columns and both diagonal
    directions, with `check_in_a_row`'s counter loop;
  - turn alternation, the draw rule, the legal moves and copying.

  The main results are these. The scanned lines find a winner exactly when the
  board holds four in a row. The winner after a move is always the mover. The
  legal moves are exactly the actions `advance` accepts.
- **Matchmaking** (`matchmaking.dfy`). This covers:
  - players with a fixed player index and a per-game seat (`game_index`);
  - moving results from seat order to player order;
  - playing a game to its end;
  - `__compare`, which plays `num_matches` games, tallies each player's
    `[win, lose, draw]` and moves the first player to the back after every game;
  - `__train`;
  - `compare_ex_it` with a finite iteration count.

The game itself is abstract for the trainer, the evaluator and matchmaking.
`GameLogic.Rules` (`game_logic.dfy`) is a record of functions: the initial state,
`is_game_over`, `turn`, `advance` (where `None` stands for the exception an
illegal action raises), `get_result`, and a measure `movesLeft` that every accepted
action lowers. The base game class (`Games/GameLogic.py`) is not part of this
model. Its behaviour is taken as follows:
- a player's board value is its index plus 1;
- the game is over once a winner is set;
- a draw is "no winner and a full board";
- `GameResult` values are Win = 1, Loss = -1, Draw = 0;
- `assign_game_index` gives each player its position in the list;
- `GameResult.get_players_result_list_` maps each result to a one-hot `[win, lose, draw]`.

Randomness (`random.choice`, `np.random.choice`) is a nondeterministic choice
(`:|`) of a value that meets what the library promises. Floating-point numbers
are reals. The expert's search, the apprentice's prediction and the players'
move policy are function parameters.

On the first save into a `MemoryList`, the code stores the given arrays as they
are, untrimmed (`ExIt/Memory.py:21-22`). Only later saves cut the lists to the
last 50000 entries. The memory can therefore hold more than the bound after one
large first save. The model follows the code, and `FirstSaveIsNotTrimmed` states
this behaviour.

## Model

| member | source | states |
|---|---|---|
| Memory.Trim | ExIt/Memory.py:26 | `t[-max_memory_size:]` has length min(\|t\|, 50000) and is the tail of `t`, entry by entry |
| Memory.TrimAppend | ExIt/Memory.py:24-26 | trimming after every extension keeps the same entries as trimming the whole concatenation once |
| Memory.Saved | ExIt/Memory.py:18-27 | once a memory exists, a save leaves each of the three lists at most 50000 long |
| Memory.SavedAligned | ExIt/Memory.py:18-27 | a save of aligned arrays keeps the three stored lists the same length |
| Memory.SavedKeepsMostRecent | ExIt/Memory.py:24-26 | a later save keeps min(old + new, 50000) entries, and they are the most recent ones of old ++ new |
| Memory.FirstSaveIsNotTrimmed | ExIt/Memory.py:21-22 | the first save stores the given states unchanged, even beyond 50000 |
| Memory.SavedAllKeepsMostRecent | ExIt/Memory.py:18-27 | after a first save and any later saves, the memory holds the last 50000 of all the states saved |
| Memory.MemoryList.constructor | ExIt/Memory.py:14-16 | a new memory is empty (None) with empty staging lists |
| Memory.MemoryList.Clear | ExIt/Memory.py:40-42 | clear empties the four staging lists and changes nothing else |
| Memory.MemoryList.Save | ExIt/Memory.py:18-27 | the new memory is Saved(old memory, s, p, v), and the staging lists are cleared |
| Memory.MemoryList.GetSize | ExIt/Memory.py:44-45 | the size is the number of stored states |
| Memory.MemoryList.GetBatch | ExIt/Memory.py:29-38 | min(1024, size) distinct positions, each below the size; the batch rows are the stored entries at those positions in all three lists |
| Memory.DrawDistinct | ExIt/Memory.py:33-37 | `np.random.choice(n, size=k, replace=False)`: k pairwise-distinct numbers below n |
| Memory.Upserted | ExIt/Memory.py:56-57 | the loop keeps every key the dictionary had and adds every state saved |
| Memory.UpsertedLastWins | ExIt/Memory.py:56-57 | the loop's dictionary has the old keys plus every saved state; a state maps to its last (policy, value); untouched keys keep their entry |
| Memory.RepeatedStateOverwrites | ExIt/Memory.py:56-57 | saving one state twice leaves one entry, holding the second policy and value |
| Memory.MemorySet.constructor | ExIt/Memory.py:51-52 | a new memory is the empty dictionary |
| Memory.MemorySet.Save | ExIt/Memory.py:54-60 | after save the size is at most 50000; every kept entry is the upserted one; nothing is evicted when the upserted size fits, and otherwise exactly 50000 remain |
| Memory.MemorySet.GetSize | ExIt/Memory.py:79-80 | the size is the number of keys |
| Memory.MemorySet.GetBatch | ExIt/Memory.py:62-77 | min(1024, size) distinct stored states, each paired with its own stored policy and value |
| ExpertIteration.SumOfNonNegative | ExIt/ExpertIteration.py:81-82 | a sum of non-negative weights is non-negative, bounds each weight, and is 0 exactly when every weight is 0 |
| ExpertIteration.SumScaled | ExIt/ExpertIteration.py:83 | dividing every weight by a total divides the sum by it |
| ExpertIteration.SumConstant | ExIt/ExpertIteration.py:84 | n copies of c sum to n * c |
| ExpertIteration.BoundedSoftmax | ExIt/ExpertIteration.py:70-84 | softmax returns one probability per input value |
| ExpertIteration.SoftmaxIsDistribution | ExIt/ExpertIteration.py:70-84 | for non-empty input and lower <= upper, the output is a probability distribution: entries in [0, 1] summing to 1 |
| ExpertIteration.SoftmaxFallback | ExIt/ExpertIteration.py:80-84 | the uniform branch is taken exactly when the input is empty or (lower <= 0 and every value is at most lower), and it then gives 1/n each |
| ExpertIteration.SoftmaxMonotone | ExIt/ExpertIteration.py:74-83 | a larger value never gets a smaller probability |
| ExpertIteration.SoftmaxExamples | ExIt/ExpertIteration.py:70-84 | values below the bounds give [0.5, 0.5]; [0, 1] with bounds [-1, 1] gives [1/3, 2/3] |
| ExpertIteration.Softmax | ExIt/ExpertIteration.py:70-84 | clamps the caller's array in place to [lower, upper] and returns BoundedSoftmax of the original values |
| ExpertIteration.ArgMaxPrefix | ExIt/ExpertIteration.py:86-88 | the first position of the maximum among the first n entries |
| ExpertIteration.GetActionIndexExploit | ExIt/ExpertIteration.py:86-88 | np.argmax: None exactly for empty pi; otherwise a position holding the maximum with every earlier entry strictly smaller |
| ExpertIteration.ExploitExample | ExIt/ExpertIteration.py:86-88 | ties go to the first maximum: [0.2, 0.4, 0.4] gives 1 |
| ExpertIteration.GetActionIndexExplore | ExIt/ExpertIteration.py:90-94 | np.random.choice fails exactly as numpy checks, in order: empty actions, size mismatch, negative probability, sum not 1; a success is an action whose probability is positive |
| ExpertIteration.ChoiceFailure | ExIt/ExpertIteration.py:56-65 | the choice fails only before an action exists: no values when exploiting (np.argmax of an empty list), an empty or mismatched action list when exploring; it is never the illegal-action error |
| ExpertIteration.ChooseAction | ExIt/ExpertIteration.py:56-65 | softmax with bounds [-1, 1] on the search's values (the source clamps its list in place; nothing reads it afterwards), then exploit or explore; it fails exactly when ChoiceFailure names an error, with that error, and otherwise returns an action Chosen allows (the first arg-max position, or an action with positive probability) |
| ExpertIteration.Exploit | ExIt/ExpertIteration.py:58-59 | np.argmax of the probabilities: fails exactly when the search gave no values, and otherwise gives the first position of the maximum |
| ExpertIteration.Explore | ExIt/ExpertIteration.py:60-65 | np.random.choice over the action list: fails exactly on an empty action list or one whose length differs from the values; the negative-probability and sum checks never fail, because softmax gives a distribution; a success has positive probability |
| ExpertIteration.ExploitReplaysAgree | ExIt/ExpertIteration.py:25-31 | without randomness and with one fixed search (no retraining in between), two games that both replay agree on every step the shorter one has taken |
| ExpertIteration.ExploitPlaysOneGame | ExIt/ExpertIteration.py:25-31 | without randomness and with one fixed search (no retraining in between), self-play is deterministic: every game played to its end is the same sequence of samples |
| ExpertIteration.ChosenIsChoosable | ExIt/ExpertIteration.py:60-65 | an action a replayed step may take is one ex_it_state can choose: an exploring step needs as many values as actions, as np.random.choice demands |
| ExpertIteration.ExpertIteration.constructor | ExIt/ExpertIteration.py:15-19 | no games played and no samples yet |
| ExpertIteration.ExpertIteration.ExItState | ExIt/ExpertIteration.py:49-68 | when no action can be chosen it fails with ChoiceFailure's error and records nothing; otherwise the chosen action is recorded as a sample of the state and the search value before the state advances by it, and an illegal action fails with the sample still recorded |
| ExpertIteration.ExpertIteration.StartExIt | ExIt/ExpertIteration.py:21-39 | the data set gains exactly the samples of the games begun, in order; game i is searched with the i-th search, since the apprentice is retrained after every game. On success num_iteration games were played, each replaying from the initial state to a finished state, and games_played grew by num_iteration. On failure every game but the last finished, the last stopped where no action could be chosen or advance refused the chosen one, and games_played counts the finished games |
| ExpertIteration.ExpertIteration.PlayGame | ExIt/ExpertIteration.py:27-31 | the samples the game adds replay step by step from the initial state: to a finished state when no step fails, and otherwise up to the failing step, with the failure it reports |
| Evaluator.ZeroSum2v2Evaluation | ExIt/Evaluator.py:6-13 | a finished state scores within [-1, 1]; an unfinished one scores the prediction or its negation |
| Evaluator.EvaluationPerspective | ExIt/Evaluator.py:6-13 | a finished state scores the asking player's result (1 win, -1 loss, 0 draw); otherwise the prediction, negated exactly when the other player is to move |
| Evaluator.EvaluationIsZeroSum | ExIt/Evaluator.py:6-13 | two players with opposite results see opposite evaluations of the same state |
| Evaluator.GetRewardForAction | ExIt/Evaluator.py:16-24 | a reward exists exactly when the action is legal |
| Evaluator.RewardIsForTheMover | ExIt/Evaluator.py:16-24 | the reward is evaluated for the player who moved, not for the player to move next |
| ConnectFour.BoardValue | Games/ConnectFour.py:46 | a player's board value is non-zero and maps back to the player |
| ConnectFour.DiagonalOffsets | Games/ConnectFour.py:88-96 | check_diagonal visits 1 + (rows - 4) + (columns - 4) offsets |
| ConnectFour.ScanLines | Games/ConnectFour.py:77-106 | update_game_state scans 25 lines: 6 rows, 7 columns, 6 "\" and 6 "/" diagonals |
| ConnectFour.ScanLineIsRay | Games/ConnectFour.py:85-106 | every scanned line is a straight run of at least four board cells |
| ConnectFour.FirstFourFrom | Games/ConnectFour.py:59-75 | the first position from p where four equal non-zero values start, or None when there is none |
| ConnectFour.LineStep | Games/ConnectFour.py:59-75 | check_in_a_row on one line: a winner already set stays set, and the winner changes only when the line holds four equal non-zero values |
| ConnectFour.ScanPrefix | Games/ConnectFour.py:77-106 | the scan of the first n lines never clears a winner already set |
| ConnectFour.RayFourIsFourInARow | Games/ConnectFour.py:59-75 | four equal non-zero values on a straight line of board cells are four in a row on the board, owned by that value |
| ConnectFour.ScanPrefixSome | Games/ConnectFour.py:59-106 | the scan sets a winner exactly when some scanned line holds four in a row |
| ConnectFour.FourInARowIsOnRay | Games/ConnectFour.py:59-75 | a four in a row lying along a straight line of board cells shows on that line as four equal non-zero values |
| ConnectFour.FourInARowIsOnScannedLine | Games/ConnectFour.py:77-106 | every four in a row on the board, in any direction, lies on one of the scanned lines |
| ConnectFour.ScanWinnerIffFourInARow | Games/ConnectFour.py:56-106 | the scan finds a winner if and only if the board holds four in a row |
| ConnectFour.ScanFindsOnlyMover | Games/ConnectFour.py:46-106 | on a board with no four in a row, filling one cell with v lets the scan find only v's player |
| ConnectFour.OccupiedAfterFill | Games/ConnectFour.py:49-51 | filling an empty cell adds exactly one occupied cell |
| ConnectFour.DropRow | Games/ConnectFour.py:47-53 | the piece lands on an empty cell with only occupied cells below it |
| ConnectFour.Dropped | Games/ConnectFour.py:46-53 | the board keeps its size, and the only cell that changes is an empty cell of the chosen column, which now holds the mover's value |
| ConnectFour.DroppedOnTop | Games/ConnectFour.py:46-53 | a drop keeps gravity, lands on top of the column's stack, changes only that cell, and adds one piece |
| ConnectFour.AdvanceCheck | Games/ConnectFour.py:36-44 | advance accepts an action exactly when no winner is set, the action is given, it is in [0, 7) and its column's top cell is empty; errors come in the source's order |
| ConnectFour.OpenColumns | Games/ConnectFour.py:34 | exactly the columns whose top cell is empty, in increasing order |
| ConnectFour.LegalMoves | Games/ConnectFour.py:30-34 | no moves once a winner is set; otherwise exactly the columns whose top cell is empty |
| ConnectFour.LegalMovesAreAccepted | Games/ConnectFour.py:30-44 | the legal moves are exactly the actions advance accepts, in increasing order, and there are none once the game is over |
| ConnectFour.NextTurnOf | Games/ConnectFour.py:117-121 | from a player index in [0, 2) the turn passes to the other index in [0, 2) |
| ConnectFour.NextTurnAlternates | Games/ConnectFour.py:117-121 | the turn alternates between 0 and 1 |
| ConnectFour.Judged | Games/ConnectFour.py:56-112 | a winner found by the scan takes precedence over the draw test; otherwise the result is a draw (-1) exactly when the board is full, and it stays unset only while some cell is empty |
| ConnectFour.ConnectFour.constructor | Games/ConnectFour.py:13-21 | an empty board, player 0 to move, no winner |
| ConnectFour.ConnectFour.Copy | Games/ConnectFour.py:23-28 | a fresh game with its own board holding the same cells, winner and turn |
| ConnectFour.ConnectFour.GetLegalMoves | Games/ConnectFour.py:30-34 | an action is listed exactly when the game is not over and its column is open |
| ConnectFour.ConnectFour.NextTurn | Games/ConnectFour.py:117-121 | the turn passes to the other player |
| ConnectFour.ConnectFour.CheckInARow | Games/ConnectFour.py:59-75 | the counter loop sets the winner to the owner of the first four equal non-zero values on the line, and otherwise leaves it unchanged |
| ConnectFour.ConnectFour.UpdateGameState | Games/ConnectFour.py:56-112 | the winner becomes the scan's result over all 25 lines, followed by the draw test, and the turn passes |
| ConnectFour.ConnectFour.Advance | Games/ConnectFour.py:36-54 | a rejected action changes nothing. An accepted one drops the mover's piece on top of the column, adds one piece and passes the turn. The mover wins exactly when the board now holds four in a row, and no other player can win. The game is drawn (-1) exactly when the board is full with no four in a row |
| Matchmaking.GetIndexResult | Matchmaking/Matchmaking.py:24-29 | the result list is indexed by player index; each player's entry is the result of their seat (when two players claim one entry the later one wins), and an entry no player claims stays empty (`GameResult(None)`) |
| Matchmaking.PlaceResults | Matchmaking/Matchmaking.py:26-29 | the loop writes each player's seat result to the player's index slot, in list order: the last claim of a slot wins and unclaimed slots stay empty |
| Matchmaking.LastWriteWins | Matchmaking/Matchmaking.py:27-28 | a slot some player claims holds the seat result of the last player in the list who claims it |
| Matchmaking.LastWriteNone | Matchmaking/Matchmaking.py:26-28 | a slot no player claims keeps its empty entry |
| Matchmaking.TallyOf | Matchmaking/Matchmaking.py:120 | one game's result counts once, in exactly the matching column |
| Matchmaking.TotalCountsEveryGame | Matchmaking/Matchmaking.py:110-123 | each player's totals count every game of the comparison exactly once |
| Matchmaking.RotateOnce | Matchmaking/Matchmaking.py:127-130 | the list keeps its length |
| Matchmaking.RotatedWithinRound | Matchmaking/Matchmaking.py:127-130 | r rearrangements, up to one full round, move the first r players to the back |
| Matchmaking.RotatedRounds | Matchmaking/Matchmaking.py:127-130 | q full rounds plus r rearrangements equal r rearrangements |
| Matchmaking.RotatedByRemainder | Matchmaking/Matchmaking.py:127-130 | k rearrangements rotate the list by k mod n and keep every player |
| Matchmaking.FullRoundRestoresOrder | Matchmaking/Matchmaking.py:127-130 | n rearrangements of n players restore the original order |
| Matchmaking.SeatAt | Matchmaking/Matchmaking.py:45 | Python list indexing of the players by the turn: t itself for 0 <= t < n, t + n for -n <= t < 0 (a seat from the end), and no seat otherwise |
| Matchmaking.Playout | Matchmaking/Matchmaking.py:40-45 | a game played out ends over; the only failures are a turn outside [-n, n) (no seat, as Python's IndexError) and an illegal move |
| Matchmaking.SeatedIndexes | Matchmaking/Matchmaking.py:45 | one entry per seat: the player index of the player sitting there |
| Matchmaking.SeatOf | Matchmaking/Matchmaking.py:27-28 | the first seat where player index k sits, or the number of seats when k sits nowhere |
| Matchmaking.ComparisonFailureSticks | Matchmaking/Matchmaking.py:112-124 | once a comparison has failed, playing more games does not change its outcome |
| Matchmaking.ComparisonPlaysEveryGame | Matchmaking/Matchmaking.py:112-124 | a comparison that succeeds has played every game: game m is the match played with the seats rotated m times |
| Matchmaking.ComparisonSucceedsWhenEveryGameDoes | Matchmaking/Matchmaking.py:112-124 | a comparison whose games can all be played succeeds |
| Matchmaking.TournamentCountsEveryGame | Matchmaking/Matchmaking.py:88-95 | every comparison of a successful run counts num_matches games for every player |
| Matchmaking.GameHandler.constructor | Matchmaking/Matchmaking.py:35-38 | the handler keeps the game and the players; each distinct player's game index becomes their position; player indices and training are untouched |
| Matchmaking.GameHandler.StartGame | Matchmaking/Matchmaking.py:40-45 | the loop plays exactly the moves of Playout and ends with the game over, or fails with the same error |
| Matchmaking.GameHandler.GetGameIndexResult | Matchmaking/Matchmaking.py:47-52 | one result per player, in seat order, each the game's result for that player's game index |
| Matchmaking.Accumulate | Matchmaking/Matchmaking.py:122-123 | each player's totals gain exactly the tally of their result |
| Matchmaking.WrapAdvances | Matchmaking/Matchmaking.py:127-130 | moving the first of the indices numbered from one rotation to the back gives the indices numbered from the next rotation |
| Matchmaking.Matchmaking.constructor | Matchmaking/Matchmaking.py:58-65 | players are numbered by position, so distinct players get indices 0 .. n-1 |
| Matchmaking.NumberPlayers | Matchmaking/Matchmaking.py:63-65 | each player's index becomes its position (a player listed twice keeps the later one), so every index points back to its player; training counts are untouched |
| Matchmaking.Matchmaking.IndicesArePermutation | Matchmaking/Matchmaking.py:63-65 | the player indices stay a permutation of 0 .. n-1 under rotation |
| Matchmaking.Matchmaking.RearrangePlayers | Matchmaking/Matchmaking.py:127-130 | the first player moves to the last position, and the index invariant holds |
| Matchmaking.Matchmaking.SeatOfIsPositionOf | Matchmaking/Matchmaking.py:63-65 | under the index invariant, player index k sits first at its position PositionOf(k) |
| Matchmaking.Matchmaking.MatchResultsByPosition | Matchmaking/Matchmaking.py:10-21 | under the index invariant, the match succeeds exactly when the game can be played out, fails with its error otherwise, and gives player k the result of seat PositionOf(k) |
| Matchmaking.Matchmaking.Match | Matchmaking/Matchmaking.py:10-21 | a fresh game is played out as Playout specifies: the match fails exactly when Playout fails, with the same error, and otherwise player k's entry is the finished game's result for the seat player k occupies |
| Matchmaking.Matchmaking.PlayGame | Matchmaking/Matchmaking.py:13-16 | the handler seats every player at its position and plays the game out; it fails exactly when Playout does, and otherwise lists each seat's result in the finished game |
| Matchmaking.Matchmaking.Compare | Matchmaking/Matchmaking.py:107-125 | it succeeds exactly when every game of the comparison can be played (and there is a player to move to the back), and fails with the first failing game's error; on success each player's totals are the sums over the games Comparison lists, and the players are rotated num_matches times |
| Matchmaking.Matchmaking.CompareRound | Matchmaking/Matchmaking.py:112-124 | one game of the comparison: it fails exactly when the match fails, or when there is no player to move; otherwise `played` is the match's result list, each player's totals gain its tally, and the first player moves to the back |
| Matchmaking.Matchmaking.Train | Matchmaking/Matchmaking.py:97-105 | every ExIt player trains once more; other players are untouched |
| Matchmaking.Matchmaking.CompareExIt | Matchmaking/Matchmaking.py:86-95 | with N iterations it does what Tournament describes for N + 1 comparisons: it fails exactly when one of them fails, with that error, and otherwise the statistics, started afresh, hold every comparison's totals in order and nothing else, and every ExIt player trains N times |
| Matchmaking.Matchmaking.Iteration | Matchmaking/Matchmaking.py:89-95 | one pass of the loop: it fails only where the remaining comparisons fail, and otherwise saves one comparison's totals, leaves the rest of the tournament to play, and trains every ExIt player unless this is the last pass |
| Matchmaking.Matchmaking.CompareAndSave | Matchmaking/Matchmaking.py:90-91 | the comparison run is the first round of the remaining tournament: it fails with that round's error, or appends that round's totals to the statistics |
| Matchmaking.Played | Matchmaking/Matchmaking.py:120 | once every player index has a result, the list holds each player's result in player order |

## Left out

- The Elo helpers (`elo_test`, `elo_expected_result`, `new_elo`, Matchmaking/Matchmaking.py:134-162) are marked unfinished by the authors and are not called by the core.
- Players/Players.py, the players' move logic, is not part of this model. A move is a policy function `(player index, state) -> action`: the player sitting in the seat whose turn it is is asked for its move by its player index.
- The apprentice's network (ExIt/Apprentice) and the expert's search are not part of this model. They enter as functions from states to values and search results.
- `DataSet`, `extract_data`, `apprentice.train`, `Statistics`, `Timer` and every `print` are not part of this model. Samples are recorded as a sequence that only grows. The statistics are a sequence of totals that compare_ex_it starts afresh, as it builds a new `Statistics` (Matchmaking/Matchmaking.py:73-79).
- Games/GameLogic.py (the base game class) is not part of this model. The behaviour taken from it is listed above.
- Feature vectors (`get_feature_vector`, `bitboard`) and `display` only format data. They are left out.
- Floating-point rounding is not modelled: values are reals. numpy's tolerance when it tests that `p` sums to 1 is modelled as an exact test.
- Randomness is a nondeterministic choice. Uniformity of the draws is not modelled.
- `compare_ex_it` with `num_iteration = None` never ends, so only a finite iteration count is modelled.
- The `set_game` loop of `compare_ex_it` and the `num_train_epoch`/`search_time` arguments are left out. Training is counted as one run per `__train` call.
- Matchmaking.Matchmaking.Train: it counts one training run per ExIt player and does not model what `start_ex_it` learns.
- Termination of game loops rests on the measure `movesLeft` that every accepted action lowers (`GameLogic.Finite`). For Connect Four this is the number of empty cells.
- Matchmaking.GetIndexResult: requires every player index and game index to lie within the result list. Python's negative indexing of the result list is not modelled.
- ExpertIteration.SoftmaxFallback: requires lower < upper. With equal bounds, every value clamps to one point and the iff has a further case.
- ExpertIteration.ExpertIteration.ExItState: an exception from `advance` is a failure result. The sample recorded before it stays in the data set.
- Memory.MemoryList.Save: the first save stores the caller's lists themselves in Python, so later extensions alias them. The model stores values, so this aliasing is not captured.
- Memory.MemoryList.GetSize: requires a memory to exist. The source fails with a TypeError on `None`.
- Memory.MemoryList.GetBatch: requires a memory to exist, as GetSize does.
- Memory.MemoryList.GetBatch: requires the policy and value lists to be at least as long as the state list. On shorter lists the source raises IndexError (ExIt/Memory.py:38); Save keeps them aligned whenever it is given aligned arrays.
- Memory.MemorySet.Save: requires the policy and value lists to be at least as long as the state list. On shorter lists the source raises IndexError part-way, after some keys are already written (ExIt/Memory.py:56-57).
- Matchmaking.Matchmaking.Compare: requires the index invariant `Valid`, which the constructor sets up only for distinct players. A comparison with one player object listed twice is not modelled.
- Matchmaking.Matchmaking.CompareExIt: requires `Valid` as Compare does, so one player object listed twice is not modelled.
- Matchmaking.Matchmaking.Compare: the `randomness` flag that compare_ex_it, __compare and match pass on to every move (Matchmaking/Matchmaking.py:45, 90, 117) is not modelled, and neither are random players. A move is one fixed policy of the player index and the state, so games with the same seating repeat.
- Matchmaking.Matchmaking.CompareExIt: the `randomness` flag is dropped as in Compare, and the policy does not change with training, so the comparisons of one call differ only by seating.
- Matchmaking.Matchmaking.Train: requires `Valid` as Compare does, so one player object listed twice is not modelled.
- Matchmaking.Matchmaking.CompareExIt: that players who are not ExIt players keep their training count is stated by its frame, which lets it change only the ExIt players' counts.
- Matchmaking.RotateOnce: its contract gives only the length. What rotation does to the elements is stated by RotatedWithinRound, RotatedByRemainder and FullRoundRestoresOrder.
- The expert's search in one game is a function of the state. The time-limited search of the source may answer differently for the same state; this is not modelled.
- ExpertIteration.ExpertIteration.StartExIt: start_ex_it retrains the apprentice after every game (ExIt/ExpertIteration.py:38-39), which is not modelled; the games may differ only because game i is given its own search `experts(i)`, with no stated link between consecutive searches.
- ExpertIteration.ExploitPlaysOneGame: holds only for one fixed search and predictor. Because of the retraining between games, start_ex_it's games need not repeat even without randomness.
- The players' move policy does not change with training: the same policy is used in every comparison of `compare_ex_it`.
- The Connect Four board is an `array`, but the winner scan reads it through `board[..]`. The numpy reshape, transpose and rot90 views are modelled as index maps rather than new arrays.
