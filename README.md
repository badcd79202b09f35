# Tic-tac-toe wagering platform: game engine, matchmaking and request validation

A Dafny model of the core of a real-money tic-tac-toe platform (a Next.js
application). Players stake a *base entry* times a *leverage* from their wallet,
wait in a Redis-backed matchmaking pool for that stake, and play on a nine-cell
board. The model covers four parts of the system:

- `src/lib/game-engine.ts`. Two views of the game.
  - The pure board functions: win and draw detection, move application and
    validation, empty cells, coordinates, and the exhaustive minimax search for
    the AI (modules `GameRules` and `Minimax`).
  - The mutable `GameEngine` class, with its in-place board array, player to
    move, history and outcome fields, and its simple heuristic AI
    (module `Engine`).
- `src/lib/redis.ts`. Both classes work on a map of the Redis keyspace they
  touch (module `Redis`).
  - `MatchmakingQueue`: LPUSH-onto-head pools keyed `queue:<stake>`, FIFO
    matching by two RPOPs, leaving, length and clearing.
  - `RateLimiter`: the sliding-window Lua script over a sorted set of
    timestamps.
- `src/app/api/queue/join/route.ts`. The `POST /api/queue/join` handler
  (module `QueueJoin`): its guards in order, the wallet hold with its
  `ENTRY_HOLD` transaction record, and the push onto the pool for the stake.
- `src/lib/validations.ts`. The zod schemas (module `Validations`). They are a
  `Schema` datatype interpreted by `Parse`, following zod's semantics:
  - a type mismatch aborts;
  - every refinement runs and issues accumulate in field order;
  - unknown keys are stripped;
  - `.default` fills an absent value;
  - `z.coerce.number()` applies `Number()`.

  The module also has a typed parser for each request schema that the
  modelled code uses.

Decimal rendering of integers is in module `Decimal`. It writes an integer the
way a JavaScript template literal does for integers of magnitude below 2^53,
which covers the stakes (10 to 5000) in `queue:${entryAmount}` and the hold
reference. `Option` and `Result` are in `Wrappers`.

Date.now(), Math.random(), the session lookup and the request body are
parameters. The library's email, cuid and url tests and `Number()` on text are
a `Formats` parameter.

## Model

| member | source | states |
|---|---|---|
| Decimal.ParseDigitsOfNatToString | src/lib/redis.ts:11-13 | the decimal text of a natural number reads back as that number |
| Decimal.SignOfText | src/lib/redis.ts:11-13 | the text of an integer is never empty and starts with '-' exactly when the integer is negative |
| Decimal.IntToStringInjective | src/app/api/queue/join/route.ts:78 | different integers render to different text |
| Decimal.IntToString | src/lib/redis.ts:11-13 | an integer's text is '-' followed by the digits of its magnitude when it is negative, and the digits alone otherwise |
| GameRules.IsWinningIffThreeInARow | src/lib/game-engine.ts:20-35 | the symbol has won exactly when one of the eight listed rows, columns or diagonals is entirely that symbol |
| GameRules.IsWinning | src/lib/game-engine.ts:20-35 | a symbol has won when some listed line has it in all three cells; a position past the end of the board matches no symbol |
| GameRules.IsDraw | src/lib/game-engine.ts:39-41 | a draw is a board with no '_' on which neither X nor O has won |
| GameRules.ApplyMove | src/lib/game-engine.ts:47-59 | an index outside 0..8 fails first, then an occupied cell; success exactly for a blank cell in range, and then only that cell changes, to the symbol |
| GameRules.WinSurvivesMove | src/lib/game-engine.ts:47-59 | a win already on the board is still there after any legal move |
| GameRules.NewWinBelongsToMover | src/lib/game-engine.ts:47-59 | a win that a move creates belongs to the mover and lies on one of the listed lines |
| GameRules.GetGameState | src/lib/game-engine.ts:64-76 | X's win takes precedence over O's; the winner is absent exactly when neither has won; the draw flag is the draw test; the game is over exactly when someone won or it is a draw |
| GameRules.GameStateConsistent | src/lib/game-engine.ts:40-42 | a draw has no winner, and a game with a winner is over |
| GameRules.AlternatingBoardsAreWon | src/test/game-engine.test.ts:40-43 | the boards 'XOXOXOXOX' and 'OXOXOXOXO', which the draw tests expect to be drawn, are won by X and by O on a diagonal, so they are not draws, and the game state of the first reports X as winner |
| GameRules.FullBoardWithoutLineIsDraw | src/lib/game-engine.ts:39-41 | the full board 'XOXXOOOXX', which has no line, is a draw: no winner, draw flag set, game over |
| GameRules.NextTurn | src/lib/game-engine.ts:81-83 | the next turn is always the other symbol |
| GameRules.NextTurnInvolution | src/lib/game-engine.ts:81-83 | two turn changes give back the same player |
| GameRules.IsValidMove | src/lib/game-engine.ts:88-112 | the checks fail in the source's order (turn, position, occupied, game over); the move is valid exactly when all four pass |
| GameRules.ValidMoveApplies | src/lib/game-engine.ts:88-112 | a valid move can be applied, gives the board with that one cell set, and was made on a board with no winner |
| GameRules.GameOverMeansWon | src/lib/game-engine.ts:106-109 | refusing a move on a blank in-range cell because the game is over means someone has already won, because a board with a blank cell is not drawn |
| GameRules.GetEmptyCells | src/lib/game-engine.ts:117-125 | the loop collects exactly the blank cells among 0..8, in ascending order |
| GameRules.EmptyCellsComplete | src/lib/game-engine.ts:117-125 | every blank cell with index 0..8 is listed |
| GameRules.EmptyCellsOrdered | src/lib/game-engine.ts:117-125 | the listed cells are strictly increasing |
| GameRules.PlacingRemovesOneBlank | src/lib/game-engine.ts:117-125 | filling a blank cell shortens the empty-cell list by exactly one |
| GameRules.NoEmptyCellsMeansFull | src/lib/game-engine.ts:117-125 | on a nine-cell board, an empty list means no blank remains |
| GameRules.UnfinishedGameHasMove | src/lib/game-engine.ts:40-42 | a nine-cell game that is not over has at least one empty cell |
| GameRules.IndexCoordsRoundTrip | src/lib/game-engine.ts:130-142 | for a non-negative index, converting to row and column and back gives the index; the column is 0..2, and the row is 0..2 for indices up to 8 |
| GameRules.CoordsIndexRoundTrip | src/lib/game-engine.ts:130-142 | for a non-negative row and a column in 0..2, converting to an index and back gives the same coordinates |
| GameRules.IndexToCoords | src/lib/game-engine.ts:129-134 | the row is the index divided by three and rounded down; the column is JavaScript's remainder, which takes the sign of the index |
| GameRules.CoordsToIndex | src/lib/game-engine.ts:139-141 | the index of a row and column is three times the row plus the column |
| GameRules.NegativeIndexDoesNotRoundTrip | src/lib/game-engine.ts:130-142 | with floor division and JavaScript's truncating remainder, index -1 maps to (-1, -1), which maps back to -4 |
| Minimax.Minimax | src/lib/game-engine.ts:147-173 | the recursive search with its two loops computes the minimax value of the board |
| Minimax.SearchChildren | src/lib/game-engine.ts:156-172 | the loop over empty cells folds the children's scores with max for O and min for X, starting from the infinite bound |
| Minimax.MinimaxBounds | src/lib/game-engine.ts:147-173 | on a nine-cell board, the score lies between depth-10 and 10-depth |
| Minimax.TerminalScores | src/lib/game-engine.ts:148-152 | an X win scores depth-10, an O win (with no X win) 10-depth, a draw 0 |
| Minimax.RootScoreBounds | src/lib/game-engine.ts:184-186 | every candidate move at the root scores between -10 and 10 |
| Minimax.GetBestMove | src/lib/game-engine.ts:178-194 | the answer is -1 or a blank cell; a chosen cell has the highest score of all blank cells and beats every earlier one strictly (the first maximum wins); -1 only when no blank cell scores above -Infinity |
| Minimax.NoMoveMeansFull | src/lib/game-engine.ts:178-194 | on a nine-cell board, -1 happens only when there is no empty cell |
| Engine.NextTurnOfPlayerAt | src/lib/game-engine.ts:227-229 | players alternate, X first |
| Engine.ReplayOccupied | src/lib/game-engine.ts:221-222 | a cell is occupied exactly when it appears in the move history |
| Engine.ReplayCount | src/lib/game-engine.ts:221-222 | the number of marks equals the length of a history without repeats |
| Engine.BlankIffEmpty | src/lib/game-engine.ts:265 | the board string shows '_' exactly where a cell is null |
| Engine.BoardString | src/lib/game-engine.ts:265 | the board string has one character per cell: the cell's mark, or '_' where the cell is empty |
| Engine.LineWinnerAgrees | src/lib/game-engine.ts:234-249 | the class's line check finds a winner exactly when the board string is won by X or O, and that winner is the one that has a line |
| Engine.DrawAgrees | src/lib/game-engine.ts:251-255 | the class's draw (no winner and no null cell) equals the draw test on the board string |
| Engine.NewLineIsMovers | src/lib/game-engine.ts:216-225 | on a board without a line, a move can only complete a line of the mover |
| Engine.MoveKeepsConsistent | src/lib/game-engine.ts:216-232 | a legal move keeps the state consistent: board equals the replayed history, winner, line and draw flag are as computed, and the player alternates until the game ends and then stays on the last mover |
| Engine.GameEngine.constructor | src/lib/game-engine.ts:207-214 | nine empty cells, X to move, empty history, no winner, no draw, no line |
| Engine.GameEngine.MakeMove | src/lib/game-engine.ts:216-232 | true exactly for a null cell in 0..8 of an unfinished game; false changes nothing; true marks the cell for the current player, appends the index to the history, and passes the turn only when the game goes on |
| Engine.GameEngine.CheckForWinner | src/lib/game-engine.ts:234-249 | the first complete line in list order sets winner and line; with no complete line nothing changes |
| Engine.GameEngine.CheckForDraw | src/lib/game-engine.ts:251-255 | the draw flag is set when there is no winner and no null cell, and is never cleared |
| Engine.GameEngine.GetState | src/lib/game-engine.ts:300-309 | nine cells; the move count equals the marks on the board; winner and line are present together; a draw has a full board and no winner; a winner is the player left to move |
| Engine.GameEngine.Reset | src/lib/game-engine.ts:320-327 | back to the initial state |
| Engine.GameEngine.GetBestMove | src/lib/game-engine.ts:257-298 | the method's scans compute the heuristic choice of AI move |
| Engine.FindWinningCell | src/lib/game-engine.ts:268-285 | the loop returns the first candidate at which the symbol would complete a line |
| Engine.FirstWinningCell | src/lib/game-engine.ts:268-285 | a found cell is a candidate that completes a line; none found means no candidate does |
| Engine.Corners | src/lib/game-engine.ts:291 | the corners kept are exactly the empty ones among 0, 2, 6, 8 |
| Engine.RandomIndex | src/lib/game-engine.ts:293 | Math.floor(random * n) is a valid index for random in [0, 1) |
| Engine.FallbackMove | src/lib/game-engine.ts:288-297 | the fallback is always one of the empty cells |
| Engine.AiMove | src/lib/game-engine.ts:257-298 | -1 when no cell is empty; otherwise the first empty cell (in index order) where O would win, else the first where X would win, else the centre, a random free corner or a random free cell |
| Engine.AiMoveListed | src/lib/game-engine.ts:257-262 | the AI answers -1 exactly when no cell is empty, and otherwise an empty cell |
| Engine.AiMoveIsEmptyCell | src/lib/game-engine.ts:257-298 | -1 exactly on a full board; otherwise a null cell in 0..8 |
| Engine.AiTakesWin | src/lib/game-engine.ts:267-275 | when O can complete a line, the AI plays a cell that completes one |
| Engine.AiBlocks | src/lib/game-engine.ts:277-285 | when O cannot win but X could complete a line, the AI plays a cell that blocks one |
| Engine.AiPrefersCentreThenCorner | src/lib/game-engine.ts:287-294 | with no win or block, the AI takes the centre when free, otherwise a corner when one is free |
| Redis.QueueKeyInjective | src/lib/redis.ts:11-13 | different stakes never share a pool key |
| Redis.QueueKey | src/lib/redis.ts:11-13 | the pool key is `queue:` followed by the stake's decimal text |
| Redis.FirstIndexOf | src/lib/redis.ts:46-53 | the position found holds the user and no earlier entry does; none found means no entry does |
| Redis.JoinAllIsReverse | src/lib/redis.ts:18-32 | joins in order leave the newest at the head and the earlier contents behind them |
| Redis.OldestTwoAtTail | src/lib/redis.ts:80-81 | after joins in order, the tail holds the first joiner, then the second, and popping both leaves what the later joiners alone would have made (first in, first out) |
| Redis.MatchmakingQueue.constructor | src/lib/redis.ts:4-7 | an empty keyspace |
| Redis.MatchmakingQueue.JoinQueue | src/lib/redis.ts:18-32 | the entry with user, stake, leverage and time is prepended to the stake's pool; no other pool changes |
| Redis.MatchmakingQueue.LeaveQueue | src/lib/redis.ts:37-60 | true exactly when the user has an entry; then the first such entry from the head, and only it, is removed; otherwise nothing changes |
| Redis.MatchmakingQueue.FindMatch | src/lib/redis.ts:65-99 | no match and no change when the pool has fewer than two entries; otherwise the two oldest entries (oldest first) are removed and returned |
| Redis.MatchmakingQueue.GetQueueLength | src/lib/redis.ts:104-107 | the length of the stake's pool |
| Redis.MatchmakingQueue.ClearQueue | src/lib/redis.ts:128-131 | the stake's pool is gone; the others are untouched |
| Redis.Prune | src/lib/redis.ts:157-158 | exactly the timestamps in [0, windowStart] are removed; order is preserved |
| Redis.PruneKeepsRecent | src/lib/redis.ts:157-158 | timestamps after the window start all survive |
| Redis.PruneCounts | src/lib/redis.ts:157-158 | every copy of a score in [0, windowStart] is removed and every copy of any other score is kept |
| Redis.PruneInsideWindow | src/lib/redis.ts:157-158 | when the set and the call lie inside one window, pruning removes nothing |
| Redis.Insert | src/lib/redis.ts:165 | the set gains the timestamp, once; it grows only if the timestamp was not already a member |
| Redis.Reply | src/lib/redis.ts:160-172 | admitted exactly when fewer than `limit` timestamps remain; then remaining is limit-count-1 (never negative) and the reset time is now+window; a refusal reports 0 remaining and resets when the oldest remaining timestamp leaves the window |
| Redis.RateLimitKey | src/lib/redis.ts:145 | the rate-limit key is `rate_limit:`, the action, `:` and the user id |
| Redis.RateLimitStep | src/lib/redis.ts:145-172 | the reply is computed on the pruned set; only an admitted call adds its timestamp, and the set then grows only if that timestamp was new |
| Redis.RateLimiter.CheckRateLimit | src/lib/redis.ts:139-187 | the reply and the new set are those of the script; other keys are untouched |
| Redis.SameMillisecondBurstOverAdmits | src/lib/redis.ts:165 | three calls in one millisecond under a limit of two are all admitted |
| Redis.InsertScore | src/lib/redis.ts:165 | with a distinct member per call, the set gains exactly one entry scored by the timestamp (as a multiset, the old entries plus that one) and stays sorted |
| Redis.DistinctRateLimitStep | src/lib/redis.ts:145-172 | with distinct members, the reply is the script's reply on the pruned set, the new set stays sorted, and as a multiset it is the pruned set plus one entry at the call's time when the call is admitted, and the pruned set alone otherwise |
| Redis.DistinctStepUnpruned | src/lib/redis.ts:157-167 | on a set the window start prunes nothing from, a call is admitted exactly when the set holds fewer than `limit` entries, and the new set is the old one with the call's entry inserted if admitted, else unchanged |
| Redis.DistinctStepInside | src/lib/redis.ts:157-167 | a call inside the window that the set lies in prunes nothing; it is admitted exactly when the set holds fewer than `limit` entries, and only an admission adds an entry |
| Redis.DistinctAdmitsWithinLimit | src/lib/redis.ts:139-187 | with distinct members, calls inside one window never bring the set beyond `limit` entries, counting those present at the start |
| Redis.DistinctLimitHoldsPerWindow | src/lib/redis.ts:139-187 | with distinct members and an empty start, at most `limit` of the calls inside one window are admitted |
| Redis.DistinctMemberRateLimiter.CheckRateLimit | src/lib/redis.ts:139-187 | the corrected limiter's reply and new set are those of the distinct-member script |
| Validations.NumIssues | src/lib/validations.ts:24 | a number check list reports no issue exactly when every check holds |
| Validations.StrIssues | src/lib/validations.ts:5-14 | a string check list reports no issue exactly when every check holds |
| Validations.FieldsIssues | src/lib/validations.ts:23-26 | an object reports no issue exactly when every declared field parses cleanly |
| Validations.ObjectAccepts | src/lib/validations.ts:23-26 | an object schema accepts exactly the objects whose declared fields all parse |
| Validations.ObjectOutput | src/lib/validations.ts:23-26 | the output object keeps only declared keys, each holding its field's parsed value (unknown keys are stripped) |
| Validations.FieldsOutputKeys | src/lib/validations.ts:23-26 | every output key is a declared key |
| Validations.BaseEntryAccepts | src/lib/validations.ts:24 | baseEntry passes exactly when it is an integer in 10..1000, and is then returned unchanged |
| Validations.LeverageAccepts | src/lib/validations.ts:25 | leverage passes exactly when it is an integer in 1..5 |
| Validations.MoveIndexAccepts | src/lib/validations.ts:29 | the move index passes exactly when it is an integer in 0..8 |
| Validations.DepositAmountAccepts | src/lib/validations.ts:38 | a deposit passes exactly when it is an integer in 10..10000 |
| Validations.WithdrawAmountAccepts | src/lib/validations.ts:42 | a withdrawal passes exactly when it is an integer of at least 1 |
| Validations.ParseJoinQueue | src/lib/validations.ts:23-26 | success exactly for an object with an integer baseEntry in 10..1000 and an integer leverage in 1..5; a failure carries the schema's non-empty issue list |
| Validations.FinalEntryBounds | src/app/api/queue/join/route.ts:22 | an accepted stake, base entry times leverage, lies in 10..5000 |
| Validations.ParseMove | src/lib/validations.ts:28-30 | success exactly for an integer index0to8 in 0..8 |
| Validations.ParseSocketMove | src/lib/validations.ts:122-125 | success exactly for a cuid matchId and an integer index0to8 in 0..8 |
| Validations.ParseDeposit | src/lib/validations.ts:37-39 | success exactly for an integer amount in 10..10000 |
| Validations.ParseWithdraw | src/lib/validations.ts:41-43 | success exactly for an integer amount of at least 1 |
| Validations.UsernameAccepts | src/lib/validations.ts:6-10 | a username passes exactly when it has 3 to 20 characters, all letters, digits, '.', '_' or '-' |
| Validations.PasswordAccepts | src/lib/validations.ts:11-14 | a password passes exactly when it has 6 to 100 characters |
| Validations.ParseRegister | src/lib/validations.ts:4-15 | success exactly for a valid email, a valid username and a valid password |
| Validations.MatchStateShape | src/lib/validations.ts:90-119 | an accepted match state has a nine-character board, a listed status and turn, and a reason that is absent or listed |
| Validations.EnvKeysDistinct | src/lib/validations.ts:58-68 | the environment schema declares each key once |
| Validations.EnvDrawRefund | src/lib/validations.ts:64 | DRAW_REFUND comes out as 'full' or 'none', and 'full' when unset |
| Validations.EnvTurnMs | src/lib/validations.ts:65 | TURN_MS comes out as a positive number, and 20000 when unset |
| Validations.EnvRestrictedStates | src/lib/validations.ts:66 | RESTRICTED_STATES comes out as text, and '' when unset |
| Validations.EnvNodeEnv | src/lib/validations.ts:67 | NODE_ENV comes out as one of the three listed values, and 'development' when unset |
| Validations.EnvDefaultsPass | src/lib/validations.ts:64-67 | the four defaults pass their own schemas |
| Validations.UndefinedOnlyFromUndefined | src/lib/validations.ts:49 | a clean parse yields undefined only from undefined input |
| Validations.ParseIdempotent | src/lib/validations.ts:146-152 | for a well-formed schema, parsing an accepted value's output again accepts it and returns it unchanged |
| Validations.ValidateSchema | src/lib/validations.ts:146-152 | success exactly when the schema accepts the value; a failure carries a non-empty issue list; a success's value parses to itself again under a well-formed schema |
| Validations.Parse | src/lib/validations.ts:4-129 | zod's parse of a value under a schema: a type mismatch gives one invalid-type issue and stops; number and string refinements all run; an absent optional field is undefined; a default replaces an absent value; coercion applies `Number()`; arrays and objects parse element by element and field by field, with the element's index or the field's key added to the issue path |
| Validations.GameSchemasWellFormed | src/lib/validations.ts:23-30 | the join-queue, move and socket-move schemas declare each key once |
| Validations.AccountSchemasWellFormed | src/lib/validations.ts:4-43 | the deposit, withdraw and register schemas declare each key once |
| Validations.EnvSchemaWellFormed | src/lib/validations.ts:58-68 | the environment schema is well formed |
| QueueJoin.StatusCode | src/app/api/queue/join/route.ts:12-102 | a missing session answers 401, a missing or banned user 403, and every other rejection 400 (the parse failures through the handler's catch) |
| QueueJoin.FixedMessage | src/app/api/queue/join/route.ts:12-58 | the error texts of the four guard rejections; the two parse failures carry the parser's own message instead |
| QueueJoin.Admission | src/app/api/queue/join/route.ts:10-59 | the guards fail in the handler's order, each rejection exactly when the guards before it pass and its own fails: no session, or an empty user id, is 401; a body that does not parse and a schema failure are 400; a missing or banned user is 403; a missing wallet or a balance below the stake is insufficient balance; a WAITING or ACTIVE match with the user in it is an active match. The request is admitted exactly when all pass, with the stake equal to base times leverage, in 10..5000 and covered by the balance |
| QueueJoin.Hold | src/app/api/queue/join/route.ts:63-69 | the stake moves from balance to locked; their sum is conserved |
| QueueJoin.HoldRecord | src/app/api/queue/join/route.ts:71-80 | an ENTRY_HOLD record with status SUCCESS for the user's wallet, with the negated stake |
| QueueJoin.HoldReference | src/app/api/queue/join/route.ts:78 | the hold's reference is `Queue entry hold - `, the base entry, ` x ` and the leverage, each in decimal |
| QueueJoin.HoldConservesFunds | src/app/api/queue/join/route.ts:62-81 | a hold keeps the total funds over all wallets |
| QueueJoin.Store.constructor | src/app/api/queue/join/route.ts:25-28 | the given users, wallets and matches, no transactions and empty pools |
| QueueJoin.Store.Post | src/app/api/queue/join/route.ts:8-110 | a rejection responds with its status and changes nothing; an admission holds the stake on that user's wallet only, appends one hold record, prepends the user's entry to the stake's pool (no other pool changes) and responds with the stake, leverage and message |
| QueueJoin.AdmittedJoinKeepsWallets | src/app/api/queue/join/route.ts:37-69 | an admitted join never leaves the balance negative, keeps the user's balance plus locked, leaves other wallets alone and conserves total funds |

## Left out

- `GameEngine.setState` (game-engine.ts:311-318) copies an arbitrary object into the fields without any check. It would break every invariant the class keeps, so it is not modelled.
- `GameEngine.getState` returns the board array itself in the source, so a caller can alias it. The model returns a copy of the cells.
- `MatchmakingQueue.getAllQueues` is not modelled. It scans keys with KEYS and a glob pattern, and pattern matching over all keys is outside the model.
- The `SessionManager` class of redis.ts is not modelled, and neither is the EXPIRE on rate-limit keys. Time-to-live needs a clock inside Redis.
- JSON.stringify and JSON.parse of queue payloads are modelled as storing the entry value itself. The catch branches for entries that fail to parse in leaveQueue and findMatch cannot be reached in the model.
- Network errors, database exceptions and the catch-all 500 response of the handler are not modelled. Neither is a failure between the committed hold and the enqueue.
- Concurrency is not modelled: each method is one atomic step. Concurrent joins can interleave between the active-match check and the hold, and the model does not capture that.
- A user can join the same pool twice and be matched against themselves. The source has no guard against this, and the model keeps that behaviour.
- Email, cuid and url recognition, and `Number()` on text, are left to the `Formats` parameter. The library's regular expressions are not modelled.
- `Number()` of an array or an object, NaN, the infinities and invalid dates have no value in the model.
- String lengths count Dafny characters, not UTF-16 code units.
- Outside the validation schemas, which read numbers as exact reals, numbers are unbounded integers: board positions, timestamps, rate-limit scores, stakes and balances. Fractional values there (such as the position 1.5, for which `board[1.5]` is undefined in the source) are not modelled, and nowhere is double precision or its rounding modelled.
- zod's default message texts and the wording of `Validation failed: ...` are not modelled. Issues keep their code, path and any custom message.
- Validations.MatchStateShape: states one direction only, and only for board, status, turn and reason. The other fields of the match-state schema are left to `Parse`.
- The well-formedness of the match-state, profile and other response schemas is not proved. Parse still models them, but ParseIdempotent is not instantiated for them.
- The login, match-id, ban, refund, API-response, profile and socket join-room schemas are constants interpreted by `Parse` and `ValidateSchema`. They have no typed parser of their own.
- Minimax.GetBestMove: -Infinity and +Infinity are the integers -1000 and 1000. No real score comes near them.
- The zod messages for the username and password maxima read "less than 20" and "less than 100". The checks themselves are inclusive (.max), so the model follows the checks: 20 and 100 are accepted.

## Findings

| source | as written | input that shows it | evidently intended | confidence | as-written member | corrected member |
|---|---|---|---|---|---|---|
| src/lib/redis.ts:165 | `ZADD key now now` uses the timestamp as both score and member, so a second call in the same millisecond overwrites the first member. It is admitted, but the set does not grow. | limit 2 and a window of 60000 ms, with three calls at time 1000: all three are admitted | at most `limit` calls admitted per window, each one recorded | high (not executed) | Redis.SameMillisecondBurstOverAdmits | Redis.DistinctLimitHoldsPerWindow |
| src/test/game-engine.test.ts:41-42 | The draw tests expect `isDraw` to hold for 'XOXOXOXOX' and 'OXOXOXOXO', and lines 89-94 expect `getGameState('XOXOXOXOX', 'X')` to have no winner and to be a draw. Both boards hold a diagonal of one symbol, so `isDraw` is false and the winner is X. | 'XOXOXOXOX': X holds 0, 4 and 8 | a full board with no line, such as 'XOXXOOOXX', as the draw example; the code itself is right | high (not executed) | GameRules.AlternatingBoardsAreWon | GameRules.FullBoardWithoutLineIsDraw |

The corrected script gives each call a member of its own, scored by its
timestamp (`Redis.DistinctRateLimitStep`, `Redis.DistinctMemberRateLimiter`).
Everything else in the script, including the reply, is unchanged.

In the second row the code is right and the tests are wrong, so the model keeps
`isDraw` and `getGameState` as written. The corrected half proves the draw
behaviour on a board that really is drawn.
