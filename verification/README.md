# Tic-tac-toe board rules and move bookkeeping

A Dafny model of the logic in a small web tic-tac-toe game. A human plays X in a
React component. By design, an "AI" opponent plays O through a `/api/move` route. As
written, the route's answer never reaches the board: the component reads a `square` field
from the reply, while the route sends `position`. The model covers three pieces:

- **Outcome detection** (`checkWinner`, module `Rules`). The 3×3 board is a row-major list of
  nine squares. The scan walks the eight lines in a fixed order: three rows, three columns,
  two diagonals. It reports the mark of the first line whose three squares hold the same
  mark. With no such line, it reports a draw when every square is filled and "no outcome"
  (`null` in the source, `InPlay` here) otherwise.
- **The game state machine** (`makeMove`, `resetGame`, class `Game.TicTacToe`). The state is
  the board, the player to move, and the `isGameOver` and `isWaiting` flags. A move on an
  occupied square is rejected and changes nothing, and so is any move while the game is
  over or a request to the opponent is pending. An accepted move writes the mover's mark
  into a copy of the board. Then either the game ends (win or draw) and the turn stays, or
  the turn passes to the other player. When the turn passes to O, the opponent is asked
  for a move. The class invariant `Valid()` states five facts. The board has nine
  squares. The player to move holds a mark, never `Empty`. The game is over exactly when
  the board has an outcome. X has one mark more than O when X moved last, and the same
  number when O did. The component waits for the opponent only on O's turn of a live game.
- **The opponent stub** (`findBestMove`, module `MoveRoute`). It returns the index of the
  first empty square, or -1 when there is none, following `Array.prototype.findIndex`. It
  ignores the requested strategy (`minimax`, `alphabeta`, `ids` or `mcts`).

Types (`types.ts`): `Cell` is `Empty | X | O`, where `Empty` stands for the source's `null`.
`Board` is `seq<Cell>`, and functions that index lines require nine squares. `AIType` is a
four-valued datatype.

## Model

| member | source | states |
|---|---|---|
| `Rules.ScanLines` | src/components/TicTacToe.tsx:53-70 | The scan from a given line on returns a mark exactly when some later line is complete. That mark belongs to the first complete line in scan order. Without a complete line, it returns a draw exactly when the board is full. |
| `Rules.CheckWinner` | src/components/TicTacToe.tsx:52-71 | A returned mark is never empty. It is the mark of the first complete line in the order rows, columns, diagonals. `Draw` is returned exactly when no line is complete and every square is filled. `InPlay` is returned exactly when no line is complete and some square is empty. |
| `Rules.FirstCompleteLineDecides` | src/components/TicTacToe.tsx:53-63 | When line k is complete and no earlier line is, the verdict is line k's mark, whatever later lines hold. |
| `Rules.EmptyBoardInPlay` | src/components/TicTacToe.tsx:66-70 | The empty board has no outcome. |
| `Game.CountAfterMark` | src/components/TicTacToe.tsx:77-78 | Writing a mark into an empty square adds one to that mark's count and leaves the other mark's count unchanged. |
| `Game.CountEmpty` | src/components/TicTacToe.tsx:97 | A board of empty squares holds no X and no O. |
| `Game.TicTacToe.constructor` | src/components/TicTacToe.tsx:10-14 | The initial state is an empty board with X to move and neither flag set, and it satisfies the game invariant. |
| `Game.TicTacToe.RequestAgentMove` | src/components/TicTacToe.tsx:25-26 | A request is made only on O's turn of a live game, as at line 89. It sets the waiting flag and logs the board sent. Board, turn and game-over flag are unchanged, and the game invariant is kept. |
| `Game.TicTacToe.SettleAgentRequest` | src/components/TicTacToe.tsx:46-48 | A finished request clears the waiting flag and changes nothing else. The game invariant is kept. |
| `Game.TicTacToe.MakeMove` | src/components/TicTacToe.tsx:74-94 | An occupied square, a finished game or a pending request leaves every field unchanged. Otherwise the new board equals the old one except at `square`, which holds the mover's mark. If the new board has an outcome, the game is over and the turn stays with the mover. Otherwise X hands the turn to O and a request for O's move is sent with the new board, or O hands the turn to X. The game invariant is kept. |
| `Game.TicTacToe.ResetGame` | src/components/TicTacToe.tsx:96-101 | After a reset the board is nine empty squares, X is to move, both flags are false and the game invariant holds. |
| `MoveRoute.FindIndex` | src/app/api/move/route.ts:6 | The result lies in [-1, length). A non-negative result is the index of the first element satisfying the predicate. The result is -1 exactly when no element satisfies it. |
| `MoveRoute.FindBestMove` | src/app/api/move/route.ts:4-7 | The result lies in [-1, length). A non-negative result is an empty square, and every square before it is occupied. The result is -1 exactly when the board is full. |
| `MoveRoute.FindBestMoveIgnoresAIType` | src/app/api/move/route.ts:4-6 | The same board gives the same square whatever strategy is requested. |
| `MoveRoute.FindBestMoveOnGameBoard` | src/app/api/move/route.ts:4-7 | On a board still in play, the answer is an empty square in 0..8, which the board component accepts. On a drawn board, the answer is -1. |

## Left out

- The minimax, alpha-beta, iterative-deepening and Monte Carlo searchers. The strategy
  selector names them, but no code for them exists. The route's `findBestMove` is the only
  move chooser, and it is modelled as written.
- The `Move` interface (`src/lib/ai/types.ts:5-8`). No modelled code uses it.
- React rendering: the card, the buttons, the strategy `Select` and the `aiAgents` labels.
  The `selectedAI` state exists only to be sent with a request. The request log records the
  board alone.
- React `useState` semantics. Setters are modelled as immediate field updates. Batched
  updates and the stale closures of `board`, `isWaiting` and `currentPlayer` that an
  asynchronous continuation captures are not modelled.
- The network part of `requestAgentMove` (`src/components/TicTacToe.tsx:27-45`): the
  `fetch`, the JSON decoding, the error log, and the call `makeMove(square)` on the reply.
  `RequestAgentMove` models the synchronous first step, which sets the waiting flag, plus a
  ghost log of the boards sent. `SettleAgentRequest` models the `finally` block. In the
  model, O's move reaches the board through an ordinary `MakeMove` call once the request
  has settled. The reply handler reads a field `square`, but the route answers with
  `position`. That mismatch is transport behaviour and is not modelled.
- `Game.TicTacToe.MakeMove`: requires `0 <= square < 9`. The buttons call it with the
  indices of the rendered squares (`src/components/TicTacToe.tsx:125`). The reply handler
  also calls it at line 41, with the reply's `square` field. The route answers with
  `position`, so that value is `undefined`. The call at line 41 is left out with the rest
  of the transport layer. JavaScript's behaviour for an out-of-range index (an `undefined`
  read, and a write that grows the array) is not modelled.
- The route's `POST` handler (`src/app/api/move/route.ts:9-23`): request parsing, the JSON
  response and the status-500 error path. Board entries other than `'X'`, `'O'` and `null`
  in a request are not modelled.
