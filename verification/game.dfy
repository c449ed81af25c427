/** The board component's game state and the two operations that change it. */
module Game {
  import opened Types
  import opened Rules

  /** How many squares of `b` hold `c`. */
  function Count(b: seq<Cell>, c: Cell): (n: nat)
    ensures n <= |b|
  {
    if b == [] then 0 else (if b[0] == c then 1 else 0) + Count(b[1..], c)
  }

  /** Writing mark `m` into empty square `i` adds one `m` and leaves the count of every
      other value except `Empty` as it was. */
  lemma {:induction false} CountAfterMark(b: seq<Cell>, i: nat, m: Cell, c: Cell)
    requires i < |b| && b[i] == Empty && m != Empty && c != Empty
    ensures Count(b[i := m], c) == Count(b, c) + (if c == m then 1 else 0)
  {
    if i == 0 {
      assert b[i := m][1..] == b[1..];
    } else {
      CountAfterMark(b[1..], i - 1, m, c);
      assert b[i := m][1..] == b[1..][i - 1 := m];
    }
  }

  /** A new game's board holds no marks. */
  lemma {:induction false} CountEmpty(n: nat, c: Cell)
    requires c != Empty
    ensures Count(seq(n, _ => Empty), c) == 0
  {
    if n > 0 {
      assert seq(n, _ => Empty)[1..] == seq(n - 1, _ => Empty);
      CountEmpty(n - 1, c);
    }
  }

  /** The game as the component holds it: the board, whose turn it is, and the two flags
      that block moves. `agentRequests` logs every board sent to the opponent. */
  class TicTacToe {
    var board: Board
    var currentPlayer: Cell
    var isGameOver: bool
    var isWaiting: bool
    ghost var agentRequests: seq<Board>

    /** The game invariant: a nine-square board, a mark to play, the game is over exactly
        when the board has an outcome, X is one mark ahead of O when X moved last and level
        with O when O did, and the opponent is only awaited on O's turn of a live game. */
    ghost predicate Valid()
      reads this
    {
      && |board| == 9
      && currentPlayer != Empty
      && (isGameOver <==> CheckWinner(board) != InPlay)
      && Count(board, X) - Count(board, O) == (if (currentPlayer == O) != isGameOver then 1 else 0)
      && (isWaiting ==> currentPlayer == O && !isGameOver)
    }

    /** The initial state: an empty board, X to move, nothing blocking. */
    constructor ()
      ensures Valid()
      ensures board == EmptyBoard && currentPlayer == X && !isGameOver && !isWaiting
      ensures agentRequests == []
    {
      board := EmptyBoard;
      currentPlayer := X;
      isGameOver := false;
      isWaiting := false;
      agentRequests := [];
      EmptyBoardInPlay();
      CountEmpty(9, X);
      CountEmpty(9, O);
    }

    /** The synchronous start of a request for the opponent's move, made only once the turn
        has passed to O in a live game: the component marks itself as waiting and sends
        `currentBoard`. */
    method RequestAgentMove(currentBoard: Board)
      requires Valid() && currentPlayer == O && !isGameOver
      modifies this
      ensures Valid()
      ensures isWaiting && agentRequests == old(agentRequests) + [currentBoard]
      ensures board == old(board) && currentPlayer == old(currentPlayer) && isGameOver == old(isGameOver)
    {
      isWaiting := true;
      agentRequests := agentRequests + [currentBoard];
    }

    /** The end of a request, however it went: the component stops waiting. */
    method SettleAgentRequest()
      requires Valid()
      modifies this
      ensures Valid()
      ensures !isWaiting
      ensures board == old(board) && currentPlayer == old(currentPlayer) && isGameOver == old(isGameOver)
      ensures agentRequests == old(agentRequests)
    {
      isWaiting := false;
    }

    /** Plays `square` for the current player. An occupied square, a finished game or a
        pending request rejects the move and changes nothing. Otherwise the square gets
        the current player's mark; if the board then has an outcome the game is over and
        the turn stays, else the turn passes to the other player, and when that is O the
        opponent is asked for its move on the new board. */
    method MakeMove(square: nat)
      requires Valid() && square < |board|
      modifies this
      ensures Valid()
      ensures old(board[square] != Empty || isGameOver || isWaiting) ==>
        board == old(board) && currentPlayer == old(currentPlayer) && isGameOver == old(isGameOver)
        && isWaiting == old(isWaiting) && agentRequests == old(agentRequests)
      ensures old(board[square] == Empty && !isGameOver && !isWaiting) ==>
        && board == old(board)[square := old(currentPlayer)]
        && (CheckWinner(board) != InPlay ==>
              isGameOver && currentPlayer == old(currentPlayer) && !isWaiting
              && agentRequests == old(agentRequests))
        && (CheckWinner(board) == InPlay && old(currentPlayer) == X ==>
              !isGameOver && currentPlayer == O && isWaiting
              && agentRequests == old(agentRequests) + [board])
        && (CheckWinner(board) == InPlay && old(currentPlayer) == O ==>
              !isGameOver && currentPlayer == X && !isWaiting
              && agentRequests == old(agentRequests))
    {
      if board[square] != Empty || isGameOver || isWaiting {
        return;
      }
      var newBoard := board[square := currentPlayer];
      CountAfterMark(board, square, currentPlayer, X);
      CountAfterMark(board, square, currentPlayer, O);
      board := newBoard;

      var winner := CheckWinner(newBoard);
      if winner != InPlay {
        isGameOver := true;
        return;
      }

      if currentPlayer == X {
        currentPlayer := O;
        RequestAgentMove(newBoard);
      } else {
        currentPlayer := X;
      }
    }

    /** Starts a new game: an empty board, X to move, neither flag set. */
    method ResetGame()
      modifies this
      ensures Valid()
      ensures board == EmptyBoard && currentPlayer == X && !isGameOver && !isWaiting
      ensures agentRequests == old(agentRequests)
    {
      board := EmptyBoard;
      currentPlayer := X;
      isGameOver := false;
      isWaiting := false;
      EmptyBoardInPlay();
      CountEmpty(9, X);
      CountEmpty(9, O);
    }
  }
}
