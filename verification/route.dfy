/** The move route's stand-in for the opponent: it picks the first empty square,
    whatever strategy was asked for. */
module MoveRoute {
  import opened Types
  import opened Rules

  /** `findIndex` on a list: the index of the first element satisfying `p`, or -1 if none does. */
  function FindIndex<T>(s: seq<T>, p: T -> bool): (r: int)
    ensures -1 <= r < |s|
    ensures 0 <= r ==> p(s[r]) && forall j :: 0 <= j < r ==> !p(s[j])
    ensures r == -1 <==> forall j :: 0 <= j < |s| ==> !p(s[j])
  {
    if s == [] then -1
    else if p(s[0]) then 0
    else
      var t := FindIndex(s[1..], p);
      if t == -1 then -1 else t + 1
  }

  /** The square the opponent plays: the first empty one, or -1 on a full board. */
  function FindBestMove(board: Board, aiType: AIType): (r: int)
    ensures -1 <= r < |board|
    ensures 0 <= r ==> board[r] == Empty && forall j :: 0 <= j < r ==> board[j] != Empty
    ensures r == -1 <==> Full(board)
  {
    FindIndex(board, cell => cell == Empty)
  }

  /** The chosen square depends on the board alone, not on the requested strategy. */
  lemma FindBestMoveIgnoresAIType(board: Board, a: AIType, a': AIType)
    ensures FindBestMove(board, a) == FindBestMove(board, a')
  {
  }

  /** While the game is in play the route always answers with a square the board
      component accepts; on a drawn board it answers -1. */
  lemma FindBestMoveOnGameBoard(board: Board, a: AIType)
    requires |board| == 9
    ensures CheckWinner(board) == InPlay ==> 0 <= FindBestMove(board, a) < 9 && board[FindBestMove(board, a)] == Empty
    ensures CheckWinner(board) == Draw ==> FindBestMove(board, a) == -1
  {
  }
}
