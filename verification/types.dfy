/** The value types shared by the board component and the move route. */
module Types {

  /** One square of the board: a mark, or `Empty` for the source's `null`. */
  datatype Cell = Empty | X | O

  /** A board is the row-major list of its squares; the game always uses nine. */
  type Board = seq<Cell>

  /** The search strategies the opponent can be asked to use. */
  datatype AIType = Minimax | AlphaBeta | Ids | Mcts

  /** The board a new game starts from: nine empty squares. */
  const EmptyBoard: Board := seq(9, _ => Empty)
}
