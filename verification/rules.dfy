/** Outcome detection: the win/draw scan the board component runs after every move. */
module Rules {
  import opened Types

  /** The eight lines, in the order they are scanned: rows, then columns, then diagonals. */
  const Lines: seq<(nat, nat, nat)> := [
    (0, 1, 2), (3, 4, 5), (6, 7, 8),
    (0, 3, 6), (1, 4, 7), (2, 5, 8),
    (0, 4, 8), (2, 4, 6)
  ]

  /** What the scan reports: the mark of a completed line, a draw, or `InPlay` (the source's `null`). */
  datatype Verdict = Won(mark: Cell) | Draw | InPlay

  /** Line `k` holds three equal marks. */
  predicate LineComplete(b: Board, k: nat)
    requires |b| == 9 && k < |Lines|
  {
    var (p, q, r) := Lines[k];
    b[p] != Empty && b[p] == b[q] && b[p] == b[r]
  }

  /** The mark in the first square of line `k`. */
  function LineMark(b: Board, k: nat): Cell
    requires |b| == 9 && k < |Lines|
  {
    b[Lines[k].0]
  }

  /** Line `k` is complete and no line scanned before it (from `from` on) is. */
  predicate FirstComplete(b: Board, from: nat, k: nat)
    requires |b| == 9 && from <= k < |Lines|
  {
    LineComplete(b, k) && forall j :: from <= j < k ==> !LineComplete(b, j)
  }

  /** No line at all is complete. */
  predicate NoLineComplete(b: Board)
    requires |b| == 9
  {
    forall k :: 0 <= k < |Lines| ==> !LineComplete(b, k)
  }

  /** Every square holds a mark. */
  predicate Full(b: Board) {
    forall i :: 0 <= i < |b| ==> b[i] != Empty
  }

  /** The scan over the lines from index `from` on, returning at the first complete one;
      past the last line it falls back to the full-board test. */
  function ScanLines(b: Board, from: nat): (v: Verdict)
    requires |b| == 9 && from <= |Lines|
    ensures v.Won? <==> exists k :: from <= k < |Lines| && LineComplete(b, k)
    ensures v.Won? ==> exists k :: from <= k < |Lines| && FirstComplete(b, from, k) && v.mark == LineMark(b, k)
    ensures !v.Won? ==> (v == Draw <==> Full(b))
    decreases |Lines| - from
  {
    if from == |Lines| then
      if Full(b) then Draw else InPlay
    else if LineComplete(b, from) then
      assert FirstComplete(b, from, from);
      Won(LineMark(b, from))
    else
      var v := ScanLines(b, from + 1);
      assert v.Won? ==> exists k :: from <= k < |Lines| && FirstComplete(b, from, k) && v.mark == LineMark(b, k);
      v
  }

  /** The outcome of a board: the mark of the first complete line, a draw when no line is
      complete and the board is full, and `InPlay` otherwise. */
  function CheckWinner(b: Board): (v: Verdict)
    requires |b| == 9
    ensures v.Won? ==> v.mark != Empty
    ensures v.Won? ==> exists k :: 0 <= k < |Lines| && FirstComplete(b, 0, k) && v.mark == LineMark(b, k)
    ensures v == Draw <==> NoLineComplete(b) && Full(b)
    ensures v == InPlay <==> NoLineComplete(b) && !Full(b)
  {
    ScanLines(b, 0)
  }

  /** Conversely, the first complete line in scan order decides the verdict, whatever
      later lines hold. */
  lemma FirstCompleteLineDecides(b: Board, k: nat)
    requires |b| == 9 && k < |Lines| && FirstComplete(b, 0, k)
    ensures CheckWinner(b) == Won(LineMark(b, k))
  {
  }

  /** A new game's board has no outcome yet. */
  lemma EmptyBoardInPlay()
    ensures CheckWinner(EmptyBoard) == InPlay
  {
  }
}
