/**
 * The exhaustive game-tree search of src/lib/game-engine.ts: `minimax`
 * scores a board for O (the maximizing side), and `getBestMove` picks the
 * first blank cell, in ascending order, whose score is the largest.
 * The source starts each search at -Infinity or +Infinity; here these are
 * integers beyond every real score.
 */
module Minimax {
  import opened Wrappers
  import opened GameRules

  const NegInfinity: int := -1000
  const PosInfinity: int := 1000

  function Max(a: int, b: int): int { if a >= b then a else b }
  function Min(a: int, b: int): int { if a <= b then a else b }

  /** The mark placed by the side to move. */
  function Mover(maximizing: bool): Symbol { if maximizing then 'O' else 'X' }

  /** The value `minimax(board, depth, isMaximizing)` returns. */
  function MinimaxValue(b: Board, depth: int, maximizing: bool): int
    decreases EmptyCount(b), 1
  {
    var st := GetGameState(b, if maximizing then 'O' else 'X');
    if st.winner == Some('O') then 10 - depth
    else if st.winner == Some('X') then depth - 10
    else if st.isDraw then 0
    else BestOfChildren(b, EmptyCells(b), depth, maximizing, if maximizing then NegInfinity else PosInfinity)
  }

  /** The running best over the children reached by playing each of `cells` in turn. */
  function BestOfChildren(b: Board, cells: seq<int>, depth: int, maximizing: bool, best: int): int
    requires forall k | 0 <= k < |cells| :: IsBlankCell(b, cells[k])
    decreases EmptyCount(b), 0, |cells|
  {
    if cells == [] then best
    else
      assert IsBlankCell(b, cells[0]);
      var child := ApplyMove(b, cells[0], Mover(maximizing)).value;
      PlacingRemovesOneBlank(b, cells[0], Mover(maximizing));
      var score := MinimaxValue(child, depth + 1, !maximizing);
      BestOfChildren(b, cells[1..], depth, maximizing, Combine(maximizing, score, best))
  }

  /** The score getBestMove computes for playing O at `cell`. */
  function RootScore(b: Board, cell: int): int
    requires IsBlankCell(b, cell)
  {
    MinimaxValue(ApplyMove(b, cell, 'O').value, 0, false)
  }

  /** Folding one more child score into the running best, as the search loop does. */
  function Combine(maximizing: bool, score: int, best: int): int {
    if maximizing then Max(score, best) else Min(score, best)
  }

  method Minimax(b: Board, depth: int, maximizing: bool) returns (score: int)
    ensures score == MinimaxValue(b, depth, maximizing)
    decreases EmptyCount(b), 1
  {
    var st := GetGameState(b, if maximizing then 'O' else 'X');
    if st.winner == Some('O') {
      return 10 - depth;
    }
    if st.winner == Some('X') {
      return depth - 10;
    }
    if st.isDraw {
      return 0;
    }
    var cells := GetEmptyCells(b);
    score := SearchChildren(b, cells, depth, maximizing);
  }

  /** The loop of `minimax` over the blank cells of a board still in play. */
  method SearchChildren(b: Board, cells: seq<int>, depth: int, maximizing: bool) returns (best: int)
    requires forall k | 0 <= k < |cells| :: IsBlankCell(b, cells[k])
    ensures best == BestOfChildren(b, cells, depth, maximizing, if maximizing then NegInfinity else PosInfinity)
    decreases EmptyCount(b), 0
  {
    best := if maximizing then NegInfinity else PosInfinity;
    ghost var init := best;
    var k := 0;
    while k < |cells|
      invariant 0 <= k <= |cells|
      invariant BestOfChildren(b, cells[k..], depth, maximizing, best) == BestOfChildren(b, cells, depth, maximizing, init)
    {
      assert cells[k..][1..] == cells[k + 1..];
      var child := ApplyMove(b, cells[k], Mover(maximizing)).value;
      PlacingRemovesOneBlank(b, cells[k], Mover(maximizing));
      var s := Minimax(child, depth + 1, !maximizing);
      best := Combine(maximizing, s, best);
      k := k + 1;
    }
  }

  /**
   * On a nine-cell board searched from depth `depth` with few enough blanks,
   * every score lies between depth - 10 and 10 - depth, so never at a sentinel.
   */
  lemma {:induction false} MinimaxBounds(b: Board, depth: int, maximizing: bool)
    requires |b| == 9 && 0 <= depth && depth + EmptyCount(b) <= 10
    ensures depth - 10 <= MinimaxValue(b, depth, maximizing) <= 10 - depth
    decreases EmptyCount(b), 1
  {
    if !IsWinning(b, 'X') && !IsWinning(b, 'O') && !IsDraw(b) {
      UnfinishedGameHasMove(b, 'X');
      var init := if maximizing then NegInfinity else PosInfinity;
      assert MinimaxValue(b, depth, maximizing) == BestOfChildren(b, EmptyCells(b), depth, maximizing, init);
      ChildrenBounds(b, EmptyCells(b), depth, maximizing, init);
    }
  }

  lemma {:induction false} ChildrenBounds(b: Board, cells: seq<int>, depth: int, maximizing: bool, best: int)
    requires |b| == 9 && 0 <= depth && depth + EmptyCount(b) <= 10
    requires forall k | 0 <= k < |cells| :: IsBlankCell(b, cells[k])
    requires cells == [] ==> depth - 10 <= best <= 10 - depth
    requires maximizing ==> best <= 10 - depth
    requires !maximizing ==> best >= depth - 10
    ensures depth - 10 <= BestOfChildren(b, cells, depth, maximizing, best) <= 10 - depth
    decreases EmptyCount(b), 0, |cells|
  {
    if cells != [] {
      var child := ApplyMove(b, cells[0], Mover(maximizing)).value;
      PlacingRemovesOneBlank(b, cells[0], Mover(maximizing));
      MinimaxBounds(child, depth + 1, !maximizing);
      var score := MinimaxValue(child, depth + 1, !maximizing);
      ChildrenBounds(b, cells[1..], depth, maximizing, Combine(maximizing, score, best));
    }
  }

  /** Scores of the terminal positions, as the source assigns them. */
  lemma TerminalScores(b: Board, depth: int, maximizing: bool)
    ensures !IsWinning(b, 'X') && IsWinning(b, 'O') ==> MinimaxValue(b, depth, maximizing) == 10 - depth
    ensures IsWinning(b, 'X') ==> MinimaxValue(b, depth, maximizing) == depth - 10
    ensures IsDraw(b) ==> MinimaxValue(b, depth, maximizing) == 0
  {
  }

  /** Every root score lies between -10 and 10, above the sentinel getBestMove starts from. */
  lemma RootScoreBounds(b: Board, cell: int)
    requires |b| == 9 && IsBlankCell(b, cell)
    ensures -10 <= RootScore(b, cell) <= 10
  {
    PlacingRemovesOneBlank(b, cell, 'O');
    MinimaxBounds(ApplyMove(b, cell, 'O').value, 0, false);
  }

  /** The root scores of the first `n` of `cells`, in order. */
  function ScoresUpTo(b: Board, cells: seq<int>, n: int): (scores: seq<int>)
    requires 0 <= n <= |cells|
    requires forall k | 0 <= k < |cells| :: IsBlankCell(b, cells[k])
    ensures |scores| == n
  {
    if n == 0 then [] else ScoresUpTo(b, cells, n - 1) + [RootScore(b, cells[n - 1])]
  }

  /** The root scores of all of `cells`, in order. */
  function ScoresOf(b: Board, cells: seq<int>): (scores: seq<int>)
    requires forall k | 0 <= k < |cells| :: IsBlankCell(b, cells[k])
    ensures |scores| == |cells|
  {
    ScoresUpTo(b, cells, |cells|)
  }

  lemma {:induction false} ScoresUpToIndex(b: Board, cells: seq<int>, n: int, j: int)
    requires 0 <= n <= |cells|
    requires forall k | 0 <= k < |cells| :: IsBlankCell(b, cells[k])
    requires 0 <= j < n
    ensures ScoresUpTo(b, cells, n)[j] == RootScore(b, cells[j])
    decreases n
  {
    if j < n - 1 {
      ScoresUpToIndex(b, cells, n - 1, j);
    }
  }

  lemma ScoresOfIndex(b: Board, cells: seq<int>, j: int)
    requires forall k | 0 <= k < |cells| :: IsBlankCell(b, cells[k])
    requires 0 <= j < |cells|
    ensures ScoresOf(b, cells)[j] == RootScore(b, cells[j])
  {
    ScoresUpToIndex(b, cells, |cells|, j);
  }

  /** A bound on the scores of the blank cells, as listed, bounds the score of every blank cell. */
  lemma ScoresBoundAllCells(b: Board, scores: seq<int>, bound: int)
    requires scores == ScoresOf(b, EmptyCells(b))
    requires forall j | 0 <= j < |scores| :: scores[j] <= bound
    ensures forall c | IsBlankCell(b, c) :: RootScore(b, c) <= bound
  {
    var cells := EmptyCells(b);
    forall c | IsBlankCell(b, c)
      ensures RootScore(b, c) <= bound
    {
      EmptyCellsComplete(b, c);
      var j :| 0 <= j < |cells| && cells[j] == c;
      ScoresOfIndex(b, cells, j);
    }
  }

  /** Blank cells listed before position `bi` score strictly less than `bound`. */
  lemma EarlierCellsScoreLess(b: Board, scores: seq<int>, bi: int, bound: int)
    requires scores == ScoresOf(b, EmptyCells(b))
    requires 0 <= bi < |scores|
    requires forall j | 0 <= j < bi :: scores[j] < bound
    ensures forall c | IsBlankCell(b, c) && c < EmptyCells(b)[bi] :: RootScore(b, c) < bound
  {
    var cells := EmptyCells(b);
    forall c | IsBlankCell(b, c) && c < cells[bi]
      ensures RootScore(b, c) < bound
    {
      EmptyCellsComplete(b, c);
      var j :| 0 <= j < |cells| && cells[j] == c;
      if bi < j {
        EmptyCellsOrdered(b, bi, j);
      }
      assert j < bi;
      ScoresOfIndex(b, cells, j);
      assert scores[j] == RootScore(b, c);
    }
  }

  /**
   * What the scan of getBestMove establishes about its result: `bi` is the
   * first position of a largest score above the sentinel, or -1 when there
   * is none, and the move is the cell at that position.
   */
  lemma BestMoveSpec(b: Board, scores: seq<int>, bi: int, best: int, move: int)
    requires scores == ScoresOf(b, EmptyCells(b))
    requires forall j | 0 <= j < |scores| :: scores[j] <= best
    requires bi == -1 ==> best == NegInfinity && move == -1
    requires bi != -1 ==> 0 <= bi < |scores| && best == scores[bi] > NegInfinity && move == EmptyCells(b)[bi]
    requires bi != -1 ==> forall j | 0 <= j < bi :: scores[j] < best
    ensures move == -1 || IsBlankCell(b, move)
    ensures move != -1 ==> RootScore(b, move) > NegInfinity
    ensures move != -1 ==> forall c | IsBlankCell(b, c) :: RootScore(b, c) <= RootScore(b, move)
    ensures move != -1 ==> forall c | IsBlankCell(b, c) && c < move :: RootScore(b, c) < RootScore(b, move)
    ensures move == -1 ==> forall c | IsBlankCell(b, c) :: RootScore(b, c) <= NegInfinity
  {
    ScoresBoundAllCells(b, scores, best);
    if bi != -1 {
      ScoresOfIndex(b, EmptyCells(b), bi);
      EarlierCellsScoreLess(b, scores, bi, best);
    }
  }

  /**
   * On a nine-cell board every root score is above the sentinel, so the
   * "no move" answer -1, whose scores are all at most the sentinel, is
   * given only for a board with no blank cell.
   */
  lemma NoMoveMeansFull(b: Board)
    requires |b| == 9
    requires forall c | IsBlankCell(b, c) :: RootScore(b, c) <= NegInfinity
    ensures EmptyCells(b) == []
  {
    if EmptyCells(b) != [] {
      RootScoreBounds(b, EmptyCells(b)[0]);
    }
  }

  /** The score getBestMove computes for one candidate cell. */
  method ScoreCell(b: Board, cell: int) returns (score: int)
    requires IsBlankCell(b, cell)
    ensures score == RootScore(b, cell)
  {
    var newBoard := ApplyMove(b, cell, 'O').value;
    score := Minimax(newBoard, 0, false);
  }

  /**
   * The loop of getBestMove over the candidate cells: keeps the first cell
   * whose score beats every score seen before it.
   */
  method ScanCells(b: Board, cells: seq<int>) returns (move: int, bestScore: int, ghost bi: int)
    requires forall k | 0 <= k < |cells| :: IsBlankCell(b, cells[k])
    ensures forall j | 0 <= j < |cells| :: ScoresOf(b, cells)[j] <= bestScore
    ensures bi == -1 ==> bestScore == NegInfinity && move == -1
    ensures bi != -1 ==> 0 <= bi < |cells| && move == cells[bi] && bestScore == ScoresOf(b, cells)[bi] > NegInfinity
    ensures bi != -1 ==> forall j | 0 <= j < bi :: ScoresOf(b, cells)[j] < bestScore
  {
    bestScore := NegInfinity;
    move := -1;
    ghost var scores: seq<int> := [];
    bi := -1;
    var k := 0;
    while k < |cells|
      invariant 0 <= k <= |cells|
      invariant scores == ScoresUpTo(b, cells, k)
      invariant bi == -1 ==> bestScore == NegInfinity && move == -1
      invariant bi != -1 ==> 0 <= bi < k && move == cells[bi] && bestScore == scores[bi] > NegInfinity
      invariant forall j | 0 <= j < k :: scores[j] <= bestScore
      invariant bi != -1 ==> forall j | 0 <= j < bi :: scores[j] < bestScore
    {
      var cell := cells[k];
      var score := ScoreCell(b, cell);
      scores := scores + [score];
      if score > bestScore {
        bestScore := score;
        move := cell;
        bi := k;
      }
      k := k + 1;
    }
  }

  method GetBestMove(b: Board) returns (move: int)
    ensures move == -1 || IsBlankCell(b, move)
    ensures move != -1 ==> RootScore(b, move) > NegInfinity
    ensures move != -1 ==> forall c | IsBlankCell(b, c) :: RootScore(b, c) <= RootScore(b, move)
    ensures move != -1 ==> forall c | IsBlankCell(b, c) && c < move :: RootScore(b, c) < RootScore(b, move)
    ensures move == -1 ==> forall c | IsBlankCell(b, c) :: RootScore(b, c) <= NegInfinity
  {
    var cells := GetEmptyCells(b);
    var bestScore;
    ghost var bi;
    move, bestScore, bi := ScanCells(b, cells);
    BestMoveSpec(b, ScoresOf(b, cells), bi, bestScore, move);
  }
}
