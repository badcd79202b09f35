/**
 * The GameEngine class of src/lib/game-engine.ts: a mutable game of
 * tic-tac-toe whose board is an array of nine cells, each empty (null in
 * the source, None here) or holding a mark, together with the player to
 * move, the list of cells played, the winner, the draw flag and the
 * winning line.
 */
module Engine {
  import opened Wrappers
  import opened GameRules

  type Cells = seq<Option<Symbol>>

  type Line = (Position, Position, Position)

  /** The mark of the move with 0-based number `i`: X opens and the players alternate. */
  function PlayerAt(i: nat): Symbol {
    if i % 2 == 0 then 'X' else 'O'
  }

  lemma NextTurnOfPlayerAt(i: nat)
    ensures NextTurn(PlayerAt(i)) == PlayerAt(i + 1)
  {
  }

  function EmptyBoard(): Cells {
    seq(9, _ => None)
  }

  predicate InBoard(h: seq<int>) {
    forall i | 0 <= i < |h| :: 0 <= h[i] <= 8
  }

  predicate Distinct(h: seq<int>) {
    forall i, j | 0 <= i < j < |h| :: h[i] != h[j]
  }

  /** The board reached by playing the cells of `h` in order from an empty board. */
  function Replay(h: seq<int>): (cells: Cells)
    requires InBoard(h)
    ensures |cells| == 9
  {
    if h == [] then EmptyBoard()
    else Replay(h[..|h| - 1])[h[|h| - 1] := Some(PlayerAt(|h| - 1))]
  }

  /** `board.every(cell => cell !== null)` */
  predicate Full(cells: Cells) {
    forall i | 0 <= i < |cells| :: cells[i].Some?
  }

  /** The number of occupied cells. */
  function Marks(cells: Cells): nat {
    if cells == [] then 0
    else Marks(cells[..|cells| - 1]) + (if cells[|cells| - 1].Some? then 1 else 0)
  }

  /** The test of checkForWinner: the first cell is set and the other two hold the same mark. */
  predicate LineComplete(cells: Cells, line: Line)
    requires |cells| == 9
  {
    cells[line.0].Some? && cells[line.1] == cells[line.0] && cells[line.2] == cells[line.0]
  }

  /** The first winning triple, in list order from position `k`, that is complete. */
  function FirstLineFrom(cells: Cells, k: nat): (r: Option<nat>)
    requires |cells| == 9
    ensures r.Some? ==> k <= r.value < |WinningPositions| && LineComplete(cells, WinningPositions[r.value])
    ensures r.Some? ==> forall j | k <= j < r.value :: !LineComplete(cells, WinningPositions[j])
    ensures r.None? ==> forall j | k <= j < |WinningPositions| :: !LineComplete(cells, WinningPositions[j])
    decreases |WinningPositions| - k
  {
    if k >= |WinningPositions| then None
    else if LineComplete(cells, WinningPositions[k]) then Some(k)
    else FirstLineFrom(cells, k + 1)
  }

  function FirstLine(cells: Cells): Option<nat>
    requires |cells| == 9
  {
    FirstLineFrom(cells, 0)
  }

  /** The winner checkForWinner records: the mark on the first complete line. */
  function LineWinner(cells: Cells): Option<Symbol>
    requires |cells| == 9
  {
    match FirstLine(cells)
    case None => None
    case Some(k) => cells[WinningPositions[k].0]
  }

  /** The winning line checkForWinner records. */
  function LineFound(cells: Cells): Option<Line>
    requires |cells| == 9
  {
    match FirstLine(cells)
    case None => None
    case Some(k) => Some(WinningPositions[k])
  }

  /** `board.map(cell => cell || '_').join('')` */
  function BoardString(cells: Cells): string {
    seq(|cells|, i requires 0 <= i < |cells| => if cells[i].Some? then cells[i].value else Blank)
  }

  /** A cell of the engine's board is empty exactly when the board string shows '_' there. */
  lemma BlankIffEmpty(cells: Cells, i: int)
    requires |cells| == 9
    ensures IsBlankCell(BoardString(cells), i) <==> 0 <= i <= 8 && cells[i].None?
  {
  }

  /**
   * The engine's notion of a winner agrees with isWinning on the board
   * string: some line is complete exactly when X or O is winning, and the
   * recorded mark is winning.
   */
  lemma LineWinnerAgrees(cells: Cells)
    requires |cells| == 9
    ensures LineWinner(cells).Some? <==> IsWinning(BoardString(cells), 'X') || IsWinning(BoardString(cells), 'O')
    ensures LineWinner(cells).Some? ==> IsWinning(BoardString(cells), LineWinner(cells).value)
  {
    var b := BoardString(cells);
    match FirstLine(cells)
    case Some(k) =>
      var line := WinningPositions[k];
      assert LineOf(b, line, cells[line.0].value);
    case None =>
  }

  /** The engine's draw flag, once set from a full board with no winner, agrees with isDraw on the board string. */
  lemma DrawAgrees(cells: Cells)
    requires |cells| == 9
    ensures (LineWinner(cells).None? && Full(cells)) == IsDraw(BoardString(cells))
  {
    LineWinnerAgrees(cells);
    var b := BoardString(cells);
    if Full(cells) {
      forall i | 0 <= i < |b|
        ensures b[i] != Blank
      {
        assert cells[i].Some?;
      }
    } else {
      var i :| 0 <= i < |cells| && cells[i].None?;
      assert b[i] == Blank;
    }
  }

  lemma {:induction false} ReplayOccupied(h: seq<int>, i: int)
    requires InBoard(h) && 0 <= i < 9
    ensures Replay(h)[i].Some? <==> i in h
  {
    if h != [] {
      var p := h[..|h| - 1];
      assert h == p + [h[|h| - 1]];
      ReplayOccupied(p, i);
    }
  }

  lemma {:induction false} MarksUpdate(c: Cells, x: int, s: Symbol)
    requires 0 <= x < |c| && c[x].None?
    ensures Marks(c[x := Some(s)]) == Marks(c) + 1
    decreases |c|
  {
    var c' := c[x := Some(s)];
    var n := |c| - 1;
    if x == n {
      assert c'[..n] == c[..n];
    } else {
      assert c'[..n] == c[..n][x := Some(s)];
      MarksUpdate(c[..n], x, s);
    }
  }

  lemma {:induction false} MarksOfEmpty(c: Cells)
    requires forall i | 0 <= i < |c| :: c[i].None?
    ensures Marks(c) == 0
    decreases |c|
  {
    if c != [] {
      MarksOfEmpty(c[..|c| - 1]);
    }
  }

  /** Every move of the history occupies its own cell, so the number of marks is the number of moves. */
  lemma {:induction false} ReplayCount(h: seq<int>)
    requires InBoard(h) && Distinct(h)
    ensures Marks(Replay(h)) == |h|
  {
    if h == [] {
      MarksOfEmpty(EmptyBoard());
    } else {
      var p := h[..|h| - 1];
      var x := h[|h| - 1];
      assert x !in p;
      assert InBoard(p) && Distinct(p);
      ReplayOccupied(p, x);
      assert Replay(h) == Replay(p)[x := Some(PlayerAt(|h| - 1))];
      MarksUpdate(Replay(p), x, PlayerAt(|h| - 1));
      ReplayCount(p);
    }
  }

  /**
   * A move on an empty cell of a board nobody has won can only complete a
   * line of the mover's mark.
   */
  lemma NewLineIsMovers(cells: Cells, index: int, s: Symbol)
    requires |cells| == 9 && 0 <= index <= 8 && cells[index].None? && FirstLine(cells).None?
    ensures LineWinner(cells[index := Some(s)]) in {None, Some(s)}
  {
    var after := cells[index := Some(s)];
    match FirstLine(after)
    case None =>
    case Some(k) =>
      var line := WinningPositions[k];
      assert !LineComplete(cells, line);
      assert index == line.0 || index == line.1 || index == line.2;
  }

  /**
   * The engine's fields agree with one another: the board is the replay of
   * the history, the winner, line and draw flag are what the checks compute
   * from it, and the player to move alternates until the game ends and then
   * stays on the last mover, who is the winner if there is one.
   */
  predicate Consistent(cells: Cells, h: seq<int>, player: Symbol, winner: Option<Symbol>, isDraw: bool, line: Option<Line>) {
    && InBoard(h)
    && Distinct(h)
    && cells == Replay(h)
    && winner == LineWinner(cells)
    && line == LineFound(cells)
    && isDraw == (winner.None? && Full(cells))
    && (if winner.Some? || isDraw
        then |h| > 0 && player == PlayerAt(|h| - 1)
        else player == PlayerAt(|h|))
    && (winner.Some? ==> winner.value == player)
  }

  /** A successful makeMove on a game in progress leads to a consistent state again. */
  lemma MoveKeepsConsistent(cells: Cells, h: seq<int>, player: Symbol, index: int)
    requires Consistent(cells, h, player, None, false, None)
    requires 0 <= index <= 8 && cells[index].None?
    ensures var after := cells[index := Some(player)];
      var w := LineWinner(after);
      var d := w.None? && Full(after);
      Consistent(after, h + [index], if w.None? && !d then NextTurn(player) else player, w, d, LineFound(after))
  {
    var h' := h + [index];
    assert h'[..|h'| - 1] == h;
    ReplayOccupied(h, index);
    NewLineIsMovers(cells, index, player);
    NextTurnOfPlayerAt(|h|);
  }

  /** The snapshot getState returns. */
  datatype EngineState = EngineState(
    board: Cells, currentPlayer: Symbol, winner: Option<Symbol>, isDraw: bool,
    moves: int, winningLine: Option<Line>)

  class GameEngine {
    var board: array<Option<Symbol>>
    var currentPlayer: Symbol
    var gameHistory: seq<int>
    var winner: Option<Symbol>
    var isDraw: bool
    var winningLine: Option<Line>

    /** The fields are consistent with one another and the board has nine cells. */
    ghost predicate Valid()
      reads this, board
    {
      board.Length == 9 && Consistent(board[..], gameHistory, currentPlayer, winner, isDraw, winningLine)
    }

    constructor()
      ensures Valid() && fresh(board)
      ensures board[..] == EmptyBoard() && currentPlayer == 'X' && gameHistory == []
      ensures winner.None? && !isDraw && winningLine.None?
    {
      board := new Option<Symbol>[9](_ => None);
      currentPlayer := 'X';
      gameHistory := [];
      winner := None;
      isDraw := false;
      winningLine := None;
      new;
      assert board[..] == EmptyBoard();
      assert board[0].None?;
    }

    method MakeMove(index: int) returns (ok: bool)
      requires Valid()
      modifies this, board
      ensures Valid() && board == old(board)
      ensures ok <==> 0 <= index <= 8 && old(board[index]).None? && old(winner).None? && !old(isDraw)
      ensures !ok ==> board[..] == old(board[..]) && currentPlayer == old(currentPlayer) && gameHistory == old(gameHistory)
      ensures !ok ==> winner == old(winner) && isDraw == old(isDraw) && winningLine == old(winningLine)
      ensures ok ==> board[..] == old(board[..])[index := Some(old(currentPlayer))]
      ensures ok ==> gameHistory == old(gameHistory) + [index]
      ensures ok ==> currentPlayer == if winner.None? && !isDraw then NextTurn(old(currentPlayer)) else old(currentPlayer)
    {
      if index < 0 || index > 8 || board[index].Some? || winner.Some? || isDraw {
        return false;
      }
      MoveKeepsConsistent(board[..], gameHistory, currentPlayer, index);
      board[index] := Some(currentPlayer);
      gameHistory := gameHistory + [index];
      CheckForWinner();
      CheckForDraw();
      if winner.None? && !isDraw {
        currentPlayer := NextTurn(currentPlayer);
      }
      ok := true;
    }

    method CheckForWinner()
      requires board.Length == 9
      modifies this
      ensures board == old(board) && currentPlayer == old(currentPlayer)
      ensures gameHistory == old(gameHistory) && isDraw == old(isDraw)
      ensures FirstLine(board[..]).Some? ==> winner == LineWinner(board[..]) && winningLine == LineFound(board[..])
      ensures FirstLine(board[..]).None? ==> winner == old(winner) && winningLine == old(winningLine)
    {
      var k := 0;
      while k < |WinningPositions|
        invariant 0 <= k <= |WinningPositions|
        invariant FirstLine(board[..]) == FirstLineFrom(board[..], k)
        invariant winner == old(winner) && winningLine == old(winningLine)
      {
        var line := WinningPositions[k];
        var a, b, c := line.0, line.1, line.2;
        if board[a].Some? && board[a] == board[b] && board[a] == board[c] {
          assert LineComplete(board[..], line);
          winner := Some(board[a].value);
          winningLine := Some(line);
          return;
        }
        assert !LineComplete(board[..], line);
        k := k + 1;
      }
    }

    method CheckForDraw()
      requires board.Length == 9
      modifies this
      ensures board == old(board) && currentPlayer == old(currentPlayer) && gameHistory == old(gameHistory)
      ensures winner == old(winner) && winningLine == old(winningLine)
      ensures isDraw == (old(isDraw) || (winner.None? && Full(board[..])))
    {
      var full := forall i | 0 <= i < board.Length :: board[i].Some?;
      if winner.None? && full {
        isDraw := true;
      }
    }

    /** The state snapshot; `moves` counts the history, which equals the number of marks on the board. */
    function GetState(): (s: EngineState)
      reads this, board
      requires Valid()
      ensures |s.board| == 9 && s.moves == Marks(s.board)
      ensures s.winner.Some? <==> s.winningLine.Some?
      ensures s.isDraw ==> s.winner.None? && Full(s.board)
      ensures s.winner.Some? ==> s.winner.value == s.currentPlayer
    {
      ReplayCount(gameHistory);
      EngineState(board[..], currentPlayer, winner, isDraw, |gameHistory|, winningLine)
    }

    method Reset()
      modifies this
      ensures Valid() && fresh(board)
      ensures board[..] == EmptyBoard() && currentPlayer == 'X' && gameHistory == []
      ensures winner.None? && !isDraw && winningLine.None?
    {
      board := new Option<Symbol>[9](_ => None);
      currentPlayer := 'X';
      gameHistory := [];
      winner := None;
      isDraw := false;
      winningLine := None;
      assert board[..] == EmptyBoard();
      assert board[0].None?;
    }

    method GetBestMove(random: real) returns (move: int)
      requires board.Length == 9 && 0.0 <= random < 1.0
      ensures move == AiMove(board[..], random)
    {
      var cells := board[..];
      var emptyCells := EmptyCells(BoardString(cells));
      if |emptyCells| == 0 {
        return -1;
      }
      var win := FindWinningCell(cells, emptyCells, 'O');
      if win.Some? {
        return win.value;
      }
      var block := FindWinningCell(cells, emptyCells, 'X');
      if block.Some? {
        return block.value;
      }
      if 4 in emptyCells {
        return 4;
      }
      var corners := Corners(emptyCells);
      if |corners| > 0 {
        return corners[RandomIndex(random, |corners|)];
      }
      move := emptyCells[RandomIndex(random, |emptyCells|)];
    }
  }

  /** One of the two scans of getBestMove: the first candidate at which `s` would complete a line. */
  method FindWinningCell(cells: Cells, cands: seq<int>, s: Symbol) returns (r: Option<int>)
    requires forall k | 0 <= k < |cands| :: 0 <= cands[k] < |cells|
    ensures r == FirstWinningCell(cells, cands, s)
  {
    var k := 0;
    while k < |cands|
      invariant 0 <= k <= |cands|
      invariant FirstWinningCell(cells, cands, s) == FirstWinningCell(cells, cands[k..], s)
    {
      assert cands[k..][1..] == cands[k + 1..];
      var cell := cands[k];
      var testBoard := cells[cell := Some(s)];
      if IsWinning(BoardString(testBoard), s) {
        return Some(cell);
      }
      k := k + 1;
    }
    return None;
  }

  /** Marking `cell` with `s` gives `s` three in a row. */
  predicate WinsWith(cells: Cells, cell: int, s: Symbol)
    requires 0 <= cell < |cells|
  {
    IsWinning(BoardString(cells[cell := Some(s)]), s)
  }

  /** The first of `cands` at which `s` would win. */
  function FirstWinningCell(cells: Cells, cands: seq<int>, s: Symbol): (r: Option<int>)
    requires forall k | 0 <= k < |cands| :: 0 <= cands[k] < |cells|
    ensures r.Some? ==> r.value in cands && WinsWith(cells, r.value, s)
    ensures r.None? ==> forall k | 0 <= k < |cands| :: !WinsWith(cells, cands[k], s)
  {
    if cands == [] then None
    else if WinsWith(cells, cands[0], s) then Some(cands[0])
    else FirstWinningCell(cells, cands[1..], s)
  }

  /** `[0, 2, 6, 8].filter(corner => emptyCells.includes(corner))` */
  function Corners(empty: seq<int>): (corners: seq<int>)
    ensures forall k | 0 <= k < |corners| :: corners[k] in empty && corners[k] in {0, 2, 6, 8}
    ensures forall c | c in {0, 2, 6, 8} && c in empty :: c in corners
  {
    (if 0 in empty then [0] else []) + (if 2 in empty then [2] else []) +
    (if 6 in empty then [6] else []) + (if 8 in empty then [8] else [])
  }

  /** A fraction in [0, 1) of a positive number is non-negative and below it. */
  lemma FractionBelow(a: real, b: real)
    requires 0.0 <= a < 1.0 && b > 0.0
    ensures 0.0 <= a * b < b
  {
    assert b - a * b == (1.0 - a) * b;
  }

  /** `Math.floor(random * n)` for `random` drawn from [0, 1). */
  function RandomIndex(random: real, n: int): (i: int)
    requires 0.0 <= random < 1.0 && n > 0
    ensures 0 <= i < n
  {
    var x := random * n as real;
    FractionBelow(random, n as real);
    assert x.Floor as real <= x < n as real;
    x.Floor
  }

  /** Without a win or a block: the centre, else a random free corner, else a random free cell. */
  function FallbackMove(empty: seq<int>, random: real): (m: int)
    requires empty != [] && 0.0 <= random < 1.0
    ensures m in empty
  {
    if 4 in empty then 4
    else
      var corners := Corners(empty);
      if |corners| > 0 then corners[RandomIndex(random, |corners|)]
      else empty[RandomIndex(random, |empty|)]
  }

  /** The cell the engine's simple AI picks, with `random` standing for Math.random(). */
  function AiMove(cells: Cells, random: real): int
    requires |cells| == 9 && 0.0 <= random < 1.0
  {
    var empty := EmptyCells(BoardString(cells));
    if empty == [] then -1
    else match FirstWinningCell(cells, empty, 'O')
      case Some(c) => c
      case None =>
        match FirstWinningCell(cells, empty, 'X')
        case Some(c) => c
        case None => FallbackMove(empty, random)
  }

  /** The AI answers -1 when no cell is listed empty, and otherwise one of the listed cells. */
  lemma AiMoveListed(cells: Cells, random: real)
    requires |cells| == 9 && 0.0 <= random < 1.0
    ensures EmptyCells(BoardString(cells)) == [] <==> AiMove(cells, random) == -1
    ensures AiMove(cells, random) != -1 ==> AiMove(cells, random) in EmptyCells(BoardString(cells))
  {
    var empty := EmptyCells(BoardString(cells));
    if empty != [] {
      var m := AiMove(cells, random);
      match FirstWinningCell(cells, empty, 'O') {
        case Some(c) => assert m == c;
        case None =>
          match FirstWinningCell(cells, empty, 'X') {
            case Some(c) => assert m == c;
            case None => assert m == FallbackMove(empty, random);
          }
      }
      var j :| 0 <= j < |empty| && empty[j] == m;
    }
  }

  /** The AI answers -1 exactly on a full board, and otherwise picks an empty cell. */
  lemma AiMoveIsEmptyCell(cells: Cells, random: real)
    requires |cells| == 9 && 0.0 <= random < 1.0
    ensures AiMove(cells, random) == -1 <==> Full(cells)
    ensures AiMove(cells, random) != -1 ==> 0 <= AiMove(cells, random) <= 8 && cells[AiMove(cells, random)].None?
  {
    var b := BoardString(cells);
    var empty := EmptyCells(b);
    AiMoveListed(cells, random);
    if Full(cells) {
      if empty != [] {
        BlankIffEmpty(cells, empty[0]);
      }
    } else {
      var i :| 0 <= i < |cells| && cells[i].None?;
      BlankIffEmpty(cells, i);
      EmptyCellsComplete(b, i);
      var m := AiMove(cells, random);
      var j :| 0 <= j < |empty| && empty[j] == m;
      BlankIffEmpty(cells, m);
    }
  }

  /** When O can win at some empty cell, the AI plays a winning cell. */
  lemma AiTakesWin(cells: Cells, random: real, c: int)
    requires |cells| == 9 && 0.0 <= random < 1.0
    requires 0 <= c <= 8 && cells[c].None? && WinsWith(cells, c, 'O')
    ensures 0 <= AiMove(cells, random) <= 8 && WinsWith(cells, AiMove(cells, random), 'O')
  {
    var b := BoardString(cells);
    BlankIffEmpty(cells, c);
    EmptyCellsComplete(b, c);
    var empty := EmptyCells(b);
    var j :| 0 <= j < |empty| && empty[j] == c;
  }

  /** When O cannot win but X could win at some empty cell, the AI blocks at such a cell. */
  lemma AiBlocks(cells: Cells, random: real, c: int)
    requires |cells| == 9 && 0.0 <= random < 1.0
    requires forall i | 0 <= i <= 8 && cells[i].None? :: !WinsWith(cells, i, 'O')
    requires 0 <= c <= 8 && cells[c].None? && WinsWith(cells, c, 'X')
    ensures 0 <= AiMove(cells, random) <= 8 && WinsWith(cells, AiMove(cells, random), 'X')
  {
    var b := BoardString(cells);
    BlankIffEmpty(cells, c);
    EmptyCellsComplete(b, c);
    var empty := EmptyCells(b);
    var j :| 0 <= j < |empty| && empty[j] == c;
    if FirstWinningCell(cells, empty, 'O').Some? {
      var w := FirstWinningCell(cells, empty, 'O').value;
      BlankIffEmpty(cells, w);
    }
  }

  /** With no win and no block available, the AI takes the centre when it is free, and otherwise a free corner if any. */
  lemma AiPrefersCentreThenCorner(cells: Cells, random: real)
    requires |cells| == 9 && 0.0 <= random < 1.0
    requires forall i | 0 <= i <= 8 && cells[i].None? :: !WinsWith(cells, i, 'O') && !WinsWith(cells, i, 'X')
    ensures cells[4].None? ==> AiMove(cells, random) == 4
    ensures cells[4].Some? && (exists c | c in {0, 2, 6, 8} :: cells[c].None?) ==> AiMove(cells, random) in {0, 2, 6, 8}
  {
    var b := BoardString(cells);
    var empty := EmptyCells(b);
    if cells[4].None? {
      BlankIffEmpty(cells, 4);
      EmptyCellsComplete(b, 4);
      AiFallsBack(cells, random);
    } else if exists c | c in {0, 2, 6, 8} :: cells[c].None? {
      var c :| c in {0, 2, 6, 8} && cells[c].None?;
      BlankIffEmpty(cells, c);
      EmptyCellsComplete(b, c);
      AiFallsBack(cells, random);
      assert 4 !in empty by {
        if 4 in empty {
          BlankIffEmpty(cells, 4);
        }
      }
      assert c in Corners(empty);
    }
  }

  /** With no win and no block available and some cell empty, the AI makes its fallback move. */
  lemma AiFallsBack(cells: Cells, random: real)
    requires |cells| == 9 && 0.0 <= random < 1.0
    requires forall i | 0 <= i <= 8 && cells[i].None? :: !WinsWith(cells, i, 'O') && !WinsWith(cells, i, 'X')
    requires EmptyCells(BoardString(cells)) != []
    ensures AiMove(cells, random) == FallbackMove(EmptyCells(BoardString(cells)), random)
  {
    var empty := EmptyCells(BoardString(cells));
    if FirstWinningCell(cells, empty, 'O').Some? {
      BlankIffEmpty(cells, FirstWinningCell(cells, empty, 'O').value);
    }
    if FirstWinningCell(cells, empty, 'X').Some? {
      BlankIffEmpty(cells, FirstWinningCell(cells, empty, 'X').value);
    }
  }
}
