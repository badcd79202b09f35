/**
 * The pure tic-tac-toe rules of src/lib/game-engine.ts: a board is a string
 * whose characters are 'X', 'O' or '_' (nine of them when well formed; the
 * functions do not enforce the length, and neither does this model).
 */
module GameRules {
  import opened Wrappers

  /** A player's mark. */
  type Symbol = c: char | c == 'X' || c == 'O' witness 'X'

  type Board = string

  /** A cell index of a well-formed board. */
  type Position = p: int | 0 <= p <= 8

  const Blank: char := '_'

  /** The eight winning triples in the order the source lists them: rows, columns, diagonals. */
  const WinningPositions: seq<(Position, Position, Position)> :=
    [(0, 1, 2), (3, 4, 5), (6, 7, 8), (0, 3, 6), (1, 4, 7), (2, 5, 8), (0, 4, 8), (2, 4, 6)]

  datatype GameState = GameState(board: Board, turn: Symbol, winner: Option<Symbol>, isDraw: bool, isGameOver: bool)

  datatype ApplyError = IndexOutOfRange | CellOccupied

  datatype MoveError = NotYourTurn | InvalidPosition | CellAlreadyOccupied | GameAlreadyOver

  datatype Validity = Valid | Invalid(error: MoveError)

  datatype Coords = Coords(row: int, col: int)

  function ApplyErrorMessage(e: ApplyError): string {
    match e
    case IndexOutOfRange => "Invalid move: index must be between 0 and 8"
    case CellOccupied => "Invalid move: cell is already occupied"
  }

  function MoveErrorMessage(e: MoveError): string {
    match e
    case NotYourTurn => "Not your turn"
    case InvalidPosition => "Invalid position"
    case CellAlreadyOccupied => "Cell already occupied"
    case GameAlreadyOver => "Game is already over"
  }

  /** `board[pos] === c`; reading past either end yields undefined, which equals no character. */
  predicate CellIs(b: Board, pos: int, c: char) {
    0 <= pos < |b| && b[pos] == c
  }

  predicate LineOf(b: Board, line: (Position, Position, Position), s: Symbol) {
    CellIs(b, line.0, s) && CellIs(b, line.1, s) && CellIs(b, line.2, s)
  }

  predicate IsWinning(b: Board, s: Symbol) {
    exists k :: 0 <= k < |WinningPositions| && LineOf(b, WinningPositions[k], s)
  }

  /** The same condition written out cell by cell, as a reference for `IsWinning`. */
  predicate ThreeInARow(b: Board, s: Symbol) {
    || (CellIs(b, 0, s) && CellIs(b, 1, s) && CellIs(b, 2, s))
    || (CellIs(b, 3, s) && CellIs(b, 4, s) && CellIs(b, 5, s))
    || (CellIs(b, 6, s) && CellIs(b, 7, s) && CellIs(b, 8, s))
    || (CellIs(b, 0, s) && CellIs(b, 3, s) && CellIs(b, 6, s))
    || (CellIs(b, 1, s) && CellIs(b, 4, s) && CellIs(b, 7, s))
    || (CellIs(b, 2, s) && CellIs(b, 5, s) && CellIs(b, 8, s))
    || (CellIs(b, 0, s) && CellIs(b, 4, s) && CellIs(b, 8, s))
    || (CellIs(b, 2, s) && CellIs(b, 4, s) && CellIs(b, 6, s))
  }

  lemma IsWinningIffThreeInARow(b: Board, s: Symbol)
    ensures IsWinning(b, s) <==> ThreeInARow(b, s)
  {
    if IsWinning(b, s) {
      var k :| 0 <= k < |WinningPositions| && LineOf(b, WinningPositions[k], s);
      assert k in {0, 1, 2, 3, 4, 5, 6, 7};
    }
    if ThreeInARow(b, s) {
      if CellIs(b, 0, s) && CellIs(b, 1, s) && CellIs(b, 2, s) {
        assert LineOf(b, WinningPositions[0], s);
      } else if CellIs(b, 3, s) && CellIs(b, 4, s) && CellIs(b, 5, s) {
        assert LineOf(b, WinningPositions[1], s);
      } else if CellIs(b, 6, s) && CellIs(b, 7, s) && CellIs(b, 8, s) {
        assert LineOf(b, WinningPositions[2], s);
      } else if CellIs(b, 0, s) && CellIs(b, 3, s) && CellIs(b, 6, s) {
        assert LineOf(b, WinningPositions[3], s);
      } else if CellIs(b, 1, s) && CellIs(b, 4, s) && CellIs(b, 7, s) {
        assert LineOf(b, WinningPositions[4], s);
      } else if CellIs(b, 2, s) && CellIs(b, 5, s) && CellIs(b, 8, s) {
        assert LineOf(b, WinningPositions[5], s);
      } else if CellIs(b, 0, s) && CellIs(b, 4, s) && CellIs(b, 8, s) {
        assert LineOf(b, WinningPositions[6], s);
      } else {
        assert LineOf(b, WinningPositions[7], s);
      }
    }
  }

  /** Board full (no '_' anywhere in the string) and nobody has three in a row. */
  predicate IsDraw(b: Board) {
    Blank !in b && !IsWinning(b, 'X') && !IsWinning(b, 'O')
  }

  function ApplyMove(b: Board, index: int, symbol: Symbol): (r: Result<Board, ApplyError>)
    ensures (index < 0 || index > 8) ==> r == Failure(IndexOutOfRange)
    ensures 0 <= index <= 8 && !CellIs(b, index, Blank) ==> r == Failure(CellOccupied)
    ensures r.Success? <==> 0 <= index <= 8 && CellIs(b, index, Blank)
    ensures r.Success? ==> |r.value| == |b| && r.value[index] == symbol
    ensures r.Success? ==> forall j | 0 <= j < |b| && j != index :: r.value[j] == b[j]
  {
    if index < 0 || index > 8 then Failure(IndexOutOfRange)
    else if !CellIs(b, index, Blank) then Failure(CellOccupied)
    else Success(b[index := symbol])
  }

  /** A move never takes a win away: the only cell it writes was blank. */
  lemma WinSurvivesMove(b: Board, index: int, mover: Symbol, s: Symbol)
    requires ApplyMove(b, index, mover).Success?
    requires IsWinning(b, s)
    ensures IsWinning(ApplyMove(b, index, mover).value, s)
  {
    var k :| 0 <= k < |WinningPositions| && LineOf(b, WinningPositions[k], s);
    var after := ApplyMove(b, index, mover).value;
    var line := WinningPositions[k];
    assert line.0 != index && line.1 != index && line.2 != index;
    assert LineOf(after, line, s);
  }

  /** A move can only create a win for the player who made it, on a line through the played cell. */
  lemma NewWinBelongsToMover(b: Board, index: int, mover: Symbol, s: Symbol)
    requires ApplyMove(b, index, mover).Success?
    requires !IsWinning(b, s) && IsWinning(ApplyMove(b, index, mover).value, s)
    ensures s == mover
    ensures exists k :: 0 <= k < |WinningPositions| && LineOf(ApplyMove(b, index, mover).value, WinningPositions[k], s)
              && index in {WinningPositions[k].0, WinningPositions[k].1, WinningPositions[k].2}
  {
    var after := ApplyMove(b, index, mover).value;
    var k :| 0 <= k < |WinningPositions| && LineOf(after, WinningPositions[k], s);
    var line := WinningPositions[k];
    if line.0 != index && line.1 != index && line.2 != index {
      assert LineOf(b, line, s);
      assert false;
    }
    assert after[index] == mover;
  }

  function GetGameState(b: Board, currentTurn: Symbol): (st: GameState)
    ensures st.board == b && st.turn == currentTurn
    ensures IsWinning(b, 'X') ==> st.winner == Some('X')
    ensures !IsWinning(b, 'X') && IsWinning(b, 'O') ==> st.winner == Some('O')
    ensures st.winner.None? <==> !IsWinning(b, 'X') && !IsWinning(b, 'O')
    ensures st.isDraw == IsDraw(b)
    ensures st.isGameOver <==> IsWinning(b, 'X') || IsWinning(b, 'O') || IsDraw(b)
  {
    var xWins := IsWinning(b, 'X');
    var oWins := IsWinning(b, 'O');
    var draw := IsDraw(b);
    GameState(b, currentTurn, if xWins then Some('X') else if oWins then Some('O') else None, draw, xWins || oWins || draw)
  }

  /** The reported state is self-consistent: over exactly when someone won or it is a draw, and a draw has no winner. */
  lemma GameStateConsistent(b: Board, t: Symbol)
    ensures var st := GetGameState(b, t);
      && (st.isGameOver <==> st.winner.Some? || st.isDraw)
      && (st.isDraw ==> st.winner.None?)
      && (st.winner.Some? ==> IsWinning(b, st.winner.value))
  {
  }

  /**
   * The two full boards that the draw tests of src/test/game-engine.test.ts
   * expect to be drawn are won: 'XOXOXOXOX' has X on both diagonals and
   * 'OXOXOXOXO' has O on both, so neither is a draw and the first reports X
   * as its winner.
   */
  lemma AlternatingBoardsAreWon()
    ensures IsWinning("XOXOXOXOX", 'X') && !IsDraw("XOXOXOXOX")
    ensures GetGameState("XOXOXOXOX", 'X').winner == Some('X')
    ensures IsWinning("OXOXOXOXO", 'O') && !IsDraw("OXOXOXOXO")
  {
    var x := "XOXOXOXOX";
    assert WinningPositions[6] == (0, 4, 8) && x[0] == x[4] == x[8] == 'X';
    assert LineOf(x, WinningPositions[6], 'X');
    var o := "OXOXOXOXO";
    assert o[0] == o[4] == o[8] == 'O';
    assert LineOf(o, WinningPositions[6], 'O');
  }

  /** A full board with no line, the kind of board a draw test needs: it is a draw, with no winner, and the game is over. */
  lemma FullBoardWithoutLineIsDraw()
    ensures IsDraw("XOXXOOOXX")
    ensures var st := GetGameState("XOXXOOOXX", 'X');
      st.winner.None? && st.isDraw && st.isGameOver
  {
    var b := "XOXXOOOXX";
    forall k, s: Symbol | 0 <= k < |WinningPositions|
      ensures !LineOf(b, WinningPositions[k], s)
    {
    }
  }

  function NextTurn(currentTurn: Symbol): (next: Symbol)
    ensures next != currentTurn
  {
    if currentTurn == 'X' then 'O' else 'X'
  }

  lemma NextTurnInvolution(t: Symbol)
    ensures NextTurn(NextTurn(t)) == t
  {
  }

  function IsValidMove(b: Board, index: int, symbol: Symbol, expectedTurn: Symbol): (r: Validity)
    ensures symbol != expectedTurn ==> r == Invalid(NotYourTurn)
    ensures symbol == expectedTurn && (index < 0 || index > 8) ==> r == Invalid(InvalidPosition)
    ensures symbol == expectedTurn && 0 <= index <= 8 && !CellIs(b, index, Blank) ==> r == Invalid(CellAlreadyOccupied)
    ensures symbol == expectedTurn && 0 <= index <= 8 && CellIs(b, index, Blank) && GetGameState(b, symbol).isGameOver
            ==> r == Invalid(GameAlreadyOver)
    ensures r == Valid <==> symbol == expectedTurn && 0 <= index <= 8 && CellIs(b, index, Blank) && !GetGameState(b, symbol).isGameOver
  {
    if symbol != expectedTurn then Invalid(NotYourTurn)
    else if index < 0 || index > 8 then Invalid(InvalidPosition)
    else if !CellIs(b, index, Blank) then Invalid(CellAlreadyOccupied)
    else if GetGameState(b, symbol).isGameOver then Invalid(GameAlreadyOver)
    else Valid
  }

  /** A move that passes validation can be applied, and it writes the mover's mark into the chosen cell only. */
  lemma ValidMoveApplies(b: Board, index: int, symbol: Symbol, expectedTurn: Symbol)
    requires IsValidMove(b, index, symbol, expectedTurn) == Valid
    ensures ApplyMove(b, index, symbol).Success?
    ensures ApplyMove(b, index, symbol).value == b[index := symbol]
    ensures !IsWinning(b, 'X') && !IsWinning(b, 'O')
  {
  }

  /**
   * "Game is already over" is only ever reported for a won board: the checked
   * cell is blank, so the board cannot be a draw.
   */
  lemma GameOverMeansWon(b: Board, index: int, symbol: Symbol, expectedTurn: Symbol)
    requires IsValidMove(b, index, symbol, expectedTurn) == Invalid(GameAlreadyOver)
    ensures IsWinning(b, 'X') || IsWinning(b, 'O')
  {
    assert b[index] == Blank;
    assert Blank in b;
  }

  predicate IsBlankCell(b: Board, i: int) {
    0 <= i <= 8 && CellIs(b, i, Blank)
  }

  /** The blank cells among indices 0 .. n-1, in ascending order. */
  function BlankCellsBelow(b: Board, n: int): (cells: seq<int>)
    requires 0 <= n <= 9
    ensures |cells| <= n
    ensures forall k | 0 <= k < |cells| :: 0 <= cells[k] < n && IsBlankCell(b, cells[k])
    decreases n
  {
    if n == 0 then []
    else BlankCellsBelow(b, n - 1) + (if CellIs(b, n - 1, Blank) then [n - 1] else [])
  }

  /** The value getEmptyCells returns: every index 0..8 holding '_', ascending. */
  function EmptyCells(b: Board): seq<int> {
    BlankCellsBelow(b, 9)
  }

  function EmptyCount(b: Board): nat {
    |EmptyCells(b)|
  }

  method GetEmptyCells(b: Board) returns (cells: seq<int>)
    ensures cells == EmptyCells(b)
  {
    cells := [];
    for i := 0 to 9
      invariant cells == BlankCellsBelow(b, i)
    {
      if i < |b| && b[i] == Blank {
        cells := cells + [i];
      }
    }
  }

  /** Every blank cell below `n` is listed. */
  lemma {:induction false} BlankCellsBelowComplete(b: Board, n: int, i: int)
    requires 0 <= i < n <= 9 && IsBlankCell(b, i)
    ensures i in BlankCellsBelow(b, n)
    decreases n
  {
    if i < n - 1 {
      BlankCellsBelowComplete(b, n - 1, i);
    }
  }

  /** The listed cells are strictly ascending. */
  lemma {:induction false} BlankCellsBelowAscending(b: Board, n: int, j: int, k: int)
    requires 0 <= n <= 9
    requires 0 <= j < k < |BlankCellsBelow(b, n)|
    ensures BlankCellsBelow(b, n)[j] < BlankCellsBelow(b, n)[k]
    decreases n
  {
    var init := BlankCellsBelow(b, n - 1);
    if k < |init| {
      BlankCellsBelowAscending(b, n - 1, j, k);
    }
  }

  /** getEmptyCells lists every blank cell of the board. */
  lemma EmptyCellsComplete(b: Board, i: int)
    requires IsBlankCell(b, i)
    ensures i in EmptyCells(b)
  {
    BlankCellsBelowComplete(b, 9, i);
  }

  /** getEmptyCells lists the blank cells in strictly increasing order. */
  lemma EmptyCellsOrdered(b: Board, i: int, j: int)
    requires 0 <= i < j < |EmptyCells(b)|
    ensures EmptyCells(b)[i] < EmptyCells(b)[j]
  {
    BlankCellsBelowAscending(b, 9, i, j);
  }

  lemma {:induction false} PlacingCountsBelow(b: Board, index: int, s: Symbol, n: int)
    requires IsBlankCell(b, index) && 0 <= n <= 9
    ensures |BlankCellsBelow(b[index := s], n)| == |BlankCellsBelow(b, n)| - (if index < n then 1 else 0)
    decreases n
  {
    if n > 0 {
      PlacingCountsBelow(b, index, s, n - 1);
    }
  }

  /** Playing a blank cell removes exactly one blank cell: the measure the game-tree search decreases. */
  lemma PlacingRemovesOneBlank(b: Board, index: int, s: Symbol)
    requires IsBlankCell(b, index)
    ensures EmptyCount(b[index := s]) == EmptyCount(b) - 1
  {
    PlacingCountsBelow(b, index, s, 9);
  }

  /** On a nine-cell board with no blank among 0..8 there is no '_' at all. */
  lemma NoEmptyCellsMeansFull(b: Board)
    requires |b| == 9 && EmptyCells(b) == []
    ensures Blank !in b
  {
    if Blank in b {
      var i :| 0 <= i < |b| && b[i] == Blank;
      EmptyCellsComplete(b, i);
    }
  }

  /** A nine-cell game that is not over always has a move left. */
  lemma UnfinishedGameHasMove(b: Board, t: Symbol)
    requires |b| == 9 && !GetGameState(b, t).isGameOver
    ensures EmptyCells(b) != []
  {
    if EmptyCells(b) == [] {
      NoEmptyCellsMeansFull(b);
    }
  }

  /** Math.floor(index / 3) and index % 3 with JavaScript's truncating remainder. */
  function IndexToCoords(index: int): Coords {
    // Dafny's / rounds down for a positive divisor, as Math.floor does.
    Coords(index / 3, if index >= 0 then index % 3 else -((-index) % 3))
  }

  function CoordsToIndex(row: int, col: int): int {
    row * 3 + col
  }

  lemma IndexCoordsRoundTrip(index: int)
    requires index >= 0
    ensures CoordsToIndex(IndexToCoords(index).row, IndexToCoords(index).col) == index
    ensures 0 <= IndexToCoords(index).col < 3
    ensures index <= 8 ==> 0 <= IndexToCoords(index).row < 3
  {
  }

  lemma CoordsIndexRoundTrip(row: int, col: int)
    requires row >= 0 && 0 <= col < 3
    ensures IndexToCoords(CoordsToIndex(row, col)) == Coords(row, col)
  {
  }

  /** For a negative index the two disagree: -1 maps to (-1, -1), which maps back to -4. */
  lemma NegativeIndexDoesNotRoundTrip()
    ensures IndexToCoords(-1) == Coords(-1, -1)
    ensures CoordsToIndex(-1, -1) == -4
  {
  }
}
