/** The client-side tic-tac-toe of src/static/js/tictactoe.js: one global game
    state holding a 3×3 board of strings ('' for an empty cell), whose turn it is
    (the human plays 'O', the server's AI plays 'X'), whether the game is over and
    the outcome ('player', 'ai' or 'draw'). The AI's move arrives from the server;
    its reply is a parameter here. */
module TicTacToeClient {
  import opened Common
  import TicTacToeGame

  /** The board as three rows of three cells. */
  type Grid = seq<seq<string>>

  predicate IsGrid(g: Grid) {
    |g| == 3 && forall r :: 0 <= r < 3 ==> |g[r]| == 3
  }

  const EmptyGrid: Grid := [["", "", ""], ["", "", ""], ["", "", ""]]

  predicate RowOf(g: Grid, r: nat, p: string)
    requires IsGrid(g) && r < 3
  {
    g[r][0] == p && g[r][1] == p && g[r][2] == p
  }

  predicate ColumnOf(g: Grid, c: nat, p: string)
    requires IsGrid(g) && c < 3
  {
    g[0][c] == p && g[1][c] == p && g[2][c] == p
  }

  /** Some row, some column or one of the two diagonals is entirely `p`. */
  predicate Wins(g: Grid, p: string)
    requires IsGrid(g)
  {
    || (exists r :: 0 <= r < 3 && RowOf(g, r, p))
    || (exists c :: 0 <= c < 3 && ColumnOf(g, c, p))
    || (g[0][0] == p && g[1][1] == p && g[2][2] == p)
    || (g[0][2] == p && g[1][1] == p && g[2][0] == p)
  }

  predicate Full(g: Grid)
    requires IsGrid(g)
  {
    forall r, c :: 0 <= r < 3 && 0 <= c < 3 ==> g[r][c] != ""
  }

  /** What `checkDraw` answers: no empty cell and no line for either mark. */
  predicate Drawn(g: Grid)
    requires IsGrid(g)
  {
    Full(g) && !Wins(g, "X") && !Wins(g, "O")
  }

  /** The rows laid end to end, as the nine-cell board of the TypeScript game. */
  function Flatten(g: Grid): (b: seq<string>)
    requires IsGrid(g)
    ensures |b| == 9
    ensures forall r, c :: 0 <= r < 3 && 0 <= c < 3 ==> b[3 * r + c] == g[r][c]
  {
    g[0] + g[1] + g[2]
  }

  /** The client's line test and the pattern table of the TypeScript game agree. */
  lemma WinsIsCheckWinner(g: Grid, p: string)
    requires IsGrid(g)
    ensures Wins(g, p) <==> TicTacToeGame.CheckWinner(Flatten(g), p)
  {
    var b := Flatten(g);
    TicTacToeGame.CheckWinnerIsLine(b, p);
    assert b[0] == g[0][0] && b[1] == g[0][1] && b[2] == g[0][2];
    assert b[3] == g[1][0] && b[4] == g[1][1] && b[5] == g[1][2];
    assert b[6] == g[2][0] && b[7] == g[2][1] && b[8] == g[2][2];
    if Wins(g, p) {
      if r :| 0 <= r < 3 && RowOf(g, r, p) {
        assert b[3 * r] == p && b[3 * r + 1] == p && b[3 * r + 2] == p;
      } else if c :| 0 <= c < 3 && ColumnOf(g, c, p) {
        assert b[c] == p && b[c + 3] == p && b[c + 6] == p;
      }
    }
    if TicTacToeGame.HasLine(b, p) {
      if r :| 0 <= r < 3 && b[3 * r] == p && b[3 * r + 1] == p && b[3 * r + 2] == p {
        assert RowOf(g, r, p);
      } else if c :| 0 <= c < 3 && b[c] == p && b[c + 3] == p && b[c + 6] == p {
        assert ColumnOf(g, c, p);
      }
    }
  }

  /** The client's draw and the TypeScript game's draw are the same condition. */
  lemma DrawnIsDrawnBoard(g: Grid)
    requires IsGrid(g)
    ensures Drawn(g) <==> TicTacToeGame.IsDrawnBoard(Flatten(g))
  {
    var b := Flatten(g);
    WinsIsCheckWinner(g, "X");
    WinsIsCheckWinner(g, "O");
    if "" in b {
      var i :| 0 <= i < 9 && b[i] == "";
      assert b[3 * (i / 3) + i % 3] == g[i / 3][i % 3];
    }
  }

  /** A new game has no line and is no draw. */
  lemma EmptyGridIsOpen(p: string)
    requires p != ""
    ensures IsGrid(EmptyGrid) && !Wins(EmptyGrid, p) && !Drawn(EmptyGrid)
  {
    assert !Full(EmptyGrid) by {
      assert EmptyGrid[0][0] == "";
    }
  }

  datatype Cell = Cell(row: nat, col: nat)

  function Index(x: Cell): nat {
    3 * x.row + x.col
  }

  /** The empty cells of row i before column j, left to right. */
  function RowEmpty(g: Grid, i: nat, j: nat): (cells: seq<Cell>)
    requires IsGrid(g) && i < 3 && j <= 3
    ensures forall x {:trigger x in cells} :: x in cells <==> x.row == i && x.col < j && g[i][x.col] == ""
    ensures forall a, b :: 0 <= a < b < |cells| ==> cells[a].col < cells[b].col
  {
    if j == 0 then []
    else
      var init := RowEmpty(g, i, j - 1);
      assert forall a :: 0 <= a < |init| ==> init[a].col < j - 1 by {
        forall a | 0 <= a < |init| ensures init[a].col < j - 1 {
          assert init[a] in init;
        }
      }
      init + (if g[i][j - 1] == "" then [Cell(i, j - 1)] else [])
  }

  /** The empty cells of the rows before row i, in row-major order. */
  function EmptyRows(g: Grid, i: nat): (cells: seq<Cell>)
    requires IsGrid(g) && i <= 3
    ensures forall x {:trigger x in cells} :: x in cells <==> x.row < i && x.col < 3 && g[x.row][x.col] == ""
    ensures forall a, b :: 0 <= a < b < |cells| ==> Index(cells[a]) < Index(cells[b])
  {
    if i == 0 then []
    else
      var init := EmptyRows(g, i - 1);
      var row := RowEmpty(g, i - 1, 3);
      assert forall a :: 0 <= a < |init| ==> init[a].row < i - 1 && init[a].col < 3 by {
        forall a | 0 <= a < |init| ensures init[a].row < i - 1 && init[a].col < 3 {
          assert init[a] in init;
        }
      }
      assert forall a :: 0 <= a < |row| ==> row[a].row == i - 1 by {
        forall a | 0 <= a < |row| ensures row[a].row == i - 1 {
          assert row[a] in row;
        }
      }
      init + row
  }

  /** One more cell of the row-major scan. */
  lemma ScanStep(g: Grid, i: nat, j: nat)
    requires IsGrid(g) && i < 3 && j < 3
    ensures EmptyRows(g, i) + RowEmpty(g, i, j + 1) ==
      EmptyRows(g, i) + RowEmpty(g, i, j) + (if g[i][j] == "" then [Cell(i, j)] else [])
  {
  }

  /** Grids with the same cells are the same grid. */
  lemma SameCells(g: Grid, h: Grid)
    requires IsGrid(g) && IsGrid(h)
    requires forall r, c :: 0 <= r < 3 && 0 <= c < 3 ==> g[r][c] == h[r][c]
    ensures g == h
  {
    forall r | 0 <= r < 3 ensures g[r] == h[r] {
      assert g[r][0] == h[r][0] && g[r][1] == h[r][1] && g[r][2] == h[r][2];
    }
  }

  /** `availableMoves` of `makeRandomMove`. */
  function EmptyCells(g: Grid): (cells: seq<Cell>)
    requires IsGrid(g)
    ensures forall x {:trigger x in cells} :: x in cells <==> x.row < 3 && x.col < 3 && g[x.row][x.col] == ""
    ensures forall a, b :: 0 <= a < b < |cells| ==> Index(cells[a]) < Index(cells[b])
  {
    EmptyRows(g, 3)
  }

  /** `availableMoves[Math.floor(Math.random() * availableMoves.length)]` for the
      draw `r`, or nothing on a full board. */
  function RandomCell(g: Grid, r: real): (m: Option<Cell>)
    requires IsGrid(g) && IsDraw(r)
    ensures m.None? <==> Full(g)
    ensures m.Some? ==> m.value.row < 3 && m.value.col < 3 && g[m.value.row][m.value.col] == ""
  {
    var cells := EmptyCells(g);
    NoEmptyCellIsFull(g);
    if cells == [] then None
    else
      var x := cells[Pick(r, |cells|)];
      assert x in cells;
      Some(x)
  }

  /** The scan finds nothing exactly on a full board. */
  lemma NoEmptyCellIsFull(g: Grid)
    requires IsGrid(g)
    ensures EmptyCells(g) == [] <==> Full(g)
  {
    var cells := EmptyCells(g);
    if cells == [] {
      forall r, c | 0 <= r < 3 && 0 <= c < 3 ensures g[r][c] != "" {
        assert Cell(r, c) !in cells;
      }
    } else {
      assert cells[0] in cells;
    }
  }

  /** What came back from the server for `makeAiMove`: a cell in a successful
      reply, a reply with `success` false, or a failed request. */
  datatype Reply = Moved(row: int, col: int) | Declined | RequestFailed

  /** The part of `gameState` the status check after a move may change. */
  datatype Status = Status(playerTurn: bool, gameOver: bool, winner: Option<string>)

  /** The status check after `mark` moved on `g`: a line ends the game with
      `outcome`, else a draw ends it, else the turn passes to `turnAfter`. */
  function Settled(g: Grid, mark: string, outcome: string, turnAfter: bool, st: Status): Status
    requires IsGrid(g)
  {
    if Wins(g, mark) then st.(gameOver := true, winner := Some(outcome))
    else if Drawn(g) then st.(gameOver := true, winner := Some("draw"))
    else st.(playerTurn := turnAfter)
  }

  /** A settled game is over exactly when the mark has a line or the board is
      drawn; its winner changes only then, and the turn changes only otherwise. */
  lemma SettledMeaning(g: Grid, mark: string, outcome: string, turnAfter: bool, st: Status)
    requires IsGrid(g)
    ensures var st' := Settled(g, mark, outcome, turnAfter, st);
      && (st'.gameOver <==> st.gameOver || Wins(g, mark) || Drawn(g))
      && (Wins(g, mark) || Drawn(g) ==> st'.playerTurn == st.playerTurn && st'.winner.Some?)
      && (st'.winner != st.winner ==> st'.winner == (if Wins(g, mark) then Some(outcome) else Some("draw")))
      && (!Wins(g, mark) && !Drawn(g) ==> st' == st.(playerTurn := turnAfter))
  {
  }

  class Client {
    var board: array2<string>
    var playerTurn: bool
    var gameOver: bool
    var winner: Option<string>
    var aiMode: int

    ghost predicate Valid()
      reads this
    {
      board.Length0 == 3 && board.Length1 == 3
    }

    /** The fields the status check may change. */
    function StatusOf(): Status
      reads this
    {
      Status(playerTurn, gameOver, winner)
    }

    /** The board's cells as a grid value. */
    ghost function Cells(): (g: Grid)
      requires Valid()
      reads this, board
      ensures IsGrid(g)
      ensures forall r, c :: 0 <= r < 3 && 0 <= c < 3 ==> g[r][c] == board[r, c]
    {
      [[board[0, 0], board[0, 1], board[0, 2]],
       [board[1, 0], board[1, 1], board[1, 2]],
       [board[2, 0], board[2, 1], board[2, 2]]]
    }

    /** The initial `gameState`. */
    constructor ()
      ensures Valid() && fresh(board) && Cells() == EmptyGrid
      ensures playerTurn && !gameOver && winner == None && aiMode == 0
    {
      board := new string[3, 3]((r, c) => "");
      playerTurn := true;
      gameOver := false;
      winner := None;
      aiMode := 0;
    }

    /** `checkWin`: rows, then columns, then the two diagonals. */
    method CheckWin(player: string) returns (w: bool)
      requires Valid()
      ensures w == Wins(Cells(), player)
    {
      for row := 0 to 3
        invariant forall r :: 0 <= r < row ==> !RowOf(Cells(), r, player)
      {
        if board[row, 0] == player && board[row, 1] == player && board[row, 2] == player {
          assert RowOf(Cells(), row, player);
          return true;
        }
      }
      for col := 0 to 3
        invariant forall c :: 0 <= c < col ==> !ColumnOf(Cells(), c, player)
      {
        if board[0, col] == player && board[1, col] == player && board[2, col] == player {
          assert ColumnOf(Cells(), col, player);
          return true;
        }
      }
      if board[0, 0] == player && board[1, 1] == player && board[2, 2] == player {
        return true;
      }
      if board[0, 2] == player && board[1, 1] == player && board[2, 0] == player {
        return true;
      }
      return false;
    }

    /** `checkDraw`: false at the first empty cell, else neither mark has a line. */
    method CheckDraw() returns (d: bool)
      requires Valid()
      ensures d == Drawn(Cells())
    {
      for row := 0 to 3
        invariant forall r, c :: 0 <= r < row && 0 <= c < 3 ==> board[r, c] != ""
      {
        for col := 0 to 3
          invariant forall r, c :: 0 <= r < row && 0 <= c < 3 ==> board[r, c] != ""
          invariant forall c :: 0 <= c < col ==> board[row, c] != ""
        {
          if board[row, col] == "" {
            assert Cells()[row][col] == "";
            return false;
          }
        }
      }
      var x := CheckWin("X");
      var o := CheckWin("O");
      return !x && !o;
    }

    /** `makeMove`: exactly the cell (row, col) receives `player`. */
    method MakeMove(row: nat, col: nat, player: string)
      requires Valid() && row < 3 && col < 3
      modifies board
      ensures Valid()
      ensures Cells() == old(Cells())[row := old(Cells())[row][col := player]]
    {
      ghost var before := Cells();
      board[row, col] := player;
      SameCells(Cells(), before[row := before[row][col := player]]);
    }

    /** The status check that follows every move: a line for `mark` ends the game
        with `outcome`, else a draw ends it, else the turn passes to `turnAfter`. */
    method Settle(mark: string, outcome: string, turnAfter: bool)
      requires Valid()
      modifies this
      ensures board == old(board) && aiMode == old(aiMode) && Valid()
      ensures Wins(Cells(), mark) ==>
        gameOver && winner == Some(outcome) && playerTurn == old(playerTurn)
      ensures !Wins(Cells(), mark) && Drawn(Cells()) ==>
        gameOver && winner == Some("draw") && playerTurn == old(playerTurn)
      ensures !Wins(Cells(), mark) && !Drawn(Cells()) ==>
        playerTurn == turnAfter && gameOver == old(gameOver) && winner == old(winner)
      ensures StatusOf() == Settled(Cells(), mark, outcome, turnAfter, old(StatusOf()))
    {
      var w := CheckWin(mark);
      if w {
        gameOver := true;
        winner := Some(outcome);
        return;
      }
      var d := CheckDraw();
      if d {
        gameOver := true;
        winner := Some("draw");
        return;
      }
      playerTurn := turnAfter;
    }

    /** `handleCellClick`: ignored when the game is over, when it is the AI's turn
        or when the cell is taken; otherwise 'O' is placed and the status checked. */
    method HandleCellClick(row: nat, col: nat)
      requires Valid() && row < 3 && col < 3
      modifies this, board
      ensures Valid() && board == old(board) && aiMode == old(aiMode)
      ensures old(gameOver) || !old(playerTurn) || old(board[row, col]) != "" ==>
        unchanged(this) && Cells() == old(Cells())
      ensures !old(gameOver) && old(playerTurn) && old(board[row, col]) == "" ==>
        && Cells() == old(Cells())[row := old(Cells())[row][col := "O"]]
        && (Wins(Cells(), "O") ==> gameOver && winner == Some("player"))
        && (!Wins(Cells(), "O") && Drawn(Cells()) ==> gameOver && winner == Some("draw"))
        && (!Wins(Cells(), "O") && !Drawn(Cells()) ==> !playerTurn && !gameOver && winner == old(winner))
    {
      if gameOver || !playerTurn {
        return;
      }
      if board[row, col] != "" {
        return;
      }
      MakeMove(row, col, "O");
      Settle("O", "player", false);
    }

    /** `makeRandomMove`: 'X' on a drawn empty cell, then the status check; a full
        board is left alone. */
    method MakeRandomMove(r: real)
      requires Valid() && IsDraw(r)
      modifies this, board
      ensures Valid() && board == old(board) && aiMode == old(aiMode)
      ensures var m := RandomCell(old(Cells()), r);
        if m.None? then unchanged(this) && Cells() == old(Cells())
        else
          && Cells() == old(Cells())[m.value.row := old(Cells())[m.value.row][m.value.col := "X"]]
          && (Wins(Cells(), "X") ==> gameOver && winner == Some("ai"))
          && (!Wins(Cells(), "X") && Drawn(Cells()) ==> gameOver && winner == Some("draw"))
          && (!Wins(Cells(), "X") && !Drawn(Cells()) ==> playerTurn && gameOver == old(gameOver) && winner == old(winner))
          && StatusOf() == Settled(Cells(), "X", "ai", true, old(StatusOf()))
    {
      var availableMoves := CollectEmptyCells();
      if |availableMoves| > 0 {
        var randomMove := availableMoves[Pick(r, |availableMoves|)];
        assert randomMove in availableMoves;
        MakeMove(randomMove.row, randomMove.col, "X");
        Settle("X", "ai", true);
      }
    }

    /** The nested loop of `makeRandomMove` that lists the empty cells. */
    method CollectEmptyCells() returns (cells: seq<Cell>)
      requires Valid()
      ensures cells == EmptyCells(Cells())
    {
      ghost var g := Cells();
      cells := [];
      for i := 0 to 3
        invariant cells == EmptyRows(g, i)
      {
        for j := 0 to 3
          invariant cells == EmptyRows(g, i) + RowEmpty(g, i, j)
        {
          ScanStep(g, i, j);
          if board[i, j] == "" {
            cells := cells + [Cell(i, j)];
          }
        }
      }
    }

    /** The `makeAiMove` callback with the server's reply and the draw its failure
        path needs. A row outside the board makes the write throw, which lands in
        the failure path; a column outside it writes no cell of the board. */
    method AIMove(reply: Reply, r: real)
      requires Valid() && IsDraw(r)
      modifies this, board
      ensures Valid() && board == old(board) && aiMode == old(aiMode)
      ensures old(gameOver) || reply.Declined? ==> unchanged(this) && Cells() == old(Cells())
      ensures !old(gameOver) && reply.Moved? && 0 <= reply.row < 3 && 0 <= reply.col < 3 ==>
        && Cells() == old(Cells())[reply.row := old(Cells())[reply.row][reply.col := "X"]]
        && (Wins(Cells(), "X") ==> gameOver && winner == Some("ai"))
        && (!Wins(Cells(), "X") && Drawn(Cells()) ==> gameOver && winner == Some("draw"))
        && (!Wins(Cells(), "X") && !Drawn(Cells()) ==> playerTurn && !gameOver && winner == old(winner))
      ensures !old(gameOver) && reply.Moved? && 0 <= reply.row < 3 && 0 <= reply.col < 3 ==>
        StatusOf() == Settled(Cells(), "X", "ai", true, old(StatusOf()))
      ensures !old(gameOver) && reply.Moved? && 0 <= reply.row < 3 && !(0 <= reply.col < 3) ==>
        Cells() == old(Cells()) && StatusOf() == Settled(Cells(), "X", "ai", true, old(StatusOf()))
      ensures !old(gameOver) && (reply.RequestFailed? || (reply.Moved? && !(0 <= reply.row < 3))) ==>
        var m := RandomCell(old(Cells()), r);
        && (m.None? ==> unchanged(this) && Cells() == old(Cells()))
        && (m.Some? ==>
              && Cells() == old(Cells())[m.value.row := old(Cells())[m.value.row][m.value.col := "X"]]
              && StatusOf() == Settled(Cells(), "X", "ai", true, old(StatusOf())))
    {
      if gameOver {
        return;
      }
      match reply
      case Declined =>
      case RequestFailed =>
        MakeRandomMove(r);
      case Moved(row, col) =>
        if !(0 <= row < 3) {
          MakeRandomMove(r);
        } else {
          if 0 <= col < 3 {
            MakeMove(row, col, "X");
          }
          Settle("X", "ai", true);
        }
    }

    /** `startNewGame`: a new empty board, the human to move, no outcome. */
    method StartNewGame()
      modifies this
      ensures Valid() && fresh(board) && Cells() == EmptyGrid
      ensures playerTurn && !gameOver && winner == None && aiMode == old(aiMode)
    {
      board := new string[3, 3]((r, c) => "");
      gameOver := false;
      winner := None;
      playerTurn := true;
    }
  }
}
