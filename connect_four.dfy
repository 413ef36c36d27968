/** The browser Connect Four of src/static/js/connect_four.ts: a 6×7 board of
    strings ('' empty, else 'red' or 'yellow'), row 0 at the top, discs dropping
    to the lowest empty row; a four-in-a-row test through a cell, the status check
    after every move, a try-and-undo AI column choice and the win/loss/draw
    counters. DOM updates, local storage and the AI's 500 ms delay are left out. */
module ConnectFourGame {
  import opened Common

  const Rows := 6
  const Cols := 7

  /** The board as six rows of seven cells. */
  type Grid = seq<seq<string>>

  predicate IsGrid(g: Grid) {
    |g| == Rows && forall r :: 0 <= r < Rows ==> |g[r]| == Cols
  }

  predicate IsColor(p: string) {
    p == "red" || p == "yellow"
  }

  function Other(p: string): string {
    if p == "red" then "yellow" else "red"
  }

  /** Grids with the same cells are the same grid. */
  lemma SameCells(g: Grid, h: Grid)
    requires IsGrid(g) && IsGrid(h)
    requires forall r, c :: 0 <= r < Rows && 0 <= c < Cols ==> g[r][c] == h[r][c]
    ensures g == h
  {
    forall r | 0 <= r < Rows ensures g[r] == h[r] {
      assert forall c :: 0 <= c < Cols ==> g[r][c] == h[r][c];
    }
  }

  /** The grid with `p` written at (row, col). */
  function Put(g: Grid, row: nat, col: nat, p: string): (h: Grid)
    requires IsGrid(g) && row < Rows && col < Cols
    ensures IsGrid(h) && h[row][col] == p
    ensures forall r, c :: 0 <= r < Rows && 0 <= c < Cols && (r != row || c != col) ==> h[r][c] == g[r][c]
  {
    g[row := g[row][col := p]]
  }

  // ---------------------------------------------------------------------------
  // Dropping a disc

  /** The lowest empty row of a column at or above `top`, scanning upwards, or -1. */
  function LowestFrom(g: Grid, col: nat, top: int): (r: int)
    requires IsGrid(g) && col < Cols && -1 <= top < Rows
    ensures -1 <= r <= top
    ensures r == -1 <==> forall rr :: 0 <= rr <= top ==> g[rr][col] != ""
    ensures r != -1 ==> g[r][col] == "" && forall rr :: r < rr <= top ==> g[rr][col] != ""
    decreases top + 1
  {
    if top == -1 then -1
    else if g[top][col] == "" then top
    else LowestFrom(g, col, top - 1)
  }

  /** `getLowestEmptyRow`: -1 for a full column, else the empty row with every row
      below it occupied. */
  function LowestEmptyRow(g: Grid, col: nat): (r: int)
    requires IsGrid(g) && col < Cols
    ensures -1 <= r < Rows
    ensures r == -1 <==> forall rr :: 0 <= rr < Rows ==> g[rr][col] != ""
    ensures r != -1 ==> g[r][col] == "" && forall rr :: r < rr < Rows ==> g[rr][col] != ""
  {
    LowestFrom(g, col, Rows - 1)
  }

  /** The lowest empty row is the only empty row with no empty row beneath it. */
  lemma LowestEmptyRowUnique(g: Grid, col: nat, r: nat)
    requires IsGrid(g) && col < Cols && r < Rows
    requires g[r][col] == "" && forall rr :: r < rr < Rows ==> g[rr][col] != ""
    ensures LowestEmptyRow(g, col) == r
  {
  }

  /** Filling the lowest empty row of a column lifts it by one row. */
  lemma DropFillsColumn(g: Grid, col: nat, p: string)
    requires IsGrid(g) && col < Cols && LowestEmptyRow(g, col) != -1 && p != ""
    ensures var r := LowestEmptyRow(g, col);
      LowestEmptyRow(Put(g, r, col, p), col) == (if r == 0 then -1 else LowestFrom(g, col, r - 1))
  {
    var r := LowestEmptyRow(g, col);
    var h := Put(g, r, col, p);
    if r == 0 {
      assert forall rr :: 0 <= rr < Rows ==> h[rr][col] != "";
    } else {
      var l := LowestFrom(g, col, r - 1);
      if l == -1 {
        assert forall rr :: 0 <= rr < Rows ==> h[rr][col] != "";
      } else {
        LowestEmptyRowUnique(h, col, l);
      }
    }
  }

  // ---------------------------------------------------------------------------
  // Four in a row

  /** Entries k to k + 3 of `s` are `p`. */
  predicate RunAt(s: seq<string>, k: int, p: string) {
    0 <= k && k + 4 <= |s| && s[k] == p && s[k + 1] == p && s[k + 2] == p && s[k + 3] == p
  }

  /** Four consecutive entries of `s` are `p`. */
  predicate HasRun4(s: seq<string>, p: string) {
    exists k :: 0 <= k < |s| && RunAt(s, k, p)
  }

  /** The number of trailing entries equal to `p`: the running `count`. */
  function TrailingRun(s: seq<string>, p: string): (n: nat)
    ensures n <= |s|
  {
    if s == [] || s[|s| - 1] != p then 0 else TrailingRun(s[..|s| - 1], p) + 1
  }

  /** Four trailing entries are a run of four. */
  lemma LongTrailIsRun(s: seq<string>, p: string)
    requires TrailingRun(s, p) >= 4
    ensures HasRun4(s, p)
  {
    var n := |s|;
    var s1 := s[..n - 1];
    var s2 := s1[..n - 2];
    var s3 := s2[..n - 3];
    assert TrailingRun(s1, p) >= 3;
    assert TrailingRun(s2, p) >= 2;
    assert TrailingRun(s3, p) >= 1;
    assert RunAt(s, n - 4, p);
  }

  /** A run of four at the very end is a trailing run of at least four. */
  lemma TrailOfFour(s: seq<string>, p: string)
    requires RunAt(s, |s| - 4, p)
    ensures TrailingRun(s, p) >= 4
  {
    var n := |s|;
    var s1 := s[..n - 1];
    var s2 := s1[..n - 2];
    var s3 := s2[..n - 3];
    assert s1[n - 2] == p && s2[n - 3] == p && s3[n - 4] == p;
    assert TrailingRun(s3, p) >= 1;
    assert TrailingRun(s2, p) >= 2;
    assert TrailingRun(s1, p) >= 3;
  }

  /** One more entry: the count goes up on `p`, back to 0 otherwise, and a run of
      four appears only as a trailing run. */
  lemma RunStep(s: seq<string>, x: string, p: string)
    requires !HasRun4(s, p)
    ensures TrailingRun(s + [x], p) == if x == p then TrailingRun(s, p) + 1 else 0
    ensures HasRun4(s + [x], p) <==> TrailingRun(s + [x], p) >= 4
  {
    var t := s + [x];
    assert t[..|t| - 1] == s;
    if HasRun4(t, p) {
      var k :| 0 <= k < |t| && RunAt(t, k, p);
      if k + 4 < |t| {
        assert t[k] == s[k] && t[k + 1] == s[k + 1] && t[k + 2] == s[k + 2] && t[k + 3] == s[k + 3];
        assert RunAt(s, k, p);
        assert false;
      }
      assert k == |t| - 4;
      TrailOfFour(t, p);
    } else if TrailingRun(t, p) >= 4 {
      LongTrailIsRun(t, p);
    }
  }

  /** The cells of column `col`, top to bottom. */
  function ColumnLine(g: Grid, col: nat): (s: seq<string>)
    requires IsGrid(g) && col < Cols
    ensures |s| == Rows && forall r :: 0 <= r < Rows ==> s[r] == g[r][col]
  {
    seq(Rows, r requires 0 <= r < Rows => g[r][col])
  }

  /** The on-board cells of a diagonal walk: step i visits row r0 - i (rising) or
      r0 + i (falling) and column c0 + i; the first n steps, off-board ones skipped. */
  function DiagonalUpTo(g: Grid, r0: int, c0: int, rising: bool, n: nat): (s: seq<string>)
    requires IsGrid(g)
  {
    if n == 0 then []
    else
      var r := if rising then r0 - (n - 1) else r0 + (n - 1);
      var c := c0 + (n - 1);
      DiagonalUpTo(g, r0, c0, rising, n - 1) + (if 0 <= r < Rows && 0 <= c < Cols then [g[r][c]] else [])
  }

  /** Step i of a diagonal walk adds the cell (r, c) when it is on the board. */
  lemma DiagonalStep(g: Grid, r0: int, c0: int, rising: bool, i: nat, r: int, c: int)
    requires IsGrid(g) && r == (if rising then r0 - i else r0 + i) && c == c0 + i
    ensures 0 <= r < Rows && 0 <= c < Cols ==>
      DiagonalUpTo(g, r0, c0, rising, i + 1) == DiagonalUpTo(g, r0, c0, rising, i) + [g[r][c]]
    ensures !(0 <= r < Rows && 0 <= c < Cols) ==>
      DiagonalUpTo(g, r0, c0, rising, i + 1) == DiagonalUpTo(g, r0, c0, rising, i)
  {
  }

  /** `checkWinner(row, col, player)`: four in a row of `player` along row `row`,
      column `col`, or one of the two diagonals through (row, col). */
  predicate WinsThrough(g: Grid, row: nat, col: nat, p: string)
    requires IsGrid(g) && row < Rows && col < Cols
  {
    || HasRun4(g[row], p)
    || HasRun4(ColumnLine(g, col), p)
    || HasRun4(DiagonalUpTo(g, row + 3, col - 3, true, 7), p)
    || HasRun4(DiagonalUpTo(g, row - 3, col - 3, false, 7), p)
  }

  /** Four discs side by side in the row through (row, col) are found. */
  lemma RowOfFourWins(g: Grid, row: nat, col: nat, p: string, c0: nat)
    requires IsGrid(g) && row < Rows && col < Cols && c0 + 4 <= Cols
    requires g[row][c0] == p && g[row][c0 + 1] == p && g[row][c0 + 2] == p && g[row][c0 + 3] == p
    ensures WinsThrough(g, row, col, p)
  {
    assert RunAt(g[row], c0, p);
  }

  /** Four discs stacked in the column through (row, col) are found. */
  lemma ColumnOfFourWins(g: Grid, row: nat, col: nat, p: string, r0: nat)
    requires IsGrid(g) && row < Rows && col < Cols && r0 + 4 <= Rows
    requires g[r0][col] == p && g[r0 + 1][col] == p && g[r0 + 2][col] == p && g[r0 + 3][col] == p
    ensures WinsThrough(g, row, col, p)
  {
    var s := ColumnLine(g, col);
    assert s[r0] == p && s[r0 + 1] == p && s[r0 + 2] == p && s[r0 + 3] == p;
    assert RunAt(s, r0, p);
  }

  // ---------------------------------------------------------------------------
  // The status check

  datatype Cell = Cell(row: nat, col: nat)

  /** A disc with four in a row through its cell, as `checkGameStatus` tests it. */
  predicate Winning(g: Grid, x: Cell)
    requires IsGrid(g)
  {
    x.row < Rows && x.col < Cols && g[x.row][x.col] != "" && WinsThrough(g, x.row, x.col, g[x.row][x.col])
  }

  /** Row-major order, the order of the scan. */
  predicate Before(y: Cell, x: Cell) {
    y.row < x.row || (y.row == x.row && y.col < x.col)
  }

  /** The first winning cell of the scan. */
  ghost predicate FirstWinning(g: Grid, x: Cell)
    requires IsGrid(g)
  {
    Winning(g, x) && forall y: Cell :: Before(y, x) ==> !Winning(g, y)
  }

  /** The scan's first winning cell is determined by the board. */
  lemma FirstWinningUnique(g: Grid, x: Cell, y: Cell)
    requires IsGrid(g) && FirstWinning(g, x) && FirstWinning(g, y)
    ensures x == y
  {
  }

  predicate Full(g: Grid)
    requires IsGrid(g)
  {
    forall r, c :: 0 <= r < Rows && 0 <= c < Cols ==> g[r][c] != ""
  }

  /** A disc that completes four in a row through its own cell makes the board
      one the status check ends. */
  lemma WinningDropIsSeen(g: Grid, row: nat, col: nat, p: string)
    requires IsGrid(g) && row < Rows && col < Cols && p != ""
    requires WinsThrough(Put(g, row, col, p), row, col, p)
    ensures Winning(Put(g, row, col, p), Cell(row, col))
  {
  }

  // ---------------------------------------------------------------------------
  // The AI's choice of column

  /** Dropping `p` into `col` wins on the spot. */
  predicate WinningDrop(g: Grid, p: string, col: nat)
    requires IsGrid(g) && col < Cols
  {
    var r := LowestEmptyRow(g, col);
    r != -1 && WinsThrough(Put(g, r, col, p), r, col, p)
  }

  /** The first column from `col` on where dropping `p` wins. */
  function FirstWinningDrop(g: Grid, p: string, col: nat): (m: Option<nat>)
    requires IsGrid(g) && col <= Cols
    ensures m.Some? ==> col <= m.value < Cols && WinningDrop(g, p, m.value)
    decreases Cols - col
  {
    if col == Cols then None
    else if WinningDrop(g, p, col) then Some(col)
    else FirstWinningDrop(g, p, col + 1)
  }

  /** The column found is the leftmost winning drop, and none is found only when
      no column from `col` on wins. */
  lemma {:induction false} FirstWinningDropIsFirst(g: Grid, p: string, col: nat)
    requires IsGrid(g) && col <= Cols
    ensures var m := FirstWinningDrop(g, p, col);
      && (m.Some? ==> forall c: nat :: col <= c < m.value ==> !WinningDrop(g, p, c))
      && (m.None? <==> forall c: nat :: col <= c < Cols ==> !WinningDrop(g, p, c))
    decreases Cols - col
  {
    if col < Cols && !WinningDrop(g, p, col) {
      FirstWinningDropIsFirst(g, p, col + 1);
    }
  }

  /** The columns that are not full, left to right. */
  function ValidColumnsUpTo(g: Grid, n: nat): (cols: seq<nat>)
    requires IsGrid(g) && n <= Cols
    ensures forall c: nat {:trigger c in cols} :: c in cols <==> c < n && LowestEmptyRow(g, c) != -1
    ensures forall a, b :: 0 <= a < b < |cols| ==> cols[a] < cols[b]
  {
    if n == 0 then []
    else
      var init := ValidColumnsUpTo(g, n - 1);
      assert forall a :: 0 <= a < |init| ==> init[a] < n - 1 by {
        forall a | 0 <= a < |init| ensures init[a] < n - 1 {
          assert init[a] in init;
        }
      }
      init + (if LowestEmptyRow(g, n - 1) != -1 then [n - 1] else [])
  }

  /** `getRandomValidColumn` for the draw `r`: `validColumns[Math.floor(r * n)]`,
      which is undefined (None) when every column is full. */
  function RandomValidColumn(g: Grid, r: real): (m: Option<nat>)
    requires IsGrid(g) && IsDraw(r)
    ensures m.None? <==> Full(g)
    ensures m.Some? ==> m.value < Cols && LowestEmptyRow(g, m.value) != -1
  {
    var cols := ValidColumnsUpTo(g, Cols);
    NoValidColumnIsFull(g);
    if cols == [] then None
    else
      var c := cols[Pick(r, |cols|)];
      assert c in cols;
      Some(c)
  }

  lemma NoValidColumnIsFull(g: Grid)
    requires IsGrid(g)
    ensures ValidColumnsUpTo(g, Cols) == [] <==> Full(g)
  {
    var cols := ValidColumnsUpTo(g, Cols);
    if cols == [] {
      forall r, c | 0 <= r < Rows && 0 <= c < Cols ensures g[r][c] != "" {
        assert c !in cols;
      }
    } else {
      var c := cols[0];
      assert c in cols;
      var r := LowestEmptyRow(g, c);
      assert g[r][c] == "";
    }
  }

  /** `findBestColumn`: a winning drop for `p`, else a drop that blocks the
      opponent's win, else the centre column when it has room, else a random
      valid column. */
  function BestColumn(g: Grid, p: string, r: real): (m: Option<nat>)
    requires IsGrid(g) && IsDraw(r)
    ensures m.Some? ==> m.value < Cols && LowestEmptyRow(g, m.value) != -1
    ensures m.None? ==> Full(g)
  {
    var win := FirstWinningDrop(g, p, 0);
    var block := FirstWinningDrop(g, Other(p), 0);
    if win.Some? then win
    else if block.Some? then block
    else if LowestEmptyRow(g, 3) != -1 then Some(3)
    else RandomValidColumn(g, r)
  }

  /** A winning drop is taken, the leftmost one. */
  lemma BestColumnTakesWin(g: Grid, p: string, r: real, c: nat)
    requires IsGrid(g) && IsDraw(r) && c < Cols && WinningDrop(g, p, c)
    ensures BestColumn(g, p, r).Some? && WinningDrop(g, p, BestColumn(g, p, r).value)
    ensures BestColumn(g, p, r).value <= c
  {
    FirstWinningDropIsFirst(g, p, 0);
  }

  /** Without a winning drop, the leftmost drop that would let the opponent win
      is taken. */
  lemma BestColumnBlocks(g: Grid, p: string, r: real, c: nat)
    requires IsGrid(g) && IsDraw(r) && c < Cols && WinningDrop(g, Other(p), c)
    requires forall k: nat :: k < Cols ==> !WinningDrop(g, p, k)
    ensures BestColumn(g, p, r).Some? && WinningDrop(g, Other(p), BestColumn(g, p, r).value)
    ensures BestColumn(g, p, r).value <= c
  {
    FirstWinningDropIsFirst(g, p, 0);
    FirstWinningDropIsFirst(g, Other(p), 0);
  }

  /** With no win to take or block, the centre column is taken when it has room. */
  lemma BestColumnCentre(g: Grid, p: string, r: real)
    requires IsGrid(g) && IsDraw(r) && LowestEmptyRow(g, 3) != -1
    requires forall k: nat :: k < Cols ==> !WinningDrop(g, p, k) && !WinningDrop(g, Other(p), k)
    ensures BestColumn(g, p, r) == Some(3)
  {
    FirstWinningDropIsFirst(g, p, 0);
    FirstWinningDropIsFirst(g, Other(p), 0);
  }

  datatype Difficulty = Easy | Medium | Hard

  /** The random draws of one AI move: the medium coin and the random column. */
  datatype Draws = Draws(coin: real, pick: real)

  predicate ValidDraws(d: Draws) {
    IsDraw(d.coin) && IsDraw(d.pick)
  }

  /** `calculateBestMove`; None is the undefined of an empty `validColumns`. */
  function BestMove(g: Grid, p: string, difficulty: Difficulty, d: Draws): (m: Option<nat>)
    requires IsGrid(g) && ValidDraws(d)
    ensures m.Some? ==> m.value < Cols && LowestEmptyRow(g, m.value) != -1
    ensures m.None? ==> Full(g)
  {
    match difficulty
    case Easy => RandomValidColumn(g, d.pick)
    case Medium => if d.coin < 0.5 then RandomValidColumn(g, d.pick) else BestColumn(g, p, d.pick)
    case Hard => BestColumn(g, p, d.pick)
  }

  /** The result `checkGameStatus` finds on a grid, if any: the colour of the
      first disc in row-major order with four in a row through it, else a draw
      on a full grid. */
  ghost function Status(g: Grid): Option<string>
    requires IsGrid(g)
  {
    if exists x: Cell :: Winning(g, x) then
      var x: Cell :| Winning(g, x);
      FirstWinningExists(g, x);
      var y: Cell :| FirstWinning(g, y);
      Some(g[y.row][y.col])
    else if Full(g) then Some("draw")
    else None
  }

  /** The first winning disc decides the status. */
  lemma StatusOfFirst(g: Grid, x: Cell)
    requires IsGrid(g) && FirstWinning(g, x)
    ensures Status(g) == Some(g[x.row][x.col])
  {
    var y: Cell :| Winning(g, y);
    FirstWinningExists(g, y);
    forall z: Cell | FirstWinning(g, z)
      ensures z == x
    {
      FirstWinningUnique(g, x, z);
    }
  }

  /** The saved counters. */
  datatype Tally = Tally(wins: nat, losses: nat, draws: nat)

  /** The part of the game state that `checkGameStatus` may change. */
  datatype Outcome = Outcome(isGameOver: bool, winner: Option<string>, tally: Tally)

  /** `endGame(result)` on the counters, with `mover` the colour still to move. */
  function Counted(t: Tally, result: string, mover: string): Tally {
    if result == "draw" then t.(draws := t.draws + 1)
    else if result == mover then t.(wins := t.wins + 1)
    else t.(losses := t.losses + 1)
  }

  /** `checkGameStatus` on `g` with `mover` to move, from the outcome `o`. */
  ghost function Settle(g: Grid, mover: string, o: Outcome): Outcome
    requires IsGrid(g)
  {
    match Status(g)
    case None => o
    case Some(result) => Outcome(true, Some(result), Counted(o.tally, result, mover))
  }

  /** The status check ends the game exactly on four in a row or a full grid; the
      first winning disc names the winner, a full grid without one is a draw,
      exactly one counter goes up when the game ends, and nothing changes
      otherwise. */
  lemma SettleMeaning(g: Grid, mover: string, o: Outcome)
    requires IsGrid(g)
    ensures var o' := Settle(g, mover, o);
      && (o'.isGameOver <==> o.isGameOver || (exists x: Cell :: Winning(g, x)) || Full(g))
      && (forall x: Cell :: FirstWinning(g, x) ==> o'.winner == Some(g[x.row][x.col]))
      && ((forall x: Cell :: !Winning(g, x)) && Full(g) ==> o'.winner == Some("draw") && o'.tally == o.tally.(draws := o.tally.draws + 1))
      && (Status(g).Some? ==> o'.tally.wins + o'.tally.losses + o'.tally.draws == o.tally.wins + o.tally.losses + o.tally.draws + 1)
      && ((forall x: Cell :: !Winning(g, x)) && !Full(g) ==> o' == o)
  {
    forall x: Cell | FirstWinning(g, x)
      ensures Settle(g, mover, o).winner == Some(g[x.row][x.col])
    {
      StatusOfFirst(g, x);
    }
  }

  // ---------------------------------------------------------------------------
  // The game

  class ConnectFour {
    var board: array2<string>
    var currentPlayer: string
    var winner: Option<string>
    var isGameOver: bool
    var difficulty: Difficulty
    var wins: nat
    var losses: nat
    var draws: nat
    /** How many rows carry a disc written under the column `undefined` by an AI
        move on a full board; such a write lands outside the cells. */
    var strayMarks: nat

    /** The fields `checkGameStatus` may change. */
    function OutcomeOf(): Outcome
      reads this
    {
      Outcome(isGameOver, winner, Tally(wins, losses, draws))
    }

    ghost predicate Valid()
      reads this
    {
      board.Length0 == Rows && board.Length1 == Cols && IsColor(currentPlayer)
    }

    ghost function Cells(): (g: Grid)
      requires Valid()
      reads this, board
      ensures IsGrid(g)
      ensures forall r, c :: 0 <= r < Rows && 0 <= c < Cols ==> g[r][c] == board[r, c]
    {
      var b := board;
      seq(Rows, r requires 0 <= r < Rows reads b => seq(Cols, c requires 0 <= c < Cols reads b => b[r, c]))
    }

    constructor ()
      ensures Valid() && fresh(board)
      ensures forall r, c :: 0 <= r < Rows && 0 <= c < Cols ==> board[r, c] == ""
      ensures currentPlayer == "red" && winner == None && !isGameOver && difficulty == Medium
      ensures wins == 0 && losses == 0 && draws == 0 && strayMarks == 0
    {
      board := new string[Rows, Cols]((r, c) => "");
      currentPlayer := "red";
      winner := None;
      isGameOver := false;
      difficulty := Medium;
      wins, losses, draws := 0, 0, 0;
      strayMarks := 0;
    }

    /** `getLowestEmptyRow`: scan the column from the bottom row up. */
    method GetLowestEmptyRow(col: nat) returns (row: int)
      requires Valid() && col < Cols
      ensures row == LowestEmptyRow(Cells(), col)
    {
      row := Rows - 1;
      while row >= 0
        invariant -1 <= row < Rows
        invariant forall r :: row < r < Rows ==> board[r, col] != ""
        decreases row + 1
      {
        if board[row, col] == "" {
          LowestEmptyRowUnique(Cells(), col, row);
          return;
        }
        row := row - 1;
      }
    }

    /** `checkWinner`: four in a row of `player` along row `row`, column `col`
        or a diagonal through (row, col), checked in that order. */
    method CheckWinner(row: nat, col: nat, player: string) returns (w: bool)
      requires Valid() && row < Rows && col < Cols
      ensures w == WinsThrough(Cells(), row, col, player)
    {
      w := RowHasFour(row, player);
      if w {
        return;
      }
      w := ColumnHasFour(col, player);
      if w {
        return;
      }
      w := DiagonalHasFour(row + 3, col - 3, true, player);
      if w {
        return;
      }
      w := DiagonalHasFour(row - 3, col - 3, false, player);
    }

    /** The horizontal pass of `checkWinner`: a running count along the row. */
    method RowHasFour(row: nat, player: string) returns (w: bool)
      requires Valid() && row < Rows
      ensures w == HasRun4(Cells()[row], player)
    {
      ghost var line := Cells()[row];
      var count := 0;
      for c := 0 to Cols
        invariant !HasRun4(line[..c], player) && count == TrailingRun(line[..c], player) && count < 4
      {
        assert line[..c + 1] == line[..c] + [board[row, c]];
        RunStep(line[..c], board[row, c], player);
        if board[row, c] == player {
          count := count + 1;
          if count == 4 {
            HasRun4Prefix(line, c + 1, player);
            return true;
          }
        } else {
          count := 0;
        }
      }
      assert line[..Cols] == line;
      return false;
    }

    /** The vertical pass of `checkWinner`: a running count down the column. */
    method ColumnHasFour(col: nat, player: string) returns (w: bool)
      requires Valid() && col < Cols
      ensures w == HasRun4(ColumnLine(Cells(), col), player)
    {
      ghost var line := ColumnLine(Cells(), col);
      var count := 0;
      for r := 0 to Rows
        invariant !HasRun4(line[..r], player) && count == TrailingRun(line[..r], player) && count < 4
      {
        assert line[..r + 1] == line[..r] + [board[r, col]];
        RunStep(line[..r], board[r, col], player);
        if board[r, col] == player {
          count := count + 1;
          if count == 4 {
            HasRun4Prefix(line, r + 1, player);
            return true;
          }
        } else {
          count := 0;
        }
      }
      assert line[..Rows] == line;
      return false;
    }

    /** The two diagonal passes of `checkWinner`: seven steps from (r0, c0), the
        row going up (rising) or down and the column going right; a step off the
        board leaves the count alone. */
    method DiagonalHasFour(r0: int, c0: int, rising: bool, player: string) returns (w: bool)
      requires Valid()
      ensures w == HasRun4(DiagonalUpTo(Cells(), r0, c0, rising, 7), player)
    {
      ghost var g := Cells();
      ghost var seen: seq<string> := [];
      var count := 0;
      var r := r0;
      var c := c0;
      for i := 0 to 7
        invariant r == (if rising then r0 - i else r0 + i) && c == c0 + i
        invariant seen == DiagonalUpTo(g, r0, c0, rising, i)
        invariant !HasRun4(seen, player) && count == TrailingRun(seen, player) && count < 4
      {
        DiagonalStep(g, r0, c0, rising, i, r, c);
        if r >= 0 && r < Rows && c >= 0 && c < Cols {
          RunStep(seen, board[r, c], player);
          seen := seen + [board[r, c]];
          if board[r, c] == player {
            count := count + 1;
            if count == 4 {
              HasRun4Extends(g, r0, c0, rising, i + 1, 7, player);
              return true;
            }
          } else {
            count := 0;
          }
        }
        r := if rising then r - 1 else r + 1;
        c := c + 1;
      }
      return false;
    }

    /** `endGame`: a colour counts as a win when it is the colour still to move,
        which is the colour that just played, because the turn passes only after
        the status check. */
    method EndGame(result: string)
      requires Valid()
      modifies this
      ensures Valid() && isGameOver && winner == Some(result)
      ensures board == old(board) && currentPlayer == old(currentPlayer) && difficulty == old(difficulty)
      ensures strayMarks == old(strayMarks)
      ensures result == "draw" ==> draws == old(draws) + 1 && wins == old(wins) && losses == old(losses)
      ensures result != "draw" && result == currentPlayer ==> wins == old(wins) + 1 && draws == old(draws) && losses == old(losses)
      ensures result != "draw" && result != currentPlayer ==> losses == old(losses) + 1 && draws == old(draws) && wins == old(wins)
      ensures OutcomeOf() == Outcome(true, Some(result), Counted(old(OutcomeOf()).tally, result, currentPlayer))
    {
      isGameOver := true;
      winner := Some(result);
      if result == "draw" {
        draws := draws + 1;
      } else if (result == "red" && currentPlayer == "red") || (result == "yellow" && currentPlayer == "yellow") {
        wins := wins + 1;
      } else {
        losses := losses + 1;
      }
    }

    /** `checkGameStatus`: the first disc in row-major order with four in a row
        through it ends the game for its colour; else a full board is a draw. */
    method CheckGameStatus()
      requires Valid()
      modifies this
      ensures Valid() && board == old(board) && Cells() == old(Cells())
      ensures currentPlayer == old(currentPlayer) && difficulty == old(difficulty) && strayMarks == old(strayMarks)
      ensures (exists x: Cell :: Winning(old(Cells()), x)) || Full(old(Cells())) ==> isGameOver
      ensures forall x: Cell :: FirstWinning(old(Cells()), x) ==>
        (winner == Some(old(Cells())[x.row][x.col]) && wins + losses + draws == old(wins + losses + draws) + 1)
      ensures (forall x: Cell :: !Winning(old(Cells()), x)) && Full(old(Cells())) ==>
        (winner == Some("draw") && draws == old(draws) + 1 && wins == old(wins) && losses == old(losses))
      ensures (forall x: Cell :: !Winning(old(Cells()), x)) && !Full(old(Cells())) ==> unchanged(this)
      ensures OutcomeOf() == Settle(old(Cells()), currentPlayer, old(OutcomeOf()))
    {
      ghost var g := Cells();
      for row := 0 to Rows
        invariant unchanged(this)
        invariant forall x: Cell :: Before(x, Cell(row, 0)) ==> !Winning(g, x)
      {
        for col := 0 to Cols
          invariant unchanged(this)
          invariant forall x: Cell :: Before(x, Cell(row, col)) ==> !Winning(g, x)
        {
          if board[row, col] != "" {
            var w := CheckWinner(row, col, board[row, col]);
            if w {
              OnlyFirstWinning(g, Cell(row, col));
              StatusOfFirst(g, Cell(row, col));
              EndGame(board[row, col]);
              SameCells(Cells(), g);
              return;
            }
          }
          ScanStep(g, row, col);
        }
        RowDone(g, row);
      }
      ScanDone(g);
      if forall r, c :: 0 <= r < Rows && 0 <= c < Cols ==> board[r, c] != "" {
        EndGame("draw");
        SameCells(Cells(), g);
      }
    }

    /** `makeMove`: the current colour goes into (row, col), the status is
        checked, and the turn passes. */
    method MakeMove(row: nat, col: nat)
      requires Valid() && row < Rows && col < Cols
      modifies this, board
      ensures Valid() && board == old(board) && difficulty == old(difficulty) && strayMarks == old(strayMarks)
      ensures Cells() == Put(old(Cells()), row, col, old(currentPlayer))
      ensures currentPlayer == Other(old(currentPlayer))
      ensures WinsThrough(Cells(), row, col, old(currentPlayer)) ==> isGameOver
      ensures Full(Cells()) ==> isGameOver
      ensures OutcomeOf() == Settle(Cells(), old(currentPlayer), old(OutcomeOf()))
    {
      ghost var before := Cells();
      board[row, col] := currentPlayer;
      ghost var after := Put(before, row, col, currentPlayer);
      SameCells(Cells(), after);
      if WinsThrough(after, row, col, currentPlayer) {
        assert Winning(after, Cell(row, col));
      }
      CheckGameStatus();
      currentPlayer := Other(currentPlayer);
      SameCells(Cells(), after);
    }

    /** `handleColumnClick`: ignored after the game is over or on a full column;
        otherwise the disc drops to the lowest empty row. The AI's reply follows
        as a separate transition, `AIMove`. */
    method HandleColumnClick(col: nat)
      requires Valid() && col < Cols
      modifies this, board
      ensures Valid() && board == old(board)
      ensures old(isGameOver) || LowestEmptyRow(old(Cells()), col) == -1 ==>
        unchanged(this) && Cells() == old(Cells())
      ensures !old(isGameOver) && LowestEmptyRow(old(Cells()), col) != -1 ==>
        && Cells() == Put(old(Cells()), LowestEmptyRow(old(Cells()), col), col, old(currentPlayer))
        && currentPlayer == Other(old(currentPlayer))
        && OutcomeOf() == Settle(Cells(), old(currentPlayer), old(OutcomeOf()))
        && difficulty == old(difficulty) && strayMarks == old(strayMarks)
    {
      if isGameOver {
        return;
      }
      var row := GetLowestEmptyRow(col);
      if row != -1 {
        MakeMove(row, col);
      }
    }

    /** `getRandomValidColumn`. */
    method GetRandomValidColumn(r: real) returns (col: Option<nat>)
      requires Valid() && IsDraw(r)
      ensures col == RandomValidColumn(Cells(), r)
    {
      var validColumns: seq<nat> := [];
      for c := 0 to Cols
        invariant validColumns == ValidColumnsUpTo(Cells(), c)
      {
        var row := GetLowestEmptyRow(c);
        if row != -1 {
          validColumns := validColumns + [c];
        }
      }
      if |validColumns| == 0 {
        NoValidColumnIsFull(Cells());
        return None;
      }
      NoValidColumnIsFull(Cells());
      return Some(validColumns[Pick(r, |validColumns|)]);
    }

    /** `findBestColumn`: a winning column for the colour to move, else one
        that blocks the opponent, else the centre, else a random valid column.
        Every trial disc is taken back, so the board is left as it was found. */
    method FindBestColumn(r: real) returns (col: Option<nat>)
      requires Valid() && IsDraw(r)
      modifies board
      ensures Valid() && Cells() == old(Cells())
      ensures col == BestColumn(old(Cells()), currentPlayer, r)
    {
      ghost var g := Cells();
      col := WinningColumn(currentPlayer);
      assert Cells() == g;
      if col.Some? {
        return;
      }
      var opponent := if currentPlayer == "red" then "yellow" else "red";
      col := WinningColumn(opponent);
      assert Cells() == g;
      if col.Some? {
        return;
      }
      var centerCol := 3;
      var row := GetLowestEmptyRow(centerCol);
      if row != -1 {
        return Some(centerCol);
      }
      col := GetRandomValidColumn(r);
    }

    /** One of the two trial loops of `findBestColumn`: the first column, left
        to right, where a disc of `p` wins. */
    method WinningColumn(p: string) returns (col: Option<nat>)
      requires Valid()
      modifies board
      ensures Valid() && Cells() == old(Cells())
      ensures col == FirstWinningDrop(old(Cells()), p, 0)
    {
      ghost var g := Cells();
      for c := 0 to Cols
        invariant Cells() == g
        invariant FirstWinningDrop(g, p, 0) == FirstWinningDrop(g, p, c)
      {
        var w := TryDrop(c, p);
        if w {
          return Some(c);
        }
      }
      return None;
    }

    /** One trial of `findBestColumn`: drop `p` into `col` if it has room, test
        for a win through the new disc, and take the disc back. */
    method TryDrop(col: nat, p: string) returns (w: bool)
      requires Valid() && col < Cols
      modifies board
      ensures Valid() && Cells() == old(Cells())
      ensures w == WinningDrop(old(Cells()), p, col)
    {
      ghost var g := Cells();
      var row := GetLowestEmptyRow(col);
      if row == -1 {
        return false;
      }
      board[row, col] := p;
      SameCells(Cells(), Put(g, row, col, p));
      w := CheckWinner(row, col, p);
      board[row, col] := "";
      SameCells(Cells(), g);
    }

    /** `calculateBestMove`; the board is back as it was afterwards. */
    method CalculateBestMove(d: Draws) returns (col: Option<nat>)
      requires Valid() && ValidDraws(d)
      modifies board
      ensures Valid() && Cells() == old(Cells())
      ensures col == BestMove(old(Cells()), currentPlayer, difficulty, d)
    {
      match difficulty {
        case Easy => col := GetRandomValidColumn(d.pick);
        case Medium =>
          if d.coin < 0.5 {
            col := GetRandomValidColumn(d.pick);
          } else {
            col := FindBestColumn(d.pick);
          }
        case Hard => col := FindBestColumn(d.pick);
      }
    }

    /** The delayed body of `makeAIMove`: the column of `calculateBestMove`,
        then the move `PlayColumn` makes of it. */
    method AIMove(d: Draws) returns (m: Option<nat>)
      requires Valid() && ValidDraws(d)
      modifies this, board
      ensures Valid() && board == old(board) && difficulty == old(difficulty)
      ensures m == BestMove(old(Cells()), old(currentPlayer), old(difficulty), d)
      ensures m.Some? ==>
        && Cells() == Put(old(Cells()), LowestEmptyRow(old(Cells()), m.value), m.value, old(currentPlayer))
        && currentPlayer == Other(old(currentPlayer)) && strayMarks == old(strayMarks)
        && OutcomeOf() == Settle(Cells(), old(currentPlayer), old(OutcomeOf()))
      ensures m.None? && old(strayMarks) < Rows ==>
        && Cells() == old(Cells()) && currentPlayer == Other(old(currentPlayer)) && isGameOver
        && strayMarks == old(strayMarks) + 1
        && OutcomeOf() == Settle(old(Cells()), old(currentPlayer), old(OutcomeOf()))
      ensures m.None? && old(strayMarks) >= Rows ==> unchanged(this) && Cells() == old(Cells())
    {
      m := CalculateBestMove(d);
      PlayColumn(m);
    }

    /** What `makeAIMove` does with the column. A column drops a disc as a click
        does. An undefined column (every column full) finds its row among the
        rows not yet written under `undefined`, writes no cell, checks the status
        again and passes the turn; once six rows are written it does nothing. */
    method PlayColumn(m: Option<nat>)
      requires Valid()
      requires m.Some? ==> m.value < Cols && LowestEmptyRow(Cells(), m.value) != -1
      requires m.None? ==> Full(Cells())
      modifies this, board
      ensures Valid() && board == old(board) && difficulty == old(difficulty)
      ensures m.Some? ==>
        && Cells() == Put(old(Cells()), LowestEmptyRow(old(Cells()), m.value), m.value, old(currentPlayer))
        && currentPlayer == Other(old(currentPlayer)) && strayMarks == old(strayMarks)
        && OutcomeOf() == Settle(Cells(), old(currentPlayer), old(OutcomeOf()))
      ensures m.None? && old(strayMarks) < Rows ==>
        && Cells() == old(Cells()) && currentPlayer == Other(old(currentPlayer)) && isGameOver
        && strayMarks == old(strayMarks) + 1
        && OutcomeOf() == Settle(old(Cells()), old(currentPlayer), old(OutcomeOf()))
      ensures m.None? && old(strayMarks) >= Rows ==> unchanged(this) && Cells() == old(Cells())
    {
      ghost var g := Cells();
      match m {
        case Some(c) =>
          var row := GetLowestEmptyRow(c);
          MakeMove(row, c);
        case None =>
          if strayMarks < Rows {
            strayMarks := strayMarks + 1;
            SameCells(Cells(), g);
            CheckGameStatus();
            currentPlayer := Other(currentPlayer);
            SameCells(Cells(), g);
          }
      }
    }

    /** `resetGame`: new empty rows, no winner, the game open; the colour to move
        and the counters stay. */
    method ResetGame()
      requires Valid()
      modifies this
      ensures Valid() && fresh(board) && forall r, c :: 0 <= r < Rows && 0 <= c < Cols ==> board[r, c] == ""
      ensures winner == None && !isGameOver && strayMarks == 0
      ensures currentPlayer == old(currentPlayer) && difficulty == old(difficulty)
      ensures wins == old(wins) && losses == old(losses) && draws == old(draws)
    {
      board := new string[Rows, Cols]((r, c) => "");
      winner := None;
      isGameOver := false;
      strayMarks := 0;
    }

    /** `setDifficulty`. */
    method SetDifficulty(d: Difficulty)
      requires Valid()
      modifies this
      ensures Valid() && difficulty == d && fresh(board) && winner == None && !isGameOver
      ensures forall r, c :: 0 <= r < Rows && 0 <= c < Cols ==> board[r, c] == ""
      ensures strayMarks == 0 && currentPlayer == old(currentPlayer)
      ensures wins == old(wins) && losses == old(losses) && draws == old(draws)
    {
      difficulty := d;
      ResetGame();
    }
  }

  /** A prefix with a run has the run. */
  lemma HasRun4Prefix(s: seq<string>, n: nat, p: string)
    requires n <= |s| && HasRun4(s[..n], p)
    ensures HasRun4(s, p)
  {
    var t := s[..n];
    var k :| 0 <= k < |t| && RunAt(t, k, p);
    assert t[k] == s[k] && t[k + 1] == s[k + 1] && t[k + 2] == s[k + 2] && t[k + 3] == s[k + 3];
    assert RunAt(s, k, p);
  }

  /** A diagonal walk only grows, so a run in its first n steps stays. */
  lemma {:induction false} HasRun4Extends(g: Grid, r0: int, c0: int, rising: bool, n: nat, m: nat, p: string)
    requires IsGrid(g) && n <= m && HasRun4(DiagonalUpTo(g, r0, c0, rising, n), p)
    ensures HasRun4(DiagonalUpTo(g, r0, c0, rising, m), p)
    decreases m - n
  {
    if n < m {
      HasRun4Extends(g, r0, c0, rising, n, m - 1, p);
      var s := DiagonalUpTo(g, r0, c0, rising, m - 1);
      var t := DiagonalUpTo(g, r0, c0, rising, m);
      assert t[..|s|] == s;
      HasRun4Prefix(t, |s|, p);
    }
  }

  /** A winning cell with no winning cell before it is the only first one. */
  lemma OnlyFirstWinning(g: Grid, x: Cell)
    requires IsGrid(g) && Winning(g, x) && forall y: Cell :: Before(y, x) ==> !Winning(g, y)
    ensures FirstWinning(g, x) && forall y: Cell :: FirstWinning(g, y) ==> y == x
  {
    forall y: Cell | FirstWinning(g, y) ensures y == x {
      FirstWinningUnique(g, x, y);
    }
  }

  /** One cell further along the scan. */
  lemma ScanStep(g: Grid, row: nat, col: nat)
    requires IsGrid(g) && (forall x: Cell :: Before(x, Cell(row, col)) ==> !Winning(g, x)) && !Winning(g, Cell(row, col))
    ensures forall x: Cell :: Before(x, Cell(row, col + 1)) ==> !Winning(g, x)
  {
    forall x: Cell | Before(x, Cell(row, col + 1)) ensures !Winning(g, x) {
      if x != Cell(row, col) {
        assert Before(x, Cell(row, col));
      }
    }
  }

  /** The end of a row is the start of the next. */
  lemma RowDone(g: Grid, row: nat)
    requires IsGrid(g) && forall x: Cell :: Before(x, Cell(row, Cols)) ==> !Winning(g, x)
    ensures forall x: Cell :: Before(x, Cell(row + 1, 0)) ==> !Winning(g, x)
  {
    forall x: Cell | Before(x, Cell(row + 1, 0)) ensures !Winning(g, x) {
      if x.col < Cols {
        assert Before(x, Cell(row, Cols));
      }
    }
  }

  /** A scan past the last row has seen every cell. */
  lemma ScanDone(g: Grid)
    requires IsGrid(g) && forall x: Cell :: Before(x, Cell(Rows, 0)) ==> !Winning(g, x)
    ensures forall x: Cell :: !Winning(g, x)
  {
    forall x: Cell ensures !Winning(g, x) {
      if x.row < Rows {
        assert Before(x, Cell(Rows, 0));
      }
    }
  }

  /** A winning cell gives a first winning cell. */
  lemma FirstWinningExists(g: Grid, x: Cell)
    requires IsGrid(g) && Winning(g, x)
    ensures exists y: Cell :: FirstWinning(g, y)
  {
    FirstWinningFrom(g, x, 7 * x.row + x.col);
  }

  lemma {:induction false} FirstWinningFrom(g: Grid, x: Cell, n: nat)
    requires IsGrid(g) && Winning(g, x) && n == 7 * x.row + x.col
    ensures exists y: Cell :: FirstWinning(g, y)
    decreases n
  {
    if !FirstWinning(g, x) {
      var y :| Before(y, x) && Winning(g, y);
      FirstWinningFrom(g, y, 7 * y.row + y.col);
    }
  }
}
