/** The browser tic-tac-toe of src/static/js/tictactoe.ts: a board of nine
    strings ('' for an empty cell), the current mark, game-over detection, a
    minimax search that writes and restores cells, and the win/loss/draw
    counters. DOM updates, local storage and the AI's 500 ms delay are left out. */
module TicTacToeGame {
  import opened Common

  /** The eight lines: three rows, three columns, two diagonals. */
  const WinPatterns: seq<seq<nat>> :=
    [[0, 1, 2], [3, 4, 5], [6, 7, 8], [0, 3, 6], [1, 4, 7], [2, 5, 8], [0, 4, 8], [2, 4, 6]]

  /** `pattern.every(index => board[index] === p)`. */
  predicate PatternHolds(board: seq<string>, k: nat, p: string)
    requires |board| == 9 && k < |WinPatterns|
  {
    forall t :: 0 <= t < 3 ==> board[WinPatterns[k][t]] == p
  }

  /** `checkWinner`: some pattern holds `player` in all three of its cells. */
  predicate CheckWinner(board: seq<string>, player: string)
    requires |board| == 9
  {
    exists k :: 0 <= k < |WinPatterns| && PatternHolds(board, k, player)
  }

  /** The same condition stated by row, column and diagonal. */
  predicate HasLine(board: seq<string>, p: string)
    requires |board| == 9
  {
    || (exists r :: 0 <= r < 3 && board[3 * r] == p && board[3 * r + 1] == p && board[3 * r + 2] == p)
    || (exists c :: 0 <= c < 3 && board[c] == p && board[c + 3] == p && board[c + 6] == p)
    || (board[0] == p && board[4] == p && board[8] == p)
    || (board[2] == p && board[4] == p && board[6] == p)
  }

  lemma PatternCells(board: seq<string>, k: nat, p: string)
    requires |board| == 9 && k < |WinPatterns|
    ensures PatternHolds(board, k, p) <==>
      board[WinPatterns[k][0]] == p && board[WinPatterns[k][1]] == p && board[WinPatterns[k][2]] == p
  {
    if board[WinPatterns[k][0]] == p && board[WinPatterns[k][1]] == p && board[WinPatterns[k][2]] == p {
      forall t | 0 <= t < 3 ensures board[WinPatterns[k][t]] == p {
        assert t == 0 || t == 1 || t == 2;
      }
    }
  }

  lemma CheckWinnerIsLine(board: seq<string>, p: string)
    requires |board| == 9
    ensures CheckWinner(board, p) <==> HasLine(board, p)
  {
    if HasLine(board, p) {
      LineIsWinner(board, p);
    }
    if CheckWinner(board, p) {
      var k :| 0 <= k < |WinPatterns| && PatternHolds(board, k, p);
      WinnerIsLine(board, p, k);
    }
  }

  lemma LineIsWinner(board: seq<string>, p: string)
    requires |board| == 9 && HasLine(board, p)
    ensures CheckWinner(board, p)
  {
    var k: nat;
    if r :| 0 <= r < 3 && board[3 * r] == p && board[3 * r + 1] == p && board[3 * r + 2] == p {
      k := r;
    } else if c :| 0 <= c < 3 && board[c] == p && board[c + 3] == p && board[c + 6] == p {
      k := c + 3;
    } else if board[0] == p && board[4] == p && board[8] == p {
      k := 6;
    } else {
      k := 7;
    }
    PatternCells(board, k, p);
    assert PatternHolds(board, k, p);
  }

  lemma WinnerIsLine(board: seq<string>, p: string, k: nat)
    requires |board| == 9 && k < |WinPatterns| && PatternHolds(board, k, p)
    ensures HasLine(board, p)
  {
    PatternCells(board, k, p);
    if k < 3 {
      assert board[3 * k] == p && board[3 * k + 1] == p && board[3 * k + 2] == p;
    } else if k < 6 {
      var c := k - 3;
      assert board[c] == p && board[c + 3] == p && board[c + 6] == p;
    }
  }

  /** `getEmptyCells`: the indices of the '' cells of the first n cells, in order. */
  function EmptyCellsUpTo(board: seq<string>, n: nat): (cells: seq<nat>)
    requires n <= |board|
    ensures forall i :: i in cells <==> 0 <= i < n && board[i] == ""
    ensures forall a, b :: 0 <= a < b < |cells| ==> cells[a] < cells[b]
    ensures |cells| == multiset(board[..n])[""]
  {
    if n == 0 then []
    else
      assert board[..n] == board[..n - 1] + [board[n - 1]];
      assert multiset(board[..n]) == multiset(board[..n - 1]) + multiset{board[n - 1]};
      var init := EmptyCellsUpTo(board, n - 1);
      assert forall a :: 0 <= a < |init| ==> init[a] < n - 1 by {
        forall a | 0 <= a < |init| ensures init[a] < n - 1 {
          assert init[a] in init;
        }
      }
      init + (if board[n - 1] == "" then [n - 1] else [])
  }

  function EmptyCells(board: seq<string>): (cells: seq<nat>)
    ensures forall i :: i in cells <==> 0 <= i < |board| && board[i] == ""
    ensures forall a, b :: 0 <= a < b < |cells| ==> cells[a] < cells[b]
    ensures |cells| == multiset(board)[""]
  {
    assert board[..|board|] == board;
    EmptyCellsUpTo(board, |board|)
  }

  function Other(player: string): string {
    if player == "X" then "O" else "X"
  }

  predicate IsMark(player: string) {
    player == "X" || player == "O"
  }

  /** A search result: the score of the position and the cell played, -1 at a
      finished board. */
  datatype Scored = Scored(score: int, index: int)

  predicate IsScore(x: int) {
    x == -10 || x == 0 || x == 10
  }

  /** `a` scores at least as well as `b` for the side to move. */
  predicate AtLeast(a: Scored, b: Scored, maximize: bool) {
    if maximize then a.score >= b.score else a.score <= b.score
  }

  predicate Beats(a: Scored, b: Scored, maximize: bool) {
    if maximize then a.score > b.score else a.score < b.score
  }

  /** `moves[k]` is the first move with the best score. */
  predicate FirstBest(moves: seq<Scored>, k: nat, maximize: bool)
    requires k < |moves|
  {
    && (forall j :: 0 <= j < |moves| ==> AtLeast(moves[k], moves[j], maximize))
    && (forall j :: 0 <= j < k ==> Beats(moves[k], moves[j], maximize))
  }

  /** `reduce` keeping the running best and replacing it only by a strictly better
      move. */
  function BestFrom(best: Scored, rest: seq<Scored>, maximize: bool): (r: Scored)
    ensures r == best || r in rest
    decreases |rest|
  {
    if rest == [] then best
    else BestFrom(if Beats(rest[0], best, maximize) then rest[0] else best, rest[1..], maximize)
  }

  /** The reduction finds the first best move: ties go to the earliest cell. */
  lemma {:induction false} BestFromIsFirstBest(best: Scored, rest: seq<Scored>, maximize: bool)
    ensures exists k :: (0 <= k <= |rest| && ([best] + rest)[k] == BestFrom(best, rest, maximize) &&
                         FirstBest([best] + rest, k, maximize))
    decreases |rest|
  {
    var all := [best] + rest;
    var r := BestFrom(best, rest, maximize);
    if rest == [] {
      assert FirstBest(all, 0, maximize);
    } else if Beats(rest[0], best, maximize) {
      BestFromIsFirstBest(rest[0], rest[1..], maximize);
      assert [rest[0]] + rest[1..] == rest;
      var k :| 0 <= k < |rest| && rest[k] == r && FirstBest(rest, k, maximize);
      PrependWorse(best, rest, k, maximize);
      assert all[k + 1] == r;
    } else {
      BestFromIsFirstBest(best, rest[1..], maximize);
      var k :| 0 <= k <= |rest[1..]| && ([best] + rest[1..])[k] == r && FirstBest([best] + rest[1..], k, maximize);
      InsertNotBetter(best, rest[0], rest[1..], k, maximize);
      assert [best, rest[0]] + rest[1..] == all;
      assert all[if k == 0 then 0 else k + 1] == r;
    }
  }

  /** A move the best one beats can go in front without changing which is first best. */
  lemma PrependWorse(x: Scored, tail: seq<Scored>, k: nat, maximize: bool)
    requires k < |tail| && FirstBest(tail, k, maximize)
    requires Beats(tail[0], x, maximize)
    ensures FirstBest([x] + tail, k + 1, maximize)
  {
    var all := [x] + tail;
    assert AtLeast(tail[k], tail[0], maximize);
    forall j | 0 <= j < |all| ensures AtLeast(all[k + 1], all[j], maximize) {
      if j > 0 { assert all[j] == tail[j - 1]; }
    }
    forall j | 0 <= j < k + 1 ensures Beats(all[k + 1], all[j], maximize) {
      if j > 0 { assert all[j] == tail[j - 1]; }
    }
  }

  /** A move no better than the running best can be inserted after it. */
  lemma InsertNotBetter(best: Scored, y: Scored, more: seq<Scored>, k: nat, maximize: bool)
    requires k <= |more| && FirstBest([best] + more, k, maximize)
    requires !Beats(y, best, maximize)
    ensures FirstBest([best, y] + more, if k == 0 then 0 else k + 1, maximize)
  {
    var tail := [best] + more;
    var all := [best, y] + more;
    var k' := if k == 0 then 0 else k + 1;
    assert all[k'] == tail[k];
    assert AtLeast(best, y, maximize);
    assert AtLeast(tail[k], tail[0], maximize);
    forall j | 0 <= j < |all| ensures AtLeast(all[k'], all[j], maximize) {
      if j >= 2 { assert all[j] == tail[j - 1]; }
    }
    forall j | 0 <= j < k' ensures Beats(all[k'], all[j], maximize) {
      if j >= 2 { assert all[j] == tail[j - 1]; }
      if j == 1 { assert Beats(tail[k], tail[0], maximize); }
    }
  }

  /** `moves.reduce(...)`: the first move with the best score. */
  function Best(moves: seq<Scored>, maximize: bool): (r: Scored)
    requires |moves| > 0
    ensures exists k :: 0 <= k < |moves| && moves[k] == r && FirstBest(moves, k, maximize)
  {
    BestFromIsFirstBest(moves[0], moves[1..], maximize);
    assert [moves[0]] + moves[1..] == moves;
    BestFrom(moves[0], moves[1..], maximize)
  }

  /** `minimax`: X having won scores -10, O having won 10 (X is looked at first),
      a full board 0; otherwise every empty cell is tried in order, O takes the
      maximum and X the minimum. */
  function Minimax(board: seq<string>, player: string): (r: Scored)
    requires |board| == 9 && IsMark(player)
    ensures IsScore(r.score)
    ensures CheckWinner(board, "X") ==> r == Scored(-10, -1)
    ensures !CheckWinner(board, "X") && CheckWinner(board, "O") ==> r == Scored(10, -1)
    ensures !CheckWinner(board, "X") && !CheckWinner(board, "O") ==>
      (r.index == -1 <==> EmptyCells(board) == []) &&
      (r.index != -1 ==> 0 <= r.index < 9 && board[r.index] == "")
    decreases multiset(board)[""], 1, 0
  {
    var cells := EmptyCells(board);
    if CheckWinner(board, "X") then Scored(-10, -1)
    else if CheckWinner(board, "O") then Scored(10, -1)
    else if cells == [] then Scored(0, -1)
    else
      assert forall k :: 0 <= k < |cells| ==> cells[k] in cells;
      var moves := ScoreMoves(board, player, cells);
      var r := Best(moves, player == "O");
      BestIsListed(moves, cells, player == "O");
      r
  }

  lemma BestIsListed(moves: seq<Scored>, cells: seq<nat>, maximize: bool)
    requires |moves| == |cells| > 0 && forall k :: 0 <= k < |cells| ==> moves[k].index == cells[k] && IsScore(moves[k].score)
    ensures Best(moves, maximize).index in cells && IsScore(Best(moves, maximize).score)
  {
    var k :| 0 <= k < |moves| && moves[k] == Best(moves, maximize) && FirstBest(moves, k, maximize);
    assert cells[k] in cells;
  }

  /** The moves `availableMoves.map` builds: each listed cell filled with `player`,
      scored by the search for the other mark, and emptied again. */
  function ScoreMoves(board: seq<string>, player: string, cells: seq<nat>): (moves: seq<Scored>)
    requires |board| == 9 && IsMark(player)
    requires forall k :: 0 <= k < |cells| ==> cells[k] < 9 && board[cells[k]] == ""
    ensures |moves| == |cells|
    ensures forall k :: 0 <= k < |cells| ==> moves[k].index == cells[k] && IsScore(moves[k].score)
    decreases multiset(board)[""], 0, |cells|
  {
    if cells == [] then []
    else
      var next := board[cells[0] := player];
      assert multiset(next)[""] < multiset(board)[""] by {
        assert multiset(next) == multiset(board) - multiset{""} + multiset{player};
      }
      [Scored(Minimax(next, Other(player)).score, cells[0])] + ScoreMoves(board, player, cells[1..])
  }

  /** The scored moves of every empty cell. */
  function ScoreMovesOfEmpty(board: seq<string>, player: string): (moves: seq<Scored>)
    requires |board| == 9 && IsMark(player)
    ensures |moves| == |EmptyCells(board)|
  {
    var cells := EmptyCells(board);
    assert forall k :: 0 <= k < |cells| ==> cells[k] in cells;
    ScoreMoves(board, player, cells)
  }

  /** The k-th scored move fills the k-th empty cell and scores the position one
      level down. */
  lemma ScoreMovesOfEmptyAt(board: seq<string>, player: string, k: nat)
    requires |board| == 9 && IsMark(player) && k < |EmptyCells(board)|
    ensures EmptyCells(board)[k] < |board| && board[EmptyCells(board)[k]] == ""
    ensures ScoreMovesOfEmpty(board, player)[k] ==
      Scored(Minimax(board[EmptyCells(board)[k] := player], Other(player)).score, EmptyCells(board)[k])
  {
    var cells := EmptyCells(board);
    assert forall j :: 0 <= j < |cells| ==> cells[j] in cells;
    ScoreMovesAt(board, player, cells, k);
  }

  lemma PrefixGrows<T>(s: seq<T>, k: nat)
    requires k < |s|
    ensures s[..k] + [s[k]] == s[..k + 1]
  {
  }

  /** What the k-th trial of the search needs: the cell is empty, filling it
      leaves fewer empty cells, emptying it again restores the board, and the
      scored moves grow by the search one level down. */
  lemma TrialMove(board: seq<string>, player: string, k: nat)
    requires |board| == 9 && IsMark(player) && k < |EmptyCells(board)|
    ensures var i := EmptyCells(board)[k]; var all := ScoreMovesOfEmpty(board, player);
      && i < 9 && board[i] == ""
      && multiset(board[i := player])[""] < multiset(board)[""]
      && board[i := player][i := ""] == board
      && all[..k] + [Scored(Minimax(board[i := player], Other(player)).score, i)] == all[..k + 1]
  {
    var i := EmptyCells(board)[k];
    ScoreMovesOfEmptyAt(board, player, k);
    FillingShrinks(board, i, player);
    Restored(board, i, player);
    PrefixGrows(ScoreMovesOfEmpty(board, player), k);
  }

  /** Filling an empty cell leaves one empty cell fewer. */
  lemma FillingShrinks(board: seq<string>, i: nat, p: string)
    requires i < |board| && board[i] == "" && p != ""
    ensures multiset(board[i := p])[""] < multiset(board)[""]
  {
    assert multiset(board[i := p]) == multiset(board) - multiset{""} + multiset{p};
  }

  /** The k-th scored move is the search one level down from cell `cells[k]`. */
  lemma {:induction false} ScoreMovesAt(board: seq<string>, player: string, cells: seq<nat>, k: nat)
    requires |board| == 9 && IsMark(player) && k < |cells|
    requires forall j :: 0 <= j < |cells| ==> cells[j] < 9 && board[cells[j]] == ""
    ensures ScoreMoves(board, player, cells)[k] ==
      Scored(Minimax(board[cells[k] := player], Other(player)).score, cells[k])
    decreases k
  {
    if k > 0 {
      ScoreMovesAt(board, player, cells[1..], k - 1);
    }
  }

  /** Writing a mark and then '' into an empty cell gives the board back. */
  lemma Restored(board: seq<string>, i: nat, p: string)
    requires i < |board| && board[i] == ""
    ensures board[i := p][i := ""] == board
  {
  }

  /** On a board where play goes on, the search is the best of the scored moves. */
  lemma MinimaxOpen(board: seq<string>, player: string)
    requires |board| == 9 && IsMark(player)
    requires !CheckWinner(board, "X") && !CheckWinner(board, "O") && EmptyCells(board) != []
    ensures Minimax(board, player) == Best(ScoreMovesOfEmpty(board, player), player == "O")
  {
  }

  /** A board on which nobody has won and no cell is empty is a draw, and only then
      finds `checkGameStatus` a draw. */
  predicate IsDrawnBoard(board: seq<string>)
    requires |board| == 9
  {
    !CheckWinner(board, "X") && !CheckWinner(board, "O") && "" !in board
  }

  /** The result `checkGameStatus` finds on a board, if any: a line of X, then a
      line of O, then a full board as a draw. */
  function Status(board: seq<string>): Option<string>
    requires |board| == 9
  {
    if CheckWinner(board, "X") then Some("X")
    else if CheckWinner(board, "O") then Some("O")
    else if "" !in board then Some("draw")
    else None
  }

  /** The saved counters. */
  datatype Tally = Tally(wins: nat, losses: nat, draws: nat)

  /** The part of the game state that `checkGameStatus` may change. */
  datatype Outcome = Outcome(isGameOver: bool, winner: Option<string>, tally: Tally)

  /** `endGame(result)` on the counters, with `mover` the mark still to move. */
  function Counted(t: Tally, result: string, mover: string): Tally {
    if result == "draw" then t.(draws := t.draws + 1)
    else if result == mover then t.(wins := t.wins + 1)
    else t.(losses := t.losses + 1)
  }

  /** `checkGameStatus` on `board` with `mover` to move, from the outcome `o`. */
  function Settle(board: seq<string>, mover: string, o: Outcome): Outcome
    requires |board| == 9
  {
    match Status(board)
    case None => o
    case Some(result) => Outcome(true, Some(result), Counted(o.tally, result, mover))
  }

  /** The status check ends the game exactly on a line or a full board; X's line
      is reported before O's, a full board without a line is a draw, exactly one
      counter goes up when the game ends, and nothing changes otherwise. */
  lemma SettleMeaning(board: seq<string>, mover: string, o: Outcome)
    requires |board| == 9
    ensures var o' := Settle(board, mover, o);
      && (o' != o ==> o'.isGameOver)
      && (o'.isGameOver <==> o.isGameOver || CheckWinner(board, "X") || CheckWinner(board, "O") || "" !in board)
      && (CheckWinner(board, "X") ==> o'.winner == Some("X"))
      && (!CheckWinner(board, "X") && CheckWinner(board, "O") ==> o'.winner == Some("O"))
      && (IsDrawnBoard(board) <==> o'.winner == Some("draw") && Status(board).Some?)
      && (Status(board).Some? ==> o'.tally.wins + o'.tally.losses + o'.tally.draws == o.tally.wins + o.tally.losses + o.tally.draws + 1)
      && (Status(board).None? ==> o' == o)
      && (IsMark(mover) && Status(board) == Some(mover) ==> o'.tally.wins == o.tally.wins + 1)
  {
  }

  datatype Difficulty = Easy | Medium | Hard

  /** The index `calculateBestMove` returns: `At(-1)` from a finished search, and
      `Undefined` where the source indexes an empty list of cells. */
  datatype MoveIndex = At(i: int) | Undefined

  /** The two `Math.random()` draws of a medium or easy AI move. */
  datatype Draws = Draws(coin: real, pick: real)

  predicate ValidDraws(d: Draws) {
    Common.IsDraw(d.coin) && Common.IsDraw(d.pick)
  }

  /** `getRandomEmptyCell`: `emptyCells[Math.floor(Math.random() * emptyCells.length)]`. */
  function RandomEmptyCell(board: seq<string>, pick: real): (m: MoveIndex)
    requires Common.IsDraw(pick)
    ensures m.Undefined? <==> EmptyCells(board) == []
    ensures m.At? ==> 0 <= m.i < |board| && board[m.i] == ""
  {
    var cells := EmptyCells(board);
    if cells == [] then Undefined
    else
      var k := Pick(pick, |cells|);
      assert cells[k] in cells;
      At(cells[k])
  }

  /** `calculateBestMove`. */
  function BestMove(board: seq<string>, player: string, difficulty: Difficulty, draws: Draws): (m: MoveIndex)
    requires |board| == 9 && IsMark(player) && ValidDraws(draws)
    ensures m.At? && m.i != -1 ==> 0 <= m.i < 9 && board[m.i] == ""
    ensures m.Undefined? ==> EmptyCells(board) == []
  {
    match difficulty
    case Easy => RandomEmptyCell(board, draws.pick)
    case Medium => if draws.coin < 0.5 then RandomEmptyCell(board, draws.pick) else At(Minimax(board, player).index)
    case Hard => At(Minimax(board, player).index)
  }

  /** On a board where play can go on, the hard AI names an empty cell. */
  lemma HardMoveIsEmptyCell(board: seq<string>, player: string, draws: Draws)
    requires |board| == 9 && IsMark(player) && ValidDraws(draws)
    requires !CheckWinner(board, "X") && !CheckWinner(board, "O") && "" in board
    ensures var m := BestMove(board, player, Hard, draws); m.At? && 0 <= m.i < 9 && board[m.i] == ""
  {
    var i :| 0 <= i < |board| && board[i] == "";
    assert i in EmptyCells(board);
  }

  class TicTacToe {
    var board: array<string>
    var currentPlayer: string
    var winner: Option<string>
    var isGameOver: bool
    var difficulty: Difficulty
    var wins: nat
    var losses: nat
    var draws: nat

    /** The fields `checkGameStatus` may change. */
    function OutcomeOf(): Outcome
      reads this
    {
      Outcome(isGameOver, winner, Tally(wins, losses, draws))
    }

    ghost predicate Valid()
      reads this
    {
      board.Length == 9 && IsMark(currentPlayer)
    }

    /** The constructor's state, before saved counters are loaded. */
    constructor ()
      ensures Valid() && fresh(board) && board[..] == seq(9, _ => "") && currentPlayer == "X"
      ensures winner == None && !isGameOver && difficulty == Medium
      ensures wins == 0 && losses == 0 && draws == 0
    {
      board := new string[9](_ => "");
      currentPlayer := "X";
      winner := None;
      isGameOver := false;
      difficulty := Medium;
      wins, losses, draws := 0, 0, 0;
    }

    /** `minimax`: each empty cell of `b` is filled with `player`, searched one
        level down and emptied again, so `b` is left as it was found. */
    method Search(b: array<string>, player: string) returns (r: Scored)
      requires b.Length == 9 && IsMark(player)
      modifies b
      ensures b[..] == old(b[..])
      ensures r == Minimax(b[..], player)
      decreases multiset(b[..])[""]
    {
      var availableMoves := EmptyCells(b[..]);
      if CheckWinner(b[..], "X") {
        return Scored(-10, -1);
      } else if CheckWinner(b[..], "O") {
        return Scored(10, -1);
      } else if |availableMoves| == 0 {
        return Scored(0, -1);
      }
      ghost var start := b[..];
      ghost var all := ScoreMovesOfEmpty(start, player);
      var moves := [];
      for k := 0 to |availableMoves|
        invariant b[..] == start
        invariant moves == all[..k]
      {
        var index := availableMoves[k];
        TrialMove(start, player, k);
        b[index] := player;
        assert b[..] == start[index := player];
        var sub := Search(b, Other(player));
        b[index] := "";
        moves := moves + [Scored(sub.score, index)];
      }
      assert moves == all;
      MinimaxOpen(start, player);
      r := Best(moves, player == "O");
    }

    /** `endGame`: the game ends with `result` and one counter goes up; a mark counts
        as a win when it is the mark still to move, which is the mark that just
        played, because the turn passes only after the status check. */
    method EndGame(result: string)
      modifies this
      ensures isGameOver && winner == Some(result)
      ensures board == old(board) && currentPlayer == old(currentPlayer) && difficulty == old(difficulty)
      ensures result == "draw" ==> draws == old(draws) + 1 && wins == old(wins) && losses == old(losses)
      ensures result != "draw" && result == currentPlayer ==> wins == old(wins) + 1 && draws == old(draws) && losses == old(losses)
      ensures result != "draw" && result != currentPlayer ==> losses == old(losses) + 1 && draws == old(draws) && wins == old(wins)
      ensures OutcomeOf() == Outcome(true, Some(result), Counted(old(OutcomeOf()).tally, result, currentPlayer))
    {
      isGameOver := true;
      winner := Some(result);
      if result == "draw" {
        draws := draws + 1;
      } else if result == currentPlayer {
        wins := wins + 1;
      } else {
        losses := losses + 1;
      }
    }

    /** `checkGameStatus`. */
    method CheckGameStatus()
      requires Valid()
      modifies this
      ensures Valid() && board == old(board) && currentPlayer == old(currentPlayer) && difficulty == old(difficulty)
      ensures isGameOver == (old(isGameOver) || CheckWinner(board[..], "X") || CheckWinner(board[..], "O") || "" !in board[..])
      ensures CheckWinner(board[..], "X") ==> isGameOver && winner == Some("X")
      ensures !CheckWinner(board[..], "X") && CheckWinner(board[..], "O") ==> isGameOver && winner == Some("O")
      ensures IsDrawnBoard(board[..]) ==> isGameOver && winner == Some("draw")
      ensures !CheckWinner(board[..], "X") && !CheckWinner(board[..], "O") && "" in board[..] ==> unchanged(this)
      ensures CheckWinner(board[..], "X") || CheckWinner(board[..], "O") || "" !in board[..] ==>
        wins + losses + draws == old(wins + losses + draws) + 1
      ensures OutcomeOf() == Settle(board[..], currentPlayer, old(OutcomeOf()))
    {
      if CheckWinner(board[..], "X") {
        EndGame("X");
      } else if CheckWinner(board[..], "O") {
        EndGame("O");
      } else if "" !in board[..] {
        EndGame("draw");
      }
    }

    /** `makeMove`: the current mark goes into the cell, the status is checked, and
        the turn passes. `Undefined` writes no cell. */
    method MakeMove(index: MoveIndex)
      requires Valid() && (index.At? ==> 0 <= index.i < 9)
      modifies this, board
      ensures Valid() && board == old(board)
      ensures board[..] == if index.At? then old(board[..])[index.i := old(currentPlayer)] else old(board[..])
      ensures currentPlayer == Other(old(currentPlayer))
      ensures isGameOver == (old(isGameOver) || CheckWinner(board[..], "X") || CheckWinner(board[..], "O") || "" !in board[..])
      ensures OutcomeOf() == Settle(board[..], old(currentPlayer), old(OutcomeOf()))
      ensures difficulty == old(difficulty)
    {
      if index.At? {
        board[index.i] := currentPlayer;
      }
      CheckGameStatus();
      currentPlayer := Other(currentPlayer);
    }

    /** `handleCellClick`: an occupied cell or a finished game ignores the click;
        the AI's reply follows as a separate transition, `AIMove`. */
    method HandleCellClick(index: nat)
      requires Valid() && index < 9
      modifies this, board
      ensures Valid() && board == old(board)
      ensures old(board[index]) != "" || old(isGameOver) ==> unchanged(this) && unchanged(board)
      ensures old(board[index]) == "" && !old(isGameOver) ==>
        && board[..] == old(board[..])[index := old(currentPlayer)] && currentPlayer == Other(old(currentPlayer))
        && OutcomeOf() == Settle(board[..], old(currentPlayer), old(OutcomeOf())) && difficulty == old(difficulty)
    {
      if board[index] != "" || isGameOver {
        return;
      }
      MakeMove(At(index));
    }

    /** `calculateBestMove` followed by the delayed `makeMove` of `makeAIMove`. */
    method AIMove(d: Draws)
      requires Valid() && ValidDraws(d)
      modifies this, board
      ensures Valid() && board == old(board)
      ensures var m := BestMove(old(board[..]), old(currentPlayer), old(difficulty), d);
        if m == At(-1) then unchanged(this) && board[..] == old(board[..])
        else && board[..] == (if m.At? then old(board[..])[m.i := old(currentPlayer)] else old(board[..]))
             && currentPlayer == Other(old(currentPlayer))
             && OutcomeOf() == Settle(board[..], old(currentPlayer), old(OutcomeOf()))
             && difficulty == old(difficulty)
    {
      ghost var before := board[..];
      var index: MoveIndex;
      match difficulty {
        case Easy => index := RandomEmptyCell(board[..], d.pick);
        case Medium =>
          if d.coin < 0.5 {
            index := RandomEmptyCell(board[..], d.pick);
          } else {
            var r := Search(board, currentPlayer);
            index := At(r.index);
          }
        case Hard =>
          var r := Search(board, currentPlayer);
          index := At(r.index);
      }
      assert board[..] == before && index == BestMove(before, currentPlayer, difficulty, d);
      if index != At(-1) {
        MakeMove(index);
      }
    }

    /** `resetGame`: a new board of nine empty cells, no winner, the game open; the
        mark to move and the counters stay. */
    method ResetGame()
      requires Valid()
      modifies this
      ensures Valid() && fresh(board) && board[..] == seq(9, _ => "") && winner == None && !isGameOver
      ensures currentPlayer == old(currentPlayer) && difficulty == old(difficulty)
      ensures wins == old(wins) && losses == old(losses) && draws == old(draws)
    {
      board := new string[9](_ => "");
      winner := None;
      isGameOver := false;
    }

    /** `setDifficulty`. */
    method SetDifficulty(d: Difficulty)
      requires Valid()
      modifies this
      ensures Valid() && difficulty == d && fresh(board) && board[..] == seq(9, _ => "")
      ensures winner == None && !isGameOver
      ensures currentPlayer == old(currentPlayer) && wins == old(wins) && losses == old(losses) && draws == old(draws)
    {
      difficulty := d;
      ResetGame();
    }
  }
}
