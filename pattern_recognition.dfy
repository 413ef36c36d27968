/** The pattern-recognition agent of src/algorithm/pattern_recognition.py for
    tic-tac-toe: it records the human player's moves (the human plays 'O', the
    agent 'X'), folds a finished game into per-player tables of board
    patterns, first moves and favourite moves, predicts the human's next move
    from those tables, and chooses a counter-move by fixed priorities (win,
    block, predicted threat, centre, best corner, edge, any empty cell). The
    pattern file is not read or written; the constructor takes the table that
    loading would produce. */
module PatternRecognition {
  import opened Common
  import QLearning

  /** The board: rows of None or a one-character mark, as in the Q-learning
      agent. */
  type Cell = QLearning.Cell
  type Board = QLearning.Board

  /** A move `(row, col)`. */
  type Move = QLearning.Action

  predicate InBoard(m: Move) {
    0 <= m.row < 3 && 0 <= m.col < 3
  }

  // ---------------------------------------------------------------------------
  // Board keys and move keys

  /** `_board_to_string(board)`: the rows' characters one after the other,
      '_' for None. */
  function BoardKey(b: Board): string
  {
    if |b| == 0 then [] else BoardKey(b[..|b| - 1]) + QLearning.RowString(b[|b| - 1])
  }

  /** The key of a 3×3 board has nine characters, cell (i, j) at 3 * i + j. */
  lemma BoardKeyCells(b: Board)
    requires QLearning.IsBoard(b)
    ensures |BoardKey(b)| == 9
    ensures forall i, j :: 0 <= i < 3 && 0 <= j < 3 ==>
      BoardKey(b)[3 * i + j] == if b[i][j].None? then '_' else b[i][j].value
  {
    assert b[..3] == b && b[..2][..1] == b[..1] && b[..1][..0] == [];
    assert BoardKey(b[..1]) == QLearning.RowString(b[0]);
    assert BoardKey(b[..2]) == BoardKey(b[..1]) + QLearning.RowString(b[1]);
    assert BoardKey(b) == BoardKey(b[..2]) + QLearning.RowString(b[2]);
  }

  /** The loops of `_board_to_string`. */
  method BoardToString(board: Board) returns (s: string)
    ensures s == BoardKey(board)
  {
    s := "";
    for i := 0 to |board|
      invariant s == BoardKey(board[..i])
    {
      for j := 0 to |board[i]|
        invariant s == BoardKey(board[..i]) + QLearning.RowString(board[i])[..j]
      {
        s := s + [if board[i][j].None? then '_' else board[i][j].value];
      }
      assert board[..i + 1][..i] == board[..i];
      assert QLearning.RowString(board[i])[..|board[i]|] == QLearning.RowString(board[i]);
    }
    assert board[..|board|] == board;
  }

  /** `f"{move[0]},{move[1]}"` for a move on the board. */
  function MoveKey(m: Move): string
    requires m.row >= 0 && m.col >= 0
  {
    NatToString(m.row) + [','] + NatToString(m.col)
  }

  /** The position of the first comma. */
  function FirstComma(s: string): (k: Option<nat>)
    ensures k.Some? ==> k.value < |s| && s[k.value] == ',' && forall i :: 0 <= i < k.value ==> s[i] != ','
    ensures k.None? ==> forall i :: 0 <= i < |s| ==> s[i] != ','
  {
    if |s| == 0 then None
    else if s[0] == ',' then Some(0)
    else match FirstComma(s[1..]) {
      case None => None
      case Some(k) => Some(k + 1)
    }
  }

  predicate AllDigits(s: string) {
    forall i :: 0 <= i < |s| ==> IsDigit(s[i])
  }

  /** `row, col = map(int, s.split(','))`: None where Python raises (not
      exactly one comma, or a part that is not a decimal numeral). */
  function ParseMove(s: string): Option<Move>
  {
    match FirstComma(s) {
      case None => None
      case Some(k) =>
        var r, c := s[..k], s[k + 1..];
        if |r| > 0 && |c| > 0 && AllDigits(r) && AllDigits(c)
        then Some(QLearning.Action(DigitsValue(r), DigitsValue(c)))
        else None
    }
  }

  /** Reading a move key back gives the move, so the tables may be keyed by
      the move itself. */
  lemma MoveKeyRoundTrip(m: Move)
    requires m.row >= 0 && m.col >= 0
    ensures ParseMove(MoveKey(m)) == Some(m)
  {
    var r, c := NatToString(m.row), NatToString(m.col);
    var s := MoveKey(m);
    assert forall i :: 0 <= i < |r| ==> s[i] == r[i] && s[i] != ',';
    assert s[|r|] == ',';
    assert FirstComma(s) == Some(|r|);
    assert s[..|r|] == r && s[|r| + 1..] == c;
    NatToStringValue(m.row);
    NatToStringValue(m.col);
  }

  // ---------------------------------------------------------------------------
  // Wins and threats

  /** The eight lines of the board: rows, columns, the two diagonals. */
  function Line(k: nat): (l: seq<Move>)
    requires k < 8
    ensures |l| == 3 && forall i :: 0 <= i < 3 ==> InBoard(l[i])
  {
    if k < 3 then [QLearning.Action(k, 0), QLearning.Action(k, 1), QLearning.Action(k, 2)]
    else if k < 6 then [QLearning.Action(0, k - 3), QLearning.Action(1, k - 3), QLearning.Action(2, k - 3)]
    else if k == 6 then [QLearning.Action(0, 0), QLearning.Action(1, 1), QLearning.Action(2, 2)]
    else [QLearning.Action(0, 2), QLearning.Action(1, 1), QLearning.Action(2, 0)]
  }

  function At(b: Board, m: Move): Cell
    requires QLearning.IsBoard(b) && InBoard(m)
  {
    b[m.row][m.col]
  }

  predicate LineFull(b: Board, p: char, k: nat)
    requires QLearning.IsBoard(b) && k < 8
  {
    forall i :: 0 <= i < 3 ==> At(b, Line(k)[i]) == Some(p)
  }

  /** Python's chain `x == y == z == player`. */
  predicate Chain(x: Cell, y: Cell, z: Cell, p: char) {
    x == y && y == z && z == Some(p)
  }

  /** `_check_win(board, player)`: the row loop, the column loop, then the
      two diagonals. */
  function CheckWin(b: Board, p: char): bool
    requires QLearning.IsBoard(b)
  {
    (exists i :: 0 <= i < 3 && Chain(b[i][0], b[i][1], b[i][2], p))
    || (exists j :: 0 <= j < 3 && Chain(b[0][j], b[1][j], b[2][j], p))
    || Chain(b[0][0], b[1][1], b[2][2], p)
    || Chain(b[0][2], b[1][1], b[2][0], p)
  }

  lemma LineChain(b: Board, p: char, k: nat)
    requires QLearning.IsBoard(b) && k < 8
    ensures LineFull(b, p, k) <==> Chain(At(b, Line(k)[0]), At(b, Line(k)[1]), At(b, Line(k)[2]), p)
  {
  }

  /** A player has won exactly when one of the eight lines is all theirs. */
  lemma CheckWinLines(b: Board, p: char)
    requires QLearning.IsBoard(b)
    ensures CheckWin(b, p) <==> exists k :: 0 <= k < 8 && LineFull(b, p, k)
  {
    if CheckWin(b, p) {
      if i :| 0 <= i < 3 && Chain(b[i][0], b[i][1], b[i][2], p) {
        LineChain(b, p, i);
      } else if j :| 0 <= j < 3 && Chain(b[0][j], b[1][j], b[2][j], p) {
        LineChain(b, p, j + 3);
      } else if Chain(b[0][0], b[1][1], b[2][2], p) {
        LineChain(b, p, 6);
      } else {
        LineChain(b, p, 7);
      }
    }
    if k :| 0 <= k < 8 && LineFull(b, p, k) {
      LineChain(b, p, k);
      if k < 3 {
        assert Chain(b[k][0], b[k][1], b[k][2], p);
      } else if k < 6 {
        assert Chain(b[0][k - 3], b[1][k - 3], b[2][k - 3], p);
      }
    }
  }

  /** How many of the first n cells of a line hold c. */
  function Tally(b: Board, l: seq<Move>, c: Cell, n: nat): (t: nat)
    requires QLearning.IsBoard(b) && n <= |l| && forall i :: 0 <= i < |l| ==> InBoard(l[i])
    ensures t <= n
  {
    if n == 0 then 0 else Tally(b, l, c, n - 1) + (if At(b, l[n - 1]) == c then 1 else 0)
  }

  lemma TallyThree(b: Board, l: seq<Move>, c: Cell)
    requires QLearning.IsBoard(b) && |l| == 3 && forall i :: 0 <= i < 3 ==> InBoard(l[i])
    ensures Tally(b, l, c, 3) == (if At(b, l[0]) == c then 1 else 0) + (if At(b, l[1]) == c then 1 else 0) + (if At(b, l[2]) == c then 1 else 0)
  {
    assert Tally(b, l, c, 1) == (if At(b, l[0]) == c then 1 else 0);
  }

  /** A line holding two of the player's marks and one empty cell. */
  predicate Threat(b: Board, p: char, k: nat)
    requires QLearning.IsBoard(b) && k < 8
  {
    Tally(b, Line(k), Some(p), 3) == 2 && Tally(b, Line(k), None, 3) == 1
  }

  /** The number of threats among the first n lines. */
  function Threats(b: Board, p: char, n: nat): (t: nat)
    requires QLearning.IsBoard(b) && n <= 8
    ensures t <= n
  {
    if n == 0 then 0 else Threats(b, p, n - 1) + (if Threat(b, p, n - 1) then 1 else 0)
  }

  /** `player_count` and `empty_count` of one line: the two generator sums. */
  function LineCounts(b: Board, p: char, k: nat): (counts: (nat, nat))
    requires QLearning.IsBoard(b) && k < 8
    ensures counts.0 == Tally(b, Line(k), Some(p), 3) && counts.1 == Tally(b, Line(k), None, 3)
  {
    var l := Line(k);
    TallyThree(b, l, Some(p));
    TallyThree(b, l, None);
    ((if At(b, l[0]) == Some(p) then 1 else 0) + (if At(b, l[1]) == Some(p) then 1 else 0) + (if At(b, l[2]) == Some(p) then 1 else 0),
     (if At(b, l[0]).None? then 1 else 0) + (if At(b, l[1]).None? then 1 else 0) + (if At(b, l[2]).None? then 1 else 0))
  }

  /** `_count_potential_winning_lines(board, player)`: rows, then columns,
      then the two diagonals; the count is that of the threatening lines, at
      most eight. */
  method CountPotentialWinningLines(board: Board, player: char) returns (potentialWins: nat)
    requires QLearning.IsBoard(board)
    ensures potentialWins == Threats(board, player, 8) && potentialWins <= 8
  {
    potentialWins := 0;
    for row := 0 to 3
      invariant potentialWins == Threats(board, player, row)
    {
      var (playerCount, emptyCount) := LineCounts(board, player, row);
      if playerCount == 2 && emptyCount == 1 {
        potentialWins := potentialWins + 1;
      }
    }
    for col := 0 to 3
      invariant potentialWins == Threats(board, player, 3 + col)
    {
      var (playerCount, emptyCount) := LineCounts(board, player, 3 + col);
      if playerCount == 2 && emptyCount == 1 {
        potentialWins := potentialWins + 1;
      }
    }
    var (playerCountMain, emptyCountMain) := LineCounts(board, player, 6);
    if playerCountMain == 2 && emptyCountMain == 1 {
      potentialWins := potentialWins + 1;
    }
    var (playerCountOther, emptyCountOther) := LineCounts(board, player, 7);
    if playerCountOther == 2 && emptyCountOther == 1 {
      potentialWins := potentialWins + 1;
    }
  }

  // ---------------------------------------------------------------------------
  // Completing a line

  /** `temp_board[row][col] = mark` on a deep copy. */
  function Place(b: Board, m: Move, p: char): (b': Board)
    requires QLearning.IsBoard(b) && InBoard(m)
    ensures QLearning.IsBoard(b')
  {
    b[m.row := b[m.row][m.col := Some(p)]]
  }

  /** An empty cell where the mark p would complete a line. */
  predicate Completes(b: Board, p: char, m: Move)
    requires QLearning.IsBoard(b)
  {
    InBoard(m) && b[m.row][m.col].None? && CheckWin(Place(b, m, p), p)
  }

  /** The scan of the two loops from cell (i, j) on, row by row. */
  function FirstCompleting(b: Board, p: char, i: nat, j: nat): Option<Move>
    requires QLearning.IsBoard(b) && i <= 3 && j <= 3
    decreases 3 - i, 3 - j
  {
    if i == 3 then None
    else if j == 3 then FirstCompleting(b, p, i + 1, 0)
    else if Completes(b, p, QLearning.Action(i, j)) then Some(QLearning.Action(i, j))
    else FirstCompleting(b, p, i, j + 1)
  }

  /** The scan finds the first completing cell at or after (i, j) in
      row-major order, and finds nothing only when there is none. */
  lemma {:induction false} FirstCompletingSpec(b: Board, p: char, i: nat, j: nat)
    requires QLearning.IsBoard(b) && i <= 3 && j <= 3
    ensures var r := FirstCompleting(b, p, i, j);
      (r.None? <==> forall m :: Completes(b, p, m) ==> QLearning.Index(m) < 3 * i + j) &&
      (r.Some? ==>
        Completes(b, p, r.value) && QLearning.Index(r.value) >= 3 * i + j &&
        forall m :: Completes(b, p, m) && 3 * i + j <= QLearning.Index(m) ==> QLearning.Index(r.value) <= QLearning.Index(m))
    decreases 3 - i, 3 - j
  {
    if i == 3 {
    } else if j == 3 {
      FirstCompletingSpec(b, p, i + 1, 0);
    } else if Completes(b, p, QLearning.Action(i, j)) {
    } else {
      FirstCompletingSpec(b, p, i, j + 1);
      forall m | Completes(b, p, m) && QLearning.Index(m) == 3 * i + j ensures m == QLearning.Action(i, j) {
      }
    }
  }

  /** The pair of loops of `choose_counter_move` that try the mark p on every
      empty cell of a deep copy. */
  method ScanCompleting(board: Board, p: char) returns (m: Option<Move>)
    requires QLearning.IsBoard(board)
    ensures m == FirstCompleting(board, p, 0, 0)
  {
    for row := 0 to 3
      invariant FirstCompleting(board, p, row, 0) == FirstCompleting(board, p, 0, 0)
    {
      for col := 0 to 3
        invariant FirstCompleting(board, p, row, col) == FirstCompleting(board, p, 0, 0)
      {
        if board[row][col].None? {
          var tempBoard := Place(board, QLearning.Action(row, col), p);
          if CheckWin(tempBoard, p) {
            return Some(QLearning.Action(row, col));
          }
        }
      }
    }
    return None;
  }

  // ---------------------------------------------------------------------------
  // The pattern tables

  /** A dictionary from move keys that the source iterates: its entries in
      insertion order, each key once. */
  type Weights = seq<(Move, real)>

  /** Every key is a cell of the board. */
  predicate WeightTable(xs: Weights) {
    forall i :: 0 <= i < |xs| ==> InBoard(xs[i].0)
  }

  /** The position of key m (its last, the only one in a dictionary), or -1. */
  function IndexOf(xs: Weights, m: Move): (k: int)
    ensures -1 <= k < |xs|
    ensures k >= 0 ==> xs[k].0 == m && forall i :: k < i < |xs| ==> xs[i].0 != m
    ensures k < 0 ==> forall i :: 0 <= i < |xs| ==> xs[i].0 != m
  {
    if |xs| == 0 then -1
    else if xs[|xs| - 1].0 == m then |xs| - 1
    else IndexOf(xs[..|xs| - 1], m)
  }

  /** `d.get(m, 0)`. */
  function Weight(xs: Weights, m: Move): real {
    var k := IndexOf(xs, m);
    if k >= 0 then xs[k].1 else 0.0
  }

  /** `if m not in d: d[m] = 0` followed by `d[m] += w`: a key already
      present keeps its place, a new one goes last. */
  function AddWeight(xs: Weights, m: Move, w: real): Weights {
    var k := IndexOf(xs, m);
    if k >= 0 then xs[k := (m, xs[k].1 + w)] else xs + [(m, w)]
  }

  /** The position of a key depends on the keys alone. */
  lemma {:induction false} IndexOfKeys(xs: Weights, ys: Weights, m: Move)
    requires |xs| == |ys| && forall i :: 0 <= i < |xs| ==> xs[i].0 == ys[i].0
    ensures IndexOf(xs, m) == IndexOf(ys, m)
  {
    if |xs| > 0 {
      IndexOfKeys(xs[..|xs| - 1], ys[..|ys| - 1], m);
    }
  }

  /** Adding w to m keeps the keys in order, puts a new m last, and changes
      no weight but m's, which grows by w. */
  lemma AddWeightSpec(xs: Weights, m: Move, w: real, m': Move)
    requires WeightTable(xs) && InBoard(m)
    ensures var ys := AddWeight(xs, m, w);
      WeightTable(ys)
      && (IndexOf(xs, m) >= 0 ==> |ys| == |xs| && forall i :: 0 <= i < |xs| ==> ys[i].0 == xs[i].0)
      && (IndexOf(xs, m) < 0 ==> ys == xs + [(m, w)])
      && Weight(ys, m') == Weight(xs, m') + (if m' == m then w else 0.0)
  {
    var ys := AddWeight(xs, m, w);
    if IndexOf(xs, m) >= 0 {
      IndexOfKeys(xs, ys, m');
    } else {
      assert ys[..|xs|] == xs;
    }
  }

  /** `player_data["board_patterns"][board]`. */
  datatype BoardData = BoardData(count: int, moves: Weights, weight: real)

  /** `player_patterns[player_id]`. The three rates stay at their initial 0. */
  datatype PlayerData = PlayerData(
    gamesPlayed: int, winRate: int, drawRate: int, lossRate: int,
    boardPatterns: map<string, BoardData>, firstMoves: Weights, favoriteMoves: Weights,
    adaptationLevel: real)

  /** The record `analyze_game` creates for an unknown player. */
  const NewPlayer := PlayerData(0, 0, 0, 0, map[], [], [], 1.0)

  /** One entry of `current_game_moves`; the move is kept by value, its key
      being `MoveKey`. */
  datatype MoveRecord = MoveRecord(board: string, move: Move, player: string)

  /** Every board pattern holds at least one move. */
  predicate PatternsWellFormed(bp: map<string, BoardData>) {
    forall k :: k in bp ==> |bp[k].moves| > 0 && WeightTable(bp[k].moves)
  }

  predicate WellFormedPlayer(pd: PlayerData) {
    0.5 <= pd.adaptationLevel <= 1.0
    && WeightTable(pd.firstMoves) && WeightTable(pd.favoriteMoves) && PatternsWellFormed(pd.boardPatterns)
  }

  predicate WellFormedPatterns(ps: map<string, PlayerData>) {
    forall id :: id in ps ==> WellFormedPlayer(ps[id])
  }

  /** The adaptation step of `analyze_game`: up by 0.1 (at most 1.0) when the
      human ('O') won, down by 0.1 (at least 0.5) when the agent ('X') won. */
  function Adapted(level: real, winner: Option<string>): (r: real)
    ensures 0.5 <= level <= 1.0 ==> 0.5 <= r <= 1.0
    ensures winner == Some("O") ==> r == if level + 0.1 <= 1.0 then level + 0.1 else 1.0
    ensures winner == Some("X") ==> r == if level - 0.1 >= 0.5 then level - 0.1 else 0.5
    ensures winner != Some("O") && winner != Some("X") ==> r == level
  {
    if winner == Some("O") then MinReal(1.0, level + 0.1)
    else if winner == Some("X") then MaxReal(0.5, level - 0.1)
    else level
  }

  /** One pass of the loop of `analyze_game` over the recorded moves: a move
      of the player counts for its board pattern and adds the weight to the
      pattern's move, to the first moves when the game had a single recorded
      move, and to the favourite moves. */
  function Learn(pd: PlayerData, rec: MoveRecord, id: string, w: real, single: bool): PlayerData
  {
    if rec.player != id then pd
    else
      var bd := if rec.board in pd.boardPatterns then pd.boardPatterns[rec.board] else BoardData(0, [], w);
      var bd' := bd.(count := bd.count + 1, moves := AddWeight(bd.moves, rec.move, w));
      pd.(boardPatterns := pd.boardPatterns[rec.board := bd'],
          firstMoves := if single then AddWeight(pd.firstMoves, rec.move, w) else pd.firstMoves,
          favoriteMoves := AddWeight(pd.favoriteMoves, rec.move, w))
  }

  function LearnAll(pd: PlayerData, recs: seq<MoveRecord>, id: string, w: real, single: bool): PlayerData
  {
    if |recs| == 0 then pd else Learn(LearnAll(pd, recs[..|recs| - 1], id, w, single), recs[|recs| - 1], id, w, single)
  }

  /** `analyze_game(winner, player_id)` on the player's record once settings
      are present: the game counted, the adaptation level stepped, then the
      moves learnt with weight w, which the caller computes as
      `pattern_weight` times the level read BEFORE the step. */
  function Analysis(pd: PlayerData, recs: seq<MoveRecord>, id: string, w: real, winner: Option<string>): PlayerData
  {
    LearnAll(pd.(gamesPlayed := pd.gamesPlayed + 1, adaptationLevel := Adapted(pd.adaptationLevel, winner)), recs, id, w, |recs| == 1)
  }

  /** n times the weight, added up one move at a time. */
  function Times(n: nat, w: real): real {
    if n == 0 then 0.0 else Times(n - 1, w) + w
  }

  lemma {:induction false} TimesProduct(n: nat, w: real)
    ensures Times(n, w) == n as real * w
  {
    if n > 0 {
      TimesProduct(n - 1, w);
    }
  }

  /** How many recorded moves of the player were made on the board key. */
  function OnBoard(recs: seq<MoveRecord>, id: string, key: string): nat {
    if |recs| == 0 then 0
    else OnBoard(recs[..|recs| - 1], id, key) + (if recs[|recs| - 1].player == id && recs[|recs| - 1].board == key then 1 else 0)
  }

  /** How many recorded moves of the player were the move m. */
  function Plays(recs: seq<MoveRecord>, id: string, m: Move): nat {
    if |recs| == 0 then 0
    else Plays(recs[..|recs| - 1], id, m) + (if recs[|recs| - 1].player == id && recs[|recs| - 1].move == m then 1 else 0)
  }

  function PatternCount(pd: PlayerData, key: string): int {
    if key in pd.boardPatterns then pd.boardPatterns[key].count else 0
  }

  /** One learning step keeps the record well formed and leaves the
      counters and the level alone. */
  lemma LearnWellFormed(pd: PlayerData, rec: MoveRecord, id: string, w: real, single: bool)
    requires WellFormedPlayer(pd) && InBoard(rec.move)
    ensures var pd' := Learn(pd, rec, id, w, single);
      WellFormedPlayer(pd') && pd'.gamesPlayed == pd.gamesPlayed && pd'.adaptationLevel == pd.adaptationLevel
  {
    if rec.player == id {
      var bd := if rec.board in pd.boardPatterns then pd.boardPatterns[rec.board] else BoardData(0, [], w);
      AddWeightSpec(bd.moves, rec.move, w, rec.move);
      AddWeightSpec(pd.favoriteMoves, rec.move, w, rec.move);
      AddWeightSpec(pd.firstMoves, rec.move, w, rec.move);
      var bp' := Learn(pd, rec, id, w, single).boardPatterns;
      assert bp' == pd.boardPatterns[rec.board := bd.(count := bd.count + 1, moves := AddWeight(bd.moves, rec.move, w))];
      assert PatternsWellFormed(bp');
    }
  }

  lemma {:induction false} LearnAllWellFormed(pd: PlayerData, recs: seq<MoveRecord>, id: string, w: real, single: bool)
    requires WellFormedPlayer(pd) && forall i :: 0 <= i < |recs| ==> InBoard(recs[i].move)
    ensures var pd' := LearnAll(pd, recs, id, w, single);
      WellFormedPlayer(pd') && pd'.gamesPlayed == pd.gamesPlayed && pd'.adaptationLevel == pd.adaptationLevel
  {
    if |recs| > 0 {
      LearnAllWellFormed(pd, recs[..|recs| - 1], id, w, single);
      LearnWellFormed(LearnAll(pd, recs[..|recs| - 1], id, w, single), recs[|recs| - 1], id, w, single);
    }
  }

  /** The learning loop adds exactly the player's moves on a board to that
      board's count, and creates a pattern only for a board they played on. */
  lemma {:induction false} LearnAllCounts(pd: PlayerData, recs: seq<MoveRecord>, id: string, w: real, single: bool, key: string)
    ensures var pd' := LearnAll(pd, recs, id, w, single);
      (key in pd'.boardPatterns <==> key in pd.boardPatterns || OnBoard(recs, id, key) > 0)
      && PatternCount(pd', key) == PatternCount(pd, key) + OnBoard(recs, id, key)
  {
    if |recs| > 0 {
      LearnAllCounts(pd, recs[..|recs| - 1], id, w, single, key);
    }
  }

  /** The favourite moves after learning from recs, on their own. */
  function Favourites(fav: Weights, recs: seq<MoveRecord>, id: string, w: real): Weights {
    if |recs| == 0 then fav
    else
      var prev := Favourites(fav, recs[..|recs| - 1], id, w);
      if recs[|recs| - 1].player == id then AddWeight(prev, recs[|recs| - 1].move, w) else prev
  }

  lemma {:induction false} LearnAllFavouriteMoves(pd: PlayerData, recs: seq<MoveRecord>, id: string, w: real, single: bool)
    ensures LearnAll(pd, recs, id, w, single).favoriteMoves == Favourites(pd.favoriteMoves, recs, id, w)
  {
    if |recs| > 0 {
      LearnAllFavouriteMoves(pd, recs[..|recs| - 1], id, w, single);
    }
  }

  lemma {:induction false} FavouritesWeight(fav: Weights, recs: seq<MoveRecord>, id: string, w: real, m: Move)
    requires WeightTable(fav) && forall i :: 0 <= i < |recs| ==> InBoard(recs[i].move)
    ensures WeightTable(Favourites(fav, recs, id, w))
    ensures Weight(Favourites(fav, recs, id, w), m) == Weight(fav, m) + Times(Plays(recs, id, m), w)
  {
    if |recs| > 0 {
      var init := recs[..|recs| - 1];
      var rec := recs[|recs| - 1];
      FavouritesWeight(fav, init, id, w, m);
      var prev := Favourites(fav, init, id, w);
      if rec.player == id {
        AddWeightSpec(prev, rec.move, w, m);
      }
      if rec.player == id && rec.move == m {
        assert Plays(recs, id, m) == Plays(init, id, m) + 1;
        assert Times(Plays(recs, id, m), w) == Times(Plays(init, id, m), w) + w;
      } else {
        assert Plays(recs, id, m) == Plays(init, id, m);
      }
    }
  }

  /** The favourite weight of a move grows by the weight for every time the
      player played it. */
  lemma LearnAllFavourites(pd: PlayerData, recs: seq<MoveRecord>, id: string, w: real, single: bool, m: Move)
    requires WellFormedPlayer(pd) && forall i :: 0 <= i < |recs| ==> InBoard(recs[i].move)
    ensures Weight(LearnAll(pd, recs, id, w, single).favoriteMoves, m) == Weight(pd.favoriteMoves, m) + Times(Plays(recs, id, m), w)
  {
    LearnAllFavouriteMoves(pd, recs, id, w, single);
    FavouritesWeight(pd.favoriteMoves, recs, id, w, m);
  }

  /** A finished game is counted once and moves the level as `Adapted` says. */
  lemma AnalysisCounters(pd: PlayerData, recs: seq<MoveRecord>, id: string, w: real, winner: Option<string>)
    requires WellFormedPlayer(pd) && forall i :: 0 <= i < |recs| ==> InBoard(recs[i].move)
    ensures Analysis(pd, recs, id, w, winner).gamesPlayed == pd.gamesPlayed + 1
    ensures Analysis(pd, recs, id, w, winner).adaptationLevel == Adapted(pd.adaptationLevel, winner)
  {
    var pd1 := pd.(gamesPlayed := pd.gamesPlayed + 1, adaptationLevel := Adapted(pd.adaptationLevel, winner));
    LearnAllWellFormed(pd1, recs, id, w, |recs| == 1);
  }

  /** The record stays well formed; in particular the level stays within
      [0.5, 1.0]. */
  lemma AnalysisWellFormed(pd: PlayerData, recs: seq<MoveRecord>, id: string, w: real, winner: Option<string>)
    requires WellFormedPlayer(pd) && forall i :: 0 <= i < |recs| ==> InBoard(recs[i].move)
    ensures WellFormedPlayer(Analysis(pd, recs, id, w, winner))
  {
    var pd1 := pd.(gamesPlayed := pd.gamesPlayed + 1, adaptationLevel := Adapted(pd.adaptationLevel, winner));
    LearnAllWellFormed(pd1, recs, id, w, |recs| == 1);
  }

  // ---------------------------------------------------------------------------
  // Predicting the human's move

  /** `max(items, key=lambda x: x[1])`: the first entry of greatest weight. */
  function Heaviest(xs: Weights): (k: nat)
    requires |xs| > 0
    ensures k < |xs| && (forall j :: 0 <= j < |xs| ==> xs[j].1 <= xs[k].1) && forall j :: 0 <= j < k ==> xs[j].1 < xs[k].1
  {
    if |xs| == 1 then 0
    else
      var k := Heaviest(xs[..|xs| - 1]);
      if xs[|xs| - 1].1 > xs[k].1 then |xs| - 1 else k
  }

  /** The favourite moves that `row < 3 and col < 3 and board[row][col] is
      None` keeps, in order. */
  function Playable(xs: Weights, b: Board): Weights
    requires QLearning.IsBoard(b) && forall i :: 0 <= i < |xs| ==> InBoard(xs[i].0)
  {
    if |xs| == 0 then []
    else
      var m := xs[|xs| - 1].0;
      assert InBoard(m);
      Playable(xs[..|xs| - 1], b) + if m.row < 3 && m.col < 3 && b[m.row][m.col].None? then [xs[|xs| - 1]] else []
  }

  lemma {:induction false} PlayableExact(xs: Weights, b: Board, e: (Move, real))
    requires QLearning.IsBoard(b) && forall i :: 0 <= i < |xs| ==> InBoard(xs[i].0)
    ensures e in Playable(xs, b) <==> e in xs && b[e.0.row][e.0.col].None?
  {
    if |xs| > 0 {
      PlayableExact(xs[..|xs| - 1], b, e);
      assert xs == xs[..|xs| - 1] + [xs[|xs| - 1]];
    }
  }

  /** `predict_move(board, player_id)`. */
  function Predicted(ps: map<string, PlayerData>, b: Board, id: string): (r: Option<Move>)
    requires QLearning.IsBoard(b) && WellFormedPatterns(ps)
    ensures r.Some? ==> InBoard(r.value)
  {
    if id !in ps then None
    else
      var pd := ps[id];
      var key := BoardKey(b);
      if key in pd.boardPatterns then
        var moves := pd.boardPatterns[key].moves;
        Some(moves[Heaviest(moves)].0)
      else if |pd.favoriteMoves| > 0 then
        var valid := Playable(pd.favoriteMoves, b);
        PlayableInBoard(pd.favoriteMoves, b);
        if |valid| > 0 then Some(valid[Heaviest(valid)].0) else None
      else None
  }

  lemma PlayableInBoard(xs: Weights, b: Board)
    requires QLearning.IsBoard(b) && forall i :: 0 <= i < |xs| ==> InBoard(xs[i].0)
    ensures forall i :: 0 <= i < |Playable(xs, b)| ==> InBoard(Playable(xs, b)[i].0)
  {
    forall i | 0 <= i < |Playable(xs, b)| ensures InBoard(Playable(xs, b)[i].0) {
      PlayableExact(xs, b, Playable(xs, b)[i]);
    }
  }

  /** m is a key of greatest weight in xs. */
  predicate Top(xs: Weights, m: Move) {
    exists i :: 0 <= i < |xs| && xs[i].0 == m && forall j :: 0 <= j < |xs| ==> xs[j].1 <= xs[i].1
  }

  /** m is a key on an empty cell of greatest weight among those on empty
      cells. */
  predicate TopEmpty(xs: Weights, b: Board, m: Move)
    requires QLearning.IsBoard(b) && WeightTable(xs)
  {
    exists i :: 0 <= i < |xs| && xs[i].0 == m && b[m.row][m.col].None? &&
      forall j :: 0 <= j < |xs| && b[xs[j].0.row][xs[j].0.col].None? ==> xs[j].1 <= xs[i].1
  }

  /** No prediction for an unknown player; a seen board predicts its most
      weighted move; otherwise only an empty cell among the favourites is
      predicted, one of greatest weight among the empty ones. */
  lemma PredictedSpec(ps: map<string, PlayerData>, b: Board, id: string)
    requires QLearning.IsBoard(b) && WellFormedPatterns(ps)
    ensures id !in ps ==> Predicted(ps, b, id).None?
    ensures id in ps && BoardKey(b) in ps[id].boardPatterns ==>
      Predicted(ps, b, id).Some? && Top(ps[id].boardPatterns[BoardKey(b)].moves, Predicted(ps, b, id).value)
    ensures id in ps && BoardKey(b) !in ps[id].boardPatterns && Predicted(ps, b, id).Some? ==>
      TopEmpty(ps[id].favoriteMoves, b, Predicted(ps, b, id).value)
  {
    if id in ps && BoardKey(b) in ps[id].boardPatterns {
      var moves := ps[id].boardPatterns[BoardKey(b)].moves;
      var i := Heaviest(moves);
      assert Predicted(ps, b, id) == Some(moves[i].0);
      assert Top(moves, moves[i].0);
    }
    if id in ps && BoardKey(b) !in ps[id].boardPatterns && Predicted(ps, b, id).Some? {
      var fav := ps[id].favoriteMoves;
      var valid := Playable(fav, b);
      var e := valid[Heaviest(valid)];
      PlayableExact(fav, b, e);
      var i :| 0 <= i < |fav| && fav[i] == e;
      forall j | 0 <= j < |fav| && b[fav[j].0.row][fav[j].0.col].None? ensures fav[j].1 <= e.1 {
        PlayableExact(fav, b, fav[j]);
      }
      assert TopEmpty(fav, b, e.0);
    }
  }

  // ---------------------------------------------------------------------------
  // Choosing the counter-move

  const Corners: seq<Move> := [QLearning.Action(0, 0), QLearning.Action(0, 2), QLearning.Action(2, 0), QLearning.Action(2, 2)]
  const Edges: seq<Move> := [QLearning.Action(0, 1), QLearning.Action(1, 0), QLearning.Action(1, 2), QLearning.Action(2, 1)]

  /** `[c for c in cells if board[c[0]][c[1]] is None]`. */
  function Free(b: Board, cells: seq<Move>): (r: seq<Move>)
    requires QLearning.IsBoard(b) && forall i :: 0 <= i < |cells| ==> InBoard(cells[i])
    ensures forall x :: x in r <==> x in cells && At(b, x).None?
    ensures forall i :: 0 <= i < |r| ==> InBoard(r[i])
  {
    if |cells| == 0 then []
    else
      var c := cells[|cells| - 1];
      assert cells == cells[..|cells| - 1] + [c];
      Free(b, cells[..|cells| - 1]) + if At(b, c).None? then [c] else []
  }

  /** The threats 'X' would hold after taking cell m. */
  function Gain(b: Board, m: Move): nat
    requires QLearning.IsBoard(b) && InBoard(m)
  {
    Threats(Place(b, m, 'X'), 'X', 8)
  }

  /** The corner loop over the first n free corners: the best corner so far
      and its count, replaced only on a strictly greater count. */
  function CornerScan(b: Board, cs: seq<Move>, n: nat): (Option<Move>, int)
    requires QLearning.IsBoard(b) && n <= |cs| && forall i :: 0 <= i < |cs| ==> InBoard(cs[i])
  {
    if n == 0 then (None, -1)
    else
      var (best, most) := CornerScan(b, cs, n - 1);
      var lines := Gain(b, cs[n - 1]);
      if lines > most then (Some(cs[n - 1]), lines) else (best, most)
  }

  /** cs[k] is the first of the first n cells with the greatest gain. */
  predicate FirstBest(b: Board, cs: seq<Move>, n: nat, k: nat)
    requires QLearning.IsBoard(b) && n <= |cs| && forall i :: 0 <= i < |cs| ==> InBoard(cs[i])
  {
    k < n && (forall j :: 0 <= j < n ==> Gain(b, cs[j]) <= Gain(b, cs[k])) && forall j :: 0 <= j < k ==> Gain(b, cs[j]) < Gain(b, cs[k])
  }

  predicate ScanFindsBest(b: Board, cs: seq<Move>, n: nat)
    requires QLearning.IsBoard(b) && n <= |cs| && forall i :: 0 <= i < |cs| ==> InBoard(cs[i])
  {
    exists k :: 0 <= k < n && FirstBest(b, cs, n, k) && CornerScan(b, cs, n) == (Some(cs[k]), Gain(b, cs[k]) as int)
  }

  /** Since every count is at least 0, the first corner always beats the
      initial -1: the loop ends with the first corner of greatest count. */
  lemma {:induction false} CornerScanSpec(b: Board, cs: seq<Move>, n: nat)
    requires QLearning.IsBoard(b) && 0 < n <= |cs| && forall i :: 0 <= i < |cs| ==> InBoard(cs[i])
    ensures ScanFindsBest(b, cs, n)
  {
    if n == 1 {
      assert CornerScan(b, cs, 0) == (None, -1);
      assert FirstBest(b, cs, 1, 0);
    } else {
      CornerScanSpec(b, cs, n - 1);
      var k :| 0 <= k < n - 1 && FirstBest(b, cs, n - 1, k) && CornerScan(b, cs, n - 1) == (Some(cs[k]), Gain(b, cs[k]) as int);
      if Gain(b, cs[n - 1]) > Gain(b, cs[k]) {
        assert FirstBest(b, cs, n, n - 1);
      } else {
        assert FirstBest(b, cs, n, k);
      }
    }
  }

  /** The corner loop of `choose_counter_move`; `CornerScanSpec` shows it
      ends on the first free corner that leaves 'X' the most threats. */
  method BestCorner(board: Board, availableCorners: seq<Move>) returns (bestCorner: Option<Move>)
    requires QLearning.IsBoard(board) && forall i :: 0 <= i < |availableCorners| ==> InBoard(availableCorners[i])
    ensures bestCorner == CornerScan(board, availableCorners, |availableCorners|).0
  {
    bestCorner := None;
    var maxWinningLines: int := -1;
    for i := 0 to |availableCorners|
      invariant (bestCorner, maxWinningLines) == CornerScan(board, availableCorners, i)
    {
      var tempBoard := Place(board, availableCorners[i], 'X');
      var winningLines := CountPotentialWinningLines(tempBoard, 'X');
      if winningLines > maxWinningLines {
        maxWinningLines := winningLines;
        bestCorner := Some(availableCorners[i]);
      }
    }
  }

  /** `choose_counter_move(board, player_id)` with the draw of whichever
      `random.choice` runs. */
  function CounterMove(ps: map<string, PlayerData>, b: Board, id: string, r: real): Option<Move>
    requires QLearning.IsBoard(b) && WellFormedPatterns(ps) && IsDraw(r)
  {
    var win := FirstCompleting(b, 'X', 0, 0);
    var block := FirstCompleting(b, 'O', 0, 0);
    var predicted := Predicted(ps, b, id);
    if win.Some? then win
    else if block.Some? then block
    else if predicted.Some? && CheckWin(Place(b, predicted.value, 'O'), 'O') then predicted
    else if b[1][1].None? then Some(QLearning.Action(1, 1))
    else
      var corners := Free(b, Corners);
      var edges := Free(b, Edges);
      var spots := QLearning.EmptyCells(b);
      if |corners| > 0 then
        var best := CornerScan(b, corners, |corners|).0;
        if best.Some? then best else Some(corners[Pick(r, |corners|)])
      else if |edges| > 0 then Some(edges[Pick(r, |edges|)])
      else if |spots| > 0 then Some(spots[Pick(r, |spots|)])
      else None
  }

  /** An immediate win for 'X' is always taken: the first one in row-major
      order. */
  lemma CounterMoveWins(ps: map<string, PlayerData>, b: Board, id: string, r: real, m: Move)
    requires QLearning.IsBoard(b) && WellFormedPatterns(ps) && IsDraw(r) && Completes(b, 'X', m)
    ensures var c := CounterMove(ps, b, id, r);
      c.Some? && Completes(b, 'X', c.value) && QLearning.Index(c.value) <= QLearning.Index(m)
  {
    FirstCompletingSpec(b, 'X', 0, 0);
  }

  /** Without a win, an immediate win of 'O' is always blocked: the first
      such cell in row-major order. */
  lemma CounterMoveBlocks(ps: map<string, PlayerData>, b: Board, id: string, r: real, m: Move)
    requires QLearning.IsBoard(b) && WellFormedPatterns(ps) && IsDraw(r)
    requires (forall x :: !Completes(b, 'X', x)) && Completes(b, 'O', m)
    ensures var c := CounterMove(ps, b, id, r);
      c.Some? && Completes(b, 'O', c.value) && QLearning.Index(c.value) <= QLearning.Index(m)
  {
    FirstCompletingSpec(b, 'X', 0, 0);
    FirstCompletingSpec(b, 'O', 0, 0);
  }

  /** The predicted-threat rule can only fire on an occupied cell: an empty
      cell where 'O' would win has already been blocked. */
  lemma PredictedThreatOccupied(ps: map<string, PlayerData>, b: Board, id: string)
    requires QLearning.IsBoard(b) && WellFormedPatterns(ps)
    requires FirstCompleting(b, 'O', 0, 0).None?
    requires Predicted(ps, b, id).Some? && CheckWin(Place(b, Predicted(ps, b, id).value, 'O'), 'O')
    ensures At(b, Predicted(ps, b, id).value).Some?
  {
    FirstCompletingSpec(b, 'O', 0, 0);
    if At(b, Predicted(ps, b, id).value).None? {
      assert Completes(b, 'O', Predicted(ps, b, id).value);
    }
  }

  /** Every answer is a cell of the board, and an empty one except where the
      predicted-threat rule fires. */
  lemma CounterMoveCell(ps: map<string, PlayerData>, b: Board, id: string, r: real)
    requires QLearning.IsBoard(b) && WellFormedPatterns(ps) && IsDraw(r)
    ensures var c := CounterMove(ps, b, id, r);
      c.Some? ==>
        InBoard(c.value) && (At(b, c.value).None? || (c == Predicted(ps, b, id) && CheckWin(Place(b, c.value, 'O'), 'O')))
  {
    var c := CounterMove(ps, b, id, r);
    var predicted := Predicted(ps, b, id);
    if FirstCompleting(b, 'X', 0, 0).Some? {
      FirstCompletingSpec(b, 'X', 0, 0);
    } else if FirstCompleting(b, 'O', 0, 0).Some? {
      FirstCompletingSpec(b, 'O', 0, 0);
    } else if predicted.Some? && CheckWin(Place(b, predicted.value, 'O'), 'O') {
    } else if b[1][1].None? {
    } else if |Free(b, Corners)| > 0 {
      var cs := Free(b, Corners);
      CornerScanSpec(b, cs, |cs|);
      assert c.value in cs;
    } else if |Free(b, Edges)| > 0 {
      assert c.value in Free(b, Edges);
    } else if c.Some? {
      QLearning.EmptyCellsExact(b, c.value);
    }
  }

  /** There is an answer whenever a cell is empty. */
  lemma CounterMoveExists(ps: map<string, PlayerData>, b: Board, id: string, r: real, m: Move)
    requires QLearning.IsBoard(b) && WellFormedPatterns(ps) && IsDraw(r)
    requires InBoard(m) && At(b, m).None?
    ensures CounterMove(ps, b, id, r).Some?
  {
    QLearning.EmptyCellsExact(b, m);
  }

  /** When the rules reach the corners, the answer is the first free corner
      of greatest gain; the random corner is never drawn. */
  lemma CounterMoveCorner(ps: map<string, PlayerData>, b: Board, id: string, r: real)
    requires QLearning.IsBoard(b) && WellFormedPatterns(ps) && IsDraw(r)
    requires FirstCompleting(b, 'X', 0, 0).None? && FirstCompleting(b, 'O', 0, 0).None?
    requires Predicted(ps, b, id).None? || !CheckWin(Place(b, Predicted(ps, b, id).value, 'O'), 'O')
    requires b[1][1].Some? && |Free(b, Corners)| > 0
    ensures exists k :: 0 <= k < |Free(b, Corners)| && FirstBest(b, Free(b, Corners), |Free(b, Corners)|, k) && CounterMove(ps, b, id, r) == Some(Free(b, Corners)[k])
  {
    var cs := Free(b, Corners);
    CornerScanSpec(b, cs, |cs|);
  }

  /** With the centre, the corners and the edges taken, no cell is empty:
      the last random choice never runs. */
  lemma NoSpareCell(b: Board)
    requires QLearning.IsBoard(b) && b[1][1].Some? && |Free(b, Corners)| == 0 && |Free(b, Edges)| == 0
    ensures QLearning.EmptyCells(b) == []
  {
    forall m | InBoard(m) ensures b[m.row][m.col].Some? {
      assert m == QLearning.Action(1, 1) || m in Corners || m in Edges;
    }
    if |QLearning.EmptyCells(b)| > 0 {
      QLearning.EmptyCellsExact(b, QLearning.EmptyCells(b)[0]);
    }
  }

  // ---------------------------------------------------------------------------
  // The agent

  /** The record of a player before a game is analysed. */
  function Prior(ps: map<string, PlayerData>, id: string): PlayerData {
    if id in ps then ps[id] else NewPlayer
  }

  /** `PatternRecognitionAgent`. `settings` is the dictionary that
      `game_settings.get_settings()` returns; only its `pattern_weight`
      entry is read, so the model keeps that entry, None while no settings
      were given. */
  class PatternAgent {
    var playerPatterns: map<string, PlayerData>
    var currentGameMoves: seq<MoveRecord>
    var patternWeight: Option<real>

    predicate Valid()
      reads this
    {
      WellFormedPatterns(playerPatterns) && forall i :: 0 <= i < |currentGameMoves| ==> InBoard(currentGameMoves[i].move)
    }

    /** `__init__`, with `load_patterns` having produced `loaded`. */
    constructor (loaded: map<string, PlayerData>)
      requires WellFormedPatterns(loaded)
      ensures Valid() && playerPatterns == loaded && currentGameMoves == [] && patternWeight.None?
    {
      playerPatterns := loaded;
      currentGameMoves := [];
      patternWeight := None;
    }

    /** `set_game_settings(game_settings)`. */
    method SetGameSettings(weight: real)
      requires Valid()
      modifies this
      ensures Valid() && patternWeight == Some(weight)
      ensures playerPatterns == old(playerPatterns) && currentGameMoves == old(currentGameMoves)
    {
      patternWeight := Some(weight);
    }

    /** `reset_for_new_game()`. */
    method ResetForNewGame()
      requires Valid()
      modifies this
      ensures Valid() && currentGameMoves == []
      ensures playerPatterns == old(playerPatterns) && patternWeight == old(patternWeight)
    {
      currentGameMoves := [];
    }

    /** `record_move(board, move, player_id)`: one entry more. */
    method RecordMove(board: Board, move: Move, playerId: string)
      requires Valid() && InBoard(move)
      modifies this
      ensures Valid() && currentGameMoves == old(currentGameMoves) + [MoveRecord(BoardKey(board), move, playerId)]
      ensures playerPatterns == old(playerPatterns) && patternWeight == old(patternWeight)
    {
      var boardStr := BoardToString(board);
      currentGameMoves := currentGameMoves + [MoveRecord(boardStr, move, playerId)];
    }

    /** `analyze_game(winner, player_id)`. Nothing happens without recorded
        moves. Without settings, reading `pattern_weight` raises after an
        unknown player's record was created. Otherwise the player's record
        becomes `Analysis` of it and the game's moves are cleared; saving the
        table is not modelled. */
    method AnalyzeGame(winner: Option<string>, playerId: string) returns (r: Result<()>)
      requires Valid()
      modifies this
      ensures Valid() && patternWeight == old(patternWeight)
      ensures old(|currentGameMoves|) == 0 ==>
        r == Ok(()) && playerPatterns == old(playerPatterns) && currentGameMoves == old(currentGameMoves)
      ensures old(|currentGameMoves|) > 0 && old(patternWeight).None? ==>
        r.Err? && playerPatterns == old(playerPatterns)[playerId := Prior(old(playerPatterns), playerId)]
        && currentGameMoves == old(currentGameMoves)
      ensures old(|currentGameMoves|) > 0 && old(patternWeight).Some? ==>
        var pd := Prior(old(playerPatterns), playerId);
        r == Ok(()) && currentGameMoves == []
        && playerPatterns == old(playerPatterns)[playerId := Analysis(pd, old(currentGameMoves), playerId, old(patternWeight).value * pd.adaptationLevel, winner)]
    {
      if |currentGameMoves| == 0 {
        return Ok(());
      }
      if playerId !in playerPatterns {
        playerPatterns := playerPatterns[playerId := NewPlayer];
      }
      if patternWeight.None? {
        return Err("TypeError: 'NoneType' object is not subscriptable");
      }
      var weightSetting := patternWeight.value;
      var adaptationFactor := playerPatterns[playerId].adaptationLevel;
      var playerData := playerPatterns[playerId];
      ghost var pd := playerData;
      playerData := playerData.(gamesPlayed := playerData.gamesPlayed + 1);
      playerData := playerData.(adaptationLevel := Adapted(playerData.adaptationLevel, winner));
      playerData := LearnMoves(playerData, playerId, weightSetting * adaptationFactor);
      assert playerData == Analysis(pd, currentGameMoves, playerId, weightSetting * adaptationFactor, winner);
      assert playerPatterns[playerId := playerData] == old(playerPatterns)[playerId := playerData];
      assert pd == Prior(old(playerPatterns), playerId);
      assert weightSetting == old(patternWeight).value;
      assert currentGameMoves == old(currentGameMoves);
      assert weightSetting * adaptationFactor == old(patternWeight).value * Prior(old(playerPatterns), playerId).adaptationLevel;
      AnalysisWellFormed(pd, currentGameMoves, playerId, weightSetting * adaptationFactor, winner);
      playerPatterns := playerPatterns[playerId := playerData];
      currentGameMoves := [];
      return Ok(());
    }

    /** The loop of `analyze_game` over the recorded moves, on the player's
        record, with `weight` the product computed in the loop (the same on
        every pass). */
    method LearnMoves(start: PlayerData, playerId: string, weight: real) returns (playerData: PlayerData)
      ensures playerData == LearnAll(start, currentGameMoves, playerId, weight, |currentGameMoves| == 1)
    {
      playerData := start;
      var single := |currentGameMoves| == 1;
      for i := 0 to |currentGameMoves|
        invariant playerData == LearnAll(start, currentGameMoves[..i], playerId, weight, single)
      {
        var moveData := currentGameMoves[i];
        if moveData.player == playerId {
          var boardPattern := moveData.board;
          var move := moveData.move;
          var boardData := if boardPattern in playerData.boardPatterns then playerData.boardPatterns[boardPattern] else BoardData(0, [], weight);
          boardData := boardData.(count := boardData.count + 1);
          boardData := boardData.(moves := AddWeight(boardData.moves, move, weight));
          var firstMoves := playerData.firstMoves;
          if single {
            firstMoves := AddWeight(firstMoves, move, weight);
          }
          playerData := playerData.(boardPatterns := playerData.boardPatterns[boardPattern := boardData],
            firstMoves := firstMoves, favoriteMoves := AddWeight(playerData.favoriteMoves, move, weight));
        }
        assert currentGameMoves[..i + 1][..i] == currentGameMoves[..i];
      }
      assert currentGameMoves[..|currentGameMoves|] == currentGameMoves;
    }

    /** `predict_move(board, player_id)`. */
    method PredictMove(board: Board, playerId: string) returns (move: Option<Move>)
      requires Valid() && QLearning.IsBoard(board)
      ensures move == Predicted(playerPatterns, board, playerId)
    {
      if playerId !in playerPatterns {
        return None;
      }
      var currentBoard := BoardToString(board);
      var playerData := playerPatterns[playerId];
      if currentBoard in playerData.boardPatterns {
        var patterns := playerData.boardPatterns[currentBoard];
        return Some(patterns.moves[Heaviest(patterns.moves)].0);
      }
      if |playerData.favoriteMoves| > 0 {
        var favorites := playerData.favoriteMoves;
        var validMoves := [];
        for i := 0 to |favorites|
          invariant validMoves == Playable(favorites[..i], board)
        {
          var (m, count) := favorites[i];
          if m.row < 3 && m.col < 3 && board[m.row][m.col].None? {
            validMoves := validMoves + [(m, count)];
          }
          assert favorites[..i + 1][..i] == favorites[..i];
        }
        assert favorites[..|favorites|] == favorites;
        if |validMoves| > 0 {
          return Some(validMoves[Heaviest(validMoves)].0);
        }
      }
      return None;
    }

    /** `choose_counter_move(board, player_id)`, with the draw of whichever
        `random.choice` runs. */
    method ChooseCounterMove(board: Board, playerId: string, draw: real) returns (move: Option<Move>)
      requires Valid() && QLearning.IsBoard(board) && IsDraw(draw)
      ensures move == CounterMove(playerPatterns, board, playerId, draw)
    {
      var win := ScanCompleting(board, 'X');
      if win.Some? {
        return win;
      }
      var block := ScanCompleting(board, 'O');
      if block.Some? {
        return block;
      }
      var predictedMove := PredictMove(board, playerId);
      if predictedMove.Some? {
        var tempBoard := Place(board, predictedMove.value, 'O');
        if CheckWin(tempBoard, 'O') {
          return predictedMove;
        }
      }
      if board[1][1].None? {
        return Some(QLearning.Action(1, 1));
      }
      var availableCorners := Free(board, Corners);
      if |availableCorners| > 0 {
        var bestCorner := BestCorner(board, availableCorners);
        if bestCorner.Some? {
          return bestCorner;
        }
        return Some(availableCorners[Pick(draw, |availableCorners|)]);
      }
      var availableEdges := Free(board, Edges);
      if |availableEdges| > 0 {
        return Some(availableEdges[Pick(draw, |availableEdges|)]);
      }
      var emptySpots := QLearning.PossibleActions(board);
      if |emptySpots| > 0 {
        return Some(emptySpots[Pick(draw, |emptySpots|)]);
      }
      return None;
    }
  }
}
