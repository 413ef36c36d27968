/** The tabular Q-learning agent of src/algorithm/q_learning.py for
    tic-tac-toe: boards are encoded as tuples of row strings, the Q-table maps
    a state and an action to a value with 0.0 for a pair never seen (reading a
    missing pair inserts it), moves are chosen epsilon-greedily, and a finished
    game is learnt backwards from its reward. The table file is not read or
    written; the constructor takes the table that loading would produce. */
module QLearning {
  import opened Common

  /** A cell of the agent's board: Python's None, or a one-character mark. */
  type Cell = Option<char>
  type Board = seq<seq<Cell>>

  /** `_board_to_state`: a tuple of row strings. */
  type State = seq<string>

  /** The move `(i, j)`. */
  datatype Action = Action(row: int, col: int)

  /** `q_values`: a dictionary of state keys to dictionaries of action keys to
      values. The source keys both levels by `str(...)`, which is one-to-one on
      states and actions, and an inner dictionary is never left empty, so the
      model keys one map by the pair itself. */
  type Table = map<(State, Action), real>

  // ---------------------------------------------------------------------------
  // Encoding

  /** A row as the source writes it: '_' for None, the mark otherwise. */
  function RowString(row: seq<Cell>): (s: string)
    ensures |s| == |row|
    ensures forall j :: 0 <= j < |row| ==> s[j] == (if row[j].None? then '_' else row[j].value)
  {
    seq(|row|, j requires 0 <= j < |row| => if row[j].None? then '_' else row[j].value)
  }

  function StateOf(b: Board): (s: State)
    ensures |s| == |b| && forall i :: 0 <= i < |b| ==> s[i] == RowString(b[i])
  {
    seq(|b|, i requires 0 <= i < |b| => RowString(b[i]))
  }

  /** A row string read back: '_' is None, any other character the mark. */
  function RowCells(s: string): (row: seq<Cell>)
    ensures |row| == |s|
    ensures forall j :: 0 <= j < |s| ==> row[j] == (if s[j] == '_' then None else Some(s[j]))
  {
    seq(|s|, j requires 0 <= j < |s| => if s[j] == '_' then None else Some(s[j]))
  }

  function BoardOf(s: State): (b: Board)
    ensures |b| == |s| && forall i :: 0 <= i < |s| ==> b[i] == RowCells(s[i])
  {
    seq(|s|, i requires 0 <= i < |s| => RowCells(s[i]))
  }

  /** The cells hold 'X', 'O' or None, as the game passes them. */
  predicate Marks(b: Board) {
    forall i, j :: 0 <= i < |b| && 0 <= j < |b[i]| ==> b[i][j] in {None, Some('X'), Some('O')}
  }

  /** `_state_to_board(_board_to_state(board)) == board` for a board of
      'X', 'O' and None, of any shape. */
  lemma BoardRoundTrip(b: Board)
    requires Marks(b)
    ensures BoardOf(StateOf(b)) == b
  {
    forall i | 0 <= i < |b| ensures BoardOf(StateOf(b))[i] == b[i] {
      assert RowCells(RowString(b[i])) == b[i];
    }
  }

  /** `_board_to_state(_state_to_board(state)) == state` for every state. */
  lemma StateRoundTrip(s: State)
    ensures StateOf(BoardOf(s)) == s
  {
    forall i | 0 <= i < |s| ensures StateOf(BoardOf(s))[i] == s[i] {
      assert RowString(RowCells(s[i])) == s[i];
    }
  }

  /** `_board_to_state(board)`: the rows are joined one by one. */
  method BoardToState(board: Board) returns (state: State)
    ensures state == StateOf(board)
  {
    state := [];
    for i := 0 to |board|
      invariant state == StateOf(board[..i])
    {
      var stateRow: string := [];
      for j := 0 to |board[i]|
        invariant stateRow == RowString(board[i][..j])
      {
        var cell := board[i][j];
        if cell.None? {
          stateRow := stateRow + ['_'];
        } else {
          stateRow := stateRow + [cell.value];
        }
      }
      assert board[i][..|board[i]|] == board[i];
      state := state + [stateRow];
    }
    assert board[..|board|] == board;
  }

  /** `_state_to_board(state)`: the row strings are split into cells. */
  method StateToBoard(state: State) returns (board: Board)
    ensures board == BoardOf(state)
  {
    board := [];
    for i := 0 to |state|
      invariant board == BoardOf(state[..i])
    {
      var row: seq<Cell> := [];
      for j := 0 to |state[i]|
        invariant row == RowCells(state[i][..j])
      {
        var cell := state[i][j];
        if cell == '_' {
          row := row + [None];
        } else {
          row := row + [Some(cell)];
        }
      }
      assert state[i][..|state[i]|] == state[i];
      board := board + [row];
    }
    assert state[..|state|] == state;
  }

  // ---------------------------------------------------------------------------
  // Possible actions

  /** A 3×3 board, the shape `_get_possible_actions` indexes. */
  predicate IsBoard(b: Board) {
    |b| == 3 && forall i :: 0 <= i < 3 ==> |b[i]| == 3
  }

  /** A state of three strings of three characters: the encoding of a 3×3 board. */
  predicate Shaped(s: State) {
    |s| == 3 && forall i :: 0 <= i < 3 ==> |s[i]| == 3
  }

  lemma ShapedBoard(s: State)
    requires Shaped(s)
    ensures IsBoard(BoardOf(s))
  {
  }

  lemma BoardShaped(b: Board)
    requires IsBoard(b)
    ensures Shaped(StateOf(b))
  {
  }

  /** The empty cells among the first j cells of row i, left to right. */
  function RowEmpty(b: Board, i: nat, j: nat): seq<Action>
    requires IsBoard(b) && i < 3 && j <= 3
  {
    if j == 0 then [] else RowEmpty(b, i, j - 1) + (if b[i][j - 1].None? then [Action(i, j - 1)] else [])
  }

  /** The empty cells of the first i rows, in row-major order. */
  function EmptyRows(b: Board, i: nat): seq<Action>
    requires IsBoard(b) && i <= 3
  {
    if i == 0 then [] else EmptyRows(b, i - 1) + RowEmpty(b, i - 1, 3)
  }

  function EmptyCells(b: Board): seq<Action>
    requires IsBoard(b)
  {
    EmptyRows(b, 3)
  }

  lemma {:induction false} RowEmptyExact(b: Board, i: nat, j: nat, a: Action)
    requires IsBoard(b) && i < 3 && j <= 3
    ensures a in RowEmpty(b, i, j) <==> a.row == i && 0 <= a.col < j && b[i][a.col].None?
  {
    if j > 0 {
      RowEmptyExact(b, i, j - 1, a);
    }
  }

  lemma {:induction false} EmptyRowsExact(b: Board, i: nat, a: Action)
    requires IsBoard(b) && i <= 3
    ensures a in EmptyRows(b, i) <==> 0 <= a.row < i && 0 <= a.col < 3 && b[a.row][a.col].None?
  {
    if i > 0 {
      EmptyRowsExact(b, i - 1, a);
      RowEmptyExact(b, i - 1, 3, a);
    }
  }

  /** `_get_possible_actions`: exactly the None cells of the board ... */
  lemma EmptyCellsExact(b: Board, a: Action)
    requires IsBoard(b)
    ensures a in EmptyCells(b) <==> 0 <= a.row < 3 && 0 <= a.col < 3 && b[a.row][a.col].None?
  {
    EmptyRowsExact(b, 3, a);
  }

  /** Row-major index of a cell. */
  function Index(a: Action): int {
    3 * a.row + a.col
  }

  /** Strictly increasing in row-major order: sorted, and each cell once. */
  predicate RowMajor(acts: seq<Action>) {
    forall x, y :: 0 <= x < y < |acts| ==> Index(acts[x]) < Index(acts[y])
  }

  lemma RowMajorAppend(xs: seq<Action>, ys: seq<Action>)
    requires RowMajor(xs) && RowMajor(ys)
    requires forall x, y :: x in xs && y in ys ==> Index(x) < Index(y)
    ensures RowMajor(xs + ys)
  {
    var zs := xs + ys;
    forall x, y | 0 <= x < y < |zs| ensures Index(zs[x]) < Index(zs[y]) {
      if y < |xs| {
        assert zs[x] == xs[x] && zs[y] == xs[y];
      } else if x >= |xs| {
        assert zs[x] == ys[x - |xs|] && zs[y] == ys[y - |xs|];
      } else {
        assert zs[x] == xs[x] && zs[y] == ys[y - |xs|];
        assert zs[x] in xs && zs[y] in ys;
      }
    }
  }

  lemma {:induction false} RowEmptyOrdered(b: Board, i: nat, j: nat)
    requires IsBoard(b) && i < 3 && j <= 3
    ensures RowMajor(RowEmpty(b, i, j))
  {
    if j > 0 {
      RowEmptyOrdered(b, i, j - 1);
      var prev := RowEmpty(b, i, j - 1);
      forall x | x in prev ensures Index(x) < Index(Action(i, j - 1)) {
        RowEmptyExact(b, i, j - 1, x);
      }
      RowMajorAppend(prev, if b[i][j - 1].None? then [Action(i, j - 1)] else []);
    }
  }

  /** ... listed in row-major order, each once. */
  lemma {:induction false} EmptyRowsOrdered(b: Board, i: nat)
    requires IsBoard(b) && i <= 3
    ensures RowMajor(EmptyRows(b, i))
  {
    if i > 0 {
      EmptyRowsOrdered(b, i - 1);
      RowEmptyOrdered(b, i - 1, 3);
      forall x, y | x in EmptyRows(b, i - 1) && y in RowEmpty(b, i - 1, 3) ensures Index(x) < Index(y) {
        EmptyRowsExact(b, i - 1, x);
        RowEmptyExact(b, i - 1, 3, y);
      }
      RowMajorAppend(EmptyRows(b, i - 1), RowEmpty(b, i - 1, 3));
    }
  }

  /** `_get_possible_actions(board)`: both loops over rows and columns. */
  method PossibleActions(board: Board) returns (actions: seq<Action>)
    requires IsBoard(board)
    ensures actions == EmptyCells(board)
  {
    actions := [];
    for i := 0 to 3
      invariant actions == EmptyRows(board, i)
    {
      for j := 0 to 3
        invariant actions == EmptyRows(board, i) + RowEmpty(board, i, j)
      {
        if board[i][j].None? {
          actions := actions + [Action(i, j)];
        }
      }
    }
  }

  // ---------------------------------------------------------------------------
  // The Q-table

  /** The value `_get_q_value` returns: the stored one, 0.0 for a pair never seen. */
  function Q(t: Table, s: State, a: Action): real {
    if (s, a) in t then t[(s, a)] else 0.0
  }

  /** The table after `_get_q_value(s, a)`: a missing pair is stored as 0.0. */
  function Touch(t: Table, s: State, a: Action): Table {
    if (s, a) in t then t else t[(s, a) := 0.0]
  }

  /** The table after `_update_q_value(s, a, v)`. */
  function SetQ(t: Table, s: State, a: Action, v: real): Table {
    t[(s, a) := v]
  }

  /** Reading a value inserts at most a zero: the pair is stored afterwards,
      no stored entry changes, and every pair reads as before. */
  lemma TouchKeeps(t: Table, s: State, a: Action)
    ensures Touch(t, s, a).Keys == t.Keys + {(s, a)}
    ensures forall k :: k in t ==> Touch(t, s, a)[k] == t[k]
    ensures forall s', a' :: Q(Touch(t, s, a), s', a') == Q(t, s', a')
  {
  }

  /** After `_update_q_value(s, a, v)`, `_get_q_value(s, a)` returns v, and
      every other pair reads as before. */
  lemma SetThenGet(t: Table, s: State, a: Action, v: real)
    ensures Q(SetQ(t, s, a, v), s, a) == v
    ensures forall s', a' :: (s', a') != (s, a) ==> Q(SetQ(t, s, a, v), s', a') == Q(t, s', a')
  {
  }

  /** The table after reading the values of the actions in turn. */
  function TouchAll(t: Table, s: State, acts: seq<Action>): Table
    decreases |acts|
  {
    if |acts| == 0 then t else Touch(TouchAll(t, s, acts[..|acts| - 1]), s, acts[|acts| - 1])
  }

  lemma {:induction false} TouchAllKeeps(t: Table, s: State, acts: seq<Action>)
    ensures forall s', a' :: Q(TouchAll(t, s, acts), s', a') == Q(t, s', a')
    decreases |acts|
  {
    if |acts| > 0 {
      TouchAllKeeps(t, s, acts[..|acts| - 1]);
      TouchKeeps(TouchAll(t, s, acts[..|acts| - 1]), s, acts[|acts| - 1]);
    }
  }

  /** `max(...)` over the values of a non-empty action list. */
  function MaxQ(t: Table, s: State, acts: seq<Action>): (m: real)
    requires |acts| > 0
    decreases |acts|
  {
    if |acts| == 1 then Q(t, s, acts[0])
    else
      var m := MaxQ(t, s, acts[..|acts| - 1]);
      var q := Q(t, s, acts[|acts| - 1]);
      if q > m then q else m
  }

  /** The maximum is the value of a listed action, and no listed action has
      a larger one. */
  lemma {:induction false} MaxQIsMax(t: Table, s: State, acts: seq<Action>)
    requires |acts| > 0
    ensures forall a :: a in acts ==> Q(t, s, a) <= MaxQ(t, s, acts)
    ensures exists a :: a in acts && Q(t, s, a) == MaxQ(t, s, acts)
    decreases |acts|
  {
    if |acts| > 1 {
      var init := acts[..|acts| - 1];
      MaxQIsMax(t, s, init);
      assert acts == init + [acts[|acts| - 1]];
      var w :| w in init && Q(t, s, w) == MaxQ(t, s, init);
      assert w in acts;
    } else {
      assert acts[0] in acts;
    }
  }

  /** The maximum depends only on the values. */
  lemma {:induction false} MaxQSame(t: Table, u: Table, s: State, acts: seq<Action>)
    requires |acts| > 0 && forall a :: Q(t, s, a) == Q(u, s, a)
    ensures MaxQ(t, s, acts) == MaxQ(u, s, acts)
    decreases |acts|
  {
    if |acts| > 1 {
      MaxQSame(t, u, s, acts[..|acts| - 1]);
    }
  }

  // ---------------------------------------------------------------------------
  // Best action

  /** The scan of `_best_action` over the first i actions: the list of tied
      best actions and the best value so far (None for -inf). */
  function TieScan(t: Table, s: State, acts: seq<Action>, i: nat): (r: (seq<Action>, Option<real>))
    requires i <= |acts|
  {
    if i == 0 then ([], None)
    else
      var prev := TieScan(t, s, acts, i - 1);
      var q := Q(t, s, acts[i - 1]);
      if prev.1.None? || q > prev.1.value then ([acts[i - 1]], Some(q))
      else if q == prev.1.value then (prev.0 + [acts[i - 1]], prev.1)
      else prev
  }

  /** After a non-empty prefix, the best value is the largest of the prefix
      and the list holds exactly the actions of the prefix that reach it. */
  lemma {:induction false} TieScanSpec(t: Table, s: State, acts: seq<Action>, i: nat)
    requires 0 < i <= |acts|
    ensures var r := TieScan(t, s, acts, i);
      && r.1.Some? && |r.0| > 0
      && (forall a :: a in acts[..i] ==> Q(t, s, a) <= r.1.value)
      && (forall a :: a in r.0 <==> a in acts[..i] && Q(t, s, a) == r.1.value)
  {
    assert acts[..i] == acts[..i - 1] + [acts[i - 1]];
    if i > 1 {
      TieScanSpec(t, s, acts, i - 1);
    }
  }

  /** The actions `_best_action` chooses among. */
  function Ties(t: Table, s: State, acts: seq<Action>): seq<Action> {
    TieScan(t, s, acts, |acts|).0
  }

  /** The ties are exactly the listed actions of largest value, and there is
      one whenever the list is not empty. */
  lemma TiesExact(t: Table, s: State, acts: seq<Action>)
    requires |acts| > 0
    ensures |Ties(t, s, acts)| > 0
    ensures forall a :: a in Ties(t, s, acts) <==> a in acts && forall b :: b in acts ==> Q(t, s, b) <= Q(t, s, a)
  {
    TieScanSpec(t, s, acts, |acts|);
    assert acts[..|acts|] == acts;
    var r := TieScan(t, s, acts, |acts|);
    var w := r.0[0];
    assert w in r.0;
    forall a | a in acts && (forall b :: b in acts ==> Q(t, s, b) <= Q(t, s, a))
      ensures a in r.0
    {
      assert Q(t, s, w) <= Q(t, s, a);
    }
  }

  /** `_best_action` with the draw of `random.choice`: None without actions,
      otherwise one of the tied best actions. */
  function BestAction(t: Table, s: State, acts: seq<Action>, r: real): (res: Option<Action>)
    requires IsDraw(r)
  {
    var ties := Ties(t, s, acts);
    if |ties| == 0 then None else Some(ties[Pick(r, |ties|)])
  }

  /** `_best_action` returns None exactly when there is no action, and
      otherwise a listed action of largest value. */
  lemma BestActionIsBest(t: Table, s: State, acts: seq<Action>, r: real)
    requires IsDraw(r)
    ensures BestAction(t, s, acts, r).None? <==> |acts| == 0
    ensures BestAction(t, s, acts, r).Some? ==>
      var a := BestAction(t, s, acts, r).value;
      a in acts && forall b :: b in acts ==> Q(t, s, b) <= Q(t, s, a)
  {
    if |acts| > 0 {
      TiesExact(t, s, acts);
    }
  }

  // ---------------------------------------------------------------------------
  // Learning

  /** The backward update of `learn_from_game` for the pair (s, a) followed
      by state next: the values of next's possible actions are read (and so
      stored), then the current value, then Q(s, a) moves toward the
      discounted best next value by the learning rate. */
  function Backup(t: Table, s: State, a: Action, next: State, alpha: real, gamma: real): Table
    requires Shaped(next)
  {
    var t1 := NextTouched(t, next);
    var cur := Q(t1, s, a);
    SetQ(Touch(t1, s, a), s, a, cur + alpha * (gamma * NextBest(t, next) - cur))
  }

  /** The table once every possible action of the next state has been read. */
  function NextTouched(t: Table, next: State): Table
    requires Shaped(next)
  {
    ShapedBoard(next);
    TouchAll(t, next, EmptyCells(BoardOf(next)))
  }

  /** The best value of the next state's possible actions, 0 without any. */
  function NextBest(t: Table, next: State): real
    requires Shaped(next)
  {
    ShapedBoard(next);
    var nextActs := EmptyCells(BoardOf(next));
    if |nextActs| > 0 then MaxQ(t, next, nextActs) else 0.0
  }

  /** One backup changes exactly Q(s, a), to
      cur + alpha * (gamma * maxNext - cur) over the values before it. */
  lemma BackupEffect(t: Table, s: State, a: Action, next: State, alpha: real, gamma: real)
    requires Shaped(next)
    ensures Q(Backup(t, s, a, next, alpha, gamma), s, a) == Q(t, s, a) + alpha * (gamma * NextBest(t, next) - Q(t, s, a))
    ensures forall s', a' :: (s', a') != (s, a) ==> Q(Backup(t, s, a, next, alpha, gamma), s', a') == Q(t, s', a')
  {
    ShapedBoard(next);
    var nextActs := EmptyCells(BoardOf(next));
    var t1 := NextTouched(t, next);
    TouchAllKeeps(t, next, nextActs);
    TouchKeeps(t1, s, a);
    SetThenGet(Touch(t1, s, a), s, a, Q(t1, s, a) + alpha * (gamma * NextBest(t, next) - Q(t1, s, a)));
  }

  /** The loop of `learn_from_game` from index i down to 0. */
  function Sweep(t: Table, states: seq<State>, actions: seq<Action>, i: int, alpha: real, gamma: real): Table
    requires -1 <= i && i + 1 < |states| == |actions|
    requires forall k :: 0 <= k < |states| ==> Shaped(states[k])
    decreases i + 1
  {
    if i < 0 then t else Sweep(Backup(t, states[i], actions[i], states[i + 1], alpha, gamma), states, actions, i - 1, alpha, gamma)
  }

  /** `learn_from_game(reward)` on the recorded pairs: the last pair is set to
      the reward, then the sweep runs from the second-to-last pair down. */
  function Learned(t: Table, states: seq<State>, actions: seq<Action>, reward: real, alpha: real, gamma: real): Table
    requires 0 < |states| == |actions|
    requires forall k :: 0 <= k < |states| ==> Shaped(states[k])
  {
    var n := |states|;
    Sweep(SetQ(t, states[n - 1], actions[n - 1], reward), states, actions, n - 2, alpha, gamma)
  }

  /** A pair that the sweep does not visit keeps its value. */
  lemma {:induction false} SweepKeeps(t: Table, states: seq<State>, actions: seq<Action>, i: int, alpha: real, gamma: real, s: State, a: Action)
    requires -1 <= i && i + 1 < |states| == |actions|
    requires forall k :: 0 <= k < |states| ==> Shaped(states[k])
    requires forall k :: 0 <= k <= i ==> (states[k], actions[k]) != (s, a)
    ensures Q(Sweep(t, states, actions, i, alpha, gamma), s, a) == Q(t, s, a)
    decreases i + 1
  {
    if i >= 0 {
      BackupEffect(t, states[i], actions[i], states[i + 1], alpha, gamma);
      SweepKeeps(Backup(t, states[i], actions[i], states[i + 1], alpha, gamma), states, actions, i - 1, alpha, gamma, s, a);
    }
  }

  /** When the last pair occurs only once in the game, it ends with the
      reward; a pair the game never played keeps its value. */
  lemma LearnedValues(t: Table, states: seq<State>, actions: seq<Action>, reward: real, alpha: real, gamma: real)
    requires 0 < |states| == |actions|
    requires forall k :: 0 <= k < |states| ==> Shaped(states[k])
    ensures var n := |states|;
      (forall k :: 0 <= k < n - 1 ==> (states[k], actions[k]) != (states[n - 1], actions[n - 1])) ==>
        Q(Learned(t, states, actions, reward, alpha, gamma), states[n - 1], actions[n - 1]) == reward
    ensures forall s, a :: (forall k :: 0 <= k < |states| ==> (states[k], actions[k]) != (s, a)) ==>
      Q(Learned(t, states, actions, reward, alpha, gamma), s, a) == Q(t, s, a)
  {
    var n := |states|;
    var t0 := SetQ(t, states[n - 1], actions[n - 1], reward);
    SetThenGet(t, states[n - 1], actions[n - 1], reward);
    if forall k :: 0 <= k < n - 1 ==> (states[k], actions[k]) != (states[n - 1], actions[n - 1]) {
      SweepKeeps(t0, states, actions, n - 2, alpha, gamma, states[n - 1], actions[n - 1]);
    }
    forall s, a | forall k :: 0 <= k < |states| ==> (states[k], actions[k]) != (s, a)
      ensures Q(Learned(t, states, actions, reward, alpha, gamma), s, a) == Q(t, s, a)
    {
      SweepKeeps(t0, states, actions, n - 2, alpha, gamma, s, a);
    }
  }

  /** The step from index i to index i - 1 of the sweep. */
  lemma SweepStep(t: Table, states: seq<State>, actions: seq<Action>, i: nat, alpha: real, gamma: real)
    requires i + 1 < |states| == |actions|
    requires forall k :: 0 <= k < |states| ==> Shaped(states[k])
    ensures Sweep(t, states, actions, i, alpha, gamma) == Sweep(Backup(t, states[i], actions[i], states[i + 1], alpha, gamma), states, actions, i - 1, alpha, gamma)
  {
  }

  // ---------------------------------------------------------------------------
  // The agent

  /** The draws of one `choose_action`: the exploration coin, then the draw of
      whichever `random.choice` follows. */
  datatype Draws = Draws(coin: real, choice: real)

  predicate ValidDraws(d: Draws) {
    IsDraw(d.coin) && IsDraw(d.choice)
  }

  /** `choose_action`: None on a full board; with probability epsilon a
      random empty cell, otherwise a tied best one. */
  function Choice(t: Table, b: Board, epsilon: real, d: Draws): (r: Option<Action>)
    requires IsBoard(b) && ValidDraws(d)
  {
    var acts := EmptyCells(b);
    if |acts| == 0 then None
    else if d.coin < epsilon then Some(acts[Pick(d.choice, |acts|)])
    else BestAction(t, StateOf(b), acts, d.choice)
  }

  /** The chosen action is an empty cell of the board, and there is one
      exactly when the board has an empty cell. */
  lemma ChoiceIsEmptyCell(t: Table, b: Board, epsilon: real, d: Draws)
    requires IsBoard(b) && ValidDraws(d)
    ensures Choice(t, b, epsilon, d).None? <==> |EmptyCells(b)| == 0
    ensures Choice(t, b, epsilon, d).Some? ==>
      var a := Choice(t, b, epsilon, d).value;
      0 <= a.row < 3 && 0 <= a.col < 3 && b[a.row][a.col].None?
  {
    var acts := EmptyCells(b);
    BestActionIsBest(t, StateOf(b), acts, d.choice);
    if Choice(t, b, epsilon, d).Some? {
      EmptyCellsExact(b, Choice(t, b, epsilon, d).value);
    }
  }

  /** The default arguments of `__init__`, which every caller uses. */
  const DefaultLearningRate: real := 0.3
  const DefaultDiscountFactor: real := 0.9
  const DefaultExplorationRate: real := 0.2

  class QLearningAgent {
    var learningRate: real
    var discountFactor: real
    var explorationRate: real
    var qValues: Table
    var lastStates: seq<State>
    var lastActions: seq<Action>

    /** The game so far: one action per recorded state, each state the
        encoding of a 3×3 board. */
    predicate Valid()
      reads this
    {
      |lastStates| == |lastActions| && forall k :: 0 <= k < |lastStates| ==> Shaped(lastStates[k])
    }

    /** `__init__`; loaded is the table `load_q_values` finds (empty when
        there is no file). */
    constructor (alpha: real, gamma: real, epsilon: real, loaded: Table)
      ensures Valid() && learningRate == alpha && discountFactor == gamma && explorationRate == epsilon
      ensures qValues == loaded && lastStates == [] && lastActions == []
    {
      learningRate := alpha;
      discountFactor := gamma;
      explorationRate := epsilon;
      qValues := loaded;
      lastStates := [];
      lastActions := [];
    }

    /** `reset_for_new_game`. */
    method ResetForNewGame()
      modifies this
      ensures Valid() && lastStates == [] && lastActions == [] && qValues == old(qValues)
      ensures learningRate == old(learningRate) && discountFactor == old(discountFactor) && explorationRate == old(explorationRate)
    {
      lastStates := [];
      lastActions := [];
    }

    /** `_get_q_value(state, action)`: the stored value or 0.0, which is then
        stored. */
    method GetQ(state: State, action: Action) returns (q: real)
      modifies this
      ensures q == Q(old(qValues), state, action) && qValues == Touch(old(qValues), state, action)
      ensures lastStates == old(lastStates) && lastActions == old(lastActions)
      ensures learningRate == old(learningRate) && discountFactor == old(discountFactor) && explorationRate == old(explorationRate)
    {
      if (state, action) !in qValues {
        qValues := qValues[(state, action) := 0.0];
      }
      q := qValues[(state, action)];
    }

    /** `_update_q_value(state, action, value)`. */
    method UpdateQ(state: State, action: Action, value: real)
      modifies this
      ensures qValues == SetQ(old(qValues), state, action, value)
      ensures lastStates == old(lastStates) && lastActions == old(lastActions)
      ensures learningRate == old(learningRate) && discountFactor == old(discountFactor) && explorationRate == old(explorationRate)
    {
      qValues := qValues[(state, action) := value];
    }

    /** `_best_action(state, possible_actions)` with the draw of
        `random.choice`; every value read is stored. */
    method BestActionOf(state: State, actions: seq<Action>, r: real) returns (action: Option<Action>)
      requires IsDraw(r)
      modifies this
      ensures action == BestAction(old(qValues), state, actions, r)
      ensures qValues == TouchAll(old(qValues), state, actions)
      ensures lastStates == old(lastStates) && lastActions == old(lastActions)
      ensures learningRate == old(learningRate) && discountFactor == old(discountFactor) && explorationRate == old(explorationRate)
    {
      if |actions| == 0 {
        return None;
      }
      ghost var t0 := qValues;
      var bestActions: seq<Action> := [];
      var bestQ: Option<real> := None;
      for i := 0 to |actions|
        invariant qValues == TouchAll(t0, state, actions[..i])
        invariant (bestActions, bestQ) == TieScan(t0, state, actions, i)
        invariant lastStates == old(lastStates) && lastActions == old(lastActions)
        invariant learningRate == old(learningRate) && discountFactor == old(discountFactor) && explorationRate == old(explorationRate)
      {
        TouchAllKeeps(t0, state, actions[..i]);
        var q := GetQ(state, actions[i]);
        assert actions[..i + 1][..i] == actions[..i];
        if bestQ.None? || q > bestQ.value {
          bestActions := [actions[i]];
          bestQ := Some(q);
        } else if q == bestQ.value {
          bestActions := bestActions + [actions[i]];
        }
      }
      assert actions[..|actions|] == actions;
      if |bestActions| > 0 {
        action := Some(bestActions[Pick(r, |bestActions|)]);
      } else {
        action := None;
      }
    }

    /** `choose_action(board)` with its random draws. The values of every
        possible action are read, and stored, only on the greedy branch. */
    method ChooseAction(board: Board, d: Draws) returns (action: Option<Action>)
      requires IsBoard(board) && ValidDraws(d)
      modifies this
      ensures action == Choice(old(qValues), board, explorationRate, d)
      ensures var acts := EmptyCells(board);
        qValues == if |acts| == 0 || d.coin < explorationRate then old(qValues) else TouchAll(old(qValues), StateOf(board), acts)
      ensures lastStates == old(lastStates) && lastActions == old(lastActions)
      ensures learningRate == old(learningRate) && discountFactor == old(discountFactor) && explorationRate == old(explorationRate)
    {
      var state := BoardToState(board);
      var possibleActions := PossibleActions(board);
      if |possibleActions| == 0 {
        return None;
      }
      if d.coin < explorationRate {
        action := Some(possibleActions[Pick(d.choice, |possibleActions|)]);
      } else {
        action := BestActionOf(state, possibleActions, d.choice);
      }
    }

    /** `record_move(board, action)`: one state and one action more. */
    method RecordMove(board: Board, action: Action)
      requires Valid() && IsBoard(board)
      modifies this
      ensures Valid() && lastStates == old(lastStates) + [StateOf(board)] && lastActions == old(lastActions) + [action]
      ensures qValues == old(qValues)
      ensures learningRate == old(learningRate) && discountFactor == old(discountFactor) && explorationRate == old(explorationRate)
    {
      var state := BoardToState(board);
      BoardShaped(board);
      lastStates := lastStates + [state];
      lastActions := lastActions + [action];
    }

    /** The best value over the possible actions of the next state, each read
        (and stored) in turn: `max([...])` of `learn_from_game`. */
    method MaxNextQ(next: State, actions: seq<Action>) returns (m: real)
      requires |actions| > 0
      modifies this
      ensures m == MaxQ(old(qValues), next, actions) && qValues == TouchAll(old(qValues), next, actions)
      ensures lastStates == old(lastStates) && lastActions == old(lastActions)
      ensures learningRate == old(learningRate) && discountFactor == old(discountFactor) && explorationRate == old(explorationRate)
    {
      ghost var t0 := qValues;
      m := GetQ(next, actions[0]);
      assert actions[..1] == [actions[0]];
      for i := 1 to |actions|
        invariant qValues == TouchAll(t0, next, actions[..i])
        invariant m == MaxQ(t0, next, actions[..i])
        invariant lastStates == old(lastStates) && lastActions == old(lastActions)
        invariant learningRate == old(learningRate) && discountFactor == old(discountFactor) && explorationRate == old(explorationRate)
      {
        TouchAllKeeps(t0, next, actions[..i]);
        var q := GetQ(next, actions[i]);
        assert actions[..i + 1][..i] == actions[..i];
        if q > m {
          m := q;
        }
      }
      assert actions[..|actions|] == actions;
    }

    /** The value maxNextQ of `learn_from_game`: the best value over the
        possible actions of nextState, each read (and stored) in turn. */
    method NextMax(nextState: State) returns (m: real)
      requires Shaped(nextState)
      modifies this
      ensures lastStates == old(lastStates) && lastActions == old(lastActions)
      ensures learningRate == old(learningRate) && discountFactor == old(discountFactor) && explorationRate == old(explorationRate)
      ensures m == NextBest(old(qValues), nextState) && qValues == NextTouched(old(qValues), nextState)
    {
      var nextBoard := StateToBoard(nextState);
      ShapedBoard(nextState);
      var nextPossibleActions := PossibleActions(nextBoard);
      m := 0.0;
      if |nextPossibleActions| > 0 {
        m := MaxNextQ(nextState, nextPossibleActions);
      }
    }

    /** One pass of the backward loop of `learn_from_game`: the pair
        (state, action), followed by nextState. */
    method BackupAt(state: State, action: Action, nextState: State)
      requires Shaped(nextState)
      modifies this
      ensures lastStates == old(lastStates) && lastActions == old(lastActions)
      ensures learningRate == old(learningRate) && discountFactor == old(discountFactor) && explorationRate == old(explorationRate)
      ensures qValues == Backup(old(qValues), state, action, nextState, learningRate, discountFactor)
    {
      var maxNextQ := NextMax(nextState);
      var currentQ := GetQ(state, action);
      var newQ := currentQ + learningRate * (discountFactor * maxNextQ - currentQ);
      UpdateQ(state, action, newQ);
    }

    /** `learn_from_game(reward)`: nothing without a recorded move; otherwise
        the backward update of every recorded pair, then the game is cleared.
        Saving the table is not modelled. */
    method LearnFromGame(reward: real)
      requires Valid()
      modifies this
      ensures Valid()
      ensures learningRate == old(learningRate) && discountFactor == old(discountFactor) && explorationRate == old(explorationRate)
      ensures old(|lastStates|) == 0 ==> qValues == old(qValues) && lastStates == [] && lastActions == []
      ensures old(|lastStates|) > 0 ==>
        qValues == Learned(old(qValues), old(lastStates), old(lastActions), reward, learningRate, discountFactor)
        && lastStates == [] && lastActions == []
    {
      if |lastStates| == 0 || |lastActions| == 0 {
        return;
      }
      var n := |lastStates|;
      UpdateQ(lastStates[n - 1], lastActions[n - 1], reward);
      ghost var goal := Sweep(qValues, lastStates, lastActions, n - 2, learningRate, discountFactor);
      var i := n - 2;
      while i >= 0
        invariant -1 <= i <= n - 2 && Valid() && lastStates == old(lastStates) && lastActions == old(lastActions)
        invariant learningRate == old(learningRate) && discountFactor == old(discountFactor) && explorationRate == old(explorationRate)
        invariant Sweep(qValues, lastStates, lastActions, i, learningRate, discountFactor) == goal
        decreases i
      {
        SweepStep(qValues, lastStates, lastActions, i, learningRate, discountFactor);
        BackupAt(lastStates[i], lastActions[i], lastStates[i + 1]);
        i := i - 1;
      }
      ResetForNewGame();
    }
  }
}
