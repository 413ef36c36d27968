/** The browser checkers of src/static/js/checkers.ts: an 8×8 board, 'white'
    men moving down the rows (row 0 at the top) and 'black' men up, simple steps
    and single jumps, promotion on the far row, a status check after every move,
    an alpha-beta search that plays every trial move and restores the board, and
    the win/loss/draw counters. DOM updates, local storage and the AI's 500 ms
    delay are left out. */
module CheckersGame {
  import opened Common

  const Size := 8

  datatype Color = White | Black

  function Other(c: Color): Color {
    if c == White then Black else White
  }

  /** A square's string: '' is Empty; 'white', 'black', 'white_king' and
      'black_king' are pieces. `startsWith(color)` is `Piece(color, _)`,
      `includes('king')` is `king`. */
  datatype Square = Empty | Piece(color: Color, king: bool)

  type Board = seq<seq<Square>>

  predicate IsBoard(b: Board) {
    |b| == Size && forall r :: 0 <= r < Size ==> |b[r]| == Size
  }

  datatype Pos = Pos(row: int, col: int)

  datatype Move = Move(from: Pos, to: Pos)

  /** `isValidPosition`. */
  predicate OnBoard(p: Pos) {
    0 <= p.row < Size && 0 <= p.col < Size
  }

  function At(b: Board, p: Pos): Square
    requires IsBoard(b) && OnBoard(p)
  {
    b[p.row][p.col]
  }

  function Put(b: Board, p: Pos, s: Square): (b': Board)
    requires IsBoard(b) && OnBoard(p)
    ensures IsBoard(b') && At(b', p) == s
  {
    b[p.row := b[p.row][p.col := s]]
  }

  /** Writing one square leaves every other square alone. */
  lemma PutFrame(b: Board, p: Pos, s: Square)
    requires IsBoard(b) && OnBoard(p)
    ensures forall q :: OnBoard(q) && q != p ==> At(Put(b, p, s), q) == At(b, q)
  {
  }

  /** Boards with the same squares are the same board. */
  lemma SameSquares(b: Board, c: Board)
    requires IsBoard(b) && IsBoard(c)
    requires forall q :: OnBoard(q) ==> At(b, q) == At(c, q)
    ensures b == c
  {
    forall r | 0 <= r < Size ensures b[r] == c[r] {
      forall k | 0 <= k < Size ensures b[r][k] == c[r][k] {
        assert At(b, Pos(r, k)) == At(c, Pos(r, k));
      }
    }
  }

  function Abs(x: int): nat {
    if x < 0 then -x else x
  }

  // ---------------------------------------------------------------------------
  // The starting position

  /** `createInitialBoard`: 'white' on the squares with (row + col) odd in rows
      0-2, 'black' on those in rows 5-7, every other square empty. */
  function InitialSquare(r: int, c: int): Square {
    if (r + c) % 2 == 1 && 0 <= r < 3 then Piece(White, false)
    else if (r + c) % 2 == 1 && 5 <= r < Size then Piece(Black, false)
    else Empty
  }

  function InitialBoard(): (b: Board)
    ensures IsBoard(b)
    ensures forall q :: OnBoard(q) ==> At(b, q) == InitialSquare(q.row, q.col)
  {
    seq(Size, r => seq(Size, c => InitialSquare(r, c)))
  }

  /** `createInitialBoard`: an empty 8×8 board, then 'white' on the odd squares
      of rows 0-2, then 'black' on those of rows 5-7. */
  method CreateInitialBoard() returns (board: Board)
    ensures board == InitialBoard()
  {
    board := seq(Size, r => seq(Size, c => Empty));
    for row := 0 to 3
      invariant IsBoard(board)
      invariant forall r, c :: 0 <= r < Size && 0 <= c < Size ==>
        board[r][c] == (if r < row then InitialSquare(r, c) else Empty)
    {
      for col := 0 to Size
        invariant IsBoard(board)
        invariant forall r, c :: 0 <= r < Size && 0 <= c < Size ==>
          board[r][c] == (if r < row || (r == row && c < col) then InitialSquare(r, c) else Empty)
      {
        if (row + col) % 2 == 1 {
          board := board[row := board[row][col := Piece(White, false)]];
        }
      }
    }
    for row := 5 to Size
      invariant IsBoard(board)
      invariant forall r, c :: 0 <= r < Size && 0 <= c < Size ==>
        board[r][c] == (if r < 3 || 5 <= r < row then InitialSquare(r, c) else Empty)
    {
      for col := 0 to Size
        invariant IsBoard(board)
        invariant forall r, c :: 0 <= r < Size && 0 <= c < Size ==>
          board[r][c] == (if r < 3 || 5 <= r < row || (r == row && c < col) then InitialSquare(r, c) else Empty)
      {
        if (row + col) % 2 == 1 {
          board := board[row := board[row][col := Piece(Black, false)]];
        }
      }
    }
    SameSquares(board, InitialBoard());
  }

  // ---------------------------------------------------------------------------
  // Counting and scoring

  predicate OfColor(s: Square, c: Color) {
    s.Piece? && s.color == c
  }

  /** The squares among the first n of a row whose string starts with `c`. */
  function CountRow(row: seq<Square>, c: Color, n: nat): (k: nat)
    requires n <= |row|
    ensures k <= n
  {
    if n == 0 then 0 else CountRow(row, c, n - 1) + (if OfColor(row[n - 1], c) then 1 else 0)
  }

  function CountRows(b: Board, c: Color, n: nat): (k: nat)
    requires IsBoard(b) && n <= Size
    ensures k <= Size * n
  {
    if n == 0 then 0 else CountRows(b, c, n - 1) + CountRow(b[n - 1], c, Size)
  }

  /** `countPieces(color)`: men and kings of that colour. */
  function PieceCount(b: Board, c: Color): nat
    requires IsBoard(b)
  {
    CountRows(b, c, Size)
  }

  /** The contribution of one square to `evaluateBoard` for the side `p`:
      3 for a king and 1 for a man, counted for `p` and against the other side. */
  function PieceValue(s: Square, p: Color): (v: int)
    ensures -3 <= v <= 3
  {
    if s == Empty then 0
    else
      var value := if s.king then 3 else 1;
      if s.color == p then value else -value
  }

  function EvalRow(row: seq<Square>, p: Color, n: nat): (v: int)
    requires n <= |row|
    ensures -3 * n <= v <= 3 * n
  {
    if n == 0 then 0 else EvalRow(row, p, n - 1) + PieceValue(row[n - 1], p)
  }

  function EvalRows(b: Board, p: Color, n: nat): (v: int)
    requires IsBoard(b) && n <= Size
    ensures -3 * Size * n <= v <= 3 * Size * n
  {
    if n == 0 then 0 else EvalRows(b, p, n - 1) + EvalRow(b[n - 1], p, Size)
  }

  /** `evaluateBoard` with `currentPlayer` = p. */
  function Evaluate(b: Board, p: Color): int
    requires IsBoard(b)
  {
    EvalRows(b, p, Size)
  }

  /** The evaluation lies well inside the ±1000 of a side without moves. */
  lemma EvaluateBounds(b: Board, p: Color)
    requires IsBoard(b)
    ensures -192 <= Evaluate(b, p) <= 192
  {
  }

  /** The evaluation is zero-sum: what one side gains, the other loses. */
  lemma {:induction false} EvaluateZeroSum(b: Board, p: Color)
    requires IsBoard(b)
    ensures Evaluate(b, Other(p)) == -Evaluate(b, p)
  {
    EvalRowsZeroSum(b, p, Size);
  }

  lemma {:induction false} EvalRowsZeroSum(b: Board, p: Color, n: nat)
    requires IsBoard(b) && n <= Size
    ensures EvalRows(b, Other(p), n) == -EvalRows(b, p, n)
  {
    if n > 0 {
      EvalRowsZeroSum(b, p, n - 1);
      EvalRowZeroSum(b[n - 1], p, Size);
    }
  }

  lemma {:induction false} EvalRowZeroSum(row: seq<Square>, p: Color, n: nat)
    requires n <= |row|
    ensures EvalRow(row, Other(p), n) == -EvalRow(row, p, n)
  {
    if n > 0 {
      EvalRowZeroSum(row, p, n - 1);
    }
  }

  /** Among the first n squares of a starting row, the pieces of colour c:
      half of them, rounded up on odd rows, in the three rows of that colour. */
  lemma {:induction false} InitialRowCount(r: int, c: Color, n: nat)
    requires 0 <= r < Size && n <= Size
    ensures CountRow(InitialBoard()[r], c, n) ==
      if (c == White && r < 3) || (c == Black && r >= 5) then (n + r % 2) / 2 else 0
  {
    if n > 0 {
      InitialRowCount(r, c, n - 1);
      assert InitialBoard()[r][n - 1] == InitialSquare(r, n - 1);
      HalfStep(r, n - 1);
    }
  }

  lemma HalfStep(r: nat, k: nat)
    ensures (k + r % 2) / 2 + (if (r + k) % 2 == 1 then 1 else 0) == (k + 1 + r % 2) / 2
  {
    var q := k / 2;
    assert k == 2 * q || k == 2 * q + 1;
    var t := r / 2;
    assert r == 2 * t + r % 2;
    assert (r + k) % 2 == (r % 2 + k % 2) % 2;
  }

  lemma {:induction false} InitialRowsCount(c: Color, n: nat)
    requires n <= Size
    ensures CountRows(InitialBoard(), c, n) ==
      if c == White then 4 * Min(n, 3) else 4 * Max(n - 5, 0)
  {
    if n > 0 {
      InitialRowsCount(c, n - 1);
      InitialRowCount(n - 1, c, Size);
    }
  }

  /** Each side starts with twelve men. */
  lemma InitialPieceCounts()
    ensures PieceCount(InitialBoard(), White) == 12 && PieceCount(InitialBoard(), Black) == 12
  {
    InitialRowsCount(White, Size);
    InitialRowsCount(Black, Size);
  }

  // ---------------------------------------------------------------------------
  // Move generation

  /** `isKing ? [-1, 1] : piece === 'white' ? [1] : [-1]`: a king goes both
      ways, a 'white' man down the rows, anything else (a 'black' man, or the
      empty string) up. */
  function Directions(s: Square): (dirs: seq<int>)
    ensures forall d :: d in dirs ==> d == -1 || d == 1
  {
    if s.Piece? && s.king then [-1, 1] else if s == Piece(White, false) then [1] else [-1]
  }

  /** `getOpponentColor`: 'black' for a string containing 'white', else 'white'. */
  function Opponent(s: Square): Color {
    if s.Piece? && s.color == White then Black else White
  }

  /** The simple step by (dr, dc), kept when it lands on an empty square. */
  function Step(b: Board, from: Pos, dr: int, dc: int): seq<Pos>
    requires IsBoard(b)
  {
    var t := Pos(from.row + dr, from.col + dc);
    if OnBoard(t) && At(b, t) == Empty then [t] else []
  }

  /** The steps with row direction dr and the column directions `cols`, in order. */
  function StepsAlong(b: Board, from: Pos, dr: int, cols: seq<int>): seq<Pos>
    requires IsBoard(b)
  {
    if cols == [] then [] else StepsAlong(b, from, dr, cols[..|cols| - 1]) + Step(b, from, dr, cols[|cols| - 1])
  }

  /** The step loop of `getValidMoves` over the row directions `dirs`. */
  function Steps(b: Board, from: Pos, dirs: seq<int>): seq<Pos>
    requires IsBoard(b)
  {
    if dirs == [] then [] else Steps(b, from, dirs[..|dirs| - 1]) + StepsAlong(b, from, dirs[|dirs| - 1], [-1, 1])
  }

  /** An entry of `getValidCaptures`: the landing square and the jumped one. */
  datatype Capture = Capture(from: Pos, to: Pos, captured: Pos)

  /** The jump by (dr, dc): the landing square is on the board and empty, and the
      square jumped over holds a piece of the opponent's colour. */
  function Jump(b: Board, from: Pos, dr: int, dc: int): seq<Capture>
    requires IsBoard(b) && OnBoard(from)
  {
    var t := Pos(from.row + dr * 2, from.col + dc * 2);
    var m := Pos(from.row + dr, from.col + dc);
    if OnBoard(t) && At(b, t) == Empty && OfColor(At(b, m), Opponent(At(b, from)))
    then [Capture(from, t, m)]
    else []
  }

  function JumpsAlong(b: Board, from: Pos, dr: int, cols: seq<int>): seq<Capture>
    requires IsBoard(b) && OnBoard(from)
  {
    if cols == [] then [] else JumpsAlong(b, from, dr, cols[..|cols| - 1]) + Jump(b, from, dr, cols[|cols| - 1])
  }

  /** `getValidCaptures` over the row directions `dirs`. */
  function Jumps(b: Board, from: Pos, dirs: seq<int>): seq<Capture>
    requires IsBoard(b) && OnBoard(from)
  {
    if dirs == [] then [] else Jumps(b, from, dirs[..|dirs| - 1]) + JumpsAlong(b, from, dirs[|dirs| - 1], [-1, 1])
  }

  function Captures(b: Board, from: Pos): seq<Capture>
    requires IsBoard(b) && OnBoard(from)
  {
    Jumps(b, from, Directions(At(b, from)))
  }

  /** `captures.map(capture => capture.to)`. */
  function Landings(cs: seq<Capture>): (ts: seq<Pos>)
    ensures |ts| == |cs| && forall i :: 0 <= i < |cs| ==> ts[i] == cs[i].to
  {
    seq(|cs|, i requires 0 <= i < |cs| => cs[i].to)
  }

  /** `getValidMoves`: the steps, then the landing squares of the captures. */
  function ValidMoves(b: Board, from: Pos): seq<Pos>
    requires IsBoard(b) && OnBoard(from)
  {
    Steps(b, from, Directions(At(b, from))) + Landings(Captures(b, from))
  }

  /** A simple step of the piece on `from`: one row in one of its directions and
      one column sideways, onto an empty square. */
  predicate IsStep(b: Board, from: Pos, t: Pos)
    requires IsBoard(b) && OnBoard(from)
  {
    && OnBoard(t) && At(b, t) == Empty
    && t.row - from.row in Directions(At(b, from)) && Abs(t.col - from.col) == 1
  }

  /** A jump of the piece on `from`: two rows in one of its directions and two
      columns sideways, onto an empty square, over a piece of its opponent. */
  predicate IsJump(b: Board, from: Pos, t: Pos)
    requires IsBoard(b) && OnBoard(from)
  {
    && OnBoard(t) && At(b, t) == Empty
    && (t.row - from.row) % 2 == 0 && (t.row - from.row) / 2 in Directions(At(b, from))
    && Abs(t.col - from.col) == 2
    && var m := Pos((from.row + t.row) / 2, (from.col + t.col) / 2);
       OnBoard(m) && OfColor(At(b, m), Opponent(At(b, from)))
  }

  lemma {:induction false} StepsAreSteps(b: Board, from: Pos, dirs: seq<int>)
    requires IsBoard(b) && OnBoard(from) && forall d :: d in dirs ==> d in Directions(At(b, from))
    ensures forall t :: t in Steps(b, from, dirs) ==> IsStep(b, from, t)
    decreases |dirs|
  {
    if dirs != [] {
      var init := dirs[..|dirs| - 1];
      assert forall d :: d in init ==> d in dirs;
      StepsAreSteps(b, from, init);
      StepsAlongPair(b, from, dirs[|dirs| - 1]);
    }
  }

  lemma {:induction false} JumpsAreJumps(b: Board, from: Pos, dirs: seq<int>)
    requires IsBoard(b) && OnBoard(from) && forall d :: d in dirs ==> d in Directions(At(b, from))
    ensures forall c :: c in Jumps(b, from, dirs) ==> c.from == from && IsJump(b, from, c.to)
    ensures forall c :: c in Jumps(b, from, dirs) ==> c.captured == Pos((from.row + c.to.row) / 2, (from.col + c.to.col) / 2)
    decreases |dirs|
  {
    if dirs != [] {
      var init := dirs[..|dirs| - 1];
      assert forall d :: d in init ==> d in dirs;
      JumpsAreJumps(b, from, init);
      var dr := dirs[|dirs| - 1];
      assert dr in Directions(At(b, from));
      JumpsAlongPair(b, from, dr);
      JumpShape(b, from, dr, -1);
      JumpShape(b, from, dr, 1);
    }
  }

  lemma StepsAlongPair(b: Board, from: Pos, dr: int)
    requires IsBoard(b)
    ensures StepsAlong(b, from, dr, [-1, 1]) == Step(b, from, dr, -1) + Step(b, from, dr, 1)
  {
    var cols: seq<int> := [-1, 1];
    assert cols[..1] == [-1] && cols[..1][..0] == [];
    assert StepsAlong(b, from, dr, [-1]) == Step(b, from, dr, -1);
  }

  lemma JumpsAlongPair(b: Board, from: Pos, dr: int)
    requires IsBoard(b) && OnBoard(from)
    ensures JumpsAlong(b, from, dr, [-1, 1]) == Jump(b, from, dr, -1) + Jump(b, from, dr, 1)
  {
    var cols: seq<int> := [-1, 1];
    assert cols[..1] == [-1] && cols[..1][..0] == [];
    assert JumpsAlong(b, from, dr, [-1]) == Jump(b, from, dr, -1);
  }

  lemma JumpShape(b: Board, from: Pos, dr: int, dc: int)
    requires IsBoard(b) && OnBoard(from) && (dr == -1 || dr == 1) && (dc == -1 || dc == 1)
    requires dr in Directions(At(b, from))
    ensures forall c :: c in Jump(b, from, dr, dc) ==>
      c.from == from && IsJump(b, from, c.to) && c.captured == Pos((from.row + c.to.row) / 2, (from.col + c.to.col) / 2)
  {
    if Jump(b, from, dr, dc) != [] {
      var t := Pos(from.row + dr * 2, from.col + dc * 2);
      assert (t.row - from.row) / 2 == dr by {
        assert t.row - from.row == 2 * dr;
      }
      assert (from.row + t.row) / 2 == from.row + dr by {
        assert from.row + t.row == 2 * (from.row + dr);
      }
      assert (from.col + t.col) / 2 == from.col + dc by {
        assert from.col + t.col == 2 * (from.col + dc);
      }
    }
  }

  /** Every target of `getValidMoves` is on the board and empty, and is either a
      step or a jump of the piece standing on `from`. */
  lemma ValidMovesShape(b: Board, from: Pos)
    requires IsBoard(b) && OnBoard(from)
    ensures forall t :: t in ValidMoves(b, from) ==> OnBoard(t) && At(b, t) == Empty
    ensures forall t :: t in ValidMoves(b, from) ==> IsStep(b, from, t) || IsJump(b, from, t)
  {
    var dirs := Directions(At(b, from));
    StepsAreSteps(b, from, dirs);
    JumpsAreJumps(b, from, dirs);
    forall t | t in Landings(Captures(b, from)) ensures IsJump(b, from, t) {
      var i :| 0 <= i < |Captures(b, from)| && Landings(Captures(b, from))[i] == t;
      assert Captures(b, from)[i] in Jumps(b, from, dirs);
    }
  }

  // ---------------------------------------------------------------------------
  // Playing a move

  /** What `makeMove` relies on: both squares on the board, and a two-row move
      has a whole midpoint column. Every target of `getValidMoves` qualifies. */
  predicate Legal(m: Move) {
    && OnBoard(m.from) && OnBoard(m.to)
    && (Abs(m.to.row - m.from.row) == 2 ==> (m.from.col + m.to.col) % 2 == 0)
  }

  function Mid(m: Move): Pos {
    Pos((m.from.row + m.to.row) / 2, (m.from.col + m.to.col) / 2)
  }

  /** The piece that lands on `to`: a 'white' man on the last row or a 'black'
      man on row 0 is crowned. */
  function Landed(piece: Square, to: Pos): Square {
    if (piece == Piece(White, false) && to.row == Size - 1) || (piece == Piece(Black, false) && to.row == 0)
    then Piece(piece.color, true)
    else piece
  }

  /** The board after `makeMove(from, to)`: the origin emptied, the piece put on
      the destination, the middle square of a two-row move emptied, then the
      promotion. */
  function ApplyMove(b: Board, m: Move): (b': Board)
    requires IsBoard(b) && Legal(m)
    ensures IsBoard(b')
  {
    var piece := At(b, m.from);
    var b1 := Put(Put(b, m.from, Empty), m.to, piece);
    var b2 := if Abs(m.to.row - m.from.row) == 2 then Put(b1, Mid(m), Empty) else b1;
    if Landed(piece, m.to) != piece then Put(b2, m.to, Landed(piece, m.to)) else b2
  }

  lemma MidOnBoard(m: Move)
    requires Legal(m) && Abs(m.to.row - m.from.row) == 2
    ensures OnBoard(Mid(m)) && Mid(m) != m.to && Mid(m) != m.from
  {
  }

  /** A move changes the squares it names and nothing else: the piece (crowned
      if it reached the far row) stands on the destination, the origin is
      empty, on a two-row move the jumped square is empty. */
  lemma ApplyMoveEffect(b: Board, m: Move)
    requires IsBoard(b) && Legal(m) && m.from != m.to
    ensures At(ApplyMove(b, m), m.to) == Landed(At(b, m.from), m.to)
    ensures At(ApplyMove(b, m), m.from) == Empty
    ensures Abs(m.to.row - m.from.row) == 2 ==> OnBoard(Mid(m)) && At(ApplyMove(b, m), Mid(m)) == Empty
    ensures forall q :: OnBoard(q) && q != m.from && q != m.to && (Abs(m.to.row - m.from.row) == 2 ==> q != Mid(m)) ==>
      At(ApplyMove(b, m), q) == At(b, q)
  {
    var piece := At(b, m.from);
    PutFrame(b, m.from, Empty);
    PutFrame(Put(b, m.from, Empty), m.to, piece);
    var b1 := Put(Put(b, m.from, Empty), m.to, piece);
    if Abs(m.to.row - m.from.row) == 2 {
      MidOnBoard(m);
      PutFrame(b1, Mid(m), Empty);
      var b2 := Put(b1, Mid(m), Empty);
      PutFrame(b2, m.to, Landed(piece, m.to));
    } else {
      PutFrame(b1, m.to, Landed(piece, m.to));
    }
  }

  /** Promotion: the piece on the destination is a king exactly when it was one
      already or it is a man that reached the far row for its colour. */
  lemma Promotion(b: Board, m: Move)
    requires IsBoard(b) && Legal(m) && m.from != m.to && At(b, m.from).Piece?
    ensures At(ApplyMove(b, m), m.to).Piece? && At(ApplyMove(b, m), m.to).color == At(b, m.from).color
    ensures At(ApplyMove(b, m), m.to).king <==>
      At(b, m.from).king
      || (At(b, m.from).color == White && m.to.row == Size - 1)
      || (At(b, m.from).color == Black && m.to.row == 0)
  {
    ApplyMoveEffect(b, m);
  }

  lemma StepIsLegal(b: Board, from: Pos, t: Pos)
    requires IsBoard(b) && OnBoard(from) && (IsStep(b, from, t) || IsJump(b, from, t))
    ensures Legal(Move(from, t))
  {
    if IsJump(b, from, t) {
      assert (from.col + t.col) % 2 == 0;
    }
  }

  // ---------------------------------------------------------------------------
  // Move notation

  /** `String.fromCharCode(97 + col)`. */
  function Letter(col: int): char
    requires 0 <= col < Size
  {
    (97 + col) as char
  }

  /** `(BOARD_SIZE - row).toString()`: one digit, 1..8. */
  function RowDigit(row: int): char
    requires 0 <= row < Size
  {
    DigitChar(Size - row)
  }

  /** `getMoveNotation`, as in "b6-a5". */
  function Notation(m: Move): (s: string)
    requires OnBoard(m.from) && OnBoard(m.to)
    ensures |s| == 5 && s[2] == '-'
  {
    [Letter(m.from.col), RowDigit(m.from.row), '-', Letter(m.to.col), RowDigit(m.to.row)]
  }

  /** Reads a square back from its letter and digit. */
  function ParseSquare(letter: char, digit: char): Option<Pos> {
    if 'a' <= letter <= 'h' && '1' <= digit <= '8'
    then Some(Pos(Size - (digit as int - '0' as int), letter as int - 'a' as int))
    else None
  }

  /** Reads a move back from its notation. */
  function ParseNotation(s: string): (r: Option<Move>)
    ensures r.Some? ==> OnBoard(r.value.from) && OnBoard(r.value.to)
  {
    if |s| != 5 || s[2] != '-' then None
    else match (ParseSquare(s[0], s[1]), ParseSquare(s[3], s[4]))
      case (Some(f), Some(t)) => Some(Move(f, t))
      case _ => None
  }

  /** The notation determines the move, so the history names every move played. */
  lemma NotationRoundTrip(m: Move)
    requires OnBoard(m.from) && OnBoard(m.to)
    ensures ParseNotation(Notation(m)) == Some(m)
  {
  }

  lemma NotationInjective(m: Move, n: Move)
    requires OnBoard(m.from) && OnBoard(m.to) && OnBoard(n.from) && OnBoard(n.to)
    ensures Notation(m) == Notation(n) <==> m == n
  {
    NotationRoundTrip(m);
    NotationRoundTrip(n);
  }

  // ---------------------------------------------------------------------------
  // All moves of one side

  function MovesTo(from: Pos, ts: seq<Pos>): (ms: seq<Move>)
    ensures |ms| == |ts| && forall i :: 0 <= i < |ts| ==> ms[i] == Move(from, ts[i])
  {
    seq(|ts|, i requires 0 <= i < |ts| => Move(from, ts[i]))
  }

  lemma ValidMovesLegal(b: Board, from: Pos)
    requires IsBoard(b) && OnBoard(from)
    ensures forall t :: t in ValidMoves(b, from) ==> Legal(Move(from, t))
  {
    ValidMovesShape(b, from);
    forall t | t in ValidMoves(b, from) ensures Legal(Move(from, t)) {
      StepIsLegal(b, from, t);
    }
  }

  /** The moves of the piece on (r, c) when its string starts with `p`. */
  function SquareMoves(b: Board, p: Color, r: int, c: int): seq<Move>
    requires IsBoard(b) && OnBoard(Pos(r, c))
  {
    if OfColor(b[r][c], p) then MovesTo(Pos(r, c), ValidMoves(b, Pos(r, c))) else []
  }

  /** The move lists of the 64 squares for the side `p`, row by row. */
  function MoveTable(b: Board, p: Color): seq<seq<seq<Move>>>
    requires IsBoard(b)
  {
    seq(Size, r requires 0 <= r < Size => seq(Size, c requires 0 <= c < Size => SquareMoves(b, p, r, c)))
  }

  /** The lists of the first n squares of a row, one after the other. */
  function RowMoves(cells: seq<seq<Move>>, n: nat): seq<Move>
    requires n <= |cells|
  {
    if n == 0 then [] else RowMoves(cells, n - 1) + cells[n - 1]
  }

  /** The rows of the first n rows of a table, one after the other. */
  function RowsMoves(t: seq<seq<seq<Move>>>, n: nat): seq<Move>
    requires n <= |t|
  {
    if n == 0 then [] else RowsMoves(t, n - 1) + RowMoves(t[n - 1], |t[n - 1]|)
  }

  /** `getAllPossibleMoves` for the side `p`: the squares in row-major order,
      and for each square of that colour its `getValidMoves` targets in order. */
  function AllMoves(b: Board, p: Color): seq<Move>
    requires IsBoard(b)
  {
    RowsMoves(MoveTable(b, p), Size)
  }

  /** Every listed move is one `makeMove` can play. */
  lemma AllMovesLegal(b: Board, p: Color)
    requires IsBoard(b)
    ensures forall m :: m in AllMoves(b, p) ==> Legal(m)
  {
    forall m | m in AllMoves(b, p) ensures Legal(m) {
      AllMovesSound(b, p, m);
      ValidMovesLegal(b, m.from);
    }
  }

  /** Every listed move starts on a piece of the side `p` and goes to one of
      that piece's `getValidMoves` targets. */
  lemma AllMovesSound(b: Board, p: Color, m: Move)
    requires IsBoard(b) && m in AllMoves(b, p)
    ensures OnBoard(m.from) && OfColor(At(b, m.from), p) && m.to in ValidMoves(b, m.from)
  {
    var t := MoveTable(b, p);
    RowsMovesIn(t, Size, m);
    var r, c :| 0 <= r < Size && 0 <= c < |t[r]| && m in t[r][c];
    SquareMovesSound(b, p, r, c, m);
  }

  /** Conversely, every target of every piece of the side to move is listed. */
  lemma AllMovesComplete(b: Board, p: Color, m: Move)
    requires IsBoard(b) && OnBoard(m.from) && OfColor(At(b, m.from), p) && m.to in ValidMoves(b, m.from)
    ensures m in AllMoves(b, p)
  {
    SquareMovesComplete(b, p, m);
    var t := MoveTable(b, p);
    assert t[m.from.row][m.from.col] == SquareMoves(b, p, m.from.row, m.from.col);
    RowsMovesHas(t, Size, m.from.row, m.from.col, m);
  }

  lemma SquareMovesSound(b: Board, p: Color, r: int, c: int, m: Move)
    requires IsBoard(b) && OnBoard(Pos(r, c)) && m in MoveTable(b, p)[r][c]
    ensures m.from == Pos(r, c) && OfColor(At(b, m.from), p) && m.to in ValidMoves(b, m.from)
  {
    var ms := SquareMoves(b, p, r, c);
    assert MoveTable(b, p)[r][c] == ms;
    var i :| 0 <= i < |ms| && ms[i] == m;
  }

  lemma SquareMovesComplete(b: Board, p: Color, m: Move)
    requires IsBoard(b) && OnBoard(m.from) && OfColor(At(b, m.from), p) && m.to in ValidMoves(b, m.from)
    ensures m in SquareMoves(b, p, m.from.row, m.from.col)
  {
    var ts := ValidMoves(b, m.from);
    var i :| 0 <= i < |ts| && ts[i] == m.to;
    assert SquareMoves(b, p, m.from.row, m.from.col)[i] == m;
  }

  /** A move of the first n rows comes from one of their squares. */
  lemma {:induction false} RowsMovesIn(t: seq<seq<seq<Move>>>, n: nat, m: Move)
    requires n <= |t| && m in RowsMoves(t, n)
    ensures exists r, c :: 0 <= r < n && 0 <= c < |t[r]| && m in t[r][c]
  {
    if m in RowsMoves(t, n - 1) {
      RowsMovesIn(t, n - 1, m);
    } else {
      RowMovesIn(t[n - 1], |t[n - 1]|, m);
    }
  }

  lemma {:induction false} RowMovesIn(cells: seq<seq<Move>>, n: nat, m: Move)
    requires n <= |cells| && m in RowMoves(cells, n)
    ensures exists c :: 0 <= c < n && m in cells[c]
  {
    if m in RowMoves(cells, n - 1) {
      RowMovesIn(cells, n - 1, m);
    }
  }

  /** Every move of a square of the first n rows is among theirs. */
  lemma {:induction false} RowsMovesHas(t: seq<seq<seq<Move>>>, n: nat, r: nat, c: nat, m: Move)
    requires r < n <= |t| && c < |t[r]| && m in t[r][c]
    ensures m in RowsMoves(t, n)
  {
    if r == n - 1 {
      RowMovesHas(t[r], |t[r]|, c, m);
    } else {
      RowsMovesHas(t, n - 1, r, c, m);
    }
  }

  lemma {:induction false} RowMovesHas(cells: seq<seq<Move>>, n: nat, c: nat, m: Move)
    requires c < n <= |cells| && m in cells[c]
    ensures m in RowMoves(cells, n)
  {
    if c < n - 1 {
      RowMovesHas(cells, n - 1, c, m);
    }
  }

  // ---------------------------------------------------------------------------
  // End of the game

  datatype Outcome = Won(color: Color) | Draw

  datatype Stats = Stats(wins: nat, losses: nat, draws: nat)

  /** `checkGameStatus` with `currentPlayer` = p, the side that has just moved
      (the turn passes only afterwards): no 'white' piece left is a win for
      'black', then no 'black' piece a win for 'white', then a side `p` without
      a move a draw. */
  function Status(b: Board, p: Color): (r: Option<Outcome>)
    requires IsBoard(b)
  {
    if PieceCount(b, White) == 0 then Some(Won(Black))
    else if PieceCount(b, Black) == 0 then Some(Won(White))
    else if |AllMoves(b, p)| == 0 then Some(Draw)
    else None
  }

  /** The counters after `endGame(result)` with `currentPlayer` = p: a win for
      the colour still to move counts as a win, any other win as a loss. */
  function Tally(stats: Stats, result: Outcome, p: Color): (st: Stats)
    ensures st.wins + st.losses + st.draws == stats.wins + stats.losses + stats.draws + 1
  {
    match result
    case Draw => stats.(draws := stats.draws + 1)
    case Won(c) => if c == p then stats.(wins := stats.wins + 1) else stats.(losses := stats.losses + 1)
  }

  /** The part of the game state that a move touches besides the board and the
      turn: the result, the game-over flag, the counters and the history. */
  datatype Side = Side(winner: Option<Outcome>, isGameOver: bool, stats: Stats, history: seq<string>)

  /** `endGame(result)` with `currentPlayer` = p. */
  function Ended(side: Side, result: Outcome, p: Color): Side {
    side.(isGameOver := true, winner := Some(result), stats := Tally(side.stats, result, p))
  }

  /** What one `makeMove` leaves behind besides the board: its notation, the
      status of the new board, and the side that moved. */
  datatype Trial = Trial(note: string, status: Option<Outcome>, mover: Color)

  function TrialOf(b: Board, p: Color, m: Move): Trial
    requires IsBoard(b) && Legal(m)
  {
    Trial(Notation(m), Status(ApplyMove(b, m), p), p)
  }

  /** The side state after a move: the notation is appended, then a status
      that is a result ends the game. */
  function Record(side: Side, t: Trial): Side {
    var s1 := side.(history := side.history + [t.note]);
    match t.status
    case None => s1
    case Some(result) => Ended(s1, result, t.mover)
  }

  /** `checkGameStatus` with `currentPlayer` = p: the game ends with the
      board's status, if it has one. */
  function AfterStatus(side: Side, b: Board, p: Color): Side
    requires IsBoard(b)
  {
    match Status(b, p)
    case None => side
    case Some(result) => Ended(side, result, p)
  }

  /** A trial move records what `makeMove` does: the notation, then the status
      check of the new board. */
  lemma RecordIsMakeMove(side: Side, b: Board, p: Color, m: Move)
    requires IsBoard(b) && Legal(m)
    ensures Record(side, TrialOf(b, p, m)) == AfterStatus(side.(history := side.history + [Notation(m)]), ApplyMove(b, m), p)
  {
  }

  /** A move appends exactly its notation, and ends the game exactly when the
      new board has a result; the counters then grow by one. */
  lemma RecordEffect(side: Side, t: Trial)
    ensures Record(side, t).history == side.history + [t.note]
    ensures t.status.None? ==> Record(side, t) == side.(history := side.history + [t.note])
    ensures t.status.Some? ==>
      var s' := Record(side, t);
      s'.isGameOver && s'.winner == t.status
      && s'.stats.wins + s'.stats.losses + s'.stats.draws == side.stats.wins + side.stats.losses + side.stats.draws + 1
  {
  }

  // ---------------------------------------------------------------------------
  // Search

  /** Scores lie in [-1000, 1000], so -1001 and 1001 stand in exactly for the
      source's -Infinity and Infinity. */
  const Inf := 1001
  const Lost := 1000

  /** The positions that `minimax` visits: a leaf holds the value the source
      returns without searching, a node the moves in `getAllPossibleMoves`
      order, each with what its trial `makeMove` records and the subtree below. */
  datatype Tree = Leaf(value: int) | Node(kids: seq<Edge>)
  datatype Edge = Edge(trial: Trial, child: Tree)

  /** The tree below board b with p to move: at depth 0 the evaluation for
      `currentPlayer` = p, without moves -1000 for a maximising and 1000 for
      a minimising node, otherwise one edge per move, the turn passing and the
      node kind alternating. */
  function GameTree(b: Board, p: Color, depth: nat, isMax: bool): Tree
    requires IsBoard(b)
    decreases depth, 1
  {
    if depth == 0 then Leaf(Evaluate(b, p))
    else
      var moves := AllMoves(b, p);
      if |moves| == 0 then Leaf(if isMax then -Lost else Lost)
      else
        AllMovesLegal(b, p);
        Node(seq(|moves|, j requires 0 <= j < |moves| => EdgeOf(b, p, moves[j], depth, isMax)))
  }

  function EdgeOf(b: Board, p: Color, m: Move, depth: nat, isMax: bool): Edge
    requires IsBoard(b) && Legal(m) && depth >= 1
    decreases depth, 0
  {
    Edge(TrialOf(b, p, m), GameTree(ApplyMove(b, m), Other(p), depth - 1, !isMax))
  }

  /** The score of a search, with the side state after its trial moves. */
  datatype Search = Search(score: int, side: Side)

  /** The source's `minimax` on a tree: the cut-offs included, and every trial
      move recorded in the side state. */
  function TreeSearch(t: Tree, alpha: int, beta: int, isMax: bool, side: Side): Search
    decreases t, 1
  {
    match t
    case Leaf(v) => Search(v, side)
    case Node(kids) =>
      if isMax then MaxLoop(kids, 0, alpha, beta, -Inf, side)
      else MinLoop(kids, 0, alpha, beta, Inf, side)
  }

  /** The maximising loop from child i on, with the current alpha and best score:
      `maxScore = max(maxScore, score)`, `alpha = max(alpha, score)`, stop once
      `beta <= alpha`. */
  function MaxLoop(kids: seq<Edge>, i: nat, alpha: int, beta: int, maxScore: int, side: Side): Search
    requires i <= |kids|
    decreases Node(kids), 0, |kids| - i
  {
    if i == |kids| then Search(maxScore, side)
    else
      var child := TreeSearch(kids[i].child, alpha, beta, false, Record(side, kids[i].trial));
      var best := Max(maxScore, child.score);
      var a := Max(alpha, child.score);
      if beta <= a then Search(best, child.side)
      else MaxLoop(kids, i + 1, a, beta, best, child.side)
  }

  /** The minimising loop, symmetrically with beta. */
  function MinLoop(kids: seq<Edge>, i: nat, alpha: int, beta: int, minScore: int, side: Side): Search
    requires i <= |kids|
    decreases Node(kids), 0, |kids| - i
  {
    if i == |kids| then Search(minScore, side)
    else
      var child := TreeSearch(kids[i].child, alpha, beta, true, Record(side, kids[i].trial));
      var worst := Min(minScore, child.score);
      var bt := Min(beta, child.score);
      if bt <= alpha then Search(worst, child.side)
      else MinLoop(kids, i + 1, alpha, bt, worst, child.side)
  }

  /** `minimax(depth, alpha, beta, isMaximizing)` on board b with p to move. */
  function AlphaBeta(b: Board, p: Color, depth: nat, alpha: int, beta: int, isMax: bool, side: Side): Search
    requires IsBoard(b)
  {
    TreeSearch(GameTree(b, p, depth, isMax), alpha, beta, isMax, side)
  }

  /** The same recursion without cut-offs: the value that pruning must not
      change. */
  function TreeValue(t: Tree, isMax: bool): int
    decreases t, 1
  {
    match t
    case Leaf(v) => v
    case Node(kids) => if isMax then BestFrom(kids, 0) else WorstFrom(kids, 0)
  }

  /** The largest child value from child i on; -1001 when none is left. */
  function BestFrom(kids: seq<Edge>, i: nat): int
    requires i <= |kids|
    decreases Node(kids), 0, |kids| - i
  {
    if i == |kids| then -Inf else Max(TreeValue(kids[i].child, false), BestFrom(kids, i + 1))
  }

  /** The smallest child value from child i on; 1001 when none is left. */
  function WorstFrom(kids: seq<Edge>, i: nat): int
    requires i <= |kids|
    decreases Node(kids), 0, |kids| - i
  {
    if i == |kids| then Inf else Min(TreeValue(kids[i].child, true), WorstFrom(kids, i + 1))
  }

  function MinimaxValue(b: Board, p: Color, depth: nat, isMax: bool): int
    requires IsBoard(b)
  {
    TreeValue(GameTree(b, p, depth, isMax), isMax)
  }

  /** Every leaf is a score in [-1000, 1000] and every node has a child. */
  predicate Bounded(t: Tree)
    decreases t, 1
  {
    match t
    case Leaf(v) => -Lost <= v <= Lost
    case Node(kids) => |kids| > 0 && AllBounded(kids, 0)
  }

  predicate AllBounded(kids: seq<Edge>, i: nat)
    requires i <= |kids|
    decreases Node(kids), 0, |kids| - i
  {
    i == |kids| || (Bounded(kids[i].child) && AllBounded(kids, i + 1))
  }

  lemma {:induction false} GameTreeBounded(b: Board, p: Color, depth: nat, isMax: bool)
    requires IsBoard(b)
    ensures Bounded(GameTree(b, p, depth, isMax))
    decreases depth, 1
  {
    if depth == 0 {
      EvaluateBounds(b, p);
    } else {
      var moves := AllMoves(b, p);
      AllMovesLegal(b, p);
      if |moves| > 0 {
        var kids := seq(|moves|, j requires 0 <= j < |moves| => EdgeOf(b, p, moves[j], depth, isMax));
        assert GameTree(b, p, depth, isMax) == Node(kids);
        EdgesBounded(b, p, moves, depth, isMax, kids, 0);
      }
    }
  }

  lemma {:induction false} EdgesBounded(b: Board, p: Color, moves: seq<Move>, depth: nat, isMax: bool, kids: seq<Edge>, i: nat)
    requires IsBoard(b) && depth >= 1 && i <= |moves| == |kids|
    requires forall m :: m in moves ==> Legal(m)
    requires forall j :: 0 <= j < |moves| ==> kids[j] == EdgeOf(b, p, moves[j], depth, isMax)
    ensures AllBounded(kids, i)
    decreases depth, 0, |moves| - i
  {
    if i < |moves| {
      assert moves[i] in moves;
      GameTreeBounded(ApplyMove(b, moves[i]), Other(p), depth - 1, !isMax);
      EdgesBounded(b, p, moves, depth, isMax, kids, i + 1);
    }
  }

  /** Every value of a bounded tree lies in [-1000, 1000]. */
  lemma {:induction false} TreeValueRange(t: Tree, isMax: bool)
    requires Bounded(t)
    ensures -Lost <= TreeValue(t, isMax) <= Lost
    decreases t, 1
  {
    match t
    case Leaf(v) =>
    case Node(kids) =>
      BestFromRange(kids, 0);
      WorstFromRange(kids, 0);
  }

  lemma {:induction false} BestFromRange(kids: seq<Edge>, i: nat)
    requires i < |kids| && AllBounded(kids, i)
    ensures -Lost <= BestFrom(kids, i) <= Lost
    decreases Node(kids), 0, |kids| - i
  {
    TreeValueRange(kids[i].child, false);
    if i + 1 < |kids| {
      BestFromRange(kids, i + 1);
    }
  }

  lemma {:induction false} WorstFromRange(kids: seq<Edge>, i: nat)
    requires i < |kids| && AllBounded(kids, i)
    ensures -Lost <= WorstFrom(kids, i) <= Lost
    decreases Node(kids), 0, |kids| - i
  {
    TreeValueRange(kids[i].child, true);
    if i + 1 < |kids| {
      WorstFromRange(kids, i + 1);
    }
  }

  /** Alpha-beta soundness: a score at or below the window bounds the true
      value from above, one at or above it bounds it from below, and one
      strictly inside it is the true value. The side state plays no part. */
  lemma {:induction false} TreeSearchSound(t: Tree, alpha: int, beta: int, isMax: bool, side: Side)
    requires -Inf <= alpha < beta <= Inf
    ensures var f := TreeSearch(t, alpha, beta, isMax, side).score;
      var v := TreeValue(t, isMax);
      (f <= alpha ==> v <= f) && (f >= beta ==> v >= f) && (alpha < f < beta ==> v == f)
    decreases t, 1
  {
    match t
    case Leaf(_) =>
    case Node(kids) =>
      if isMax {
        MaxLoopSound(kids, 0, alpha, beta, -Inf, side);
      } else {
        MinLoopSound(kids, 0, alpha, beta, Inf, side);
      }
  }

  /** The maximising loop: its result r is at least the best so far; a cut-off
      result bounds the remaining true values from below; otherwise it bounds
      them from above, and is reached by one of them when it beats alpha. */
  lemma {:induction false} MaxLoopSound(kids: seq<Edge>, i: nat, alpha: int, beta: int, maxScore: int, side: Side)
    requires i <= |kids| && -Inf <= maxScore <= alpha < beta <= Inf
    ensures var r := MaxLoop(kids, i, alpha, beta, maxScore, side).score;
      var v := BestFrom(kids, i);
      r >= maxScore && (r >= beta ==> v >= r) && (r < beta ==> v <= r) && (alpha < r < beta ==> v >= r)
    decreases Node(kids), 0, |kids| - i
  {
    if i < |kids| {
      var s1 := Record(side, kids[i].trial);
      TreeSearchSound(kids[i].child, alpha, beta, false, s1);
      var child := TreeSearch(kids[i].child, alpha, beta, false, s1);
      var a := Max(alpha, child.score);
      if a < beta {
        MaxLoopSound(kids, i + 1, a, beta, Max(maxScore, child.score), child.side);
      }
    }
  }

  lemma {:induction false} MinLoopSound(kids: seq<Edge>, i: nat, alpha: int, beta: int, minScore: int, side: Side)
    requires i <= |kids| && -Inf <= alpha < beta <= minScore <= Inf
    ensures var r := MinLoop(kids, i, alpha, beta, minScore, side).score;
      var v := WorstFrom(kids, i);
      r <= minScore && (r <= alpha ==> v <= r) && (r > alpha ==> v >= r) && (alpha < r < beta ==> v <= r)
    decreases Node(kids), 0, |kids| - i
  {
    if i < |kids| {
      var s1 := Record(side, kids[i].trial);
      TreeSearchSound(kids[i].child, alpha, beta, true, s1);
      var child := TreeSearch(kids[i].child, alpha, beta, true, s1);
      var bt := Min(beta, child.score);
      if alpha < bt {
        MinLoopSound(kids, i + 1, alpha, bt, Min(minScore, child.score), child.side);
      }
    }
  }

  /** On a bounded tree the full window prunes nothing that matters: the
      search returns exactly the unpruned value. */
  lemma FullWindowTree(t: Tree, isMax: bool, side: Side)
    requires Bounded(t)
    ensures TreeSearch(t, -Inf, Inf, isMax, side).score == TreeValue(t, isMax)
  {
    TreeSearchSound(t, -Inf, Inf, isMax, side);
    TreeValueRange(t, isMax);
  }

  /** With the full window, as `findBestMove` calls it, the pruned search
      returns exactly the unpruned value. */
  lemma FullWindowExact(b: Board, p: Color, depth: nat, isMax: bool, side: Side)
    requires IsBoard(b)
    ensures AlphaBeta(b, p, depth, -Inf, Inf, isMax, side).score == MinimaxValue(b, p, depth, isMax)
  {
    GameTreeBounded(b, p, depth, isMax);
    FullWindowTree(GameTree(b, p, depth, isMax), isMax, side);
  }

  /** Every searched value is a score in [-1000, 1000]. */
  lemma MinimaxValueRange(b: Board, p: Color, depth: nat, isMax: bool)
    requires IsBoard(b)
    ensures -Lost <= MinimaxValue(b, p, depth, isMax) <= Lost
  {
    GameTreeBounded(b, p, depth, isMax);
    TreeValueRange(GameTree(b, p, depth, isMax), isMax);
  }

  /** Below a node, one edge per listed move, in order. */
  lemma GameTreeKids(b: Board, p: Color, depth: nat, isMax: bool)
    requires IsBoard(b) && depth >= 1 && |AllMoves(b, p)| > 0
    ensures GameTree(b, p, depth, isMax).Node?
    ensures var moves := AllMoves(b, p);
      var kids := GameTree(b, p, depth, isMax).kids;
      |kids| == |moves| && forall j :: 0 <= j < |moves| ==> Legal(moves[j]) && kids[j] == EdgeOf(b, p, moves[j], depth, isMax)
  {
    AllMovesLegal(b, p);
  }

  /** One pass of the maximising loop of `minimax`: the search below child i,
      then the cut-off test. */
  lemma MaxStep(kids: seq<Edge>, i: nat, alpha: int, beta: int, maxScore: int, side: Side, score: int, side': Side)
    requires i < |kids| && Search(score, side') == TreeSearch(kids[i].child, alpha, beta, false, Record(side, kids[i].trial))
    ensures MaxLoop(kids, i, alpha, beta, maxScore, side) ==
      if beta <= Max(alpha, score) then Search(Max(maxScore, score), side')
      else MaxLoop(kids, i + 1, Max(alpha, score), beta, Max(maxScore, score), side')
  {
  }

  /** One pass of the minimising loop of `minimax`. */
  lemma MinStep(kids: seq<Edge>, i: nat, alpha: int, beta: int, minScore: int, side: Side, score: int, side': Side)
    requires i < |kids| && Search(score, side') == TreeSearch(kids[i].child, alpha, beta, true, Record(side, kids[i].trial))
    ensures MinLoop(kids, i, alpha, beta, minScore, side) ==
      if Min(beta, score) <= alpha then Search(Min(minScore, score), side')
      else MinLoop(kids, i + 1, alpha, Min(beta, score), Min(minScore, score), side')
  {
  }

  // ---------------------------------------------------------------------------
  // The move `findBestMove` returns

  /** k is the first position of a largest element of s. */
  predicate IsFirstMax(s: seq<int>, k: nat) {
    k < |s| && (forall j :: 0 <= j < |s| ==> s[j] <= s[k]) && (forall j :: 0 <= j < k ==> s[j] < s[k])
  }

  /** The first position of a largest element: the index a scan keeps when it
      replaces its best only on a strictly greater score. */
  function FirstMaxIndex(s: seq<int>): (k: nat)
    requires |s| > 0
    ensures IsFirstMax(s, k)
  {
    if |s| == 1 then 0
    else
      var k := FirstMaxIndex(s[..|s| - 1]);
      if s[|s| - 1] > s[k] then |s| - 1 else k
  }

  /** The first largest element is unique. */
  lemma FirstMaxUnique(s: seq<int>, k: nat, k': nat)
    requires IsFirstMax(s, k) && IsFirstMax(s, k')
    ensures k == k'
  {
    assert !(s[k] < s[k']) && !(s[k'] < s[k]);
  }

  /** The root score of each move for `findBestMove(depth)`: the negated value
      of the minimising search one level down, the turn passed. */
  function MoveScores(b: Board, p: Color, depth: nat): (s: seq<int>)
    requires IsBoard(b) && depth >= 1
    ensures |s| == |AllMoves(b, p)|
  {
    var moves := AllMoves(b, p);
    AllMovesLegal(b, p);
    seq(|moves|, j requires 0 <= j < |moves| => -MinimaxValue(ApplyMove(b, moves[j]), Other(p), depth - 1, false))
  }

  /** `findBestMove(depth)`: no move without moves, otherwise the first move of
      highest root score. */
  function BestMove(b: Board, p: Color, depth: nat): (r: Option<Move>)
    requires IsBoard(b) && depth >= 1
    ensures r.None? <==> |AllMoves(b, p)| == 0
    ensures r.Some? ==> r.value in AllMoves(b, p)
  {
    var moves := AllMoves(b, p);
    if |moves| == 0 then None else Some(moves[FirstMaxIndex(MoveScores(b, p, depth))])
  }

  /** The chosen move scores at least as well as every other move, and better
      than every move listed before it. */
  lemma BestMoveIsBest(b: Board, p: Color, depth: nat)
    requires IsBoard(b) && depth >= 1 && |AllMoves(b, p)| > 0
    ensures var moves := AllMoves(b, p);
      var s := MoveScores(b, p, depth);
      exists k: nat :: IsFirstMax(s, k) && BestMove(b, p, depth) == Some(moves[k])
  {
    var k := FirstMaxIndex(MoveScores(b, p, depth));
    assert IsFirstMax(MoveScores(b, p, depth), k);
  }

  /** One more score in the scan of `findBestMove`: the best so far is replaced
      only by a strictly greater score. */
  lemma FirstMaxSnoc(s: seq<int>, i: nat)
    requires 0 < i < |s|
    ensures var k := FirstMaxIndex(s[..i]);
      FirstMaxIndex(s[..i + 1]) == if s[i] > s[k] then i else k
  {
    assert s[..i + 1][..i] == s[..i];
  }

  /** The scan of `findBestMove` over the first i scores, as written: it starts
      from index 0 and score -Infinity and takes a score only when strictly
      greater than the best so far. */
  function ScanBest(s: seq<int>, i: nat): (r: (nat, int))
    requires i <= |s|
    ensures r.0 < |s| || (i == 0 && r.0 == 0)
  {
    if i == 0 then (0, -Inf)
    else
      var prev := ScanBest(s, i - 1);
      if s[i - 1] > prev.1 then (i - 1, s[i - 1]) else prev
  }

  /** When the first score lies above -Infinity, the scan keeps the first
      position of a largest score, and its score. */
  lemma {:induction false} ScanBestIsFirstMax(s: seq<int>, i: nat)
    requires 0 < i <= |s| && s[0] > -Inf
    ensures ScanBest(s, i) == (FirstMaxIndex(s[..i]), s[FirstMaxIndex(s[..i])])
  {
    if i > 1 {
      ScanBestIsFirstMax(s, i - 1);
      FirstMaxSnoc(s, i - 1);
    }
  }

  /** The root score of each move is the negated value of its subtree, and
      every subtree is bounded. */
  lemma RootScores(b: Board, p: Color, depth: nat)
    requires IsBoard(b) && depth >= 1 && |AllMoves(b, p)| > 0
    ensures var kids := GameTree(b, p, depth, true).kids;
      |kids| == |MoveScores(b, p, depth)| &&
      forall j :: 0 <= j < |kids| ==> Bounded(kids[j].child) && MoveScores(b, p, depth)[j] == -TreeValue(kids[j].child, false)
  {
    GameTreeKids(b, p, depth, true);
    var moves := AllMoves(b, p);
    var kids := GameTree(b, p, depth, true).kids;
    forall j | 0 <= j < |kids|
      ensures Bounded(kids[j].child) && MoveScores(b, p, depth)[j] == -TreeValue(kids[j].child, false)
    {
      GameTreeBounded(ApplyMove(b, moves[j]), Other(p), depth - 1, false);
    }
  }

  /** The root edges of `findBestMove` from position i on: each is the edge of
      its move, with a bounded subtree. Stated recursively, so that a loop over
      the root does not unfold every edge. */
  ghost predicate EdgesFrom(b: Board, p: Color, moves: seq<Move>, kids: seq<Edge>, depth: nat, i: nat)
    requires IsBoard(b) && depth >= 1 && i <= |moves| == |kids|
    decreases |moves| - i
  {
    i == |moves|
    || (Legal(moves[i]) && kids[i] == EdgeOf(b, p, moves[i], depth, true) && Bounded(kids[i].child)
        && EdgesFrom(b, p, moves, kids, depth, i + 1))
  }

  lemma {:induction false} EdgesAt(b: Board, p: Color, moves: seq<Move>, kids: seq<Edge>, depth: nat, i: nat, j: nat)
    requires IsBoard(b) && depth >= 1 && i <= j < |moves| == |kids| && EdgesFrom(b, p, moves, kids, depth, i)
    ensures Legal(moves[j]) && kids[j] == EdgeOf(b, p, moves[j], depth, true) && Bounded(kids[j].child)
    decreases j - i
  {
    if i < j {
      EdgesAt(b, p, moves, kids, depth, i + 1, j);
    }
  }

  lemma {:induction false} EdgesFromAll(b: Board, p: Color, moves: seq<Move>, kids: seq<Edge>, depth: nat, i: nat)
    requires IsBoard(b) && depth >= 1 && i <= |moves| == |kids|
    requires forall j :: i <= j < |moves| ==> Legal(moves[j]) && kids[j] == EdgeOf(b, p, moves[j], depth, true) && Bounded(kids[j].child)
    ensures EdgesFrom(b, p, moves, kids, depth, i)
    decreases |moves| - i
  {
    if i < |moves| {
      EdgesFromAll(b, p, moves, kids, depth, i + 1);
    }
  }

  /** The score `findBestMove` gives each root edge: the negated value of the
      minimising search below it. */
  function ChildScores(kids: seq<Edge>): (s: seq<int>)
    ensures |s| == |kids|
    ensures forall j :: 0 <= j < |kids| ==> s[j] == -TreeValue(kids[j].child, false)
  {
    seq(|kids|, j requires 0 <= j < |kids| => -TreeValue(kids[j].child, false))
  }

  lemma ScoresOfChildren(kids: seq<Edge>, s: seq<int>)
    requires |s| == |kids| && forall j :: 0 <= j < |kids| ==> s[j] == -TreeValue(kids[j].child, false)
    ensures ChildScores(kids) == s
  {
  }

  /** The side state the root trials of `findBestMove` leave from child i on,
      each child searched with the full window. */
  function RootLoop(kids: seq<Edge>, i: nat, side: Side): Side
    requires i <= |kids|
    decreases |kids| - i
  {
    if i == |kids| then side
    else RootLoop(kids, i + 1, TreeSearch(kids[i].child, -Inf, Inf, false, Record(side, kids[i].trial)).side)
  }

  /** One root trial of `findBestMove`. */
  lemma RootStep(kids: seq<Edge>, i: nat, side: Side, score: int, side': Side)
    requires i < |kids| && Search(score, side') == TreeSearch(kids[i].child, -Inf, Inf, false, Record(side, kids[i].trial))
    ensures RootLoop(kids, i, side) == RootLoop(kids, i + 1, side')
  {
  }

  /** The side state after `findBestMove(depth)`. */
  function BestMoveSide(b: Board, p: Color, depth: nat, side: Side): Side
    requires IsBoard(b) && depth >= 1
  {
    match GameTree(b, p, depth, true)
    case Leaf(_) => side
    case Node(kids) => RootLoop(kids, 0, side)
  }

  // ---------------------------------------------------------------------------
  // The AI's choice

  datatype Difficulty = Easy | Medium | Hard

  /** The random draws of one AI move: the medium coin and the random pick. */
  datatype Draws = Draws(coin: real, pick: real)

  predicate ValidDraws(d: Draws) {
    IsDraw(d.coin) && IsDraw(d.pick)
  }

  /** Whether `calculateBestMove` searches: always on hard, on medium when the
      coin is not below 0.5, never on easy. */
  predicate Searches(difficulty: Difficulty, d: Draws) {
    difficulty == Hard || (difficulty == Medium && !(d.coin < 0.5))
  }

  function SearchDepth(difficulty: Difficulty): nat {
    if difficulty == Hard then 4 else 2
  }

  /** `calculateBestMove`: no move without moves; a random move on easy or on
      medium when the coin falls below 0.5; otherwise `findBestMove` at depth 2
      on medium and 4 on hard. */
  function AIChoice(b: Board, p: Color, difficulty: Difficulty, d: Draws): (r: Option<Move>)
    requires IsBoard(b) && ValidDraws(d)
    ensures r.None? <==> |AllMoves(b, p)| == 0
    ensures r.Some? ==> r.value in AllMoves(b, p) && Legal(r.value)
  {
    var moves := AllMoves(b, p);
    AllMovesLegal(b, p);
    if |moves| == 0 then None
    else if Searches(difficulty, d) then BestMove(b, p, SearchDepth(difficulty))
    else Some(moves[Pick(d.pick, |moves|)])
  }

  /** The side state after `calculateBestMove`: only a search plays trial moves. */
  function AIChoiceSide(b: Board, p: Color, difficulty: Difficulty, d: Draws, side: Side): Side
    requires IsBoard(b)
  {
    if |AllMoves(b, p)| == 0 || !Searches(difficulty, d) then side
    else BestMoveSide(b, p, SearchDepth(difficulty), side)
  }

  // ---------------------------------------------------------------------------
  // One more direction

  lemma StepsAlongSnoc(b: Board, from: Pos, dr: int, cols: seq<int>, j: nat)
    requires IsBoard(b) && j < |cols|
    ensures StepsAlong(b, from, dr, cols[..j + 1]) == StepsAlong(b, from, dr, cols[..j]) + Step(b, from, dr, cols[j])
  {
    assert cols[..j + 1][..j] == cols[..j];
  }

  lemma StepsSnoc(b: Board, from: Pos, dirs: seq<int>, i: nat)
    requires IsBoard(b) && i < |dirs|
    ensures Steps(b, from, dirs[..i + 1]) == Steps(b, from, dirs[..i]) + StepsAlong(b, from, dirs[i], [-1, 1])
  {
    assert dirs[..i + 1][..i] == dirs[..i];
  }

  lemma JumpsAlongSnoc(b: Board, from: Pos, dr: int, cols: seq<int>, j: nat)
    requires IsBoard(b) && OnBoard(from) && j < |cols|
    ensures JumpsAlong(b, from, dr, cols[..j + 1]) == JumpsAlong(b, from, dr, cols[..j]) + Jump(b, from, dr, cols[j])
  {
    assert cols[..j + 1][..j] == cols[..j];
  }

  lemma JumpsSnoc(b: Board, from: Pos, dirs: seq<int>, i: nat)
    requires IsBoard(b) && OnBoard(from) && i < |dirs|
    ensures Jumps(b, from, dirs[..i + 1]) == Jumps(b, from, dirs[..i]) + JumpsAlong(b, from, dirs[i], [-1, 1])
  {
    assert dirs[..i + 1][..i] == dirs[..i];
  }

  lemma StepIs(b: Board, from: Pos, dr: int, dc: int)
    requires IsBoard(b)
    ensures Step(b, from, dr, dc) ==
      if 0 <= from.row + dr < Size && 0 <= from.col + dc < Size && b[from.row + dr][from.col + dc] == Empty
      then [Pos(from.row + dr, from.col + dc)] else []
  {
  }

  lemma JumpIs(b: Board, from: Pos, dr: int, dc: int)
    requires IsBoard(b) && OnBoard(from)
    ensures Jump(b, from, dr, dc) ==
      if 0 <= from.row + dr * 2 < Size && 0 <= from.col + dc * 2 < Size && b[from.row + dr * 2][from.col + dc * 2] == Empty
        && OfColor(b[from.row + dr][from.col + dc], Opponent(b[from.row][from.col]))
      then [Capture(from, Pos(from.row + dr * 2, from.col + dc * 2), Pos(from.row + dr, from.col + dc))] else []
  {
  }

  lemma AppendAssoc<T>(x: seq<T>, y: seq<T>, z: seq<T>)
    ensures x + y + z == x + (y + z)
  {
  }

  /** One pass of the inner loop of `getValidMoves`. */
  lemma StepsAlongStep(b: Board, from: Pos, dr: int, cols: seq<int>, j: nat, before: seq<Pos>, moves: seq<Pos>, step: seq<Pos>)
    requires IsBoard(b) && j < |cols| && moves == before + StepsAlong(b, from, dr, cols[..j])
    requires step == if 0 <= from.row + dr < Size && 0 <= from.col + cols[j] < Size && b[from.row + dr][from.col + cols[j]] == Empty
      then [Pos(from.row + dr, from.col + cols[j])] else []
    ensures moves + step == before + StepsAlong(b, from, dr, cols[..j + 1])
  {
    StepIs(b, from, dr, cols[j]);
    StepsAlongSnoc(b, from, dr, cols, j);
    AppendAssoc(before, StepsAlong(b, from, dr, cols[..j]), step);
  }

  /** One pass of the inner loop of `getValidCaptures`. */
  lemma JumpsAlongStep(b: Board, from: Pos, dr: int, cols: seq<int>, j: nat, before: seq<Capture>, captures: seq<Capture>, jump: seq<Capture>)
    requires IsBoard(b) && OnBoard(from) && j < |cols|
    requires captures == before + JumpsAlong(b, from, dr, cols[..j])
    requires jump == if 0 <= from.row + dr * 2 < Size && 0 <= from.col + cols[j] * 2 < Size && b[from.row + dr * 2][from.col + cols[j] * 2] == Empty
        && OfColor(b[from.row + dr][from.col + cols[j]], Opponent(b[from.row][from.col]))
      then [Capture(from, Pos(from.row + dr * 2, from.col + cols[j] * 2), Pos(from.row + dr, from.col + cols[j]))] else []
    ensures captures + jump == before + JumpsAlong(b, from, dr, cols[..j + 1])
  {
    JumpIs(b, from, dr, cols[j]);
    JumpsAlongSnoc(b, from, dr, cols, j);
    AppendAssoc(before, JumpsAlong(b, from, dr, cols[..j]), jump);
  }

  /** One square of `getAllPossibleMoves`. */
  lemma SquareStep(b: Board, p: Color, r: int, c: int, head: seq<Move>, before: seq<Move>, moves: seq<Move>)
    requires IsBoard(b) && OnBoard(Pos(r, c)) && before == head + RowMoves(MoveTable(b, p)[r], c)
    requires moves == before + (if OfColor(b[r][c], p) then MovesTo(Pos(r, c), ValidMoves(b, Pos(r, c))) else [])
    ensures moves == head + RowMoves(MoveTable(b, p)[r], c + 1)
  {
    var cells := MoveTable(b, p)[r];
    assert cells[c] == SquareMoves(b, p, r, c);
    AppendAssoc(head, RowMoves(cells, c), cells[c]);
  }

  lemma MovesToSnoc(from: Pos, ts: seq<Pos>, k: nat)
    requires k < |ts|
    ensures MovesTo(from, ts[..k + 1]) == MovesTo(from, ts[..k]) + [Move(from, ts[k])]
  {
  }

  /** The writes of `makeMove`, in its order, give `ApplyMove`. */
  lemma MakeMoveWrites(b: Board, m: Move)
    requires IsBoard(b) && Legal(m)
    ensures var piece := At(b, m.from);
      var b1 := Put(Put(b, m.from, Empty), m.to, piece);
      var b2 := if Abs(m.to.row - m.from.row) == 2 then Put(b1, Mid(m), Empty) else b1;
      ApplyMove(b, m) ==
        if (piece == Piece(White, false) && m.to.row == Size - 1) || (piece == Piece(Black, false) && m.to.row == 0)
        then Put(b2, m.to, Piece(piece.color, true)) else b2
  {
  }

  /** The board writes of `makeMove(from, to)`, in the order it makes them. */
  method MoveOn(board: Board, from: Pos, to: Pos) returns (next: Board)
    requires IsBoard(board) && Legal(Move(from, to))
    ensures next == ApplyMove(board, Move(from, to))
  {
    MakeMoveWrites(board, Move(from, to));
    var piece := board[from.row][from.col];
    next := Put(board, from, Empty);
    next := Put(next, to, piece);
    if Abs(to.row - from.row) == 2 {
      var captureRow := (from.row + to.row) / 2;
      var captureCol := (from.col + to.col) / 2;
      next := Put(next, Pos(captureRow, captureCol), Empty);
    }
    if (piece == Piece(White, false) && to.row == Size - 1) || (piece == Piece(Black, false) && to.row == 0) {
      next := Put(next, to, Piece(piece.color, true));
    }
  }

  /** `validMoves.forEach(to => moves.push({ from, to }))`. */
  method PushMoves(moves: seq<Move>, from: Pos, targets: seq<Pos>) returns (moves': seq<Move>)
    ensures moves' == moves + MovesTo(from, targets)
  {
    moves' := moves;
    for k := 0 to |targets|
      invariant moves' == moves + MovesTo(from, targets[..k])
    {
      MovesToSnoc(from, targets, k);
      AppendAssoc(moves, MovesTo(from, targets[..k]), [Move(from, targets[k])]);
      moves' := moves' + [Move(from, targets[k])];
    }
    assert targets[..|targets|] == targets;
  }

  // ---------------------------------------------------------------------------
  // The game object

  // ---------------------------------------------------------------------------
  // Clicks

  /** `validMoves.some(move => move.row === row && move.col === col)`. */
  function Highlighted(ts: seq<Pos>, t: Pos): (r: bool)
    ensures r <==> t in ts
  {
    if |ts| == 0 then false else ts[0] == t || Highlighted(ts[1..], t)
  }

  /** What `handleSquareClick` does with a click on square t. */
  datatype Click = Ignored | Selects | Plays | Clears

  /** `handleSquareClick`: clicks are ignored once the game is over and on
      black's turn; a man (not a king) of the colour to move is selected when
      nothing is, a highlighted target of the selection is played, and any
      other click selects that man or clears the selection. */
  function ClickOf(isGameOver: bool, p: Color, selected: Option<Pos>, targets: seq<Pos>, piece: Square, t: Pos): (k: Click)
    ensures k == Plays ==> !isGameOver && p != Black && selected.Some? && t in targets
    ensures k == Selects ==> !isGameOver && p != Black && piece == Piece(p, false)
    ensures k == Ignored <==> isGameOver || p == Black
  {
    if isGameOver || p == Black then Ignored
    else if selected.None? && piece == Piece(p, false) then Selects
    else if selected.Some? && Highlighted(targets, t) then Plays
    else if piece == Piece(p, false) then Selects
    else Clears
  }

  class Checkers {
    var board: Board
    var currentPlayer: Color
    var selectedPiece: Option<Pos>
    var validMoves: seq<Pos>
    var winner: Option<Outcome>
    var isGameOver: bool
    var difficulty: Difficulty
    var moveHistory: seq<string>
    var stats: Stats

    /** The board is 8×8, and a selected square is on the board with every
        highlighted target a move `makeMove` can play from it. */
    ghost predicate Valid()
      reads this
    {
      && IsBoard(board)
      && (selectedPiece.Some? ==>
            OnBoard(selectedPiece.value) && forall t :: t in validMoves ==> Legal(Move(selectedPiece.value, t)))
    }

    function SideOf(): Side
      reads this
    {
      Side(winner, isGameOver, stats, moveHistory)
    }

    /** The saved counters are not loaded: the game starts from zero. */
    constructor ()
      ensures Valid() && board == InitialBoard() && currentPlayer == White
      ensures selectedPiece == None && validMoves == [] && winner == None && !isGameOver
      ensures difficulty == Medium && moveHistory == [] && stats == Stats(0, 0, 0)
    {
      var initial := CreateInitialBoard();
      board := initial;
      currentPlayer := White;
      selectedPiece := None;
      validMoves := [];
      winner := None;
      isGameOver := false;
      difficulty := Medium;
      moveHistory := [];
      stats := Stats(0, 0, 0);
    }

    /** `getValidMoves(row, col)`: the steps in the piece's row directions and
        both column directions, then the capture landings. */
    method GetValidMoves(row: int, col: int) returns (moves: seq<Pos>)
      requires IsBoard(board) && OnBoard(Pos(row, col))
      ensures moves == ValidMoves(board, Pos(row, col))
    {
      var from := Pos(row, col);
      var piece := board[row][col];
      var directions := Directions(piece);
      var colDirs := [-1, 1];
      moves := [];
      var b := board;
      for i := 0 to |directions|
        invariant moves == Steps(b, from, directions[..i])
      {
        var rowDir := directions[i];
        ghost var before := moves;
        for j := 0 to 2
          invariant moves == before + StepsAlong(b, from, rowDir, colDirs[..j])
        {
          var colDir := colDirs[j];
          var newRow := row + rowDir;
          var newCol := col + colDir;
          var step: seq<Pos> := [];
          if 0 <= newRow < Size && 0 <= newCol < Size && b[newRow][newCol] == Empty {
            step := [Pos(newRow, newCol)];
          }
          StepsAlongStep(b, from, rowDir, colDirs, j, before, moves, step);
          moves := moves + step;
        }
        StepsSnoc(b, from, directions, i);
      }
      assert directions[..|directions|] == directions;
      var captures := GetValidCaptures(row, col);
      moves := moves + Landings(captures);
    }

    /** `getValidCaptures(row, col)`: the jumps in the piece's row directions
        and both column directions over a piece of the opponent's colour. */
    method GetValidCaptures(row: int, col: int) returns (captures: seq<Capture>)
      requires IsBoard(board) && OnBoard(Pos(row, col))
      ensures captures == Captures(board, Pos(row, col))
    {
      var from := Pos(row, col);
      var piece := board[row][col];
      var directions := Directions(piece);
      var colDirs := [-1, 1];
      captures := [];
      var b := board;
      for i := 0 to |directions|
        invariant captures == Jumps(b, from, directions[..i])
      {
        var rowDir := directions[i];
        ghost var before := captures;
        for j := 0 to 2
          invariant captures == before + JumpsAlong(b, from, rowDir, colDirs[..j])
        {
          var colDir := colDirs[j];
          var jumpRow := row + rowDir * 2;
          var jumpCol := col + colDir * 2;
          var captureRow := row + rowDir;
          var captureCol := col + colDir;
          var jump: seq<Capture> := [];
          if 0 <= jumpRow < Size && 0 <= jumpCol < Size && b[jumpRow][jumpCol] == Empty
            && OfColor(b[captureRow][captureCol], Opponent(piece))
          {
            jump := [Capture(from, Pos(jumpRow, jumpCol), Pos(captureRow, captureCol))];
          }
          JumpsAlongStep(b, from, rowDir, colDirs, j, before, captures, jump);
          captures := captures + jump;
        }
        JumpsSnoc(b, from, directions, i);
      }
      assert directions[..|directions|] == directions;
    }

    /** `countPieces(color)`. */
    method CountPieces(color: Color) returns (count: nat)
      requires IsBoard(board)
      ensures count == PieceCount(board, color)
    {
      count := 0;
      for row := 0 to Size
        invariant count == CountRows(board, color, row)
      {
        for col := 0 to Size
          invariant count == CountRows(board, color, row) + CountRow(board[row], color, col)
        {
          if OfColor(board[row][col], color) {
            count := count + 1;
          }
        }
      }
    }

    /** `evaluateBoard`: each king 3 and each man 1, for the colour to move and
        against the other. */
    method EvaluateBoard() returns (score: int)
      requires IsBoard(board)
      ensures score == Evaluate(board, currentPlayer)
    {
      score := 0;
      for row := 0 to Size
        invariant score == EvalRows(board, currentPlayer, row)
      {
        for col := 0 to Size
          invariant score == EvalRows(board, currentPlayer, row) + EvalRow(board[row], currentPlayer, col)
        {
          var piece := board[row][col];
          if piece != Empty {
            var value := if piece.king then 3 else 1;
            score := score + if piece.color == currentPlayer then value else -value;
          }
        }
      }
    }

    /** `getAllPossibleMoves`: row by row, square by square, each target of
        each piece of the colour to move. */
    method GetAllPossibleMoves() returns (moves: seq<Move>)
      requires IsBoard(board)
      ensures moves == AllMoves(board, currentPlayer)
    {
      var b, p := board, currentPlayer;
      ghost var t := MoveTable(b, p);
      moves := [];
      for row := 0 to Size
        invariant moves == RowsMoves(t, row)
      {
        ghost var head := moves;
        for col := 0 to Size
          invariant moves == head + RowMoves(t[row], col)
        {
          ghost var before := moves;
          if OfColor(b[row][col], p) {
            var targets := GetValidMoves(row, col);
            moves := PushMoves(moves, Pos(row, col), targets);
          }
          SquareStep(b, p, row, col, head, before, moves);
        }
      }
    }

    /** `endGame(result)`: the game is over with that result, and the counters
        move for the colour still to move. */
    method EndGame(result: Outcome)
      requires Valid()
      modifies this
      ensures Valid() && SideOf() == Ended(old(SideOf()), result, currentPlayer)
      ensures board == old(board) && currentPlayer == old(currentPlayer) && difficulty == old(difficulty)
      ensures selectedPiece == old(selectedPiece) && validMoves == old(validMoves)
    {
      isGameOver := true;
      winner := Some(result);
      if result == Draw {
        stats := stats.(draws := stats.draws + 1);
      } else if result.color == currentPlayer {
        stats := stats.(wins := stats.wins + 1);
      } else {
        stats := stats.(losses := stats.losses + 1);
      }
    }

    /** `checkGameStatus`: ends the game with the board's status, if it has one. */
    method CheckGameStatus()
      requires Valid()
      modifies this
      ensures Valid() && board == old(board) && currentPlayer == old(currentPlayer) && difficulty == old(difficulty)
      ensures selectedPiece == old(selectedPiece) && validMoves == old(validMoves)
      ensures SideOf() == AfterStatus(old(SideOf()), board, currentPlayer)
    {
      var whitePieces := CountPieces(White);
      var blackPieces := CountPieces(Black);
      if whitePieces == 0 {
        EndGame(Won(Black));
      } else if blackPieces == 0 {
        EndGame(Won(White));
      } else {
        var moves := GetAllPossibleMoves();
        if |moves| == 0 {
          EndGame(Draw);
        }
      }
    }

    /** `makeMove(from, to)`: the board after the move, its notation in the
        history, the status check for the colour that moved, then the turn
        passes. */
    method MakeMove(from: Pos, to: Pos)
      requires Valid() && Legal(Move(from, to))
      modifies this
      ensures Valid() && board == ApplyMove(old(board), Move(from, to))
      ensures currentPlayer == Other(old(currentPlayer)) && difficulty == old(difficulty)
      ensures selectedPiece == old(selectedPiece) && validMoves == old(validMoves)
      ensures SideOf() == Record(old(SideOf()), TrialOf(old(board), old(currentPlayer), Move(from, to)))
    {
      ghost var b0 := board;
      board := MoveOn(board, from, to);
      var moveNotation := Notation(Move(from, to));
      moveHistory := moveHistory + [moveNotation];
      CheckGameStatus();
      RecordIsMakeMove(old(SideOf()), b0, currentPlayer, Move(from, to));
      currentPlayer := Other(currentPlayer);
    }

    /** The trial that `findBestMove` and both loops of `minimax` make for one
        move: `makeMove`, the search one level down (a maximising one when
        isMax), then the board restored and the turn passed back. */
    method TryMove(move: Move, ghost e: Edge, depth: nat, alpha: int, beta: int, isMax: bool) returns (score: int)
      requires Valid() && Legal(move) && depth >= 1 && e == EdgeOf(board, currentPlayer, move, depth, !isMax)
      modifies this
      ensures Valid() && board == old(board) && currentPlayer == old(currentPlayer) && difficulty == old(difficulty)
      ensures selectedPiece == old(selectedPiece) && validMoves == old(validMoves)
      ensures Search(score, SideOf()) == TreeSearch(e.child, alpha, beta, isMax, Record(old(SideOf()), e.trial))
      decreases depth, 0
    {
      var originalBoard := board;
      MakeMove(move.from, move.to);
      score := Minimax(depth - 1, alpha, beta, isMax);
      board := originalBoard;
      currentPlayer := Other(currentPlayer);
    }

    /** `minimax(depth, alpha, beta, isMaximizing)`: every trial move is made
        with `makeMove` and undone by restoring the board and passing the turn
        back, so the board and the turn come back unchanged, while the history,
        the result and the counters keep what the trials recorded. */
    method Minimax(depth: nat, alpha: int, beta: int, isMax: bool) returns (score: int)
      requires Valid()
      modifies this
      ensures Valid() && board == old(board) && currentPlayer == old(currentPlayer) && difficulty == old(difficulty)
      ensures selectedPiece == old(selectedPiece) && validMoves == old(validMoves)
      ensures Search(score, SideOf()) == AlphaBeta(old(board), old(currentPlayer), depth, alpha, beta, isMax, old(SideOf()))
      decreases depth, 2
    {
      if depth == 0 {
        score := EvaluateBoard();
        return;
      }
      var moves := GetAllPossibleMoves();
      if |moves| == 0 {
        score := if isMax then -Lost else Lost;
        return;
      }
      GameTreeKids(board, currentPlayer, depth, isMax);
      ghost var kids := GameTree(board, currentPlayer, depth, isMax).kids;
      if isMax {
        score := MaximisingLoop(moves, kids, depth, alpha, beta);
      } else {
        score := MinimisingLoop(moves, kids, depth, alpha, beta);
      }
    }

    /** The maximising branch of `minimax`: `maxScore = max(maxScore, score)`,
        `alpha = max(alpha, score)`, and a break once `beta <= alpha`. */
    method MaximisingLoop(moves: seq<Move>, ghost kids: seq<Edge>, depth: nat, alpha: int, beta: int) returns (score: int)
      requires Valid() && depth >= 1 && |kids| == |moves|
      requires forall j :: 0 <= j < |moves| ==> Legal(moves[j]) && kids[j] == EdgeOf(board, currentPlayer, moves[j], depth, true)
      modifies this
      ensures Valid() && board == old(board) && currentPlayer == old(currentPlayer) && difficulty == old(difficulty)
      ensures selectedPiece == old(selectedPiece) && validMoves == old(validMoves)
      ensures Search(score, SideOf()) == MaxLoop(kids, 0, alpha, beta, -Inf, old(SideOf()))
      decreases depth, 1
    {
      ghost var goal := MaxLoop(kids, 0, alpha, beta, -Inf, SideOf());
      var maxScore := -Inf;
      var a := alpha;
      var i := 0;
      while i < |moves|
        invariant 0 <= i <= |moves| && Valid() && board == old(board) && currentPlayer == old(currentPlayer)
        invariant difficulty == old(difficulty) && selectedPiece == old(selectedPiece) && validMoves == old(validMoves)
        invariant MaxLoop(kids, i, a, beta, maxScore, SideOf()) == goal
      {
        ghost var side := SideOf();
        var s := TryMove(moves[i], kids[i], depth, a, beta, false);
        MaxStep(kids, i, a, beta, maxScore, side, s, SideOf());
        maxScore := Max(maxScore, s);
        a := Max(a, s);
        if beta <= a {
          break;
        }
        i := i + 1;
      }
      score := maxScore;
    }

    /** The minimising branch of `minimax`, symmetrically with beta. */
    method MinimisingLoop(moves: seq<Move>, ghost kids: seq<Edge>, depth: nat, alpha: int, beta: int) returns (score: int)
      requires Valid() && depth >= 1 && |kids| == |moves|
      requires forall j :: 0 <= j < |moves| ==> Legal(moves[j]) && kids[j] == EdgeOf(board, currentPlayer, moves[j], depth, false)
      modifies this
      ensures Valid() && board == old(board) && currentPlayer == old(currentPlayer) && difficulty == old(difficulty)
      ensures selectedPiece == old(selectedPiece) && validMoves == old(validMoves)
      ensures Search(score, SideOf()) == MinLoop(kids, 0, alpha, beta, Inf, old(SideOf()))
      decreases depth, 1
    {
      ghost var goal := MinLoop(kids, 0, alpha, beta, Inf, SideOf());
      var minScore := Inf;
      var bt := beta;
      var i := 0;
      while i < |moves|
        invariant 0 <= i <= |moves| && Valid() && board == old(board) && currentPlayer == old(currentPlayer)
        invariant difficulty == old(difficulty) && selectedPiece == old(selectedPiece) && validMoves == old(validMoves)
        invariant MinLoop(kids, i, alpha, bt, minScore, SideOf()) == goal
      {
        ghost var side := SideOf();
        var s := TryMove(moves[i], kids[i], depth, alpha, bt, true);
        MinStep(kids, i, alpha, bt, minScore, side, s, SideOf());
        minScore := Min(minScore, s);
        bt := Min(bt, s);
        if bt <= alpha {
          break;
        }
        i := i + 1;
      }
      score := minScore;
    }

    /** `findBestMove(depth)`: each move is tried and scored by the negated
        minimising search below it with the full window; the first move of
        highest score wins, the board and the turn come back unchanged. */
    method FindBestMove(depth: nat) returns (move: Option<Move>)
      requires Valid() && depth >= 1
      modifies this
      ensures Valid() && board == old(board) && currentPlayer == old(currentPlayer) && difficulty == old(difficulty)
      ensures selectedPiece == old(selectedPiece) && validMoves == old(validMoves)
      ensures move == BestMove(old(board), old(currentPlayer), depth)
      ensures SideOf() == BestMoveSide(old(board), old(currentPlayer), depth, old(SideOf()))
    {
      var moves := GetAllPossibleMoves();
      if |moves| == 0 {
        return None;
      }
      GameTreeKids(board, currentPlayer, depth, true);
      RootScores(board, currentPlayer, depth);
      ghost var kids := GameTree(board, currentPlayer, depth, true).kids;
      EdgesFromAll(board, currentPlayer, moves, kids, depth, 0);
      ScoresOfChildren(kids, MoveScores(board, currentPlayer, depth));
      var bestMove := ScanMoves(moves, kids, depth);
      move := Some(bestMove);
    }

    /** One root trial of `findBestMove`: the move is tried and scored with
        the full window, then taken back. */
    method RootTrial(moves: seq<Move>, ghost kids: seq<Edge>, depth: nat, i: nat) returns (score: int)
      requires Valid() && depth >= 1 && i < |moves| == |kids| && EdgesFrom(board, currentPlayer, moves, kids, depth, 0)
      modifies this
      ensures Valid() && board == old(board) && currentPlayer == old(currentPlayer) && difficulty == old(difficulty)
      ensures selectedPiece == old(selectedPiece) && validMoves == old(validMoves)
      ensures score == ChildScores(kids)[i] && -Lost <= score <= Lost
      ensures SideOf() == TreeSearch(kids[i].child, -Inf, Inf, false, Record(old(SideOf()), kids[i].trial)).side
    {
      EdgesAt(board, currentPlayer, moves, kids, depth, 0, i);
      var s := TryMove(moves[i], kids[i], depth, -Inf, Inf, false);
      FullWindowTree(kids[i].child, false, Record(old(SideOf()), kids[i].trial));
      TreeValueRange(kids[i].child, false);
      score := -s;
    }

    /** The loop of `findBestMove` over a non-empty move list: `score > bestScore`
        replaces the best, so the first move of highest score is kept. */
    method ScanMoves(moves: seq<Move>, ghost kids: seq<Edge>, depth: nat) returns (bestMove: Move)
      requires Valid() && depth >= 1 && 0 < |moves| == |kids| && EdgesFrom(board, currentPlayer, moves, kids, depth, 0)
      modifies this
      ensures Valid() && board == old(board) && currentPlayer == old(currentPlayer) && difficulty == old(difficulty)
      ensures selectedPiece == old(selectedPiece) && validMoves == old(validMoves)
      ensures bestMove == moves[FirstMaxIndex(ChildScores(kids))]
      ensures SideOf() == RootLoop(kids, 0, old(SideOf()))
    {
      ghost var scores := ChildScores(kids);
      ghost var goal := RootLoop(kids, 0, SideOf());
      var bestScore := -Inf;
      var best := 0;
      for i := 0 to |moves|
        invariant Valid() && board == old(board) && currentPlayer == old(currentPlayer) && difficulty == old(difficulty)
        invariant selectedPiece == old(selectedPiece) && validMoves == old(validMoves)
        invariant (best, bestScore) == ScanBest(scores, i)
        invariant i > 0 ==> scores[0] > -Inf
        invariant RootLoop(kids, i, SideOf()) == goal
      {
        var score := RootTrial(moves, kids, depth, i);
        if score > bestScore {
          bestScore := score;
          best := i;
        }
      }
      ScanBestIsFirstMax(scores, |scores|);
      assert scores[..|scores|] == scores;
      bestMove := moves[best];
    }

    /** `calculateBestMove()` with the random draws given: no move without
        moves, then by difficulty a random pick or `findBestMove`. */
    method CalculateBestMove(d: Draws) returns (move: Option<Move>)
      requires Valid() && ValidDraws(d)
      modifies this
      ensures Valid() && board == old(board) && currentPlayer == old(currentPlayer) && difficulty == old(difficulty)
      ensures selectedPiece == old(selectedPiece) && validMoves == old(validMoves)
      ensures move == AIChoice(old(board), old(currentPlayer), difficulty, d)
      ensures SideOf() == AIChoiceSide(old(board), old(currentPlayer), difficulty, d, old(SideOf()))
    {
      var moves := GetAllPossibleMoves();
      if |moves| == 0 {
        return None;
      }
      match difficulty
      case Easy =>
        move := Some(moves[Pick(d.pick, |moves|)]);
      case Medium =>
        if d.coin < 0.5 {
          move := Some(moves[Pick(d.pick, |moves|)]);
        } else {
          move := FindBestMove(2);
        }
      case Hard =>
        move := FindBestMove(4);
    }

    /** The delayed body of `makeAIMove()`: the chosen move, if any, is made. */
    method MakeAIMove(d: Draws)
      requires Valid() && ValidDraws(d)
      modifies this
      ensures Valid() && difficulty == old(difficulty)
      ensures selectedPiece == old(selectedPiece) && validMoves == old(validMoves)
      ensures var choice := AIChoice(old(board), old(currentPlayer), old(difficulty), d);
        var side := AIChoiceSide(old(board), old(currentPlayer), old(difficulty), d, old(SideOf()));
        match choice
        case None => board == old(board) && currentPlayer == old(currentPlayer) && SideOf() == side
        case Some(m) =>
          && board == ApplyMove(old(board), m) && currentPlayer == Other(old(currentPlayer))
          && SideOf() == Record(side, TrialOf(old(board), old(currentPlayer), m))
    {
      var move := CalculateBestMove(d);
      if move.Some? {
        MakeMove(move.value.from, move.value.to);
      }
    }

    /** `selectPiece(row, col)`: the square and its targets are highlighted. */
    method SelectPiece(row: int, col: int)
      requires Valid() && OnBoard(Pos(row, col))
      modifies this
      ensures Valid() && selectedPiece == Some(Pos(row, col)) && validMoves == ValidMoves(board, Pos(row, col))
      ensures board == old(board) && currentPlayer == old(currentPlayer) && difficulty == old(difficulty)
      ensures SideOf() == old(SideOf())
    {
      selectedPiece := Some(Pos(row, col));
      validMoves := GetValidMoves(row, col);
      ValidMovesLegal(board, Pos(row, col));
    }

    /** `clearSelection()`. */
    method ClearSelection()
      requires Valid()
      modifies this
      ensures Valid() && selectedPiece == None && validMoves == []
      ensures board == old(board) && currentPlayer == old(currentPlayer) && difficulty == old(difficulty)
      ensures SideOf() == old(SideOf())
    {
      selectedPiece := None;
      validMoves := [];
    }

    /** `handleSquareClick(row, col)`; aiTurn says whether `makeAIMove` is
        scheduled, which happens after a move that leaves the game running. */
    method HandleSquareClick(row: int, col: int) returns (aiTurn: bool)
      requires Valid() && OnBoard(Pos(row, col))
      modifies this
      ensures Valid() && difficulty == old(difficulty)
      ensures var t := Pos(row, col);
        match ClickOf(old(isGameOver), old(currentPlayer), old(selectedPiece), old(validMoves), old(board)[row][col], t)
        case Ignored =>
          && !aiTurn && board == old(board) && currentPlayer == old(currentPlayer) && SideOf() == old(SideOf())
          && selectedPiece == old(selectedPiece) && validMoves == old(validMoves)
        case Selects =>
          && !aiTurn && board == old(board) && currentPlayer == old(currentPlayer) && SideOf() == old(SideOf())
          && selectedPiece == Some(t) && validMoves == ValidMoves(board, t)
        case Plays =>
          && var m := Move(old(selectedPiece).value, t);
          && board == ApplyMove(old(board), m) && currentPlayer == Other(old(currentPlayer))
          && SideOf() == Record(old(SideOf()), TrialOf(old(board), old(currentPlayer), m))
          && selectedPiece == None && validMoves == [] && aiTurn == !isGameOver
        case Clears =>
          && !aiTurn && board == old(board) && currentPlayer == old(currentPlayer) && SideOf() == old(SideOf())
          && selectedPiece == None && validMoves == []
    {
      aiTurn := false;
      if isGameOver || currentPlayer == Black {
        return;
      }
      var piece := board[row][col];
      if selectedPiece.None? && piece == Piece(currentPlayer, false) {
        SelectPiece(row, col);
      } else if selectedPiece.Some? && Highlighted(validMoves, Pos(row, col)) {
        MakeMove(selectedPiece.value, Pos(row, col));
        ClearSelection();
        aiTurn := !isGameOver;
      } else if piece == Piece(currentPlayer, false) {
        SelectPiece(row, col);
      } else {
        ClearSelection();
      }
    }

    /** `resetGame()`: a new board and a cleared game; the counters, the
        difficulty and the colour to move stay. aiTurn says whether
        `makeAIMove` is scheduled, which happens when black is to move. */
    method ResetGame() returns (aiTurn: bool)
      modifies this
      ensures Valid() && board == InitialBoard() && winner == None && !isGameOver
      ensures selectedPiece == None && validMoves == [] && moveHistory == []
      ensures stats == old(stats) && difficulty == old(difficulty) && currentPlayer == old(currentPlayer)
      ensures aiTurn <==> currentPlayer == Black
    {
      board := CreateInitialBoard();
      winner := None;
      isGameOver := false;
      selectedPiece := None;
      validMoves := [];
      moveHistory := [];
      aiTurn := currentPlayer == Black;
    }

    /** `setDifficulty(level)`: the level is set and the game reset. */
    method SetDifficulty(level: Difficulty) returns (aiTurn: bool)
      modifies this
      ensures Valid() && board == InitialBoard() && winner == None && !isGameOver
      ensures selectedPiece == None && validMoves == [] && moveHistory == []
      ensures stats == old(stats) && difficulty == level && currentPlayer == old(currentPlayer)
      ensures aiTurn <==> currentPlayer == Black
    {
      difficulty := level;
      aiTurn := ResetGame();
    }

    /** The player buttons: the first makes white the colour to move, any other
        black, and choosing black schedules `makeAIMove`. Nothing else changes. */
    method ChoosePlayer(index: int) returns (aiTurn: bool)
      requires Valid()
      modifies this
      ensures Valid()
      ensures currentPlayer == (if index == 0 then White else Black)
      ensures aiTurn <==> index != 0
      ensures board == old(board) && difficulty == old(difficulty) && SideOf() == old(SideOf())
      ensures selectedPiece == old(selectedPiece) && validMoves == old(validMoves)
    {
      currentPlayer := if index == 0 then White else Black;
      aiTurn := currentPlayer == Black;
    }
  }
}
