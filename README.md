# Pokervsai, modelled in Dafny

Pokervsai is a small web arcade. A human plays against computer opponents at
several games, and simple statistics are kept. This project models the parts
of it that hold game rules and decision logic, each source file as one Dafny
module:

- **Poker engine** (`PokerUtils`, `PokerGame`, `AILogic`, `Stats`). It covers:
  the 52-card deck, the Fisher–Yates shuffle and dealing from the end of the
  deck; the ten-category hand classifier; the showdown and turn order; the
  betting transitions of the table (fold, check, call, bet, raise, all in, one
  AI turn, the end-of-round check, the next hand); the personality-driven AI
  decision tree; and the per-hand statistics update. The table state is a
  value, and every handler is a transition from one state to the next, as
  React's state snapshots are.
- **Browser board games** (`TicTacToeGame`, `ConnectFourGame`, `CheckersGame`,
  `TicTacToeClient`). Each is a class over a mutable board with the source's
  fields. Its methods are proved against specification functions on the board
  contents:
  - the tic-tac-toe minimax writes and restores cells and leaves the board
    exactly as it found it;
  - the Connect Four AI tries a disc in every column and takes it back;
  - the checkers alpha-beta search keeps every side effect of its trial moves,
    and is proved equal to plain minimax under the full window.
- **Python tic-tac-toe agents** (`QLearning`, `PatternRecognition`). The
  Q-learning agent covers the board/state encoding round trip, the
  default-on-read Q-table, epsilon-greedy choice with random tie-breaking among
  the best actions, and the backward update of a finished game. The
  pattern-recognition agent covers the board keys, win and threat counting,
  the counter-move priority rules and the per-player pattern tables.
- **Number helpers** (`MainUtils`): comma grouping and percentages.

`Common` holds the shared helpers. `Option` and `Result` model the source's
missing values and thrown errors. A random draw is a real number in [0, 1).
`Pick(r, n)` is `Math.floor(r * n)`, proved to lie in [0, n).

Every `Math.random()`, `random.random()` and `random.choice` of the source is a
parameter, so each operation is a function of its inputs. Quantities the
source computes in floating point (confidence, fold percentage, Q-values,
pattern weights) are exact `real`s.

The model follows the code, including these behaviours:

- The pot is paid to the winner but not cleared (`PokerGame.AwardCreatesChips`).
  So every betting action conserves chips, but an award does not.
- Two triplets without a pair are Three of a Kind, not Full House
  (`PokerUtils.TwoTripletsAreThreeOfAKind`).
- `compareHands` always evaluates seat 0, folded or not.
- The minimum-raise asymmetry lies between the human and the AI, not between a
  bet and a raise. A human bet or raise sets the minimum raise to twice the new
  bet. An AI raise sets it to the raise amount.

Further behaviour of the code is modelled as written:

- In the `.ts` games, `endGame` compares the result with the colour still to
  move before the turn passes. So the mover's own win is counted as a win.
- Checkers `checkGameStatus` looks for moves of the side that has just moved.
- The checkers search's trial moves push onto the move history and may end the
  game. Only the board and the player to move are restored afterwards.

## Model

| member | source | states |
|---|---|---|
| PokerUtils.CreateDeck | src/utils/pokerUtils.ts:37-49 | the deck is built suit by suit, rank by rank: 52 cards, and every (suit, rank) pair occurs exactly once |
| PokerUtils.CanonicalDeckHasEachCardOnce | src/utils/pokerUtils.ts:37-49 | every (suit, rank) pair occurs in the fresh deck exactly once |
| Common.Pick | src/utils/pokerUtils.ts:55 | `Math.floor(r * n)` for a draw r in [0, 1) lies in [0, n), so the swap partner j lies in [0, i] |
| PokerUtils.ShuffleDeck | src/utils/pokerUtils.ts:52-59 | the Fisher–Yates loop on a copy returns a permutation of the input, which is a value and so is not modified |
| PokerUtils.PermutedDeckHasEachCardOnce | src/utils/pokerUtils.ts:52-59 | a permutation of the fresh deck still holds 52 cards, each exactly once (also line 276) |
| PokerUtils.DealCards | src/utils/pokerUtils.ts:62-94 | an error exactly when the deck holds fewer than twice as many cards as there are players; otherwise every folded seat is unchanged, every other seat gets exactly two more cards popped from the end of the deck in seat order, the deck loses two cards per non-folded seat, and deck plus hands hold the same cards as before |
| PokerUtils.DealCommunityCards | src/utils/pokerUtils.ts:97-113 | exactly min(count, deck size) cards (none for count <= 0) move from the end of the deck onto the board, last card first; it never fails, and board plus deck hold the same cards |
| PokerUtils.Classify | src/utils/pokerUtils.ts:122-199 | the category of a card list: High Card below five cards; Royal or Straight Flush exactly when any flush occurs with any straight; Four of a Kind needs a rank four times, Full House a rank three times and another twice; a Straight excludes a flush |
| PokerUtils.EvaluateHand | src/utils/pokerUtils.ts:122-199 | the counting loop, the sorted distinct values, the window and A-2-3-4-5 straight tests and the category tests in the source's order give exactly `Classify` of hole plus board cards |
| PokerUtils.DetectStraight | src/utils/pokerUtils.ts:150-168 | the straight flag is set exactly when five consecutive distinct values span 4, or 14, 2, 3, 4 and 5 are all present |
| PokerUtils.StraightTestAgrees | src/utils/pokerUtils.ts:148-168 | on the sorted distinct rank values the source's straight test holds exactly when the cards hold five consecutive ranks, the ace counting high or low |
| PokerUtils.RoyalCheckAgrees | src/utils/pokerUtils.ts:178-183 | the rank set of the flush suit holds A, K, Q, J and 10 exactly when those five cards of that suit are present |
| PokerUtils.LadderOrder | src/utils/pokerUtils.ts:190-198 | Four of a Kind exactly when there are quads; Full House exactly without quads and with both a triplet and a pair; Straight and Three of a Kind at their place in the test order |
| PokerUtils.TwoTripletsAreThreeOfAKind | src/utils/pokerUtils.ts:171-194 | two triplets and no pair are classed Three of a Kind, not Full House |
| PokerUtils.FlushPlusStraightIsStraightFlush | src/utils/pokerUtils.ts:177-186 | hearts 2, 3, 4, 5, 9 with the six of clubs, a flush and a straight made of different cards, are classed Straight Flush |
| PokerUtils.StraightFlushUnlessRoyal | src/utils/pokerUtils.ts:177-186 | any flush together with any straight is a Straight Flush unless some suit holds A, K, Q, J and 10 |
| PokerUtils.WheelIsStraight | src/utils/pokerUtils.ts:161-167 | A-2-3-4-5 of mixed suits is a Straight |
| PokerUtils.RoyalFlushFixture | src/utils/pokerUtils.ts:176-184 | 10-J-Q-K-A of one suit is a Royal Flush |
| PokerUtils.QuadsBeforeFullHouse | src/utils/pokerUtils.ts:190-191 | four aces and a pair of kings are Four of a Kind: quads are checked before Full House |
| PokerUtils.CompareHands | src/utils/pokerUtils.ts:202-235 | an error exactly for an empty table; otherwise the winner's category is the best among seat 0 (folded or not) and the non-folded other seats, and every earlier contender is strictly worse, so ties go to the lowest seat |
| PokerUtils.ConsiderSeat | src/utils/pokerUtils.ts:220-232 | one pass of the loop: seat i takes the lead only when it contends and its category value is strictly greater |
| PokerUtils.BestAmongIsUnique | src/utils/pokerUtils.ts:202-235 | the showdown's specification names one seat and one category |
| PokerUtils.CalculateHandStrength | src/utils/pokerUtils.ts:255-272 | the strength is 10 × the category value, so it lies in [10, 100] |
| PokerUtils.StrengthOrdersCategories | src/utils/pokerUtils.ts:257-271 | a higher category value gives a strictly higher strength, and conversely |
| PokerUtils.FindNextActivePlayer | src/utils/pokerUtils.ts:238-252 | -1 exactly when no seat is both unfolded and active; otherwise the first such seat clockwise from the seat after currentIndex, each seat looked at once |
| PokerUtils.NextActiveIsUnique | src/utils/pokerUtils.ts:238-252 | at most one seat meets the specification of the next player |
| PokerUtils.CreateInitialGameState | src/utils/pokerUtils.ts:275-305 | a shuffled fresh deck, an empty board, playerCount seats named 'You', 'Player 1', … each holding startingChips and no cards, pot and bets 0, minimum raise 20, dealer 0, phase 'waiting', no winner |
| PokerUtils.SeatNamesDistinct | src/utils/pokerUtils.ts:282 | two seats have the same name exactly when they are the same seat, so only seat 0 is 'You' |
| PokerGame.HandleFold | src/components/PokerGame.tsx:70-78 | only seat 0's folded flag and the current seat change; the turn goes to the next seat clockwise from 0 that is unfolded and active; chips are conserved |
| PokerGame.HandleCheck | src/components/PokerGame.tsx:89-101 | refused, with the state unchanged, exactly when a bet stands on the table and seat 0 is below it; otherwise only the current seat moves on |
| PokerGame.PushAll | src/components/PokerGame.tsx:214-220 | an all in: the stack becomes 0, the seat is all in, its bet and the pot both grow by the old stack, and chips are conserved (also lines 300-303, 343-347) |
| PokerGame.HandleAllIn | src/components/PokerGame.tsx:214-234 | seat 0's bet grows by its stack, its stack becomes 0 and it is all in; the pot grows by the old stack; the table bet becomes max(old table bet, seat 0's bet), the minimum raise twice that; chips are conserved |
| PokerGame.HandleCall | src/components/PokerGame.tsx:112-131 | a covered call pays table bet − own bet into the pot and brings seat 0 to the table bet, nothing else changing; a call beyond the stack is `handleAllIn`: seat 0 bets its whole stack and is all in, the pot grows by the stack, the table bet stays, the minimum raise becomes twice it, nothing else changes; the turn passes; chips are conserved |
| PokerGame.HandleBet | src/components/PokerGame.tsx:142-167 | refused, with the state unchanged, exactly when the bet is below the minimum raise or above seat 0's stack; an accepted bet pays betAmount into the pot and sets seat 0's bet and the table bet to it and the minimum raise to twice it |
| PokerGame.HandleRaise | src/components/PokerGame.tsx:175-206 | refused, with the state unchanged, exactly when betAmount is not above the table bet, is less than the minimum raise above it, or exceeds the stack; an accepted raise pays betAmount − own bet, and sets the table bet to betAmount and the minimum raise to twice it |
| PokerGame.HumanRaiseKeepsChipsNonNegative | src/components/PokerGame.tsx:186-194 | an accepted raise never leaves seat 0 with a negative stack |
| PokerGame.ApplyAIDecision | src/components/PokerGame.tsx:285-352 | the AI's decision changes only its own seat and the table's pot, bet and minimum raise; the pot grows by exactly the seat's chip decrease, so chips are conserved |
| PokerGame.FoldAndCheckMoveNoChips | src/components/PokerGame.tsx:286-295 | a fold only marks the seat folded; a check changes nothing |
| PokerGame.ShortCallIsAllIn | src/components/PokerGame.tsx:297-305 | a call the stack cannot cover empties the stack into the pot and marks the seat all in, leaving the table bet alone; an all in never lowers the table bet (also lines 341-348) |
| PokerGame.CoveredRaiseLiftsTableBet | src/components/PokerGame.tsx:316-338 | a covered AI raise lifts the table bet by exactly the raise and puts the raiser at it, and sets the minimum raise to the raise amount, not twice the bet |
| PokerGame.AITurn | src/components/PokerGame.tsx:249-363 | a folded or all-in seat only passes the turn; any other seat applies `getAIDecision` for its hand strength and the table's bet, pot and minimum raise; the next seat is the first eligible one clockwise; chips are conserved |
| PokerGame.ActiveSeats | src/components/PokerGame.tsx:375 | exactly the unfolded seats, in seat order |
| PokerGame.ResetBets | src/components/PokerGame.tsx:437-440 | every seat's bet back to 0, everything else kept |
| PokerGame.NextPhaseAdvances | src/components/PokerGame.tsx:428-500 | pre-flop → flop → turn → river → showdown, one step at a time; waiting and showdown do not move |
| PokerGame.Award | src/components/PokerGame.tsx:381-385 | the winner's stack grows by the pot, and the pot is left as it is (also lines 505-507, 542-545) |
| PokerGame.AwardCreatesChips | src/components/PokerGame.tsx:385 | since the pot is never cleared, the chips in play grow by the pot at every award (also lines 507, 545) |
| PokerGame.CheckRoundEnd | src/components/PokerGame.tsx:370-611 | one unfolded seat: it wins the pot, and the statistics record a win for 'You' or a loss; a completed round before the river deals 3, 1 or 1 cards from the end of the deck, moves one phase on, clears every bet and gives the turn to the first eligible seat after the dealer; at the river the best unfolded seat wins; waiting and showdown change nothing; an open round gives the turn to seat 0 |
| PokerGame.NextStreet | src/components/PokerGame.tsx:429-496 | the board grows by min(count, deck size) cards from the deck's end and keeps its earlier cards; the bets are cleared; the turn goes to the first eligible seat after the dealer; chips are conserved |
| PokerGame.SettleShowdown | src/components/PokerGame.tsx:498-580 | the phase becomes showdown; with unfolded seats, the one of highest category wins the pot, the lowest seat among equals |
| PokerGame.ShowdownWinner | src/components/PokerGame.tsx:502-507 | the winner `compareHands` picks from the filtered unfolded seats is the best unfolded seat of the whole table, and the lowest among equals |
| PokerGame.StartNewHand | src/components/PokerGame.tsx:613-647 | stacks are kept; hands, bets and flags are cleared before two fresh cards are dealt to every seat; a seat is active exactly when it has chips; the dealer moves to (old + 1) mod n; the pot is 0, the minimum raise 20 and the phase pre-flop; deck plus hands are the fresh deck; an error exactly when the deck cannot serve two cards a seat |
| PokerGame.NewHandDealt | src/components/PokerGame.tsx:615-634 | dealing to the cleared seats leaves each seat's record and stack and gives it exactly two cards |
| PokerGame.StartGame | src/components/PokerGame.tsx:45-59 | four seats of 1000 chips with two cards each; each seat is the fresh seat `createInitialGameState` makes (its name, 'You' first) with the profile `initializeAIPersonalities` gives it, 'You' none and seat i the i mod 4 personality; the board is empty, seat 0 acts, the dealer is seat 0, the minimum raise is 20, there is no winner; the pot and bet are 0; the phase is pre-flop; deck plus hands are the fresh deck and 44 cards stay in the deck |
| AILogic.InitializeAIPersonalities | src/utils/aiLogic.ts:12-31 | the list keeps its length; the seat named 'You' is returned unchanged; every other seat i keeps its fields and gets personality aggressive/conservative/balanced/unpredictable for i mod 4, confidence 50 and bluff factor 60/20/40/70 |
| AILogic.InitializeIsIdempotent | src/utils/aiLogic.ts:12-31 | assigning the personalities a second time gives the same list |
| AILogic.UpdateAIConfidence | src/utils/aiLogic.ts:35-66 | personality and bluff factor are kept; the confidence is the hand strength for balanced, 0.8 × strength for conservative, min(100, 1.2 × strength) for aggressive, and min(100, 1.3 or 0.7 × strength) for unpredictable, depending on the coin draw |
| AILogic.ConfidenceStaysInRange | src/utils/aiLogic.ts:43-63 | a strength in [0, 100] gives a confidence in [0, 100], and a greater strength never gives a smaller confidence |
| AILogic.DecisionFactor | src/utils/aiLogic.ts:89-99 | without a bluff the factor is the updated confidence; a bluff's factor is min(100, 100 − confidence + bluffFactor), capped at 70 before the flop |
| AILogic.GetAIDecision | src/utils/aiLogic.ts:74-153 | short of chips, the decision is all-in or fold, and all-in exactly when the factor beats 40/70/55 or the strength beats 80; below 30 it checks on an unbet table and folds otherwise; in [30, 50) it checks, calls with value, or folds; in [50, 75) an unbet table gets a raise of at least minRaise; from 75 it goes all in or raises no more than the stack; an all-in with chips to spare needs an aggressive seat, strength above 85 and a draw above 0.7 |
| AILogic.RaiseAmountsAreNonNegative | src/utils/aiLogic.ts:123-151 | with a non-negative stack, minimum raise and pot, every raise amount is non-negative |
| Stats.NewBestHand | src/services/statsService.ts:66-68 | the best hand changes only on a win with a named hand; a first named winning hand is always recorded; a winning Royal Flush, Straight Flush or Four of a Kind replaces a recorded best hand, and any other hand keeps a recorded one |
| Stats.NextStreak | src/services/statsService.ts:64-70 | after a win the streak is positive (previous + 1 if it was positive, else 1); after a loss it is negative (previous − 1 if it was negative, else −1) |
| Stats.UpdateStatsAfterHand | src/services/statsService.ts:56-91 | a copy with handsPlayed + 1 and totalBetAmount + betAmount; handsWon and allInCount grow by one exactly when the hand was won or went all in; biggestPot is the larger of the old value and potSize; the streak and best hand as above; the fold percentage times the hand count grows by 100 exactly on a fold |
| Stats.FoldPercentageCountsFolds | src/services/statsService.ts:73-81 | if the fold percentage was folds out of n hands, it becomes folds + [didFold] out of n + 1 hands, in exact arithmetic |
| Stats.UpdateKeepsStatsValid | src/services/statsService.ts:56-91 | the update keeps won hands and all-ins within the hands played and the fold percentage within [0, 100] |
| Stats.GetWinRate | src/services/statsService.ts:95-98 | 0 before the first hand, otherwise handsWon / handsPlayed × 100 |
| Stats.WinRateIsPercentage | src/services/statsService.ts:95-98 | on a consistent record the win rate lies in [0, 100] |
| MainUtils.FormatNumberMeaning | src/static/js/main.js:7-9 | deleting the commas of `formatNumber(n)` gives back `n.toString()`; for n >= 0 the first group has 1-3 digits and every later group exactly 3; a number strictly between −1000 and 1000 gets no comma |
| MainUtils.ReplaceIsGrouped | src/static/js/main.js:8 | the regex replace (a comma before every position not at the start that is followed by a positive multiple of three digits up to the end) agrees with grouping by threes from the right |
| MainUtils.GroupedRemoveCommas | src/static/js/main.js:8 | grouping a digit string by threes and deleting the commas again gives the digit string back |
| MainUtils.GroupedIsWellGrouped | src/static/js/main.js:8 | a grouped digit string has a first group of one to three digits and only three-digit groups after it |
| MainUtils.CalculatePercentage | src/static/js/main.js:12-15 | 0 for a total of 0; otherwise the integer nearest to part / total × 100, halves rounded up as `Math.round` does |
| MainUtils.WholeIsHundredPercent | src/static/js/main.js:12-15 | `calculatePercentage(t, t)` is 100 for every t ≠ 0 |
| MainUtils.PercentageOfPartIsBounded | src/static/js/main.js:12-15 | a part between 0 and a positive total gives a percentage between 0 and 100 |
| TicTacToeGame.CheckWinnerIsLine | src/static/js/tictactoe.ts:158-168 | `checkWinner(b, p)` holds exactly when some row, column or diagonal is all p |
| TicTacToeGame.EmptyCells | src/static/js/tictactoe.ts:151-156 | exactly the indices of the '' cells, in ascending order, as many as there are '' cells |
| TicTacToeGame.Best | src/static/js/tictactoe.ts:141-143 | the `reduce` keeps the first move of best score: O takes the maximum, X the minimum, ties go to the earliest cell |
| TicTacToeGame.BestFromIsFirstBest | src/static/js/tictactoe.ts:141-143 | a running best replaced only by a strictly better move ends on the first best move |
| TicTacToeGame.Minimax | src/static/js/tictactoe.ts:123-144 | −10 if X has won, else 10 if O has won, else 0 on a full board, with index −1; on a board where play goes on the index is an empty cell; every score lies in [−10, 10] |
| TicTacToeGame.MinimaxOpen | src/static/js/tictactoe.ts:134-143 | where play goes on, the search is the best of the moves that fill each empty cell in turn and search one level down for the other mark |
| TicTacToeGame.TicTacToe.Search | src/static/js/tictactoe.ts:123-144 | the search on the board array returns `Minimax` of its contents and leaves the array exactly as it found it |
| TicTacToeGame.RandomEmptyCell | src/static/js/tictactoe.ts:146-149 | undefined exactly on a full board, otherwise an empty cell |
| TicTacToeGame.BestMove | src/static/js/tictactoe.ts:110-121 | easy plays a random empty cell; medium plays one when the coin is below 0.5 and searches otherwise; hard searches; any cell named is empty |
| TicTacToeGame.HardMoveIsEmptyCell | src/static/js/tictactoe.ts:116-117 | where play goes on, the hard AI names an empty cell |
| TicTacToeGame.TicTacToe.constructor | src/static/js/tictactoe.ts:24-36 | nine empty cells, X to move, no winner, the game open, medium difficulty and zeroed counters |
| TicTacToeGame.TicTacToe.EndGame | src/static/js/tictactoe.ts:180-194 | the game is over with the given result; exactly one of draws, wins (the result is the mark to move) and losses goes up |
| TicTacToeGame.TicTacToe.CheckGameStatus | src/static/js/tictactoe.ts:170-178 | X's line ends the game with X, else O's with O, else a full board as a draw, with exactly the counter `endGame` picks raised; otherwise nothing changes; the new outcome is `Settle` of the board |
| TicTacToeGame.SettleMeaning | src/static/js/tictactoe.ts:170-194 | the status check ends the game exactly on a line or a full board, X reported before O, a full board without a line a draw, one counter raised (a win for the mark still to move), nothing changed otherwise |
| TicTacToeGame.TicTacToe.MakeMove | src/static/js/tictactoe.ts:96-101 | the mark to move is written into the one cell, the other mark is then to move, and game over, winner and counters are `Settle` of the new board with the mover still to move |
| TicTacToeGame.TicTacToe.HandleCellClick | src/static/js/tictactoe.ts:87-94 | an occupied cell or a finished game changes nothing; otherwise the mark goes into the cell, the turn passes, and game over, winner and counters are `Settle` of the new board |
| TicTacToeGame.TicTacToe.AIMove | src/static/js/tictactoe.ts:103-108 | the cell `calculateBestMove` names is played unless it is −1, which changes nothing; a played cell passes the turn and settles game over, winner and counters as `Settle` of the new board |
| TicTacToeGame.TicTacToe.ResetGame | src/static/js/tictactoe.ts:196-199 | nine empty cells, no winner and the game open; the mark to move, the difficulty and the counters stay |
| TicTacToeGame.TicTacToe.SetDifficulty | src/static/js/tictactoe.ts:207-210 | the difficulty is set and the board reset to nine empty cells, open, without a winner; the mark to move and the counters stay |
| ConnectFourGame.LowestEmptyRow | src/static/js/connect_four.ts:103-110 | -1 exactly when every row of the column is occupied, else an empty row with every row below it occupied |
| ConnectFourGame.LowestEmptyRowUnique | src/static/js/connect_four.ts:103-110 | an empty row with no empty row beneath it is the row `getLowestEmptyRow` returns |
| ConnectFourGame.DropFillsColumn | src/static/js/connect_four.ts:103-117 | dropping into the lowest empty row makes the next empty row above it (or none) the new lowest |
| ConnectFourGame.RowOfFourWins | src/static/js/connect_four.ts:194-202 | four equal discs in the row through the new disc make `checkWinner` true |
| ConnectFourGame.ColumnOfFourWins | src/static/js/connect_four.ts:205-213 | four equal discs in the column through the new disc make `checkWinner` true |
| ConnectFourGame.WinningDropIsSeen | src/static/js/connect_four.ts:252-263 | a disc that wins through its own cell is found by the status scan |
| ConnectFourGame.FirstWinningUnique | src/static/js/connect_four.ts:254-263 | the status scan's first winning disc in row-major order is unique |
| ConnectFourGame.FirstWinningExists | src/static/js/connect_four.ts:254-263 | a board with some winning disc has a first one for the scan to stop at |
| ConnectFourGame.FirstWinningFrom | src/static/js/connect_four.ts:254-263 | by induction on the row-major position: some winning cell implies a first winning cell |
| ConnectFourGame.OnlyFirstWinning | src/static/js/connect_four.ts:254-263 | a winning disc with no winning disc before it is the only first winning disc |
| ConnectFourGame.FirstWinningDrop | src/static/js/connect_four.ts:146-156 | a column found by the trial loop is at or after the start and its drop wins |
| ConnectFourGame.FirstWinningDropIsFirst | src/static/js/connect_four.ts:146-156 | the column found is the leftmost winning drop, and none is found exactly when no column wins |
| ConnectFourGame.ValidColumnsUpTo | src/static/js/connect_four.ts:182-188 | the non-full columns below n, each once, in ascending order |
| ConnectFourGame.RandomValidColumn | src/static/js/connect_four.ts:182-190 | none exactly when the board is full, else a column that still has room |
| ConnectFourGame.NoValidColumnIsFull | src/static/js/connect_four.ts:182-190 | there are no valid columns exactly when every cell is occupied |
| ConnectFourGame.BestColumn | src/static/js/connect_four.ts:144-180 | the column chosen has room; no column is chosen only on a full board |
| ConnectFourGame.BestColumnTakesWin | src/static/js/connect_four.ts:146-156 | when some drop wins for the colour to move, the chosen column wins and is the leftmost such |
| ConnectFourGame.BestColumnBlocks | src/static/js/connect_four.ts:158-170 | with no win available, a drop the opponent would win with is blocked, leftmost first |
| ConnectFourGame.BestColumnCentre | src/static/js/connect_four.ts:172-176 | with no win and nothing to block, the centre column is taken while it has room |
| ConnectFourGame.BestMove | src/static/js/connect_four.ts:131-142 | the difficulty's choice has room, and is absent only on a full board |
| ConnectFourGame.ConnectFour.constructor | src/static/js/connect_four.ts:27-45 | an empty 6×7 board, red to move, no winner, medium difficulty, zero counters |
| ConnectFourGame.ConnectFour.GetLowestEmptyRow | src/static/js/connect_four.ts:103-110 | the loop returns `LowestEmptyRow` of the board |
| ConnectFourGame.ConnectFour.CheckWinner | src/static/js/connect_four.ts:192-250 | true exactly when four of the colour line up through the cell horizontally, vertically or diagonally |
| ConnectFourGame.ConnectFour.RowHasFour | src/static/js/connect_four.ts:194-202 | the running count reaches four exactly when the row holds four consecutive discs of the colour |
| ConnectFourGame.ConnectFour.ColumnHasFour | src/static/js/connect_four.ts:205-213 | the running count reaches four exactly when the column holds four consecutive discs of the colour |
| ConnectFourGame.ConnectFour.DiagonalHasFour | src/static/js/connect_four.ts:216-247 | the count along the seven-step diagonal walk reaches four exactly when the on-board cells of the walk hold four in a row |
| ConnectFourGame.ConnectFour.EndGame | src/static/js/connect_four.ts:270-285 | the game is over with the given result; a draw, a win for the colour to move or else a loss is counted, nothing else changes |
| ConnectFourGame.ConnectFour.CheckGameStatus | src/static/js/connect_four.ts:252-268 | the first winning disc in row-major order ends the game for its colour, else a full board is a draw, each raising the counter `endGame` picks; else nothing changes; the new outcome is `Settle` of the grid |
| ConnectFourGame.SettleMeaning | src/static/js/connect_four.ts:252-268 | the status check ends the game exactly on a winning disc or a full grid, names the first winning disc's colour, calls a full grid without one a draw with draws + 1, raises exactly one counter, and changes nothing otherwise |
| ConnectFourGame.StatusOfFirst | src/static/js/connect_four.ts:252-268 | the first winning disc of the row-major scan decides the status |
| ConnectFourGame.ConnectFour.MakeMove | src/static/js/connect_four.ts:112-117 | the disc is placed, the turn passes, and game over, winner and counters are `Settle` of the new grid with the mover still to move: a win through the disc or a full grid ends the game, anything else leaves it open |
| ConnectFourGame.ConnectFour.HandleColumnClick | src/static/js/connect_four.ts:91-101 | ignored after the game is over or on a full column; else the disc drops to the lowest empty row, the turn passes, and game over, winner and counters are `Settle` of the new grid |
| ConnectFourGame.ConnectFour.GetRandomValidColumn | src/static/js/connect_four.ts:182-190 | the loop returns `RandomValidColumn` of the board |
| ConnectFourGame.ConnectFour.FindBestColumn | src/static/js/connect_four.ts:144-180 | returns `BestColumn` of the board for the colour to move, and the trial discs are all taken back |
| ConnectFourGame.ConnectFour.WinningColumn | src/static/js/connect_four.ts:146-170 | returns the leftmost winning drop for the colour, the board unchanged afterwards |
| ConnectFourGame.ConnectFour.TryDrop | src/static/js/connect_four.ts:148-155 | true exactly when the column has room and a disc there wins; the board is restored |
| ConnectFourGame.ConnectFour.CalculateBestMove | src/static/js/connect_four.ts:131-142 | returns `BestMove` for the difficulty and the draws, the board unchanged |
| ConnectFourGame.ConnectFour.AIMove | src/static/js/connect_four.ts:119-129 | the AI's column is `BestMove`; a column drops a disc, passes the turn and settles the outcome as `Settle` of the new grid; a full board records a stray write and settles the unchanged grid |
| ConnectFourGame.ConnectFour.PlayColumn | src/static/js/connect_four.ts:119-129 | a column is played as a click, with the outcome `Settle` of the new grid; with no column a stray mark is written while the counter of stray rows is below six, and the unchanged full grid is settled |
| ConnectFourGame.ConnectFour.ResetGame | src/static/js/connect_four.ts:287-296 | fresh empty board, no winner, game open; the colour to move, difficulty and counters stay |
| ConnectFourGame.ConnectFour.SetDifficulty | src/static/js/connect_four.ts:298-301 | the difficulty is set and the board is reset to empty, open, with no winner and no stray marks; the colour to move and the counters stay |
| CheckersGame.InitialBoard | src/static/js/checkers.ts:58-80 | an 8×8 board with 'white' men on the odd squares of rows 0-2, 'black' men on those of rows 5-7, every other square empty |
| CheckersGame.CreateInitialBoard | src/static/js/checkers.ts:58-80 | the two filling loops build exactly `InitialBoard` |
| CheckersGame.InitialPieceCounts | src/static/js/checkers.ts:58-80 | each side starts with twelve pieces (also lines 396-406) |
| CheckersGame.EvaluateBounds | src/static/js/checkers.ts:369-381 | the evaluation lies in [−192, 192], inside the ±1000 given to a side without moves |
| CheckersGame.EvaluateZeroSum | src/static/js/checkers.ts:369-381 | evaluating for the other colour negates the score |
| CheckersGame.Directions | src/static/js/checkers.ts:176-200 | a king moves in both row directions, a white man down the board (+1), anything else up (−1) |
| CheckersGame.StepsAreSteps | src/static/js/checkers.ts:179-187 | every listed step is one row in a direction of the piece and one column sideways, onto an empty square |
| CheckersGame.JumpsAreJumps | src/static/js/checkers.ts:202-220 | every listed capture starts on the piece, lands two rows and columns away on an empty square, over an opponent's piece at the midpoint |
| CheckersGame.ValidMovesShape | src/static/js/checkers.ts:172-194 | every target of `getValidMoves` is an empty square on the board reached by a step or a jump |
| CheckersGame.ValidMovesLegal | src/static/js/checkers.ts:172-194 | every target is a move `makeMove` can play, with a whole midpoint on a two-row move (also lines 233-243) |
| CheckersGame.ApplyMoveEffect | src/static/js/checkers.ts:233-249 | the piece (crowned when due) lands on the target, the origin and a jumped square are emptied, every other square is unchanged |
| CheckersGame.Promotion | src/static/js/checkers.ts:245-249 | the landed piece keeps its colour and is a king exactly when it was one or is a man reaching the far row for its colour |
| CheckersGame.StepIsLegal | src/static/js/checkers.ts:233-243 | a one-row move onto the board is a playable move |
| CheckersGame.Notation | src/static/js/checkers.ts:260-264 | five characters with '-' in the middle |
| CheckersGame.NotationRoundTrip | src/static/js/checkers.ts:260-264 | the notation reads back to the move it was made from |
| CheckersGame.NotationInjective | src/static/js/checkers.ts:252-264 | two moves have the same history entry exactly when they are the same move |
| CheckersGame.AllMovesLegal | src/static/js/checkers.ts:291-304 | every move of `getAllPossibleMoves` can be played by `makeMove` |
| CheckersGame.AllMovesSound | src/static/js/checkers.ts:291-304 | every listed move starts on a piece of the colour to move and goes to one of its `getValidMoves` targets |
| CheckersGame.AllMovesComplete | src/static/js/checkers.ts:291-304 | every target of every piece of the colour to move is listed |
| CheckersGame.Tally | src/static/js/checkers.ts:408-423 | ending a game adds exactly one to the three counters together |
| CheckersGame.RecordIsMakeMove | src/static/js/checkers.ts:252-256 | a trial move records what `makeMove` does: its notation, then the status check of the new board |
| CheckersGame.RecordEffect | src/static/js/checkers.ts:253 | a move appends exactly its notation, and ends the game, counting one result, exactly when the new board has a status (also lines 383-394) |
| CheckersGame.GameTreeBounded | src/static/js/checkers.ts:334-338 | every leaf of the searched tree is a score in [−1000, 1000] |
| CheckersGame.TreeValueRange | src/static/js/checkers.ts:334-367 | every unpruned minimax value lies in [−1000, 1000] |
| CheckersGame.TreeSearchSound | src/static/js/checkers.ts:334-367 | alpha-beta soundness: a result at or beyond a window bound bounds the true value on that side, a result strictly inside the window is the true value |
| CheckersGame.MaxLoopSound | src/static/js/checkers.ts:340-352 | the maximising loop returns at least the best so far, bounds the children from above, and equals one of them when it beats alpha |
| CheckersGame.MinLoopSound | src/static/js/checkers.ts:353-366 | the minimising loop symmetrically with beta |
| CheckersGame.FullWindowExact | src/static/js/checkers.ts:319 | with the window (−∞, ∞) the pruned search returns exactly the unpruned minimax value (also lines 334-367) |
| CheckersGame.MinimaxValueRange | src/static/js/checkers.ts:334-367 | every searched value is a score in [−1000, 1000] |
| CheckersGame.FirstMaxIndex | src/static/js/checkers.ts:325-328 | the first position of a largest element |
| CheckersGame.FirstMaxUnique | src/static/js/checkers.ts:325-328 | the first largest position is unique |
| CheckersGame.BestMove | src/static/js/checkers.ts:306-332 | no move exactly when there are no moves, else one of the listed moves |
| CheckersGame.BestMoveIsBest | src/static/js/checkers.ts:306-332 | the chosen move scores at least as well as every move and strictly better than every move listed before it |
| CheckersGame.ScanBestIsFirstMax | src/static/js/checkers.ts:310-331 | the scan from −∞ replacing only on a greater score keeps the first position of a largest score |
| CheckersGame.ChildScores | src/static/js/checkers.ts:319 | each root score is the negated value of the minimising search below that move |
| CheckersGame.AIChoice | src/static/js/checkers.ts:275-289 | no move exactly when the colour to move has none, else a listed, playable move: random on easy and on a low medium coin, a depth-2 or depth-4 search otherwise |
| CheckersGame.Highlighted | src/static/js/checkers.ts:168-170 | true exactly when the square is among the highlighted targets |
| CheckersGame.ClickOf | src/static/js/checkers.ts:129-154 | a click plays only a highlighted target of a selection, selects only a man of the colour to move, and is ignored exactly when the game is over or black is to move |
| CheckersGame.Checkers.constructor | src/static/js/checkers.ts:34-56 | the starting board, white to move, nothing selected, no winner, medium difficulty, empty history, zero counters |
| CheckersGame.Checkers.GetValidMoves | src/static/js/checkers.ts:172-194 | the loops return `ValidMoves`: the steps in order, then the capture landings |
| CheckersGame.Checkers.GetValidCaptures | src/static/js/checkers.ts:196-223 | the loops return `Captures` of the piece |
| CheckersGame.Checkers.CountPieces | src/static/js/checkers.ts:396-406 | the number of squares whose string starts with the colour |
| CheckersGame.Checkers.EvaluateBoard | src/static/js/checkers.ts:369-381 | the loop returns `Evaluate` for the colour to move |
| CheckersGame.Checkers.GetAllPossibleMoves | src/static/js/checkers.ts:291-304 | the loops return `AllMoves` for the colour to move |
| CheckersGame.Checkers.EndGame | src/static/js/checkers.ts:408-423 | the game is over with the result; a draw, a win for the colour to move or else a loss is counted |
| CheckersGame.Checkers.CheckGameStatus | src/static/js/checkers.ts:383-394 | no white piece ends the game for black, then no black piece for white, then no move for the colour that just moved is a draw |
| CheckersGame.Checkers.MakeMove | src/static/js/checkers.ts:233-258 | the board becomes `ApplyMove`, the notation is recorded, the status is checked and the turn passes |
| CheckersGame.Checkers.TryMove | src/static/js/checkers.ts:315-323 | one trial: the search below the move, then the board restored and the turn passed back, with what the trials recorded kept (also lines 343-347, 356-360) |
| CheckersGame.Checkers.Minimax | src/static/js/checkers.ts:334-367 | the score and side state of `AlphaBeta` on the board, the board and turn unchanged |
| CheckersGame.Checkers.MaximisingLoop | src/static/js/checkers.ts:340-352 | the loop computes `MaxLoop`, cut-offs included |
| CheckersGame.Checkers.MinimisingLoop | src/static/js/checkers.ts:353-366 | the loop computes `MinLoop`, cut-offs included |
| CheckersGame.Checkers.FindBestMove | src/static/js/checkers.ts:306-332 | returns `BestMove`, the board and turn restored, the side state as the trials left it |
| CheckersGame.Checkers.RootTrial | src/static/js/checkers.ts:315-323 | one root trial scores the move with its `ChildScores` entry, within [−1000, 1000] |
| CheckersGame.Checkers.ScanMoves | src/static/js/checkers.ts:313-329 | the loop keeps the move at the first position of a largest root score |
| CheckersGame.Checkers.CalculateBestMove | src/static/js/checkers.ts:275-289 | returns `AIChoice` for the difficulty and the draws |
| CheckersGame.Checkers.MakeAIMove | src/static/js/checkers.ts:266-273 | the chosen move, if any, is made after the search's trials |
| CheckersGame.Checkers.SelectPiece | src/static/js/checkers.ts:156-160 | the square is selected and its `getValidMoves` targets highlighted, nothing else changes |
| CheckersGame.Checkers.ClearSelection | src/static/js/checkers.ts:162-166 | nothing selected or highlighted, nothing else changes |
| CheckersGame.Checkers.HandleSquareClick | src/static/js/checkers.ts:129-154 | each case of `ClickOf` has its effect: ignored, select, play with the AI scheduled unless the game ended, or clear |
| CheckersGame.Checkers.ResetGame | src/static/js/checkers.ts:425-437 | the starting board, no winner, game open, empty selection and history; the counters, difficulty and colour stay; the AI is scheduled exactly when black is to move |
| CheckersGame.Checkers.SetDifficulty | src/static/js/checkers.ts:439-442 | the level is set and the game reset |
| CheckersGame.Checkers.ChoosePlayer | src/static/js/checkers.ts:110-118 | the first button makes white move, any other black and schedules the AI; nothing else changes |
| TicTacToeClient.Flatten | src/static/js/tictactoe.js:18-22 | the three rows laid end to end, cell (r, c) at index 3r + c |
| TicTacToeClient.WinsIsCheckWinner | src/static/js/tictactoe.js:245-279 | the client's line test holds exactly when the TypeScript game's winning-pattern table finds a line on the flattened board |
| TicTacToeClient.DrawnIsDrawnBoard | src/static/js/tictactoe.js:282-292 | the client's draw holds exactly when the TypeScript game's board is full with no line |
| TicTacToeClient.EmptyGridIsOpen | src/static/js/tictactoe.js:327-336 | a new game has no line for any mark and is no draw |
| TicTacToeClient.EmptyRows | src/static/js/tictactoe.js:203-209 | the empty cells of the rows scanned so far, each once, in row-major order |
| TicTacToeClient.EmptyCells | src/static/js/tictactoe.js:202-209 | exactly the empty cells, each once, in row-major order |
| TicTacToeClient.RandomCell | src/static/js/tictactoe.js:211-212 | nothing exactly on a full board, else an empty cell |
| TicTacToeClient.NoEmptyCellIsFull | src/static/js/tictactoe.js:202-211 | the scan finds no cell exactly when the board is full |
| TicTacToeClient.Client.constructor | src/static/js/tictactoe.js:17-28 | an empty board, the human to move, no winner, easy mode |
| TicTacToeClient.Client.CheckWin | src/static/js/tictactoe.js:245-279 | the loops return true exactly when a row, a column or a diagonal is all `player` |
| TicTacToeClient.Client.CheckDraw | src/static/js/tictactoe.js:282-292 | true exactly when no cell is empty and neither mark has a line |
| TicTacToeClient.Client.MakeMove | src/static/js/tictactoe.js:239-242 | exactly the cell (row, col) receives the mark |
| TicTacToeClient.Client.Settle | src/static/js/tictactoe.js:109-134 | a line for the mark ends the game with its outcome, else a draw ends it, else the turn passes (also lines 168-190); the new status is `Settled` |
| TicTacToeClient.SettledMeaning | src/static/js/tictactoe.js:109-134 | a settled game is over exactly when the mark has a line or the board is drawn; then the turn stays and a winner is set; otherwise only the turn changes |
| TicTacToeClient.Client.HandleCellClick | src/static/js/tictactoe.js:95-135 | ignored when the game is over, on the AI's turn or on a taken cell; else 'O' is placed and the status settled |
| TicTacToeClient.Client.MakeRandomMove | src/static/js/tictactoe.js:200-236 | 'X' goes on the drawn empty cell and the status is settled; a full board is left alone |
| TicTacToeClient.Client.CollectEmptyCells | src/static/js/tictactoe.js:202-209 | the nested loop returns `EmptyCells` of the board |
| TicTacToeClient.Client.AIMove | src/static/js/tictactoe.js:138-197 | nothing after the game is over or on a declined reply; a cell in the reply gets 'X' and the status `Settled`; a column off the board writes no cell but still settles; a failed request or a row off the board falls back to the random move, which settles its move or, on a full board, changes nothing |
| TicTacToeClient.Client.StartNewGame | src/static/js/tictactoe.js:327-336 | a new empty board, the human to move, no outcome, the mode kept |
| QLearning.RowString | src/algorithm/q_learning.py:53-60 | one character per cell: '_' for None, the mark otherwise |
| QLearning.StateOf | src/algorithm/q_learning.py:46-62 | the state has one row string per board row |
| QLearning.RowCells | src/algorithm/q_learning.py:199-206 | one cell per character: None for '_', the character otherwise |
| QLearning.BoardOf | src/algorithm/q_learning.py:194-207 | the board has one row per state string |
| QLearning.BoardRoundTrip | src/algorithm/q_learning.py:46-62 | decoding the state of a board of 'X', 'O' and None gives the board back (also lines 194-207) |
| QLearning.StateRoundTrip | src/algorithm/q_learning.py:46-62 | encoding the decoded board of any state gives the state back (also lines 194-207) |
| QLearning.BoardToState | src/algorithm/q_learning.py:46-62 | the loops return `StateOf` of the board |
| QLearning.StateToBoard | src/algorithm/q_learning.py:194-207 | the loops return `BoardOf` of the state |
| QLearning.ShapedBoard | src/algorithm/q_learning.py:173-207 | a state of three three-character strings decodes to a 3×3 board |
| QLearning.BoardShaped | src/algorithm/q_learning.py:46-62 | a 3×3 board encodes to three three-character strings |
| QLearning.EmptyCellsExact | src/algorithm/q_learning.py:64-73 | an action is possible exactly when its cell is on the board and None |
| QLearning.EmptyRowsOrdered | src/algorithm/q_learning.py:68-72 | the possible actions come in row-major order, each once |
| QLearning.PossibleActions | src/algorithm/q_learning.py:64-73 | the loops return `EmptyCells` of the board |
| QLearning.TouchKeeps | src/algorithm/q_learning.py:75-89 | reading a value adds the pair to the table if missing, changes no stored entry, and every pair reads as before |
| QLearning.SetThenGet | src/algorithm/q_learning.py:75-101 | after an update the pair reads the new value and every other pair reads as before |
| QLearning.TouchAllKeeps | src/algorithm/q_learning.py:114-115 | reading a list of values leaves every value as it was (also line 177) |
| QLearning.MaxQIsMax | src/algorithm/q_learning.py:177 | the maximum is the value of a listed action and no listed action has a larger one |
| QLearning.TieScanSpec | src/algorithm/q_learning.py:111-121 | after a non-empty prefix the best value is the prefix's largest and the list holds exactly its actions that reach it |
| QLearning.TiesExact | src/algorithm/q_learning.py:103-124 | the actions chosen among are exactly the listed actions of largest value, and there is one whenever the list is not empty |
| QLearning.BestActionIsBest | src/algorithm/q_learning.py:103-124 | None exactly when there is no action, else a listed action whose value no listed action exceeds |
| QLearning.BackupEffect | src/algorithm/q_learning.py:169-186 | one backward step sets exactly Q(s, a) to cur + alpha·(gamma·maxNext − cur), maxNext 0 when the next state has no empty cell; every other pair reads as before |
| QLearning.SweepKeeps | src/algorithm/q_learning.py:169-186 | a pair the backward loop never visits keeps its value |
| QLearning.LearnedValues | src/algorithm/q_learning.py:153-192 | a last pair that occurs once in the game ends with the reward, and a pair the game never played keeps its value |
| QLearning.ChoiceIsEmptyCell | src/algorithm/q_learning.py:126-143 | a choice exists exactly when the board has an empty cell, and it is an empty cell, a tied best one on the greedy branch |
| QLearning.QLearningAgent.constructor | src/algorithm/q_learning.py:12-21 | the given rates, the loaded table, no recorded moves |
| QLearning.QLearningAgent.ResetForNewGame | src/algorithm/q_learning.py:41-44 | the recorded moves are cleared, the table kept |
| QLearning.QLearningAgent.GetQ | src/algorithm/q_learning.py:75-89 | returns the stored value or 0.0, and stores the 0.0 |
| QLearning.QLearningAgent.UpdateQ | src/algorithm/q_learning.py:91-101 | the table maps the pair to the value |
| QLearning.QLearningAgent.BestActionOf | src/algorithm/q_learning.py:103-124 | returns `BestAction` and stores every value it reads |
| QLearning.QLearningAgent.ChooseAction | src/algorithm/q_learning.py:126-143 | returns `Choice`; the values are read and stored only on the greedy branch |
| QLearning.QLearningAgent.RecordMove | src/algorithm/q_learning.py:145-151 | one encoded state and one action are appended |
| QLearning.QLearningAgent.MaxNextQ | src/algorithm/q_learning.py:177 | the largest value over the actions, each read and stored |
| QLearning.QLearningAgent.NextMax | src/algorithm/q_learning.py:172-179 | the best value of the next state's possible actions, 0 without any |
| QLearning.QLearningAgent.BackupAt | src/algorithm/q_learning.py:170-186 | one pass of the backward loop is `Backup` of the table |
| QLearning.QLearningAgent.LearnFromGame | src/algorithm/q_learning.py:153-192 | nothing without a recorded move; else the last pair is set to the reward, the backward sweep runs, and the recorded moves are cleared |
| PatternRecognition.BoardKeyCells | src/algorithm/pattern_recognition.py:45-54 | the key of a 3×3 board has nine characters, cell (i, j) at position 3i + j, '_' for None |
| PatternRecognition.BoardToString | src/algorithm/pattern_recognition.py:45-54 | the loops return `BoardKey` of the board |
| PatternRecognition.MoveKeyRoundTrip | src/algorithm/pattern_recognition.py:61 | splitting a move key at its comma and reading both parts as integers gives the move back (also lines 155, 164) |
| PatternRecognition.CheckWinLines | src/algorithm/pattern_recognition.py:267-285 | `_check_win` holds exactly when one of the eight lines is all the player's |
| PatternRecognition.CountPotentialWinningLines | src/algorithm/pattern_recognition.py:287-318 | the number of lines holding two of the player's marks and one empty cell, at most eight |
| PatternRecognition.FirstCompletingSpec | src/algorithm/pattern_recognition.py:180-201 | the trial scan finds the first empty cell in row-major order where the mark completes a line, and nothing only when there is none |
| PatternRecognition.ScanCompleting | src/algorithm/pattern_recognition.py:180-201 | the two loops return `FirstCompleting` of the board |
| PatternRecognition.IndexOf | src/algorithm/pattern_recognition.py:118-131 | the position of the key in the dictionary's entries, or −1 when it is absent |
| PatternRecognition.AddWeightSpec | src/algorithm/pattern_recognition.py:118-131 | adding a weight keeps the keys in order, puts a new key last, and changes no weight but that key's, which grows by the weight |
| PatternRecognition.Adapted | src/algorithm/pattern_recognition.py:92-95 | a human win raises the level by 0.1 to at most 1.0, an agent win lowers it by 0.1 to at least 0.5, anything else keeps it; the level stays in [0.5, 1.0] |
| PatternRecognition.TimesProduct | src/algorithm/pattern_recognition.py:104-131 | adding the weight once per move gives the count times the weight |
| PatternRecognition.LearnAllWellFormed | src/algorithm/pattern_recognition.py:98-131 | the learning loop keeps the record well formed and leaves the counters and the level alone |
| PatternRecognition.LearnAllCounts | src/algorithm/pattern_recognition.py:98-115 | the loop adds exactly the player's moves on a board to its count, and creates a pattern only for a board they played on |
| PatternRecognition.LearnAllFavouriteMoves | src/algorithm/pattern_recognition.py:128-131 | the favourite moves after the loop depend only on the favourite moves before it and the player's moves |
| PatternRecognition.FavouritesWeight | src/algorithm/pattern_recognition.py:128-131 | each favourite weight grows by the weight for every time the player played the move |
| PatternRecognition.LearnAllFavourites | src/algorithm/pattern_recognition.py:98-131 | after the loop, a move's favourite weight is its old weight plus the weight times the player's plays of it |
| PatternRecognition.AnalysisCounters | src/algorithm/pattern_recognition.py:85-95 | a finished game is counted once and moves the level as `Adapted` says |
| PatternRecognition.AnalysisWellFormed | src/algorithm/pattern_recognition.py:65-137 | the player's record stays well formed, the level within [0.5, 1.0] |
| PatternRecognition.Heaviest | src/algorithm/pattern_recognition.py:154-170 | `max` with a key: the first entry of greatest weight |
| PatternRecognition.PlayableExact | src/algorithm/pattern_recognition.py:161-166 | a favourite move is kept exactly when its cell is empty |
| PatternRecognition.Predicted | src/algorithm/pattern_recognition.py:139-175 | a prediction is always a cell of the board |
| PatternRecognition.PredictedSpec | src/algorithm/pattern_recognition.py:139-175 | no prediction for an unknown player; a seen board predicts a move of greatest weight for it; otherwise any prediction is a favourite move of greatest weight among the empty cells |
| PatternRecognition.Free | src/algorithm/pattern_recognition.py:224-250 | the listed cells that are empty, in order |
| PatternRecognition.CornerScanSpec | src/algorithm/pattern_recognition.py:227-240 | starting from −1, the corner loop ends on the first free corner that leaves 'X' the most threats |
| PatternRecognition.BestCorner | src/algorithm/pattern_recognition.py:227-240 | the loop returns the corner `CornerScan` finds |
| PatternRecognition.CounterMoveWins | src/algorithm/pattern_recognition.py:180-189 | when 'X' can win at once, the answer is the first such cell in row-major order |
| PatternRecognition.CounterMoveBlocks | src/algorithm/pattern_recognition.py:192-201 | without a win, when 'O' could win at once, the answer is the first such cell |
| PatternRecognition.PredictedThreatOccupied | src/algorithm/pattern_recognition.py:203-214 | the predicted-threat rule only fires on an occupied cell, since an empty winning cell of 'O' was already blocked |
| PatternRecognition.CounterMoveCell | src/algorithm/pattern_recognition.py:177-265 | every answer is a cell of the board, an empty one except where the predicted-threat rule fires |
| PatternRecognition.CounterMoveExists | src/algorithm/pattern_recognition.py:177-265 | there is an answer whenever a cell is empty |
| PatternRecognition.CounterMoveCorner | src/algorithm/pattern_recognition.py:222-246 | when the rules reach the corners, the answer is the first free corner of greatest gain; the random corner is never drawn |
| PatternRecognition.NoSpareCell | src/algorithm/pattern_recognition.py:254-265 | with the centre, the corners and the edges taken no cell is empty, so the last random choice never runs |
| PatternRecognition.PatternAgent.constructor | src/algorithm/pattern_recognition.py:11-16 | the loaded patterns, no recorded move, no settings |
| PatternRecognition.PatternAgent.SetGameSettings | src/algorithm/pattern_recognition.py:18-21 | the pattern weight of the settings is set, nothing else changes |
| PatternRecognition.PatternAgent.ResetForNewGame | src/algorithm/pattern_recognition.py:41-43 | the game's moves are cleared, nothing else changes |
| PatternRecognition.PatternAgent.RecordMove | src/algorithm/pattern_recognition.py:56-63 | one entry more: the board key, the move and the player |
| PatternRecognition.PatternAgent.AnalyzeGame | src/algorithm/pattern_recognition.py:65-137 | nothing without moves; without settings an error after an unknown player's record is created; otherwise the player's record becomes `Analysis` of it and the moves are cleared |
| PatternRecognition.PatternAgent.LearnMoves | src/algorithm/pattern_recognition.py:98-131 | the loop computes `LearnAll` of the player's record |
| PatternRecognition.PatternAgent.PredictMove | src/algorithm/pattern_recognition.py:139-175 | returns `Predicted` of the stored patterns |
| PatternRecognition.PatternAgent.ChooseCounterMove | src/algorithm/pattern_recognition.py:177-265 | returns `CounterMove` of the stored patterns and the draw |

## Left out

- The default arguments `playerCount = 4, startingChips = 1000` of `createInitialGameState` and `0.3 / 0.9 / 0.2` of the Q-learning agent's `__init__` are explicit parameters; the constants `PokerUtils.DefaultPlayerCount`, `PokerUtils.DefaultStartingChips`, `QLearning.DefaultLearningRate`, `QLearning.DefaultDiscountFactor` and `QLearning.DefaultExplorationRate` name them; `StartGame` and `StartNewHand` pass the poker defaults, and the Q-learning constructor takes its rates from its caller.
- IEEE floating point: every non-integer quantity is an exact `real`, so the model has no binary rounding (for example the unpredictable confidence `90 * 0.7`, which is 62.99999999999999 in doubles and exactly 63 here).
- Checkers' `Infinity` and `-Infinity` are the integers 1001 and -1001. Every search score lies in [-1000, 1000], so comparisons against them come out the same.
- Timers: the `setTimeout` delays before AI moves are not modelled. Each AI turn is one transition from the state that exists when it runs.
- React's stale closures are not modelled. Neither is the aliasing in `simulateAITurn`: its shallow copy `{ ...gameState }` shares the players array with the snapshot, and the seat records are mutated in place.
- The DOM, sounds, toasts, messages and rendering are not modelled. Only the game state they display is.
- Network: the server reply in the client-side tic-tac-toe is a parameter. The other network clients of the arcade are not part of this model.
- Persistence: `localStorage`, `load_patterns`/`save_patterns` and the pickle load/save are not modelled. The constructors take the data that loading would produce.
- The `dealCards` TypeError for a missing hand cannot be represented, because every hand is a sequence.
- With no players, `findNextActivePlayer`'s `% 0` yields NaN. The model returns -1 instead.
- The poker table transitions require a non-empty table. The table always holds seat 0, the human player.
- `formatNumber` is modelled on integers only. Its input is always a chip count.
- Client tic-tac-toe: a server reply whose row or column is not an integer is not modelled.
- The `default` branches of the difficulty switches are not modelled. They are in tictactoe.ts and connect_four.ts (returning -1) and in checkers.ts (returning `null`). Difficulty is a three-valued datatype in the model, as its TypeScript type is, so those branches cannot be reached.
- `resetGame` in `tictactoe.ts` and `connect_four.ts` calls `makeAIMove` when the AI moves first. The model runs that move as a separate `AIMove` transition.
- The difficulty buttons are modelled by `SetDifficulty`. The player-selection buttons of `tictactoe.ts` and `connect_four.ts` are not modelled.
- Python dictionary keys made with `str()` are modelled by value.
- `q_values` is one flat map keyed by (state, action). So an empty inner dictionary is not represented; reading it gives the default 0.0 either way.
- Of the Python settings dictionary only `pattern_weight` is modelled. A missing-key `KeyError` is not.
- The pattern agent's win, draw and loss rates are never updated by the code. The model keeps them at 0.
- QLearning.QLearningAgent.RecordMove: requires a 3×3 board, which every caller passes.
- PatternRecognition.PatternAgent.RecordMove: requires a move on the board, which every caller passes.
- PatternRecognition.PatternAgent.constructor: requires the loaded table to be well formed, as `save_patterns` writes it.
- PatternRecognition.MoveKey: requires non-negative coordinates, which every move on the board has.
- PatternRecognition.ParseMove: accepts only plain digit strings, while Python's `int()` also accepts signs and surrounding spaces. No key the agent writes has either.
- Helper methods such as `TryMove`, `MaximisingLoop`, `MinimisingLoop`, `RootTrial`, `ScanMoves`, `NextMax`, `BackupAt`, `MaxNextQ`, `LearnMoves`, `BestCorner`, `ScanCompleting`, `DealRound`, `ConsiderSeat`, `NextStreet`, `SettleShowdown`, `PlayColumn`, `CollectEmptyCells` and `Settle` split one loop or branch of the source into its own member. They add no behaviour.
