/** The betting state machine of the poker table (src/components/PokerGame.tsx):
    the human's buttons, one AI turn, the end-of-round check and the next hand,
    each a transition from one game state to the next. Seat 0 is the human. */
module PokerGame {
  import opened Common
  import opened PokerUtils
  import opened AILogic
  import opened Stats

  // ------------------------------------------------------------------
  // Chips in circulation
  // ------------------------------------------------------------------

  function TotalChips(ps: seq<Player>): int {
    if ps == [] then 0 else TotalChips(ps[..|ps| - 1]) + ps[|ps| - 1].chips
  }

  lemma {:induction false} TotalChipsUpdate(ps: seq<Player>, i: nat, p: Player)
    requires i < |ps|
    ensures TotalChips(ps[i := p]) == TotalChips(ps) - ps[i].chips + p.chips
    decreases |ps|
  {
    var last := |ps| - 1;
    assert ps[i := p][..last] == if i < last then ps[..last][i := p] else ps[..last];
    if i < last {
      TotalChipsUpdate(ps[..last], i, p);
    }
  }

  /** Every chip is either in front of a player or in the pot. */
  predicate ChipsConserved(s: GameState, s': GameState) {
    TotalChips(s'.players) + s'.pot == TotalChips(s.players) + s.pot
  }

  /** The table after seat i's record is replaced by p. */
  function WithSeat(s: GameState, i: nat, p: Player): GameState
    requires i < |s.players|
  {
    s.(players := s.players[i := p])
  }

  /** The chips seat i moves into the pot (`chips` down by `amount`, pot up by it)
      conserve the chips in circulation. */
  lemma MoveToPot(s: GameState, i: nat, p: Player, amount: int)
    requires i < |s.players| && p.chips == s.players[i].chips - amount
    ensures ChipsConserved(s, WithSeat(s, i, p).(pot := s.pot + amount))
  {
    TotalChipsUpdate(s.players, i, p);
  }

  // ------------------------------------------------------------------
  // The human's actions (seat 0)
  // ------------------------------------------------------------------

  /** `handleFold`: seat 0 folds and the turn passes. */
  method HandleFold(s: GameState) returns (s': GameState)
    requires |s.players| > 0
    ensures s'.players == s.players[0 := s.players[0].(isFolded := true)]
    ensures s' == s.(players := s'.players, currentPlayerIndex := s'.currentPlayerIndex)
    ensures IsNextActive(s'.players, 0, s'.currentPlayerIndex)
    ensures ChipsConserved(s, s')
  {
    var players := s.players[0 := s.players[0].(isFolded := true)];
    var next := FindNextActivePlayer(players, 0);
    s' := s.(players := players, currentPlayerIndex := next);
    MoveToPot(s, 0, players[0], 0);
  }

  /** A check is refused while seat 0 is below a bet on the table. */
  predicate CanCheck(s: GameState)
    requires |s.players| > 0
  {
    !(s.currentBet > 0 && s.players[0].currentBet < s.currentBet)
  }

  /** `handleCheck`: a refused check leaves the state as it is; otherwise only the
      turn moves. */
  method HandleCheck(s: GameState) returns (s': GameState, accepted: bool)
    requires |s.players| > 0
    ensures accepted <==> CanCheck(s)
    ensures !accepted ==> s' == s
    ensures accepted ==>
      s' == s.(currentPlayerIndex := s'.currentPlayerIndex) && IsNextActive(s.players, 0, s'.currentPlayerIndex)
  {
    if !CanCheck(s) {
      return s, false;
    }
    var next := FindNextActivePlayer(s.players, 0);
    return s.(currentPlayerIndex := next), true;
  }

  /** The state seat i reaches by pushing all its chips: its bet grows by its
      stack, the stack becomes 0 and the pot grows by the same amount. */
  function PushAll(s: GameState, i: nat): (s': GameState)
    requires i < |s.players|
    ensures |s'.players| == |s.players| && s'.players[i].chips == 0 && s'.players[i].isAllIn
    ensures s'.pot == s.pot + s.players[i].chips
    ensures ChipsConserved(s, s')
  {
    var p := s.players[i];
    var p' := p.(currentBet := p.currentBet + p.chips, chips := 0, isAllIn := true);
    MoveToPot(s, i, p', p.chips);
    WithSeat(s, i, p').(pot := s.pot + p.chips)
  }

  /** `handleAllIn`: seat 0 pushes its stack; the table bet becomes the larger of
      the previous bet and seat 0's bet, and the minimum raise twice that. */
  method HandleAllIn(s: GameState) returns (s': GameState)
    requires |s.players| > 0
    ensures var p := s.players[0];
      var bet := Max(s.currentBet, p.currentBet + p.chips);
      && s'.players == s.players[0 := p.(currentBet := p.currentBet + p.chips, chips := 0, isAllIn := true)]
      && s'.pot == s.pot + p.chips
      && s'.currentBet == bet && s'.minRaise == 2 * bet
      && s' == s.(players := s'.players, pot := s'.pot, currentBet := bet, minRaise := 2 * bet,
                  currentPlayerIndex := s'.currentPlayerIndex)
    ensures |s'.players| == |s.players| && s'.players[0].chips == 0 && s'.players[0].isAllIn
    ensures IsNextActive(s'.players, 0, s'.currentPlayerIndex)
    ensures ChipsConserved(s, s')
  {
    var pushed := PushAll(s, 0);
    var bet := Max(s.currentBet, pushed.players[0].currentBet);
    var next := FindNextActivePlayer(pushed.players, 0);
    s' := pushed.(currentBet := bet, minRaise := bet * 2, currentPlayerIndex := next);
  }

  /** `handleCall`: seat 0 matches the table bet, or goes all in when the call
      exceeds its stack. */
  method HandleCall(s: GameState) returns (s': GameState)
    requires |s.players| > 0
    ensures var p := s.players[0];
      var callAmount := s.currentBet - p.currentBet;
      callAmount <= p.chips ==>
        && s'.players == s.players[0 := p.(chips := p.chips - callAmount, currentBet := s.currentBet)]
        && s' == s.(players := s'.players, pot := s.pot + callAmount, currentPlayerIndex := s'.currentPlayerIndex)
    ensures var p := s.players[0];
      s.currentBet - p.currentBet > p.chips ==>
        && |s'.players| == |s.players| && s'.players[0].chips == 0 && s'.players[0].isAllIn
        && s'.pot == s.pot + p.chips
        && s'.currentBet == Max(s.currentBet, p.currentBet + p.chips)
    ensures var p := s.players[0];
      var bet := Max(s.currentBet, p.currentBet + p.chips);
      s.currentBet - p.currentBet > p.chips ==>
        && bet == s.currentBet
        && s' == s.(players := s.players[0 := p.(currentBet := p.currentBet + p.chips, chips := 0, isAllIn := true)],
                    pot := s.pot + p.chips, currentBet := bet, minRaise := 2 * bet,
                    currentPlayerIndex := s'.currentPlayerIndex)
    ensures IsNextActive(s'.players, 0, s'.currentPlayerIndex)
    ensures ChipsConserved(s, s')
  {
    var p := s.players[0];
    var callAmount := s.currentBet - p.currentBet;
    if callAmount > p.chips {
      s' := HandleAllIn(s);
      return;
    }
    var p' := p.(chips := p.chips - callAmount, currentBet := s.currentBet);
    var players := s.players[0 := p'];
    var next := FindNextActivePlayer(players, 0);
    s' := s.(players := players, pot := s.pot + callAmount, currentPlayerIndex := next);
    MoveToPot(s, 0, p', callAmount);
  }

  /** The checks `handleBet` makes before it takes the chips. */
  predicate BetAllowed(s: GameState, betAmount: int)
    requires |s.players| > 0
  {
    betAmount >= s.minRaise && betAmount <= s.players[0].chips
  }

  /** `handleBet`: an opening bet of `betAmount` (the slider's value). The minimum
      raise becomes twice the bet. */
  method HandleBet(s: GameState, betAmount: int) returns (s': GameState, accepted: bool)
    requires |s.players| > 0
    ensures accepted <==> BetAllowed(s, betAmount)
    ensures !accepted ==> s' == s
    ensures accepted ==>
      var p := s.players[0];
      && s'.players == s.players[0 := p.(chips := p.chips - betAmount, currentBet := betAmount)]
      && s' == s.(players := s'.players, pot := s.pot + betAmount, currentBet := betAmount,
                  minRaise := 2 * betAmount, currentPlayerIndex := s'.currentPlayerIndex)
      && IsNextActive(s'.players, 0, s'.currentPlayerIndex)
      && s'.players[0].chips >= 0
    ensures ChipsConserved(s, s')
  {
    if !BetAllowed(s, betAmount) {
      MoveToPot(s, 0, s.players[0], 0);
      return s, false;
    }
    var p := s.players[0];
    var p' := p.(chips := p.chips - betAmount, currentBet := betAmount);
    var players := s.players[0 := p'];
    var next := FindNextActivePlayer(players, 0);
    s' := s.(players := players, pot := s.pot + betAmount, currentBet := betAmount,
             minRaise := betAmount * 2, currentPlayerIndex := next);
    MoveToPot(s, 0, p', betAmount);
    accepted := true;
  }

  /** The checks `handleRaise` makes: above the table bet by at least the minimum
      raise, and covered by the stack. */
  predicate RaiseAllowed(s: GameState, betAmount: int)
    requires |s.players| > 0
  {
    && betAmount > s.currentBet
    && betAmount - s.currentBet >= s.minRaise
    && betAmount <= s.players[0].chips
  }

  /** `handleRaise`: seat 0 raises its bet to `betAmount`, paying the difference to
      its current bet. */
  method HandleRaise(s: GameState, betAmount: int) returns (s': GameState, accepted: bool)
    requires |s.players| > 0
    ensures accepted <==> RaiseAllowed(s, betAmount)
    ensures !accepted ==> s' == s
    ensures accepted ==>
      var p := s.players[0];
      var raiseAmount := betAmount - p.currentBet;
      && s'.players == s.players[0 := p.(chips := p.chips - raiseAmount, currentBet := betAmount)]
      && s' == s.(players := s'.players, pot := s.pot + raiseAmount, currentBet := betAmount,
                  minRaise := 2 * betAmount, currentPlayerIndex := s'.currentPlayerIndex)
      && IsNextActive(s'.players, 0, s'.currentPlayerIndex)
    ensures ChipsConserved(s, s')
  {
    if !RaiseAllowed(s, betAmount) {
      MoveToPot(s, 0, s.players[0], 0);
      return s, false;
    }
    var p := s.players[0];
    var raiseAmount := betAmount - p.currentBet;
    var p' := p.(chips := p.chips - raiseAmount, currentBet := betAmount);
    var players := s.players[0 := p'];
    var next := FindNextActivePlayer(players, 0);
    s' := s.(players := players, pot := s.pot + raiseAmount, currentBet := betAmount,
             minRaise := betAmount * 2, currentPlayerIndex := next);
    MoveToPot(s, 0, p', raiseAmount);
    accepted := true;
  }

  /** An accepted raise by the human never leaves seat 0 with negative chips
      when seat 0's own bet is not negative. */
  lemma HumanRaiseKeepsChipsNonNegative(s: GameState, betAmount: int)
    requires |s.players| > 0 && RaiseAllowed(s, betAmount) && s.players[0].currentBet >= 0
    ensures s.players[0].chips - (betAmount - s.players[0].currentBet) >= 0
  {
  }

  // ------------------------------------------------------------------
  // One AI turn (the action switch of simulateAITurn)
  // ------------------------------------------------------------------

  /** `amount || minRaise`: a missing or zero amount means the minimum raise. */
  function RaiseSize(d: AIDecision, minRaise: int): int
    requires d.Raise?
  {
    if d.amount == 0 then minRaise else d.amount
  }

  /** The switch on the AI's decision for seat i. */
  function ApplyAIDecision(s: GameState, i: nat, d: AIDecision): (s': GameState)
    requires i < |s.players|
    ensures |s'.players| == |s.players|
    ensures forall k :: 0 <= k < |s.players| && k != i ==> s'.players[k] == s.players[k]
    ensures s'.players[i].hand == s.players[i].hand && s'.players[i].name == s.players[i].name
    ensures s'.deck == s.deck && s'.communityCards == s.communityCards && s'.gamePhase == s.gamePhase
    ensures s'.currentPlayerIndex == s.currentPlayerIndex && s'.dealerIndex == s.dealerIndex
    ensures ChipsConserved(s, s')
    ensures s'.pot - s.pot == s.players[i].chips - s'.players[i].chips
  {
    var p := s.players[i];
    var callAmount := s.currentBet - p.currentBet;
    match d
    case Fold =>
      MoveToPot(s, i, p.(isFolded := true), 0);
      WithSeat(s, i, p.(isFolded := true)).(pot := s.pot + 0)
    case Check => MoveToPot(s, i, p, 0); s.(players := s.players[i := p])
    case Call =>
      if callAmount > p.chips then PushAll(s, i)
      else
        var p' := p.(chips := p.chips - callAmount, currentBet := s.currentBet);
        MoveToPot(s, i, p', callAmount);
        WithSeat(s, i, p').(pot := s.pot + callAmount)
    case Raise(_) =>
      var raiseAmount := RaiseSize(d, s.minRaise);
      if raiseAmount + callAmount >= p.chips then
        PushAll(s, i).(currentBet := Max(s.currentBet, p.currentBet + p.chips))
      else
        var totalBet := s.currentBet + raiseAmount;
        var p' := p.(chips := p.chips - (totalBet - p.currentBet), currentBet := totalBet);
        MoveToPot(s, i, p', totalBet - p.currentBet);
        WithSeat(s, i, p').(pot := s.pot + (totalBet - p.currentBet), currentBet := totalBet, minRaise := raiseAmount)
    case AllIn =>
      PushAll(s, i).(currentBet := Max(s.currentBet, p.currentBet + p.chips))
  }

  /** Fold and check move no chips; a fold leaves the seat folded and a check
      leaves the whole table as it was. */
  lemma FoldAndCheckMoveNoChips(s: GameState, i: nat)
    requires i < |s.players|
    ensures var s' := ApplyAIDecision(s, i, Fold);
      s'.pot == s.pot && s'.players[i] == s.players[i].(isFolded := true) && s'.currentBet == s.currentBet
    ensures ApplyAIDecision(s, i, Check) == s
  {
  }

  /** A call the stack cannot cover, like an all in, empties the stack into the
      pot; the call leaves the table bet alone while the all in may lift it. */
  lemma ShortCallIsAllIn(s: GameState, i: nat)
    requires i < |s.players| && s.currentBet - s.players[i].currentBet > s.players[i].chips
    ensures var s' := ApplyAIDecision(s, i, Call);
      s'.players[i].isAllIn && s'.players[i].chips == 0 && s'.currentBet == s.currentBet
      && s'.pot == s.pot + s.players[i].chips
    ensures ApplyAIDecision(s, i, AllIn).currentBet >= s.currentBet
  {
  }

  /** A covered AI raise lifts the table bet by exactly the raise and leaves the
      raiser at the table bet. */
  lemma CoveredRaiseLiftsTableBet(s: GameState, i: nat, amount: int)
    requires i < |s.players|
    requires amount != 0 && amount + (s.currentBet - s.players[i].currentBet) < s.players[i].chips
    ensures var s' := ApplyAIDecision(s, i, Raise(amount));
      s'.currentBet == s.currentBet + amount && s'.players[i].currentBet == s'.currentBet
      && s'.minRaise == amount && s'.players[i].chips > 0
  {
  }

  /** `simulateAITurn` for seat i, without its timer: a folded or all-in seat only
      passes the turn; any other seat decides with its hand strength and the
      random draws, and the decision is applied. `next` is the seat the source
      continues with; 0 and -1 hand `s'` to the round-end check instead. Only a
      passed turn records `next` as the current seat: after a decision the
      source stores the state with the seat index it had. */
  method AITurn(s: GameState, i: nat, draws: AIDraws) returns (s': GameState, next: int)
    requires i < |s.players|
    ensures s.players[i].isFolded || s.players[i].isAllIn ==>
      s' == (if next == 0 || next == -1 then s else s.(currentPlayerIndex := next))
    ensures !(s.players[i].isFolded || s.players[i].isAllIn) ==>
      var p := s.players[i];
      var strength := StrengthOf(Classify(p.hand + s.communityCards));
      s' == ApplyAIDecision(s, i, GetAIDecision(p, s.currentBet, s.pot, strength,
                                                s.currentBet - p.currentBet, s.minRaise, s.gamePhase, draws))
    ensures IsNextActive(s'.players, i, next)
    ensures ChipsConserved(s, s')
  {
    var p := s.players[i];
    if p.isFolded || p.isAllIn {
      next := FindNextActivePlayer(s.players, i);
      MoveToPot(s, i, p, 0);
      assert s.(players := s.players[i := p]) == s;
      s' := if next == 0 || next == -1 then s else s.(currentPlayerIndex := next);
      return;
    }
    var strength := CalculateHandStrength(p.hand, s.communityCards);
    var callAmount := s.currentBet - p.currentBet;
    var decision := GetAIDecision(p, s.currentBet, s.pot, strength, callAmount, s.minRaise, s.gamePhase, draws);
    s' := ApplyAIDecision(s, i, decision);
    next := FindNextActivePlayer(s'.players, i);
  }

  // ------------------------------------------------------------------
  // checkRoundEnd
  // ------------------------------------------------------------------

  /** The seats that have not folded, in seat order (`players.filter(p => !p.isFolded)`). */
  function ActiveSeats(ps: seq<Player>): (seats: seq<nat>)
    ensures forall k :: 0 <= k < |seats| ==> seats[k] < |ps| && !ps[seats[k]].isFolded
    ensures forall i :: 0 <= i < |ps| && !ps[i].isFolded ==> i in seats
    ensures forall a, b :: 0 <= a < b < |seats| ==> seats[a] < seats[b]
    decreases |ps|
  {
    if ps == [] then []
    else
      var init := ActiveSeats(ps[..|ps| - 1]);
      if ps[|ps| - 1].isFolded then init else init + [|ps| - 1]
  }

  function SeatsOf(ps: seq<Player>, seats: seq<nat>): (r: seq<Player>)
    requires forall k :: 0 <= k < |seats| ==> seats[k] < |ps|
    ensures |r| == |seats| && forall k :: 0 <= k < |seats| ==> r[k] == ps[seats[k]]
  {
    seq(|seats|, k requires 0 <= k < |seats| => ps[seats[k]])
  }

  /** Every seat still in the hand has matched the table bet or is all in. */
  predicate AllBetsEqual(s: GameState) {
    forall i :: 0 <= i < |s.players| && !s.players[i].isFolded ==>
      s.players[i].currentBet == s.currentBet || s.players[i].isAllIn
  }

  /** Every bet back to 0, stacks untouched (`players.map(p => ({...p, currentBet: 0}))`). */
  function ResetBets(ps: seq<Player>): (r: seq<Player>)
    ensures |r| == |ps| && forall i :: 0 <= i < |ps| ==> r[i] == ps[i].(currentBet := 0)
  {
    seq(|ps|, i requires 0 <= i < |ps| => ps[i].(currentBet := 0))
  }

  lemma {:induction false} ResetBetsKeepsChips(ps: seq<Player>)
    ensures TotalChips(ResetBets(ps)) == TotalChips(ps)
    decreases |ps|
  {
    if ps != [] {
      assert ResetBets(ps)[..|ps| - 1] == ResetBets(ps[..|ps| - 1]);
      ResetBetsKeepsChips(ps[..|ps| - 1]);
    }
  }

  /** The phase after a completed betting round, with the community cards it deals. */
  function NextPhase(p: Phase): Phase {
    match p
    case PreFlop => Flop
    case Flop => Turn
    case Turn => River
    case River => Showdown
    case _ => p
  }

  function CardsDealtEntering(p: Phase): nat {
    match p
    case Flop => 3
    case Turn => 1
    case River => 1
    case _ => 0
  }

  /** The phases only move forward. */
  function PhaseOrder(p: Phase): nat {
    match p
    case Waiting => 0
    case PreFlop => 1
    case Flop => 2
    case Turn => 3
    case River => 4
    case Showdown => 5
  }

  lemma NextPhaseAdvances(p: Phase)
    ensures p in {PreFlop, Flop, Turn, River} ==> PhaseOrder(NextPhase(p)) == PhaseOrder(p) + 1
    ensures !(p in {PreFlop, Flop, Turn, River}) ==> NextPhase(p) == p
  {
  }

  /** The statistics update for a finished hand, as the source calls it: a win by
      'You' with its handLabel, or a loss recording seat 0's fold flag unless the hand
      went to a contested showdown. */
  function HandStats(stats: PlayerStats, s: GameState, winnerName: string, handLabel: string, contested: bool): PlayerStats
    requires |s.players| > 0
  {
    var p0 := s.players[0];
    if winnerName == "You" then UpdateStatsAfterHand(stats, true, false, p0.isAllIn, p0.currentBet, s.pot, handLabel)
    else UpdateStatsAfterHand(stats, false, if contested then false else p0.isFolded, p0.isAllIn, p0.currentBet, s.pot, "")
  }

  /** Seat w collects the pot; the pot itself is left as it is. */
  function Award(s: GameState, w: nat, handLabel: string): (s': GameState)
    requires w < |s.players|
    ensures |s'.players| == |s.players| && s'.players[w].chips == s.players[w].chips + s.pot && s'.pot == s.pot
    ensures TotalChips(s'.players) + s'.pot == TotalChips(s.players) + s.pot + s.pot
  {
    var p := s.players[w].(chips := s.players[w].chips + s.pot);
    TotalChipsUpdate(s.players, w, p);
    WithSeat(s, w, p).(winner := Some(p), winningHand := Some(handLabel))
  }

  /** `checkRoundEnd`, without its timers and sounds: last player standing wins;
      a completed betting round moves to the next phase, dealing the flop, turn
      or river and clearing the bets, or at the river settles the showdown; an
      open round gives the turn back to seat 0. */
  method CheckRoundEnd(s: GameState, stats: PlayerStats) returns (s': GameState, stats': PlayerStats)
    requires |s.players| > 0
    // last player standing
    ensures |ActiveSeats(s.players)| == 1 ==>
      var w := ActiveSeats(s.players)[0];
      var handLabel := Classify(s.players[w].hand + s.communityCards).Label();
      && s' == Award(s, w, handLabel)
      && stats' == HandStats(stats, s, s.players[w].name, handLabel, false)
    // a completed betting round before the river
    ensures |ActiveSeats(s.players)| != 1 && AllBetsEqual(s) && s.gamePhase in {PreFlop, Flop, Turn} ==>
      var k := CardsDealtEntering(NextPhase(s.gamePhase));
      var n := Min(k, |s.deck|);
      && s'.gamePhase == NextPhase(s.gamePhase)
      && s'.deck == s.deck[..|s.deck| - n]
      && |s'.communityCards| == |s.communityCards| + n
      && s'.communityCards[..|s.communityCards|] == s.communityCards
      && multiset(s'.communityCards) + multiset(s'.deck) == multiset(s.communityCards) + multiset(s.deck)
      && s'.players == ResetBets(s.players) && s'.currentBet == 0
      && IsNextActive(s'.players, s.dealerIndex, s'.currentPlayerIndex)
      && s' == s.(deck := s'.deck, communityCards := s'.communityCards, gamePhase := s'.gamePhase,
                  players := s'.players, currentBet := 0, currentPlayerIndex := s'.currentPlayerIndex)
      && stats' == stats
    // the river's completed round: the showdown
    ensures |ActiveSeats(s.players)| != 1 && AllBetsEqual(s) && s.gamePhase == River ==>
      ShowdownSettled(s, stats, s', stats')
    // waiting or showdown: nothing moves
    ensures |ActiveSeats(s.players)| != 1 && AllBetsEqual(s) && s.gamePhase in {Waiting, Showdown} ==>
      s' == s && stats' == stats
    // an open round
    ensures |ActiveSeats(s.players)| != 1 && !AllBetsEqual(s) ==>
      s' == s.(currentPlayerIndex := 0) && stats' == stats
  {
    var seats := ActiveSeats(s.players);
    if |seats| == 1 {
      var w := seats[0];
      var handLabel := EvaluateHand(s.players[w].hand, s.communityCards);
      s' := Award(s, w, handLabel.Label());
      stats' := HandStats(stats, s, s.players[w].name, handLabel.Label(), false);
      return;
    }
    stats' := stats;
    if !AllBetsEqual(s) {
      s' := s.(currentPlayerIndex := 0);
      return;
    }
    match s.gamePhase
    case PreFlop => s' := NextStreet(s, 3, Flop);
    case Flop => s' := NextStreet(s, 1, Turn);
    case Turn => s' := NextStreet(s, 1, River);
    case River => s', stats' := SettleShowdown(s, stats, seats);
    case _ => s' := s;
  }

  /** The showdown after the river: with no seat left the phase alone moves;
      otherwise the best non-folded seat, the lowest among equals, takes the pot. */
  ghost predicate ShowdownSettled(s: GameState, stats: PlayerStats, s': GameState, stats': PlayerStats)
    requires |s.players| > 0
  {
    s'.gamePhase == Showdown &&
    if |ActiveSeats(s.players)| == 0 then s' == s.(gamePhase := Showdown) && stats' == stats
    else
      exists w :: 0 <= w < |s.players| && !s.players[w].isFolded &&
        var handLabel := Classify(s.players[w].hand + s.communityCards).Label();
        && (forall i :: 0 <= i < |s.players| && !s.players[i].isFolded ==>
              Classify(s.players[i].hand + s.communityCards).Value() <= Classify(s.players[w].hand + s.communityCards).Value())
        && (forall i :: 0 <= i < w && !s.players[i].isFolded ==>
              Classify(s.players[i].hand + s.communityCards).Value() < Classify(s.players[w].hand + s.communityCards).Value())
        && s' == Award(s, w, handLabel).(gamePhase := Showdown)
        && stats' == HandStats(stats, s, s.players[w].name, handLabel, true)
  }

  /** The river branch of `checkRoundEnd`. */
  method SettleShowdown(s: GameState, stats: PlayerStats, seats: seq<nat>) returns (s': GameState, stats': PlayerStats)
    requires |s.players| > 0
    requires seats == ActiveSeats(s.players) && |seats| != 1
    ensures ShowdownSettled(s, stats, s', stats')
  {
    stats' := stats;
    if |seats| == 0 {
      s' := s.(gamePhase := Showdown);
    } else {
      var contenders := SeatsOf(s.players, seats);
      var r := CompareHands(contenders, s.communityCards);
      var k := r.value.winner;
      var w := seats[k];
      ShowdownWinner(s, seats, contenders, k, r.value.handRank);
      s' := Award(s, w, r.value.handRank.Label()).(gamePhase := Showdown);
      stats' := HandStats(stats, s, s.players[w].name, r.value.handRank.Label(), true);
    }
  }

  /** The best contender of the filtered list is the best non-folded seat. */
  lemma ShowdownWinner(s: GameState, seats: seq<nat>, contenders: seq<Player>, k: nat, h: HandCategory)
    requires seats == ActiveSeats(s.players) && contenders == SeatsOf(s.players, seats)
    requires k < |contenders| && BestAmong(contenders, s.communityCards, |contenders|, k, h)
    ensures var w := seats[k];
      && w < |s.players| && !s.players[w].isFolded
      && h == Classify(s.players[w].hand + s.communityCards)
      && (forall i :: 0 <= i < |s.players| && !s.players[i].isFolded ==>
            Classify(s.players[i].hand + s.communityCards).Value() <= h.Value())
      && (forall i :: 0 <= i < w && !s.players[i].isFolded ==>
            Classify(s.players[i].hand + s.communityCards).Value() < h.Value())
  {
    var w := seats[k];
    forall i | 0 <= i < |s.players| && !s.players[i].isFolded
      ensures Classify(s.players[i].hand + s.communityCards).Value() <= h.Value()
      ensures i < w ==> Classify(s.players[i].hand + s.communityCards).Value() < h.Value()
    {
      var j :| 0 <= j < |seats| && seats[j] == i;
      assert Contends(contenders, j);
      assert i < w ==> j < k;
    }
  }

  /** Dealing the next street: `count` community cards, the given phase, bets
      cleared and the turn to the first seat clockwise of the dealer. */
  method NextStreet(s: GameState, count: nat, phase: Phase) returns (s': GameState)
    ensures var n := Min(count, |s.deck|);
      && s'.deck == s.deck[..|s.deck| - n]
      && |s'.communityCards| == |s.communityCards| + n
      && s'.communityCards[..|s.communityCards|] == s.communityCards
      && (forall t :: |s.communityCards| <= t < |s'.communityCards| ==>
            s'.communityCards[t] == s.deck[|s.deck| + |s.communityCards| - 1 - t])
      && multiset(s'.communityCards) + multiset(s'.deck) == multiset(s.communityCards) + multiset(s.deck)
    ensures s'.players == ResetBets(s.players) && s'.currentBet == 0 && s'.gamePhase == phase
    ensures IsNextActive(s'.players, s.dealerIndex, s'.currentPlayerIndex)
    ensures s' == s.(deck := s'.deck, communityCards := s'.communityCards, gamePhase := phase,
                     players := s'.players, currentBet := 0, currentPlayerIndex := s'.currentPlayerIndex)
    ensures TotalChips(s'.players) + s'.pot == TotalChips(s.players) + s.pot
  {
    var cc, deck := DealCommunityCards(s.communityCards, s.deck, count);
    var players := ResetBets(s.players);
    ResetBetsKeepsChips(s.players);
    var next := FindNextActivePlayer(players, s.dealerIndex);
    s' := s.(communityCards := cc, deck := deck, gamePhase := phase, players := players,
             currentBet := 0, currentPlayerIndex := next);
  }

  /** The pot is paid to the winner but never cleared, so the chips in circulation
      grow by the pot at every award. */
  lemma AwardCreatesChips(s: GameState, w: nat, handLabel: string)
    requires w < |s.players| && s.pot > 0
    ensures TotalChips(Award(s, w, handLabel).players) + Award(s, w, handLabel).pot > TotalChips(s.players) + s.pot
  {
  }

  // ------------------------------------------------------------------
  // startGame and startNewHand
  // ------------------------------------------------------------------

  /** The seat record kept into the next hand: chips stay, everything else is
      cleared, and a seat without chips sits out. */
  function NewHandSeat(p: Player): Player {
    p.(hand := [], currentBet := 0, isActive := p.chips > 0, isFolded := false, isAllIn := false)
  }

  /** `startNewHand`: a fresh deck from `draws`, the seats cleared for a new hand,
      the dealer button one seat on, and two cards dealt to every seat. */
  method StartNewHand(s: GameState, draws: seq<real>) returns (r: Result<GameState>)
    requires |s.players| > 0
    requires |draws| >= 52 && forall k :: 0 <= k < |draws| ==> IsDraw(draws[k])
    ensures r.Err? <==> 52 < 2 * |s.players|
    ensures r.Ok? ==>
      var s' := r.value;
      && |s'.players| == |s.players|
      && (forall i :: 0 <= i < |s.players| ==>
            && s'.players[i] == NewHandSeat(s.players[i]).(hand := s'.players[i].hand)
            && |s'.players[i].hand| == 2)
      && s'.dealerIndex == (s.dealerIndex + 1) % |s.players|
      && s'.gamePhase == PreFlop
      && s'.pot == 0 && s'.currentBet == 0 && s'.minRaise == 20 && s'.communityCards == []
      && s'.winner == None && s'.winningHand == None && s'.currentPlayerIndex == 0
      && multiset(s'.deck) + HandCards(s'.players) == multiset(CanonicalDeck())
      && TotalChips(s'.players) == TotalChips(s.players)
  {
    var players := seq(|s.players|, i requires 0 <= i < |s.players| => NewHandSeat(s.players[i]));
    var initial := CreateInitialGameState(DefaultPlayerCount, DefaultStartingChips, draws);
    PermutedDeckHasEachCardOnce(initial.deck);
    var dealt := DealCards(players, initial.deck);
    if dealt.Err? {
      return Err(dealt.error);
    }
    NewHandSeatsHoldNoCards(s.players, players);
    NewHandDealt(s.players, players, initial.deck, dealt.value);
    r := Ok(initial.(players := dealt.value.updatedPlayers, deck := dealt.value.updatedDeck,
                     dealerIndex := (s.dealerIndex + 1) % |s.players|, gamePhase := PreFlop));
  }

  /** What dealing does to the cleared seats: each keeps its record and chips and
      holds two cards. */
  lemma NewHandDealt(previous: seq<Player>, players: seq<Player>, deck: seq<Card>, dealt: Dealt)
    requires |players| == |previous| && forall i :: 0 <= i < |previous| ==> players[i] == NewHandSeat(previous[i])
    requires |deck| >= 2 * |players| && |dealt.updatedPlayers| == |players|
    requires forall q :: 0 <= q < |players| && !players[q].isFolded ==>
      dealt.updatedPlayers[q] == players[q].(hand := players[q].hand
        + [DealtCard(players, deck, q, 0), DealtCard(players, deck, q, 1)])
    ensures forall i :: 0 <= i < |previous| ==>
      && dealt.updatedPlayers[i] == NewHandSeat(previous[i]).(hand := dealt.updatedPlayers[i].hand)
      && |dealt.updatedPlayers[i].hand| == 2
    ensures TotalChips(dealt.updatedPlayers) == TotalChips(previous)
  {
    forall i | 0 <= i < |previous|
      ensures dealt.updatedPlayers[i] == NewHandSeat(previous[i]).(hand := dealt.updatedPlayers[i].hand)
      ensures |dealt.updatedPlayers[i].hand| == 2
    {
      assert !players[i].isFolded;
    }
    ChipsAgree(dealt.updatedPlayers, previous);
  }

  lemma {:induction false} HandCardsEmpty(ps: seq<Player>)
    requires forall i :: 0 <= i < |ps| ==> ps[i].hand == []
    ensures HandCards(ps) == multiset{}
    decreases |ps|
  {
    if ps != [] {
      HandCardsEmpty(ps[..|ps| - 1]);
    }
  }

  lemma NewHandSeatsHoldNoCards(previous: seq<Player>, players: seq<Player>)
    requires |players| == |previous| && forall i :: 0 <= i < |previous| ==> players[i] == NewHandSeat(previous[i])
    ensures HandCards(players) == multiset{}
    ensures NonFoldedBefore(players, |players|) == |players|
  {
    HandCardsEmpty(players);
    AllSeatsDealt(players, |players|);
  }

  lemma {:induction false} AllSeatsDealt(ps: seq<Player>, j: nat)
    requires j <= |ps| && forall i :: 0 <= i < |ps| ==> !ps[i].isFolded
    ensures NonFoldedBefore(ps, j) == j
    decreases j
  {
    if j > 0 {
      AllSeatsDealt(ps, j - 1);
    }
  }

  lemma {:induction false} ChipsAgree(a: seq<Player>, b: seq<Player>)
    requires |a| == |b| && forall i :: 0 <= i < |a| ==> a[i].chips == b[i].chips
    ensures TotalChips(a) == TotalChips(b)
    decreases |a|
  {
    if a != [] {
      ChipsAgree(a[..|a| - 1], b[..|b| - 1]);
    }
  }

  /** `startGame`: a fresh table of four seats with 1000 chips, personalities for
      the computer seats, and two cards each. */
  method StartGame(draws: seq<real>) returns (s: GameState)
    requires |draws| >= 52 && forall k :: 0 <= k < |draws| ==> IsDraw(draws[k])
    ensures |s.players| == 4 && s.gamePhase == PreFlop && s.pot == 0 && s.currentBet == 0
    ensures forall i :: 0 <= i < 4 ==> |s.players[i].hand| == 2 && s.players[i].chips == 1000
    ensures s.players[0].name == "You" && s.players[0].ai == None
    ensures forall i :: 1 <= i < 4 ==> s.players[i].ai.Some?
    ensures multiset(s.deck) + HandCards(s.players) == multiset(CanonicalDeck())
    ensures |s.deck| == 44
    ensures s.communityCards == [] && s.currentPlayerIndex == 0 && s.minRaise == 20 && s.dealerIndex == 0
    ensures s.winner == None && s.winningHand == None
    ensures forall i :: 0 <= i < 4 ==>
      s.players[i] == InitializeAIPersonalities(seq(4, (q: nat) => NewPlayer(q, 1000)))[i].(hand := s.players[i].hand)
  {
    var initial := CreateInitialGameState(DefaultPlayerCount, DefaultStartingChips, draws);
    assert initial.players == seq(4, (q: nat) => NewPlayer(q, 1000));
    var players := InitializeAIPersonalities(initial.players);
    SeatNamesDistinct(0, 1);
    SeatNamesDistinct(0, 2);
    SeatNamesDistinct(0, 3);
    var dealt := DealCards(players, initial.deck);
    PermutedDeckHasEachCardOnce(initial.deck);
    assert dealt.Ok?;
    HandCardsEmpty(players);
    AllSeatsDealt(players, 4);
    s := initial.(players := dealt.value.updatedPlayers, deck := dealt.value.updatedDeck, gamePhase := PreFlop);
  }
}
