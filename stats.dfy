/** The human player's running statistics (src/services/statsService.ts): one
    pure update per finished hand, and the win rate. */
module Stats {

  datatype PlayerStats = PlayerStats(
    handsPlayed: nat,
    handsWon: int,
    totalBetAmount: int,
    biggestPot: int,
    foldPercentage: real,
    allInCount: int,
    currentStreak: int,
    bestHand: string)

  const DefaultStats := PlayerStats(0, 0, 0, 0, 0.0, 0, 0, "")

  /** The hands that replace any best hand already recorded. */
  const TopHands: seq<string> := ["Royal Flush", "Straight Flush", "Four of a Kind"]

  /** A record the update has produced from the defaults: counts are consistent. */
  predicate ValidStats(s: PlayerStats) {
    && 0 <= s.handsWon <= s.handsPlayed
    && 0 <= s.allInCount <= s.handsPlayed
    && 0.0 <= s.foldPercentage <= 100.0
  }

  /** `winningHand` as the optional last argument: absent and '' are both falsy. */
  function NewBestHand(recorded: string, didWin: bool, winningHand: string): (b: string)
    ensures b == recorded || (didWin && b == winningHand && winningHand != "")
    ensures didWin && winningHand != "" && recorded == "" ==> b == winningHand
    ensures !didWin || winningHand == "" ==> b == recorded
    ensures didWin && winningHand in TopHands ==> b == winningHand
    ensures recorded != "" && winningHand !in TopHands ==> b == recorded
  {
    if didWin && winningHand != "" && (recorded == "" || winningHand in TopHands) then winningHand else recorded
  }

  function NextStreak(streak: int, didWin: bool): (n: int)
    ensures didWin ==> n > 0 && n == (if streak > 0 then streak + 1 else 1)
    ensures !didWin ==> n < 0 && n == (if streak < 0 then streak - 1 else -1)
  {
    if didWin then (if streak > 0 then streak + 1 else 1)
    else (if streak < 0 then streak - 1 else -1)
  }

  /** `updateStatsAfterHand`; an absent `winningHand` is passed as "". */
  function UpdateStatsAfterHand(stats: PlayerStats, didWin: bool, didFold: bool, didAllIn: bool,
                                betAmount: int, potSize: int, winningHand: string): (r: PlayerStats)
    ensures r.handsPlayed == stats.handsPlayed + 1
    ensures r.totalBetAmount == stats.totalBetAmount + betAmount
    ensures r.handsWon == stats.handsWon + (if didWin then 1 else 0)
    ensures r.allInCount == stats.allInCount + (if didAllIn then 1 else 0)
    ensures r.biggestPot >= stats.biggestPot && r.biggestPot >= potSize
    ensures r.biggestPot == stats.biggestPot || r.biggestPot == potSize
    ensures didWin ==> r.currentStreak == (if stats.currentStreak > 0 then stats.currentStreak + 1 else 1)
    ensures !didWin ==> r.currentStreak == (if stats.currentStreak < 0 then stats.currentStreak - 1 else -1)
    ensures r.bestHand == NewBestHand(stats.bestHand, didWin, winningHand)
    ensures r.foldPercentage * r.handsPlayed as real
            == stats.foldPercentage * stats.handsPlayed as real + (if didFold then 100.0 else 0.0)
  {
    var played := stats.handsPlayed + 1;
    var previousFolds := stats.foldPercentage * (played - 1) as real / 100.0;
    var totalFolds := if didFold then previousFolds + 1.0 else previousFolds;
    stats.(
      handsPlayed := played,
      totalBetAmount := stats.totalBetAmount + betAmount,
      handsWon := if didWin then stats.handsWon + 1 else stats.handsWon,
      currentStreak := NextStreak(stats.currentStreak, didWin),
      bestHand := NewBestHand(stats.bestHand, didWin, winningHand),
      foldPercentage := totalFolds / played as real * 100.0,
      allInCount := if didAllIn then stats.allInCount + 1 else stats.allInCount,
      biggestPot := if potSize > stats.biggestPot then potSize else stats.biggestPot)
  }

  /** In exact arithmetic the fold percentage is the share of folded hands:
      folds out of n hands become folds + [didFold] out of n + 1. */
  lemma FoldPercentageCountsFolds(stats: PlayerStats, folds: nat, didWin: bool, didFold: bool, didAllIn: bool,
                                  betAmount: int, potSize: int, winningHand: string)
    requires stats.foldPercentage * stats.handsPlayed as real == folds as real * 100.0
    ensures var r := UpdateStatsAfterHand(stats, didWin, didFold, didAllIn, betAmount, potSize, winningHand);
      r.foldPercentage == (folds + (if didFold then 1 else 0)) as real / r.handsPlayed as real * 100.0
  {
    var r := UpdateStatsAfterHand(stats, didWin, didFold, didAllIn, betAmount, potSize, winningHand);
    var n := r.handsPlayed as real;
    var f := (folds + (if didFold then 1 else 0)) as real;
    assert r.foldPercentage * n == f * 100.0;
    assert n > 0.0;
  }

  /** The update keeps a consistent record consistent. */
  lemma UpdateKeepsStatsValid(stats: PlayerStats, didWin: bool, didFold: bool, didAllIn: bool,
                              betAmount: int, potSize: int, winningHand: string)
    requires ValidStats(stats)
    ensures ValidStats(UpdateStatsAfterHand(stats, didWin, didFold, didAllIn, betAmount, potSize, winningHand))
  {
    var r := UpdateStatsAfterHand(stats, didWin, didFold, didAllIn, betAmount, potSize, winningHand);
    FoldShareBound(stats.foldPercentage, r.foldPercentage, stats.handsPlayed as real, if didFold then 100.0 else 0.0);
  }

  /** A weighted average of a percentage and 0 or 100 is a percentage. */
  lemma FoldShareBound(p: real, q: real, m: real, k: real)
    requires 0.0 <= p <= 100.0 && m >= 0.0 && 0.0 <= k <= 100.0
    requires q * (m + 1.0) == p * m + k
    ensures 0.0 <= q <= 100.0
  {
    PercentageTimesCount(p, m);
    PercentageFromProduct(q, m + 1.0);
  }

  lemma PercentageTimesCount(p: real, n: real)
    requires 0.0 <= p <= 100.0 && n >= 0.0
    ensures 0.0 <= p * n <= 100.0 * n
  {
  }

  lemma PercentageFromProduct(p: real, n: real)
    requires n > 0.0 && 0.0 <= p * n <= 100.0 * n
    ensures 0.0 <= p <= 100.0
  {
    assert p < 0.0 ==> p * n < 0.0;
    assert p > 100.0 ==> p * n > 100.0 * n;
  }

  /** `getWinRate`: won hands as a percentage of played hands, 0 before the first. */
  function GetWinRate(stats: PlayerStats): (rate: real)
    ensures stats.handsPlayed == 0 ==> rate == 0.0
    ensures stats.handsPlayed != 0 ==> rate * stats.handsPlayed as real == stats.handsWon as real * 100.0
  {
    if stats.handsPlayed == 0 then 0.0 else stats.handsWon as real / stats.handsPlayed as real * 100.0
  }

  lemma WinRateIsPercentage(stats: PlayerStats)
    requires ValidStats(stats)
    ensures 0.0 <= GetWinRate(stats) <= 100.0
  {
    if stats.handsPlayed != 0 {
      var rate := GetWinRate(stats);
      var n := stats.handsPlayed as real;
      assert rate * n <= 100.0 * n;
      assert rate * n >= 0.0;
    }
  }
}
