/** The computer opponents of the poker table (src/utils/aiLogic.ts): a
    personality per seat, a confidence adjusted to the hand strength, and a
    decision tree. Every `Math.random()` the source draws is a parameter. */
module AILogic {
  import opened Common
  import opened PokerUtils

  const PersonalityTable: seq<Personality> := [Aggressive, Conservative, Balanced, Unpredictable]

  /** The bluff factor each personality starts with. */
  function StartingBluff(p: Personality): real {
    match p
    case Unpredictable => 70.0
    case Aggressive => 60.0
    case Conservative => 20.0
    case Balanced => 40.0
  }

  /** `initializeAIPersonalities` for one seat: 'You' is kept as it is, every other
      seat gets the personality its index selects, confidence 50 and the
      personality's bluff factor. */
  function WithPersonality(p: Player, index: nat): Player {
    if p.name == "You" then p
    else
      var personality := PersonalityTable[index % 4];
      p.(ai := Some(AIProfile(personality, 50.0, StartingBluff(personality))))
  }

  function InitializeAIPersonalities(players: seq<Player>): (r: seq<Player>)
    ensures |r| == |players|
    ensures forall i :: 0 <= i < |r| && players[i].name == "You" ==> r[i] == players[i]
    ensures forall i :: 0 <= i < |r| && players[i].name != "You" ==>
      && r[i] == players[i].(ai := r[i].ai)
      && r[i].ai.Some? && r[i].ai.value.confidenceLevel == 50.0
      && (i % 4 == 0 ==> r[i].ai.value.personality == Aggressive && r[i].ai.value.bluffFactor == 60.0)
      && (i % 4 == 1 ==> r[i].ai.value.personality == Conservative && r[i].ai.value.bluffFactor == 20.0)
      && (i % 4 == 2 ==> r[i].ai.value.personality == Balanced && r[i].ai.value.bluffFactor == 40.0)
      && (i % 4 == 3 ==> r[i].ai.value.personality == Unpredictable && r[i].ai.value.bluffFactor == 70.0)
  {
    seq(|players|, i requires 0 <= i < |players| => WithPersonality(players[i], i))
  }

  /** Assigning personalities twice changes nothing more than assigning them once. */
  lemma InitializeIsIdempotent(players: seq<Player>)
    ensures InitializeAIPersonalities(InitializeAIPersonalities(players)) == InitializeAIPersonalities(players)
  {
    var once := InitializeAIPersonalities(players);
    var twice := InitializeAIPersonalities(once);
    forall i | 0 <= i < |players|
      ensures twice[i] == once[i]
    {
      assert once[i].name == players[i].name;
    }
  }

  /** The profile the decision code reads. A seat without one (the human, cast
      to an AI player) has an undefined personality, which takes the default
      branches everywhere, and an undefined bluff factor, which never bluffs:
      exactly a balanced profile with bluff factor 0. */
  function EffectiveProfile(p: Player): AIProfile {
    match p.ai
    case Some(profile) => profile
    case None => AIProfile(Balanced, 50.0, 0.0)
  }

  /** `updateAIConfidence`: the confidence becomes the hand strength, scaled by the
      personality; `coin` is the draw of the unpredictable player. */
  function UpdateAIConfidence(profile: AIProfile, handStrength: real, coin: real): (r: AIProfile)
    ensures r.personality == profile.personality && r.bluffFactor == profile.bluffFactor
    ensures profile.personality == Balanced ==> r.confidenceLevel == handStrength
    ensures profile.personality == Conservative ==> r.confidenceLevel == 0.8 * handStrength
    ensures profile.personality == Aggressive ==>
      r.confidenceLevel <= 100.0 && (handStrength <= 100.0 / 1.2 ==> r.confidenceLevel == 1.2 * handStrength)
    ensures profile.personality == Unpredictable ==> r.confidenceLevel <= 100.0
    ensures profile.personality == Unpredictable && coin > 0.5 ==> r.confidenceLevel == MinReal(100.0, 1.3 * handStrength)
    ensures profile.personality == Unpredictable && coin <= 0.5 ==> r.confidenceLevel == MinReal(100.0, 0.7 * handStrength)
  {
    var confidence :=
      match profile.personality
      case Aggressive => MinReal(100.0, handStrength * 1.2)
      case Conservative => handStrength * 0.8
      case Unpredictable => MinReal(100.0, handStrength * (if coin > 0.5 then 1.3 else 0.7))
      case Balanced => handStrength;
    profile.(confidenceLevel := confidence)
  }

  /** A strength in [0, 100] gives a confidence in [0, 100] for every personality,
      and a stronger hand never lowers the confidence. */
  lemma ConfidenceStaysInRange(profile: AIProfile, h1: real, h2: real, coin: real)
    requires 0.0 <= h1 <= h2 <= 100.0
    ensures 0.0 <= UpdateAIConfidence(profile, h1, coin).confidenceLevel <= 100.0
    ensures UpdateAIConfidence(profile, h1, coin).confidenceLevel <= UpdateAIConfidence(profile, h2, coin).confidenceLevel
  {
  }

  /** The one decision the model returns; `Raise` always carries its amount. */
  datatype AIDecision = Fold | Check | Call | Raise(amount: int) | AllIn

  /** The four `Math.random()` draws `getAIDecision` may consume: the unpredictable
      coin, the bluff roll, the bet size jitter and the 30% all-in roll. */
  datatype AIDraws = AIDraws(coin: real, bluff: real, jitter: real, allIn: real)

  predicate ValidDraws(d: AIDraws) {
    IsDraw(d.coin) && IsDraw(d.bluff) && IsDraw(d.jitter) && IsDraw(d.allIn)
  }

  /** `Math.random() * 100 < bluffFactor`. */
  predicate IsBluffing(profile: AIProfile, bluffDraw: real) {
    bluffDraw * 100.0 < profile.bluffFactor
  }

  /** The decision factor: the confidence, or for a bluff the inverted confidence
      plus the bluff factor, capped at 100, and at 70 before the flop. */
  function DecisionFactor(profile: AIProfile, handStrength: real, gamePhase: Phase, draws: AIDraws): (f: real)
    ensures !IsBluffing(profile, draws.bluff) ==> f == UpdateAIConfidence(profile, handStrength, draws.coin).confidenceLevel
    ensures IsBluffing(profile, draws.bluff) ==>
      var bluff := MinReal(100.0, 100.0 - UpdateAIConfidence(profile, handStrength, draws.coin).confidenceLevel + profile.bluffFactor);
      f == (if gamePhase == PreFlop then MinReal(bluff, 70.0) else bluff)
    ensures IsBluffing(profile, draws.bluff) ==> f <= 100.0 && (gamePhase == PreFlop ==> f <= 70.0)
  {
    var updated := UpdateAIConfidence(profile, handStrength, draws.coin);
    var factor :=
      if IsBluffing(profile, draws.bluff) then MinReal(100.0, 100.0 - updated.confidenceLevel + profile.bluffFactor)
      else updated.confidenceLevel;
    if IsBluffing(profile, draws.bluff) && gamePhase == PreFlop then MinReal(factor, 70.0) else factor
  }

  /** `handStrength / 100 > callAmount / (potSize + callAmount)` with JavaScript's
      division by zero: 0/0 is NaN and a non-zero numerator gives an infinity of
      its own sign, and only -Infinity is beaten. */
  predicate ValueProposition(handStrength: real, potSize: int, callAmount: int) {
    if potSize + callAmount == 0 then callAmount < 0
    else handStrength / 100.0 > callAmount as real / (potSize + callAmount) as real
  }

  /** Below this decision factor a short-stacked AI folds instead of going all in. */
  function AllInThreshold(p: Personality): real {
    match p
    case Aggressive => 40.0
    case Conservative => 70.0
    case _ => 55.0
  }

  function RaiseMultiplier(p: Personality): real {
    match p
    case Aggressive => 2.5
    case Conservative => 1.5
    case _ => 2.0
  }

  /** `getAIDecision`. */
  function GetAIDecision(player: Player, currentBet: int, potSize: int, handStrength: real,
                         callAmount: int, minRaise: int, gamePhase: Phase, draws: AIDraws): (d: AIDecision)
    // the short stack chooses only between all in and fold
    ensures callAmount >= player.chips ==>
      (d == AllIn <==> DecisionFactor(EffectiveProfile(player), handStrength, gamePhase, draws)
                         > AllInThreshold(EffectiveProfile(player).personality) || handStrength > 80.0)
      && (d == AllIn || d == Fold)
    // little confidence: never calls nor raises
    ensures callAmount < player.chips && DecisionFactor(EffectiveProfile(player), handStrength, gamePhase, draws) < 30.0 ==>
      d == (if currentBet == 0 then Check else Fold)
    // moderate confidence: checks, or calls only with value
    ensures callAmount < player.chips && 30.0 <= DecisionFactor(EffectiveProfile(player), handStrength, gamePhase, draws) < 50.0 ==>
      d == (if currentBet == 0 then Check else if ValueProposition(handStrength, potSize, callAmount) then Call else Fold)
    // good confidence: an opening bet of at least the minimum raise
    ensures callAmount < player.chips && 50.0 <= DecisionFactor(EffectiveProfile(player), handStrength, gamePhase, draws) < 75.0 ==>
      if currentBet == 0 then d.Raise? && d.amount >= minRaise
      else d == (if ValueProposition(handStrength, potSize, callAmount) then Call else Fold)
    // high confidence: all in, or a raise the stack covers
    ensures callAmount < player.chips && DecisionFactor(EffectiveProfile(player), handStrength, gamePhase, draws) >= 75.0 ==>
      d == AllIn || (d.Raise? && d.amount <= player.chips)
    ensures d == AllIn && callAmount < player.chips ==>
      handStrength > 85.0 && EffectiveProfile(player).personality == Aggressive && draws.allIn > 0.7
  {
    var profile := EffectiveProfile(player);
    var personality := profile.personality;
    var chips := player.chips;
    var factor := DecisionFactor(profile, handStrength, gamePhase, draws);
    var value := ValueProposition(handStrength, potSize, callAmount);
    if callAmount >= chips then
      if factor > AllInThreshold(personality) || handStrength > 80.0 then AllIn else Fold
    else if factor < 30.0 then
      if currentBet == 0 then Check else Fold
    else if factor < 50.0 then
      if currentBet == 0 then Check else if value then Call else Fold
    else if factor < 75.0 then
      if currentBet == 0 then
        var betAmount := Min((potSize as real * 0.5 + draws.jitter * potSize as real * 0.3).Floor, chips);
        Raise(Max(minRaise, betAmount))
      else if value then Call else Fold
    else if handStrength > 85.0 && personality == Aggressive then
      if draws.allIn > 0.7 then AllIn else Raise(Min(chips, minRaise * 3))
    else
      Raise(Min((minRaise as real * RaiseMultiplier(personality)).Floor, chips))
  }

  /** Once the AI can afford the call, every raise it names is non-negative when the
      stack and the minimum raise are. */
  lemma RaiseAmountsAreNonNegative(player: Player, currentBet: int, potSize: int, handStrength: real,
                                   callAmount: int, minRaise: int, gamePhase: Phase, draws: AIDraws)
    requires ValidDraws(draws) && player.chips >= 0 && minRaise >= 0 && potSize >= 0
    ensures var d := GetAIDecision(player, currentBet, potSize, handStrength, callAmount, minRaise, gamePhase, draws);
      d.Raise? ==> d.amount >= 0
  {
    var d := GetAIDecision(player, currentBet, potSize, handStrength, callAmount, minRaise, gamePhase, draws);
    var m := RaiseMultiplier(EffectiveProfile(player).personality);
    assert minRaise as real * m >= 0.0;
    assert potSize as real * 0.5 + draws.jitter * potSize as real * 0.3 >= 0.0;
  }
}
