/** The Texas Hold'em engine of `src/utils/pokerUtils.ts`: the deck, dealing,
    the ten-category hand classifier, showdown comparison and turn order. */
module PokerUtils {
  import opened Common

  datatype Suit = Hearts | Diamonds | Clubs | Spades

  /** The ranks, in the order the deck is built (Ace first, King last). */
  datatype Rank = Ace | Two | Three | Four | Five | Six | Seven | Eight | Nine | Ten | Jack | Queen | King

  datatype Card = Card(suit: Suit, rank: Rank)

  /** The extra fields of an AI opponent (the `AIPlayer` interface). */
  datatype Personality = Aggressive | Conservative | Balanced | Unpredictable
  datatype AIProfile = AIProfile(personality: Personality, confidenceLevel: real, bluffFactor: real)

  /** A seat at the table; `ai` is `None` for a player without AI fields (the human). */
  datatype Player = Player(
    id: int, name: string, hand: seq<Card>, chips: int, currentBet: int,
    isActive: bool, isFolded: bool, isAllIn: bool, ai: Option<AIProfile>)

  datatype Phase = Waiting | PreFlop | Flop | Turn | River | Showdown

  datatype GameState = GameState(
    deck: seq<Card>, communityCards: seq<Card>, players: seq<Player>,
    currentPlayerIndex: int, pot: int, currentBet: int, minRaise: int,
    dealerIndex: nat, gamePhase: Phase, winner: Option<Player>, winningHand: Option<string>)

  // ------------------------------------------------------------------
  // The deck
  // ------------------------------------------------------------------

  const Suits: seq<Suit> := [Hearts, Diamonds, Clubs, Spades]
  const Ranks: seq<Rank> := [Ace, Two, Three, Four, Five, Six, Seven, Eight, Nine, Ten, Jack, Queen, King]

  function SuitIndex(s: Suit): (i: nat)
    ensures i < 4 && Suits[i] == s
  {
    match s
    case Hearts => 0
    case Diamonds => 1
    case Clubs => 2
    case Spades => 3
  }

  function RankIndex(r: Rank): (i: nat)
    ensures i < 13 && Ranks[i] == r
  {
    match r
    case Ace => 0 case Two => 1 case Three => 2 case Four => 3 case Five => 4
    case Six => 5 case Seven => 6 case Eight => 7 case Nine => 8 case Ten => 9
    case Jack => 10 case Queen => 11 case King => 12
  }

  /** The card at position i of a freshly built deck: suits outer, ranks inner. */
  function DeckCard(i: nat): Card
    requires i < 52
  {
    Card(Suits[i / 13], Ranks[i % 13])
  }

  ghost function CanonicalDeck(): (d: seq<Card>)
    ensures |d| == 52
  {
    seq(52, i requires 0 <= i < 52 => DeckCard(i))
  }

  /** Builds the 52-card deck with two nested loops, suit by suit. */
  method CreateDeck() returns (deck: seq<Card>)
    ensures deck == CanonicalDeck()
    ensures |deck| == 52
    ensures forall c: Card :: multiset(deck)[c] == 1
  {
    deck := [];
    for s := 0 to |Suits|
      invariant deck == CanonicalDeck()[..13 * s]
    {
      for r := 0 to |Ranks|
        invariant deck == CanonicalDeck()[..13 * s + r]
      {
        DeckCardAt(s, r);
        deck := deck + [Card(Suits[s], Ranks[r])];
      }
    }
    CanonicalDeckHasEachCardOnce();
  }

  /** Every (suit, rank) pair occurs in the fresh deck exactly once. */
  lemma CanonicalDeckHasEachCardOnce()
    ensures forall c: Card :: multiset(CanonicalDeck())[c] == 1
  {
    var d := CanonicalDeck();
    forall i, j | 0 <= i < j < |d|
      ensures d[i] != d[j]
    {
      DeckCardIndices(i);
      DeckCardIndices(j);
      assert i == 13 * (i / 13) + i % 13 && j == 13 * (j / 13) + j % 13;
    }
    forall c: Card
      ensures multiset(d)[c] == 1
    {
      var i := 13 * SuitIndex(c.suit) + RankIndex(c.rank);
      ModUnique(i, 13, SuitIndex(c.suit), RankIndex(c.rank));
      assert d[i] == c;
      DistinctCount(d, i);
    }
  }

  /** Position 13 * s + r of the fresh deck holds suit s and rank r. */
  lemma DeckCardAt(s: nat, r: nat)
    requires s < 4 && r < 13
    ensures CanonicalDeck()[..13 * s + r] + [Card(Suits[s], Ranks[r])] == CanonicalDeck()[..13 * s + r + 1]
  {
    ModUnique(13 * s + r, 13, s, r);
    assert CanonicalDeck()[13 * s + r] == Card(Suits[s], Ranks[r]);
  }

  lemma DeckCardIndices(i: nat)
    requires i < 52
    ensures SuitIndex(DeckCard(i).suit) == i / 13 && RankIndex(DeckCard(i).rank) == i % 13
  {
  }

  /** In a sequence without repetitions, an element that occurs occurs once. */
  lemma {:induction false} DistinctCount<T>(s: seq<T>, i: nat)
    requires forall a, b :: 0 <= a < b < |s| ==> s[a] != s[b]
    requires i < |s|
    ensures multiset(s)[s[i]] == 1
    decreases |s|
  {
    var last := |s| - 1;
    assert s == s[..last] + [s[last]];
    if i == last {
      assert s[last] !in s[..last];
      assert multiset(s[..last])[s[last]] == 0;
    } else {
      DistinctCount(s[..last], i);
    }
  }

  /** Fisher–Yates: for i from the last position down to 1, swap position i
      with position floor(draws[i] * (i + 1)). The input is left untouched. */
  method ShuffleDeck(deck: seq<Card>, draws: seq<real>) returns (shuffled: seq<Card>)
    requires |draws| >= |deck|
    requires forall k :: 0 <= k < |draws| ==> IsDraw(draws[k])
    ensures |shuffled| == |deck|
    ensures multiset(shuffled) == multiset(deck)
  {
    var a := new Card[|deck|](k requires 0 <= k < |deck| => deck[k]);
    assert a[..] == deck;
    var i := a.Length - 1;
    while i > 0
      invariant -1 <= i < a.Length
      invariant multiset(a[..]) == multiset(deck)
    {
      var j := Pick(draws[i], i + 1);
      assert 0 <= j <= i;
      a[i], a[j] := a[j], a[i];
      i := i - 1;
    }
    shuffled := a[..];
  }

  /** A shuffled fresh deck still holds 52 cards, every card exactly once. */
  lemma PermutedDeckHasEachCardOnce(d: seq<Card>)
    requires multiset(d) == multiset(CanonicalDeck())
    ensures |d| == 52
    ensures forall c: Card :: c in d && multiset(d)[c] == 1
  {
    CanonicalDeckHasEachCardOnce();
    assert |d| == |multiset(d)| == 52;
    forall c: Card
      ensures c in d && multiset(d)[c] == 1
    {
      assert c in multiset(d);
    }
  }

  // ------------------------------------------------------------------
  // Dealing
  // ------------------------------------------------------------------

  /** The cards held in all hands together. */
  function HandCards(ps: seq<Player>): multiset<Card> {
    if ps == [] then multiset{} else HandCards(ps[..|ps| - 1]) + multiset(ps[|ps| - 1].hand)
  }

  /** Giving seat j one more card adds exactly that card to the cards in hands. */
  lemma {:induction false} HandCardsAppend(ps: seq<Player>, j: nat, card: Card)
    requires j < |ps|
    ensures HandCards(ps[j := ps[j].(hand := ps[j].hand + [card])]) == HandCards(ps) + multiset{card}
    decreases |ps|
  {
    var last := |ps| - 1;
    var p := ps[j].(hand := ps[j].hand + [card]);
    var qs := ps[j := p];
    assert HandCards(qs) == HandCards(qs[..last]) + multiset(qs[last].hand);
    assert HandCards(ps) == HandCards(ps[..last]) + multiset(ps[last].hand);
    if j == last {
      assert qs[..last] == ps[..last];
      assert multiset(qs[last].hand) == multiset(ps[last].hand) + multiset{card};
    } else {
      assert qs[..last] == ps[..last][j := p];
      assert qs[last] == ps[last] && ps[..last][j] == ps[j];
      HandCardsAppend(ps[..last], j, card);
    }
  }

  /** Number of non-folded players among the first j seats. */
  function NonFoldedBefore(ps: seq<Player>, j: nat): (k: nat)
    requires j <= |ps|
    ensures k <= j
  {
    if j == 0 then 0 else NonFoldedBefore(ps, j - 1) + (if ps[j - 1].isFolded then 0 else 1)
  }

  lemma {:induction false} NonFoldedBeforeMonotone(ps: seq<Player>, a: nat, b: nat)
    requires a <= b <= |ps|
    ensures NonFoldedBefore(ps, a) <= NonFoldedBefore(ps, b)
    decreases b - a
  {
    if a < b {
      NonFoldedBeforeMonotone(ps, a, b - 1);
    }
  }

  /** The card non-folded seat q receives in round t (0 or 1): cards are popped
      from the end of the deck, one per non-folded seat in seat order, so it is
      the card t * m + k places from the end, where m is the number of
      non-folded seats and k the number of non-folded seats before q. */
  function DealtCard(players: seq<Player>, deck: seq<Card>, q: nat, t: nat): Card
    requires q < |players| && t < 2 && |deck| >= 2 * |players| && !players[q].isFolded
  {
    var m := NonFoldedBefore(players, |players|);
    var k := NonFoldedBefore(players, q);
    NonFoldedBeforeMonotone(players, q + 1, |players|);
    deck[|deck| - 1 - (if t == 0 then k else m + k)]
  }

  /** Seat q after `rounds` rounds of dealing. */
  function DealtPlayer(players: seq<Player>, deck: seq<Card>, q: nat, rounds: nat): (p: Player)
    requires q < |players| && rounds <= 2 && |deck| >= 2 * |players|
    ensures p == players[q].(hand := p.hand)
  {
    var p := players[q];
    if p.isFolded || rounds == 0 then p
    else
      var before := DealtPlayer(players, deck, q, rounds - 1);
      before.(hand := before.hand + [DealtCard(players, deck, q, rounds - 1)])
  }

  /** Cards popped after `rounds` complete rounds with m non-folded seats. */
  function Taken(rounds: nat, m: nat): nat {
    if rounds == 0 then 0 else if rounds == 1 then m else 2 * m
  }

  datatype Dealt = Dealt(updatedPlayers: seq<Player>, updatedDeck: seq<Card>)

  /** Two rounds of one card per non-folded seat, popped from the end of the deck.
      Fails when the deck holds fewer than two cards per seat (folded seats included). */
  method DealCards(players: seq<Player>, deck: seq<Card>) returns (r: Result<Dealt>)
    ensures r.Err? <==> |deck| < 2 * |players|
    ensures r.Ok? ==>
      && |r.value.updatedPlayers| == |players|
      && (forall q :: 0 <= q < |players| && players[q].isFolded ==> r.value.updatedPlayers[q] == players[q])
      && (forall q :: 0 <= q < |players| && !players[q].isFolded ==>
            r.value.updatedPlayers[q] == players[q].(hand := players[q].hand
              + [DealtCard(players, deck, q, 0), DealtCard(players, deck, q, 1)]))
      && r.value.updatedDeck == deck[..|deck| - 2 * NonFoldedBefore(players, |players|)]
      && multiset(r.value.updatedDeck) + HandCards(r.value.updatedPlayers) == multiset(deck) + HandCards(players)
  {
    if |deck| < |players| * 2 {
      return Err("Not enough cards in deck to deal to all players");
    }
    var ps := players;
    var d := deck;
    for i := 0 to 2
      invariant |ps| == |players|
      invariant d == deck[..|deck| - Taken(i, NonFoldedBefore(players, |players|))]
      invariant forall q :: 0 <= q < |ps| ==> ps[q] == DealtPlayer(players, deck, q, i)
      invariant multiset(d) + HandCards(ps) == multiset(deck) + HandCards(players)
    {
      ps, d := DealRound(players, deck, i, ps, d);
    }
    return Ok(Dealt(ps, d));
  }

  /** One pass over the seats, giving each non-folded seat the card at the end of the deck. */
  method DealRound(players: seq<Player>, deck: seq<Card>, i: nat, ps: seq<Player>, d: seq<Card>)
    returns (ps': seq<Player>, d': seq<Card>)
    requires i < 2 && |deck| >= 2 * |players| && |ps| == |players|
    requires d == deck[..|deck| - Taken(i, NonFoldedBefore(players, |players|))]
    requires forall q :: 0 <= q < |ps| ==> ps[q] == DealtPlayer(players, deck, q, i)
    ensures |ps'| == |players|
    ensures d' == deck[..|deck| - Taken(i + 1, NonFoldedBefore(players, |players|))]
    ensures forall q :: 0 <= q < |ps'| ==> ps'[q] == DealtPlayer(players, deck, q, i + 1)
    ensures multiset(d') + HandCards(ps') == multiset(d) + HandCards(ps)
  {
    ps' := ps;
    d' := d;
    for j := 0 to |ps'|
      invariant RoundInvariant(players, deck, i, j, ps, d, ps', d')
    {
      if !ps'[j].isFolded {
        // the deck still holds a card here, so the source's empty-deck throw cannot fire
        DealOne(players, deck, i, j, ps, d, ps', d');
        var card := d'[|d'| - 1];
        d' := d'[..|d'| - 1];
        ps' := ps'[j := ps'[j].(hand := ps'[j].hand + [card])];
      } else {
        SkipFolded(players, deck, i, j, ps, d, ps', d');
      }
    }
    RoundDone(players, deck, i, ps, d, ps', d');
  }

  /** After the last seat the round has dealt one card to every contender. */
  lemma RoundDone(players: seq<Player>, deck: seq<Card>, i: nat, ps: seq<Player>, d: seq<Card>, ps': seq<Player>, d': seq<Card>)
    requires i < 2 && |deck| >= 2 * |players|
    requires RoundInvariant(players, deck, i, |players|, ps, d, ps', d')
    ensures d' == deck[..|deck| - Taken(i + 1, NonFoldedBefore(players, |players|))]
    ensures forall q :: 0 <= q < |ps'| ==> ps'[q] == DealtPlayer(players, deck, q, i + 1)
  {
  }

  /** The state of a dealing round after the first j seats. */
  ghost predicate RoundInvariant(players: seq<Player>, deck: seq<Card>, i: nat, j: nat,
                                 ps: seq<Player>, d: seq<Card>, ps': seq<Player>, d': seq<Card>)
    requires i < 2 && |deck| >= 2 * |players| && j <= |players|
  {
    && |ps'| == |players|
    && d' == deck[..|deck| - Taken(i, NonFoldedBefore(players, |players|)) - NonFoldedBefore(players, j)]
    && (forall q :: 0 <= q < j ==> ps'[q] == DealtPlayer(players, deck, q, i + 1))
    && (forall q :: j <= q < |ps'| ==> ps'[q] == DealtPlayer(players, deck, q, i))
    && multiset(d') + HandCards(ps') == multiset(d) + HandCards(ps)
  }

  lemma SkipFolded(players: seq<Player>, deck: seq<Card>, i: nat, j: nat,
                   ps: seq<Player>, d: seq<Card>, ps': seq<Player>, d': seq<Card>)
    requires i < 2 && |deck| >= 2 * |players| && j < |players|
    requires RoundInvariant(players, deck, i, j, ps, d, ps', d')
    requires ps'[j].isFolded
    ensures RoundInvariant(players, deck, i, j + 1, ps, d, ps', d')
  {
    assert players[j].isFolded;
    assert NonFoldedBefore(players, j + 1) == NonFoldedBefore(players, j);
  }

  lemma DealOne(players: seq<Player>, deck: seq<Card>, i: nat, j: nat,
                ps: seq<Player>, d: seq<Card>, ps': seq<Player>, d': seq<Card>)
    requires i < 2 && |deck| >= 2 * |players| && j < |players|
    requires RoundInvariant(players, deck, i, j, ps, d, ps', d')
    requires !ps'[j].isFolded
    ensures |d'| > 0
    ensures var card := d'[|d'| - 1];
      RoundInvariant(players, deck, i, j + 1, ps, d, ps'[j := ps'[j].(hand := ps'[j].hand + [card])], d'[..|d'| - 1])
  {
    DealOneCard(players, deck, i, j, d');
    var card := d'[|d'| - 1];
    var ps'' := ps'[j := ps'[j].(hand := ps'[j].hand + [card])];
    var d'' := d'[..|d'| - 1];
    DealOneSeat(players, deck, i, j, ps', card);
    MoveOneCard(ps', d', j);
  }

  /** Moving the top card of the deck into seat j keeps the cards in play. */
  lemma MoveOneCard(ps': seq<Player>, d': seq<Card>, j: nat)
    requires j < |ps'| && |d'| > 0
    ensures var card := d'[|d'| - 1];
      multiset(d'[..|d'| - 1]) + HandCards(ps'[j := ps'[j].(hand := ps'[j].hand + [card])]) == multiset(d') + HandCards(ps')
  {
    var card := d'[|d'| - 1];
    var d'' := d'[..|d'| - 1];
    assert d' == d'' + [card];
    assert multiset(d') == multiset(d'') + multiset{card};
    HandCardsAppend(ps', j, card);
  }

  /** The card on top of the remaining deck is the one seat j gets in round i. */
  lemma DealOneCard(players: seq<Player>, deck: seq<Card>, i: nat, j: nat, d': seq<Card>)
    requires i < 2 && |deck| >= 2 * |players| && j < |players| && !players[j].isFolded
    requires d' == deck[..|deck| - Taken(i, NonFoldedBefore(players, |players|)) - NonFoldedBefore(players, j)]
    ensures |d'| > 0 && d'[|d'| - 1] == DealtCard(players, deck, j, i)
    ensures d'[..|d'| - 1] == deck[..|deck| - Taken(i, NonFoldedBefore(players, |players|)) - NonFoldedBefore(players, j + 1)]
  {
    NonFoldedBeforeMonotone(players, j + 1, |players|);
    assert NonFoldedBefore(players, j + 1) == NonFoldedBefore(players, j) + 1;
  }

  /** Seat j takes its round-i card; the other seats are as they were. */
  lemma DealOneSeat(players: seq<Player>, deck: seq<Card>, i: nat, j: nat, ps': seq<Player>, card: Card)
    requires i < 2 && |deck| >= 2 * |players| && j < |players| && |ps'| == |players| && !players[j].isFolded
    requires card == DealtCard(players, deck, j, i)
    requires forall q :: 0 <= q < j ==> ps'[q] == DealtPlayer(players, deck, q, i + 1)
    requires forall q :: j <= q < |ps'| ==> ps'[q] == DealtPlayer(players, deck, q, i)
    ensures var ps'' := ps'[j := ps'[j].(hand := ps'[j].hand + [card])];
      && (forall q :: 0 <= q < j + 1 ==> ps''[q] == DealtPlayer(players, deck, q, i + 1))
      && (forall q :: j + 1 <= q < |ps''| ==> ps''[q] == DealtPlayer(players, deck, q, i))
  {
    assert ps'[j] == DealtPlayer(players, deck, j, i);
  }

  /** Pops up to `count` cards from the end of the deck onto the board. */
  method DealCommunityCards(communityCards: seq<Card>, deck: seq<Card>, count: int)
    returns (updatedCommunityCards: seq<Card>, updatedDeck: seq<Card>)
    ensures var k := if count <= 0 then 0 else Min(count, |deck|);
      && updatedDeck == deck[..|deck| - k]
      && |updatedCommunityCards| == |communityCards| + k
      && updatedCommunityCards[..|communityCards|] == communityCards
      && (forall t :: |communityCards| <= t < |updatedCommunityCards| ==>
             updatedCommunityCards[t] == deck[|deck| + |communityCards| - 1 - t])
    ensures multiset(updatedCommunityCards) + multiset(updatedDeck) == multiset(communityCards) + multiset(deck)
  {
    updatedCommunityCards := communityCards;
    updatedDeck := deck;
    var i := 0;
    while i < count
      invariant 0 <= i <= Max(count, 0)
      invariant var k := Min(i, |deck|);
        && updatedDeck == deck[..|deck| - k]
        && |updatedCommunityCards| == |communityCards| + k
        && updatedCommunityCards[..|communityCards|] == communityCards
        && (forall t :: |communityCards| <= t < |updatedCommunityCards| ==>
             updatedCommunityCards[t] == deck[|deck| + |communityCards| - 1 - t])
      invariant multiset(updatedCommunityCards) + multiset(updatedDeck) == multiset(communityCards) + multiset(deck)
      decreases count - i
    {
      if |updatedDeck| > 0 {
        var card := updatedDeck[|updatedDeck| - 1];
        assert updatedDeck == updatedDeck[..|updatedDeck| - 1] + [card];
        updatedDeck := updatedDeck[..|updatedDeck| - 1];
        updatedCommunityCards := updatedCommunityCards + [card];
      }
      i := i + 1;
    }
  }

  // ------------------------------------------------------------------
  // Hand categories
  // ------------------------------------------------------------------

  datatype HandCategory =
    | RoyalFlush | StraightFlush | FourOfAKind | FullHouse | Flush
    | Straight | ThreeOfAKind | TwoPair | OnePair | HighCard
  {
    /** The label `evaluateHand` returns. */
    function Label(): string {
      match this
      case RoyalFlush => "Royal Flush (รอยัล ฟลัช)"
      case StraightFlush => "Straight Flush (สเตรท ฟลัช)"
      case FourOfAKind => "Four of a Kind (โฟร์ออฟอะคายด์)"
      case FullHouse => "Full House (ฟูลเฮาส์)"
      case Flush => "Flush (ฟลัช)"
      case Straight => "Straight (สเตรท)"
      case ThreeOfAKind => "Three of a Kind (ทรี ออฟ อะ คายด์)"
      case TwoPair => "Two Pair (ทูแพร์)"
      case OnePair => "One Pair (วันแพร์)"
      case HighCard => "High Card (ไฮการ์ด)"
    }

    /** The entry of the `handRankValue` table for this label. */
    function Value(): (v: nat)
      ensures 1 <= v <= 10
    {
      match this
      case RoyalFlush => 10
      case StraightFlush => 9
      case FourOfAKind => 8
      case FullHouse => 7
      case Flush => 6
      case Straight => 5
      case ThreeOfAKind => 4
      case TwoPair => 3
      case OnePair => 2
      case HighCard => 1
    }
  }

  /** Distinct categories have distinct labels and distinct values, so the
      label-keyed value table of the source is well defined. */
  lemma CategoryLabelsDistinct(a: HandCategory, b: HandCategory)
    ensures a.Label() == b.Label() <==> a == b
    ensures a.Value() == b.Value() <==> a == b
  {
    CategoryValuesDistinct(a, b);
    if a.Label() == b.Label() {
      assert a.Label()[..4] == b.Label()[..4] && |a.Label()| == |b.Label()|;
    }
  }

  lemma CategoryValuesDistinct(a: HandCategory, b: HandCategory)
    ensures a.Value() == b.Value() <==> a == b
  {
  }

  /** `RANK_VALUES`: 2..10 at face value, J 11, Q 12, K 13, A 14. */
  function RankValue(r: Rank): (v: int)
    ensures 2 <= v <= 14
  {
    match r
    case Two => 2 case Three => 3 case Four => 4 case Five => 5 case Six => 6
    case Seven => 7 case Eight => 8 case Nine => 9 case Ten => 10
    case Jack => 11 case Queen => 12 case King => 13 case Ace => 14
  }

  /** The ranks from lowest to highest value: ValueOrder[k] has value k + 2. */
  const ValueOrder: seq<Rank> := [Two, Three, Four, Five, Six, Seven, Eight, Nine, Ten, Jack, Queen, King, Ace]

  lemma ValueOrderValues()
    ensures |ValueOrder| == 13
    ensures forall k :: 0 <= k < 13 ==> RankValue(ValueOrder[k]) == k + 2
    ensures forall r: Rank :: ValueOrder[RankValue(r) - 2] == r
  {
  }

  function RanksOf(cards: seq<Card>): seq<Rank> {
    seq(|cards|, k requires 0 <= k < |cards| => cards[k].rank)
  }

  function SuitsOf(cards: seq<Card>): seq<Suit> {
    seq(|cards|, k requires 0 <= k < |cards| => cards[k].suit)
  }

  /** How many of the cards have rank r. */
  function CountRank(cards: seq<Card>, r: Rank): nat {
    multiset(RanksOf(cards))[r]
  }

  /** How many of the cards have suit s. */
  function CountSuit(cards: seq<Card>, s: Suit): nat {
    multiset(SuitsOf(cards))[s]
  }

  lemma CountsSnoc(cards: seq<Card>, c: Card)
    ensures forall r :: CountRank(cards + [c], r) == CountRank(cards, r) + (if c.rank == r then 1 else 0)
    ensures forall s :: CountSuit(cards + [c], s) == CountSuit(cards, s) + (if c.suit == s then 1 else 0)
  {
    assert RanksOf(cards + [c]) == RanksOf(cards) + [c.rank];
    assert SuitsOf(cards + [c]) == SuitsOf(cards) + [c.suit];
  }

  predicate HasRank(cards: seq<Card>, r: Rank) {
    exists k :: 0 <= k < |cards| && cards[k].rank == r
  }

  /** Five cards or more of one suit. */
  predicate HasFlush(cards: seq<Card>) {
    exists s: Suit :: CountSuit(cards, s) >= 5
  }

  /** Five consecutive rank values, or the wheel A-2-3-4-5. */
  predicate HasStraight(cards: seq<Card>) {
    || (exists k :: 0 <= k <= 8 && RunFrom(cards, k))
    || (HasRank(cards, Ace) && HasRank(cards, Two) && HasRank(cards, Three) && HasRank(cards, Four) && HasRank(cards, Five))
  }

  /** The five ranks with values k + 2 .. k + 6 are all present. */
  predicate RunFrom(cards: seq<Card>, k: nat)
    requires k <= 8
  {
    && HasRank(cards, ValueOrder[k]) && HasRank(cards, ValueOrder[k + 1]) && HasRank(cards, ValueOrder[k + 2])
    && HasRank(cards, ValueOrder[k + 3]) && HasRank(cards, ValueOrder[k + 4])
  }

  /** How many of the given ranks occur exactly n times. */
  function RanksWithCount(cards: seq<Card>, rs: seq<Rank>, n: nat): nat {
    if rs == [] then 0
    else (if CountRank(cards, rs[0]) == n then 1 else 0) + RanksWithCount(cards, rs[1..], n)
  }

  /** The suits in order of first appearance (the key order of `suitCounts`). */
  function SuitOrder(cards: seq<Card>): seq<Suit> {
    if cards == [] then []
    else
      var o := SuitOrder(cards[..|cards| - 1]);
      if cards[|cards| - 1].suit in o then o else o + [cards[|cards| - 1].suit]
  }

  /** The first suit of `order` with five cards or more. */
  function FirstFlushSuit(order: seq<Suit>, cards: seq<Card>): (r: Option<Suit>)
    ensures r.Some? ==> r.value in order && CountSuit(cards, r.value) >= 5
    ensures r.None? ==> forall s :: s in order ==> CountSuit(cards, s) < 5
  {
    if order == [] then None
    else if CountSuit(cards, order[0]) >= 5 then Some(order[0])
    else FirstFlushSuit(order[1..], cards)
  }

  predicate RoyalIn(cards: seq<Card>, s: Suit) {
    Card(s, Ace) in cards && Card(s, King) in cards && Card(s, Queen) in cards
    && Card(s, Jack) in cards && Card(s, Ten) in cards
  }

  /** The category the source assigns to a set of cards, stated with counts over
      the whole card list (the tests are applied in the source's order). */
  ghost function Classify(cards: seq<Card>): (h: HandCategory)
    ensures |cards| < 5 ==> h == HighCard
    ensures (h == RoyalFlush || h == StraightFlush) <==> |cards| >= 5 && HasFlush(cards) && HasStraight(cards)
    ensures h == FourOfAKind ==> RanksWithCount(cards, Ranks, 4) > 0
    ensures h == FullHouse ==> RanksWithCount(cards, Ranks, 3) > 0 && RanksWithCount(cards, Ranks, 2) > 0
    ensures h == Flush ==> HasFlush(cards)
    ensures h == Straight ==> HasStraight(cards) && !HasFlush(cards)
  {
    var pairs := RanksWithCount(cards, Ranks, 2);
    var triplets := RanksWithCount(cards, Ranks, 3);
    var quads := RanksWithCount(cards, Ranks, 4);
    if |cards| < 5 then HighCard
    else if HasFlush(cards) && HasStraight(cards) then
      match FirstFlushSuit(SuitOrder(cards), cards)
      case Some(s) => if RoyalIn(cards, s) then RoyalFlush else StraightFlush
      case None => StraightFlush
    else Ladder(quads, triplets, pairs, HasFlush(cards), HasStraight(cards))
  }

  /** The categories below a straight flush, from the rank counts and the
      flush and straight tests, in the order `evaluateHand` tries them. */
  function Ladder(quads: nat, triplets: nat, pairs: nat, flush: bool, straight: bool): HandCategory {
    if quads > 0 then FourOfAKind
    else if triplets > 0 && pairs > 0 then FullHouse
    else if flush then Flush
    else if straight then Straight
    else if triplets > 0 then ThreeOfAKind
    else if pairs >= 2 then TwoPair
    else if pairs == 1 then OnePair
    else HighCard
  }

  // ---- facts about the counting functions, used by EvaluateHand ----

  lemma CountRankPositive(cards: seq<Card>, r: Rank)
    ensures CountRank(cards, r) > 0 <==> HasRank(cards, r)
  {
    if HasRank(cards, r) {
      var k :| 0 <= k < |cards| && cards[k].rank == r;
      assert RanksOf(cards)[k] == r;
    }
  }

  lemma {:induction false} SuitOrderMembers(cards: seq<Card>, s: Suit)
    ensures s in SuitOrder(cards) <==> CountSuit(cards, s) > 0
    decreases |cards|
  {
    if cards != [] {
      var init := cards[..|cards| - 1];
      SuitOrderMembers(init, s);
      assert cards == init + [cards[|cards| - 1]];
      CountsSnoc(init, cards[|cards| - 1]);
    }
  }

  lemma HasFlushFindsSuit(cards: seq<Card>)
    requires HasFlush(cards)
    ensures FirstFlushSuit(SuitOrder(cards), cards).Some?
  {
    var s :| CountSuit(cards, s) >= 5;
    SuitOrderMembers(cards, s);
  }

  // ------------------------------------------------------------------
  // evaluateHand
  // ------------------------------------------------------------------

  /** Counts of the entries of a count map equal to n (`Object.values(..).filter(c => c === n).length`). */
  function MapRanksWithCount(counts: map<Rank, nat>, rs: seq<Rank>, n: nat): nat {
    if rs == [] then 0
    else (if rs[0] in counts && counts[rs[0]] == n then 1 else 0) + MapRanksWithCount(counts, rs[1..], n)
  }

  lemma {:induction false} MapRanksWithCountAgrees(counts: map<Rank, nat>, cards: seq<Card>, rs: seq<Rank>, n: nat)
    requires n > 0
    requires forall r :: r in counts <==> CountRank(cards, r) > 0
    requires forall r :: r in counts ==> counts[r] == CountRank(cards, r)
    ensures MapRanksWithCount(counts, rs, n) == RanksWithCount(cards, rs, n)
    decreases |rs|
  {
    if rs != [] {
      MapRanksWithCountAgrees(counts, cards, rs[1..], n);
    }
  }

  /** `Object.entries(suitCounts).find(([_, count]) => count >= 5)`. */
  function FindSuitWithCount(order: seq<Suit>, counts: map<Suit, nat>): Option<Suit> {
    if order == [] then None
    else if order[0] in counts && counts[order[0]] >= 5 then Some(order[0])
    else FindSuitWithCount(order[1..], counts)
  }

  lemma {:induction false} FindSuitWithCountAgrees(order: seq<Suit>, counts: map<Suit, nat>, cards: seq<Card>)
    requires forall s :: s in counts <==> CountSuit(cards, s) > 0
    requires forall s :: s in counts ==> counts[s] == CountSuit(cards, s)
    ensures FindSuitWithCount(order, counts) == FirstFlushSuit(order, cards)
    decreases |order|
  {
    if order != [] {
      FindSuitWithCountAgrees(order[1..], counts, cards);
    }
  }

  predicate StrictlyIncreasing(u: seq<int>) {
    forall a, b :: 0 <= a < b < |u| ==> u[a] < u[b]
  }

  /** `[...new Set(values)].sort((a, b) => a - b)` for values in [2, 14]. */
  method SortedUnique(values: seq<int>) returns (u: seq<int>)
    requires forall k :: 0 <= k < |values| ==> 2 <= values[k] <= 14
    ensures StrictlyIncreasing(u)
    ensures forall v :: v in u <==> v in values
  {
    u := [];
    for v := 2 to 15
      invariant StrictlyIncreasing(u)
      invariant forall k :: 0 <= k < |u| ==> 2 <= u[k] < v
      invariant forall w :: 2 <= w < v ==> (w in u <==> w in values)
    {
      if v in values {
        u := u + [v];
      }
    }
  }

  lemma {:induction false} IncreasingGap(u: seq<int>, a: nat, b: nat)
    requires StrictlyIncreasing(u) && a <= b < |u|
    ensures u[b] - u[a] >= b - a
    decreases b - a
  {
    if a < b {
      IncreasingGap(u, a, b - 1);
    }
  }

  /** The source's window test: some five neighbours of u span exactly 4. */
  predicate Window(u: seq<int>) {
    exists i :: 0 <= i && i + 4 < |u| && u[i + 4] - u[i] == 4
  }

  /** v, v + 1, .., v + 4 all occur in u. */
  predicate RunOfFive(u: seq<int>, v: int) {
    v in u && v + 1 in u && v + 2 in u && v + 3 in u && v + 4 in u
  }

  /** In a strictly increasing list, four steps spanning exactly 4 are steps of 1. */
  lemma WindowToRun(u: seq<int>, i: nat)
    requires StrictlyIncreasing(u) && i + 4 < |u| && u[i + 4] - u[i] == 4
    ensures RunOfFive(u, u[i])
  {
    IncreasingGap(u, i + 1, i + 4);
    IncreasingGap(u, i + 2, i + 4);
    IncreasingGap(u, i + 3, i + 4);
    assert u[i + 1] == u[i] + 1 && u[i + 2] == u[i] + 2 && u[i + 3] == u[i] + 3;
  }

  /** Five consecutive values of a strictly increasing list sit at consecutive indices. */
  lemma RunToWindow(u: seq<int>, v: int)
    requires StrictlyIncreasing(u) && RunOfFive(u, v)
    ensures Window(u)
  {
    var i :| 0 <= i < |u| && u[i] == v;
    var j1 :| 0 <= j1 < |u| && u[j1] == v + 1;
    var j2 :| 0 <= j2 < |u| && u[j2] == v + 2;
    var j3 :| 0 <= j3 < |u| && u[j3] == v + 3;
    var j4 :| 0 <= j4 < |u| && u[j4] == v + 4;
    assert i < j1 && j1 < j2 && j2 < j3 && j3 < j4;
    IncreasingGap(u, i, j4);
    assert j4 == i + 4;
  }

  /** The straight test as the source writes it agrees with `HasStraight`,
      given that u holds exactly the rank values of the cards. */
  lemma StraightTestAgrees(cards: seq<Card>, u: seq<int>)
    requires StrictlyIncreasing(u)
    requires forall r: Rank :: RankValue(r) in u <==> HasRank(cards, r)
    requires forall v :: v in u ==> 2 <= v <= 14
    ensures (Window(u) || (14 in u && 2 in u && 3 in u && 4 in u && 5 in u)) <==> HasStraight(cards)
  {
    ValueOrderValues();
    assert RankValue(Ace) == 14 && RankValue(Two) == 2 && RankValue(Three) == 3;
    assert RankValue(Four) == 4 && RankValue(Five) == 5;
    if Window(u) {
      var i :| 0 <= i && i + 4 < |u| && u[i + 4] - u[i] == 4;
      WindowToRun(u, i);
      RunGivesRunFrom(cards, u, u[i]);
    }
    if k :| 0 <= k <= 8 && RunFrom(cards, k) {
      RunFromGivesRun(cards, u, k);
      RunToWindow(u, k + 2);
    }
  }

  lemma RunGivesRunFrom(cards: seq<Card>, u: seq<int>, v: int)
    requires forall r: Rank :: RankValue(r) in u <==> HasRank(cards, r)
    requires forall w :: w in u ==> 2 <= w <= 14
    requires RunOfFive(u, v)
    ensures 0 <= v - 2 <= 8 && RunFrom(cards, v - 2)
  {
    ValueOrderValues();
    var k := v - 2;
    assert RankValue(ValueOrder[k]) == v && RankValue(ValueOrder[k + 1]) == v + 1;
    assert RankValue(ValueOrder[k + 2]) == v + 2 && RankValue(ValueOrder[k + 3]) == v + 3;
    assert RankValue(ValueOrder[k + 4]) == v + 4;
  }

  lemma RunFromGivesRun(cards: seq<Card>, u: seq<int>, k: nat)
    requires forall r: Rank :: RankValue(r) in u <==> HasRank(cards, r)
    requires k <= 8 && RunFrom(cards, k)
    ensures RunOfFive(u, k + 2)
  {
    ValueOrderValues();
    assert RankValue(ValueOrder[k]) == k + 2 && RankValue(ValueOrder[k + 1]) == k + 3;
    assert RankValue(ValueOrder[k + 2]) == k + 4 && RankValue(ValueOrder[k + 3]) == k + 5;
    assert RankValue(ValueOrder[k + 4]) == k + 6;
  }

  /** The sorted distinct rank values hold exactly the values of the ranks present. */
  lemma RankValuesPresent(cards: seq<Card>, values: seq<int>, u: seq<int>)
    requires |values| == |cards| && forall k :: 0 <= k < |cards| ==> values[k] == RankValue(cards[k].rank)
    requires forall v :: v in u <==> v in values
    ensures forall r: Rank :: RankValue(r) in u <==> HasRank(cards, r)
    ensures forall v :: v in u ==> 2 <= v <= 14
  {
    forall r: Rank
      ensures RankValue(r) in u <==> HasRank(cards, r)
    {
      if RankValue(r) in values {
        var k :| 0 <= k < |values| && values[k] == RankValue(r);
        assert cards[k].rank == r;
      }
      if HasRank(cards, r) {
        var k :| 0 <= k < |cards| && cards[k].rank == r;
        assert values[k] == RankValue(r);
      }
    }
  }

  /** The count maps, the key order of `suitCounts` and the list of rank values
      after one pass over `cards`. */
  ghost predicate Tally(cards: seq<Card>, rankCounts: map<Rank, nat>, suitCounts: map<Suit, nat>,
                        suitOrder: seq<Suit>, rankValues: seq<int>)
  {
    && (forall r :: r in rankCounts <==> CountRank(cards, r) > 0)
    && (forall r :: r in rankCounts ==> rankCounts[r] == CountRank(cards, r))
    && (forall s :: s in suitCounts <==> CountSuit(cards, s) > 0)
    && (forall s :: s in suitCounts ==> suitCounts[s] == CountSuit(cards, s))
    && suitOrder == SuitOrder(cards)
    && |rankValues| == |cards| && (forall k :: 0 <= k < |cards| ==> rankValues[k] == RankValue(cards[k].rank))
  }

  /** The counting loop of `evaluateHand`. */
  method TallyCards(allCards: seq<Card>)
    returns (rankCounts: map<Rank, nat>, suitCounts: map<Suit, nat>, suitOrder: seq<Suit>, rankValues: seq<int>)
    ensures Tally(allCards, rankCounts, suitCounts, suitOrder, rankValues)
  {
    rankCounts := map[];
    suitCounts := map[];
    suitOrder := [];
    rankValues := [];
    for i := 0 to |allCards|
      invariant Tally(allCards[..i], rankCounts, suitCounts, suitOrder, rankValues)
    {
      var card := allCards[i];
      assert allCards[..i + 1] == allCards[..i] + [card];
      TallyStep(allCards[..i], card, rankCounts, suitCounts, suitOrder, rankValues);
      rankCounts := rankCounts[card.rank := (if card.rank in rankCounts then rankCounts[card.rank] else 0) + 1];
      if card.suit !in suitCounts {
        suitOrder := suitOrder + [card.suit];
      }
      suitCounts := suitCounts[card.suit := (if card.suit in suitCounts then suitCounts[card.suit] else 0) + 1];
      rankValues := rankValues + [RankValue(card.rank)];
    }
    assert allCards[..|allCards|] == allCards;
  }

  lemma TallyStep(cards: seq<Card>, card: Card, rankCounts: map<Rank, nat>, suitCounts: map<Suit, nat>,
                  suitOrder: seq<Suit>, rankValues: seq<int>)
    requires Tally(cards, rankCounts, suitCounts, suitOrder, rankValues)
    ensures Tally(cards + [card],
      rankCounts[card.rank := (if card.rank in rankCounts then rankCounts[card.rank] else 0) + 1],
      suitCounts[card.suit := (if card.suit in suitCounts then suitCounts[card.suit] else 0) + 1],
      if card.suit !in suitCounts then suitOrder + [card.suit] else suitOrder,
      rankValues + [RankValue(card.rank)])
  {
    RankTallyStep(cards, card, rankCounts);
    SuitTallyStep(cards, card, suitCounts);
    SuitOrderStep(cards, card);
    var next := cards + [card];
    assert forall k :: 0 <= k < |cards| ==> next[k] == cards[k];
  }

  lemma RankTallyStep(cards: seq<Card>, card: Card, rankCounts: map<Rank, nat>)
    requires forall r :: r in rankCounts <==> CountRank(cards, r) > 0
    requires forall r :: r in rankCounts ==> rankCounts[r] == CountRank(cards, r)
    ensures var m := rankCounts[card.rank := (if card.rank in rankCounts then rankCounts[card.rank] else 0) + 1];
      && (forall r :: r in m <==> CountRank(cards + [card], r) > 0)
      && (forall r :: r in m ==> m[r] == CountRank(cards + [card], r))
  {
    CountsSnoc(cards, card);
  }

  lemma SuitTallyStep(cards: seq<Card>, card: Card, suitCounts: map<Suit, nat>)
    requires forall s :: s in suitCounts <==> CountSuit(cards, s) > 0
    requires forall s :: s in suitCounts ==> suitCounts[s] == CountSuit(cards, s)
    ensures var m := suitCounts[card.suit := (if card.suit in suitCounts then suitCounts[card.suit] else 0) + 1];
      && (forall s :: s in m <==> CountSuit(cards + [card], s) > 0)
      && (forall s :: s in m ==> m[s] == CountSuit(cards + [card], s))
  {
    CountsSnoc(cards, card);
  }

  lemma SuitOrderStep(cards: seq<Card>, card: Card)
    ensures SuitOrder(cards + [card]) == if CountSuit(cards, card.suit) == 0 then SuitOrder(cards) + [card.suit] else SuitOrder(cards)
  {
    SuitOrderMembers(cards, card.suit);
    var next := cards + [card];
    assert next[..|next| - 1] == cards;
  }

  /** The straight test of `evaluateHand` on the sorted distinct rank values. */
  method DetectStraight(uniqueSortedRanks: seq<int>) returns (isStraight: bool)
    requires StrictlyIncreasing(uniqueSortedRanks)
    ensures isStraight == (Window(uniqueSortedRanks) || (14 in uniqueSortedRanks && 2 in uniqueSortedRanks
      && 3 in uniqueSortedRanks && 4 in uniqueSortedRanks && 5 in uniqueSortedRanks))
  {
    isStraight := false;
    WheelNeedsFive(uniqueSortedRanks);
    if |uniqueSortedRanks| >= 5 {
      var i := 0;
      while i <= |uniqueSortedRanks| - 5
        invariant 0 <= i <= |uniqueSortedRanks| - 4
        invariant !isStraight
        invariant forall k :: 0 <= k < i ==> uniqueSortedRanks[k + 4] - uniqueSortedRanks[k] != 4
      {
        if uniqueSortedRanks[i + 4] - uniqueSortedRanks[i] == 4 {
          isStraight := true;
          break;
        }
        i := i + 1;
      }
      assert isStraight == Window(uniqueSortedRanks);
      if !isStraight && 14 in uniqueSortedRanks {
        if 2 in uniqueSortedRanks && 3 in uniqueSortedRanks && 4 in uniqueSortedRanks && 5 in uniqueSortedRanks {
          isStraight := true;
        }
      }
    }
  }

  /** Classifies the player's hole cards together with the board, by counting
      ranks and suits in one pass and then testing the categories strongest first. */
  method EvaluateHand(playerHand: seq<Card>, communityCards: seq<Card>) returns (h: HandCategory)
    ensures h == Classify(playerHand + communityCards)
  {
    var allCards := playerHand + communityCards;
    if |allCards| < 5 {
      return HighCard;
    }
    var rankCounts, suitCounts, suitOrder, rankValues := TallyCards(allCards);

    var isFlush := exists s :: s in suitCounts && suitCounts[s] >= 5;
    assert isFlush == HasFlush(allCards);

    var uniqueSortedRanks := SortedUnique(rankValues);
    RankValuesPresent(allCards, rankValues, uniqueSortedRanks);
    var isStraight := DetectStraight(uniqueSortedRanks);
    StraightTestAgrees(allCards, uniqueSortedRanks);
    assert isStraight == HasStraight(allCards);

    var pairs := MapRanksWithCount(rankCounts, Ranks, 2);
    var triplets := MapRanksWithCount(rankCounts, Ranks, 3);
    var quads := MapRanksWithCount(rankCounts, Ranks, 4);
    MapRanksWithCountAgrees(rankCounts, allCards, Ranks, 2);
    MapRanksWithCountAgrees(rankCounts, allCards, Ranks, 3);
    MapRanksWithCountAgrees(rankCounts, allCards, Ranks, 4);

    if isFlush && isStraight {
      var flushSuit := FindSuitWithCount(suitOrder, suitCounts);
      FindSuitWithCountAgrees(suitOrder, suitCounts, allCards);
      if flushSuit.Some? {
        var flushRanks := set c | c in allCards && c.suit == flushSuit.value :: c.rank;
        RoyalCheckAgrees(allCards, flushSuit.value);
        if Ace in flushRanks && King in flushRanks && Queen in flushRanks && Jack in flushRanks && Ten in flushRanks {
          return RoyalFlush;
        }
      }
      return StraightFlush;
    }
    if quads > 0 { return FourOfAKind; }
    if triplets > 0 && pairs > 0 { return FullHouse; }
    if isFlush { return Flush; }
    if isStraight { return Straight; }
    if triplets > 0 { return ThreeOfAKind; }
    if pairs >= 2 { return TwoPair; }
    if pairs == 1 { return OnePair; }
    return HighCard;
  }

  /** The wheel's five values need five distinct entries. */
  lemma WheelNeedsFive(u: seq<int>)
    requires StrictlyIncreasing(u)
    ensures (14 in u && 2 in u && 3 in u && 4 in u && 5 in u) ==> |u| >= 5
  {
    if 14 in u && 2 in u && 3 in u && 4 in u && 5 in u {
      var a :| 0 <= a < |u| && u[a] == 2;
      var b :| 0 <= b < |u| && u[b] == 3;
      var c :| 0 <= c < |u| && u[c] == 4;
      var d :| 0 <= d < |u| && u[d] == 5;
      var e :| 0 <= e < |u| && u[e] == 14;
      assert a < b && b < c && c < d && d < e;
    }
  }

  /** The source's rank-set test for A, K, Q, J, 10 of the flush suit is `RoyalIn`. */
  lemma RoyalCheckAgrees(cards: seq<Card>, s: Suit)
    ensures var flushRanks := set c | c in cards && c.suit == s :: c.rank;
      (Ace in flushRanks && King in flushRanks && Queen in flushRanks && Jack in flushRanks && Ten in flushRanks)
        <==> RoyalIn(cards, s)
  {
    var flushRanks := set c | c in cards && c.suit == s :: c.rank;
    forall r: Rank
      ensures r in flushRanks <==> Card(s, r) in cards
    {
      if r in flushRanks {
        var c :| c in cards && c.suit == s && c.rank == r;
        assert c == Card(s, r);
      }
      if Card(s, r) in cards {
        assert Card(s, r).rank in flushRanks;
      }
    }
  }

  // ---- properties of the classifier ----

  lemma {:induction false} RanksWithCountZero(cards: seq<Card>, rs: seq<Rank>, n: nat)
    requires forall r :: r in rs ==> CountRank(cards, r) != n
    ensures RanksWithCount(cards, rs, n) == 0
    decreases |rs|
  {
    if rs != [] {
      RanksWithCountZero(cards, rs[1..], n);
    }
  }

  lemma {:induction false} RanksWithCountPositive(cards: seq<Card>, rs: seq<Rank>, n: nat, r: Rank)
    requires r in rs && CountRank(cards, r) == n
    ensures RanksWithCount(cards, rs, n) > 0
    decreases |rs|
  {
    if rs[0] != r {
      RanksWithCountPositive(cards, rs[1..], n, r);
    }
  }

  lemma NoFlushByCounts(cards: seq<Card>)
    requires CountSuit(cards, Hearts) < 5 && CountSuit(cards, Diamonds) < 5
    requires CountSuit(cards, Clubs) < 5 && CountSuit(cards, Spades) < 5
    ensures !HasFlush(cards)
  {
    forall s: Suit
      ensures CountSuit(cards, s) < 5
    {
      match s
      case Hearts =>
      case Diamonds =>
      case Clubs =>
      case Spades =>
    }
  }

  /** Below a straight flush the category is the ladder of the rank counts and
      the flush and straight tests. */
  lemma ClassifyLadder(cards: seq<Card>)
    requires |cards| >= 5 && !(HasFlush(cards) && HasStraight(cards))
    ensures Classify(cards) == Ladder(RanksWithCount(cards, Ranks, 4), RanksWithCount(cards, Ranks, 3),
                                      RanksWithCount(cards, Ranks, 2), HasFlush(cards), HasStraight(cards))
  {
  }

  /** Where each category sits in the ladder. */
  lemma LadderOrder(q: nat, t: nat, p: nat, f: bool, s: bool)
    ensures q > 0 <==> Ladder(q, t, p, f, s) == FourOfAKind
    ensures Ladder(q, t, p, f, s) == FullHouse <==> q == 0 && t > 0 && p > 0
    ensures Ladder(q, t, p, f, s) == Straight <==> q == 0 && !(t > 0 && p > 0) && !f && s
    ensures Ladder(q, t, p, f, s) == ThreeOfAKind <==> q == 0 && t > 0 && p == 0 && !f && !s
  {
  }

  /** Two triplets and no pair (six cards). */
  const TwoTriplets: seq<Card> := [Card(Hearts, Ace), Card(Diamonds, Ace), Card(Clubs, Ace),
                                   Card(Hearts, Seven), Card(Diamonds, Seven), Card(Spades, Seven)]

  lemma TwoTripletsSuits()
    ensures !HasFlush(TwoTriplets)
  {
    assert SuitsOf(TwoTriplets) == [Hearts, Diamonds, Clubs, Hearts, Diamonds, Spades];
    NoFlushByCounts(TwoTriplets);
  }

  lemma TwoTripletsRankCounts()
    ensures forall r :: CountRank(TwoTriplets, r) == (if r == Ace || r == Seven then 3 else 0)
  {
    assert RanksOf(TwoTriplets) == [Ace, Ace, Ace, Seven, Seven, Seven];
  }

  lemma TwoTripletsRanks()
    ensures forall r :: HasRank(TwoTriplets, r) ==> r == Ace || r == Seven
    ensures RanksWithCount(TwoTriplets, Ranks, 2) == 0 && RanksWithCount(TwoTriplets, Ranks, 4) == 0
    ensures RanksWithCount(TwoTriplets, Ranks, 3) > 0
  {
    TwoTripletsRankCounts();
    forall r: Rank
      ensures HasRank(TwoTriplets, r) ==> r == Ace || r == Seven
    {
      CountRankPositive(TwoTriplets, r);
    }
    RanksWithCountZero(TwoTriplets, Ranks, 2);
    RanksWithCountZero(TwoTriplets, Ranks, 4);
    RanksWithCountPositive(TwoTriplets, Ranks, 3, Ace);
  }

  /** Every straight, the wheel included, holds a five or a ten. */
  lemma StraightHoldsFiveOrTen(cards: seq<Card>)
    ensures HasStraight(cards) ==> HasRank(cards, Five) || HasRank(cards, Ten)
  {
    forall k | 0 <= k <= 8 && RunFrom(cards, k)
      ensures HasRank(cards, Five) || HasRank(cards, Ten)
    {
      if k <= 3 {
        assert ValueOrder[k + (3 - k)] == Five;
      } else {
        assert ValueOrder[k + (8 - k)] == Ten;
      }
    }
  }

  lemma TwoTripletsNoStraight()
    ensures !HasStraight(TwoTriplets)
  {
    TwoTripletsRanks();
    StraightHoldsFiveOrTen(TwoTriplets);
  }

  /** Full House needs one rank exactly three times and another exactly twice:
      two triplets and no pair are only Three of a Kind. */
  lemma TwoTripletsAreThreeOfAKind()
    ensures Classify(TwoTriplets) == ThreeOfAKind
  {
    TwoTripletsSuits();
    TwoTripletsRanks();
    TwoTripletsNoStraight();
    ClassifyLadder(TwoTriplets);
    LadderOrder(RanksWithCount(TwoTriplets, Ranks, 4), RanksWithCount(TwoTriplets, Ranks, 3), RanksWithCount(TwoTriplets, Ranks, 2),
                HasFlush(TwoTriplets), HasStraight(TwoTriplets));
  }

  /** Hearts 2, 3, 4, 5, 9 with the six of clubs: a flush and a straight made of
      different cards. */
  const SplitFlushStraight: seq<Card> := [Card(Hearts, Two), Card(Hearts, Three), Card(Hearts, Four),
                                          Card(Hearts, Five), Card(Hearts, Nine), Card(Clubs, Six)]

  lemma SplitFlushStraightFacts()
    ensures HasFlush(SplitFlushStraight) && HasStraight(SplitFlushStraight)
  {
    SplitFlushStraightFlush();
    SplitFlushStraightRun();
  }

  lemma SplitFlushStraightFlush()
    ensures HasFlush(SplitFlushStraight)
  {
    assert SuitsOf(SplitFlushStraight) == [Hearts, Hearts, Hearts, Hearts, Hearts, Clubs];
    assert CountSuit(SplitFlushStraight, Hearts) == 5;
  }

  lemma SplitFlushStraightRun()
    ensures HasStraight(SplitFlushStraight)
  {
    var cards := SplitFlushStraight;
    assert cards[0].rank == Two && cards[1].rank == Three && cards[2].rank == Four;
    assert cards[3].rank == Five && cards[5].rank == Six;
    FiveInARow(cards, 0, 0, 1, 2, 3, 5);
  }

  /** Five cards holding the rank values k + 2 .. k + 6 make a run. */
  lemma FiveInARow(cards: seq<Card>, k: nat, a: nat, b: nat, c: nat, d: nat, e: nat)
    requires k <= 8 && a < |cards| && b < |cards| && c < |cards| && d < |cards| && e < |cards|
    requires cards[a].rank == ValueOrder[k] && cards[b].rank == ValueOrder[k + 1] && cards[c].rank == ValueOrder[k + 2]
    requires cards[d].rank == ValueOrder[k + 3] && cards[e].rank == ValueOrder[k + 4]
    ensures RunFrom(cards, k) && HasStraight(cards)
  {
    assert HasRank(cards, ValueOrder[k]) && HasRank(cards, ValueOrder[k + 1]) && HasRank(cards, ValueOrder[k + 2]);
    assert HasRank(cards, ValueOrder[k + 3]) && HasRank(cards, ValueOrder[k + 4]);
    assert RunFrom(cards, k);
  }

  /** The flush and the straight need not share their cards: the source reports a
      Straight Flush. */
  lemma FlushPlusStraightIsStraightFlush()
    ensures Classify(SplitFlushStraight) == StraightFlush
  {
    SplitFlushStraightFacts();
    SplitFlushStraightNoRoyal();
    StraightFlushUnlessRoyal(SplitFlushStraight);
  }

  lemma SplitFlushStraightNoRoyal()
    ensures forall s: Suit :: !RoyalIn(SplitFlushStraight, s)
  {
    forall s: Suit
      ensures !RoyalIn(SplitFlushStraight, s)
    {
      assert Card(s, Ace) !in SplitFlushStraight;
    }
  }

  /** Without A, K, Q, J, 10 of one suit, a flush with a straight is a Straight Flush. */
  lemma StraightFlushUnlessRoyal(cards: seq<Card>)
    requires |cards| >= 5 && HasFlush(cards) && HasStraight(cards)
    requires forall s: Suit :: !RoyalIn(cards, s)
    ensures Classify(cards) == StraightFlush
  {
  }

  /** A-2-3-4-5 of mixed suits. */
  const Wheel: seq<Card> := [Card(Spades, Ace), Card(Hearts, Two), Card(Clubs, Three), Card(Diamonds, Four),
                             Card(Hearts, Five)]

  lemma WheelFacts()
    ensures !HasFlush(Wheel) && HasStraight(Wheel)
  {
    WheelSuits();
    assert Wheel[0].rank == Ace && Wheel[1].rank == Two && Wheel[2].rank == Three;
    assert Wheel[3].rank == Four && Wheel[4].rank == Five;
  }

  lemma WheelSuits()
    ensures !HasFlush(Wheel)
  {
    assert SuitsOf(Wheel) == [Spades, Hearts, Clubs, Diamonds, Hearts];
    NoFlushByCounts(Wheel);
  }

  lemma WheelRankCounts()
    ensures forall r :: CountRank(Wheel, r) <= 1
  {
    assert RanksOf(Wheel) == [Ace, Two, Three, Four, Five];
  }

  lemma WheelCounts()
    ensures RanksWithCount(Wheel, Ranks, 3) == 0 && RanksWithCount(Wheel, Ranks, 4) == 0
  {
    WheelRankCounts();
    RanksWithCountZero(Wheel, Ranks, 3);
    RanksWithCountZero(Wheel, Ranks, 4);
  }

  /** The wheel counts as a straight. */
  lemma WheelIsStraight()
    ensures Classify(Wheel) == Straight
  {
    WheelFacts();
    WheelCounts();
    ClassifyLadder(Wheel);
    LadderOrder(RanksWithCount(Wheel, Ranks, 4), RanksWithCount(Wheel, Ranks, 3), RanksWithCount(Wheel, Ranks, 2),
                HasFlush(Wheel), HasStraight(Wheel));
  }

  /** 10-J-Q-K-A of spades. */
  const RoyalSpades: seq<Card> := [Card(Spades, Ten), Card(Spades, Jack), Card(Spades, Queen),
                                   Card(Spades, King), Card(Spades, Ace)]

  lemma RoyalSpadesFacts()
    ensures HasFlush(RoyalSpades) && HasStraight(RoyalSpades)
    ensures forall s :: CountSuit(RoyalSpades, s) >= 5 ==> s == Spades
  {
    RoyalSpadesSuits();
    var cards := RoyalSpades;
    assert cards[0].rank == Ten && cards[1].rank == Jack && cards[2].rank == Queen;
    assert cards[3].rank == King && cards[4].rank == Ace;
    FiveInARow(cards, 8, 0, 1, 2, 3, 4);
  }

  lemma RoyalSpadesSuits()
    ensures HasFlush(RoyalSpades)
    ensures forall s :: CountSuit(RoyalSpades, s) >= 5 ==> s == Spades
  {
    assert SuitsOf(RoyalSpades) == [Spades, Spades, Spades, Spades, Spades];
    assert CountSuit(RoyalSpades, Spades) == 5;
  }

  /** A-K-Q-J-10 of one suit is a Royal Flush. */
  lemma RoyalFlushFixture()
    ensures Classify(RoyalSpades) == RoyalFlush
  {
    RoyalSpadesFacts();
    HasFlushFindsSuit(RoyalSpades);
    assert RoyalIn(RoyalSpades, Spades) by {
      assert RoyalSpades[4] == Card(Spades, Ace) && RoyalSpades[3] == Card(Spades, King);
    }
  }

  /** Four aces and a pair of kings. */
  const QuadsAndPair: seq<Card> := [Card(Hearts, Ace), Card(Diamonds, Ace), Card(Clubs, Ace), Card(Spades, Ace),
                                    Card(Hearts, King), Card(Diamonds, King)]

  lemma QuadsAndPairFacts()
    ensures !HasFlush(QuadsAndPair) && RanksWithCount(QuadsAndPair, Ranks, 4) > 0
  {
    assert !HasFlush(QuadsAndPair) by {
      assert SuitsOf(QuadsAndPair) == [Hearts, Diamonds, Clubs, Spades, Hearts, Diamonds];
      NoFlushByCounts(QuadsAndPair);
    }
    assert CountRank(QuadsAndPair, Ace) == 4 by {
      assert RanksOf(QuadsAndPair) == [Ace, Ace, Ace, Ace, King, King];
    }
    RanksWithCountPositive(QuadsAndPair, Ranks, 4, Ace);
  }

  /** Four of a Kind is checked before Full House. */
  lemma QuadsBeforeFullHouse()
    ensures Classify(QuadsAndPair) == FourOfAKind
  {
    QuadsAndPairFacts();
    ClassifyLadder(QuadsAndPair);
    LadderOrder(RanksWithCount(QuadsAndPair, Ranks, 4), RanksWithCount(QuadsAndPair, Ranks, 3), RanksWithCount(QuadsAndPair, Ranks, 2),
                HasFlush(QuadsAndPair), HasStraight(QuadsAndPair));
  }

  // ------------------------------------------------------------------
  // compareHands, calculateHandStrength
  // ------------------------------------------------------------------

  /** Players taking part in the showdown comparison: seat 0 always, others when not folded. */
  predicate Contends(players: seq<Player>, i: nat)
    requires i < |players|
  {
    i == 0 || !players[i].isFolded
  }

  ghost function HandOf(p: Player, communityCards: seq<Card>): HandCategory {
    Classify(p.hand + communityCards)
  }

  /** Seat `winner` holds the best category among the contenders in seats 0 .. i - 1,
      and every earlier contender is strictly worse. */
  ghost predicate BestAmong(players: seq<Player>, communityCards: seq<Card>, i: nat, winner: nat, handRank: HandCategory)
    requires i <= |players|
  {
    && winner < i && Contends(players, winner)
    && handRank == HandOf(players[winner], communityCards)
    && LeadsAmong(players, Scores(players, communityCards), i, winner)
  }

  /** The `handRankValue` of every seat's category. */
  ghost function Scores(players: seq<Player>, communityCards: seq<Card>): (v: seq<nat>)
    ensures |v| == |players|
  {
    seq(|players|, k requires 0 <= k < |players| => HandOf(players[k], communityCards).Value())
  }

  /** Among the contenders in seats 0 .. i - 1, seat `winner` scores highest and
      every earlier contender scores strictly lower. */
  predicate LeadsAmong(players: seq<Player>, scores: seq<nat>, i: nat, winner: nat)
    requires i <= |players| == |scores|
  {
    && winner < i
    && (forall k :: 0 <= k < i && Contends(players, k) ==> scores[k] <= scores[winner])
    && (forall k :: 0 <= k < winner && Contends(players, k) ==> scores[k] < scores[winner])
  }

  /** Extending the range by seat i changes the leader only for a contender with a
      strictly higher score. */
  lemma LeadsAmongExtend(players: seq<Player>, scores: seq<nat>, i: nat, winner: nat)
    requires 0 < i < |players| == |scores| && LeadsAmong(players, scores, i, winner)
    ensures !Contends(players, i) || scores[i] <= scores[winner] ==> LeadsAmong(players, scores, i + 1, winner)
    ensures Contends(players, i) && scores[i] > scores[winner] ==> LeadsAmong(players, scores, i + 1, i)
  {
  }

  datatype Verdict = Verdict(winner: nat, handRank: HandCategory)

  /** Picks the contending player with the best category; ties go to the lowest
      seat. Seat 0 is read even when folded, and an empty table is the
      source's TypeError. */
  method CompareHands(players: seq<Player>, communityCards: seq<Card>) returns (r: Result<Verdict>)
    ensures r.Err? <==> |players| == 0
    ensures r.Ok? ==> BestAmong(players, communityCards, |players|, r.value.winner, r.value.handRank)
  {
    if |players| == 0 {
      return Err("TypeError: players[0] is undefined");
    }
    var winner := 0;
    var handRank := EvaluateHand(players[0].hand, communityCards);
    for i := 1 to |players|
      invariant BestAmong(players, communityCards, i, winner, handRank)
    {
      winner, handRank := ConsiderSeat(players, communityCards, i, winner, handRank);
    }
    return Ok(Verdict(winner, handRank));
  }

  /** One iteration of the comparison loop: seat i replaces the leader only with a
      strictly better category. */
  method ConsiderSeat(players: seq<Player>, communityCards: seq<Card>, i: nat, winner: nat, handRank: HandCategory)
    returns (winner': nat, handRank': HandCategory)
    requires 0 < i < |players| && BestAmong(players, communityCards, i, winner, handRank)
    ensures BestAmong(players, communityCards, i + 1, winner', handRank')
  {
    winner', handRank' := winner, handRank;
    if !players[i].isFolded {
      var rank := EvaluateHand(players[i].hand, communityCards);
      ghost var scores := Scores(players, communityCards);
      assert scores[i] == rank.Value() && scores[winner] == handRank.Value();
      LeadsAmongExtend(players, scores, i, winner);
      if rank.Value() > handRank.Value() {
        winner', handRank' := i, rank;
      }
    } else {
      LeadsAmongExtend(players, Scores(players, communityCards), i, winner);
    }
  }

  /** The showdown's verdict does not depend on how it is computed: any two
      results satisfying it name the same seat. */
  lemma BestAmongIsUnique(players: seq<Player>, communityCards: seq<Card>, w1: nat, h1: HandCategory, w2: nat, h2: HandCategory)
    requires BestAmong(players, communityCards, |players|, w1, h1)
    requires BestAmong(players, communityCards, |players|, w2, h2)
    ensures w1 == w2 && h1 == h2
  {
    var scores := Scores(players, communityCards);
    assert scores[w1] <= scores[w2] && scores[w2] <= scores[w1];
    assert !(w1 < w2) && !(w2 < w1);
  }

  /** The strength percentage of a category: value / 10 * 100. */
  function StrengthOf(h: HandCategory): (s: real)
    ensures s == 10.0 * h.Value() as real
    ensures 10.0 <= s <= 100.0
  {
    (h.Value() as real / 10.0) * 100.0
  }

  method CalculateHandStrength(playerHand: seq<Card>, communityCards: seq<Card>) returns (strength: real)
    ensures strength == StrengthOf(Classify(playerHand + communityCards))
    ensures 10.0 <= strength <= 100.0
  {
    var handRank := EvaluateHand(playerHand, communityCards);
    strength := StrengthOf(handRank);
  }

  /** A stronger category always has a strictly higher strength. */
  lemma StrengthOrdersCategories(a: HandCategory, b: HandCategory)
    ensures a.Value() < b.Value() <==> StrengthOf(a) < StrengthOf(b)
  {
  }

  // ------------------------------------------------------------------
  // findNextActivePlayer
  // ------------------------------------------------------------------

  /** A seat that may act: still in the hand and still in the game. */
  predicate Eligible(p: Player) {
    !p.isFolded && p.isActive
  }

  /** The number of steps clockwise from seat `from` to seat i (1..n). */
  function Offset(from: nat, i: nat, n: nat): (k: nat)
    requires i < n
    ensures 1 <= k <= n
  {
    var f := from % n;
    if i > f then i - f else n - f + i
  }

  lemma OffsetReaches(from: nat, i: nat, n: nat)
    requires i < n
    ensures (from + Offset(from, i, n)) % n == i
  {
    var f := from % n;
    var q := from / n;
    assert from == q * n + f;
    var k := Offset(from, i, n);
    if i > f {
      assert from + k == q * n + i;
    } else {
      assert from + k == (q + 1) * n + i;
    }
    ModOfMultiplePlus(if i > f then q else q + 1, n, i);
  }

  lemma ModOfMultiplePlus(q: nat, n: nat, i: nat)
    requires i < n
    ensures (q * n + i) % n == i
  {
    ModUnique(q * n + i, n, q, i);
  }

  lemma OffsetOfStep(from: nat, k: nat, n: nat)
    requires n > 0 && 1 <= k <= n
    ensures Offset(from, (from + k) % n, n) == k
  {
    var i := (from + k) % n;
    var f := from % n;
    var q := from / n;
    assert from == q * n + f;
    if f + k < n {
      ModOfMultiplePlus(q, n, f + k);
      assert from + k == q * n + (f + k);
    } else {
      ModOfMultiplePlus(q + 1, n, f + k - n);
      assert from + k == (q + 1) * n + (f + k - n);
    }
  }

  /** r is the first eligible seat clockwise after `from`, or -1 when there is none. */
  ghost predicate IsNextActive(players: seq<Player>, from: nat, r: int) {
    var n := |players|;
    && (r == -1 <==> forall i :: 0 <= i < n ==> !Eligible(players[i]))
    && (r != -1 ==>
         && 0 <= r < n && Eligible(players[r])
         && forall i :: 0 <= i < n && Offset(from, i, n) < Offset(from, r, n) ==> !Eligible(players[i]))
  }

  /** No seat within `k` steps clockwise of `from` is eligible. */
  ghost predicate SkippedUpTo(players: seq<Player>, from: nat, k: nat) {
    forall i :: 0 <= i < |players| && Offset(from, i, |players|) <= k ==> !Eligible(players[i])
  }

  /** `findNextActivePlayer`: walks at most one full turn clockwise from the seat
      after `currentIndex`; -1 when no seat is eligible. */
  method FindNextActivePlayer(players: seq<Player>, currentIndex: nat) returns (r: int)
    ensures IsNextActive(players, currentIndex, r)
  {
    var count := |players|;
    if count == 0 {
      // the source's `% 0` yields NaN and its loop runs zero times
      return -1;
    }
    var nextIndex: nat := (currentIndex + 1) % count;
    var loopCount := 0;
    OffsetOfStep(currentIndex, 1, count);
    while loopCount < count
      invariant 0 <= loopCount <= count && nextIndex < count
      invariant loopCount < count ==> Offset(currentIndex, nextIndex, count) == loopCount + 1
      invariant SkippedUpTo(players, currentIndex, loopCount)
    {
      if Eligible(players[nextIndex]) {
        FoundNext(players, currentIndex, loopCount, nextIndex);
        return nextIndex;
      }
      SkipOne(players, currentIndex, loopCount, nextIndex);
      if loopCount + 1 < count {
        NextOffset(currentIndex, loopCount, nextIndex, count);
      }
      nextIndex := (nextIndex + 1) % count;
      loopCount := loopCount + 1;
    }
    FoundNone(players, currentIndex);
    return -1;
  }

  lemma FoundNext(players: seq<Player>, from: nat, k: nat, i: nat)
    requires i < |players| && Offset(from, i, |players|) == k + 1
    requires SkippedUpTo(players, from, k) && Eligible(players[i])
    ensures IsNextActive(players, from, i)
  {
  }

  lemma FoundNone(players: seq<Player>, from: nat)
    requires SkippedUpTo(players, from, |players|)
    ensures IsNextActive(players, from, -1)
  {
  }

  lemma SkipOne(players: seq<Player>, from: nat, k: nat, i: nat)
    requires k < |players| && i < |players| && Offset(from, i, |players|) == k + 1
    requires SkippedUpTo(players, from, k) && !Eligible(players[i])
    ensures SkippedUpTo(players, from, k + 1)
  {
  }

  /** The seat after one `k + 1` steps away is `k + 2` steps away. */
  lemma NextOffset(from: nat, k: nat, i: nat, n: nat)
    requires i < n && k + 1 < n && Offset(from, i, n) == k + 1
    ensures Offset(from, (i + 1) % n, n) == k + 2
  {
    if i + 1 < n {
      ModOfMultiplePlus(0, n, i + 1);
    } else {
      ModOfMultiplePlus(1, n, 0);
    }
  }

  /** At most one seat satisfies the specification of the next player. */
  lemma NextActiveIsUnique(players: seq<Player>, from: nat, r1: int, r2: int)
    requires IsNextActive(players, from, r1) && IsNextActive(players, from, r2)
    ensures r1 == r2
  {
    var n := |players|;
    assert r1 != -1 && r2 != -1 ==> Offset(from, r1, n) == Offset(from, r2, n);
    if r1 != -1 && r2 != -1 {
      OffsetReaches(from, r1, n);
      OffsetReaches(from, r2, n);
    }
  }

  // ------------------------------------------------------------------
  // createInitialGameState
  // ------------------------------------------------------------------

  function SeatName(i: nat): string {
    if i == 0 then "You" else "Player " + NatToString(i)
  }

  function NewPlayer(i: nat, startingChips: int): Player {
    Player(i, SeatName(i), [], startingChips, 0, true, false, false, None)
  }

  /** The default arguments of `createInitialGameState`, which every caller uses. */
  const DefaultPlayerCount: nat := 4
  const DefaultStartingChips: int := 1000

  /** A fresh table: a shuffled deck, `playerCount` seats with `startingChips`
      each, empty pot, minimum raise 20, phase 'waiting'. */
  method CreateInitialGameState(playerCount: nat, startingChips: int, draws: seq<real>) returns (s: GameState)
    requires |draws| >= 52 && forall k :: 0 <= k < |draws| ==> IsDraw(draws[k])
    ensures multiset(s.deck) == multiset(CanonicalDeck())
    ensures s.communityCards == []
    ensures |s.players| == playerCount
    ensures forall i :: 0 <= i < playerCount ==> s.players[i] == NewPlayer(i, startingChips)
    ensures s.currentPlayerIndex == 0 && s.pot == 0 && s.currentBet == 0 && s.minRaise == 20
    ensures s.dealerIndex == 0 && s.gamePhase == Waiting && s.winner == None && s.winningHand == None
  {
    var ordered := CreateDeck();
    var deck := ShuffleDeck(ordered, draws);
    var players: seq<Player> := [];
    for i := 0 to playerCount
      invariant |players| == i
      invariant forall q :: 0 <= q < i ==> players[q] == NewPlayer(q, startingChips)
    {
      players := players + [Player(i, if i == 0 then "You" else "Player " + NatToString(i), [], startingChips, 0, true, false, false, None)];
    }
    s := GameState(deck, [], players, 0, 0, 0, 20, 0, Waiting, None, None);
  }

  /** Seat names are distinct, so 'You' names seat 0 only. */
  lemma SeatNamesDistinct(i: nat, j: nat)
    ensures SeatName(i) == SeatName(j) <==> i == j
  {
    if i != j && i > 0 && j > 0 && SeatName(i) == SeatName(j) {
      var a := NatToString(i);
      var b := NatToString(j);
      assert "Player " + a == "Player " + b;
      assert a == ("Player " + a)[7..] == ("Player " + b)[7..] == b;
      NatToStringValue(i);
      NatToStringValue(j);
    }
    if i == 0 && j > 0 {
      assert |SeatName(j)| > 3;
    }
    if j == 0 && i > 0 {
      assert |SeatName(i)| > 3;
    }
  }
}
