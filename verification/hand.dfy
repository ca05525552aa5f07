/**
 * Class `Hand` of the source: it parses a hand string into cards, validates
 * them, and classifies a valid hand, keeping every intermediate result in a
 * field as the source does.
 */
module PokerHand {
  import opened Wrappers
  import opened Text
  import opened Cards
  import opened Validation
  import opened Ranking

  class Hand {
    var cards: seq<Card>
    var invalidReason: Option<HandError>
    var flushSuit: Option<Suit>
    var flushHighCardRank: Option<int>
    var highestCardInStraightRank: Option<int>
    var matchingCards: map<int, nat>
    var fourOfAKindRank: Option<int>
    var fullHouseTripleRank: Option<int>
    var fullHousePairRank: Option<int>
    var threeOfAKindRank: Option<int>
    var threeOfAKindKickerRank: Option<int>
    var twoPairHighRank: Option<int>
    var twoPairLowRank: Option<int>
    var twoPairKickerRank: Option<int>
    var pairRank: Option<int>
    var pairKickerRank: Option<int>

    /** Every card's rank, when it has one, and every rank of the count table lie in 2..14. */
    ghost predicate Valid()
      reads this`cards, this`matchingCards
    {
      (forall i :: 0 <= i < |cards| ==> WellFormed(cards[i])) &&
      (forall r :: r in matchingCards ==> 2 <= r <= 14)
    }

    /** `new Hand(handString)`: every result field starts undefined. */
    constructor (handString: string)
      ensures Valid()
      ensures cards == ParseHand(handString)
      ensures invalidReason == None && matchingCards == map[]
      ensures flushSuit == None && flushHighCardRank == None && highestCardInStraightRank == None
      ensures fourOfAKindRank == None && fullHouseTripleRank == None && fullHousePairRank == None
      ensures threeOfAKindRank == None && threeOfAKindKickerRank == None
      ensures twoPairHighRank == None && twoPairLowRank == None && twoPairKickerRank == None
      ensures pairRank == None && pairKickerRank == None
    {
      cards := [];
      invalidReason := None;
      flushSuit, flushHighCardRank, highestCardInStraightRank := None, None, None;
      matchingCards := map[];
      fourOfAKindRank, fullHouseTripleRank, fullHousePairRank := None, None, None;
      threeOfAKindRank, threeOfAKindKickerRank := None, None;
      twoPairHighRank, twoPairLowRank, twoPairKickerRank := None, None, None;
      pairRank, pairKickerRank := None, None;
      new;
      ParseHandString(handString);
    }

    /** `parseHandString`: one card per token, pushed in order. */
    method ParseHandString(handString: string)
      requires Valid()
      modifies this`cards
      ensures Valid()
      ensures cards == ParseHand(handString)
    {
      var tokens := HandTokens(handString);
      cards := [];
      var i := 0;
      while i < |tokens|
        invariant 0 <= i <= |tokens|
        invariant |cards| == i && forall k :: 0 <= k < i ==> cards[k] == ParseCard(tokens[k])
      {
        cards := cards + [ParseCard(tokens[i])];
        i := i + 1;
      }
    }

    /**
     * `isValidHand`: the card-count check, then the validity and duplicate
     * checks card by card, each failure overwriting `invalidReason`. A reason
     * already stored stays when no check fails.
     */
    method IsValidHand() returns (valid: bool)
      modifies this`invalidReason
      ensures invalidReason ==
        if |cards| != 5 then Some(WrongCardCount(|cards|))
        else if LastOffence(cards, 5).Some? then LastOffence(cards, 5)
        else old(invalidReason)
      ensures old(invalidReason) == None ==> invalidReason == ValidateHand(cards)
      ensures valid <==> invalidReason == None
    {
      if |cards| != 5 {
        invalidReason := Some(WrongCardCount(|cards|));
        return false;
      }
      var validCards: seq<Card> := [];
      var i := 0;
      while i < |cards|
        invariant 0 <= i <= |cards|
        invariant validCards == cards[..i]
        invariant LastOffence(cards, i).Some? ==> invalidReason == LastOffence(cards, i)
        invariant LastOffence(cards, i).None? ==> invalidReason == old(invalidReason)
      {
        var card := cards[i];
        if !IsValidCard(card) {
          invalidReason := Some(InvalidCard(card.token, CardInvalidReason(card).value));
        }
        ghost var afterValidity := invalidReason;
        if |validCards| > 0 {
          var j := 0;
          while j < |validCards|
            invariant 0 <= j <= |validCards|
            invariant invalidReason ==
              if exists k :: 0 <= k < j && Equals(card, validCards[k]) then Some(DuplicateCard(card.token))
              else afterValidity
          {
            if Equals(card, validCards[j]) {
              invalidReason := Some(DuplicateCard(card.token));
            }
            j := j + 1;
          }
        }
        validCards := validCards + [card];
        i := i + 1;
      }
      valid := invalidReason == None;
    }

    /**
     * `this.cards.sort((a, b) => a.rank - b.rank)`: the built-in stable sort,
     * taken as the stable sort by rank it promises.
     */
    method SortCards()
      requires Valid() && AllClassifiable(cards)
      modifies this`cards
      ensures Valid()
      ensures cards == SortByRank(old(cards))
      ensures Scans() == old(Scans()) && Categories() == old(Categories())
      ensures matchingCards == old(matchingCards) && invalidReason == old(invalidReason)
    {
      SortByRankWellFormed(cards);
      cards := SortByRank(cards);
    }

    /**
     * `isFlush`: true iff every card has the first card's suit; records that
     * suit when it is a flush, and the last card's rank in any case.
     */
    method IsFlush() returns (isFlush: bool)
      requires AllClassifiable(cards) && |cards| > 0
      modifies this`flushSuit, this`flushHighCardRank
      ensures isFlush == AllSameSuit(cards)
      ensures flushSuit == if isFlush then cards[0].suit else old(flushSuit)
      ensures flushHighCardRank == if |cards| > 1 then cards[|cards| - 1].rank else old(flushHighCardRank)
    {
      isFlush := true;
      var suit: Option<Suit> := None;
      var i := 0;
      while i < |cards|
        invariant 0 <= i <= |cards|
        invariant flushSuit == old(flushSuit)
        invariant suit == if i == 0 then None else cards[0].suit
        invariant isFlush == forall k :: 0 <= k < i ==> cards[k].suit == cards[0].suit
        invariant i > 1 ==> flushHighCardRank == cards[i - 1].rank
        invariant i <= 1 ==> flushHighCardRank == old(flushHighCardRank)
      {
        var card := cards[i];
        if suit.Some? {
          isFlush := isFlush && card.suit == suit;
          flushHighCardRank := card.rank;
        } else {
          suit := card.suit;
        }
        i := i + 1;
      }
      if isFlush {
        flushSuit := suit;
      }
    }

    /**
     * `isStraight` on sorted cards: the scan with `nextRankInSequence` and the
     * Ace branch, recording the high card in `highestCardInStraightRank`.
     */
    method IsStraight() returns (isValidStraight: bool)
      requires AllClassifiable(cards) && |cards| > 0 && SortedByRank(cards)
      modifies this`highestCardInStraightRank
      ensures isValidStraight == StraightScan(Ranks(cards))
      ensures highestCardInStraightRank ==
        if StraightScanHigh(Ranks(cards)).Some? then StraightScanHigh(Ranks(cards)) else old(highestCardInStraightRank)
    {
      ghost var rs := Ranks(cards);
      if cards[0].rank.value > 10 {
        return false;
      }
      isValidStraight := true;
      var nextRankInSequence: Option<int> := None;
      var i := 0;
      while i < |cards|
        invariant 0 <= i <= |cards|
        invariant isValidStraight == StraightRun(rs[..i]).ok && nextRankInSequence == StraightRun(rs[..i]).next
        invariant StraightRun(rs[..i]).high.Some? ==> highestCardInStraightRank == StraightRun(rs[..i]).high
        invariant StraightRun(rs[..i]).high.None? ==> highestCardInStraightRank == old(highestCardInStraightRank)
      {
        var rank := cards[i].rank.value;
        if nextRankInSequence.Some? {
          if isValidStraight && nextRankInSequence.value == 6 && rank == 14 {
            // The Ace counts as a one: the run holds and no high card is written.
            isValidStraight := true;
          } else {
            isValidStraight := isValidStraight && rank == nextRankInSequence.value;
            nextRankInSequence := Some(nextRankInSequence.value + 1);
            highestCardInStraightRank := Some(rank);
          }
        } else {
          nextRankInSequence := Some(rank + 1);
        }
        assert rs[..i + 1][..i] == rs[..i];
        i := i + 1;
      }
      assert rs[..|cards|] == rs;
      StraightRunClosedForm(rs);
    }

    /** `calculateMatchingCards`: the rank-to-count table, one increment per card. */
    method CalculateMatchingCards()
      requires Valid() && AllClassifiable(cards)
      modifies this`matchingCards
      ensures Valid()
      ensures matchingCards == CountTable(Ranks(cards))
      ensures Categories() == old(Categories()) && Scans() == old(Scans())
    {
      ghost var rs := Ranks(cards);
      matchingCards := map[];
      var i := 0;
      while i < |cards|
        invariant 0 <= i <= |cards|
        invariant matchingCards == CountTable(rs[..i])
      {
        var rank := cards[i].rank.value;
        CountTableStep(rs[..i], rank);
        assert rs[..i + 1] == rs[..i] + [rank];
        if rank in matchingCards {
          matchingCards := matchingCards[rank := matchingCards[rank] + 1];
        } else {
          matchingCards := matchingCards[rank := 1];
        }
        i := i + 1;
      }
      assert rs[..|cards|] == rs;
      CountTableFacts(rs);
    }

    /** `isFourOfAKind`: some rank has count 4; records the highest such rank. */
    method IsFourOfAKind() returns (isFourOfAKind: bool)
      modifies this`fourOfAKindRank
      ensures isFourOfAKind == (RanksWithCount(matchingCards, 4, 15) != {})
      ensures isFourOfAKind ==> fourOfAKindRank == Some(Max(RanksWithCount(matchingCards, 4, 15)))
      ensures !isFourOfAKind ==> fourOfAKindRank == old(fourOfAKindRank)
      ensures Scans() == old(Scans())
    {
      isFourOfAKind := false;
      var t := matchingCards;
      var rank := 2;
      while rank <= 14
        invariant 2 <= rank <= 15
        invariant isFourOfAKind == (RanksWithCount(t, 4, rank) != {})
        invariant isFourOfAKind ==> fourOfAKindRank == Some(Max(RanksWithCount(t, 4, rank)))
        invariant !isFourOfAKind ==> fourOfAKindRank == old(fourOfAKindRank)
      {
        if rank in t {
          var numMatches := t[rank];
          if numMatches == 4 {
            CountStep(t, 4, rank);
            isFourOfAKind := true;
            fourOfAKindRank := Some(rank);
          } else {
            OtherStep(t, 4, rank);
          }
        } else {
          AbsentStep(t, 4, rank);
        }
        rank := rank + 1;
      }
    }

    /** `isFullHouse`: some rank has count 3 and some rank has count 2; records the highest of each. */
    method IsFullHouse() returns (isFullHouse: bool)
      modifies this`fullHouseTripleRank, this`fullHousePairRank
      ensures isFullHouse == (RanksWithCount(matchingCards, 3, 15) != {} && RanksWithCount(matchingCards, 2, 15) != {})
      ensures RanksWithCount(matchingCards, 3, 15) != {} ==>
        fullHouseTripleRank == Some(Max(RanksWithCount(matchingCards, 3, 15)))
      ensures RanksWithCount(matchingCards, 3, 15) == {} ==> fullHouseTripleRank == old(fullHouseTripleRank)
      ensures RanksWithCount(matchingCards, 2, 15) != {} ==>
        fullHousePairRank == Some(Max(RanksWithCount(matchingCards, 2, 15)))
      ensures RanksWithCount(matchingCards, 2, 15) == {} ==> fullHousePairRank == old(fullHousePairRank)
      ensures Scans() == old(Scans())
    {
      var t := matchingCards;
      var hasTriple := false;
      var hasPair := false;
      var rank := 2;
      while rank <= 14
        invariant 2 <= rank <= 15
        invariant hasTriple == (RanksWithCount(t, 3, rank) != {})
        invariant hasPair == (RanksWithCount(t, 2, rank) != {})
        invariant hasTriple ==> fullHouseTripleRank == Some(Max(RanksWithCount(t, 3, rank)))
        invariant !hasTriple ==> fullHouseTripleRank == old(fullHouseTripleRank)
        invariant hasPair ==> fullHousePairRank == Some(Max(RanksWithCount(t, 2, rank)))
        invariant !hasPair ==> fullHousePairRank == old(fullHousePairRank)
      {
        if rank !in t {
          AbsentStep(t, 3, rank);
          AbsentStep(t, 2, rank);
        } else if t[rank] == 3 {
          CountStep(t, 3, rank);
          OtherStep(t, 2, rank);
        } else if t[rank] == 2 {
          OtherStep(t, 3, rank);
          CountStep(t, 2, rank);
        } else {
          OtherStep(t, 3, rank);
          OtherStep(t, 2, rank);
        }
        if rank in t {
          var numMatches := t[rank];
          if numMatches == 3 {
            hasTriple := true;
            fullHouseTripleRank := Some(rank);
          }
          if numMatches == 2 {
            hasPair := true;
            fullHousePairRank := Some(rank);
          }
        }
        rank := rank + 1;
      }
      isFullHouse := hasTriple && hasPair;
    }

    /**
     * `isThreeOfAKind`: some rank has count 3; records the highest such rank
     * and, as kicker, the highest rank whose count is not 3.
     */
    method IsThreeOfAKind() returns (isThreeOfAKind: bool)
      modifies this`threeOfAKindRank, this`threeOfAKindKickerRank
      ensures isThreeOfAKind == (RanksWithCount(matchingCards, 3, 15) != {})
      ensures isThreeOfAKind ==> threeOfAKindRank == Some(Max(RanksWithCount(matchingCards, 3, 15)))
      ensures isThreeOfAKind ==> threeOfAKindKickerRank == MaxOrNone(RanksOtherThan(matchingCards, 3, 15))
      ensures !isThreeOfAKind ==>
        threeOfAKindRank == old(threeOfAKindRank) && threeOfAKindKickerRank == old(threeOfAKindKickerRank)
      ensures Scans() == old(Scans())
    {
      isThreeOfAKind := false;
      var t := matchingCards;
      var kickerRank: Option<int> := None;
      var rank := 2;
      while rank <= 14
        invariant 2 <= rank <= 15
        invariant threeOfAKindKickerRank == old(threeOfAKindKickerRank)
        invariant isThreeOfAKind == (RanksWithCount(t, 3, rank) != {})
        invariant isThreeOfAKind ==> threeOfAKindRank == Some(Max(RanksWithCount(t, 3, rank)))
        invariant !isThreeOfAKind ==> threeOfAKindRank == old(threeOfAKindRank)
        invariant kickerRank == MaxOrNone(RanksOtherThan(t, 3, rank))
      {
        if rank in t {
          var numMatches := t[rank];
          if numMatches == 3 {
            CountStep(t, 3, rank);
            isThreeOfAKind := true;
            threeOfAKindRank := Some(rank);
          } else {
            OtherStep(t, 3, rank);
            if kickerRank == None || rank > kickerRank.value {
              kickerRank := Some(rank);
            }
          }
        } else {
          AbsentStep(t, 3, rank);
        }
        rank := rank + 1;
      }
      if isThreeOfAKind {
        threeOfAKindKickerRank := kickerRank;
      }
    }

    /**
     * `isTwoPair`: at least two ranks have count 2; records the two lowest of
     * them, higher and lower, and as kicker the highest rank whose count is
     * not 2.
     */
    method IsTwoPair() returns (isTwoPair: bool)
      modifies this`twoPairHighRank, this`twoPairLowRank, this`twoPairKickerRank
      ensures isTwoPair == (|RanksWithCount(matchingCards, 2, 15)| >= 2)
      ensures isTwoPair ==> twoPairHighRank == Some(SecondMin(RanksWithCount(matchingCards, 2, 15)))
      ensures isTwoPair ==> twoPairLowRank == Some(Min(RanksWithCount(matchingCards, 2, 15)))
      ensures !isTwoPair ==> twoPairHighRank == old(twoPairHighRank) && twoPairLowRank == old(twoPairLowRank)
      ensures RanksOtherThan(matchingCards, 2, 15) != {} ==>
        twoPairKickerRank == Some(Max(RanksOtherThan(matchingCards, 2, 15)))
      ensures RanksOtherThan(matchingCards, 2, 15) == {} ==> twoPairKickerRank == old(twoPairKickerRank)
      ensures Scans() == old(Scans())
    {
      isTwoPair := false;
      var t := matchingCards;
      var numPairs := 0;
      var firstPairRank: Option<int> := None;
      var rank := 2;
      while rank <= 14
        invariant 2 <= rank <= 15
        invariant numPairs == |RanksWithCount(t, 2, rank)|
        invariant numPairs >= 1 ==> firstPairRank == Some(Min(RanksWithCount(t, 2, rank)))
        invariant isTwoPair == (numPairs >= 2)
        invariant numPairs >= 2 ==> twoPairHighRank == Some(SecondMin(RanksWithCount(t, 2, rank)))
        invariant numPairs < 2 ==> twoPairHighRank == old(twoPairHighRank)
        invariant numPairs >= 2 ==> twoPairLowRank == Some(Min(RanksWithCount(t, 2, rank)))
        invariant numPairs < 2 ==> twoPairLowRank == old(twoPairLowRank)
        invariant RanksOtherThan(t, 2, rank) != {} ==> twoPairKickerRank == Some(Max(RanksOtherThan(t, 2, rank)))
        invariant RanksOtherThan(t, 2, rank) == {} ==> twoPairKickerRank == old(twoPairKickerRank)
      {
        if rank in t {
          var numMatches := t[rank];
          if numMatches == 2 {
            PairStep(t, rank);
            numPairs := numPairs + 1;
            if numPairs == 1 {
              firstPairRank := Some(rank);
            } else if numPairs == 2 {
              isTwoPair := true;
              var first := firstPairRank.value;
              assert first < rank;
              twoPairHighRank := Some(if first > rank then first else rank);
              twoPairLowRank := Some(if first > rank then rank else first);
            }
          } else {
            OtherStep(t, 2, rank);
            twoPairKickerRank := Some(rank);
          }
        } else {
          AbsentStep(t, 2, rank);
        }
        rank := rank + 1;
      }
      assert rank == 15 && t == matchingCards;
    }

    /**
     * `isPair`: some rank has count 2; records the highest such rank and, as
     * kicker, the highest rank whose count is not 2.
     */
    method IsPair() returns (isPair: bool)
      modifies this`pairRank, this`pairKickerRank
      ensures isPair == (RanksWithCount(matchingCards, 2, 15) != {})
      ensures isPair ==> pairRank == Some(Max(RanksWithCount(matchingCards, 2, 15)))
      ensures isPair ==> pairKickerRank == MaxOrNone(RanksOtherThan(matchingCards, 2, 15))
      ensures !isPair ==> pairRank == old(pairRank) && pairKickerRank == old(pairKickerRank)
      ensures Scans() == old(Scans())
    {
      isPair := false;
      var t := matchingCards;
      var kickerRank: Option<int> := None;
      var rank := 2;
      while rank <= 14
        invariant 2 <= rank <= 15
        invariant pairKickerRank == old(pairKickerRank)
        invariant isPair == (RanksWithCount(t, 2, rank) != {})
        invariant isPair ==> pairRank == Some(Max(RanksWithCount(t, 2, rank)))
        invariant !isPair ==> pairRank == old(pairRank)
        invariant kickerRank == MaxOrNone(RanksOtherThan(t, 2, rank))
      {
        if rank in t {
          var numMatches := t[rank];
          if numMatches == 2 {
            CountStep(t, 2, rank);
            isPair := true;
            pairRank := Some(rank);
          } else {
            OtherStep(t, 2, rank);
            if kickerRank == None || rank > kickerRank.value {
              kickerRank := Some(rank);
            }
          }
        } else {
          AbsentStep(t, 2, rank);
        }
        rank := rank + 1;
      }
      if isPair {
        pairKickerRank := kickerRank;
      }
    }

    /** `getHighCardRank` on sorted cards: the last card's rank, the highest in the hand. */
    method GetHighCardRank() returns (rank: int)
      requires AllClassifiable(cards) && |cards| > 0
      ensures rank == cards[|cards| - 1].rank.value && rank in Ranks(cards)
      ensures SortedByRank(cards) ==> forall i :: 0 <= i < |cards| ==> cards[i].rank.value <= rank
    {
      rank := cards[|cards| - 1].rank.value;
      assert Ranks(cards)[|cards| - 1] == rank;
    }

    /**
     * The fields a reported hand's tie-break ranks are read from hold them:
     * the fields each category's `calculateBestPokerHand` branch reads.
     */
    ghost predicate Records(best: RankedHand)
      reads this`flushSuit, this`flushHighCardRank, this`highestCardInStraightRank
      reads this`fourOfAKindRank, this`fullHouseTripleRank, this`fullHousePairRank
      reads this`threeOfAKindRank, this`threeOfAKindKickerRank
      reads this`twoPairHighRank, this`twoPairLowRank, this`twoPairKickerRank, this`pairRank, this`pairKickerRank
    {
      match best
      case RoyalFlush => highestCardInStraightRank == Some(14)
      case StraightFlush(suit, high) => flushSuit == Some(suit) && highestCardInStraightRank == Some(high)
      case FourOfAKind(rank) => fourOfAKindRank == Some(rank)
      case FullHouse(triple, pair) => fullHouseTripleRank == Some(triple) && fullHousePairRank == Some(pair)
      case Flush(suit, high) => flushSuit == Some(suit) && flushHighCardRank == Some(high)
      case Straight(high) => highestCardInStraightRank == Some(high)
      case ThreeOfAKind(rank, kicker) => threeOfAKindRank == Some(rank) && threeOfAKindKickerRank == Some(kicker)
      case TwoPair(high, low, kicker) =>
        twoPairHighRank == Some(high) && twoPairLowRank == Some(low) && twoPairKickerRank == Some(kicker)
      case Pair(rank, kicker) => pairRank == Some(rank) && pairKickerRank == Some(kicker)
      case HighCard(_) => true
    }

    /** The values of the fields the flush and straight tests write. */
    function Scans(): ScanFields
      reads this`flushSuit, this`flushHighCardRank, this`highestCardInStraightRank
    {
      ScanFields(flushSuit, flushHighCardRank, highestCardInStraightRank)
    }

    /** The values of the fields the category tests write. */
    function Categories(): CategoryFields
      reads this`fourOfAKindRank, this`fullHouseTripleRank, this`fullHousePairRank
      reads this`threeOfAKindRank, this`threeOfAKindKickerRank
      reads this`twoPairHighRank, this`twoPairLowRank, this`twoPairKickerRank, this`pairRank, this`pairKickerRank
    {
      CategoryFields(fourOfAKindRank, fullHouseTripleRank, fullHousePairRank, threeOfAKindRank, threeOfAKindKickerRank,
        twoPairHighRank, twoPairLowRank, twoPairKickerRank, pairRank, pairKickerRank)
    }

    /**
     * `calculateBestPokerHand` on a hand `isValidHand` accepted: sort the
     * cards, then classify them. The fields it reads the tie-break ranks from
     * hold them when it returns.
     */
    method CalculateBestPokerHand() returns (best: RankedHand)
      requires Valid() && ValidHand(cards)
      modifies this
      ensures Valid()
      ensures cards == SortByRank(old(cards)) && SortedHand(cards)
      ensures best == BestHand(cards)
      ensures invalidReason == old(invalidReason)
      ensures Records(best)
      ensures Scans() == AfterScans(cards, old(Scans()))
      ensures best.RoyalFlush? || best.StraightFlush? ==>
        matchingCards == old(matchingCards) && Categories() == old(Categories())
      ensures !(best.RoyalFlush? || best.StraightFlush?) ==>
        matchingCards == CountTable(Ranks(cards)) && Categories() == AfterCountTests(matchingCards, best, old(Categories()))
    {
      ValidHandIsReady(cards);
      SortReadyHand(cards);
      SortCards();
      best := ClassifySorted();
    }

    /**
     * Lines 99-140 of `calculateBestPokerHand`, on the sorted cards: test
     * flush and straight, count ranks, then take the first category that
     * matches.
     */
    method ClassifySorted() returns (best: RankedHand)
      requires Valid() && SortedHand(cards)
      modifies this`flushSuit, this`flushHighCardRank, this`highestCardInStraightRank, this`matchingCards
      modifies this`fourOfAKindRank, this`fullHouseTripleRank, this`fullHousePairRank
      modifies this`threeOfAKindRank, this`threeOfAKindKickerRank
      modifies this`twoPairHighRank, this`twoPairLowRank, this`twoPairKickerRank, this`pairRank, this`pairKickerRank
      ensures Valid() && cards == old(cards)
      ensures best == BestHand(cards)
      ensures Records(best)
      ensures Scans() == AfterScans(cards, old(Scans()))
      ensures best.RoyalFlush? || best.StraightFlush? ==>
        matchingCards == old(matchingCards) && Categories() == old(Categories())
      ensures !(best.RoyalFlush? || best.StraightFlush?) ==>
        matchingCards == CountTable(Ranks(cards)) && Categories() == AfterCountTests(matchingCards, best, old(Categories()))
    {
      ghost var rs := Ranks(cards);
      ghost var suit, top := cards[0].suit.value, cards[4].rank.value;
      assert rs[4] == top;
      TieBreaksDefined(cards);

      var isFlush, isStraight := ScanFlushAndStraight();
      if isStraight && isFlush {
        if highestCardInStraightRank == Some(14) {
          best := RoyalFlush;
        } else {
          best := StraightFlush(flushSuit.value, highestCardInStraightRank.value);
        }
      } else {
        CalculateMatchingCards();
        best := BestByCounts(isFlush, isStraight, suit, StraightScanHigh(rs), top);
      }
    }

    /**
     * Lines 101-102 of `calculateBestPokerHand`: the flush test, then the
     * straight test, on the sorted cards.
     */
    method ScanFlushAndStraight() returns (isFlush: bool, isStraight: bool)
      requires SortedHand(cards)
      modifies this`flushSuit, this`flushHighCardRank, this`highestCardInStraightRank
      ensures isFlush == AllSameSuit(cards) && isStraight == StraightScan(Ranks(cards))
      ensures Scans() == AfterScans(cards, old(Scans()))
      ensures Categories() == old(Categories())
    {
      isFlush := IsFlush();
      isStraight := IsStraight();
    }

    /**
     * Lines 119-129 of `calculateBestPokerHand`, once the hand is known not to
     * be a straight flush and `matchingCards` holds its count table: four of
     * a kind, full house, flush and straight, in that order, from the flush
     * suit, the straight's high card and the highest rank the scans recorded.
     */
    method BestByCounts(isFlush: bool, isStraight: bool, ghost suit: Suit, ghost high: Option<int>, ghost top: int)
      returns (best: RankedHand)
      requires AllClassifiable(cards) && |cards| > 0 && SortedByRank(cards) && top == cards[|cards| - 1].rank.value
      requires !(isStraight && isFlush)
      requires isFlush ==> flushSuit == Some(suit) && flushHighCardRank == Some(top)
      requires high.Some? ==> highestCardInStraightRank == high
      requires isStraight && high == None ==> RanksWithCount(matchingCards, 4, 15) != {}
      requires RanksOtherThan(matchingCards, 3, 15) != {} && RanksOtherThan(matchingCards, 2, 15) != {}
      modifies this`fourOfAKindRank, this`fullHouseTripleRank, this`fullHousePairRank
      modifies this`threeOfAKindRank, this`threeOfAKindKickerRank
      modifies this`twoPairHighRank, this`twoPairLowRank, this`twoPairKickerRank, this`pairRank, this`pairKickerRank
      ensures best == Classify(isFlush, isStraight, high, matchingCards, suit, top)
      ensures Records(best)
      ensures Categories() == AfterCountTests(matchingCards, best, old(Categories()))
      ensures Scans() == old(Scans())
    {
      var isFourOfAKind := IsFourOfAKind();
      if isFourOfAKind {
        return FourOfAKind(fourOfAKindRank.value);
      }
      var isFullHouse := IsFullHouse();
      if isFullHouse {
        return FullHouse(fullHouseTripleRank.value, fullHousePairRank.value);
      }
      if isFlush {
        return Flush(flushSuit.value, flushHighCardRank.value);
      }
      if isStraight {
        return Straight(highestCardInStraightRank.value);
      }
      best := BestByKickers(top);
    }

    /**
     * Lines 131-140 of `calculateBestPokerHand`, once the hand is no flush,
     * no straight, no four of a kind and no full house: three of a kind, two
     * pair, pair and high card, in that order.
     */
    method BestByKickers(ghost top: int) returns (best: RankedHand)
      requires AllClassifiable(cards) && |cards| > 0 && top == cards[|cards| - 1].rank.value
      requires RanksOtherThan(matchingCards, 3, 15) != {} && RanksOtherThan(matchingCards, 2, 15) != {}
      modifies this`threeOfAKindRank, this`threeOfAKindKickerRank
      modifies this`twoPairHighRank, this`twoPairLowRank, this`twoPairKickerRank, this`pairRank, this`pairKickerRank
      ensures best == ClassifyByKickers(matchingCards, top)
      ensures Records(best)
      ensures Categories() == AfterKickerTests(matchingCards, best, old(Categories()))
      ensures Scans() == old(Scans())
    {
      var isThreeOfAKind := IsThreeOfAKind();
      if isThreeOfAKind {
        return ThreeOfAKind(threeOfAKindRank.value, threeOfAKindKickerRank.value);
      }
      var isTwoPair := IsTwoPair();
      if isTwoPair {
        return TwoPair(twoPairHighRank.value, twoPairLowRank.value, twoPairKickerRank.value);
      }
      var isPair := IsPair();
      if isPair {
        return Pair(pairRank.value, pairKickerRank.value);
      }
      var highCardRank := GetHighCardRank();
      return HighCard(highCardRank);
    }
  }

  /** The fields of a `Hand` that `isFlush` and `isStraight` write. */
  datatype ScanFields = ScanFields(flushSuit: Option<Suit>, flushHighCardRank: Option<int>, highestCardInStraightRank: Option<int>)

  /**
   * What the flush and straight tests leave in their fields on five sorted
   * cards, from the fields before them: the suit when it is a flush, the
   * last card's rank, and the straight's high card when the scan records one.
   */
  ghost function AfterScans(cards: seq<Card>, before: ScanFields): ScanFields
    requires SortedHand(cards)
  {
    var high := StraightScanHigh(Ranks(cards));
    ScanFields(
      if AllSameSuit(cards) then cards[0].suit else before.flushSuit,
      cards[4].rank,
      if high.Some? then high else before.highestCardInStraightRank)
  }

  /** The fields of a `Hand` that the category tests of `calculateBestPokerHand` write. */
  datatype CategoryFields = CategoryFields(
    fourOfAKindRank: Option<int>, fullHouseTripleRank: Option<int>, fullHousePairRank: Option<int>,
    threeOfAKindRank: Option<int>, threeOfAKindKickerRank: Option<int>,
    twoPairHighRank: Option<int>, twoPairLowRank: Option<int>, twoPairKickerRank: Option<int>,
    pairRank: Option<int>, pairKickerRank: Option<int>)

  /**
   * What the tests of lines 131-140 leave in their fields, from the count
   * table `t`, the hand they reported and the fields before them: three of
   * a kind is always tested, two pair only when it was not three of a kind,
   * pair only when it was neither. A test that runs writes its rank only
   * when it matches, except the two-pair kicker, which it writes for every
   * rank whose count is not 2; the tests after the first match leave their
   * fields as they were.
   */
  ghost function AfterKickerTests(t: map<int, nat>, best: RankedHand, before: CategoryFields): CategoryFields {
    var triples, pairs, others := RanksWithCount(t, 3, 15), RanksWithCount(t, 2, 15), RanksOtherThan(t, 2, 15);
    var f := if triples == {} then before
      else before.(threeOfAKindRank := Some(Max(triples)), threeOfAKindKickerRank := MaxOrNone(RanksOtherThan(t, 3, 15)));
    var g := if best.ThreeOfAKind? then f
      else f.(
        twoPairHighRank := if |pairs| >= 2 then Some(SecondMin(pairs)) else f.twoPairHighRank,
        twoPairLowRank := if |pairs| >= 2 then Some(Min(pairs)) else f.twoPairLowRank,
        twoPairKickerRank := if others != {} then Some(Max(others)) else f.twoPairKickerRank);
    if best.ThreeOfAKind? || best.TwoPair? || pairs == {} then g
    else g.(pairRank := Some(Max(pairs)), pairKickerRank := MaxOrNone(others))
  }

  /**
   * What the tests of lines 116-140 leave in their fields: four of a kind is
   * always tested; full house only when it was not four of a kind; the
   * tests of lines 131-140 only when the hand was none of four of a kind,
   * full house, flush and straight.
   */
  ghost function AfterCountTests(t: map<int, nat>, best: RankedHand, before: CategoryFields): CategoryFields {
    var fours, triples, pairs := RanksWithCount(t, 4, 15), RanksWithCount(t, 3, 15), RanksWithCount(t, 2, 15);
    var f := if fours == {} then before else before.(fourOfAKindRank := Some(Max(fours)));
    if best.FourOfAKind? then f
    else
      var g := f.(
        fullHouseTripleRank := if triples != {} then Some(Max(triples)) else f.fullHouseTripleRank,
        fullHousePairRank := if pairs != {} then Some(Max(pairs)) else f.fullHousePairRank);
      if best.FullHouse? || best.Flush? || best.Straight? then g else AfterKickerTests(t, best, g)
  }

  /** Cards that pass `isValidHand` and carry ranks in 2..14 are ready for classification. */
  lemma ValidHandIsReady(cards: seq<Card>)
    requires ValidHand(cards)
    requires forall i :: 0 <= i < |cards| ==> WellFormed(cards[i])
    ensures ReadyHand(cards)
  {
    assert forall i :: 0 <= i < |cards| ==> Classifiable(cards[i]) by {
      forall i | 0 <= i < |cards| ensures Classifiable(cards[i]) {
        assert IsValidCard(cards[i]) && WellFormed(cards[i]);
      }
    }
  }

  /**
   * What `evaluateHand` reports for a hand string: the reason `isValidHand`
   * stores, or the hand `calculateBestPokerHand` finds.
   */
  ghost function Evaluate(handString: string): (r: Result<RankedHand, HandError>)
    ensures r.Err? <==> !ValidHand(ParseHand(handString))
    ensures (r.Err? && r.error.WrongCardCount?) <==> Spaces(Collapse(handString)) != 4
  {
    var cards := ParseHand(handString);
    ValidateHandSpec(cards);
    match ValidateHand(cards)
    case Some(reason) => Err(reason)
    case None =>
      ParsedHandIsReady(handString);
      SortReadyHand(cards);
      Ok(BestHand(SortByRank(cards)))
  }

  /** A parsed hand that passes `isValidHand` is ready for classification. */
  lemma ParsedHandIsReady(handString: string)
    requires ValidHand(ParseHand(handString))
    ensures ReadyHand(ParseHand(handString))
  {
    ValidHandIsReady(ParseHand(handString));
  }

  /**
   * The core of `evaluateHand`: build the hand, validate it, and classify it
   * when it is valid.
   */
  method EvaluateHand(handString: string) returns (result: Result<RankedHand, HandError>)
    ensures result == Evaluate(handString)
  {
    var hand := new Hand(handString);
    var valid := hand.IsValidHand();
    if valid {
      ValidateHandSpec(hand.cards);
      var best := hand.CalculateBestPokerHand();
      result := Ok(best);
    } else {
      result := Err(hand.invalidReason.value);
    }
  }
}
