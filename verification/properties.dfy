/**
 * What the classification of `calculateBestPokerHand` means in poker terms:
 * the tie-break ranks it reports agree with the rank-to-count table, the
 * categories it reports exclude the ones tried before them, and the straight
 * scan on five different ranks accepts exactly the runs and the wheel.
 */
module HandProperties {
  import opened Wrappers
  import opened Text
  import opened Cards
  import opened Validation
  import opened Ranking
  import opened PokerHand

  /** The ranks of a sorted hand: five of them, each in 2..14, in order. */
  lemma SortedHandRanks(cards: seq<Card>)
    requires SortedHand(cards)
    ensures |Ranks(cards)| == 5 && Sorted(Ranks(cards))
    ensures forall i :: 0 <= i < 5 ==> 2 <= Ranks(cards)[i] <= 14
  {
  }

  /** The count sets of the table read as counts of the ranks. */
  lemma InCountSets(rs: seq<int>, c: nat, r: int)
    requires forall i :: 0 <= i < |rs| ==> 2 <= rs[i] <= 14
    ensures r in RanksWithCount(CountTable(rs), c, 15) <==> r in rs && CountOf(rs, r) == c
    ensures r in RanksOtherThan(CountTable(rs), c, 15) <==> r in rs && CountOf(rs, r) != c
  {
    CountTableFacts(rs);
    if r in rs {
      var i :| 0 <= i < |rs| && rs[i] == r;
    }
  }

  /** Four different ranks together occur at most once per card. */
  lemma {:induction false} CountFourBound(ranks: seq<int>, a: int, b: int, c: int, d: int)
    requires a != b && a != c && a != d && b != c && b != d && c != d
    ensures CountOf(ranks, a) + CountOf(ranks, b) + CountOf(ranks, c) + CountOf(ranks, d) <= |ranks|
  {
    if ranks != [] {
      CountFourBound(ranks[..|ranks| - 1], a, b, c, d);
    }
  }

  /** Five different cards never share one rank: there are only four suits. */
  lemma NoFiveOfAKind(cards: seq<Card>, r: int)
    requires SortedHand(cards)
    ensures CountOf(Ranks(cards), r) <= 4
  {
    var rs := Ranks(cards);
    CountOfFive(rs, r);
    if CountOf(rs, r) == 5 {
      assert forall i :: 0 <= i < 5 ==> cards[i].rank == Some(r);
      assert forall i, j :: 0 <= j < i < 5 ==> cards[i].suit != cards[j].suit;
      FiveSuitsRepeat(cards[0].suit.value, cards[1].suit.value, cards[2].suit.value,
                      cards[3].suit.value, cards[4].suit.value);
      assert false;
    }
  }

  /** Among five suits, two are the same. */
  lemma FiveSuitsRepeat(a: Suit, b: Suit, c: Suit, d: Suit, e: Suit)
    ensures a == b || a == c || a == d || a == e || b == c || b == d || b == e || c == d || c == e || d == e
  {
    match a
    case Hearts =>
    case Diamonds =>
    case Spades =>
    case Clubs =>
  }

  /** A set of one element holds nothing else. */
  lemma OnlyElement(s: set<int>, a: int, b: int)
    requires |s| == 1 && a in s && b in s
    ensures a == b
  {
    assert |s - {a}| == 0;
    assert b in s - {a} || b == a;
  }

  /** The hand the classification reports, unfolded over the scans of the sorted cards. */
  lemma BestHandUnfold(cards: seq<Card>)
    requires SortedHand(cards)
    ensures TieBreaksReady(cards)
    ensures BestHand(cards) ==
      Classify(AllSameSuit(cards), StraightScan(Ranks(cards)), StraightScanHigh(Ranks(cards)),
               CountTable(Ranks(cards)), cards[0].suit.value, Ranks(cards)[4])
  {
    TieBreaksDefined(cards);
  }

  /**
   * The category reported is the first that matches, in the order royal
   * flush, straight flush, four of a kind, full house, flush, straight and
   * then the kicker categories: each is reported exactly when it matches and
   * no earlier one does.
   */
  lemma BestHandFirstMatch(cards: seq<Card>)
    requires SortedHand(cards)
    ensures var r, flush, straight := BestHand(cards), AllSameSuit(cards), StraightScan(Ranks(cards));
      r.RoyalFlush? <==> straight && flush && StraightScanHigh(Ranks(cards)) == Some(14)
    ensures var r, flush, straight := BestHand(cards), AllSameSuit(cards), StraightScan(Ranks(cards));
      (r.RoyalFlush? || r.StraightFlush?) <==> straight && flush
    ensures var r, flush, straight, t := BestHand(cards), AllSameSuit(cards), StraightScan(Ranks(cards)), CountTable(Ranks(cards));
      r.FourOfAKind? <==> !(straight && flush) && RanksWithCount(t, 4, 15) != {}
    ensures var r, flush, straight, t := BestHand(cards), AllSameSuit(cards), StraightScan(Ranks(cards)), CountTable(Ranks(cards));
      r.FullHouse? <==>
        !(straight && flush) && RanksWithCount(t, 4, 15) == {} &&
        RanksWithCount(t, 3, 15) != {} && RanksWithCount(t, 2, 15) != {}
    ensures var r, flush, straight, t := BestHand(cards), AllSameSuit(cards), StraightScan(Ranks(cards)), CountTable(Ranks(cards));
      r.Flush? <==>
        flush && !straight && RanksWithCount(t, 4, 15) == {} &&
        !(RanksWithCount(t, 3, 15) != {} && RanksWithCount(t, 2, 15) != {})
    ensures var r, flush, straight, t := BestHand(cards), AllSameSuit(cards), StraightScan(Ranks(cards)), CountTable(Ranks(cards));
      r.Straight? <==>
        straight && !flush && RanksWithCount(t, 4, 15) == {} &&
        !(RanksWithCount(t, 3, 15) != {} && RanksWithCount(t, 2, 15) != {})
    ensures var r, flush, straight, t := BestHand(cards), AllSameSuit(cards), StraightScan(Ranks(cards)), CountTable(Ranks(cards));
      (r.ThreeOfAKind? || r.TwoPair? || r.Pair? || r.HighCard?) <==>
        !flush && !straight && RanksWithCount(t, 4, 15) == {} &&
        !(RanksWithCount(t, 3, 15) != {} && RanksWithCount(t, 2, 15) != {})
    ensures TieBreaksReady(cards)
    ensures var r, t := BestHand(cards), CountTable(Ranks(cards));
      (r.ThreeOfAKind? || r.TwoPair? || r.Pair? || r.HighCard?) ==> r == ClassifyByKickers(t, Ranks(cards)[4])
  {
    BestHandUnfold(cards);
    ClassifyFirstMatch(AllSameSuit(cards), StraightScan(Ranks(cards)), StraightScanHigh(Ranks(cards)),
                       CountTable(Ranks(cards)), cards[0].suit.value, Ranks(cards)[4]);
  }

  /** The preconditions of `Classify` for the scans of a sorted hand. */
  predicate TieBreaksReady(cards: seq<Card>)
    requires SortedHand(cards)
  {
    var rs := Ranks(cards);
    (StraightScan(rs) && StraightScanHigh(rs) == None ==> RanksWithCount(CountTable(rs), 4, 15) != {} && !AllSameSuit(cards)) &&
    RanksOtherThan(CountTable(rs), 3, 15) != {} && RanksOtherThan(CountTable(rs), 2, 15) != {}
  }

  /** The four-of-a-kind rank occurs four times. */
  lemma FourOfAKindCounts(cards: seq<Card>)
    requires SortedHand(cards) && BestHand(cards).FourOfAKind?
    ensures CountOf(Ranks(cards), BestHand(cards).rank) == 4
  {
    var rs := Ranks(cards);
    SortedHandRanks(cards);
    BestHandUnfold(cards);
    InCountSets(rs, 4, BestHand(cards).rank);
  }

  /** The full-house triple occurs three times and its pair twice. */
  lemma FullHouseCounts(cards: seq<Card>)
    requires SortedHand(cards) && BestHand(cards).FullHouse?
    ensures CountOf(Ranks(cards), BestHand(cards).triple) == 3
    ensures CountOf(Ranks(cards), BestHand(cards).pair) == 2
  {
    var rs := Ranks(cards);
    SortedHandRanks(cards);
    BestHandUnfold(cards);
    InCountSets(rs, 3, BestHand(cards).triple);
    InCountSets(rs, 2, BestHand(cards).pair);
  }

  /**
   * Three of a kind: its rank occurs three times, the other two cards are
   * singles, and the kicker is the highest of them. The hand is neither a
   * flush nor a straight.
   */
  lemma ThreeOfAKindCounts(cards: seq<Card>)
    requires SortedHand(cards) && BestHand(cards).ThreeOfAKind?
    ensures CountOf(Ranks(cards), BestHand(cards).rank) == 3
    ensures forall x :: x in Ranks(cards) && x != BestHand(cards).rank ==> CountOf(Ranks(cards), x) == 1
    ensures BestHand(cards).kicker in Ranks(cards) && BestHand(cards).kicker != BestHand(cards).rank
    ensures forall i :: 0 <= i < 5 && Ranks(cards)[i] != BestHand(cards).rank ==> Ranks(cards)[i] <= BestHand(cards).kicker
    ensures !AllSameSuit(cards) && !StraightScan(Ranks(cards))
  {
    var rs := Ranks(cards);
    var best := BestHand(cards);
    SortedHandRanks(cards);
    BestHandUnfold(cards);
    var t := CountTable(rs);
    var r, k := best.rank, best.kicker;
    InCountSets(rs, 3, r);
    InCountSets(rs, 3, k);
    assert RanksWithCount(t, 2, 15) == {};
    forall x | x in rs && x != r
      ensures CountOf(rs, x) == 1 && x in RanksOtherThan(t, 3, 15)
    {
      InCountSets(rs, 2, x);
      InCountSets(rs, 3, x);
      CountTwoBound(rs, x, r);
    }
    forall i | 0 <= i < 5 && rs[i] != r ensures rs[i] <= k {
      assert rs[i] in rs;
    }
  }

  /**
   * Two pair: exactly two ranks occur twice, the high one above the low one,
   * and the kicker is the one rank that occurs once.
   */
  lemma TwoPairCounts(cards: seq<Card>)
    requires SortedHand(cards) && BestHand(cards).TwoPair?
    ensures BestHand(cards).low < BestHand(cards).high
    ensures CountOf(Ranks(cards), BestHand(cards).high) == 2 && CountOf(Ranks(cards), BestHand(cards).low) == 2
    ensures forall x :: CountOf(Ranks(cards), x) == 2 ==> x == BestHand(cards).high || x == BestHand(cards).low
    ensures CountOf(Ranks(cards), BestHand(cards).kicker) == 1
    ensures forall x :: CountOf(Ranks(cards), x) == 1 ==> x == BestHand(cards).kicker
    ensures !AllSameSuit(cards) && !StraightScan(Ranks(cards))
  {
    var rs := Ranks(cards);
    var best := BestHand(cards);
    SortedHandRanks(cards);
    BestHandUnfold(cards);
    var t := CountTable(rs);
    var pairs := RanksWithCount(t, 2, 15);
    var h, l, k := best.high, best.low, best.kicker;
    SecondMinBounds(pairs);
    InCountSets(rs, 2, h);
    InCountSets(rs, 2, l);
    InCountSets(rs, 2, k);
    CountThreeBound(rs, h, l, k);
    forall x | CountOf(rs, x) == 2 ensures x == h || x == l {
      if x != h && x != l {
        CountThreeBound(rs, h, l, x);
      }
    }
    forall x | CountOf(rs, x) == 1 ensures x == k {
      if x != k {
        CountFourBound(rs, h, l, k, x);
      }
    }
  }

  /**
   * Pair: its rank occurs twice, the other three cards are singles, and the
   * kicker is the highest of them.
   */
  lemma PairCounts(cards: seq<Card>)
    requires SortedHand(cards) && BestHand(cards).Pair?
    ensures CountOf(Ranks(cards), BestHand(cards).rank) == 2
    ensures forall x :: x in Ranks(cards) && x != BestHand(cards).rank ==> CountOf(Ranks(cards), x) == 1
    ensures CountOf(Ranks(cards), BestHand(cards).kicker) == 1
    ensures forall i :: 0 <= i < 5 && Ranks(cards)[i] != BestHand(cards).rank ==> Ranks(cards)[i] <= BestHand(cards).kicker
    ensures !AllSameSuit(cards) && !StraightScan(Ranks(cards))
  {
    var rs := Ranks(cards);
    var best := BestHand(cards);
    SortedHandRanks(cards);
    BestHandUnfold(cards);
    var t := CountTable(rs);
    var pairs := RanksWithCount(t, 2, 15);
    var r, k := best.rank, best.kicker;
    assert |pairs| == 1;
    InCountSets(rs, 2, r);
    InCountSets(rs, 2, k);
    forall x | x in rs && x != r
      ensures CountOf(rs, x) == 1 && x in RanksOtherThan(t, 2, 15)
    {
      InCountSets(rs, 2, x);
      InCountSets(rs, 3, x);
      InCountSets(rs, 4, x);
      CountTwoBound(rs, x, r);
      if CountOf(rs, x) == 2 {
        OnlyElement(pairs, r, x);
      }
    }
    forall i | 0 <= i < 5 && rs[i] != r ensures rs[i] <= k {
      assert rs[i] in rs;
    }
  }

  /** High card: every rank occurs once, and the reported rank is the highest. */
  lemma HighCardCounts(cards: seq<Card>)
    requires SortedHand(cards) && BestHand(cards).HighCard?
    ensures forall x :: x in Ranks(cards) ==> CountOf(Ranks(cards), x) == 1
    ensures BestHand(cards).rank in Ranks(cards)
    ensures forall i :: 0 <= i < 5 ==> Ranks(cards)[i] <= BestHand(cards).rank
    ensures !AllSameSuit(cards) && !StraightScan(Ranks(cards))
  {
    var rs := Ranks(cards);
    SortedHandRanks(cards);
    BestHandUnfold(cards);
    forall x | x in rs ensures CountOf(rs, x) == 1 {
      InCountSets(rs, 2, x);
      InCountSets(rs, 3, x);
      InCountSets(rs, 4, x);
      NoFiveOfAKind(cards, x);
    }
  }

  /** The wheel: the one run in which the Ace counts as a one. */
  const Wheel: seq<int> := [2, 3, 4, 5, 14]

  /**
   * On five different ranks in increasing order, `isStraight` holds exactly
   * for five consecutive ranks and for the wheel, and records 5 as the high
   * card of the wheel and the top rank of any other straight.
   */
  lemma StraightOnDistinctRanks(rs: seq<int>)
    requires |rs| == 5 && Increasing(rs)
    requires forall i :: 0 <= i < 5 ==> 2 <= rs[i] <= 14
    ensures StraightScan(rs) <==> Consecutive(rs) || rs == Wheel
    ensures StraightScan(rs) ==> StraightScanHigh(rs) == Some(if rs == Wheel then 5 else rs[4])
  {
    if AceLowRun(rs) {
      assert rs[3] < rs[4] == 14;
      assert rs == Wheel;
    }
    if rs == Wheel {
      assert AceLowRun(rs);
      assert !Consecutive(rs) by {
        assert rs[1] != rs[0] + 4;
      }
    }
    if Consecutive(rs) {
      assert rs[4] == rs[0] + 4;
    }
  }

  /** A flush of different cards has five different ranks. */
  lemma FlushRanksIncrease(cards: seq<Card>)
    requires SortedHand(cards) && AllSameSuit(cards)
    ensures Increasing(Ranks(cards))
  {
    var rs := Ranks(cards);
    forall i, j | 0 <= i < j < 5 ensures rs[i] < rs[j] {
      assert cards[i].suit == cards[j].suit;
      assert !Equals(cards[j], cards[i]);
    }
  }

  /**
   * A straight flush is a real run of one suit: five consecutive ranks below
   * the Ace high, or the wheel with 5 high; a royal flush is 10 to Ace.
   */
  lemma StraightFlushIsRun(cards: seq<Card>)
    requires SortedHand(cards) && (BestHand(cards).StraightFlush? || BestHand(cards).RoyalFlush?)
    ensures AllSameSuit(cards) && StraightScan(Ranks(cards))
    ensures BestHand(cards).RoyalFlush? ==> Ranks(cards) == [10, 11, 12, 13, 14]
    ensures BestHand(cards).StraightFlush? ==>
      cards[0].suit == Some(BestHand(cards).suit) &&
      ((Consecutive(Ranks(cards)) && BestHand(cards).high == Ranks(cards)[4] < 14) ||
       (Ranks(cards) == Wheel && BestHand(cards).high == 5))
  {
    var rs := Ranks(cards);
    SortedHandRanks(cards);
    BestHandUnfold(cards);
    FlushRanksIncrease(cards);
    StraightOnDistinctRanks(rs);
    if BestHand(cards).RoyalFlush? {
      assert rs != Wheel;
      assert rs[4] == 14;
    }
  }

  /**
   * A flush: all five cards share the reported suit, their ranks differ and
   * form neither a run nor the wheel, and the reported rank is the highest.
   */
  lemma FlushFacts(cards: seq<Card>)
    requires SortedHand(cards) && BestHand(cards).Flush?
    ensures forall i :: 0 <= i < 5 ==> cards[i].suit == Some(BestHand(cards).suit)
    ensures Increasing(Ranks(cards)) && !Consecutive(Ranks(cards)) && Ranks(cards) != Wheel
    ensures BestHand(cards).high == Ranks(cards)[4]
    ensures forall i :: 0 <= i < 5 ==> Ranks(cards)[i] <= BestHand(cards).high
  {
    var rs := Ranks(cards);
    SortedHandRanks(cards);
    BestHandUnfold(cards);
    FlushRanksIncrease(cards);
    StraightOnDistinctRanks(rs);
  }

  /**
   * A straight that is not a flush: five consecutive ranks with the top one
   * reported, or a run up to 5 completed by Aces with 5 reported. The second
   * case takes in 3,4,5,A,A and 4,5,A,A,A as well as the wheel.
   */
  lemma StraightFacts(cards: seq<Card>)
    requires SortedHand(cards) && BestHand(cards).Straight?
    ensures !AllSameSuit(cards) && StraightScan(Ranks(cards))
    ensures (Consecutive(Ranks(cards)) && BestHand(cards).high == Ranks(cards)[4]) ||
            (AceLowRun(Ranks(cards)) && BestHand(cards).high == 5)
  {
    var rs := Ranks(cards);
    SortedHandRanks(cards);
    BestHandUnfold(cards);
  }

  /** A non-empty sequence is its front followed by its last element. */
  lemma LastSplit<T>(s: seq<T>)
    requires s != []
    ensures s == s[..|s| - 1] + [s[|s| - 1]]
  {
  }

  /** The stable sort leaves cards that are already in rank order as they are. */
  lemma {:induction false} SortKeepsSorted(cards: seq<Card>)
    requires AllClassifiable(cards) && SortedByRank(cards)
    ensures SortByRank(cards) == cards
  {
    if cards != [] {
      var n := |cards| - 1;
      var front := cards[..n];
      SortedPrefix(cards, n);
      SortKeepsSorted(front);
      assert SortByRank(cards) == Insert(front, cards[n]);
      assert n > 0 ==> front[n - 1].rank.value <= cards[n].rank.value;
      assert Insert(front, cards[n]) == front + [cards[n]];
      LastSplit(cards);
    }
  }

  /**
   * The Ace branch of `isStraight` accepts any climb up to 5 followed by
   * Aces: 3,4,5,A,A and 4,5,A,A,A pass as straights with 5 high, and
   * 5,A,A,A,A passes without any high card recorded.
   */
  lemma AceBranchAcceptsRepeatedAces()
    ensures StraightScan([3, 4, 5, 14, 14]) && StraightScanHigh([3, 4, 5, 14, 14]) == Some(5)
    ensures StraightScan([4, 5, 14, 14, 14]) && StraightScanHigh([4, 5, 14, 14, 14]) == Some(5)
    ensures StraightScan([5, 14, 14, 14, 14]) && StraightScanHigh([5, 14, 14, 14, 14]) == None
    ensures !StraightScan([3, 4, 5, 6, 14])
  {
    assert AceLowRun([3, 4, 5, 14, 14]);
    assert AceLowRun([4, 5, 14, 14, 14]);
    assert AceLowRun([5, 14, 14, 14, 14]);
    var r := [3, 4, 5, 6, 14];
    assert r[4] != r[0] + 4 && r[3] != 14;
  }

  /**
   * The rank and suit of a two-character token such as "Ah" or "5d". A
   * token whose suit character takes one UTF-16 code unit has two or three
   * code units, so it is split into its first character and its last.
   */
  lemma ParseTwoCharToken(r: char, s: char)
    requires CodeUnits(s) == 1
    ensures ParseCard([r, s]) == Card([r, s], ParseRank([r]), ParseSuit(s))
  {
    var token := [r, s];
    assert token[..|token| - 1] == [r];
    assert JsLength([r]) == CodeUnits(r);
  }

  /**
   * "A😀": the rank part JavaScript slices off is "A" followed by half of the
   * emoji, so the card has no rank, where a reading by characters would
   * have found an ace.
   */
  lemma AceWithEmojiHasNoRank()
    ensures ParseCard(['A', '\U{1F600}']).rank == None
    ensures ParseRank(['A']) == Some(14)
    ensures CardInvalidReason(ParseCard(['A', '\U{1F600}'])) == Some(InvalidRank)
  {
    var token := ['A', '\U{1F600}'];
    assert CodeUnits(token[|token| - 1]) == 2;
    ParseRankLetter('A');
  }

  /** The cards of "4h 5d Ah As Ac", in rank order already. */
  const ThreeAces: seq<Card> := [
    Card("4h", Some(4), Some(Hearts)), Card("5d", Some(5), Some(Diamonds)),
    Card("Ah", Some(14), Some(Hearts)), Card("As", Some(14), Some(Spades)), Card("Ac", Some(14), Some(Clubs))]

  const ThreeAcesTokens: seq<string> := ["4h", "5d", "Ah", "As", "Ac"]

  lemma ThreeAcesCards()
    ensures forall k :: 0 <= k < 5 ==> ParseCard(ThreeAcesTokens[k]) == ThreeAces[k]
  {
    ParseRankDigit('4');
    ParseRankDigit('5');
    ParseRankLetter('A');
    forall k | 0 <= k < 5 ensures ParseCard(ThreeAcesTokens[k]) == ThreeAces[k] {
      var t := ThreeAcesTokens[k];
      assert |t| == 2;
      ParseTwoCharToken(t[0], t[1]);
      assert t == [t[0], t[1]];
    }
  }

  /** A run of whitespace between two cards counts as one separator: "Ah \t Kh" holds two tokens. */
  lemma WhitespaceRunSeparatesTokens()
    ensures HandTokens("Ah \t Kh") == ["Ah", "Kh"]
  {
    assert Separator(" \t ");
    assert Interleave(["Ah", "Kh"], [" \t "]) == "Ah \t Kh";
    SeparatedTokens(["Ah", "Kh"], [" \t "]);
  }

  /** Plain tokens joined by single spaces parse to the cards the tokens parse to. */
  lemma ParseJoinedCards(tokens: seq<string>, cards: seq<Card>)
    requires PlainTokens(tokens) && |tokens| == |cards|
    requires forall k :: 0 <= k < |tokens| ==> ParseCard(tokens[k]) == cards[k]
    ensures ParseHand(Join(tokens)) == cards
  {
    ParseJoinedHand(tokens);
  }

  lemma ThreeAcesTokensPlain()
    ensures PlainTokens(ThreeAcesTokens)
  {
    forall k, i | 0 <= k < 5 && 0 <= i < |ThreeAcesTokens[k]| ensures !IsWhitespace(ThreeAcesTokens[k][i]) {
      var c := ThreeAcesTokens[k][i];
      assert c in "45dhsAc";
    }
  }

  lemma ParseThreeAces()
    ensures ParseHand("4h 5d Ah As Ac") == ThreeAces
  {
    assert Join(ThreeAcesTokens) == "4h 5d Ah As Ac";
    ThreeAcesCards();
    ThreeAcesTokensPlain();
    ParseJoinedCards(ThreeAcesTokens, ThreeAces);
  }

  lemma ThreeAcesValid()
    ensures ValidHand(ThreeAces)
  {
    var cards := ThreeAces;
    forall i, j | 0 <= j < i < 5 ensures !Equals(cards[i], cards[j]) {
      if j <= 1 {
        assert cards[i].rank != cards[j].rank;
      } else {
        assert cards[i].suit != cards[j].suit;
      }
    }
  }

  lemma ThreeAcesSortedHand()
    ensures ValidHand(ThreeAces) && ValidateHand(ThreeAces) == None
    ensures AllClassifiable(ThreeAces) && SortByRank(ThreeAces) == ThreeAces && SortedHand(ThreeAces)
  {
    ThreeAcesValid();
    ValidateHandSpec(ThreeAces);
    assert AllClassifiable(ThreeAces) && SortedByRank(ThreeAces);
    SortKeepsSorted(ThreeAces);
  }

  lemma ThreeAcesBestHand()
    requires SortedHand(ThreeAces)
    ensures BestHand(ThreeAces) == Straight(5)
  {
    var rs := Ranks(ThreeAces);
    assert rs == [4, 5, 14, 14, 14];
    AceBranchAcceptsRepeatedAces();
    assert !AllSameSuit(ThreeAces) by {
      assert ThreeAces[1].suit != ThreeAces[0].suit;
    }
    var t := CountTable(rs);
    CountTableFacts(rs);
    CountOfFive(rs, 14);
    assert RanksWithCount(t, 4, 15) == {} by {
      forall x | x in RanksWithCount(t, 4, 15) ensures false {
        CountOfFive(rs, x);
      }
    }
    assert 14 in RanksWithCount(t, 3, 15);
    assert RanksWithCount(t, 2, 15) == {} by {
      forall x | x in RanksWithCount(t, 2, 15) ensures false {
        CountOfFive(rs, x);
      }
    }
    BestHandUnfold(ThreeAces);
  }

  /**
   * "4h 5d Ah As Ac" holds three Aces, yet the evaluator reports a straight
   * with 5 high: the Ace branch of `isStraight` takes 4,5,A,A,A for a run,
   * and straights are tried before three of a kind.
   */
  lemma ThreeAcesReportedAsStraight()
    ensures Evaluate("4h 5d Ah As Ac") == Ok(Straight(5))
  {
    ParseThreeAces();
    ThreeAcesSortedHand();
    ThreeAcesBestHand();
  }
}
