/**
 * The classification of `Hand.calculateBestPokerHand`, stated as functions of
 * the cards: the sort at the start, the flush and straight scans, the
 * rank-to-count table and the first matching category with its tie-break ranks.
 */
module Ranking {
  import opened Wrappers
  import opened Cards

  predicate AllClassifiable(cards: seq<Card>) {
    forall i :: 0 <= i < |cards| ==> Classifiable(cards[i])
  }

  /** The ranks of the cards, in order. */
  function Ranks(cards: seq<Card>): seq<int>
    requires AllClassifiable(cards)
  {
    seq(|cards|, i requires 0 <= i < |cards| => cards[i].rank.value)
  }

  predicate Sorted(ranks: seq<int>) {
    forall i, j :: 0 <= i < j < |ranks| ==> ranks[i] <= ranks[j]
  }

  predicate Increasing(s: seq<int>) {
    forall i, j :: 0 <= i < j < |s| ==> s[i] < s[j]
  }

  predicate SortedByRank(cards: seq<Card>)
    requires AllClassifiable(cards)
  {
    forall i, j :: 0 <= i < j < |cards| ==> cards[i].rank.value <= cards[j].rank.value
  }

  /** No two cards are `equals`. */
  predicate Distinct(cards: seq<Card>) {
    forall i, j :: 0 <= j < i < |cards| ==> !Equals(cards[i], cards[j])
  }

  /** A hand `isValidHand` accepts: five classifiable cards, no two equal. */
  predicate ReadyHand(cards: seq<Card>) {
    |cards| == 5 && AllClassifiable(cards) && Distinct(cards)
  }

  /** A ready hand once line 98 has sorted it. */
  predicate SortedHand(cards: seq<Card>) {
    ReadyHand(cards) && SortedByRank(cards)
  }

  // ---------------------------------------------------------------------------
  // Sorting (line 98). `Array.prototype.sort` is stable, so its result is the
  // one sorted permutation that keeps cards of equal rank in input order:
  // the result of inserting the cards one by one, as below.
  // ---------------------------------------------------------------------------

  /** The highest rank among `sorted` (its last card) and `card`. */
  function TopRank(sorted: seq<Card>, card: Card): int
    requires AllClassifiable(sorted) && Classifiable(card)
  {
    if sorted == [] || sorted[|sorted| - 1].rank.value <= card.rank.value then card.rank.value
    else sorted[|sorted| - 1].rank.value
  }

  /** Appending a card ranked at least as high as every other keeps cards sorted. */
  lemma SortedSnoc(cards: seq<Card>, card: Card)
    requires AllClassifiable(cards) && Classifiable(card) && SortedByRank(cards)
    requires forall i :: 0 <= i < |cards| ==> cards[i].rank.value <= card.rank.value
    ensures AllClassifiable(cards + [card]) && SortedByRank(cards + [card])
  {
  }

  /** A prefix of sorted, classifiable cards is sorted and classifiable. */
  lemma SortedPrefix(cards: seq<Card>, n: nat)
    requires AllClassifiable(cards) && SortedByRank(cards) && n <= |cards|
    ensures AllClassifiable(cards[..n]) && SortedByRank(cards[..n])
  {
  }

  /** `sorted` with `card` placed after every card of rank at most its own. */
  function Insert(sorted: seq<Card>, card: Card): (r: seq<Card>)
    requires AllClassifiable(sorted) && Classifiable(card) && SortedByRank(sorted)
    ensures AllClassifiable(r) && SortedByRank(r)
    ensures forall i :: 0 <= i < |r| ==> r[i].rank.value <= TopRank(sorted, card)
    ensures multiset(r) == multiset(sorted) + multiset{card}
    decreases |sorted|
  {
    if sorted == [] || sorted[|sorted| - 1].rank.value <= card.rank.value then
      SortedSnoc(sorted, card);
      sorted + [card]
    else
      var n := |sorted| - 1;
      SortedPrefix(sorted, n);
      var front := Insert(sorted[..n], card);
      InsertBehind(sorted, card, front, front + [sorted[n]]);
      front + [sorted[n]]
  }

  /**
   * The step of `Insert` that puts the last card of `sorted` back behind
   * `front`, the other cards with `card` already inserted.
   */
  lemma InsertBehind(sorted: seq<Card>, card: Card, front: seq<Card>, r: seq<Card>)
    requires AllClassifiable(sorted) && Classifiable(card) && SortedByRank(sorted)
    requires sorted != [] && card.rank.value < sorted[|sorted| - 1].rank.value
    requires AllClassifiable(front) && SortedByRank(front)
    requires forall i :: 0 <= i < |front| ==> front[i].rank.value <= TopRank(sorted[..|sorted| - 1], card)
    requires multiset(front) == multiset(sorted[..|sorted| - 1]) + multiset{card}
    requires r == front + [sorted[|sorted| - 1]]
    ensures AllClassifiable(r) && SortedByRank(r)
    ensures forall i :: 0 <= i < |r| ==> r[i].rank.value <= TopRank(sorted, card)
    ensures multiset(r) == multiset(sorted) + multiset{card}
  {
    var n := |sorted| - 1;
    assert sorted == sorted[..n] + [sorted[n]];
    assert TopRank(sorted[..n], card) <= sorted[n].rank.value;
    SortedSnoc(front, sorted[n]);
  }

  /** The order line 98 leaves the cards in. */
  function SortByRank(cards: seq<Card>): (r: seq<Card>)
    requires AllClassifiable(cards)
    ensures AllClassifiable(r) && SortedByRank(r)
    ensures multiset(r) == multiset(cards)
  {
    if cards == [] then []
    else
      var n := |cards| - 1;
      assert cards == cards[..n] + [cards[n]];
      Insert(SortByRank(cards[..n]), cards[n])
  }

  /** The card itself when it has rank `rank`, nothing otherwise. */
  function Keep(card: Card, rank: int): seq<Card> {
    if card.rank == Some(rank) then [card] else []
  }

  /** The cards of rank `rank`, in the order they come. */
  function OfRank(cards: seq<Card>, rank: int): seq<Card> {
    if cards == [] then [] else OfRank(cards[..|cards| - 1], rank) + Keep(cards[|cards| - 1], rank)
  }

  lemma OfRankSnoc(cards: seq<Card>, card: Card, rank: int)
    ensures OfRank(cards + [card], rank) == OfRank(cards, rank) + Keep(card, rank)
  {
    assert (cards + [card])[..|cards|] == cards;
  }

  /** Inserting a card puts it after every card of its own rank. */
  lemma {:induction false} InsertStable(sorted: seq<Card>, card: Card, rank: int)
    requires AllClassifiable(sorted) && Classifiable(card) && SortedByRank(sorted)
    ensures OfRank(Insert(sorted, card), rank) == OfRank(sorted, rank) + Keep(card, rank)
    decreases |sorted|
  {
    if sorted == [] || sorted[|sorted| - 1].rank.value <= card.rank.value {
      assert Insert(sorted, card) == sorted + [card];
      OfRankSnoc(sorted, card, rank);
    } else {
      var n := |sorted| - 1;
      var front := Insert(sorted[..n], card);
      assert Insert(sorted, card) == front + [sorted[n]];
      InsertStable(sorted[..n], card, rank);
      OfRankSnoc(front, sorted[n], rank);
      assert card.rank.value < sorted[n].rank.value;
      KeepSwap(OfRank(sorted[..n], rank), card, sorted[n], rank);
    }
  }

  /** Cards of different ranks contribute to at most one rank, so their order does not matter there. */
  lemma KeepSwap(before: seq<Card>, a: Card, b: Card, rank: int)
    requires a.rank != b.rank
    ensures before + Keep(a, rank) + Keep(b, rank) == before + Keep(b, rank) + Keep(a, rank)
  {
    if Keep(a, rank) == [] {
      assert before + [] == before;
    } else {
      assert Keep(b, rank) == [];
      assert before + [] == before;
    }
  }

  /**
   * The sort is stable: for every rank, the cards of that rank come out in
   * the order they went in.
   */
  lemma {:induction false} SortByRankStable(cards: seq<Card>, rank: int)
    requires AllClassifiable(cards)
    ensures OfRank(SortByRank(cards), rank) == OfRank(cards, rank)
  {
    if cards != [] {
      var n := |cards| - 1;
      assert SortByRank(cards) == Insert(SortByRank(cards[..n]), cards[n]);
      SortByRankStable(cards[..n], rank);
      InsertStable(SortByRank(cards[..n]), cards[n], rank);
    }
  }

  /** Appending a card equal to none already present keeps cards free of equal pairs. */
  lemma DistinctSnoc(front: seq<Card>, last: Card)
    requires Distinct(front)
    requires forall k :: 0 <= k < |front| ==> !Equals(last, front[k])
    ensures Distinct(front + [last])
  {
    var r := front + [last];
    forall i, j | 0 <= j < i < |r| ensures !Equals(r[i], r[j]) {
      assert r[j] == front[j];
      if i < |front| {
        assert r[i] == front[i];
      }
    }
  }

  lemma {:induction false} InsertDistinct(sorted: seq<Card>, card: Card)
    requires AllClassifiable(sorted) && Classifiable(card) && SortedByRank(sorted)
    requires Distinct(sorted)
    requires forall k :: 0 <= k < |sorted| ==> !Equals(card, sorted[k])
    ensures Distinct(Insert(sorted, card))
    decreases |sorted|
  {
    if sorted == [] || sorted[|sorted| - 1].rank.value <= card.rank.value {
      assert Insert(sorted, card) == sorted + [card];
      DistinctSnoc(sorted, card);
    } else {
      var n := |sorted| - 1;
      var prefix := sorted[..n];
      SortedPrefix(sorted, n);
      assert Distinct(prefix) by {
        forall i, j | 0 <= j < i < n ensures !Equals(prefix[i], prefix[j]) {
          assert prefix[i] == sorted[i] && prefix[j] == sorted[j];
        }
      }
      var front := Insert(prefix, card);
      InsertDistinct(prefix, card);
      assert Insert(sorted, card) == front + [sorted[n]];
      forall k | 0 <= k < |front| ensures !Equals(sorted[n], front[k]) {
        assert front[k] in multiset(front);
        if front[k] != card {
          assert front[k] in multiset(prefix);
          var m :| 0 <= m < n && prefix[m] == front[k];
          assert sorted[m] == front[k];
        }
      }
      DistinctSnoc(front, sorted[n]);
    }
  }

  /** A card equal to none of some cards is equal to none of any rearrangement of them. */
  lemma UnequalToPermutation(cards: seq<Card>, perm: seq<Card>, card: Card)
    requires multiset(perm) == multiset(cards)
    requires forall k :: 0 <= k < |cards| ==> !Equals(card, cards[k])
    ensures forall k :: 0 <= k < |perm| ==> !Equals(card, perm[k])
  {
    forall k | 0 <= k < |perm| ensures !Equals(card, perm[k]) {
      assert perm[k] in multiset(cards);
      var m :| 0 <= m < |cards| && cards[m] == perm[k];
    }
  }

  /** Sorting keeps a hand free of equal cards. */
  lemma {:induction false} SortByRankDistinct(cards: seq<Card>)
    requires AllClassifiable(cards) && Distinct(cards)
    ensures Distinct(SortByRank(cards))
  {
    if cards != [] {
      var n := |cards| - 1;
      var front := SortByRank(cards[..n]);
      SortByRankDistinct(cards[..n]);
      UnequalToPermutation(cards[..n], front, cards[n]);
      InsertDistinct(front, cards[n]);
    }
  }

  /** Line 98 turns a hand `isValidHand` accepted into a sorted one. */
  lemma SortReadyHand(cards: seq<Card>)
    requires ReadyHand(cards)
    ensures SortedHand(SortByRank(cards))
  {
    SortByRankDistinct(cards);
    assert |SortByRank(cards)| == |multiset(cards)| == 5;
  }

  /** Sorting keeps every card's rank, when it has one, in 2..14. */
  lemma SortByRankWellFormed(cards: seq<Card>)
    requires AllClassifiable(cards)
    requires forall i :: 0 <= i < |cards| ==> WellFormed(cards[i])
    ensures forall k :: 0 <= k < |SortByRank(cards)| ==> WellFormed(SortByRank(cards)[k])
  {
    var sorted := SortByRank(cards);
    forall k | 0 <= k < |sorted| ensures WellFormed(sorted[k]) {
      assert sorted[k] in multiset(cards);
    }
  }

  // ---------------------------------------------------------------------------
  // The rank-to-count table of `calculateMatchingCards`.
  // ---------------------------------------------------------------------------

  /** The number of times `rank` occurs in `ranks`. */
  function CountOf(ranks: seq<int>, rank: int): (n: nat)
    ensures n <= |ranks|
    ensures n > 0 <==> rank in ranks
  {
    if ranks == [] then 0
    else
      var m := |ranks| - 1;
      assert ranks == ranks[..m] + [ranks[m]];
      CountOf(ranks[..m], rank) + (if ranks[m] == rank then 1 else 0)
  }

  /**
   * The object `matchingCards`: the table built by counting the ranks one by
   * one, as `calculateMatchingCards` does.
   */
  function CountTable(ranks: seq<int>): (t: map<int, nat>)
    ensures forall r :: r in t ==> 1 <= t[r] <= |ranks|
  {
    if ranks == [] then map[]
    else
      var m := |ranks| - 1;
      var t := CountTable(ranks[..m]);
      t[ranks[m] := Get(t, ranks[m]) + 1]
  }

  /** The table holds exactly the ranks that occur, each mapped to its number of occurrences. */
  lemma {:induction false} CountTableFacts(ranks: seq<int>)
    ensures forall r :: r in CountTable(ranks) <==> r in ranks
    ensures forall r :: Get(CountTable(ranks), r) == CountOf(ranks, r)
  {
    if ranks != [] {
      var m := |ranks| - 1;
      CountTableFacts(ranks[..m]);
      assert ranks == ranks[..m] + [ranks[m]];
      assert forall r :: r in ranks <==> r in ranks[..m] || r == ranks[m];
    }
  }

  /** Counting one more card adds one to its rank's entry and changes no other entry. */
  lemma CountTableStep(ranks: seq<int>, x: int)
    ensures CountTable(ranks + [x]) == CountTable(ranks)[x := Get(CountTable(ranks), x) + 1]
  {
    assert (ranks + [x])[..|ranks|] == ranks;
  }

  lemma CountOfPrefix(ranks: seq<int>, k: nat, r: int)
    requires k < |ranks|
    ensures CountOf(ranks[..k + 1], r) == CountOf(ranks[..k], r) + (if ranks[k] == r then 1 else 0)
  {
    assert ranks[..k + 1][..k] == ranks[..k];
  }

  /** The count of a rank in five cards, card by card. */
  lemma CountOfFive(ranks: seq<int>, r: int)
    requires |ranks| == 5
    ensures CountOf(ranks, r) ==
      (if ranks[0] == r then 1 else 0) + (if ranks[1] == r then 1 else 0) + (if ranks[2] == r then 1 else 0)
      + (if ranks[3] == r then 1 else 0) + (if ranks[4] == r then 1 else 0)
  {
    assert ranks[..0] == [];
    assert ranks[..5] == ranks;
    CountOfPrefix(ranks, 0, r);
    CountOfPrefix(ranks, 1, r);
    CountOfPrefix(ranks, 2, r);
    CountOfPrefix(ranks, 3, r);
    CountOfPrefix(ranks, 4, r);
  }

  /** An entry of the table, 0 for a rank it lacks. */
  function Get(t: map<int, nat>, r: int): nat {
    if r in t then t[r] else 0
  }

  /** The sum of the table's entries for the ranks lo..hi-1. */
  function TableTotal(t: map<int, nat>, lo: int, hi: int): nat
    decreases hi - lo
  {
    if hi <= lo then 0 else TableTotal(t, lo, hi - 1) + Get(t, hi - 1)
  }

  /** The sum of the occurrence counts of the ranks lo..hi-1. */
  function CountTotal(ranks: seq<int>, lo: int, hi: int): nat
    decreases hi - lo
  {
    if hi <= lo then 0 else CountTotal(ranks, lo, hi - 1) + CountOf(ranks, hi - 1)
  }

  lemma {:induction false} CountTotalStep(ranks: seq<int>, lo: int, hi: int)
    requires ranks != []
    ensures CountTotal(ranks, lo, hi) ==
      CountTotal(ranks[..|ranks| - 1], lo, hi) + (if lo <= ranks[|ranks| - 1] < hi then 1 else 0)
    decreases hi - lo
  {
    if lo < hi {
      CountTotalStep(ranks, lo, hi - 1);
    }
  }

  lemma {:induction false} CountTotalEmpty(lo: int, hi: int)
    ensures CountTotal([], lo, hi) == 0
    decreases hi - lo
  {
    if lo < hi {
      CountTotalEmpty(lo, hi - 1);
    }
  }

  lemma {:induction false} CountTotalAll(ranks: seq<int>, lo: int, hi: int)
    requires forall i :: 0 <= i < |ranks| ==> lo <= ranks[i] < hi
    ensures CountTotal(ranks, lo, hi) == |ranks|
    decreases |ranks|
  {
    if ranks != [] {
      var front := ranks[..|ranks| - 1];
      assert forall i :: 0 <= i < |front| ==> front[i] == ranks[i];
      assert lo <= ranks[|ranks| - 1] < hi;
      CountTotalStep(ranks, lo, hi);
      CountTotalAll(front, lo, hi);
    } else {
      CountTotalEmpty(lo, hi);
    }
  }

  lemma {:induction false} TableTotalIsCountTotal(ranks: seq<int>, lo: int, hi: int)
    ensures TableTotal(CountTable(ranks), lo, hi) == CountTotal(ranks, lo, hi)
    decreases hi - lo
  {
    if lo < hi {
      TableTotalIsCountTotal(ranks, lo, hi - 1);
      CountTableFacts(ranks);
    }
  }

  /** The counts of the table add up to the number of cards: 5 for a hand. */
  lemma CountTableTotal(ranks: seq<int>)
    requires forall i :: 0 <= i < |ranks| ==> 2 <= ranks[i] <= 14
    ensures TableTotal(CountTable(ranks), 2, 15) == |ranks|
  {
    TableTotalIsCountTotal(ranks, 2, 15);
    CountTotalAll(ranks, 2, 15);
  }

  /** Two different ranks together occur at most once per card. */
  lemma {:induction false} CountTwoBound(ranks: seq<int>, a: int, b: int)
    requires a != b
    ensures CountOf(ranks, a) + CountOf(ranks, b) <= |ranks|
  {
    if ranks != [] {
      CountTwoBound(ranks[..|ranks| - 1], a, b);
    }
  }

  /** Three different ranks together occur at most once per card. */
  lemma {:induction false} CountThreeBound(ranks: seq<int>, a: int, b: int, c: int)
    requires a != b && b != c && a != c
    ensures CountOf(ranks, a) + CountOf(ranks, b) + CountOf(ranks, c) <= |ranks|
  {
    if ranks != [] {
      CountThreeBound(ranks[..|ranks| - 1], a, b, c);
    }
  }

  /** The ranks 2 <= r < hi of the table whose count is c. */
  function RanksWithCount(t: map<int, nat>, c: nat, hi: int): set<int> {
    set r | r in t && 2 <= r < hi && t[r] == c
  }

  /** The ranks 2 <= r < hi of the table whose count is not c. */
  function RanksOtherThan(t: map<int, nat>, c: nat, hi: int): set<int> {
    set r | r in t && 2 <= r < hi && t[r] != c
  }

  /** A non-empty set has an element. */
  lemma HasElement(s: set<int>)
    requires s != {}
    ensures exists y :: y in s
  {
    if forall y :: y !in s {
      assert false;
    }
  }

  /** A non-empty set has a least element. */
  lemma {:induction false} HasLeast(s: set<int>)
    requires s != {}
    ensures exists m :: m in s && forall x :: x in s ==> m <= x
    decreases s
  {
    HasElement(s);
    var y :| y in s;
    if s - {y} == {} {
      forall x | x in s ensures y <= x {
        assert x !in s - {y};
      }
      assert y in s;
    } else {
      HasLeast(s - {y});
      var m :| m in s - {y} && forall x :: x in s - {y} ==> m <= x;
      var w := if y < m then y else m;
      forall x | x in s ensures w <= x {
        if x != y {
          assert x in s - {y};
        }
      }
      assert w in s;
    }
  }

  /** A non-empty set has a greatest element. */
  lemma {:induction false} HasGreatest(s: set<int>)
    requires s != {}
    ensures exists m :: m in s && forall x :: x in s ==> x <= m
    decreases s
  {
    HasElement(s);
    var y :| y in s;
    if s - {y} == {} {
      forall x | x in s ensures x <= y {
        assert x !in s - {y};
      }
      assert y in s;
    } else {
      HasGreatest(s - {y});
      var m :| m in s - {y} && forall x :: x in s - {y} ==> x <= m;
      var w := if y > m then y else m;
      forall x | x in s ensures x <= w {
        if x != y {
          assert x in s - {y};
        }
      }
      assert w in s;
    }
  }

  /** The largest rank of a non-empty set. */
  ghost function Max(s: set<int>): (m: int)
    requires s != {}
    ensures m in s && forall x :: x in s ==> x <= m
  {
    HasGreatest(s);
    var m :| m in s && forall x :: x in s ==> x <= m;
    m
  }

  /** The smallest rank of a non-empty set. */
  ghost function Min(s: set<int>): (m: int)
    requires s != {}
    ensures m in s && forall x :: x in s ==> m <= x
  {
    HasLeast(s);
    var m :| m in s && forall x :: x in s ==> m <= x;
    m
  }

  /** The largest rank of a set, None for the empty set. */
  ghost function MaxOrNone(s: set<int>): Option<int> {
    if s == {} then None else Some(Max(s))
  }

  /** Removing one element of a set of two or more leaves a non-empty set. */
  lemma OneRemoved(s: set<int>, y: int)
    requires |s| >= 2 && y in s
    ensures s - {y} != {}
  {
    assert |s - {y}| == |s| - 1;
  }

  /** The second smallest rank of a set of two or more; its bounds are `SecondMinBounds`. */
  ghost function SecondMin(s: set<int>): (m: int)
    requires |s| >= 2
    ensures m in s && m != Min(s)
  {
    OneRemoved(s, Min(s));
    Min(s - {Min(s)})
  }

  lemma SecondMinBounds(s: set<int>)
    requires |s| >= 2
    ensures Min(s) < SecondMin(s)
    ensures forall x :: x in s && x != Min(s) ==> SecondMin(s) <= x
  {
    var m := Min(s);
    var rest := s - {m};
    OneRemoved(s, m);
    assert SecondMin(s) == Min(rest);
    forall x | x in s && x != m ensures Min(rest) <= x {
      assert x in rest;
    }
  }

  /** The one element of a set at least as large as all of them is its `Max`. */
  lemma MaxIs(s: set<int>, m: int)
    requires m in s && forall x :: x in s ==> x <= m
    ensures Max(s) == m
  {
  }

  /** The one element of a set at most as large as all of them is its `Min`. */
  lemma MinIs(s: set<int>, m: int)
    requires m in s && forall x :: x in s ==> m <= x
    ensures Min(s) == m
  {
  }

  /** Scanning a rank whose count is c: it joins the count-c ranks as their highest. */
  lemma CountStep(t: map<int, nat>, c: nat, rank: int)
    requires 2 <= rank && rank in t && t[rank] == c
    ensures RanksWithCount(t, c, rank + 1) != {} && Max(RanksWithCount(t, c, rank + 1)) == rank
    ensures RanksOtherThan(t, c, rank + 1) == RanksOtherThan(t, c, rank)
  {
    MaxIs(RanksWithCount(t, c, rank + 1), rank);
  }

  /** Scanning a rank whose count is not c: it joins the other ranks as their highest. */
  lemma OtherStep(t: map<int, nat>, c: nat, rank: int)
    requires 2 <= rank && rank in t && t[rank] != c
    ensures RanksWithCount(t, c, rank + 1) == RanksWithCount(t, c, rank)
    ensures RanksOtherThan(t, c, rank + 1) != {} && Max(RanksOtherThan(t, c, rank + 1)) == rank
    ensures RanksOtherThan(t, c, rank) != {} ==> Max(RanksOtherThan(t, c, rank)) < rank
  {
    MaxIs(RanksOtherThan(t, c, rank + 1), rank);
  }

  /**
   * Scanning a rank whose count is 2: the pairs grow by one; the lowest pair
   * stays, or is this rank when it is the first; the second lowest is this
   * rank when it is the second, and stays after that.
   */
  lemma PairStep(t: map<int, nat>, rank: int)
    requires 2 <= rank && rank in t && t[rank] == 2
    ensures |RanksWithCount(t, 2, rank + 1)| == |RanksWithCount(t, 2, rank)| + 1
    ensures RanksWithCount(t, 2, rank) == {} ==> Min(RanksWithCount(t, 2, rank + 1)) == rank
    ensures RanksWithCount(t, 2, rank) != {} ==>
      Min(RanksWithCount(t, 2, rank + 1)) == Min(RanksWithCount(t, 2, rank)) < rank
    ensures |RanksWithCount(t, 2, rank)| == 1 ==> SecondMin(RanksWithCount(t, 2, rank + 1)) == rank
    ensures |RanksWithCount(t, 2, rank)| >= 2 ==>
      SecondMin(RanksWithCount(t, 2, rank + 1)) == SecondMin(RanksWithCount(t, 2, rank))
    ensures RanksOtherThan(t, 2, rank + 1) == RanksOtherThan(t, 2, rank)
  {
    var pairs := RanksWithCount(t, 2, rank);
    assert RanksWithCount(t, 2, rank + 1) == pairs + {rank};
    PairAdded(pairs, rank);
  }

  /** Scanning a rank the table does not hold changes neither set. */
  lemma AbsentStep(t: map<int, nat>, c: nat, rank: int)
    requires rank !in t
    ensures RanksWithCount(t, c, rank + 1) == RanksWithCount(t, c, rank)
    ensures RanksOtherThan(t, c, rank + 1) == RanksOtherThan(t, c, rank)
  {
    assert RanksWithCount(t, c, rank + 1) == RanksWithCount(t, c, rank);
    assert RanksOtherThan(t, c, rank + 1) == RanksOtherThan(t, c, rank);
  }

  /**
   * Adding a rank above every rank of a set: the count grows by one, the
   * smallest stays (or is the new rank), and the second smallest stays (or is
   * the new rank when the set had one element).
   */
  lemma PairAdded(s: set<int>, r: int)
    requires forall x :: x in s ==> x < r
    ensures |s + {r}| == |s| + 1
    ensures Min(s + {r}) == if s == {} then r else Min(s)
    ensures |s| == 1 ==> SecondMin(s + {r}) == r
    ensures |s| >= 2 ==> SecondMin(s + {r}) == SecondMin(s)
  {
    assert r !in s;
    if s == {} {
      MinIs(s + {r}, r);
    } else {
      AddAboveKeepsMin(s, r);
      AddAboveSecondMin(s, r);
    }
  }

  /** Adding a rank above every rank of a non-empty set keeps its smallest. */
  lemma AddAboveKeepsMin(s: set<int>, r: int)
    requires s != {} && forall x :: x in s ==> x < r
    ensures Min(s + {r}) == Min(s)
  {
    MinIs(s + {r}, Min(s));
  }

  /** Adding a rank above every rank of a non-empty set: its second smallest. */
  lemma AddAboveSecondMin(s: set<int>, r: int)
    requires s != {} && forall x :: x in s ==> x < r
    ensures |s| == 1 ==> SecondMin(s + {r}) == r
    ensures |s| >= 2 ==> SecondMin(s + {r}) == SecondMin(s)
  {
    AddAboveRest(s, r);
    var rest := s - {Min(s)};
    if |s| == 1 {
      assert rest == {} by {
        assert |rest| == 0;
      }
      MinIs(rest + {r}, r);
    } else {
      SecondMinBounds(s);
      MinIs(rest + {r}, SecondMin(s));
    }
  }

  /** Adding a rank above every rank of a non-empty set: its second smallest is the smallest of the rest and that rank. */
  lemma AddAboveRest(s: set<int>, r: int)
    requires s != {} && forall x :: x in s ==> x < r
    ensures |s + {r}| >= 2
    ensures SecondMin(s + {r}) == Min((s - {Min(s)}) + {r})
  {
    assert r !in s;
    assert |s + {r}| == |s| + 1;
    AddAboveKeepsMin(s, r);
    var m := Min(s);
    assert (s + {r}) - {m} == (s - {m}) + {r};
  }

  function Last(s: seq<int>): int
    requires s != []
  {
    s[|s| - 1]
  }

  // ---------------------------------------------------------------------------
  // The flush and straight scans, in closed form.
  // ---------------------------------------------------------------------------

  /** What `isFlush` returns: every card has the suit of the first. */
  predicate AllSameSuit(cards: seq<Card>): (b: bool)
    ensures b <==> forall i, j :: 0 <= i < |cards| && 0 <= j < |cards| ==> cards[i].suit == cards[j].suit
  {
    forall i :: 0 <= i < |cards| ==> cards[i].suit == cards[0].suit
  }

  predicate Consecutive(ranks: seq<int>) {
    forall j :: 0 <= j < |ranks| ==> ranks[j] == ranks[0] + j
  }

  /**
   * What the Ace branch of `isStraight` lets through: ranks climbing one by one
   * from the lowest up to 5, then only Aces. It does not require the climb to
   * start at 2, so 3,4,5,A,A and 4,5,A,A,A qualify too.
   */
  predicate AceLowRun(ranks: seq<int>)
    requires |ranks| > 0
  {
    var k := 5 - ranks[0];
    0 <= k < |ranks| - 1 &&
    (forall j :: 0 <= j <= k ==> ranks[j] == ranks[0] + j) &&
    (forall j :: k < j < |ranks| ==> ranks[j] == 14)
  }

  /** How one more rank extends a consecutive prefix or an Ace-low run. */
  lemma StraightPrefixStep(ranks: seq<int>, i: nat)
    requires 1 <= i < |ranks|
    ensures Consecutive(ranks[..i + 1]) <==> Consecutive(ranks[..i]) && ranks[i] == ranks[0] + i
    ensures AceLowRun(ranks[..i + 1]) <==>
      (AceLowRun(ranks[..i]) && ranks[i] == 14) ||
      (Consecutive(ranks[..i]) && ranks[0] + i == 6 && ranks[i] == 14)
    ensures AceLowRun(ranks[..i]) ==> !Consecutive(ranks[..i]) && ranks[i - 1] == 14
  {
    var p, q := ranks[..i], ranks[..i + 1];
    assert forall j :: 0 <= j < i ==> q[j] == p[j];
    if AceLowRun(p) {
      var k := 5 - ranks[0];
      assert p[k + 1] == 14;
    }
  }

  /** `StraightPrefixStep` for the last rank of `ranks`. */
  lemma ShapeStep(ranks: seq<int>)
    requires |ranks| >= 2
    ensures Consecutive(ranks) <==> Consecutive(ranks[..|ranks| - 1]) && Last(ranks) == ranks[0] + |ranks| - 1
    ensures AceLowRun(ranks) <==>
      (AceLowRun(ranks[..|ranks| - 1]) && Last(ranks) == 14) ||
      (Consecutive(ranks[..|ranks| - 1]) && ranks[0] + |ranks| - 1 == 6 && Last(ranks) == 14)
    ensures AceLowRun(ranks[..|ranks| - 1]) ==> !Consecutive(ranks[..|ranks| - 1]) && ranks[|ranks| - 2] == 14
  {
    var n := |ranks|;
    StraightPrefixStep(ranks, n - 1);
    assert ranks[..n] == ranks;
  }

  /** What `isStraight` returns on sorted ranks. */
  predicate StraightScan(ranks: seq<int>): (b: bool)
    requires |ranks| > 0
    ensures b ==> ranks[0] <= 10 && forall j :: 0 <= j < |ranks| ==> ranks[j] == ranks[0] + j || ranks[j] == 14
  {
    ranks[0] <= 10 && (Consecutive(ranks) || AceLowRun(ranks))
  }

  /**
   * The rank `isStraight` last writes to `highestCardInStraightRank`, None
   * when it writes nothing: the card before the Aces of an Ace-low run,
   * otherwise the last card.
   */
  function StraightScanHigh(ranks: seq<int>): (high: Option<int>)
    requires |ranks| > 0
    ensures high.Some? ==> ranks[0] <= 10 && high.value in ranks[1..]
  {
    if ranks[0] > 10 || |ranks| == 1 then None
    else if AceLowRun(ranks) then
      if ranks[0] < 5 then
        assert ranks[1..][4 - ranks[0]] == 5;
        Some(5)
      else None
    else
      assert ranks[1..][|ranks| - 2] == ranks[|ranks| - 1];
      Some(ranks[|ranks| - 1])
  }

  /**
   * The variables of the `isStraight` loop: whether the run still holds, the
   * rank expected next (undefined before the first card), and the last rank
   * written to `highestCardInStraightRank` (None while nothing is written).
   */
  datatype StraightState = StraightState(ok: bool, next: Option<int>, high: Option<int>)

  /** One pass of the `isStraight` loop body over a card of the given rank. */
  function StraightStep(st: StraightState, rank: int): (r: StraightState)
    ensures r.next.Some?
    ensures r.ok ==> st.ok
    ensures r.high == st.high || r.high == Some(rank)
  {
    if st.next.None? then StraightState(st.ok, Some(rank + 1), st.high)
    else if st.ok && st.next.value == 6 && rank == 14 then st
    else StraightState(st.ok && rank == st.next.value, Some(st.next.value + 1), Some(rank))
  }

  /** The loop state after the given ranks. */
  function StraightRun(ranks: seq<int>): (r: StraightState)
    ensures r.next.Some? <==> ranks != []
    ensures r.high.Some? ==> |ranks| >= 2
    ensures !r.ok ==> |ranks| >= 2
  {
    if ranks == [] then StraightState(true, None, None)
    else StraightStep(StraightRun(ranks[..|ranks| - 1]), ranks[|ranks| - 1])
  }

  /**
   * The loop on sorted ranks goes through three phases: while the ranks climb
   * one by one it holds and records each rank; an Ace arriving when 6 is
   * expected keeps it holding without recording anything; any other break
   * ends it, and from then on every rank is recorded.
   */
  lemma {:induction false} StraightRunPhases(ranks: seq<int>)
    requires |ranks| > 0 && Sorted(ranks)
    requires forall i :: 0 <= i < |ranks| ==> ranks[i] <= 14
    ensures StraightRun(ranks).next.Some?
    ensures Consecutive(ranks) ==>
      StraightRun(ranks) == StraightState(true, Some(ranks[0] + |ranks|), if |ranks| >= 2 then Some(Last(ranks)) else None)
    ensures !Consecutive(ranks) && AceLowRun(ranks) ==>
      StraightRun(ranks) == StraightState(true, Some(6), if ranks[0] < 5 then Some(5) else None)
    ensures !Consecutive(ranks) && !AceLowRun(ranks) ==>
      !StraightRun(ranks).ok && StraightRun(ranks).high == Some(Last(ranks))
  {
    var n := |ranks|;
    var p := ranks[..n - 1];
    if n == 1 {
      assert p == [];
    } else {
      assert Sorted(p);
      StraightRunPhases(p);
      ShapeStep(ranks);
      if Consecutive(p) {
        assert n >= 3 ==> p[n - 2] == ranks[0] + n - 2;
        StepAfterClimb(ranks);
      } else if AceLowRun(p) {
        assert ranks[n - 2] <= ranks[n - 1];
        AceAfterSix(ranks);
      } else {
        StepAfterBreak(ranks);
      }
    }
  }

  /** One more rank after a climb: it extends the climb, is an Ace where 6 is expected, or breaks it. */
  lemma StepAfterClimb(ranks: seq<int>)
    requires |ranks| >= 2
    requires |ranks| >= 3 ==> ranks[|ranks| - 2] == ranks[0] + |ranks| - 2
    requires StraightRun(ranks[..|ranks| - 1]) ==
      StraightState(true, Some(ranks[0] + |ranks| - 1), if |ranks| >= 3 then Some(ranks[|ranks| - 2]) else None)
    ensures Last(ranks) == ranks[0] + |ranks| - 1 ==>
      StraightRun(ranks) == StraightState(true, Some(ranks[0] + |ranks|), Some(Last(ranks)))
    ensures Last(ranks) != ranks[0] + |ranks| - 1 && ranks[0] + |ranks| - 1 == 6 && Last(ranks) == 14 ==>
      StraightRun(ranks) == StraightState(true, Some(6), if ranks[0] < 5 then Some(5) else None)
    ensures Last(ranks) != ranks[0] + |ranks| - 1 && !(ranks[0] + |ranks| - 1 == 6 && Last(ranks) == 14) ==>
      !StraightRun(ranks).ok && StraightRun(ranks).high == Some(Last(ranks))
  {
    assert StraightRun(ranks) == StraightStep(StraightRun(ranks[..|ranks| - 1]), Last(ranks));
  }

  /** An Ace arriving when the loop holds and expects 6 leaves its state as it was. */
  lemma AceAfterSix(ranks: seq<int>)
    requires |ranks| >= 2 && ranks[|ranks| - 1] == 14
    requires StraightRun(ranks[..|ranks| - 1]).ok && StraightRun(ranks[..|ranks| - 1]).next == Some(6)
    ensures StraightRun(ranks) == StraightRun(ranks[..|ranks| - 1])
  {
  }

  /** One more rank after a break: the loop stays failed and records the rank. */
  lemma StepAfterBreak(ranks: seq<int>)
    requires |ranks| >= 2
    requires !StraightRun(ranks[..|ranks| - 1]).ok && StraightRun(ranks[..|ranks| - 1]).next.Some?
    ensures !StraightRun(ranks).ok && StraightRun(ranks).high == Some(Last(ranks))
  {
  }

  /** On sorted ranks 2..14 starting at 10 or less, the loop computes exactly `StraightScan` and `StraightScanHigh`. */
  lemma StraightRunClosedForm(ranks: seq<int>)
    requires |ranks| > 0 && Sorted(ranks) && ranks[0] <= 10
    requires forall i :: 0 <= i < |ranks| ==> ranks[i] <= 14
    ensures StraightRun(ranks).ok == StraightScan(ranks)
    ensures StraightRun(ranks).high == StraightScanHigh(ranks)
  {
    StraightRunPhases(ranks);
    if |ranks| >= 2 && AceLowRun(ranks) {
      StraightPrefixStep(ranks + [14], |ranks|);
      assert (ranks + [14])[..|ranks|] == ranks;
    }
  }

  // ---------------------------------------------------------------------------
  // The result.
  // ---------------------------------------------------------------------------

  /** The categories `calculateBestPokerHand` reports, best first, with their tie-break data. */
  datatype RankedHand =
    | RoyalFlush
    | StraightFlush(suit: Suit, high: int)
    | FourOfAKind(rank: int)
    | FullHouse(triple: int, pair: int)
    | Flush(suit: Suit, high: int)
    | Straight(high: int)
    | ThreeOfAKind(rank: int, kicker: int)
    | TwoPair(high: int, low: int, kicker: int)
    | Pair(rank: int, kicker: int)
    | HighCard(rank: int)

  /** Five cards always include a rank whose count is not 3. */
  lemma SomeRankNotTriple(rs: seq<int>)
    requires |rs| == 5 && forall i :: 0 <= i < 5 ==> 2 <= rs[i] <= 14
    ensures RanksOtherThan(CountTable(rs), 3, 15) != {}
  {
    var t := CountTable(rs);
    var k: nat :| k < 5 && CountOf(rs, rs[k]) != 3 by {
      CountOfFive(rs, rs[0]);
      CountOfFive(rs, rs[1]);
      CountOfFive(rs, rs[2]);
      CountOfFive(rs, rs[3]);
      CountOfFive(rs, rs[4]);
    }
    assert rs[k] in rs;
    CountTableFacts(rs);
    assert Get(t, rs[k]) == CountOf(rs, rs[k]);
    assert rs[k] in RanksOtherThan(t, 3, 15);
  }

  /** Five cards always include a rank whose count is not 2: five is odd. */
  lemma SomeRankNotPair(rs: seq<int>)
    requires |rs| == 5 && forall i :: 0 <= i < 5 ==> 2 <= rs[i] <= 14
    ensures RanksOtherThan(CountTable(rs), 2, 15) != {}
  {
    var t := CountTable(rs);
    var k: nat :| k < 5 && CountOf(rs, rs[k]) != 2 by {
      CountOfFive(rs, rs[0]);
      CountOfFive(rs, rs[1]);
      CountOfFive(rs, rs[2]);
      CountOfFive(rs, rs[3]);
      CountOfFive(rs, rs[4]);
    }
    assert rs[k] in rs;
    CountTableFacts(rs);
    assert Get(t, rs[k]) == CountOf(rs, rs[k]);
    assert rs[k] in RanksOtherThan(t, 2, 15);
  }

  /**
   * The only straight whose scan records no high card is 5,A,A,A,A: a four of
   * a kind, and never a flush of distinct cards.
   */
  lemma StraightWithoutHigh(cards: seq<Card>)
    requires SortedHand(cards)
    requires StraightScan(Ranks(cards)) && StraightScanHigh(Ranks(cards)) == None
    ensures RanksWithCount(CountTable(Ranks(cards)), 4, 15) != {}
    ensures !AllSameSuit(cards)
  {
    var rs := Ranks(cards);
    assert rs == [5, 14, 14, 14, 14];
    CountOfFive(rs, 14);
    CountTableFacts(rs);
    assert Get(CountTable(rs), 14) == 4;
    assert 14 in RanksWithCount(CountTable(rs), 4, 15);
    assert !Equals(cards[2], cards[1]);
  }

  /** Every tie-break rank the classification reads is there when it reads it. */
  lemma TieBreaksDefined(cards: seq<Card>)
    requires SortedHand(cards)
    ensures RanksOtherThan(CountTable(Ranks(cards)), 3, 15) != {}
    ensures RanksOtherThan(CountTable(Ranks(cards)), 2, 15) != {}
    ensures StraightScan(Ranks(cards)) && StraightScanHigh(Ranks(cards)) == None ==>
      RanksWithCount(CountTable(Ranks(cards)), 4, 15) != {} && !AllSameSuit(cards)
  {
    var rs := Ranks(cards);
    assert forall i :: 0 <= i < 5 ==> 2 <= rs[i] <= 14;
    SomeRankNotTriple(rs);
    SomeRankNotPair(rs);
    if StraightScan(rs) && StraightScanHigh(rs) == None {
      StraightWithoutHigh(cards);
    }
  }

  /**
   * The first category that matches, in the order of `calculateBestPokerHand`
   * (lines 105-140), from what the scans found: whether the hand is a flush,
   * whether it is a straight and the high card the straight scan recorded,
   * the rank-to-count table, the suit of the flush and the highest rank.
   */
  ghost function Classify(flush: bool, straight: bool, high: Option<int>, t: map<int, nat>, suit: Suit, top: int): (r: RankedHand)
    requires straight && high == None ==> RanksWithCount(t, 4, 15) != {} && !flush
    requires RanksOtherThan(t, 3, 15) != {} && RanksOtherThan(t, 2, 15) != {}
    ensures r.RoyalFlush? <==> straight && flush && high == Some(14)
    ensures (r.RoyalFlush? || r.StraightFlush?) <==> straight && flush
    ensures r.FourOfAKind? <==> !(straight && flush) && RanksWithCount(t, 4, 15) != {}
    ensures r.FourOfAKind? ==> r.rank in RanksWithCount(t, 4, 15)
    ensures r.FullHouse? ==> r.triple in RanksWithCount(t, 3, 15) && r.pair in RanksWithCount(t, 2, 15)
    ensures r.Flush? ==> flush && !straight && r.suit == suit && r.high == top
    ensures r.Straight? ==> straight && !flush && high == Some(r.high)
  {
    var fours := RanksWithCount(t, 4, 15);
    var triples := RanksWithCount(t, 3, 15);
    var pairs := RanksWithCount(t, 2, 15);
    if straight && flush then
      (if high == Some(14) then RoyalFlush else StraightFlush(suit, high.value))
    else if fours != {} then FourOfAKind(Max(fours))
    else if triples != {} && pairs != {} then FullHouse(Max(triples), Max(pairs))
    else if flush then Flush(suit, top)
    else if straight then Straight(high.value)
    else ClassifyByKickers(t, top)
  }

  /**
   * `Classify` reports the first category that matches: full house, flush
   * and straight each exactly when they match and nothing earlier does, and
   * the kicker categories exactly when all of these fail.
   */
  lemma ClassifyFirstMatch(flush: bool, straight: bool, high: Option<int>, t: map<int, nat>, suit: Suit, top: int)
    requires straight && high == None ==> RanksWithCount(t, 4, 15) != {} && !flush
    requires RanksOtherThan(t, 3, 15) != {} && RanksOtherThan(t, 2, 15) != {}
    ensures var r := Classify(flush, straight, high, t, suit, top);
      r.FullHouse? <==>
        !(straight && flush) && RanksWithCount(t, 4, 15) == {} &&
        RanksWithCount(t, 3, 15) != {} && RanksWithCount(t, 2, 15) != {}
    ensures var r := Classify(flush, straight, high, t, suit, top);
      r.Flush? <==>
        flush && !straight && RanksWithCount(t, 4, 15) == {} &&
        !(RanksWithCount(t, 3, 15) != {} && RanksWithCount(t, 2, 15) != {})
    ensures var r := Classify(flush, straight, high, t, suit, top);
      r.Straight? <==>
        straight && !flush && RanksWithCount(t, 4, 15) == {} &&
        !(RanksWithCount(t, 3, 15) != {} && RanksWithCount(t, 2, 15) != {})
    ensures var r := Classify(flush, straight, high, t, suit, top);
      (r.ThreeOfAKind? || r.TwoPair? || r.Pair? || r.HighCard?) <==>
        !flush && !straight && RanksWithCount(t, 4, 15) == {} &&
        !(RanksWithCount(t, 3, 15) != {} && RanksWithCount(t, 2, 15) != {})
    ensures var r := Classify(flush, straight, high, t, suit, top);
      (r.ThreeOfAKind? || r.TwoPair? || r.Pair? || r.HighCard?) ==> r == ClassifyByKickers(t, top)
  {
  }

  /**
   * The categories tried after the straight (lines 131-140), which all come
   * with kickers except the last: three of a kind, two pair, pair, high card.
   */
  ghost function ClassifyByKickers(t: map<int, nat>, top: int): (r: RankedHand)
    requires RanksOtherThan(t, 3, 15) != {} && RanksOtherThan(t, 2, 15) != {}
    ensures r.ThreeOfAKind? <==> RanksWithCount(t, 3, 15) != {}
    ensures r.ThreeOfAKind? ==> r.rank in RanksWithCount(t, 3, 15) && r.kicker !in RanksWithCount(t, 3, 15)
    ensures r.TwoPair? <==> RanksWithCount(t, 3, 15) == {} && |RanksWithCount(t, 2, 15)| >= 2
    ensures r.TwoPair? ==> r.high in RanksWithCount(t, 2, 15) && r.low in RanksWithCount(t, 2, 15) && r.high != r.low
    ensures r.Pair? ==> r.rank in RanksWithCount(t, 2, 15) && r.kicker !in RanksWithCount(t, 2, 15)
    ensures r.HighCard? <==> RanksWithCount(t, 3, 15) == {} && RanksWithCount(t, 2, 15) == {}
    ensures r.HighCard? ==> r.rank == top
    ensures !r.RoyalFlush? && !r.StraightFlush? && !r.FourOfAKind? && !r.FullHouse? && !r.Flush? && !r.Straight?
  {
    var triples := RanksWithCount(t, 3, 15);
    var pairs := RanksWithCount(t, 2, 15);
    if triples != {} then ThreeOfAKind(Max(triples), Max(RanksOtherThan(t, 3, 15)))
    else if |pairs| >= 2 then TwoPair(SecondMin(pairs), Min(pairs), Max(RanksOtherThan(t, 2, 15)))
    else if pairs != {} then Pair(Max(pairs), Max(RanksOtherThan(t, 2, 15)))
    else HighCard(top)
  }

  /** The hand `calculateBestPokerHand` reports for sorted cards. */
  ghost function BestHand(cards: seq<Card>): (r: RankedHand)
    requires SortedHand(cards)
    ensures (r.RoyalFlush? || r.StraightFlush? || r.Flush?) ==> AllSameSuit(cards)
    ensures (r.RoyalFlush? || r.StraightFlush? || r.Straight?) ==> StraightScan(Ranks(cards))
    ensures r.Flush? ==> r.suit == cards[0].suit.value && r.high == cards[4].rank.value
    ensures r.HighCard? ==> r.rank == cards[4].rank.value
  {
    var rs := Ranks(cards);
    TieBreaksDefined(cards);
    Classify(AllSameSuit(cards), StraightScan(rs), StraightScanHigh(rs), CountTable(rs), cards[0].suit.value, rs[4])
  }
}
