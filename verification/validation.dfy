/** The input side of class `Hand`: `parseHandString` and `isValidHand`. */
module Validation {
  import opened Wrappers
  import opened Text
  import opened Cards

  /** The reasons `isValidHand` stores in `invalidReason`. */
  datatype HandError =
    | WrongCardCount(count: nat)
    | InvalidCard(token: string, reason: CardError)
    | DuplicateCard(token: string)

  /**
   * The cards `parseHandString` builds: one per token, invalid ones
   * included, so one more card than there are separators, each keeping the
   * token it was read from.
   */
  function ParseHand(handString: string): (cards: seq<Card>)
    ensures |cards| == Spaces(Collapse(handString)) + 1
    ensures forall i :: 0 <= i < |cards| ==> cards[i].token == HandTokens(handString)[i] && ' ' !in cards[i].token
  {
    var tokens := HandTokens(handString);
    seq(|tokens|, i requires 0 <= i < |tokens| => ParseCard(tokens[i]))
  }

  /** Tokens joined by single spaces, none of them empty or holding whitespace. */
  predicate PlainTokens(tokens: seq<string>) {
    |tokens| >= 1 &&
    forall k :: 0 <= k < |tokens| ==> tokens[k] != [] && forall i :: 0 <= i < |tokens[k]| ==> !IsWhitespace(tokens[k][i])
  }

  lemma {:induction false} JoinPlainTokens(tokens: seq<string>)
    requires PlainTokens(tokens)
    ensures NoDoubleWhitespace(Join(tokens))
    ensures Join(tokens) != [] && !IsWhitespace(Join(tokens)[0])
    decreases |tokens|
  {
    if |tokens| > 1 {
      JoinPlainTokens(tokens[1..]);
      var rest := Join(tokens[1..]);
      var s := tokens[0] + " " + rest;
      forall i | 1 <= i < |s| ensures !(IsWhitespace(s[i - 1]) && IsWhitespace(s[i])) {
        if i < |tokens[0]| {
          assert s[i] == tokens[0][i];
        } else if i == |tokens[0]| {
          assert s[i - 1] == tokens[0][i - 1];
        } else if i == |tokens[0]| + 1 {
          assert s[i] == rest[0];
        } else {
          assert s[i - 1] == rest[i - 1 - |tokens[0]| - 1] && s[i] == rest[i - |tokens[0]| - 1];
        }
      }
      assert s[0] == tokens[0][0];
    }
  }

  /**
   * A hand written as plain tokens separated by single spaces parses to one
   * card per token, in order.
   */
  lemma ParseJoinedHand(tokens: seq<string>)
    requires PlainTokens(tokens)
    ensures ParseHand(Join(tokens)) == seq(|tokens|, i requires 0 <= i < |tokens| => ParseCard(tokens[i]))
  {
    JoinPlainTokens(tokens);
    CollapseFixedPoint(Join(tokens));
    assert forall k :: 0 <= k < |tokens| ==> ' ' !in tokens[k];
    SplitJoin(tokens);
  }

  /**
   * A hand written as tokens with any separators, single spaces or runs of
   * whitespace, gives one card per token, in order.
   */
  lemma ParseSeparatedHand(tokens: seq<string>, seps: seq<string>)
    requires PlainTokens(tokens) && |seps| == |tokens| - 1
    requires forall k :: 0 <= k < |seps| ==> Separator(seps[k])
    ensures HandTokens(Interleave(tokens, seps)) == tokens
    ensures ParseHand(Interleave(tokens, seps)) == seq(|tokens|, i requires 0 <= i < |tokens| => ParseCard(tokens[i]))
  {
    assert forall k :: 0 <= k < |tokens| ==> NoWhitespace(tokens[k]);
    SeparatedTokens(tokens, seps);
  }

  /** Card `i` fails a check of `isValidHand`: it is invalid, or `equals` an earlier card. */
  predicate Offending(cards: seq<Card>, i: nat)
    requires i < |cards|
  {
    !IsValidCard(cards[i]) || exists j :: 0 <= j < i && Equals(cards[i], cards[j])
  }

  /** The reason written by the last failing check on card `i`: duplicate checks follow the validity check. */
  function OffenceOf(cards: seq<Card>, i: nat): (e: HandError)
    requires i < |cards| && Offending(cards, i)
    ensures !e.WrongCardCount? && e.token == cards[i].token
    ensures e.DuplicateCard? <==> exists j :: 0 <= j < i && Equals(cards[i], cards[j])
    ensures e.InvalidCard? ==> !IsValidCard(cards[i]) && CardInvalidReason(cards[i]) == Some(e.reason)
  {
    if exists j :: 0 <= j < i && Equals(cards[i], cards[j]) then DuplicateCard(cards[i].token)
    else InvalidCard(cards[i].token, CardInvalidReason(cards[i]).value)
  }

  /** The reason left by the last failing check among the first `n` cards, None if all pass. */
  function LastOffence(cards: seq<Card>, n: nat): (r: Option<HandError>)
    requires n <= |cards|
    ensures r.Some? ==> !r.value.WrongCardCount? && n > 0
  {
    if n == 0 then None
    else if Offending(cards, n - 1) then Some(OffenceOf(cards, n - 1))
    else LastOffence(cards, n - 1)
  }

  /**
   * What `isValidHand` leaves in `invalidReason` on a freshly built hand;
   * None when it returns true. The card-count reason is given exactly when
   * there are not five cards.
   */
  function ValidateHand(cards: seq<Card>): (r: Option<HandError>)
    ensures (r.Some? && r.value.WrongCardCount?) <==> |cards| != 5
    ensures |cards| != 5 ==> r == Some(WrongCardCount(|cards|))
  {
    if |cards| != 5 then Some(WrongCardCount(|cards|)) else LastOffence(cards, 5)
  }

  /** Five cards, each valid, none equal to another. */
  predicate ValidHand(cards: seq<Card>) {
    |cards| == 5 &&
    (forall i :: 0 <= i < |cards| ==> IsValidCard(cards[i])) &&
    (forall i, j :: 0 <= j < i < |cards| ==> !Equals(cards[i], cards[j]))
  }

  /** No reason is left exactly when no card fails a check. */
  lemma {:induction false} LastOffenceNone(cards: seq<Card>, n: nat)
    requires n <= |cards|
    ensures LastOffence(cards, n) == None <==> forall i :: 0 <= i < n ==> !Offending(cards, i)
  {
    if n > 0 {
      LastOffenceNone(cards, n - 1);
    }
  }

  /**
   * The reason left is the one of the last card that fails a check, and
   * checks on cards never produce the card-count reason.
   */
  lemma {:induction false} LastOffenceIsLast(cards: seq<Card>, n: nat, e: HandError)
    requires n <= |cards|
    ensures LastOffence(cards, n) == Some(e) <==>
      exists i :: 0 <= i < n && Offending(cards, i) && e == OffenceOf(cards, i) &&
        forall k :: i < k < n ==> !Offending(cards, k)
    ensures LastOffence(cards, n) == Some(e) ==> !e.WrongCardCount?
  {
    if n > 0 {
      LastOffenceIsLast(cards, n - 1, e);
      if Offending(cards, n - 1) {
        if LastOffence(cards, n) == Some(e) {
          assert Offending(cards, n - 1) && e == OffenceOf(cards, n - 1);
        }
      }
    }
  }

  /**
   * `isValidHand` on a fresh hand fails exactly when there are not five
   * cards, some card is invalid, or some card equals an earlier one.
   */
  lemma ValidateHandSpec(cards: seq<Card>)
    ensures ValidateHand(cards) == None <==> ValidHand(cards)
  {
    if |cards| == 5 {
      LastOffenceNone(cards, 5);
      if LastOffence(cards, 5).Some? {
        LastOffenceIsLast(cards, 5, LastOffence(cards, 5).value);
      }
      if ValidHand(cards) {
        forall i | 0 <= i < 5 ensures !Offending(cards, i) {
        }
      } else if !exists i :: 0 <= i < 5 && !IsValidCard(cards[i]) {
        var i, j :| 0 <= j < i < 5 && Equals(cards[i], cards[j]);
        assert Offending(cards, i);
      } else {
        var i :| 0 <= i < 5 && !IsValidCard(cards[i]);
        assert Offending(cards, i);
      }
    }
  }
}
