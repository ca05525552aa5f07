/** Single cards: the class `Card` of the source, which parses a token such as "10h" or "Qs". */
module Cards {
  import opened Wrappers

  datatype Suit = Hearts | Diamonds | Spades | Clubs

  /**
   * A card as the constructor leaves it: the token it was read from, and its
   * rank and suit where those parsed (None where the source leaves `undefined`).
   */
  datatype Card = Card(token: string, rank: Option<int>, suit: Option<Suit>)

  /** The reason `isValidCard` records for a card it rejects. */
  datatype CardError = InvalidRank | InvalidSuit

  predicate IsDigit(ch: char) { '0' <= ch <= '9' }

  /** `toUpperCase` on one character; only ASCII letters change. */
  function ToUpper(ch: char): char {
    if 'a' <= ch <= 'z' then (ch as int - 32) as char else ch
  }

  /** `toUpperCase` on a string: every lower-case ASCII letter raised, every other character kept. */
  function UpperCase(s: string): (r: string)
    ensures |r| == |s|
    ensures forall i :: 0 <= i < |s| ==> !('a' <= r[i] <= 'z')
    ensures forall i :: 0 <= i < |s| && !('a' <= s[i] <= 'z') ==> r[i] == s[i]
  {
    seq(|s|, i requires 0 <= i < |s| => ToUpper(s[i]))
  }

  /** The test `/^[0-9]+$/`. */
  predicate AllDigits(s: string): (b: bool)
    ensures b ==> s != [] && UpperCase(s) == s
  {
    |s| > 0 && forall i :: 0 <= i < |s| ==> IsDigit(s[i])
  }

  /** `parseInt` of a string of decimal digits; without a leading zero, writing the value out gives the string back. */
  function DecimalValue(s: string): (v: nat)
    requires forall i :: 0 <= i < |s| ==> IsDigit(s[i])
    ensures s != [] && s[0] != '0' ==> v >= 1 && DecimalString(v) == s
  {
    if s == [] then 0
    else
      assert IsDigit(s[|s| - 1]);
      var p := s[..|s| - 1];
      var v := DecimalValue(p) * 10 + (s[|s| - 1] as int - '0' as int);
      assert p != [] ==> p[0] == s[0];
      assert s == p + [s[|s| - 1]];
      v
  }

  /** The decimal digits of `n`, as a template literal renders a number. */
  function DecimalString(n: nat): (s: string)
    ensures AllDigits(s)
  {
    if n < 10 then [('0' as int + n) as char] else DecimalString(n / 10) + [('0' as int + n % 10) as char]
  }

  /** Writing a number in decimal and reading it back gives the number. */
  lemma {:induction false} DecimalRoundTrip(n: nat)
    ensures DecimalValue(DecimalString(n)) == n
  {
    if n >= 10 {
      DecimalRoundTrip(n / 10);
      var s := DecimalString(n);
      assert s[..|s| - 1] == DecimalString(n / 10);
    }
  }

  /** The object `faceCardValueMap` of `parseRank`. */
  const FaceCardValues: map<string, int> := map["J" := 11, "Q" := 12, "K" := 13, "A" := 14]

  /** `parseRank`: the rank written by `rankString`, or None (undefined) when it is not one. */
  function ParseRank(rankString: string): (rank: Option<int>)
    ensures rank.Some? ==> 2 <= rank.value <= 14
  {
    var u := UpperCase(rankString);
    if AllDigits(u) then
      var n := DecimalValue(u);
      if n < 2 || n > 10 then None else Some(n)
    else if u in FaceCardValues then Some(FaceCardValues[u])
    else None
  }

  /** Every one-character rank part `parseRank` accepts, with the rank it stands for. */
  const OneCharRanks: map<char, int> := map[
    '2' := 2, '3' := 3, '4' := 4, '5' := 5, '6' := 6, '7' := 7, '8' := 8, '9' := 9,
    'J' := 11, 'j' := 11, 'Q' := 12, 'q' := 12, 'K' := 13, 'k' := 13, 'A' := 14, 'a' := 14]

  /** Every two-character rank part `parseRank` accepts: "10", and a single digit with a leading zero. */
  const TwoCharRanks: map<(char, char), int> := map[
    ('1', '0') := 10, ('0', '2') := 2, ('0', '3') := 3, ('0', '4') := 4, ('0', '5') := 5,
    ('0', '6') := 6, ('0', '7') := 7, ('0', '8') := 8, ('0', '9') := 9]

  /** The rank a one- or two-character rank part stands for, looked up in the tables above. */
  function TableRank(rankString: string): Option<int>
    requires 1 <= |rankString| <= 2
  {
    if |rankString| == 1 then
      if rankString[0] in OneCharRanks then Some(OneCharRanks[rankString[0]]) else None
    else if (rankString[0], rankString[1]) in TwoCharRanks then Some(TwoCharRanks[(rankString[0], rankString[1])])
    else None
  }

  /** A single digit is read as its value, which must be at least 2. */
  lemma ParseRankDigit(c: char)
    requires IsDigit(c)
    ensures ParseRank([c]) == if c < '2' then None else Some(c as int - '0' as int)
  {
    var u := UpperCase([c]);
    assert u == [c] && AllDigits(u);
    assert u[..0] == [];
    assert DecimalValue(u) == c as int - '0' as int;
  }

  /** A single letter is read through the face-card table, in either case. */
  lemma ParseRankLetter(c: char)
    requires !IsDigit(c)
    ensures ParseRank([c]) == if [ToUpper(c)] in FaceCardValues then Some(FaceCardValues[[ToUpper(c)]]) else None
  {
    var u := UpperCase([c]);
    assert u == [ToUpper(c)];
    assert !IsDigit(u[0]);
  }

  lemma DigitTableRank(c: char)
    requires IsDigit(c)
    ensures ParseRank([c]) == TableRank([c])
  {
    ParseRankDigit(c);
  }

  lemma LetterTableRank(c: char)
    requires !IsDigit(c)
    ensures ParseRank([c]) == TableRank([c])
  {
    ParseRankLetter(c);
    var C := ToUpper(c);
    assert [C] in FaceCardValues <==> C == 'J' || C == 'Q' || C == 'K' || C == 'A';
  }

  lemma ParseRankOneChar(c: char)
    ensures ParseRank([c]) == TableRank([c])
  {
    if IsDigit(c) {
      DigitTableRank(c);
    } else {
      LetterTableRank(c);
    }
  }

  lemma DigitPairTableRank(c: char, d: char)
    requires IsDigit(c) && IsDigit(d)
    ensures ParseRank([c, d]) == TableRank([c, d])
  {
    var u := UpperCase([c, d]);
    assert u == [c, d];
    assert DecimalValue([c]) == c as int - '0' as int by {
      assert [c][..0] == [];
    }
    assert u[..1] == [c];
    assert DecimalValue(u) == DecimalValue([c]) * 10 + (d as int - '0' as int);
  }

  lemma NonDigitPairTableRank(c: char, d: char)
    requires !(IsDigit(c) && IsDigit(d))
    ensures ParseRank([c, d]) == TableRank([c, d])
  {
    var u := UpperCase([c, d]);
    assert u == [ToUpper(c), ToUpper(d)];
    assert u !in FaceCardValues;
    assert !IsDigit(u[0]) || !IsDigit(u[1]);
  }

  lemma ParseRankTwoChars(c: char, d: char)
    ensures ParseRank([c, d]) == TableRank([c, d])
  {
    if IsDigit(c) && IsDigit(d) {
      DigitPairTableRank(c, d);
    } else {
      NonDigitPairTableRank(c, d);
    }
  }

  /**
   * On the one- and two-character rank parts the card parser passes it,
   * `parseRank` accepts exactly the parts of the tables: "2" to "10", "02"
   * to "09", and J, Q, K, A in either case.
   */
  lemma ParseRankShort(rankString: string)
    requires 1 <= |rankString| <= 2
    ensures ParseRank(rankString) == TableRank(rankString)
  {
    if |rankString| == 1 {
      assert rankString == [rankString[0]];
      ParseRankOneChar(rankString[0]);
    } else {
      assert rankString == [rankString[0], rankString[1]];
      ParseRankTwoChars(rankString[0], rankString[1]);
    }
  }

  /** A string of digits is read as its decimal value, accepted from 2 to 10 whatever its leading zeros. */
  lemma ParseRankDigits(rankString: string)
    requires AllDigits(rankString)
    ensures ParseRank(rankString) == (var n := DecimalValue(rankString); if 2 <= n <= 10 then Some(n) else None)
  {
    assert UpperCase(rankString) == rankString;
  }

  /** Anything but digits is accepted only as a single J, Q, K or A, in either case. */
  lemma ParseRankNonDigits(rankString: string)
    requires !AllDigits(rankString)
    ensures ParseRank(rankString) ==
      (if |rankString| == 1 && rankString[0] in OneCharRanks then Some(OneCharRanks[rankString[0]]) else None)
  {
    if |rankString| == 1 {
      ParseRankShort(rankString);
    } else {
      var u := UpperCase(rankString);
      if rankString != [] {
        var i :| 0 <= i < |rankString| && !IsDigit(rankString[i]);
        assert !IsDigit(u[i]);
      }
      assert !AllDigits(u) && |u| != 1;
    }
  }

  /** `parseSuit`. */
  function ParseSuit(suitChar: char): (suit: Option<Suit>)
    ensures suit.Some? <==> suitChar in "hdsc"
    ensures suit.Some? ==> SuitChar(suit.value) == suitChar
  {
    match suitChar
    case 'h' => Some(Hearts)
    case 'd' => Some(Diamonds)
    case 's' => Some(Spades)
    case 'c' => Some(Clubs)
    case _ => None
  }

  /** The letter that writes a suit in a token. */
  function SuitChar(suit: Suit): char {
    match suit
    case Hearts => 'h'
    case Diamonds => 'd'
    case Spades => 's'
    case Clubs => 'c'
  }

  /** `parseSuit` reads exactly the four lower-case letters, each as its suit. */
  lemma ParseSuitExactly(suitChar: char, suit: Suit)
    ensures ParseSuit(suitChar) == Some(suit) <==> suitChar == SuitChar(suit)
  {
  }

  /** How many UTF-16 code units JavaScript stores for one character: two for a character beyond U+FFFF. */
  function CodeUnits(ch: char): (n: nat)
    ensures 1 <= n <= 2
  {
    if ch as int >= 0x1_0000 then 2 else 1
  }

  /** A string's `length` in JavaScript: the number of its UTF-16 code units. */
  function JsLength(s: string): (n: nat)
    ensures |s| <= n <= 2 * |s|
    ensures n == |s| <==> forall i :: 0 <= i < |s| ==> CodeUnits(s[i]) == 1
  {
    if s == [] then 0 else JsLength(s[..|s| - 1]) + CodeUnits(s[|s| - 1])
  }

  /**
   * The constructor of `Card`: a token of two or three code units is split
   * into rank part and suit letter. When its last character takes two code
   * units, `slice` and `[length - 1]` cut that character in half: the rank
   * part ends in a lone surrogate, which no rank is written with, and the
   * suit letter is the other lone surrogate.
   */
  function ParseCard(token: string): (card: Card)
    ensures card.token == token
    ensures (JsLength(token) < 2 || JsLength(token) > 3) ==> card.rank == None && card.suit == None
    ensures token != [] && CodeUnits(token[|token| - 1]) == 2 ==> card.rank == None && card.suit == None
    ensures card.rank.Some? ==> 2 <= card.rank.value <= 14
    ensures card.suit.Some? ==> token[|token| - 1] == SuitChar(card.suit.value)
    ensures 2 <= JsLength(token) <= 3 && CodeUnits(token[|token| - 1]) == 1 ==>
      card == Card(token, ParseRank(token[..|token| - 1]), ParseSuit(token[|token| - 1]))
  {
    var n := JsLength(token);
    if n < 2 || n > 3 then Card(token, None, None)
    else if CodeUnits(token[|token| - 1]) == 2 then Card(token, None, None)
    else Card(token, ParseRank(token[..|token| - 1]), ParseSuit(token[|token| - 1]))
  }

  /** The reason `isValidCard` records, or None when it returns true. */
  function CardInvalidReason(card: Card): (reason: Option<CardError>)
    ensures reason == Some(InvalidRank) <==> card.rank == None
    ensures reason == Some(InvalidSuit) <==> card.rank != None && card.suit == None
    ensures reason == None <==> card.rank != None && card.suit != None
  {
    if card.rank == None then Some(InvalidRank)
    else if card.suit == None then Some(InvalidSuit)
    else None
  }

  /** `isValidCard`: a card is valid exactly when both its rank and its suit parsed. */
  predicate IsValidCard(card: Card): (valid: bool)
    ensures valid <==> card.rank.Some? && card.suit.Some?
  {
    CardInvalidReason(card) == None
  }

  /** What classification needs of a card: a rank in 2..14 and a suit. */
  predicate Classifiable(card: Card) {
    card.rank.Some? && 2 <= card.rank.value <= 14 && card.suit.Some?
  }

  /** What every parsed card satisfies: a rank, when there is one, lies in 2..14. */
  predicate WellFormed(card: Card) {
    card.rank.Some? ==> 2 <= card.rank.value <= 14
  }

  /**
   * A token of the wrong length is reported as an invalid rank, and a parsed
   * card that passes `isValidCard` has a rank in 2..14 and a suit.
   */
  lemma ParsedCardValidity(token: string)
    ensures (JsLength(token) < 2 || JsLength(token) > 3) ==> CardInvalidReason(ParseCard(token)) == Some(InvalidRank)
    ensures token != [] && CodeUnits(token[|token| - 1]) == 2 ==> CardInvalidReason(ParseCard(token)) == Some(InvalidRank)
    ensures IsValidCard(ParseCard(token)) <==> Classifiable(ParseCard(token))
  {
  }

  /**
   * `Card.prototype.equals`: same rank and same suit, where undefined equals
   * undefined. Every card equals itself, two cards without a rank and with
   * the same suit are equal, and equal cards differ at most in their token.
   */
  predicate Equals(a: Card, b: Card): (same: bool)
    ensures a == b ==> same
    ensures a.rank == None && b.rank == None && a.suit == b.suit ==> same
    ensures same ==> (a == b <==> a.token == b.token)
  {
    a.rank == b.rank && a.suit == b.suit
  }

  /** The rank part of a token that writes `rank`. */
  function RankToken(rank: int): string
    requires 2 <= rank <= 14
  {
    if rank <= 10 then DecimalString(rank)
    else if rank == 11 then "J" else if rank == 12 then "Q" else if rank == 13 then "K" else "A"
  }

  /** The digits of a number from 2 to 10 parse back to it. */
  lemma ParseRankOfDecimal(n: nat)
    requires 2 <= n <= 10
    ensures ParseRank(DecimalString(n)) == Some(n)
  {
    var s := DecimalString(n);
    assert UpperCase(s) == s;
    DecimalRoundTrip(n);
  }

  /** The rank part `RankToken` writes has one or two characters and parses back to its rank. */
  lemma ParseRankToken(rank: int)
    requires 2 <= rank <= 14
    ensures 1 <= |RankToken(rank)| <= 2
    ensures ParseRank(RankToken(rank)) == Some(rank)
  {
    if rank <= 10 {
      ParseRankOfDecimal(rank);
      assert 1 <= |DecimalString(rank)| <= 2 by {
        if rank == 10 {
          assert DecimalString(10) == DecimalString(1) + ['0'];
        }
      }
    } else {
      var r := RankToken(rank);
      assert UpperCase(r) == r;
      assert !IsDigit(r[0]);
    }
  }

  /**
   * A token of one or two one-code-unit characters followed by a
   * one-code-unit suit character is split at its last character.
   */
  lemma ParseNarrowToken(r: string, c: char)
    requires 1 <= |r| <= 2 && forall i :: 0 <= i < |r| ==> CodeUnits(r[i]) == 1
    requires CodeUnits(c) == 1
    ensures ParseCard(r + [c]) == Card(r + [c], ParseRank(r), ParseSuit(c))
  {
    var t := r + [c];
    assert forall i :: 0 <= i < |t| ==> CodeUnits(t[i]) == 1;
    assert t[..|t| - 1] == r;
  }

  /** Writing a rank and a suit as a token and parsing it gives back that rank and suit. */
  lemma ParseCardRoundTrip(rank: int, suit: Suit)
    requires 2 <= rank <= 14
    ensures ParseCard(RankToken(rank) + [SuitChar(suit)]) == Card(RankToken(rank) + [SuitChar(suit)], Some(rank), Some(suit))
  {
    var r := RankToken(rank);
    ParseRankToken(rank);
    assert forall i :: 0 <= i < |r| ==> IsDigit(r[i]) || r[i] in "JQKA";
    ParseSuitExactly(SuitChar(suit), suit);
    ParseNarrowToken(r, SuitChar(suit));
  }

  /** `getRankForDisplay`'s possible results: a number, a name, or undefined. */
  datatype Display = Number(n: int) | Name(text: string) | Undefined

  /** `isFaceCard`. */
  predicate IsFaceCard(rank: int): (b: bool)
    ensures 2 <= rank <= 14 ==> (b <==> rank in {11, 12, 13, 14})
  {
    rank > 10
  }

  /** `getRankForDisplay`: face ranks by name, every other rank as the number itself. */
  function RankForDisplay(rank: int): (d: Display)
    ensures d.Number? <==> rank <= 10
    ensures d.Number? ==> d.n == rank
    ensures d.Name? <==> 11 <= rank <= 14
    ensures d == Undefined <==> rank > 14
  {
    if IsFaceCard(rank) then
      if rank == 11 then Name("Jack")
      else if rank == 12 then Name("Queen")
      else if rank == 13 then Name("King")
      else if rank == 14 then Name("Ace")
      else Undefined
    else Number(rank)
  }

  /** The shortest token rank part for a displayed rank: its digits, or the initial of its name. */
  function Abbreviation(d: Display): string {
    match d
    case Number(n) => if n >= 0 then DecimalString(n) else ""
    case Name(text) => if text == [] then "" else [text[0]]
    case Undefined => ""
  }

  /**
   * Display and parsing agree: the digits or the initial of a valid rank's
   * display form parse back to that rank, and only 11..14 are shown by name.
   */
  lemma DisplayRoundTrip(rank: int)
    requires 2 <= rank <= 14
    ensures RankForDisplay(rank).Name? <==> rank >= 11
    ensures rank <= 10 ==> RankForDisplay(rank) == Number(rank)
    ensures ParseRank(Abbreviation(RankForDisplay(rank))) == Some(rank)
  {
    assert Abbreviation(RankForDisplay(rank)) == RankToken(rank);
    ParseCardRoundTrip(rank, Hearts);
    var t := RankToken(rank) + [SuitChar(Hearts)];
    assert t[..|t| - 1] == RankToken(rank);
  }
}
