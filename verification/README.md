# Poker hand evaluator

A model of the evaluator in `PokerHand.js`. It reads five cards from a
string such as `"10h Jh Qh Kh Ah"` and reports the best poker category they
form, with the ranks and suit that break ties. If the hand is invalid, it
reports why.

The project has seven modules:

- `Wrappers` holds `Option` and `Result`. JavaScript's `undefined` is `None`.
- `Text` models the tokenizer of `parseHandString`. First
  `replace(/\s\s+/g, ' ')` turns each run of two or more whitespace
  characters into one space. Then `split(' ')` splits on that single space.
- `Cards` models class `Card`: the constructor, `parseRank`, `parseSuit`,
  `isValidCard`, `equals`, `getRankForDisplay` and `isFaceCard`. A card only
  ever gets values from its constructor, apart from the `invalidReason`
  that `isValidCard` caches, so it is a datatype.
- `Validation` models the hand that `parseHandString` builds. It also gives
  the reason that `isValidHand` stores, as a function of the cards.
- `Ranking` gives `calculateBestPokerHand` as functions of the cards. It
  covers the stable sort by rank, the flush and straight scans, the
  rank-to-count table `matchingCards`, and the first category that matches,
  with its tie-break ranks. `SortByRankStable` proves that the sort keeps
  cards of equal rank in their input order.
- `PokerHand` models class `Hand` as a Dafny class. Each field the source
  writes is a field here. Every method runs the loops of the source. Each is
  proved against the functions of `Ranking` and `Validation`, and
  `EvaluateHand` composes them the way `evaluateHand` does.
- `HandProperties` proves what each reported category means in poker terms.

In these places the code does something a reader may not expect; the
model follows the code:

- A token whose `length` is not 2 or 3 gets neither a rank nor a suit.
  `isValidCard` then reports it as an invalid rank; there is no separate
  wrong-length reason.
- JavaScript's `length`, `slice` and indexing count UTF-16 code units, and a
  character outside the Basic Multilingual Plane takes two of them. Dafny
  strings are sequences of characters, so `JsLength` counts the code units.
  When the last character of a token takes two code units, `cardString[length
  - 1]` is half of it and `slice` cuts it in two, so the card gets neither a
  rank nor a suit. `AceWithEmojiHasNoRank` shows this for `"A😀"`.
- `isValidHand` overwrites its reason at every failing check. The reason
  left is therefore that of the last offending card, and a duplicate beats
  an invalid rank or suit on the same card.
- Only a single space separates tokens. A lone tab or newline between two
  cards stays inside one token, which then has the wrong length.
- `parseRank` accepts any string of digits worth 2 to 10, so `"02"` to
  `"09"` are ranks too. J, Q, K and A are accepted in either case. The suit
  letter must be lower case.
- The Ace branch of `isStraight` only checks that 6 is the next rank
  expected and that the card is an Ace. It does not check that the run
  started at 2. So 3,4,5,A,A and 4,5,A,A,A count as straights with 5 high,
  and 5,A,A,A,A counts as a straight too, although four of a kind is
  reported first. The model keeps this behaviour:
  - `AceBranchAcceptsRepeatedAces` exhibits it;
  - `ThreeAcesReportedAsStraight` shows that `"4h 5d Ah As Ac"` is
    reported as a straight with 5 high;
  - `StraightOnDistinctRanks` shows that on five different ranks the scan
    accepts exactly the runs and the wheel 2,3,4,5,A.

## Model

| member | source | states |
|---|---|---|
| Text.WhitespaceRun | PokerHand.js:44 | the run it measures holds only whitespace and stops at the first other character |
| Text.Collapse | PokerHand.js:44 | the result has no two neighbouring whitespace characters, is empty only for an empty input, and starts with whitespace exactly when the input does; the rewrite itself is stated by CollapseRun, CollapseWord and CollapseSeparated |
| Text.CollapseRun | PokerHand.js:43-44 | a maximal run of two or more whitespace characters becomes exactly one space, and a lone whitespace character is kept as it is |
| Text.CollapseWord | PokerHand.js:44 | characters other than whitespace pass through the replacement unchanged, in place |
| Text.CollapseSeparated | PokerHand.js:43-44 | non-empty words of visible characters separated by single spaces or by runs of two or more whitespace characters collapse to the words joined by single spaces |
| Text.CollapseKeepsVisible | PokerHand.js:44 | every non-whitespace character survives the replacement, in order |
| Text.CollapseFixedPoint | PokerHand.js:44 | a string without neighbouring whitespace is left unchanged |
| Text.CollapseIdempotent | PokerHand.js:44 | replacing twice gives the same string as replacing once |
| Text.Split | PokerHand.js:46 | there is one piece more than there are spaces, no piece holds a space, and rejoining the pieces with single spaces gives back the string |
| Text.SplitJoin | PokerHand.js:46 | splitting tokens joined by single spaces gives back the tokens |
| Text.SeparatedTokens | PokerHand.js:43-46 | such words with such separators are exactly the tokens the split gives back |
| Text.HandTokens | PokerHand.js:43-46 | the number of tokens is one more than the number of spaces left after collapsing, and no token holds a space |
| Cards.DecimalString | PokerHand.js:410 | the decimal writing of a number is all digits |
| Cards.DecimalRoundTrip | PokerHand.js:410 | `parseInt` of the decimal digits of n gives n |
| Cards.ParseRank | PokerHand.js:403-431 | any rank returned lies in 2..14 |
| Cards.ParseRankDigits | PokerHand.js:405-416 | a string of digits gives its decimal value when that is 2 to 10, whatever its leading zeros, and undefined otherwise |
| Cards.ParseRankNonDigits | PokerHand.js:403-431 | any other string gives a rank only when it is one character J, Q, K or A in either case, and then gives 11, 12, 13 or 14 |
| Cards.ParseRankDigit | PokerHand.js:405-416 | a single digit gives its value when it is at least 2, and undefined for 0 and 1 |
| Cards.ParseRankLetter | PokerHand.js:417-430 | a single non-digit is upper-cased and looked up among J, Q, K and A |
| Cards.ParseRankOneChar | PokerHand.js:403-431 | a one-character rank part gives exactly the rank in the table of 2..9 and J, Q, K, A in either case |
| Cards.ParseRankTwoChars | PokerHand.js:403-431 | a two-character rank part gives exactly the rank in the table of "10" and "02" to "09" |
| Cards.ParseRankShort | PokerHand.js:403-431 | the rank parts that the constructor passes, one or two characters long, are accepted exactly as the tables say |
| Cards.ParseRankOfDecimal | PokerHand.js:403-416 | the digits of each rank from 2 to 10 parse back to that rank |
| Cards.ParseRankToken | PokerHand.js:403-431 | the written rank part of each rank has one or two characters and parses back to the rank |
| Cards.UpperCase | PokerHand.js:404 | upper-casing keeps the length, leaves no lower-case ASCII letter, and keeps every other character |
| Cards.AllDigits | PokerHand.js:406 | a string matching `^[0-9]+$` is non-empty and unchanged by upper-casing |
| Cards.DecimalValue | PokerHand.js:410 | a digit string without a leading zero is the decimal writing of its value, which is at least 1 |
| Cards.ParseSuit | PokerHand.js:433-446 | a suit is returned exactly for h, d, s and c, and it is the suit that letter writes |
| Cards.CodeUnits | PokerHand.js:369 | a character takes one or two UTF-16 code units |
| Cards.JsLength | PokerHand.js:369 | a string's JavaScript length lies between its number of characters and twice that, and equals it exactly when every character takes one code unit |
| Cards.ParseSuitExactly | PokerHand.js:433-446 | a suit letter gives a suit exactly when it is that suit's lower-case letter h, d, s or c |
| Cards.ParseCard | PokerHand.js:363-375 | the card keeps its token; a token whose JavaScript length is below 2 or above 3, or whose last character takes two code units, gets neither rank nor suit; any rank lies in 2..14; any suit is the one the token's last character writes; otherwise the rank is that of everything before the last character and the suit that of the last character |
| Cards.ParseNarrowToken | PokerHand.js:363-375 | a token of one or two single-code-unit characters followed by a single-code-unit character gets the rank of its front and the suit of its last character |
| Cards.ParseCardRoundTrip | PokerHand.js:363-375 | writing any rank and suit as a token and constructing a card from it gives back that rank and suit |
| Cards.ParsedCardValidity | PokerHand.js:448-459 | a token of the wrong JavaScript length, or ending in a two-code-unit character, is reported as an invalid rank, and a constructed card is valid exactly when it has a rank in 2..14 and a suit |
| Cards.CardInvalidReason | PokerHand.js:448-459 | the reason is an invalid rank exactly when there is no rank, an invalid suit exactly when there is a rank but no suit, and none exactly when both are present |
| Cards.IsValidCard | PokerHand.js:448-459 | a card is valid exactly when it has a rank and a suit |
| Cards.Equals | PokerHand.js:462-464 | every card equals itself; two cards without a rank and with the same suit are equal; equal cards are the same card exactly when their tokens agree |
| Cards.IsFaceCard | PokerHand.js:398-400 | for a rank in 2..14, it is a face card exactly when it is 11, 12, 13 or 14 |
| Cards.RankForDisplay | PokerHand.js:378-396 | ranks up to 10 are shown as the number itself, 11 to 14 by name, and anything above 14 as undefined |
| Cards.DisplayRoundTrip | PokerHand.js:378-400 | for a rank in 2..14: it is shown by name exactly when it is above 10; ranks up to 10 are shown as the number itself; and the digits or initial shown parse back to the rank |
| Validation.ParseHand | PokerHand.js:40-49 | there is one card per token, one more than the spaces left after collapsing whitespace; each card keeps its token, which holds no space |
| Validation.OffenceOf | PokerHand.js:58-75 | the reason for a failing card names its token; it is a duplicate exactly when the card equals an earlier card; an invalid-card reason carries the card's own reason; it is never the card-count reason |
| Validation.LastOffence | PokerHand.js:58-75 | a reason found among the cards is never the card-count reason and needs at least one card |
| Validation.ValidateHand | PokerHand.js:51-82 | the card-count reason is given exactly when there are not five cards, and then carries the count |
| Validation.JoinPlainTokens | PokerHand.js:44 | tokens joined by single spaces leave nothing for the whitespace replacement to change |
| Validation.ParseSeparatedHand | PokerHand.js:40-49 | a hand written as tokens with single spaces or whitespace runs between them gives exactly those tokens and one card per token, in order |
| Validation.ParseJoinedHand | PokerHand.js:40-49 | a hand written as tokens separated by single spaces gives one card per token, in order |
| Validation.LastOffenceNone | PokerHand.js:58-75 | no reason is stored exactly when every card is valid and equals no earlier card |
| Validation.LastOffenceIsLast | PokerHand.js:58-75 | the reason stored is the one of the last card that fails a check, and is never the card-count reason |
| Validation.ValidateHandSpec | PokerHand.js:51-82 | the hand passes exactly when it has five cards, each valid, no two equal |
| Ranking.SortedSnoc | PokerHand.js:98 | appending a card ranked at least as high as every other keeps the cards in rank order |
| Ranking.Insert | PokerHand.js:98 | inserting a card into sorted cards keeps them sorted, adds exactly that card, and bounds every rank by the highest |
| Ranking.SortByRank | PokerHand.js:98 | the sorted cards are in ascending rank order and are a permutation of the input |
| Ranking.InsertStable | PokerHand.js:98 | inserting a card puts it after every card of its own rank and keeps the order of the cards of each rank |
| Ranking.SortByRankStable | PokerHand.js:98 | the sort is stable: for every rank, the cards of that rank come out in the order they went in |
| Ranking.InsertDistinct | PokerHand.js:98 | inserting a card equal to none of the sorted cards keeps them pairwise unequal |
| Ranking.UnequalToPermutation | PokerHand.js:462-464 | a card equal to none of some cards is equal to none of any rearrangement of them |
| Ranking.SortByRankDistinct | PokerHand.js:98 | sorting keeps a hand free of equal cards |
| Ranking.SortReadyHand | PokerHand.js:98 | sorting a hand that passed validation gives five sorted, pairwise unequal cards with ranks and suits |
| Ranking.CountTable | PokerHand.js:207-215 | every entry of the table lies between 1 and the number of cards |
| Ranking.CountOf | PokerHand.js:207-215 | a rank's count is at most the number of cards, and positive exactly when the rank occurs |
| Ranking.CountTableFacts | PokerHand.js:207-215 | the table holds exactly the ranks that occur, each mapped to its number of occurrences |
| Ranking.CountTableStep | PokerHand.js:210-215 | counting one more card adds one to its rank's entry and changes no other entry |
| Ranking.CountOfPrefix | PokerHand.js:210-215 | one more card adds one to the count of its own rank only |
| Ranking.CountOfFive | PokerHand.js:207-215 | in five cards, a rank's count is the number of cards with that rank |
| Ranking.CountTotalStep | PokerHand.js:207-215 | the total count over a range of ranks is that of all cards but the last, plus one when the last card's rank lies in the range |
| Ranking.CountTotalEmpty | PokerHand.js:207-215 | no cards, no counts |
| Ranking.CountTotalAll | PokerHand.js:207-215 | summed over a range holding every rank, the counts add up to the number of cards |
| Ranking.TableTotalIsCountTotal | PokerHand.js:207-215 | the entries of the table add up to the counts of the cards |
| Ranking.CountTableTotal | PokerHand.js:207-215 | the table's counts over 2..14 add up to the number of cards |
| Ranking.CountTwoBound | PokerHand.js:207-215 | two different ranks together occur at most once per card |
| Ranking.CountThreeBound | PokerHand.js:207-215 | three different ranks together occur at most once per card |
| Ranking.Max | PokerHand.js:224-230 | the highest rank of a non-empty set of ranks is one of them, and no rank of the set lies above it |
| Ranking.Min | PokerHand.js:295-316 | the lowest rank of a non-empty set of ranks is one of them, and no rank of the set lies below it |
| Ranking.SecondMin | PokerHand.js:295-316 | the second lowest rank of a set of two or more is in the set and differs from the lowest |
| Ranking.SecondMinBounds | PokerHand.js:295-316 | the second lowest is above the lowest and at most every other rank of the set |
| Ranking.MaxIs | PokerHand.js:224-230 | a rank of the set at least as high as all of them is the highest |
| Ranking.MinIs | PokerHand.js:295-316 | a rank of the set at most as high as all of them is the lowest |
| Ranking.CountStep | PokerHand.js:224-230 | a scanned rank with the looked-for count becomes the highest such rank seen so far, and leaves the other ranks unchanged |
| Ranking.OtherStep | PokerHand.js:264-278 | a scanned rank whose count is not the one looked for becomes the highest other rank, above every earlier one |
| Ranking.PairStep | PokerHand.js:295-321 | a scanned rank with count 2 adds one pair; the first pair seen is the lowest and the second is the second lowest |
| Ranking.AbsentStep | PokerHand.js:224-230 | a rank missing from the table changes nothing in the scan |
| Ranking.PairAdded | PokerHand.js:295-316 | adding a rank above a set keeps its lowest, and makes the new rank the second lowest when the set had one element |
| Ranking.AllSameSuit | PokerHand.js:145-164 | the flush scan succeeds exactly when every two cards have the same suit |
| Ranking.StraightStep | PokerHand.js:180-199 | one step of the loop always leaves a next rank expected, never turns a failed scan back into a straight, and records nothing new or the scanned rank |
| Ranking.StraightRun | PokerHand.js:176-200 | after the loop a next rank is expected exactly when there were cards; a high card is recorded, and the scan can fail, only from the second card on |
| Ranking.StraightScan | PokerHand.js:169-203 | a straight starts at 10 or lower, and each rank is the next of the climb or an Ace |
| Ranking.StraightScanHigh | PokerHand.js:169-203 | a recorded high card needs a lowest rank of 10 or lower and is one of the ranks after the first |
| Ranking.StraightPrefixStep | PokerHand.js:179-200 | one more card extends a consecutive run only when it is the next rank, and extends an Ace-low climb only with an Ace |
| Ranking.StraightRunPhases | PokerHand.js:176-200 | while ranks climb by one the scan holds and records each rank; an Ace expected as 6 keeps it without recording; any other break ends it, and every later rank is recorded |
| Ranking.StepAfterClimb | PokerHand.js:180-199 | after a climb, the next rank in sequence extends it and is recorded; an Ace where 6 is expected keeps the straight with 5 recorded, or nothing when only the 5 came before; any other rank fails the scan and is recorded |
| Ranking.AceAfterSix | PokerHand.js:183-190 | an Ace arriving when the scan holds and expects 6 leaves the loop's state as it was |
| Ranking.StepAfterBreak | PokerHand.js:191-195 | once the scan has failed it stays failed, and each later rank is recorded |
| Ranking.StraightRunClosedForm | PokerHand.js:169-203 | on sorted ranks from 10 down, the scan returns a straight exactly for a consecutive run or an Ace-low climb, and records the card before the Aces or else the last card |
| Ranking.SomeRankNotTriple | PokerHand.js:273-276 | five cards always include a rank whose count is not 3, so the three-of-a-kind kicker is always defined |
| Ranking.SomeRankNotPair | PokerHand.js:342-345 | five cards always include a rank whose count is not 2, so the pair kicker is always defined |
| Ranking.StraightWithoutHigh | PokerHand.js:183-190 | the only straight that records no high card, 5,A,A,A,A, is four of a kind and never a flush |
| Ranking.Classify | PokerHand.js:105-129 | a royal flush exactly for a straight flush whose recorded high card is an Ace; a straight flush category exactly for a straight that is a flush; four of a kind exactly when that fails and some rank occurs four times, reporting such a rank; a full house reports a triple and a pair; a flush only for a flush that is no straight, with its suit and top rank; a straight only for a straight that is no flush, with its recorded high card (the converses are `Ranking.ClassifyFirstMatch`) |
| Ranking.ClassifyByKickers | PokerHand.js:131-140 | three of a kind exactly when some rank occurs three times, with a kicker that does not; two pair exactly when no rank occurs three times and two or more occur twice, reporting two different pairs; a pair reports a rank occurring twice and a kicker that does not; a high card exactly when no rank occurs two or three times, reporting the highest rank; never a higher category |
| Ranking.ClassifyFirstMatch | PokerHand.js:105-140 | the first match in source order: a full house exactly when there is no straight flush and no four of a kind and some rank occurs three times and another twice; a flush exactly for a flush that is no straight when neither of those holds; a straight exactly for a straight that is no flush when neither holds; the kicker categories exactly when the hand is neither flush nor straight and neither holds, and then the result is that of the kicker tests |
| Ranking.BestHand | PokerHand.js:99-140 | a flush category only when all cards share a suit; a straight category only when the scan accepts the ranks; a flush reports the suit and the highest card; a high card reports the highest card (the full first-match order is `HandProperties.BestHandFirstMatch`) |
| HandProperties.BestHandFirstMatch | PokerHand.js:99-140 | on the sorted cards, each category is reported exactly when it matches and no earlier one does, in the order royal flush, straight flush, four of a kind, full house, flush, straight, then three of a kind, two pair, pair and high card by the kicker tests; the conditions are stated on the suits, the straight scan and the count table of the cards |
| Ranking.TieBreaksDefined | PokerHand.js:116-140 | every tie-break rank the classification reads has been recorded when it is read |
| PokerHand.Hand.constructor | PokerHand.js:36-38 | the hand holds the parsed cards and every result field starts undefined |
| PokerHand.Hand.ParseHandString | PokerHand.js:40-49 | the cards are the tokens' cards, pushed one per token in order |
| PokerHand.Hand.IsValidHand | PokerHand.js:51-82 | the stored reason is the card-count reason for a wrong count, else the last failing check's reason, else the earlier reason; it returns true exactly when no reason is stored |
| PokerHand.Hand.SortCards | PokerHand.js:98 | the cards become the stable sort of the previous cards by rank |
| PokerHand.Hand.IsFlush | PokerHand.js:145-164 | it returns true exactly when every card has the first card's suit, records that suit only then, and records the last card's rank whenever there are two or more cards |
| PokerHand.Hand.ScanFlushAndStraight | PokerHand.js:101-102 | it returns the flush and straight verdicts, leaves in the three scan fields what the two scans record, and changes no category field |
| PokerHand.Hand.IsStraight | PokerHand.js:169-203 | on sorted cards it returns the straight scan's verdict and leaves the scan's recorded high card |
| PokerHand.Hand.CalculateMatchingCards | PokerHand.js:207-216 | the table becomes the count of each rank in the cards |
| PokerHand.Hand.IsFourOfAKind | PokerHand.js:221-233 | it returns true exactly when some rank has count 4, records the highest such rank, and else changes nothing |
| PokerHand.Hand.IsFullHouse | PokerHand.js:238-255 | it returns true exactly when some rank has count 3 and some rank has count 2, and records the highest of each that exists |
| PokerHand.Hand.IsThreeOfAKind | PokerHand.js:260-284 | it returns true exactly when some rank has count 3; it then records the highest such rank, and as kicker the highest rank whose count is not 3 |
| PokerHand.Hand.IsTwoPair | PokerHand.js:289-324 | it returns true exactly when two ranks have count 2, records the higher and the lower of the two lowest, and as kicker the last rank scanned whose count is not 2 |
| PokerHand.Hand.IsPair | PokerHand.js:329-353 | it returns true exactly when some rank has count 2; it then records the highest such rank, and as kicker the highest rank whose count is not 2 |
| PokerHand.Hand.GetHighCardRank | PokerHand.js:357-359 | it returns the last card's rank, which on sorted cards is the highest in the hand |
| PokerHand.Hand.CalculateBestPokerHand | PokerHand.js:84-141 | on a validated hand it sorts the cards and returns the first matching category. The scan fields hold what the flush and straight scans record. After a royal or straight flush, the count table and the category fields are as they were; otherwise the table counts each rank, and the category fields hold exactly what the tests run before the match record (`AfterCountTests`) |
| PokerHand.Hand.ClassifySorted | PokerHand.js:99-140 | on sorted cards it returns the classification of the cards. The scan fields hold what the two scans record. After a royal or straight flush, the count table and the category fields are as they were; otherwise the table counts each rank, and the category fields hold exactly what the tests run before the match record |
| PokerHand.Hand.BestByCounts | PokerHand.js:119-129 | it tries four of a kind, full house, flush and straight, in that order, before the kicker categories; the category fields end as the tests it ran leave them, and the scan fields are unchanged |
| PokerHand.Hand.BestByKickers | PokerHand.js:131-140 | it tries three of a kind, two pair and pair, in that order, and otherwise reports the high card; the category fields end as the tests it ran leave them (`AfterKickerTests`), and the scan fields are unchanged |
| PokerHand.ValidHandIsReady | PokerHand.js:51-82 | a hand that passes validation has five pairwise unequal cards, each with a rank in 2..14 and a suit |
| PokerHand.ParsedHandIsReady | PokerHand.js:51-82 | a parsed hand that passes validation is ready to classify |
| PokerHand.Evaluate | PokerHand.js:4-32 | the outcome is an error exactly when the parsed hand fails validation, and the card-count error exactly when the collapsed string does not hold four spaces |
| PokerHand.EvaluateHand | PokerHand.js:4-32 | the outcome is the stored reason when validation fails, and otherwise the best hand of the sorted cards |
| HandProperties.SortedHandRanks | PokerHand.js:98 | a sorted hand has five ranks in 2..14, in ascending order |
| HandProperties.InCountSets | PokerHand.js:207-215 | a rank is among those with count c in the table exactly when it occurs c times in the cards |
| HandProperties.CountFourBound | PokerHand.js:207-215 | four different ranks together occur at most once per card |
| HandProperties.NoFiveOfAKind | PokerHand.js:58-75 | in a validated hand no rank occurs five times, because there are only four suits |
| HandProperties.FourOfAKindCounts | PokerHand.js:119-120 | the reported four-of-a-kind rank occurs four times |
| HandProperties.FullHouseCounts | PokerHand.js:122-123 | the reported triple occurs three times and the reported pair twice |
| HandProperties.ThreeOfAKindCounts | PokerHand.js:131-132 | the reported rank occurs three times, the other two cards are singles, the kicker is the highest of them, and the hand is neither a flush nor a straight |
| HandProperties.TwoPairCounts | PokerHand.js:134-135 | exactly two ranks occur twice, the high one above the low one, and the kicker is the one rank that occurs once; the hand is neither a flush nor a straight |
| HandProperties.PairCounts | PokerHand.js:137-138 | the reported rank occurs twice, the other three cards are singles, the kicker is the highest of them, and the hand is neither a flush nor a straight |
| HandProperties.HighCardCounts | PokerHand.js:140 | every rank occurs once, the reported rank is the highest, and the hand is neither a flush nor a straight |
| HandProperties.StraightOnDistinctRanks | PokerHand.js:169-203 | on five different ranks the scan finds a straight exactly for five consecutive ranks or the wheel, with high card 5 for the wheel and the top rank otherwise |
| HandProperties.FlushRanksIncrease | PokerHand.js:145-164 | the five cards of a flush have five different ranks |
| HandProperties.StraightFlushIsRun | PokerHand.js:105-113 | a straight flush is five consecutive ranks of one suit below Ace high, or the wheel with 5 high; a royal flush is 10 to Ace |
| HandProperties.FlushFacts | PokerHand.js:125-126 | a reported flush has all five cards in its suit, five different ranks forming neither a run nor the wheel, and the highest rank reported |
| HandProperties.StraightFacts | PokerHand.js:128-129 | a reported straight is no flush; it is five consecutive ranks with the top one reported, or a climb to 5 completed by Aces with 5 reported |
| HandProperties.SortKeepsSorted | PokerHand.js:98 | the stable sort leaves cards already in rank order as they are |
| HandProperties.AceBranchAcceptsRepeatedAces | PokerHand.js:183-190 | 3,4,5,A,A and 4,5,A,A,A pass the scan with 5 high, 5,A,A,A,A passes with no high card, and 3,4,5,6,A fails |
| HandProperties.ParseTwoCharToken | PokerHand.js:363-375 | a two-character token whose last character takes one code unit splits into a one-character rank part and a suit letter |
| HandProperties.AceWithEmojiHasNoRank | PokerHand.js:369-374 | `"A😀"` has two characters but three code units, so its rank part is not `"A"`: it gets no rank and is reported as an invalid rank, although `"A"` alone parses to 14 |
| HandProperties.WhitespaceRunSeparatesTokens | PokerHand.js:43-46 | `"Ah \t Kh"` holds the two tokens `Ah` and `Kh`: the run of space, tab and space is one separator |
| HandProperties.ParseJoinedCards | PokerHand.js:40-49 | tokens joined by single spaces parse to the cards the tokens parse to |
| HandProperties.ThreeAcesReportedAsStraight | PokerHand.js:84-141 | "4h 5d Ah As Ac" is reported as a straight with 5 high, not as three Aces |

## Left out

- `evaluateHand` reads its input from and writes its result to page elements (PokerHand.js lines 5-10 and 21-30). `EvaluateHand` instead takes the hand string as a parameter and returns the outcome.
- The result strings are not modelled. A category is returned as the datatype `RankedHand`, which carries the ranks and suit the string would show. `getRankForDisplay` is modelled on its own. Validation failures are the `HandError` values behind the message templates.
- `toUpperCase` is modelled on the ASCII letters only. No other character upper-cases to a digit or to J, Q, K or A, so the ranks accepted are the same.
- `rankString in faceCardValueMap` would also find properties inherited from `Object.prototype`. An upper-cased string never names one, so the model looks only at the four keys.
- The `invalidReason` that `isValidCard` caches on a card is the function `CardInvalidReason`, computed when needed.
- PokerHand.Hand.SortCards: the built-in `Array.prototype.sort` is modelled by the order it must produce, not by its algorithm. A stable sort by rank has exactly one result, `SortByRank`.
- PokerHand.Hand.CalculateBestPokerHand requires a hand that passed `isValidHand`, as `evaluateHand` guarantees. On unchecked cards the source would compare undefined ranks, and that is not modelled.
- PokerHand.Hand.CalculateBestPokerHand: its body is split into `ClassifySorted`, `ScanFlushAndStraight`, `BestByCounts` and `BestByKickers`. The calls and their order are the source's. The ghost parameters of the last two carry what the earlier scans established.
- `Object.entries` on the count table visits integer keys in ascending order, and the model scans ranks 2 to 14 in that order. Keys other than ranks cannot occur.
- The source's state that `matchingCards` is undefined before `calculateMatchingCards` runs is modelled as an empty table.
- JavaScript strings may hold unpaired surrogate code units; Dafny characters cannot. Such strings are not modelled.
