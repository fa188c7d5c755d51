# Poker table engine: a Dafny model

This project models the core of a multiplayer Texas hold'em server. The server
seats the players of a session and posts the small and big blinds. It hands the
turn from seat to seat, accepts fold, check, call and raise, and closes each
betting round (preflop, flop, turn, river). At showdown it evaluates the hands,
finds the winners and splits the pot. The model also covers the 52-card deck and
the in-memory player object with its chip operations.

The model has these modules:

- `GameLogic`: the betting engine. One `Game` object holds the round record of
  one session, and its methods change it in place. That record holds the
  players, stacks, bets, pot, bet to match, phase, turn, blind positions, the
  folded, all-in and acted sets, the last raiser, hole cards and community cards.
  The pure parts are module functions with their lemmas: who is dealt in, who
  is active, when a betting round is complete, the actions offered, the first
  player of a betting round, why an action is refused, and who is paid how much.
- `HandEvaluator`: card parsing, sorting by rank, flush and straight detection,
  grouping by rank, hand classification, the hand comparison, the winner
  search and the pot split, all written as functions over sequences.
- `HandProperties`: what those functions guarantee. Examples: a straight is found
  exactly when five consecutive ranks or the wheel are present; a flush is the
  five highest cards of its suit; every category reported is backed by the
  tests the evaluator makes on the cards, which for a royal flush do not tie the
  straight to the flush; the comparison is a total preorder; the winners tie and beat everyone
  else; the pot split hands out the whole pot.
- `DeckModel`: the deck built suit by suit with running ids, shuffled, and dealt
  from the end.
- `PlayerModel`: the player object with its balance, stack, cards and chip
  operations.
- `Ledger` and `Wrappers`: sums of chips over the players, and `Option`.

The main guarantees are these:

- A round in progress keeps its invariant (`Game.Valid`). No operation creates or
  destroys a chip: while the round goes on, the stacks plus the pot stay constant.
- Settlement pays out exactly the pot.
- Every accepted action hands the turn to a player who can act, or else ends the
  round. The turn goes one seat on and then to the first seat from there whose
  player can bet; a complete betting round is closed instead.

The model follows the code as written, including these behaviours:

- With two players, both blinds fall on the same seat. That seat's bet is then
  the big blind alone.
- A call that empties the stack exactly is not marked all in.
- An all-in raise can lower the bet to match. A later call then takes chips back.
- A refused action still marks the player as having acted.
- The minimum reported for a too-small raise is twice what is owed.
- A wheel (ace to five) is scored with high card 2, not 5. `isStraight` lists
  the wheel from the 2 up, so the ace-first test in `evaluateHand` never holds.
  `WheelScoresTwo` shows the wheel still loses to every other straight.
- The royal flush test does not check that the straight and the flush are the
  same cards: `RoyalOfMixedSuits` gives a hand whose ten is of another suit and
  is still reported a royal flush.
- `evaluateHand` classifies all seven cards at once rather than searching every
  five-card combination.
- `compareHands` returns the signed difference, not -1/0/1.
- `%` and `Math.floor` follow JavaScript (`JsRem`).

## Model

| member | source | states |
|---|---|---|
| GameLogic.NextPhase | GameLogic.js:359-376 | After a betting round one round fewer is left, the next phase is never the showdown, and the flop shows three community cards while the turn and the river show one more each |
| GameLogic.KeepForRound | GameLogic.js:51-53 | A roster player is dealt in exactly when the recorded stack is missing or not negative; never more players than the roster |
| GameLogic.KeepForRoundDistinct | GameLogic.js:51-53 | Nobody is seated twice when nobody is on the roster twice |
| GameLogic.KeepForRoundKeepsAll | GameLogic.js:51-53 | With no negative stack recorded, the whole roster is seated in roster order |
| GameLogic.ActivePlayers | GameLogic.js:334-336 | A login is active exactly when it is seated and has not folded |
| GameLogic.ActiveDistinct | GameLogic.js:334-336 | The active players of distinct seated players are distinct |
| GameLogic.ActiveWithoutFolds | GameLogic.js:334-336 | With no folds every seated player is active, in seat order |
| GameLogic.FoldRemovesOne | GameLogic.js:248-250 | A fold by an active player leaves exactly one active player fewer |
| GameLogic.FoldOfAbsent | GameLogic.js:334-336 | Folding a login that is not seated leaves the active players as they were |
| GameLogic.AllSettled | GameLogic.js:343-354 | True exactly when every active player is all in, or has acted and matched the bet to match |
| GameLogic.BettingRoundComplete | GameLogic.js:338-355 | True exactly when at most one player is active, or every active player is all in or has acted and matched the bet |
| GameLogic.AvailableActions | GameLogic.js:203-221 | Fold is always offered first; check exactly when nothing is owed; call exactly when something is owed and the stack covers it; raise exactly when the stack is more than what is owed; never both check and call |
| GameLogic.FirstEligible | GameLogic.js:395-404 | The scan from a seat once round the table stops at the first seat whose player has neither folded nor gone all in, and gives seat 0 when there is none |
| GameLogic.FirstPlayerForPhase | GameLogic.js:392-405 | The seat returned is on the table; when anybody can still bet, its player has neither folded nor gone all in; otherwise it is seat 0 |
| GameLogic.EligibleSeatReached | GameLogic.js:395-401 | A scan once round the table from any seat meets every seat, so it finds a player who can bet whenever there is one |
| GameLogic.FirstEligibleAt | GameLogic.js:151-159 | When the seat k places on is eligible and none before it is, the scan stops there |
| GameLogic.FirstEligibleHere | GameLogic.js:151-159 | A scan that starts at an eligible seat stays there |
| GameLogic.UnsettledHasEligible | GameLogic.js:338-355 | A betting round that is not complete has a seated player who can still bet |
| GameLogic.RefusalCases | GameLogic.js:247-306 | Fold and call are never refused; a check is refused exactly when something is owed; a raise by no positive amount is a bad amount; a positive raise is refused exactly when it is smaller than what is owed while the stack could pay more, and the minimum reported is twice what is owed |
| GameLogic.SeatPlayers | GameLogic.js:79-84 | Every seated player gets a zero bet and, when the stack is missing or zero, the starting balance; other stacks are kept and nobody else has a bet |
| GameLogic.ZeroBets | GameLogic.js:364 | Every seated player's bet becomes zero and every other entry is kept |
| GameLogic.Credit | GameLogic.js:444-452 | Each payee's stack grows by its share and no other stack changes; the seated players' chips grow by exactly the sum of the shares |
| GameLogic.ContendersOf | GameLogic.js:429-432 | One hand per active player, in seat order, under that player's login |
| GameLogic.WinnersAmongActive | GameLogic.js:435-452 | The winners found among distinct active players are at least one, distinct and all still in the hand |
| GameLogic.PayeesSound | GameLogic.js:413-480 | Whoever is paid (the last player, the winners, or everybody in the hand when evaluation fails) is at least one distinct active player, and the payouts add up to the pot |
| GameLogic.Game.constructor | GameLogic.js:20-45 | A session record with no round: no players, stacks or bets, an empty pot, preflop, positions at seat 0, nothing folded, all in or acted |
| GameLogic.Game.StartRound | GameLogic.js:47-138 | With fewer than two players dealt in the round is refused and nothing changes; otherwise exactly those players are seated, the chips on the table are their refilled stacks, the round invariant holds and the player on turn can act |
| GameLogic.Game.PostBlinds | GameLogic.js:51-109 | With fewer than two players dealt in the round is refused and nothing changes; otherwise the dealt players are seated, the small blind sits one seat after the previous one, the big blind two seats after it and the seat after the big blind is on turn; each blind is capped by the refilled stack (on a shared seat, by what the small blind left), every stack loses exactly its blinds, the bets are the blinds (the big blind alone on a shared seat), exactly the emptied blind seats are all in, the pot is both blinds, the big blind is the bet to match, and the phase is a fresh preflop |
| GameLogic.Game.OpenRound | GameLogic.js:59-109 | The seating and blinds of a dealt list of players, stated from the base stacks and the previous small blind seat as PostBlinds states them |
| GameLogic.Game.Seat | GameLogic.js:59-84 | The small blind one seat on, the big blind two seats after it, the seat after the big blind on turn; stacks refilled, bets zero, nothing folded, all in, acted or revealed |
| GameLogic.Game.Blinds | GameLogic.js:86-109 | Each blind is capped by what the stack holds (on a shared seat, what the small blind left); the stacks lose exactly the blinds; the big blind's bet replaces the small blind's on a shared seat; exactly the emptied blind seats are all in; the pot is both blinds and the big blind is the bet to match; chips are kept |
| GameLogic.Game.SeatRound | GameLogic.js:63-84 | The seated players, stacks and zero bets are installed with an empty pot and the positions given, and the round invariant holds |
| GameLogic.Game.ResetHand | GameLogic.js:63-77 | Nothing is bet, folded, all in, acted or revealed, the phase is preflop, and the dealt cards are installed |
| GameLogic.Game.PostBlind | GameLogic.js:92-99 | The blind leaves the stack, becomes the bet and enters the pot, and the player is all in exactly when the stack is emptied; chips are kept |
| GameLogic.Game.TakeBlind | GameLogic.js:92-95 | The blind leaves the stack, replaces the bet and enters the pot; chips are kept |
| GameLogic.Game.SetCurrentBet | GameLogic.js:105 | The bet to match is set and nothing else changes |
| GameLogic.Game.HandleAction | GameLogic.js:223-332 | An action is refused with nothing changed when the player is not in the game, not on turn, or folded or all in; otherwise the refusal is exactly `Refusal`, and a refused action leaves only the acted mark; an accepted action keeps the players and every chip and leaves the turn with a player who can act, or ends the round |
| GameLogic.Game.ApplyAction | GameLogic.js:238-306 | The refusal is exactly `Refusal`; a fold removes the player from the hand and changes nothing else; a check changes nothing but the acted mark; the table's chips and the actor's stack plus bet are kept; a fold leaves one active player fewer and any other action none |
| GameLogic.Game.CallAction | GameLogic.js:258-270 | When what is owed exceeds the stack, the whole stack goes into the bet and the pot and the player is all in; otherwise what is owed moves from the stack to the bet and the pot, so the bet meets the bet to match; chips are kept |
| GameLogic.Game.RaiseAction | GameLogic.js:272-302 | The refusal is exactly `Refusal` and changes nothing; a raise the stack cannot cover puts the whole stack in, makes it the bet to match and marks the player all in; otherwise the bet becomes the bet to match plus the amount; either way only the raiser has acted and is the last raiser; chips are kept |
| GameLogic.Game.RaiseAllIn | GameLogic.js:281-290 | The whole stack goes into the bet and the pot, that bet becomes the bet to match, the player is all in, the only player who has acted and the last raiser |
| GameLogic.Game.RaiseTo | GameLogic.js:293-300 | The bet becomes the new total, the difference moves from the stack to the pot, the total is the bet to match, and the raiser is the only player who has acted and the last raiser |
| GameLogic.Game.EndRound | GameLogic.js:498-515 | The last player in the hand takes the pot, so the stacks hold every chip; with more players in the hand no stack changes; the round is over and nothing else changes |
| GameLogic.Game.Showdown | GameLogic.js:407-496 | Every payee's stack grows by its payout and no other stack changes; the stacks then hold every chip of the round; the phase is showdown and the round is over |
| GameLogic.Game.Settle | GameLogic.js:441-452 | Each payee's stack grows by its share; shares that add up to the pot leave the stacks holding every chip of the round; the round is over |
| GameLogic.Game.AdvancePhase | GameLogic.js:361-376 | The phase moves on, every seated bet is zero, the bet to match is zero, nobody has acted or raised, the first player who can bet from the small blind on is on turn, the revealed cards grow to the phase's count, and the active players and chips are kept |
| GameLogic.Game.ClearBets | GameLogic.js:364-368 | Every seated bet becomes zero, the bet to match is zero and nobody has acted or raised; chips are kept |
| GameLogic.Game.ResetRaise | GameLogic.js:366-368 | The bet to match is zero and nobody has acted or raised |
| GameLogic.Game.RevealNext | GameLogic.js:372-376 | The phase moves on and the revealed community cards extend the earlier ones to the phase's count |
| GameLogic.Game.AfterAction | GameLogic.js:319-331 | With one player left in the hand that player takes the pot and the round is over; otherwise the turn moves one seat on and from there a complete betting round is closed (a later round reached, or after the river the showdown paid), while an open one gives the turn to the first seat from there whose player can bet, that player being awaited when connected and folded otherwise; seats and chips are kept, no betting round is undone and no fold taken back |
| GameLogic.Game.CloseOrContinue | GameLogic.js:327-331 | A complete betting round is closed; an open one gives the turn to the first seat from the seat on turn whose player can bet, awaited when connected and folded otherwise |
| GameLogic.Game.MoveTurn | GameLogic.js:325 | The turn passes to the next seat round the table and nothing else changes |
| GameLogic.Game.NextTurn | GameLogic.js:140-201 | With at most one player in the hand that player takes the pot and the round is over; otherwise, when someone can bet, the turn goes to the first seat from the seat on turn whose player can bet and nothing else changes if that player is connected, while a player who is not connected is folded; when nobody can bet the betting round is closed; seats and chips are kept, no betting round is undone and no fold taken back |
| GameLogic.Game.SeekTurn | GameLogic.js:151-198 | The scan finds a seat exactly when some player can bet; it then stops at the first such seat from the seat on turn and changes nothing else, and otherwise leaves the record as it was |
| GameLogic.Game.ProceedToNextPhase | GameLogic.js:357-390 | Before the river a later betting round is reached; when someone can bet and the first such player from the small blind on is connected, the record is the next phase with that player on turn, bets and the bet to match zero, nobody acted or raised, folds, stacks and pot kept and the phase's community cards face up; after the river the showdown pays each payee its payout and the round is over; seats and chips are kept |
| GameLogic.Game.MarkActed | GameLogic.js:242 | The player is counted as having acted and nothing else changes |
| GameLogic.Game.MarkAllIn | GameLogic.js:264 | The player is all in and nothing else changes |
| GameLogic.Game.Reopen | GameLogic.js:288-290 | The raise sets the bet to match, records the raiser and leaves the raiser as the only player who has acted |
| GameLogic.Game.Commit | GameLogic.js:266-268 | Chips move between one player's stack and bet, and the pot changes by what the bet changed; the table's chips are kept |
| HandEvaluator.ParseCard | HandEvaluator.js:40-61 | A numeric rank is kept; a named rank parses exactly when it is one of the known names, to a rank from 2 to the ace; the suit is kept |
| HandEvaluator.RankNamesParse | HandEvaluator.js:41-55 | Each rank name parses to its position plus two |
| HandEvaluator.ParseAll | HandEvaluator.js:153 | All cards parse exactly when each does, and then each parsed card is the parse of the card at its position |
| HandEvaluator.InsertByRank | HandEvaluator.js:66-68 | Inserting a card adds exactly that card |
| HandEvaluator.InsertOfRank | HandEvaluator.js:66-68 | Inserting a card keeps the order of the cards of each rank, with the new card first among its rank |
| HandEvaluator.InsertKeepsDescending | HandEvaluator.js:66-68 | Inserting into cards sorted by descending rank keeps them sorted |
| HandEvaluator.SortCards | HandEvaluator.js:66-68 | The result is a permutation of the cards, sorted by descending rank, and keeps the order of equal-rank cards (a stable sort) |
| HandEvaluator.OfSuit | HandEvaluator.js:81 | The cards of a suit are exactly the hand's cards of that suit |
| HandEvaluator.FlushSuit | HandEvaluator.js:74-80 | The suit found has at least five cards and is the first scanned suit that has five; none is found exactly when no scanned suit has five |
| HandEvaluator.IsFlush | HandEvaluator.js:73-84 | No flush exactly when no suit has five cards; otherwise the first five cards, in hand order, of the first suit in hand order that has five |
| HandEvaluator.Dedup | HandEvaluator.js:91 | The distinct ranks: the same values with no repetition |
| HandEvaluator.DedupDecreasing | HandEvaluator.js:90-91 | The distinct ranks of cards sorted by descending rank are strictly decreasing |
| HandEvaluator.FirstRun | HandEvaluator.js:94-102 | The first window of five consecutive distinct ranks, if any, and no window before it; none exactly when there is no such window |
| HandEvaluator.FirstOfRank | HandEvaluator.js:106 | The card found has the rank asked for and no earlier card of the hand has it |
| HandEvaluator.PickRanks | HandEvaluator.js:103-109 | One card per rank asked for, in the order asked, each the first card of the hand with that rank |
| HandEvaluator.IsStraight | HandEvaluator.js:89-127 | A straight found is five cards of the hand |
| HandEvaluator.InsertGroup | HandEvaluator.js:141-146 | Inserting a group adds exactly that group |
| HandEvaluator.InsertGroupOrdered | HandEvaluator.js:141-146 | Inserting a group of a new rank keeps the groups ordered by size, then by rank, both descending |
| HandEvaluator.SortGroups | HandEvaluator.js:141-146 | The sorted groups are a permutation of the groups |
| HandEvaluator.SortGroupsOrdered | HandEvaluator.js:141-146 | Groups of distinct ranks come out ordered larger group first, then higher rank first |
| HandEvaluator.GroupCardsByRank | HandEvaluator.js:132-147 | Each group holds exactly the hand's cards of its rank and is not empty, every rank of the hand has a group, and the groups are ordered by size then rank |
| HandEvaluator.GroupsPartition | HandEvaluator.js:132-140 | One group per distinct rank, each holding exactly the cards of that rank |
| HandEvaluator.InFlush | HandEvaluator.js:172-177 | The straight-flush cards are exactly the straight cards that are also flush cards |
| HandEvaluator.EvaluateAll | HandEvaluator.js:365-368 | Evaluation succeeds exactly when every player's hand evaluates, and then gives each player's hand in player order |
| HandEvaluator.EvaluateAllLogins | HandEvaluator.js:365-368 | The evaluated hands carry the players' logins in the players' order |
| HandEvaluator.BestIndex | HandEvaluator.js:371-374 | A best hand: no hand compares above it, and every hand before it compares below it |
| HandEvaluator.TiedWith | HandEvaluator.js:375-377 | Exactly the entries whose hands tie with the best hand |
| HandEvaluator.KickersReflexive | HandEvaluator.js:346-358 | Kickers compared with themselves tie |
| HandEvaluator.KickersAntisymmetric | HandEvaluator.js:346-358 | Swapping the kicker lists negates the comparison |
| HandEvaluator.KickersTransitive | HandEvaluator.js:346-358 | The kicker comparison is transitive, strictly when either step is strict |
| HandEvaluator.KickersEmpty | HandEvaluator.js:351-354 | A missing kicker counts as 0; the first differing kicker decides, by its difference |
| HandEvaluator.CompareReflexive | HandEvaluator.js:299-359 | A hand compared with itself ties |
| HandEvaluator.CompareAntisymmetric | HandEvaluator.js:299-359 | Swapping the hands negates the comparison |
| HandEvaluator.CompareTransitive | HandEvaluator.js:299-359 | The hand comparison is transitive, strictly when either step is strict, so it is a total preorder |
| HandEvaluator.JsRem | HandEvaluator.js:390 | JavaScript's remainder: it differs from the dividend by a multiple of the divisor, lies in [0, n) for a non-negative dividend and in (-n, 0] for a negative one |
| HandProperties.StraightAtRun | HandEvaluator.js:94-110 | When a run of five distinct ranks is found, the straight holds exactly the ranks of that run, highest first |
| HandProperties.StraightAtWheel | HandEvaluator.js:114-126 | With no run of five, a straight is found exactly when the ace, 2, 3, 4 and 5 are present, and it is listed 2, 3, 4, 5, ace |
| HandProperties.StraightFound | HandEvaluator.js:89-111 | Five consecutive ranks topped by a given rank give a straight of five consecutive ranks whose top is at least that rank |
| HandProperties.StraightShapeRun | HandEvaluator.js:94-110 | A straight from a run is five consecutive ranks of the hand, highest first |
| HandProperties.StraightShapeWheel | HandEvaluator.js:114-124 | A wheel is reported only when the hand has the ace to five and no five consecutive ranks |
| HandProperties.StraightShape | HandEvaluator.js:89-127 | A straight found is either five consecutive ranks of the hand, highest first, or the wheel when no such run exists |
| HandProperties.StraightIff | HandEvaluator.js:89-127 | A straight is found exactly when five consecutive ranks or the ace to five are present |
| HandProperties.OfSuitDescending | HandEvaluator.js:81 | The cards of a suit taken from sorted cards stay sorted |
| HandProperties.TopFiveOfSuit | HandEvaluator.js:81 | The first five cards of a suit in sorted cards are sorted, and no other card of that suit ranks above the fifth |
| HandProperties.FlushOfDescending | HandEvaluator.js:73-84 | On cards sorted by rank, a flush is sorted and holds the five highest cards of its suit |
| HandProperties.FlushIsTopFive | HandEvaluator.js:153-156 | The flush evaluateHand finds is the five highest cards of its suit in the hand, highest first |
| HandProperties.GroupsNonEmpty | HandEvaluator.js:132-147 | There are no rank groups exactly when there are no cards |
| HandProperties.FirstGroupLargest | HandEvaluator.js:141-146 | The first group is at least as large as any rank's cards |
| HandProperties.SecondGroupLargest | HandEvaluator.js:141-146 | Any other rank present means a second group, of another rank and at least as large as that rank's cards |
| HandProperties.LeadingGroups | HandEvaluator.js:132-147 | The first two groups hold exactly the cards of their ranks, of two different ranks, the larger first |
| HandProperties.ClassifySound | HandEvaluator.js:160-292 | Each category the classification chain reports is backed by what it read: a royal flush by a flush and a straight from ace to ten; a straight flush by a straight whose every card is in the flush, scored by its top rank; four of a kind by the quad rank leading the groups with the next group's rank as kicker; three and at least two for a full house; the flush's ranks as kickers; for three of a kind, two pair and pair the leading groups with the next ranks of the later groups as kickers |
| HandProperties.InFlushWhole | HandEvaluator.js:172-178 | Five straight-flush cards from a five-card straight means every straight card is in the flush |
| HandProperties.EvaluateSound | HandEvaluator.js:152-293 | Every category evaluateHand reports is backed by the cards: a royal flush by a flush and a straight with ranks ace, king, queen, jack, ten; a straight flush by a straight inside the flush; four of a kind with the most numerous other rank as kicker; the kickers of trips, two pair and a pair as the next ranks of the later groups |
| HandProperties.HandGroupsBySize | HandEvaluator.js:141-146 | The first group of a hand is its largest, and the second is the largest of any other rank |
| HandProperties.ClassifyAtLeast | HandEvaluator.js:160-292 | With two rank groups and at most four cards of a rank, the chain succeeds and reports at least the best category the groups, the flush or the straight make |
| HandProperties.EvaluateAtLeast | HandEvaluator.js:152-293 | A hand with two ranks and at most four cards of a rank evaluates, to at least flush when it holds a flush, at least straight with a straight, at least pair, two pair, three of a kind, full house or four of a kind when its ranks make one |
| HandProperties.ClassifyStraightHigh | HandEvaluator.js:223-234 | A reported straight carries the first rank of the straight found as its high card |
| HandProperties.WheelScoresTwo | HandEvaluator.js:223-234 | A wheel is scored with high card 2 while every other straight scores its top rank, at least 6 |
| HandProperties.SortDescendingSame | HandEvaluator.js:66-68 | Sorting cards already highest first leaves them as they are |
| HandProperties.DedupOfDistinct | HandEvaluator.js:91 | Distinct ranks are their own distinct set |
| HandProperties.FirstOfFalling | HandEvaluator.js:106 | In a hand of strictly falling ranks, the card found for a rank is the card with it |
| HandProperties.PickFalling | HandEvaluator.js:103-109 | In a hand of strictly falling ranks, the first five ranks pick the first five cards |
| HandProperties.StraightOfFallingRun | HandEvaluator.js:94-110 | A hand of strictly falling ranks whose first five are consecutive is its own straight |
| HandProperties.RoyalOfAceRun | HandEvaluator.js:160-168 | Any flush in a hand of strictly falling ranks from ace to ten is reported a royal flush, whatever the suits of the straight |
| HandProperties.MixedRoyalFlush | HandEvaluator.js:73-84 | In the hand of the instance below the flush is found in suit h and leaves out the ten of suit c |
| HandProperties.RoyalOfMixedSuits | HandEvaluator.js:159-168 | The ace, king, queen, jack, 3 and 2 of one suit with the ten of another make a flush without the ten and the straight ace to ten with it, and are reported a royal flush |
| HandProperties.TiedWithDistinct | HandEvaluator.js:375-377 | Filtering entries with distinct logins keeps the logins distinct |
| HandProperties.TiedWithBest | HandEvaluator.js:370-377 | The tied entries are at least one, drawn from the entries, beaten by none, tie with each other, include every entry that ties them, and keep distinct logins distinct |
| HandProperties.FindWinnersCorrect | HandEvaluator.js:364-383 | No winners exactly when there is no player or a hand does not evaluate; otherwise the winners are evaluated players that no player beats, that tie with each other, that include every player tying them, with distinct logins kept distinct |
| HandProperties.WinnersAmongPlayers | HandEvaluator.js:364-383 | The winners are at least one, each a player, and distinct when the players' logins are |
| HandProperties.DistributionAfter | HandEvaluator.js:393-395 | After k winners are assigned, exactly those winners have an entry, each with its share |
| HandProperties.DistributePotShares | HandEvaluator.js:388-398 | Each winner, and nobody else, gets the pot divided by their number rounded down, plus one for each of the first pot-mod-count winners |
| HandProperties.SharesFrom | HandEvaluator.js:388-398 | The shares from any position on add up to the rest of the pot |
| HandProperties.DistributePotTotal | HandEvaluator.js:388-398 | The shares of distinct winners add up to the whole pot |
| DeckModel.FullDeck | Deck/Deck.js:26-33 | Fifty-two cards, the card at each position being the one the build loops make for that id |
| DeckModel.BuildCards | Deck/Deck.js:24-33 | The nested build loops produce exactly the deck in build order |
| DeckModel.CardAt | Deck/Deck.js:27-31 | Suit s and value v are at position 13 * s + v, with that id |
| DeckModel.FullDeckExactlyOnce | Deck/Deck.js:26-33 | Every suit and value pair is in the built deck, no two positions share suit and value, and each id is its position |
| DeckModel.FullDeckCounts | Deck/Deck.js:26-33 | No card occurs twice in the built deck |
| DeckModel.Deck.constructor | Deck/Deck.js:23-35 | The new deck is a permutation of the 52 built cards |
| DeckModel.Deck.GetCard | Deck/Deck.js:37-40 | The last card is removed and returned, and is no longer in the deck; an empty deck gives none and stays empty |
| PlayerModel.Player.constructor | src/Player.js:7-20 | A new player with the login and password given, nothing on balance or stack, no session, no cards and no friends |
| PlayerModel.Player.SetStack | src/Player.js:88-93 | A new stack no larger than the balance is taken from the balance; a larger one changes nothing; no other field changes |
| PlayerModel.Player.ReceiveCard | src/Player.js:129-131 | The card goes at the end of the hand and no other field changes |
| PlayerModel.Player.ClearCards | src/Player.js:132-134 | The hand is empty and no other field changes |
| PlayerModel.Player.Pass | src/Player.js:136-138 | Passing empties the hand and no other field changes |
| PlayerModel.Player.Check | src/Player.js:139-141 | A check is always accepted |
| PlayerModel.Player.Call | src/Player.js:142-150 | A call succeeds exactly when the stack covers the amount, and then only the stack changes, by the amount; otherwise the player passes and only the hand changes |
| PlayerModel.Player.Raise | src/Player.js:151-156 | A raise the stack covers takes the amount from the stack, changes nothing else and answers true; otherwise it answers nothing and changes nothing |
| PlayerModel.Player.AllIn | src/Player.js:157-159 | The stack becomes zero and no other field changes |
| PlayerModel.Player.LeaveSession | src/Player.js:125-127 | The player is in no session and no other field changes |

## Left out

- WebSocket messages, broadcasts and the per-player turn notices are not modelled. Whether a player's connection is open is the `connected` set passed to `StartRound`, `HandleAction` and `NextTurn`.
- The turn timer is not modelled. Its timeout sends a fold, which is `HandleAction` with `Fold`. A disconnected player's forced fold is modelled directly in `NextTurn`.
- Concurrent events on one session are not modelled; each operation runs to completion before the next.
- The session lookup (`getSessionById`) is not modelled. The blinds, minimum bet, starting balance and roster are passed in as `SessionConfig` and `roster`.
- The game registry is modelled as the `live` flag. Deleting a session's entry sets it to false, and a record that is not live behaves like the fresh entry `getGame` would create.
- `createDeck`, `dealToPlayers` and `dealCommunityCards` are imported from Deck/Deck.js but not defined there, so the model takes the hole cards (`deal`) and the five community cards (`board`) of a round as inputs. The flop reveals the first three and the turn and river one more each.
- Deck.constructor: the `Math.random` comparator sort is modelled as some permutation of the built cards. Which permutation is left open.
- The `description` and `cards` fields of a hand result are not modelled. Nothing in the engine reads them.
- `parseCard` on an unknown rank name gives no card, so the hand does not evaluate and the showdown falls back to the equal split. The JavaScript carries an undefined rank on into the comparisons.
- The showdown catch block is modelled for the errors the evaluator can raise: a rank group read that does not exist, an empty list of players and an unknown rank name. Other exceptions are not modelled.
- `findWinners` is modelled as the first best hand followed by a filter in input order, not as a sort. JavaScript's sort is stable and `compareHands` is a total preorder (`CompareTransitive`), so the winners and their order are the same.
- The Player object's database insert, friend stubs, session stubs, getters and plain setters are not modelled; they are I/O or empty. Player.Raise answers nothing (`None`) where the JavaScript returns `undefined`.
- Card.js, the session repository, the error proxy and the HTTP and WebSocket handlers are not part of this model.
- GameLogic.Game.StartRound: requires a roster without repeated logins and non-negative session amounts. The session layer that supplies both is not modelled.
- GameLogic.Game.HandleAction: requires the round invariant (`Valid`, `Playable`) that every operation of the model keeps. A refused action is returned as an error value instead of thrown.
- GameLogic.KeepForRound: states who is dealt in but not their order; `KeepForRoundKeepsAll` gives the order when no stack is negative.
- GameLogic.ActivePlayers: states who is active but not the seat order; `ActiveWithoutFolds` gives the order when nobody has folded.
- HandEvaluator.FlushSuit: takes suits in order of first appearance and accepts any suit. The JavaScript tally lists suits that look like array indices ("0", "1", …) first, and its `if (flushSuit)` treats a flush of the empty suit as none. Neither case arises with the deck's suit names.
- HandEvaluator.IsStraight: its own contract says only that a straight is five cards of the hand. What it finds is stated by `StraightIff`, `StraightShape`, `StraightAtRun` and `StraightAtWheel`.
- Integer sizes are not modelled: JavaScript numbers are treated as unbounded integers, and chip amounts never come near 2^53.
