# A Dafny model of a box of card-game tools

The repository is a set of small game programs. This project models the main one and several pure helpers around it.

**The main one is `dominion.ts`,** a single-player deck-building game engine. The player has a catalogue of seven cards (COPPER … CURSE) and twenty-four events (BORROW … BALL). Each turn runs the same fixed sequence:
1. Check that the Province pile is not empty.
2. Reset the per-turn counters.
3. Draw five cards, or more after an extra draw.
4. Play treasures for money.
5. Pay off debt.
6. Buy cards or events while buys remain and no debt is owed.
7. Clean up.
8. Optionally donate cards to the trash.
9. Possibly take an extra "mission" turn.

The game state is one record. Its parts are:
- card zones: deck, hand, discard, play, trash, saved;
- counters and flags;
- a supply table of piles, each holding a count and a tax.

**The model's approach.**
- **State.** The record is an immutable datatype, and every step is a pure function.
- **Player input.** What the player types, and what `Math.random` returns to `shuffle`, are given up front as a script (`DominionInput.Env`). An interactive step hands back one of three results:
  - `Done` with the rest of the script;
  - `AwaitingInput` when the script runs out at a prompt;
  - `Crashed` when the program throws.
- **Conservation.** The invariant that ties the engine together is `DominionState.Conserves`: for every card name, the copies in the player's zones, the trash and its supply pile together never change. The source's TRADE event breaks it: as written it can push `undefined` onto the trash (see Findings). The model's turn loop therefore runs a corrected TRADE, and the conservation results for events, purchases, the buy loop, turns and the game hold for that corrected engine, not for the program as written. For the TRADE as written, every real card name is still conserved (`DominionEvents.TradeAsWrittenKeepsNamed`).

**The smaller cores** are modelled as pure functions:
- **Poker hands** (`hand_evaluation.py`): straights, tiebreak packing, classification and the comparator.
- **Card text:**
  - `game_simulator.py`: parsing "rank + suit" strings and the `choose_generator` subset enumerator.
  - `8c4/game_simulator.py`: card printing and parsing, the 70 passes of four cards out of eight, the payoff matrix, and the winning-play decision.
- **Cards and decks** (`card_utils.py`): card and suit objects, their equality and ordering, the 52-card deck, and `colorize`.
- **A card trick** (`5reveal1.py`): the "reveal four, guess the fifth" trick, with its encode/decode round trip.
- **Option and Result** (`uprising/utils/option.ts` and `result.ts`): the Rust-style combinators.
- **A hex puzzle** (`kongregate/coins.py`): the move generator for the hex coin puzzle.

A thrown exception is `Exceptions.Outcome.Raises(name)` everywhere. The project has one module per source file, and five for `dominion.ts`:
- `DominionCatalog`: registry and name parsing;
- `DominionInput`: prompts and shuffling;
- `DominionState`: zones, supply, gain/buy/draw/pay/score;
- `DominionEvents`: the event effects;
- `DominionTurn`: the turn loop.

## Model

| member | source | states |
|---|---|---|
| DominionCatalog.RegisterSpec | dominion.ts:74-79 | `AddCard`/`AddEvent` keep one entry per name: the new definition is stored under its name, every other entry stays, a new name is appended and a known one is replaced in place |
| DominionCatalog.RegisterAllFresh | dominion.ts:74-113 | registering fresh, distinct names one after another lists them in call order |
| DominionCatalog.RegistriesBuilt | dominion.ts:80-113 | the `AddCard` and `AddEvent` calls leave the registries as the seven cards and twenty-four events in declaration order |
| DominionCatalog.CatalogueDistinct | dominion.ts:80-450 | no two entries of the catalogue share a name |
| DominionCatalog.MergeSpec | dominion.ts:465-478 | adding a registry to `ALL` throws exactly when a new name is already present; otherwise it appends the new entries |
| DominionCatalog.BuildAllSpec | dominion.ts:463-479 | building `ALL` throws exactly when a card and an event share a name; otherwise `ALL` is the cards followed by the events |
| DominionCatalog.AllBuilds | dominion.ts:463-479 | with the catalogue as declared, building `ALL` succeeds and its names are distinct |
| DominionCatalog.Upper | dominion.ts:529 | on ASCII text, `toUpperCase` upper-cases each letter a-z and keeps every other character in place |
| DominionCatalog.Possibilities | dominion.ts:527-532 | the candidates are exactly the registered entries whose name starts with the typed prefix |
| DominionCatalog.ParseSpec | dominion.ts:526-541 | `parseCardOrEvent` returns an entry exactly when one registered name starts with the upper-cased input, and then it returns that entry |
| DominionCatalog.ParseCard | dominion.ts:543-551 | `parseCard` returns an entry exactly when `parseCardOrEvent` returns a card; an event reads as null |
| DominionCatalog.FullNameParses | dominion.ts:526-541 | the full name, typed in any letter case, resolves to its entry when no other name extends it |
| DominionCatalog.EmptyAnswerAmbiguous | dominion.ts:533-539 | once two entries are registered, the empty answer never resolves, because every name starts with it |
| DominionCatalog.LookupSpec | dominion.ts:540 | a lookup by name finds an entry of that name, and among distinct names it finds exactly that entry |
| DominionCatalog.CardsNamed | dominion.ts:74-113 | every card of the catalogue is found under its own name in `CARDS` |
| DominionCatalog.CatalogueNonNegative | dominion.ts:41-65 | every entry of `ALL` has a non-negative cost, debt, treasure and victory value, and every card in it is a card name |
| DominionInput.Ask | dominion.ts:3-15 | `ask` consumes exactly the next answer, and waits when there is none |
| DominionInput.YesNo | dominion.ts:17-28 | `yesno` never throws and consumes at least one answer when it returns |
| DominionInput.YesNoFirstDecisive | dominion.ts:17-28 | `yesno` settles on the first answer that is Y, YES, N or NO in any case, and returns true exactly for a yes |
| DominionInput.Shuffle | dominion.ts:30-39 | `shuffle` keeps the length of the array |
| DominionInput.ShufflePermutes | dominion.ts:30-39 | whatever the random draws, `shuffle` returns a permutation of its input |
| DominionState.SameCardsConserve | dominion.ts:116-143 | a state whose zones hold the same cards and whose piles are unchanged conserves every card count |
| DominionState.ConservesTrans | dominion.ts:116-143 | conservation composes across steps |
| DominionState.PayDebt | dominion.ts:513-524 | `payDebt` throws exactly on negative debt or money; otherwise it pays the smaller of the two from both, leaving both non-negative and one of them 0, and changes nothing else |
| DominionState.PayDebtIdempotent | dominion.ts:513-524 | paying twice pays nothing more |
| DominionState.GainCard | dominion.ts:565-603 | `gainCard` returns false and changes nothing on an empty pile; otherwise the pile drops by one, `gained_cards` rises by one and `gained_silvers` rises by one iff the card is SILVER, and the card goes to the deck or the discard |
| DominionState.GainWithoutFair | dominion.ts:593-601 | without a travelling fair nothing is asked and the card goes to the discard |
| DominionState.GainWithFair | dominion.ts:594-601 | after a travelling fair the player is asked, and the card goes on the deck exactly when the answer is yes |
| DominionState.GainConserves | dominion.ts:584-603 | a gain moves one card from its pile into the player's cards, so every count is conserved |
| DominionState.BuyCard | dominion.ts:573-582 | `buyCard` succeeds or waits exactly as the gain does, and reads the same answers |
| DominionState.BuyCardSpec | dominion.ts:573-582 | a successful buy adds the pile's tax to the debt exactly once and clears that tax; a zero tax leaves the debt alone; a refused gain changes nothing |
| DominionState.BuyConserves | dominion.ts:573-582 | a buy conserves every card count |
| DominionState.SortPermutes | dominion.ts:494 | `hand.sort()` yields a sorted permutation of the hand |
| DominionState.Draw | dominion.ts:481-495 | `draw` reads no answers and only moves cards between deck, discard and hand |
| DominionState.DrawSpendsToken | dominion.ts:482-485 | with the -1 card token out, `draw` clears the token and moves nothing |
| DominionState.DrawNothingLeft | dominion.ts:486-489 | with deck and discard both empty, `draw` changes nothing |
| DominionState.DrawFromDeck | dominion.ts:493-494 | from a non-empty deck, the deck's last card moves into the hand, the hand stays sorted and no random draw is used |
| DominionState.DrawAfterShuffle | dominion.ts:486-494 | from an empty deck, the shuffled discard becomes the deck, the discard is emptied, and then one card moves |
| DominionState.DrawPool | dominion.ts:481-495 | a draw keeps the multiset of deck + discard + hand |
| DominionState.DrawNCount | dominion.ts:740-742 | `n` draws take `n` cards, one fewer when the token is out, and never more than deck and discard hold |
| DominionState.DrawNConserves | dominion.ts:740-742 | repeated draws conserve every card count |
| DominionState.FindCard | dominion.ts:614-621 | `findCard` is the first index of the name, or -1 exactly when the name is absent |
| DominionState.FindTreasure | dominion.ts:605-612 | `findTreasure` is the first index of a treasure, or -1 exactly when the hand holds none |
| DominionState.TrashCard | dominion.ts:623-625 | `trashCard` moves the card at the index from the zone to the trash; past the end of the zone it pushes `undefined` onto the trash |
| DominionState.TrashConserves | dominion.ts:623-625 | trashing a card that is there conserves every count |
| DominionState.PlayTreasure | dominion.ts:633-640 | `playTreasure` throws exactly on a non-treasure; otherwise it moves the card from hand to play and adds its treasure value to money |
| DominionState.PlayTreasureConserves | dominion.ts:633-640 | playing a treasure conserves every count |
| DominionState.PlayAllLeavesNoTreasure | dominion.ts:757-759 | after "ALL" the hand keeps exactly its non-treasures, in order, and holds no treasure |
| DominionState.PlayAllPlays | dominion.ts:757-759 | "ALL" plays the hand's treasures in hand order |
| DominionState.PlayAllPays | dominion.ts:757-759 | "ALL" adds the sum of the played treasures' values to money |
| DominionState.PlayAllConserves | dominion.ts:757-759 | "ALL" conserves every count |
| DominionState.CountVictoryPoints | dominion.ts:642-652 | `countVictoryPoints` throws exactly when hand, discard or deck holds a name that is not a card |
| DominionState.CountVictoryPointsSpec | dominion.ts:642-652 | the score is the VP tokens plus the victory values over hand, discard and deck only; play, trash and saved cards do not score |
| DominionState.ScoreOfPool | dominion.ts:642-652 | the score depends only on the tokens and on which cards hand, discard and deck hold together |
| DominionState.DrawKeepsScore | dominion.ts:481-495 | drawing never changes the score |
| DominionEvents.AskCardWhere | dominion.ts:560-563 | the ask-until-valid loop never throws, settles on a card the caller accepts, and consumes at least one answer |
| DominionEvents.AskCardFirst | dominion.ts:560-563 | the loop stops at the first answer that names an accepted card |
| DominionEvents.AskCardSkips | dominion.ts:560-563 | an answer that is not an accepted card is skipped |
| DominionEvents.Gain | dominion.ts:584-592 | gaining a card throws exactly when the card has no pile in the supply |
| DominionEvents.GainTimesPile | dominion.ts:584-603 | `k` gains in a row take `min(k, pile)` copies from the pile and leave every other pile alone |
| DominionEvents.GainTimesTally | dominion.ts:588-591 | those copies are counted as gained this turn, and as silvers when they are SILVER |
| DominionEvents.GainTimesConserves | dominion.ts:584-603 | repeated gains conserve every count |
| DominionEvents.Borrow | dominion.ts:152-165 | BORROW does nothing once borrowed; otherwise it gives +$1 and +1 buy, sets the -1 card token, and changes nothing else |
| DominionEvents.BorrowOnce | dominion.ts:152-165 | a second BORROW in the same turn does nothing |
| DominionEvents.Expedition | dominion.ts:166-172 | EXPEDITION adds two to the next turn's draw and changes nothing else |
| DominionEvents.Mission | dominion.ts:173-179 | MISSION asks for a mission turn and changes nothing else |
| DominionEvents.SaveMoves | dominion.ts:180-204 | SAVE gives +1 buy and moves exactly one card from a non-empty hand to the saved cards |
| DominionEvents.SaveConserves | dominion.ts:180-204 | SAVE conserves every count |
| DominionEvents.Wedding | dominion.ts:205-213 | WEDDING throws exactly when there is no Gold pile |
| DominionEvents.DominateScores | dominion.ts:214-222 | DOMINATE adds 9 VP tokens exactly when a Province was left to gain |
| DominionEvents.TaxRaisesOne | dominion.ts:223-239 | TAX raises the tax of exactly one existing pile by 2 and changes nothing else |
| DominionEvents.TravellingFair | dominion.ts:240-247 | TRAVELLING_FAIR gives +2 buys and lets gains be put on the deck |
| DominionEvents.Donate | dominion.ts:248-255 | DONATE only marks the donation for cleanup |
| DominionEvents.Delve | dominion.ts:256-263 | DELVE throws exactly when there is no Silver pile |
| DominionEvents.BonfireMoves | dominion.ts:264-281 | BONFIRE takes exactly two named cards from play to the trash and touches nothing else |
| DominionEvents.BonfireNeedsTwo | dominion.ts:264-281 | with fewer than two cards in play BONFIRE never finishes |
| DominionEvents.WindfallNeedsEmpty | dominion.ts:282-292 | WINDFALL does nothing unless deck and discard are both empty |
| DominionEvents.ConquestScores | dominion.ts:293-301 | CONQUEST scores the Silvers gained earlier this turn plus the ones it gains itself |
| DominionEvents.TriumphScores | dominion.ts:302-311 | TRIUMPH scores every card gained this turn, the Estate included, and only when the Estate was gained |
| DominionEvents.RitualNeedsCurse | dominion.ts:312-333 | RITUAL with no Curse left to gain does nothing |
| DominionEvents.RitualTrashScores | dominion.ts:312-333 | RITUAL's trash step takes one card from a non-empty hand and scores that card's cost |
| DominionEvents.SaltTheEarthMoves | dominion.ts:334-356 | SALT_THE_EARTH adds 1 VP token and moves one victory card from a non-empty pile to the trash, touching nothing else |
| DominionEvents.SaltTheEarthConserves | dominion.ts:334-356 | SALT_THE_EARTH conserves every count |
| DominionEvents.RaidGains | dominion.ts:357-372 | RAID gains one Silver per Silver in play, while the pile lasts |
| DominionEvents.AskOrStopStops | dominion.ts:379-383 | the trash-a-card loop stops at the first NO or DONE answer |
| DominionEvents.TradingMoves | dominion.ts:376-393 | the corrected TRADE loop trashes `n` cards of the hand, at most two, and touches nothing else |
| DominionEvents.TradeGains | dominion.ts:394-396 | TRADE gains one Silver per card it trashed, while the Silver pile lasts |
| DominionEvents.TradeConserves | dominion.ts:373-398 | the corrected TRADE conserves every count |
| DominionEvents.TradeAsWrittenKeepsHand | dominion.ts:386-391 | as written, TRADE never takes a card from the hand |
| DominionEvents.TradeAsWrittenTrashesUndefined | dominion.ts:386-392 | as written, with an empty discard, naming a card in hand pushes `undefined` onto the trash |
| DominionEvents.TradeAsWrittenKeepsNamed | dominion.ts:373-398 | as written, TRADE still conserves every card name; only the count of `undefined` can grow |
| DominionEvents.EffectCrashes | dominion.ts:400-450 | with the seven piles in place, an event's effect throws exactly when it is one of the six unimplemented events |
| DominionEvents.EffectKeepsCounters | dominion.ts:152-450 | no effect lowers money, adds debt, or changes the mission flag |
| DominionEvents.EffectConserves | dominion.ts:152-450 | with TRADE corrected, no event makes a card appear or vanish |
| DominionTurn.StartStocked | dominion.ts:655-711 | the player starts with 7 Coppers and 3 Estates in the discard, and the supply is stocked with 8 Provinces |
| DominionTurn.ResetTurn | dominion.ts:721-727 | the turn's resets: 1 buy, $0, no gains, and the borrowed, donated and travelling-fair flags cleared; cards, piles and debt are kept |
| DominionTurn.DrawPhaseSpec | dominion.ts:734-746 | the hand grows by the cards drawn (5 + extra draw, as far as cards and the token allow) plus the saved cards; the extra draw is used up and nothing stays saved |
| DominionTurn.DrawPhaseConserves | dominion.ts:734-746 | the draw conserves every count |
| DominionTurn.ScanTreasureRegistered | dominion.ts:605-612 | on a hand of card names the scan is `findTreasure`; a scan that ends reports -1 only on such a hand |
| DominionTurn.PlayAllScanRegistered | dominion.ts:757-759 | on a hand of card names, ALL plays exactly as the treasure loop |
| DominionTurn.TreasurePhase | dominion.ts:750-773 | the treasure phase only changes hand, play and money |
| DominionTurn.TreasurePhaseAll | dominion.ts:756-759 | answering ALL ends the phase with every treasure played and none left in hand |
| DominionTurn.TreasurePhaseRejects | dominion.ts:766-771 | naming a card in hand that is no treasure throws |
| DominionTurn.TreasurePhaseEnds | dominion.ts:750-755 | a phase that ends normally ends with no treasure in hand or on the player's NONE or DONE |
| DominionTurn.TreasurePhaseConserves | dominion.ts:750-773 | the treasure phase conserves every count |
| DominionTurn.PayDebtRun | dominion.ts:774 | settling debt before the buys throws exactly on negative debt or money, and otherwise pays as `payDebt` does |
| DominionTurn.JudgeSpec | dominion.ts:780-801 | the order of checks: an unresolved name, a cost above money, a card on a mission turn, a card with an empty pile |
| DominionTurn.BuyLoopIdle | dominion.ts:779 | the loop does not start without a buy or with debt |
| DominionTurn.BuyLoopReprompts | dominion.ts:784-801 | an answer that fails a check leaves the state as it was and asks again |
| DominionTurn.PurchaseCard | dominion.ts:803-823 | buying a card pays the cost, then pays as much as possible of the entry's debt and the pile's tax; the pile loses one copy, its tax is cleared, and one buy is used |
| DominionTurn.PurchaseEvent | dominion.ts:803-823 | running an event pays the cost, then pays off the entry's debt as far as money allows, and uses one buy |
| DominionTurn.Purchase | dominion.ts:803-823 | with TRADE corrected, a purchase conserves every count |
| DominionTurn.BuyLoopMoney | dominion.ts:779-824 | money never goes negative in the buy phase |
| DominionTurn.BuyLoopConserves | dominion.ts:779-824 | with TRADE corrected, the buy phase conserves every count |
| DominionTurn.BuyLoopKeeps | dominion.ts:779-824 | the buy phase keeps the mission flag and the set of piles |
| DominionTurn.Cleanup | dominion.ts:826-829 | cleanup empties hand and play onto the discard, in that order |
| DominionTurn.CleanupConserves | dominion.ts:826-829 | cleanup conserves every count |
| DominionTurn.DonateLoopMoves | dominion.ts:835-848 | the donation only moves cards from the discard to the trash |
| DominionTurn.DonatePhaseConserves | dominion.ts:831-849 | the donation phase conserves every count |
| DominionTurn.EndTurnSpec | dominion.ts:851-866 | a mission turn follows exactly a turn that asked for one and was not itself a mission turn; only turns not followed by a mission turn count; the request is always cleared |
| DominionTurn.TurnStages | dominion.ts:721-866 | a turn is the reset, the draw, the treasure phase, the debt payment, the buy loop, the cleanup, the donation and the mission check, each feeding the next |
| DominionTurn.TurnConserves | dominion.ts:721-866 | with TRADE corrected, no card is created or lost in a turn |
| DominionTurn.TurnEnds | dominion.ts:826-866 | a turn ends with hand and play empty; a mission turn is never followed by another and always counts |
| DominionTurn.Game | dominion.ts:716-867 | the game loop keeps the Province pile, never lowers the turn number, ends only with the Province pile empty (or the fuel spent), and, with TRADE corrected, conserves every count over the whole game |
| DominionTurn.GameStopsWithoutProvinces | dominion.ts:717-720 | the game stops before any reset or draw once the Province pile is empty |
| HandEvaluation.GetStraight | hand_evaluation.py:68-78 | `get_straight` is 0 exactly when no five-rank run exists (ace counting also below 2), and otherwise the top of the highest run, in 5..14 |
| HandEvaluation.WheelIsFive | hand_evaluation.py:68-78 | A-2-3-4-5 is a straight to 5; 10-J-Q-K-A one to 14; 2-3-4-5-7 none |
| HandEvaluation.HighestRunWins | hand_evaluation.py:68-78 | a longer run reports at least any of its five-card windows |
| HandEvaluation.GetTiebreak | hand_evaluation.py:80-87 | `get_tiebreak` raises `IndexError` exactly when fewer than `num` ranks are given; otherwise it packs the `num` highest, highest first |
| HandEvaluation.TiebreakPacks | hand_evaluation.py:54-55 | the tiebreak is the base-100 number whose digits are the `num` highest ranks |
| HandEvaluation.HornerOrder | hand_evaluation.py:54-55 | for ranks below 100, comparing two packed numbers compares the rank lists lexicographically, and equal numbers mean equal lists |
| HandEvaluation.BestOverSuits | hand_evaluation.py:237-243 | the best-over-suits loop returns the largest value over the suit buckets, or 0 |
| HandEvaluation.FullClassifyHand | hand_evaluation.py:203-301 | a hand of fewer than five cards raises, an unknown suit raises `KeyError`, and a classification has a category from HIGH to STRAIGHT_FLUSH; three of a kind is only returned when some rank is held three times |
| HandEvaluation.FullClassifyHandCorrected | hand_evaluation.py:277-279 | the corrected classifier fails exactly when the source does and with the same error, gives the same category, and differs only in the strength of three of a kind |
| HandEvaluation.ClassifyReturns | hand_evaluation.py:203-301 | on distinct cards with known suits, classification succeeds exactly when the hand has five or more cards |
| HandEvaluation.DistinctCountsAtMostFour | hand_evaluation.py:224-233 | a hand of distinct cards never has a rank more than four times, so the rank-count assertion holds |
| HandEvaluation.ClassifyHand | hand_evaluation.py:58-59 | `classify_hand` is `full_classify_hand`; the memo lookup after the early return is dead code |
| HandEvaluation.CompareHands | hand_evaluation.py:26-32 | `compare_poker_hand` is positive when the first hand wins and negative when the second does, comparing category first and strength second; errors propagate |
| HandEvaluation.PokerHandComparator | hand_evaluation.py:34-41 | `poker_hand_comparator` returns only -1, 0 or 1, the sign of `compare_poker_hand` |
| HandEvaluation.ComparatorAntisymmetric | hand_evaluation.py:26-41 | swapping the hands negates the comparator |
| HandEvaluation.ComparatorTransitive | hand_evaluation.py:26-41 | the comparator orders hands transitively |
| HandEvaluation.PlainByCounts | hand_evaluation.py:235-301 | on a hand with no flush, no straight, no four of a kind and no full house, the classification is decided by the rank-count sets alone |
| HandEvaluation.TwoPairClassified | hand_evaluation.py:283-288 | a two-pair hand with no flush or straight classifies as TWO_PAIR with its higher pair, its lower pair and its best other rank packed in that order; a third pair can be the kicker |
| HandEvaluation.Kind3Classified | hand_evaluation.py:277-279 | a three-of-a-kind hand with no flush or straight classifies as KIND3 with only its two best kickers packed; the corrected classifier puts the trips' rank in front of them |
| HandEvaluation.PairClassified | hand_evaluation.py:292-296 | a one-pair hand with no flush or straight classifies as PAIR with the pair's rank, then its three best other ranks, packed in that order |
| HandEvaluation.ComparatorOn | hand_evaluation.py:26-41 | for two hands that classify, the comparator returns 1 exactly when the first classification beats the second, and 0 exactly when they are equal |
| HandEvaluation.TwoPairOrder | hand_evaluation.py:283-288 | through the comparator, two such two-pair hands are ordered by the higher pair, then the lower pair, then the kicker, and tie exactly when all three agree |
| HandEvaluation.PairOrder | hand_evaluation.py:292-296 | through the comparator, two such one-pair hands are ordered by the pair, then the three kickers from the highest down, and tie exactly when all four agree |
| HandEvaluation.Kind3OrderAsWritten | hand_evaluation.py:277-279 | as written, two such three-of-a-kind hands are ordered by their kickers alone, and tie whenever the kickers agree, whatever the trips |
| HandEvaluation.Kind3Order | hand_evaluation.py:277-279 | under the corrected classifier, three of a kind is ordered by the trips first and the two kickers second |
| HandEvaluation.Kind3AsWrittenMisorders | hand_evaluation.py:277-279 | as written, 2c 2d 2h 5s 6c classifies as (KIND3, 605) and 3c 3d 3h 4s 5c as (KIND3, 504), so the comparator ranks the trip twos higher; the corrected classifier gives 20605 and 30504 and ranks the trip threes higher |
| HandEvaluation.SuitRenamingInvariant | hand_evaluation.py:203-301 | hands that differ only by a renaming of the suits classify alike |
| HandEvaluation.SuitRenamingTies | hand_evaluation.py:26-41 | a hand and its suit renaming tie under the comparator |
| CardUtils.Colorize | card_utils.py:13-16 | `colorize` returns the text unchanged for the default colour, wraps it as code + text + end otherwise, and raises `KeyError` for an unknown colour |
| CardUtils.ColorizeRoundTrip | card_utils.py:13-16 | stripping the colour codes gives the text back |
| CardUtils.MakeSuit | card_utils.py:18-24 | the `CardSuit` constructor succeeds exactly for a known colour |
| CardUtils.DeepCopy | card_utils.py:39-42 | a deep copy of a card equals the original, and neither is less or greater |
| CardUtils.CardOrderMirror | card_utils.py:75-78 | `__gt__` is the mirror of `__lt__`, and `__lt__` is irreflexive, asymmetric and transitive |
| CardUtils.DeckIndex | card_utils.py:125-129 | the deck has 52 cards, with value `v` of suit `k` at position `13k + v - 1` |
| CardUtils.DeckContents | card_utils.py:125-129 | the deck holds exactly one card per suit and value 1..13 |
| CardUtils.DeckSuitsDistinct | card_utils.py:25-26 | two deck suits are equal exactly when their names and ranks are equal |
| CardUtils.DeckPairwiseDistinct | card_utils.py:73-74 | the 52 deck cards are pairwise unequal under `__eq__` |
| CardUtils.DeckTrichotomy | card_utils.py:73-78 | for two deck cards, `__eq__` is identity, and for unequal ones exactly one of `<` and `>` holds |
| FiveReveal.KeepOthers | 5reveal1.py:19 | the filter keeps exactly the other objects of the hand |
| FiveReveal.RemoveCardFromHand | 5reveal1.py:18-21 | removal succeeds exactly when the object is held once; then the hand loses exactly that one card |
| FiveReveal.FindDuplicateSuits | 5reveal1.py:12-16 | the duplicate suits are exactly the suits held twice or more |
| FiveReveal.PigeonholeSuit | 5reveal1.py:72-73 | five deck cards always repeat a suit |
| FiveReveal.CardsOfSuit | 5reveal1.py:69-71 | a suit group holds exactly the hand's cards of that suit |
| FiveReveal.FirstDuplicateSuit | 5reveal1.py:79-80 | the suit chosen is the first one, in iteration order, held twice |
| FiveReveal.SortCardsSorted | 5reveal1.py:88 | `hand.sort()` yields a sorted permutation |
| FiveReveal.SimpleP1 | 5reveal1.py:37-50 | the simple strategy hides a card and reveals one card of its suit and one of its value |
| FiveReveal.SimpleP2 | 5reveal1.py:52-55 | with exactly two revealed cards, player two names the first one's suit with the second one's value; otherwise nothing |
| FiveReveal.SimpleRoundTrip | 5reveal1.py:37-55 | whenever the simple strategy reveals, player two names a card equal to the hidden one |
| FiveReveal.ValueToPermArePerms | 5reveal1.py:58-65 | every entry of `value_to_perm` orders three things |
| FiveReveal.ValueToPermInjective | 5reveal1.py:58-65 | `value_to_perm` is one-to-one on 1..6 |
| FiveReveal.ValueToPermOnto | 5reveal1.py:58-65 | every order of three things is an entry, so the table is a bijection |
| FiveReveal.ChoosePair | 5reveal1.py:81-86 | of two cards of one suit, one is hidden and one shown, and the distance is the hidden value minus the shown value, mod 13 |
| FiveReveal.ChoosePairInRange | 5reveal1.py:81-86 | of two different values, the distance chosen lies in 1..6 |
| FiveReveal.WinningP1Reveals | 5reveal1.py:68-94 | on five different deck cards, in any suit order, player one succeeds: it hides a card and reveals four other, different cards of the hand, the first of the same suit |
| FiveReveal.ModRoundTrip | 5reveal1.py:105-111 | adding the distance back to the shown value recovers the hidden value |
| FiveReveal.P2Decodes | 5reveal1.py:96-111 | player two decodes any four cards arranged by the distance's permutation |
| FiveReveal.WinningRoundTrip | 5reveal1.py:68-111 | for any five different deck cards and any suit order, player two names exactly the card player one hid |
| CardText.StringToCard | game_simulator.py:34-41 | the last character is the suit; the rest is read by `int()` first (surrounding spaces, a sign and spaces after the sign allowed) and only then looked up; the empty string raises `IndexError`; an unknown rank raises `KeyError` |
| CardText.SpaceAfterSign | game_simulator.py:36 | Python 2's `int()` accepts spaces between the sign and the digits, so "- 5" reads as -5 |
| CardText.DecimalRoundTrip | game_simulator.py:36 | `int(str(n)) == n` for every integer |
| CardText.NoDigitNoInt | game_simulator.py:36 | a string with no digit is never an integer literal |
| CardText.NumericKeyShadowed | game_simulator.py:34-41 | a table key that `int()` accepts is never consulted |
| CardText.LetterKeyRead | game_simulator.py:34-41 | a table key that is not numeric is what the rank reads as |
| CardText.UnknownRankRaises | game_simulator.py:34-41 | a rank that is neither numeric nor a key raises `KeyError` |
| GameSimulator.OneIsNotAce | game_simulator.py:13-41 | "1c" reads as rank 1, so the table's 1 → 14 entry is unreachable |
| GameSimulator.LowerCaseFaces | game_simulator.py:13-32 | j, q, k, a read as 11, 12, 13, 14 |
| GameSimulator.UpperCaseFaces | game_simulator.py:13-32 | upper-case J, Q, K, A raise `KeyError` |
| GameSimulator.DecimalRanks | game_simulator.py:34-41 | any decimal rank parses as itself |
| GameSimulator.ChooseSound | game_simulator.py:53-61 | every set `choose_generator(n, k)` yields has `k` elements of range(n) |
| GameSimulator.ChooseComplete | game_simulator.py:53-61 | every `k`-subset of range(n) is yielded |
| GameSimulator.ChooseExactlyOnce | game_simulator.py:53-61 | each subset is yielded once, C(n, k) in all |
| EightChooseFour.CardToString | 8c4/game_simulator.py:39-54 | `card_to_string` raises `KeyError` exactly outside ranks 1..14, and ends with the suit |
| EightChooseFour.FaceLettersEitherCase | 8c4/game_simulator.py:14-37 | face letters read the same in either case, as 11..14 |
| EightChooseFour.CardRoundTrip | 8c4/game_simulator.py:39-66 | `string_to_card(card_to_string(c)) == c` for every rank 2..14 |
| EightChooseFour.LowAceReadsHigh | 8c4/game_simulator.py:39-66 | rank 1 prints as "A" and reads back as 14 |
| EightChooseFour.CombinationsAreChoices | 8c4/game_simulator.py:118-123 | `itertools.combinations` and `choose_generator` enumerate the same subsets in the same order |
| EightChooseFour.PassesCount | 8c4/game_simulator.py:95-123 | there are 70 passes |
| EightChooseFour.PassesArePositions | 8c4/game_simulator.py:118-123 | each pass is four increasing positions of the hand |
| EightChooseFour.PassesDistinct | 8c4/game_simulator.py:118-123 | no two passes are the same subset |
| EightChooseFour.GetPass | 8c4/game_simulator.py:118-123 | `get_pass(i)` is the `i`-th pass in combinations order, or None past the end |
| EightChooseFour.DealSharesOut | 8c4/game_simulator.py:95-116 | the two new hands share out exactly the sixteen cards, each keeping its unpassed four and receiving the other's passed four |
| EightChooseFour.PayoffMatrix | 8c4/game_simulator.py:95-116 | the matrix is 70 × 70, exists exactly for hands of eight or more cards, and entry `[i][j]` compares the hands after passes `i` and `j` |
| EightChooseFour.FindWinningPlay | 8c4/game_simulator.py:125-162 | 1 iff some row has no -1; otherwise -1 iff some column has no 1; otherwise 0 |
| Options.WrapNull | uprising/utils/option.ts:30-36 | `wrapNull` is None exactly for null and undefined |
| Options.IsSome | uprising/utils/option.ts:42-44 | `isSome` is true exactly on Some |
| Options.IsNone | uprising/utils/option.ts:120-122 | `isNone` is true exactly on None |
| Options.SomeNoneComplementary | uprising/utils/option.ts:42-48 | `isSome` and `isNone` are complementary |
| Options.IsSomeAnd | uprising/utils/option.ts:50-52 | `isSomeAnd(f)` holds exactly on a Some whose value satisfies `f` |
| Options.IsNoneAnd | uprising/utils/option.ts:128-130 | `isNoneAnd(f)` holds exactly on None when `f()` holds |
| Options.Unwrap | uprising/utils/option.ts:58-60 | `unwrap` returns the value of Some and throws on None |
| Options.UnwrapOr | uprising/utils/option.ts:62-64 | `unwrapOr` returns the value of Some and the default on None |
| Options.UnwrapOrElse | uprising/utils/option.ts:66-68 | `unwrapOrElse` returns the value of Some and `f()` on None |
| Options.UnwrapOrAgreesWithUnwrap | uprising/utils/option.ts:58-64 | `unwrapOr` agrees with `unwrap` wherever `unwrap` returns, and `unwrap` throws exactly on None |
| Options.Map | uprising/utils/option.ts:38-40 | `map` applies `f` inside Some and keeps None |
| Options.MapFunctor | uprising/utils/option.ts:38-40 | mapping the identity changes nothing, and mapping twice is mapping the composition |
| Options.MapOr | uprising/utils/option.ts:70-72 | `mapOr` is `f(v)` on Some and the default on None |
| Options.MapOrIsMapThenUnwrapOr | uprising/utils/option.ts:70-72 | `mapOr` is `map` followed by `unwrapOr` |
| Options.MapOrElse | uprising/utils/option.ts:74-76 | `mapOrElse` is `f(v)` on Some and `default()` on None |
| Options.And | uprising/utils/option.ts:86-88 | Some.and(b) is b and None.and(b) is None |
| Options.AndThen | uprising/utils/option.ts:90-92 | `andThen` returns `f`'s own option on Some, and None on None |
| Options.AndThenOfSomeIsMap | uprising/utils/option.ts:90-92 | `map` is `andThen` of a function that always wraps |
| Options.Or | uprising/utils/option.ts:94-96 | Some.or(b) is itself and None.or(b) is b |
| Options.OrElse | uprising/utils/option.ts:98-100 | Some.orElse(f) is itself and None.orElse(f) is `f()` |
| Options.AndOrAssociative | uprising/utils/option.ts:86-100 | `and` and `or` are associative, and None is the identity of `or` |
| Results.Map | uprising/utils/result.ts:26-28 | `map` applies `f` to Ok and keeps Err |
| Results.MapErr | uprising/utils/result.ts:30-32 | `mapErr` keeps Ok and applies `f` to Err |
| Results.MapMapErrCommute | uprising/utils/result.ts:26-32 | `map` and `mapErr` commute, and mapping the identity changes nothing |
| Results.IsOk | uprising/utils/result.ts:34-36 | `isOk` is true exactly on Ok |
| Results.IsErr | uprising/utils/result.ts:102-104 | as written, `isErr` is false on every result |
| Results.IsErrNotComplementOfIsOk | uprising/utils/result.ts:98-104 | as written, on an Err both `isOk` and `isErr` are false, while the corrected test holds |
| Results.IsErrCorrected | uprising/utils/result.ts:38-40 | the corrected `isErr` is true exactly when `isOk` is false |
| Results.OkValue | uprising/utils/result.ts:42-44 | `ok()` is Some of the value on Ok and None on Err |
| Results.ErrValue | uprising/utils/result.ts:110-112 | `err()` is None on Ok and Some of the error on Err |
| Results.OkErrPartition | uprising/utils/result.ts:42-48 | exactly one of `ok()` and `err()` holds a value, and `isOk` tells which |
| Results.And | uprising/utils/result.ts:50-52 | Ok.and(r) is r and Err(e).and(r) is Err(e) |
| Results.AndThen | uprising/utils/result.ts:54-56 | `andThen` is `op(v)` on Ok and keeps Err |
| Results.AndThenOfOkIsMap | uprising/utils/result.ts:54-56 | `map` is `andThen` of a function that always succeeds |
| Results.Or | uprising/utils/result.ts:58-60 | Ok(v).or(r) is Ok(v) and Err.or(r) is r |
| Results.OrElse | uprising/utils/result.ts:126-128 | Ok.orElse(op) is itself and Err(e).orElse(op) is `op(e)` |
| Results.Unwrap | uprising/utils/result.ts:138-140 | `unwrap` returns the value of Ok and throws on Err |
| Results.UnwrapOr | uprising/utils/result.ts:66-68 | `unwrapOr` returns the value of Ok and the default on Err |
| Results.UnwrapOrElse | uprising/utils/result.ts:134-136 | `unwrapOrElse` returns the value of Ok and `op(e)` on Err |
| Results.UnwrapOrAgreesWithUnwrap | uprising/utils/result.ts:66-76 | `unwrapOr` agrees with `unwrap` wherever `unwrap` returns, and `unwrap` throws exactly on Err |
| Results.OkOr | uprising/utils/option.ts:78-80 | `okOr(e)` is Ok(v) on Some(v) and Err(e) on None |
| Results.OkOrElse | uprising/utils/option.ts:82-84 | `okOrElse(f)` is Ok(v) on Some(v) and Err(f()) on None |
| Results.OkOrRoundTrip | uprising/utils/option.ts:78-80 | `okOr` followed by `ok()` gives back the option, and `err()` gives back the error exactly when the option was empty |
| Coins.Neighbors | kongregate/coins.py:11-19 | the neighbours are exactly the squares at the six hex offsets |
| Coins.SixNeighbors | kongregate/coins.py:11-19 | every square has six distinct neighbours, itself not among them |
| Coins.NeighborsSymmetric | kongregate/coins.py:11-19 | adjacency goes both ways |
| Coins.LegalMovesSet | kongregate/coins.py:23-32 | raises `Exception` exactly when the moving square is empty, and `IndexError` when another coin's colour cannot index `sets` |
| Coins.LegalMovesSetSpec | kongregate/coins.py:26-32 | a returned square is empty and touches a coin of each colour other than the moving coin, and every such square is returned |
| Coins.MovingCoinIgnored | kongregate/coins.py:27-29 | the moving coin never supports its own target |
| Coins.LegalMoves | kongregate/coins.py:34-35 | one move from the square to each legal target, failing as `legal_moves_set` fails |
| Coins.NewPath | kongregate/coins.py:45-49 | an empty current state falls back to the start state |
| Coins.MakeMove | kongregate/coins.py:57-63 | `make_move` raises `KeyError` exactly when the source is empty, and extends the moves by one, keeping the start |
| Coins.MakeMoveMovesOneCoin | kongregate/coins.py:57-63 | moving to an empty square keeps the coin count, gives the target the moved colour, empties the source, and leaves every other square alone |
| Coins.SelfMoveDeletes | kongregate/coins.py:58-60 | a move onto its own square deletes the coin |
| Coins.NextMoves | kongregate/coins.py:50-54 | `next_moves` fails only with `IndexError` |
| Coins.NextMovesSpec | kongregate/coins.py:50-54 | `next_moves` fails exactly when some coin's `legal_moves` fails, and otherwise holds exactly every coin's legal moves |
| Coins.NextMovesKeepCount | kongregate/coins.py:50-63 | every generated move is accepted by `make_move` and keeps the coin count |
| Coins.DistFromGoal | kongregate/coins.py:4-9 | `dist_from_goal` counts the goal squares whose colour differs, is at most the goal's size, and is 0 exactly when the current state agrees with the goal on every goal square |
| Coins.DoneMeansNoDistance | kongregate/coins.py:55-56 | reaching the goal means a distance of zero |
| Coins.NoDistanceMeansDone | kongregate/coins.py:4-9 | with as many coins as the goal, a distance of zero means done |

## Left out

- Terminal I/O in `dominion.ts` is not modelled:
  - `showState`, the console messages and the "BUG" check message are not modelled.
  - The JSON history snapshot and the final dump (dominion.ts:729-732, 870) are not modelled.
  - `ask` and `yesno` read from a script of answers.
  - A prompt whose script has run out is `AwaitingInput`, where the real program would wait for typing.
- `Math.random` is a script of whole numbers, each taken modulo the range `shuffle` asks for. `shuffle` is proved only to permute its input, not to be uniform.
- The dead `!bought.effect` branch (dominion.ts:815-818) is left out, because every event has an effect.
- `buyCard`'s `throw err` (dominion.ts:811-813) is left out, because `buyCard` only ever returns undefined or null.
- DominionTurn.Game: the `while (true)` loop is bounded by a fuel count. A run that uses the fuel up ends as `StillPlaying` and says nothing about later turns.
- DominionState.Conserves is a ghost predicate. Conservation is a proved property of the model, not something the program computes.
- DominionEvents.ApplyEffect runs the corrected TRADE (see Findings). The as-written TRADE is modelled and its defect proved, but the turn loop uses the corrected one.
- DominionEvents.EffectConserves holds for the corrected TRADE only. As written, TRADE can push `undefined` onto the trash (dominion.ts:386-391), so the count of `undefined` can grow; every card name is still conserved (DominionEvents.TradeAsWrittenKeepsNamed).
- DominionTurn.Purchase: its conservation clause holds with the corrected TRADE only, for the same reason.
- DominionTurn.BuyLoopConserves: holds with the corrected TRADE only, for the same reason.
- DominionTurn.TurnConserves: holds with the corrected TRADE only, for the same reason.
- DominionTurn.Game: its conservation clause holds with the corrected TRADE only, for the same reason.
- DominionCatalog.Upper upper-cases only a-z. JavaScript's `toUpperCase` also maps non-ASCII letters and can change the length (ß becomes SS, ſ becomes S, ı becomes I). The catalogue's names are ASCII, but a typed non-ASCII answer such as "ſilver" resolves to SILVER in the program and to nothing in the model.
- A pile is looked up through the supply map. A pile missing from the supply is `Crashed`, as the source's read of `undefined.supply` throws.
- `isCard`/`isEvent` are the `Def` datatype's two constructors. The `_is_card`/`_is_event` flags are not modelled.
- `best_poker_hand`, `old_compare_poker_hand` and `old_full_classify_hand` (hand_evaluation.py:7-21, 94-201) are not modelled, because nothing else in the core calls them.
- The memo file loading after the early return (hand_evaluation.py:60-66) and the profiling and precompute helpers are not modelled.
- HandEvaluation.FullClassifyHand requires ranks in 2..14. The program is looser, and none of the following is modelled. Ranks 0 and 1 are counted at `rank_counts` indices that the count loop never reads, yet they still join the suit buckets and count toward a flush. Ranks -15..-1 wrap around through Python's negative indexing. Only a rank of 15 or more, or of -16 or less, raises `IndexError`. (game_simulator.py reads "1c" as rank 1; see GameSimulator.OneIsNotAce.)
- HandEvaluation.CompareHands does not evaluate the representative hands of tests.py one by one. The category order is covered by category-first comparison and by the per-category order lemmas.
- FiveReveal.WinningP1Reveals: the order of the suit dictionary is a parameter covering any order of the four suits, rather than Python's actual iteration order.
- `Engine.simulate`, the random hand generators and the trial loops (5reveal1.py:115-154, game_simulator.py:46-79, 8c4/game_simulator.py:71-93, 165-177) are not modelled, because they are random and print.
- Coins.LegalMoves and Coins.NextMoves: the order of the move lists follows Python's set iteration order and is not modelled. The results are compared as collections.
- `BFS` in coins.py prints at every level and is not modelled.
- EightChooseFour.PayoffMatrix takes the comparator as a parameter. It is `poker_hand_comparator` in the source, which HandEvaluation models separately.
- `number_to_string`'s table is the 14-entry map of 8c4/game_simulator.py:39-54. No other numeric formatting is modelled.
- The rest of the repository is not part of this model: increment.ts, lost_cities.ts, src/game.ts, uprising/main.ts, the_crew.py, duet.py, codenames/, kongregate/hexiom.py, kongregate/open_doors.py. They are unfinished, interactive front ends, or copies of the engine.

## Findings

| source | as written | input that shows it | evidently intended | confidence | as-written member | corrected member |
|---|---|---|---|---|---|---|
| dominion.ts:386-391 | TRADE finds the card's index in the hand but passes the discard pile to `trashCard` | an empty discard, a hand holding COPPER, answers "COPPER" then "DONE": `undefined` is pushed onto the trash, the hand keeps its Copper, and a Silver is gained | trash the named card from the hand, then gain a Silver per card trashed | high; not executed | DominionEvents.TradeAsWrittenTrashesUndefined | DominionEvents.TradeConserves |
| hand_evaluation.py:279 | three of a kind's strength is the tiebreak of the two kickers alone; the trips' rank is ignored | 2c 2d 2h 5s 6c scores (KIND3, 605) and 3c 3d 3h 4s 5c scores (KIND3, 504), so the trip twos win | order by the trips' rank first, then by the kickers | high; not executed | HandEvaluation.Kind3AsWrittenMisorders | HandEvaluation.FullClassifyHandCorrected |
| uprising/utils/result.ts:102-104 | `Err.isErr` returns false, so `isErr` is false on every result | `Err(e).isErr()` is false, and so is `Err(e).isOk()` | `Err.isErr` returns true, the complement of `isOk` | high; not executed | Results.IsErrNotComplementOfIsOk | Results.IsErrCorrected |

One behaviour is modelled as written without being counted as a defect. `full_classify_hand` guards short hands with `raise Error(...)`, but `Error` is not defined in Python, so a short hand raises `NameError` (hand_evaluation.py:204). The hand is still rejected, which is the evident intent.
