# Blackjack — a Dafny model of the game engine

This project models the core of a terminal Blackjack game: one player
against the dealer, with a wallet, a minimum bet and a blackjack payout
ratio. The repository has two copies of the same logic:

- `blackjack.py`, a single-file version;
- `playing_cards.py` + `hand.py` + `main.py`, a split version.

One model serves both copies.

Modules:

- `Results` (`results.dfy`): `Option`, and `Result` with the failures
  the game can meet.
  - `EndOfInput`: reading past the end of a supplied input stream.
  - `DeckExhausted`: `pop()` on an empty card list.
  - `NoShuffle`: no deck order was supplied for a round.
- `Text` (`text.dfy`): the subset of Python's `str` that the prompts
  use: `isspace`, `lower`, `upper` and `strip`.
- `Cards` (`cards.dfy`):
  - ranks, suits and cards;
  - the value label and suit name the source stores;
  - the label-based point value (`assign_int`);
  - the suit symbol table (`assign_symbol`).
- `Hands` (`hands.dfy`): the hand record with the source's three
  attributes (card list, stored sum, ace count). Also:
  - the ace count;
  - the raw sum and the one-shot soft-ace adjustment;
  - reset, blackjack and bust;
  - the two recount methods as loops.
- `Decks` (`decks.dfy`):
  - the ordered 52-card list;
  - shuffles, as rearrangements of that list;
  - dealing by popping from the end of the list, both as a function and
    as the source's loop.
- `Blackjack` (`blackjack.py` round logic, `blackjack.dfy`): the game
  state, and each step of `start_game` in order. The steps are:
  1. can-bet gate;
  2. deal two cards to the dealer, then two to the player;
  3. double-blackjack push before any bet;
  4. bet prompt;
  5. single-blackjack settlement, dealer first;
  6. hit/stay loop;
  7. dealer draws below 17;
  8. showdown;
  9. continue prompt.
  
  `play` repeats the round while the play-again flag is set.

Everything the game reads from outside is supplied as input, each stream
consumed from the front. The `Inputs` record holds four streams:

- the shuffled deck order for each round;
- the bet attempts, each a parsed number or "not a number";
- the hit/stay lines;
- the continue/stop lines.

Money is `real`, with exact arithmetic.

Where the comment at `hand.py:33-34` ("more than 1 Ace", "less than 11")
disagrees with the code at `hand.py:35`, the model follows the code: add
10 when there is at least one ace and the raw sum is below 12.

## Model

| member | source | states |
|---|---|---|
| Cards.PointValue | playing_cards.py:19-31 | every rank's value is between 1 and 10; it is 1 exactly for the ace and 10 exactly for ten, jack, queen and king |
| Cards.PointValueMatchesLabel | playing_cards.py:19-31 | for every rank, the rank's point value is what the source's rule gives for its label string: a numeric label gives its number, "A" gives 1, anything else gives 10 |
| Cards.AssignSymbol | playing_cards.py:9 | a suit name has a symbol exactly when it is one of Spades, Hearts, Clubs, Diamonds; any other name is the lookup error |
| Cards.Symbol | playing_cards.py:34-35 | each suit's symbol is the table entry for its name, and no other suit has the same symbol |
| Cards.AssignInt | playing_cards.py:19-31 | no contract of its own: `PointValueMatchesLabel` states that on every rank's label it gives the rank's point value |
| Cards.Label | playing_cards.py:54 | a card's value string is "A" exactly when the card is an ace |
| Hands.CountAces | hand.py:11-20 | the ace count never exceeds the number of cards |
| Hands.NoAcesIffCountZero | hand.py:11-20 | the ace count is zero exactly when no card is an ace |
| Hands.GetNumberOfAces | hand.py:11-20 | walking the hand and counting cards whose value is "A" gives the number of aces; the count is stored and nothing else changes |
| Hands.UpdateHandSum | hand.py:24-41 | summing the values and adding 10 when the stored ace count is positive and the sum is below 12 gives the hand's total whenever the stored count is current; only the stored sum changes |
| Hands.RecountHand | playing_cards.py:87-90 | counting the aces and then updating the sum computes `Recount` |
| Hands.Total | hand.py:24-41 | no contract of its own: `TotalAdjustsOnce` and `TotalIsBestValuation` state what the total is |
| Hands.IsBlackjack | hand.py:51-52 | no contract of its own: `IsBust` states that a blackjack is never a bust, and `PlayHandOutcome` ties the blackjack outcomes to it |
| Hands.TotalAdjustsOnce | hand.py:35-36 | the total is the raw sum, or the raw sum plus 10 when there is an ace and that stays at or under 21; a hand without aces totals its raw sum; a total over 21 is the unadjusted raw sum |
| Hands.TotalIsBestValuation | hand.py:24-41 | the one-shot rule gives the best value of the hand over every choice of aces counted 11: no valuation at or under 21 is higher, and a busted total means every valuation busts |
| Hands.AcesAtMostRawSum | hand.py:29-31 | every ace adds at least 1 to the raw sum |
| Hands.RawSum | hand.py:29-31 | the raw sum of n cards lies between n and 10n |
| Hands.AceKingTotal | hand.py:35-36 | ace and king total 21 |
| Hands.AceFiveTotal | hand.py:35-36 | ace and five total 16 |
| Hands.TenTenAceTotal | hand.py:35-36 | ten, ten and ace total 21 (raw 21 is not adjusted) |
| Hands.AceAceNineTotal | hand.py:35-36 | ace, ace and nine total 21 (one adjustment only) |
| Hands.Pair | hand.py:29-31 | the raw sum and ace count of a two-card hand are those of its two cards |
| Hands.Append | hand.py:29-31 | adding a card adds its value to the raw sum, and adds one to the ace count when it is an ace |
| Hands.ResetHand | hand.py:45-47 | reset gives an empty hand with sum 0, which is that hand's true total; the stale ace count is kept |
| Hands.Recount | playing_cards.py:87-90 | after a recount the hand keeps its cards, stores their ace count, and its stored sum is their total |
| Hands.IsBust | hand.py:51-57 | a busted hand is never a blackjack |
| Hands.TwoCardsNeverBust | hand.py:35-36 | a consistent two-card hand never busts |
| Hands.NotBustIsSmall | hand.py:56-57 | a consistent hand that has not busted has a raw sum of at most 21, so it holds at most 21 cards |
| Decks.RankIndex | playing_cards.py:54 | the position of each rank in the value tuple holds that rank |
| Decks.SuitIndex | playing_cards.py:57 | the position of each suit in the suit tuple holds that suit |
| Decks.IndexInverts | playing_cards.py:54-57 | each position of the value and suit tuples is the position of the rank or suit it holds |
| Decks.OrderedDeckIsComplete | playing_cards.py:54-60 | the ordered list has 52 cards, contains every (rank, suit) card, and has no card twice |
| Decks.ShuffleSize | playing_cards.py:60-66 | a shuffle of the ordered list has 52 cards |
| Decks.ShuffleIsFullDeck | playing_cards.py:60-66 | every shuffle of the ordered list has 52 cards, contains every card, and has no repeats |
| Decks.PopOne | playing_cards.py:75 | no contract of its own: `PopOneTakesLast` states what a single `pop()` does |
| Decks.PopOneTakesLast | playing_cards.py:75 | a single `pop()` fails exactly on an empty deck; otherwise the rest of the deck followed by the popped card is the deck |
| Decks.PopOrder | playing_cards.py:79-81 | popping a list one card at a time yields as many cards as it holds |
| Decks.PopOrderReverses | playing_cards.py:79-81 | pop order is the list reversed, with the same cards |
| Decks.PopOrderAppend | playing_cards.py:79-81 | popping a + b takes all of b, in pop order, before any of a |
| Decks.DrawnNothing | playing_cards.py:70-84 | dealing no card leaves the deck and the hand as they are |
| Decks.DrawnOne | playing_cards.py:75 | popping one card removes the deck's last card and appends it to the hand |
| Decks.DrawnTransitive | playing_cards.py:70-84 | two rounds of dealing from the end of the deck are one round of dealing |
| Decks.DrawnKeepsCards | playing_cards.py:75-84 | dealing keeps the cards already in the hand as a prefix, moves cards one for one, and loses or copies none |
| Decks.PopCards | playing_cards.py:79-81 | popping n times succeeds exactly when n is at most the deck size, fails only for running out, leaves the first cards, and yields the last n cards in pop order |
| Decks.PopOneIsPopCardsOne | playing_cards.py:74-81 | the single-card branch and one turn of the loop branch give the same deck and the same dealt cards |
| Decks.DealCards | playing_cards.py:70-90 | dealing n cards succeeds exactly when n is at most the deck size; it leaves the deck without its last n cards (none for n <= 0), appends them to the hand in pop order, and recounts the hand |
| Decks.DealCardsMovesCards | playing_cards.py:70-90 | a deal of k cards shortens the deck by k and lengthens the hand by k; the cards of deck and hand together are unchanged, and the hand's ace count and sum are up to date |
| Decks.DealOne | playing_cards.py:74-75 | dealing one card moves the deck's last card to the end of the hand |
| Decks.DealTwoIntoEmpty | playing_cards.py:79-84 | dealing two cards into an empty hand gives it the deck's last card and then the one before it |
| Decks.PopInLoop | playing_cards.py:79-81 | the source's pop loop computes `PopCards`, including the failure when the list runs out |
| Decks.DealCardsInPlace | playing_cards.py:70-90 | the source's statements (pop, extend, count aces, update sum) compute `DealCards` |
| Blackjack.NewGame | blackjack.py:202-207 | a new game starts with the starting wallet, empty hands and deck, and play-again set |
| Blackjack.ReadMoveLines | blackjack.py:313-332 | after upper-casing, a line reads as a hit exactly when it is "h" or "H", and as a stay exactly when it is "s", "S" or the long s |
| Text.StripLeftRemovesBlankPrefix | main.py:71 | `lstrip` removes a blank prefix and nothing more |
| Text.StripRightRemovesBlankSuffix | main.py:71 | `rstrip` removes a blank suffix and nothing more |
| Text.StripEmptyIffBlank | main.py:71 | a stripped line is empty exactly when the line is all white space |
| Text.LowerChar | main.py:71 | lower-casing a character never yields a capital: a capital becomes its own small letter, 32 code points on, and every other character is kept; white space stays white space |
| Text.UpperChar | main.py:133 | upper-casing a character never yields a small letter or the long s: a small letter becomes its own capital, 32 code points back, the long s becomes S, and every other character is kept; the result is "H" exactly for h or H, and "S" exactly for s, S or the long s |
| Text.CaseRoundTrip | main.py:71 | on ASCII letters, lower-casing and upper-casing undo each other |
| Text.Lower | main.py:71 | `lower` keeps the length and leaves no capital: each capital becomes its own small letter (32 code points on) in place, and every other character is kept |
| Text.Upper | main.py:133 | `upper` keeps the length and leaves no small letter or long s: each small letter becomes its own capital (32 code points back) in place, the long s becomes S, and every other character is kept |
| Text.StripLeftLower | main.py:71 | `lower` and `lstrip` commute |
| Text.StripRightLower | main.py:71 | `lower` and `rstrip` commute |
| Text.StripLower | main.py:71 | `lower().strip()` is `strip().lower()` |
| Blackjack.ReadMove | main.py:133-152 | no contract of its own: `ReadMoveLines` states which lines are a hit and which a stay |
| Blackjack.ReadAnswer | main.py:70-85 | no contract of its own: `ReadAnswerLines` and `EmptyAnswerIsBlank` state which lines stop the game and which play on |
| Blackjack.LowerIsStop | main.py:71-73 | a word lower-cases to "stop" exactly when it is "stop" in some mix of cases |
| Blackjack.ReadAnswerLines | main.py:70-85 | a continue line stops the game exactly when, stripped, it is "stop" in any case; it plays on exactly when it is all white space |
| Blackjack.EmptyAnswerIsBlank | main.py:70-85 | the continue prompt reads a line as empty exactly when it is all white space |
| Blackjack.GoToNextRound | main.py:70-85 | the prompt fails only when every remaining line is unrecognised; on success it consumes a non-empty prefix of the lines and leaves the rest |
| Blackjack.GoToNextRoundStopsAtFirstAnswer | main.py:70-85 | the prompt stops at the first line that reads as "stop" or as empty, skipping every line before it; the flag is set exactly when that line is empty |
| Blackjack.GetPlayerBet | main.py:89-104 | a bet is accepted exactly when some attempt is a number from the minimum bet up to the wallet; the first such attempt is taken, every earlier one is rejected, and the attempts after it are left unread |
| Blackjack.Holding | blackjack.py:236-237 | a counted hand holding exactly the given cards is consistent |
| Blackjack.DealNewHand | blackjack.py:229-237 | the dealer gets the shuffle's last card and then the one before it; the player gets the next two; 48 cards are left; nothing else changes |
| Blackjack.DealNewHandUsesOneDeck | blackjack.py:229-237 | after the deal the hands hold two cards each, the deck 48, and together they are the 52-card deck |
| Blackjack.CheckIfEitherBlackjack | main.py:114-128 | there is a settlement exactly when one hand is a blackjack; the dealer's is checked first and costs the bet, the player's pays bet times payout, and only the wallet changes |
| Blackjack.PlayerTurn | main.py:131-152 | the turn fails only for running out of input or cards; it reads at least one line; only the deck, the player's hand and the wallet change; the wallet loses the bet exactly when the turn ends in a bust; a turn begun unbusted that ends without a bust ends unbusted |
| Blackjack.PlayerTurnStep | main.py:133-152 | a stay ends the turn as it is; a hit deals the deck's last card to the player and ends the turn with the bet lost if that busts; a hit on an empty deck fails; any other line is skipped |
| Blackjack.PlayerTurnReadsInOrder | main.py:131-133 | the lines left unread are a suffix of the lines given |
| Blackjack.PlayerTurnDealsFromDeck | main.py:136-137 | the player's hand gains some of the deck's last cards, in pop order |
| Blackjack.PlayerTurnCountsHits | main.py:136-137 | the hand gains exactly one card per hit line read |
| Blackjack.PlayerTurnHasCards | main.py:131-152 | a turn begun unbusted, with the deck and hand holding at least 50 cards, never runs the deck dry |
| Blackjack.DealerTurn | main.py:207-208 | the dealer draws only while below 17, so it stands at 17 or more; a dealer already at 17 or more draws nothing; only the deck and the dealer's hand change |
| Blackjack.DealerTurnStep | main.py:207-208 | below 17 the dealer takes the deck's last card and goes on |
| Blackjack.DealerTurnDealsFromDeck | main.py:207-208 | the dealer's hand gains some of the deck's last cards, in pop order |
| Blackjack.DealerTurnHasCards | main.py:207-208 | a deck that together with the dealer's hand holds at least 17 cards is never run dry |
| Blackjack.Showdown | main.py:155-180 | exactly one outcome applies: a dealer bust pays the bet, equal sums keep the wallet, a higher dealer takes the bet, a higher player wins it; only the wallet changes |
| Blackjack.Finish | main.py:69-85 | ending a round changes only the play-again flag and consumes at least one continue line |
| Blackjack.PlayHand | main.py:195-226 | after the bet the wallet moves by exactly the outcome's payoff; the rules and bet are unchanged; the outcome is neither insufficient funds nor a double blackjack; only continue, hit and stay lines are read; the deck never runs dry |
| Blackjack.DealerCanDraw | main.py:203-208 | a player who stays unbusted leaves the dealer enough cards to reach 17 |
| Blackjack.PlayHandOutcome | main.py:197-226 | a dealer blackjack is reported exactly when the dealer was dealt one; a player blackjack only when the player was; every other outcome means neither was; reaching the dealer's turn means the player has not busted and the dealer stands at 17 or more |
| Blackjack.PlayHandCards | main.py:197-208 | the final cards come from the deal alone after a blackjack settlement, from the player's turn after a bust, and from the dealer's turn otherwise |
| Blackjack.PlayHandKeepsDealtCards | main.py:197-208 | both hands keep their two dealt cards as a prefix and stay consistent |
| Blackjack.PlayerTurnConservesCards | main.py:136-137 | the player's turn neither loses nor copies a card in play |
| Blackjack.DealerTurnConservesCards | main.py:207-208 | the dealer's turn neither loses nor copies a card in play |
| Blackjack.PlayHandConservesCards | main.py:197-208 | the deck and both hands hold the same cards at the end of the hand as when dealt |
| Blackjack.StartGame | main.py:184-226 | a player who cannot cover the minimum bet ends the game with nothing dealt or read; otherwise the round uses one deck order, reads a continue line, keeps the rules, and ends in a real outcome; the deck never runs dry |
| Blackjack.StartGameSettles | main.py:189-226 | a double blackjack after the deal keeps the wallet and reads no bet and no move; any other round takes a bet from the minimum up to the wallet and moves the wallet by exactly that outcome's payoff |
| Blackjack.BetPlaced | main.py:189-195 | a round that reaches the hand starts with a consistent, fresh two-card deal, not both blackjack, and the accepted bet recorded |
| Blackjack.StartGameConservesCards | main.py:189-226 | after any round that passed the gate, the deck and hands together are exactly the 52 cards and both hands are consistent |
| Blackjack.StartGameDealerStands | main.py:197-208 | a round that reached the dealer's turn started with neither two-card hand at 21, and ends with the player at 21 or under and the dealer at 17 or more |
| Blackjack.RoundKeepsWalletNonNegative | main.py:95 | with a non-negative minimum bet and payout, a round never takes the wallet below zero, because a losing bet is at most the wallet |
| Blackjack.PayoffAtLeastLoss | main.py:117 | no outcome costs more than the bet |
| Blackjack.Payoff | main.py:117-180 | no contract of its own: each outcome's wallet change (0, minus the bet, plus the bet, or bet times payout) is tied to the outcomes by `CheckIfEitherBlackjack`, `Showdown` and `PlayHand`, and bounded by `PayoffAtLeastLoss` |
| Blackjack.CheckIfCantBet | main.py:61-66 | no contract of its own: `StartGame` and `PlayStopsWhenBroke` state that a player below the minimum bet ends the game with nothing dealt or read |
| Blackjack.CheckIfBothBlackjack | main.py:107-111 | no contract of its own: `StartGameSettles` states that a double blackjack after the deal keeps the wallet and reads no bet |
| Blackjack.Play | main.py:229-237 | a finished game has play-again cleared and its rules unchanged, and never stops on an exhausted deck |
| Blackjack.PlayStopsWhenBroke | main.py:185-187 | a player who cannot cover the minimum bet ends the game at once, with nothing read |
| Blackjack.PlayKeepsWalletNonNegative | main.py:229-237 | over a whole game, a wallet that starts at zero or more never goes below zero |

## Left out

- Printing, `getpass` pauses and the printed card and hand strings: these are presentation only.
- Terminal clearing through `os.system` and `platform`: these are operating-system side effects.
- `float(input(...))` parsing: a bet attempt is supplied already parsed, as a number or as "not a number" (the `ValueError` reprompt).
- Floating-point arithmetic: money is an exact `real`, so rounding is not modelled.
- NaN and infinite bets are not modelled. In the source, a typed "nan" parses to a float for which both `i < minbet` and `i > wallet` are false (main.py:93-101). The source therefore accepts it as a valid bet, and after any settlement other than a push the wallet becomes NaN (a push, main.py:163-167, leaves the wallet untouched). A bet attempt here is a real number or "not a number", so this case cannot arise.
- `random.shuffle`: the order each round deals from is supplied, and is required to be a rearrangement of the ordered 52-card list. Nothing is claimed about uniformity.
- Unicode case mapping: `lower` and `upper` cover ASCII letters, plus the long s (U+017F), which upper-cases to "S" and so matters to the hit/stay prompt. Other non-ASCII letters are left unchanged.
- The `dealer` module imported by `main.py` is not part of this model. Its `Dealer` holds only a hand, as in `blackjack.py:186-189`, and the model stores the dealer's hand in the game state.
- `rules.py` and `player.py` are folded into `Rules`, `DefaultRules` and `NewGame`.
- The supplied deck orders can run out. `NoShuffle` marks this; the program itself has no such case.
- A deal that runs the list dry raises `IndexError` in the source after popping part of the list. `DealCards` reports `DeckExhausted` and does not return the partly popped list. The game never reaches this: `StartGame` and `Play` prove it.
- `UpdateHandSum` requires the ace count to have been computed. Reading it earlier raises `AttributeError` in the source, and the game always counts aces before updating the sum.
- Blackjack.PlayerTurnCountsHits: it counts the hits among the lines read, stated as all hits minus those in the unread lines. It does not separately state that the last line read was the stay or the busting hit.
