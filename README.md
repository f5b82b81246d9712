# Black-Jack, modelled in Dafny

A model of a text-prompt blackjack game played by one person against a
dealer. All of the game is in `main.py`. The model covers:

- the cards (`Card`): construction from a value and a colour number, point values, display text;
- the deck (`Deck`): an ordered list of cards, changed in place;
- the participants (`Player`): role normalisation, the hand, and the score with its Ace rule;
- one round (`game()`): the 52-card deck, the bet prompt, the deal, the optional extra card, the dealer's draws, and settling the bet.

Modules, in dependency order:

- `Wrappers` (`wrappers.dfy`): `Option` and `Result`.
- `Prompts` (`prompts.dfy`): a prompt that asks again until the answer is acceptable. The game uses it for the Ace value and for the bet. Typed answers are a sequence of integers. Running out of answers stands for `input()` failing.
- `Cards` (`cards.dfy`): the `Card` datatype (a rank 1..13 and a suit). It has the checked constructor `NewCard`, `Points` (the card's `score` attribute) and `CardString`.
- `Decks` (`decks.dfy`): class `Deck`. Its `content` field is a `seq<Card>`. The methods reassign it: `AddCard` appends a card or a list of cards, `RemoveCard` pops at an index, and `ToString` builds the bracketed text with the source's loop. `Length` is `len(deck)`.
- `Players` (`players.dfy`): class `Player`, with a `role` string and a `hand` deck. `Player.Score` takes the cards off the front of the hand, resolves each Ace, then puts the cards back, as the source does. It is proved equal to the pure function `HandScore`:
  - the dealer's score, `DealerScore`, is recursive: an Ace counts 1 when the score of the cards after it plus 11 is above 21, and 11 otherwise;
  - the human's score, `PlayerScore`, takes the first answer in {1, 11} for each Ace.
- `Game` (`game.dfy`): `BuildDeck`, `Deal`, `DealerTurn` (the `while dealer.score() <= 15` loop) and `Payout`. It also holds the whole round, `PlayRound`, which is proved equal to the function `RoundSpec`.

Where the code and its documentation differ, the model follows the code:

- The bet check `0 > bet > credit` is a chained comparison. It rejects only bets strictly between the credit and 0. With a credit of 0 or more, the first number typed is the bet, even a negative one or one above the credit (`Game.BetTakenAsTyped`, `Game.RoundBetAsTyped`).
- An Ace prompt that never receives 1 or 11 does not loop forever in the model. It ends with an error when the answers run out.

Removing index 0 after an add returns the deck's first card. That is the added card only when the deck was empty. `Decks.AddThenRemove` states the general form: removing at the old length gives the added card back.

## Model

| member | source | states |
|---|---|---|
| `Cards.NewCard` | main.py:12-22 | a card is built exactly when the value lies in 1..13; it has that value and the colour `SuitOf(color)`; any colour number is accepted |
| `Cards.SuitOf` | main.py:21 | the colour is Heart, Club, Spade or Diamond exactly when `color % 4` is 1, 2, 3 or 0 (index -1 names the last entry) |
| `Cards.Points` | main.py:22 | a card's points lie in 1..10; they are 1 exactly for an Ace, equal the value up to 10, and are 10 for a 10, Jack, Queen or King |
| `Cards.SuitNumberOf` | main.py:21 | any colour number names the suit whose number 1..4 has the same residue modulo 4, so colour numbers 4 apart give the same suit |
| `Cards.NewCardRoundTrip` | main.py:4-22 | every card is rebuilt by `NewCard` from its value and its colour number 1..4 |
| `Cards.RankNameRoundTrip` | main.py:12-17 | the displayed value (Ace, 2..10, Jack, Queen, King) reads back to the value and has no blank |
| `Cards.CardStringInjective` | main.py:24-28 | two cards with the same "<value> of <colour>" text are the same card |
| `Cards.CardStringExamples` | main.py:111 | `Card(1, 1)` displays "Ace of Heart", `Card(11, 2)` displays "Jack of Club", values 0 and 14 raise the error |
| `Decks.Deck.constructor` | main.py:32-38 | a new deck holds the given cards in order |
| `Decks.Deck.AddCard` | main.py:55-63 | afterwards the deck is the old deck followed by the one card, or by every card of the list in order |
| `Decks.Deck.RemoveCard` | main.py:65-66 | returns the card at the index and leaves the deck without it, the other cards in order |
| `Decks.RemovedAtMultiset` | main.py:66 | popping a card loses no other card and duplicates none |
| `Decks.Deck.ToString` | main.py:46-53 | the text built card by card is "[" + the cards' texts separated by ", " + "]" |
| `Decks.ListBodyAppend` | main.py:46-53 | appending a card to a non-empty deck extends its text by ", " and the card's text |
| `Decks.DeckStringExamples` | main.py:46-53 | the empty deck displays "[]"; a one-card deck displays the card's text in brackets |
| `Decks.AddThenRemove` | main.py:55-66 | adding a card and then removing at the old length returns that card and restores the deck |
| `Players.NormalizeRole` | main.py:75 | a name is kept; an odd number gives "Player" and an even number gives "Dealer" |
| `Players.NormalizeRoleExamples` | main.py:113-114 | `Player(11)` has the role of `Player('Player')`, `Player(4)` that of `Player('Dealer')`; normalising twice changes nothing |
| `Players.Player.constructor` | main.py:69-76 | the role is the normalised argument and the hand is a new, empty deck |
| `Players.Player.AddCard` | main.py:81-82 | the hand grows by the card or the list, as `Deck.add_card` does |
| `Players.Player.GiveCard` | main.py:84-85 | returns the hand's card at the index and removes it |
| `Players.Player.Score` | main.py:87-108 | the result is `HandScore` of the hand; with enough answers the hand is unchanged afterwards; when the answers run out, the hand has lost the cards taken so far |
| `Players.Player.TakenCardPoints` | main.py:92-105 | the card just taken adds its points; an Ace adds the human's answer or the dealer's value; the hand is unchanged |
| `Players.Player.PutBack` | main.py:106-107 | the taken cards go back at the end of the hand in their order |
| `Players.ScoreTwice` | main.py:87-108 | scoring twice with the same answers gives the same result and leaves the hand unchanged; a dealer's score never fails |
| `Players.DealerAceValue` | main.py:98-101 | the dealer's Ace is 1 or 11, and 11 exactly when the rest of the hand scores at most 10 |
| `Players.CardPoints` | main.py:92-105 | an Ace's contribution is 1 or 11; only the human's Ace can fail, for want of an answer |
| `Players.ScoreStep` | main.py:90-105 | a hand's score is its first card's contribution added to the score of the remaining cards |
| `Players.ScoreLoopStep` | main.py:90-105 | one turn of the loop: the card taken next either makes the score fail at its position or moves its points from the rest of the hand onto the running total |
| `Players.DealerScoreIsSumOfContributions` | main.py:90-105 | the dealer's score is the sum, in hand order, of each card's points; the Ace at position i counts 1 when the score of the cards after it plus 11 exceeds 21, and 11 otherwise |
| `Players.BaseSumAtLeastLength` | main.py:22 | every card scores at least 1, so a hand's plain sum is at least its number of cards |
| `Players.DealerScoreBounds` | main.py:92-105 | the dealer's score lies between the sum of points and that sum plus 10 per Ace |
| `Players.DealerScoreNoAces` | main.py:104-105 | without Aces the dealer's score is the plain sum of points |
| `Players.DealerScoreExamples` | main.py:97-101 | [Ace, 9] scores 20, [Ace, King, 5] 16, [5, Ace, King] 26, [Ace, 4] 15 and [Ace, 4, 7] 12 |
| `Players.PlayerScoreBounds` | main.py:93-96 | the human's score lies between the sum of points and that sum plus 10 per Ace, and only consumes answers; running out of answers happens at an Ace |
| `Players.PlayerScoreNoAces` | main.py:104-105 | without Aces the human is never asked and scores the plain sum |
| `Players.PlayerScoreExamples` | main.py:93-96 | [King, Queen] scores 20 with no answer read; [Ace, King] skips the answer 5 and takes 11; answers 0, 2 exhaust the prompt |
| `Prompts.FirstAccepted` | main.py:94-96 | the settled answer is the first acceptable one, every earlier one was rejected, and reading resumes right after it; there is none exactly when no answer is acceptable |
| `Prompts.Ask` | main.py:94-96 | the read-and-re-ask loop settles on `FirstAccepted` of the answers |
| `Game.BuildDeck` | main.py:120-122 | the deck built by the 52-step loop is a new deck holding `FreshShoe()` |
| `Game.FreshShoeBySuit` | main.py:120-122 | the built deck is Hearts, Clubs, Spades, then Diamonds, each from Ace to King |
| `Game.FreshShoeHoldsEachCardOnce` | main.py:120-122 | every (value, colour) card occurs exactly once in the built deck |
| `Game.FreshShoeCounts` | main.py:120-122 | the built deck has 4 cards of each value and 13 of each colour |
| `Game.BetTakenAsTyped` | main.py:133-135 | the re-prompt fires exactly for bets strictly between the credit and 0, so with credit >= 0 the first bet typed is taken |
| `Game.Deal` | main.py:142-147 | two cards leave the deck at the chosen positions; the dealer gives their first card twice; the player receives the two in drawing order |
| `Game.DealCards` | main.py:142-155 | after the deal and the optional extra card, the player holds 2 or 3 cards and the deck 50 or 49; no card was lost or doubled |
| `Game.DealerPlayoutProperties` | main.py:160-161 | a dealer who stands scores above 15 and keeps their first cards; each drawn card came from the deck; a dealer already above 15 draws nothing |
| `Game.DealerStopsAtFirstScoreAbove15` | main.py:160-161 | every hand the dealer held before the final one scored at most 15, so the dealer stands at the first score above 15 |
| `Game.DealerNeverExhausts` | main.py:160-161 | a dealer with at least 16 cards between hand and deck always stands before the deck runs out |
| `Game.DealerTurn` | main.py:160-161 | the draw loop leaves hand and deck as `DealerPlayout` says and returns the dealer's score; drawing from an empty deck fails |
| `Game.Payout` | main.py:159-172 | the player wins the bet when not bust and the dealer busts or scores less; otherwise the player loses it |
| `Game.PayoutExamples` | main.py:164-172 | ties go to the dealer; a bust loses whatever the dealer holds; a dealer bust loses to any non-bust player |
| `Game.PlayRound` | main.py:116-172 | the round played on objects equals `RoundSpec` of the answers and random picks |
| `Game.FinishRound` | main.py:158-172 | scoring, the dealer's turn and settling equal `RoundAfterDeal`; the record's hands and deck are the objects' final contents |
| `Game.RoundAfterDealOutcome` | main.py:158-172 | a finished round wins or loses exactly the bet; a bust player loses and the dealer draws nothing; otherwise the dealer draws only at scores of at most 15, stands above 15, and the player loses exactly when the dealer's score is between the player's and 21 |
| `Game.RoundOutcome` | main.py:116-172 | a whole round wins or loses exactly the bet; a bust player loses and the dealer draws nothing; otherwise the dealer draws only at scores of at most 15, stands above 15, and the player loses exactly when the dealer's score is between the player's and 21; the player holds 2 or 3 cards, and the player's cards, the dealer's cards and the rest of the deck together are the 52-card deck |
| `Game.RoundNeverExhaustsDeck` | main.py:142-161 | a round never fails because the deck is empty: 49 or 50 cards remain when the dealer starts, and the dealer stops within 16 draws |
| `Game.RoundBetAsTyped` | main.py:133-135 | with credit >= 0 the round's bet is the first number typed; with nothing typed the round fails |

## Left out

- Text output (`print`) is not modelled. `Player.__str__` (main.py:78-79) is left out, and so are `print(player)` (main.py:148, 156) and `print(dealer)` (main.py:162). The two `print(player)` calls run `score()` and so ask the human about each Ace before the scoring at main.py:158. The model's Ace answers are those of that last scoring only. `print(dealer)` only re-scores the dealer and asks nothing.
- Prompts are not modelled as I/O. Typed numbers are integer sequences. `int(...)` failing on non-numeric text is not modelled. The yes/no answer for another card is the boolean `hit`. An empty answer makes `[0]` fail in the source; that is not modelled either.
- The prompts read one input stream in the source. The model gives each prompt its own answers: `bets` for the bet, `hit` for the extra card, and `aceAnswers` for the Aces. Answers left over after the bet are dropped and do not carry over to later prompts.
- `randint` is not modelled. Its picks are parameters with the bounds of the deck at that moment (`first`, `second`, `third`, and `draws` checked by `ValidDraws`).
- The session loop (main.py:175-177) is left out. It is input-driven glue: credit starts at 100 plus the first round's payout, and later rounds run only while the answer starts with "y" and the credit is above 0.
- Decks.Deck.RemoveCard: requires an index in 0..len-1. Python's negative indices and the IndexError are not modelled, because every call site passes an index in range.
- Decks.Deck.AddCard: a list argument is taken as a value. The source appending its own `content` list to itself (which never ends) is not modelled.
- Players.ScoreTwice: says nothing of a second call after the first one ran out of answers.
- Arguments of other Python types (`Player(True)`, `add_card` with a non-card, non-list value) are not modelled. `RoleArg` is an integer or a name, and `CardOrList` is a card or a list of cards.
