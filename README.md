# BlackJack game logic in Dafny

A model of the single-player BlackJack component in `src/App.js`. It covers four things:

- how the 52 cards are built and what they are worth;
- the Fisher-Yates shuffle of the deck;
- drawing a card and scoring the hand;
- the three button handlers (Get Card, Stand, Restart), and the rule that enables the Get Card and Stand buttons.

The model has three modules:

- `Cards` (`cards.dfy`): the rank labels and suits, `transformCard` (a label's score), `getSuitCode` (a suit's glyph) and the suit colour rule. It also has the card record and its display name `<label> of <suit>`.
- `Deck` (`deck.dfy`): `makeDeck`'s nested loops as the method `BuildDeck`, specified by the function `FullDeck`. Then `shuffleArray` as the in-place array method `Shuffle`, specified by the function `Shuffled`. Last, the name filter that `getCard` uses to remove the drawn card.
- `Game` (`game.dfy`): the class `BlackJack`, holding the six state fields of the component (`deck`, `userCards`, `points`, `winner`, `loser`, `stand`). Its methods are the handlers `makeDeck`, `getCard`, `restartGame` and `standGame`. It also has `renderUserInfo`'s choice of message and the button-enable predicate `CanAct`.

The component's `cards` and `suits` state arrays (src/App.js:99-100) are never changed, so they are the module constants `Cards.Labels` and `Cards.Suits`; `Cards.LabelsWellFormed` and `Cards.SuitsDistinct` state their properties. The record pushed by `makeDeck` (src/App.js:162-167) is the datatype `Cards.Card`, built by `Cards.MakeCard`. A card's `label` field is called `rank`, because `label` is a Dafny keyword.

Randomness comes in as parameters:

- A shuffle takes a sequence `choices`, where `choices[i]` is the position swapped with position `i`. It satisfies `0 <= choices[i] <= i`, which is the range of `Math.floor(Math.random() * (i + 1))`.
- A draw takes the position `index`, in the range of `Math.floor(Math.random() * deck.length)`.

Every result is proved for all such choices.

The class invariant `Valid()` has four parts:

- deck names are distinct;
- the score never exceeds 21;
- a win means exactly 21;
- unless the hand has bust, the score is the hand's total.

The predicate `Dealt()` says the deck and the hand together are exactly the 52 cards. `restartGame` establishes it, and every draw that does not bust keeps it. From it follows that a game in progress still has at least 31 cards in the deck.

A defensive version would refuse a draw after the game has ended or on an empty deck. The model follows `src/App.js`, which does neither:

- `getCard` has no guard against a finished game; only the disabled buttons prevent a draw.
- On an empty deck, the drawn card is `undefined` and totalling the hand throws before any state is stored. The model therefore leaves the state unchanged. `Game.PlayableDeckNotEmpty` shows that this case cannot arise while the buttons are enabled after a restart.

## Model

| member | source | states |
|---|---|---|
| Cards.Number | src/App.js:123 | `Number(label)` is defined (not NaN) exactly on strings of decimal digits, and then it is non-negative |
| Cards.TransformCard | src/App.js:114-125 | a label has no score (NaN) exactly when it is none of A, J, Q, K and is not a string of digits |
| Cards.LabelValue | src/App.js:114-125 | the label at position i of the deck order scores i + 1, capped at 10 for J, Q and K (ace is 1) |
| Cards.LabelValuesInRange | src/App.js:114-125 | every label of the deck has a score between 1 and 10 |
| Cards.GetSuitCode | src/App.js:127-140 | the glyph is non-empty exactly for the four suits of the deck |
| Cards.SuitColor | src/App.js:231-232 | a card is drawn black or red |
| Cards.RedSuits | src/App.js:231-232 | among the four suits, a card is red exactly when its glyph is a heart or a diamond |
| Cards.CardName | src/App.js:166 | the display name `<label> of <suit>`; Cards.NameInjective proves that it determines the label and the suit |
| Cards.MakeCard | src/App.js:162-167 | the pushed record keeps its label and suit, is named `<label> of <suit>`, and its value is the label's score, between 1 and 10 |
| Cards.NameInjective | src/App.js:166 | two cards with the same name have the same label and the same suit |
| Cards.LabelsWellFormed | src/App.js:99 | the thirteen labels are pairwise different and contain no space |
| Cards.SuitsDistinct | src/App.js:100 | the four suits are pairwise different |
| Deck.FullDeck | src/App.js:155-169 | the unshuffled deck has 52 cards |
| Deck.BuildDeck | src/App.js:158-169 | the nested loops push exactly the unshuffled deck, suits outside and labels inside |
| Deck.FullDeckCoversPairs | src/App.js:160-168 | every (suit, label) pair has its card in the deck |
| Deck.FullDeckValues | src/App.js:160-168 | every card of the deck has one of the 13 labels and one of the 4 suits, and a value equal to its label's score, between 1 and 10 |
| Deck.FullDeckDistinct | src/App.js:160-168 | no two of the 52 cards share a name |
| Deck.Swap | src/App.js:147-149 | exchanging two positions keeps the length |
| Deck.SwapPermutes | src/App.js:147-149 | exchanging two positions keeps every element's count |
| Deck.ShuffledIsPermutation | src/App.js:142-153 | every shuffle has the input's length and is a permutation of it, whatever the random choices |
| Deck.SwapKeepsNamesDistinct | src/App.js:147-149 | exchanging two cards keeps the names distinct |
| Deck.ShuffledKeepsNamesDistinct | src/App.js:142-153 | shuffling keeps the names distinct |
| Deck.ShuffledDeckDistinct | src/App.js:171 | any shuffle of the 52 built cards has 52 distinct names |
| Deck.Shuffled | src/App.js:145-150 | the swaps at positions i, i - 1, ..., 1, each with its chosen position; Deck.ShuffledIsPermutation and Deck.ShuffledKeepsNamesDistinct give its properties, and Deck.Shuffle, Game.BlackJack.MakeDeck and Game.BlackJack.RestartGame are stated in its terms |
| Deck.Shuffle | src/App.js:142-153 | the array loop from the last index down to 1 computes the specified shuffle of the input, with its length and its multiset of elements |
| Deck.RemoveByName | src/App.js:185 | the filtered deck is no longer than the deck |
| Deck.RemoveByNameKeeps | src/App.js:185 | a card is kept exactly when it is in the deck and its name differs from the drawn name |
| Deck.RemoveAbsentName | src/App.js:185 | filtering out a name no card carries changes nothing |
| Deck.RemoveByNameAt | src/App.js:183-185 | with distinct names, the filter removes exactly the card at the drawn position and keeps the others in order |
| Deck.DrawRemovesOne | src/App.js:181-185 | the new deck has one card fewer, lacks the drawn card, keeps every other card's count and keeps names distinct |
| Game.Total | src/App.js:189-191 | the sum of the hand's card values, folded from the left from 0; Game.TotalAppend, Game.TotalOrderFree and Game.TotalBounds give its properties |
| Game.TotalAppend | src/App.js:187-191 | adding a card to the hand adds its value to the total |
| Game.TotalRemoveAt | src/App.js:189-191 | removing a card from a hand removes its value from the total |
| Game.TotalOrderFree | src/App.js:189-191 | hands holding the same cards in any order have the same total |
| Game.TotalBounds | src/App.js:189-191 | a hand of n cards worth 1 to 10 totals between n and 10 n |
| Game.DrawKeepsCards | src/App.js:183-187 | moving the drawn card from the deck to the hand keeps the cards the two hold together |
| Game.DealtDisjoint | src/App.js:185-187 | when deck and hand together are the 52 cards, no card is in both |
| Game.DealtValues | src/App.js:162-167 | a hand drawn from the 52 cards holds only cards worth 1 to 10 |
| Game.DealtCount | src/App.js:185-187 | deck and hand together hold 52 cards |
| Game.DeckOutlastsHand | src/App.js:189-205 | a hand that has not bust holds at most 21 cards, so at least 31 remain in the deck |
| Game.BlackJack.CanAct | src/App.js:288-291 | the Get Card and Stand buttons are enabled exactly when none of loser, stand and winner is set; Game.BlackJack.UserInfo ties it to the score message, and Game.BlackJack.GetCard to a total below 21 |
| Game.BlackJack.UserInfo | src/App.js:244-291 | the running score is shown exactly when the buttons are enabled, and the stand message only when standing without a win |
| Game.BlackJack.constructor | src/App.js:95-108 | empty deck and hand, score 0, no flag set: the invariant holds and the buttons are enabled |
| Game.BlackJack.MakeDeck | src/App.js:155-176 | the deck becomes the specified shuffle of the 52 built cards (a permutation of them), and the other fields and the invariant are kept |
| Game.BlackJack.GetCard | src/App.js:178-206 | on a bust, only the hand and the loss flag change. Otherwise the drawn card leaves the deck, the score is the new total, and a total of 21 wins. The invariant is kept, and so is the 52-card partition while the game is on. From an enabled state, at most one outcome flag results, and the buttons stay enabled exactly while the total is below 21. On an empty deck nothing changes |
| Game.BlackJack.RestartGame | src/App.js:208-219 | from any state: hand empty, score 0, flags cleared, a fresh shuffle of the 52 cards as deck, the invariant and the partition established, buttons enabled |
| Game.BlackJack.StandGame | src/App.js:221-225 | only the stand flag is set; the buttons become disabled, and from an enabled state at most one outcome flag results |
| Game.PlayableDeckNotEmpty | src/App.js:181-185 | while the deck and hand are the 52 cards and the hand has not bust, the deck has at least 31 cards, so a draw always finds a card |

## Left out

- `componentDidMount` (lines 110-112) is a React lifecycle hook that only calls `makeDeck`. A fresh game is the constructor followed by `MakeDeck`.
- `setState` is asynchronous and batched; the model applies each update at once. In `restartGame` the reset and `makeDeck`'s update merge into the same final state either way, because `makeDeck` reads only the unchanging labels and suits.
- `Math.random` and `Math.floor` are parameters (`choices`, `index`). The uniformity of the shuffle and of the draw is a probabilistic property and is not modelled.
- Rendering (JSX, styled components, `renderUserCards` beyond the suit glyph and colour, `render` beyond the button-enable rule) is not modelled.
- Cards.Number: models JavaScript's `Number` only for the empty string and strings of decimal digits. Whitespace, signs, fractions, exponents, hexadecimal and `Infinity` are mapped to NaN, which is never reached by the thirteen labels.
- Game.BlackJack.GetCard: the exception on an empty deck is modelled as "no state change". What React does with the thrown error beyond the handler is not modelled.
- `Card.value` is an unbounded integer; JavaScript numbers are doubles, but every value and total here is a small integer, where the two agree.
