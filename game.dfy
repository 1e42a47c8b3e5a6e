/** The game state of the BlackJack component and its three handlers: draw a card,
    stand, restart. */
module Game {
  import opened Cards
  import opened Deck

  /** The `reduce` of `getCard`: the sum of the card values, folded from the left. */
  function Total(hand: seq<Card>): (t: int) {
    if hand == [] then 0 else Total(hand[..|hand| - 1]) + hand[|hand| - 1].value
  }

  /** Appending a card adds its value to the total. */
  lemma TotalAppend(hand: seq<Card>, c: Card)
    ensures Total(hand + [c]) == Total(hand) + c.value
  {
    assert (hand + [c])[..|hand|] == hand;
  }

  /** Taking the card at position k out of a hand takes its value out of the total. */
  lemma {:induction false} TotalRemoveAt(hand: seq<Card>, k: int)
    requires 0 <= k < |hand|
    ensures Total(hand) == Total(hand[..k] + hand[k + 1..]) + hand[k].value
  {
    var n := |hand| - 1;
    var init := hand[..n];
    assert Total(hand) == Total(init) + hand[n].value;
    if k == n {
      assert hand[..k] + hand[k + 1..] == init;
    } else {
      TotalRemoveAt(init, k);
      var without := init[..k] + init[k + 1..];
      assert hand[..k] + hand[k + 1..] == without + [hand[n]];
      TotalAppend(without, hand[n]);
    }
  }

  /** The order of the cards does not matter to the score: hands holding the same cards
      have the same total. */
  lemma {:induction false} TotalOrderFree(a: seq<Card>, b: seq<Card>)
    requires multiset(a) == multiset(b)
    ensures Total(a) == Total(b)
    decreases |a|
  {
    if a == [] {
      assert |b| == |multiset(b)| == 0;
      assert b == [];
    } else {
      var n := |a| - 1;
      var x := a[n];
      var init := a[..n];
      assert a == init + [x];
      assert x in multiset(b);
      var k :| 0 <= k < |b| && b[k] == x;
      var rest := b[..k] + b[k + 1..];
      assert b == b[..k] + [x] + b[k + 1..];
      assert multiset(init) == multiset(a) - multiset{x};
      assert multiset(rest) == multiset(b) - multiset{x};
      TotalOrderFree(init, rest);
      TotalRemoveAt(b, k);
      assert Total(b) == Total(rest) + x.value;
      assert Total(a) == Total(init) + x.value;
      assert Total(a) == Total(b);
    }
  }

  /** Moving the card at position i from the deck to the hand keeps the cards the two
      hold together. */
  lemma DrawKeepsCards(deck: seq<Card>, hand: seq<Card>, i: int)
    requires 0 <= i < |deck| && DistinctNames(deck)
    ensures multiset(RemoveByName(deck, deck[i].name)) + multiset(hand + [deck[i]])
            == multiset(deck) + multiset(hand)
  {
    RemoveByNameAt(deck, i);
    assert deck == deck[..i] + [deck[i]] + deck[i + 1..];
  }

  /** When every card is worth 1 to 10, a hand of n cards totals between n and 10 n. */
  lemma {:induction false} TotalBounds(hand: seq<Card>)
    requires forall c :: c in hand ==> 1 <= c.value <= 10
    ensures |hand| <= Total(hand) <= 10 * |hand|
  {
    if hand != [] {
      var init := hand[..|hand| - 1];
      assert forall c :: c in init ==> c in hand;
      TotalBounds(init);
    }
  }

  /** If the deck and the hand together hold the 52 cards, no card is in both. */
  lemma DealtDisjoint(deck: seq<Card>, hand: seq<Card>)
    requires multiset(deck) + multiset(hand) == multiset(FullDeck())
    ensures forall c :: c in hand ==> c !in deck
  {
    FullDeckDistinct();
    forall c | c in hand
      ensures c !in deck
    {
      DistinctNamesOccurOnce(FullDeck(), c);
    }
  }

  /** A hand drawn from the 52 cards holds only cards worth 1 to 10. */
  lemma DealtValues(deck: seq<Card>, hand: seq<Card>)
    requires multiset(deck) + multiset(hand) == multiset(FullDeck())
    ensures forall c :: c in hand ==> 1 <= c.value <= 10
  {
    forall c | c in hand
      ensures 1 <= c.value <= 10
    {
      assert multiset(FullDeck())[c] > 0;
      FullDeckValues(c);
    }
  }

  /** The deck and the hand together hold 52 cards. */
  lemma DealtCount(deck: seq<Card>, hand: seq<Card>)
    requires multiset(deck) + multiset(hand) == multiset(FullDeck())
    ensures |deck| + |hand| == 52
  {
    assert |multiset(FullDeck())| == 52;
  }

  /** While the hand has not bust, at most 21 cards have left the deck, so at least 31
      remain: the deck cannot run empty during a game. */
  lemma DeckOutlastsHand(deck: seq<Card>, hand: seq<Card>)
    requires multiset(deck) + multiset(hand) == multiset(FullDeck())
    requires Total(hand) <= 21
    ensures |hand| <= 21 && |deck| >= 31
  {
    DealtValues(deck, hand);
    TotalBounds(hand);
    DealtCount(deck, hand);
  }

  /** The line of text under the cards, chosen by flag precedence. */
  datatype Info = Congratulations | Stopped(points: int) | YouLose | Points(points: int)

  /** The state of the BlackJack component. */
  class BlackJack {
    var deck: seq<Card>
    var userCards: seq<Card>
    var points: int
    var winner: bool
    var loser: bool
    var stand: bool

    /** What every handler keeps: names in the deck are distinct, the score never passes
        21, a win means 21, and unless the hand has bust the score is its total. */
    ghost predicate Valid()
      reads this
    {
      && DistinctNames(deck)
      && points <= 21
      && (winner ==> points == 21)
      && (!loser ==> points == Total(userCards))
    }

    /** The deck and the hand together are exactly the 52 cards. */
    ghost predicate Dealt()
      reads this
    {
      !loser && multiset(deck) + multiset(userCards) == multiset(FullDeck())
    }

    /** Whether the "Get Card" and "Stand" buttons are enabled. */
    predicate CanAct()
      reads this
    {
      !(loser || stand || winner)
    }

    /** At most one of the three outcome flags is set. */
    ghost predicate OneOutcome()
      reads this
    {
      (if winner then 1 else 0) + (if loser then 1 else 0) + (if stand then 1 else 0) <= 1
    }

    /** `renderUserInfo`: the winner message first, then the stand message, then the
        loss message, and otherwise the running score. */
    function UserInfo(): (m: Info)
      reads this
      ensures m.Points? <==> CanAct()
      ensures m.Stopped? ==> stand && !winner
    {
      if winner then Congratulations
      else if stand then Stopped(points)
      else if loser then YouLose
      else Points(points)
    }

    /** The initial state: no deck yet, no cards, no points, no flag set. */
    constructor()
      ensures deck == [] && userCards == [] && points == 0
      ensures !winner && !loser && !stand
      ensures Valid() && CanAct()
    {
      deck, userCards, points := [], [], 0;
      winner, loser, stand := false, false, false;
    }

    /** `makeDeck`: builds the 52 cards and stores a shuffle of them as the deck; the
        shuffle's random positions are the parameter `choices`. */
    method MakeDeck(choices: seq<int>)
      requires Valid() && ValidChoices(choices, 52)
      modifies this
      ensures deck == Shuffled(FullDeck(), choices, 51)
      ensures |deck| == 52 && multiset(deck) == multiset(FullDeck())
      ensures userCards == old(userCards) && points == old(points)
      ensures winner == old(winner) && loser == old(loser) && stand == old(stand)
      ensures Valid()
    {
      var ordered := BuildDeck();
      var shuffled := Shuffle(ordered, choices);
      ShuffledDeckDistinct(choices);
      deck := shuffled;
    }

    /** `getCard`: takes the card at the random position `index`, appends it to the hand
        and totals the hand. Above 21 only the loss and the hand are stored; otherwise
        the deck loses the card, the score is the total and a total of 21 wins. There is
        no guard against a finished game: only the disabled buttons stop a draw. On an
        empty deck the drawn card is `undefined` and totalling the hand throws before any
        state is stored, so nothing changes. */
    method GetCard(index: int)
      requires Valid()
      requires deck == [] || 0 <= index < |deck|
      modifies this
      ensures Valid()
      ensures old(deck) == [] ==>
                && deck == old(deck) && userCards == old(userCards) && points == old(points)
                && winner == old(winner) && loser == old(loser)
      ensures stand == old(stand)
      ensures old(deck) != [] ==> userCards == old(userCards) + [old(deck)[index]]
      ensures old(deck) != [] && Total(userCards) > 21 ==>
                loser && deck == old(deck) && points == old(points) && winner == old(winner)
      ensures old(deck) != [] && Total(userCards) <= 21 ==>
                && deck == RemoveByName(old(deck), old(deck)[index].name)
                && points == Total(userCards)
                && winner == (points == 21)
                && loser == old(loser)
      ensures old(deck) != [] && !loser ==> |deck| == |old(deck)| - 1 && old(deck)[index] !in deck
      ensures old(deck) != [] && old(CanAct()) ==>
                OneOutcome() && (CanAct() <==> Total(userCards) < 21)
      ensures old(Dealt()) && !loser ==> Dealt()
    {
      if deck == [] {
        return;
      }
      var card := deck[index];
      var newDeck := RemoveByName(deck, card.name);
      var hand := userCards + [card];
      var total := Total(hand);
      DrawRemovesOne(deck, index);
      ghost var dealt := Dealt();
      if dealt {
        DrawKeepsCards(deck, userCards, index);
      }
      if total > 21 {
        loser := true;
        userCards := hand;
      } else {
        deck := newDeck;
        userCards := hand;
        points := total;
        winner := total == 21;
      }
    }

    /** `restartGame`: clears the hand, the score and the three flags, then makes a new
        deck. */
    method RestartGame(choices: seq<int>)
      requires ValidChoices(choices, 52)
      modifies this
      ensures userCards == [] && points == 0
      ensures !winner && !loser && !stand
      ensures deck == Shuffled(FullDeck(), choices, 51) && |deck| == 52
      ensures Valid() && Dealt() && CanAct()
    {
      deck, userCards, points := [], [], 0;
      loser, stand, winner := false, false, false;
      MakeDeck(choices);
    }

    /** `standGame`: sets the stand flag and nothing else. */
    method StandGame()
      requires Valid()
      modifies this
      ensures stand
      ensures deck == old(deck) && userCards == old(userCards) && points == old(points)
      ensures winner == old(winner) && loser == old(loser)
      ensures Valid() && !CanAct()
      ensures old(CanAct()) ==> OneOutcome()
    {
      stand := true;
    }
  }

  /** A game in progress never runs out of cards: the precondition of `getCard` on a
      non-empty deck holds whenever the buttons let the player draw. */
  lemma PlayableDeckNotEmpty(g: BlackJack)
    requires g.Valid() && g.Dealt()
    ensures |g.deck| >= 31
  {
    DeckOutlastsHand(g.deck, g.userCards);
  }
}
