/** Card values, suit glyphs and colours, and the card record of the BlackJack component. */
module Cards {

  datatype Option<+T> = None | Some(value: T)

  /** The component's `cards` state: the thirteen rank labels, in deck order. */
  const Labels: seq<string> := ["A", "2", "3", "4", "5", "6", "7", "8", "9", "10", "J", "Q", "K"]

  /** The component's `suits` state, in deck order. */
  const Suits: seq<string> := ["diamonds", "spades", "hearts", "clubs"]

  /** A card as the component stores it: label, suit, score value and display name. */
  datatype Card = Card(rank: string, suit: string, value: int, name: string)

  predicate IsDigit(c: char) {
    '0' <= c <= '9'
  }

  predicate AllDigits(s: string) {
    forall i :: 0 <= i < |s| ==> IsDigit(s[i])
  }

  /** The decimal number written by a string of digits, most significant digit first. */
  function DecimalValue(s: string): (n: nat)
    requires AllDigits(s)
  {
    if s == [] then 0 else DecimalValue(s[..|s| - 1]) * 10 + (s[|s| - 1] as int - '0' as int)
  }

  /** JavaScript's `Number(s)` on the strings this model handles: the empty string is 0,
      a string of decimal digits is its value, and anything else is NaN (None). */
  function Number(s: string): (r: Option<int>)
    ensures r.Some? <==> AllDigits(s)
    ensures r.Some? ==> r.value >= 0
  {
    if s == "" then Some(0)
    else if AllDigits(s) then Some(DecimalValue(s))
    else None
  }

  /** `transformCard`: the score of a rank label. Ace is always 1, the court cards 10,
      and any other label is read as a number. */
  function TransformCard(card: string): (r: Option<int>)
    ensures r.None? <==> card !in {"A", "J", "Q", "K"} && !AllDigits(card)
  {
    if card == "A" then Some(1)
    else if card == "Q" || card == "J" || card == "K" then Some(10)
    else Number(card)
  }

  /** The score of the label at position i of the deck order: its index plus one,
      capped at 10 for the court cards. */
  lemma LabelValue(i: int)
    requires 0 <= i < |Labels|
    ensures TransformCard(Labels[i]) == Some(if i < 10 then i + 1 else 10)
  {
    if i == 9 {
      assert DecimalValue("1") == 1;
      assert "10"[..1] == "1";
    }
  }

  /** Every label of the deck scores between 1 and 10. */
  lemma LabelValuesInRange(card: string)
    requires card in Labels
    ensures TransformCard(card).Some? && 1 <= TransformCard(card).value <= 10
  {
    var i :| 0 <= i < |Labels| && Labels[i] == card;
    LabelValue(i);
  }

  /** `getSuitCode`: the glyph of a suit, or the empty string for anything else. */
  function GetSuitCode(suit: string): (r: string)
    ensures r != "" <==> suit in Suits
  {
    if suit == "clubs" then "♣"
    else if suit == "hearts" then "♥"
    else if suit == "spades" then "♠"
    else if suit == "diamonds" then "♦"
    else ""
  }

  /** The colour a card of this suit is drawn in. */
  function SuitColor(suit: string): (r: string)
    ensures r == "black" || r == "red"
  {
    if suit == "clubs" || suit == "spades" then "black" else "red"
  }

  /** Among the four suits, a card is red exactly when its glyph is a heart or a diamond. */
  lemma RedSuits(suit: string)
    requires suit in Suits
    ensures SuitColor(suit) == "red" <==> GetSuitCode(suit) in {"♥", "♦"}
  {
  }

  predicate NoSpace(s: string) {
    forall i :: 0 <= i < |s| ==> s[i] != ' '
  }

  /** The display name of a card: `<rank> of <suit>`. */
  function CardName(rank: string, suit: string): (n: string) {
    rank + " of " + suit
  }

  /** The record pushed for one (label, suit) pair of the deck. */
  function MakeCard(rank: string, suit: string): (c: Card)
    requires rank in Labels
    ensures c.rank == rank && c.suit == suit && c.name == CardName(rank, suit)
    ensures TransformCard(rank) == Some(c.value) && 1 <= c.value <= 10
  {
    LabelValuesInRange(rank);
    Card(rank, suit, TransformCard(rank).value, CardName(rank, suit))
  }

  /** Where the shorter label ends, its name has the separator's space and the other name a label character. */
  lemma SeparatorPosition(a: string, s: string, b: string, t: string)
    requires NoSpace(b) && |a| < |b|
    ensures CardName(a, s)[|a|] != CardName(b, t)[|a|]
  {
  }

  /** A name determines its label and suit, as long as labels contain no space. */
  lemma NameInjective(a: string, s: string, b: string, t: string)
    requires NoSpace(a) && NoSpace(b)
    requires CardName(a, s) == CardName(b, t)
    ensures a == b && s == t
  {
    var x, y := CardName(a, s), CardName(b, t);
    if |a| < |b| {
      SeparatorPosition(a, s, b, t);
      assert false;
    } else if |b| < |a| {
      SeparatorPosition(b, t, a, s);
      assert false;
    }
    assert a == x[..|a|] && b == y[..|b|];
    assert s == x[|a| + 4..] && t == y[|b| + 4..];
  }

  /** The thirteen labels are pairwise different and contain no space. */
  lemma LabelsWellFormed()
    ensures forall i :: 0 <= i < |Labels| ==> NoSpace(Labels[i])
    ensures forall i, j :: 0 <= i < j < |Labels| ==> Labels[i] != Labels[j]
  {
  }

  /** The four suits are pairwise different. */
  lemma SuitsDistinct()
    ensures forall i, j :: 0 <= i < j < |Suits| ==> Suits[i] != Suits[j]
  {
  }
}
