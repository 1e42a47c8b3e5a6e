/** Building, shuffling and drawing from the deck: `makeDeck`, `shuffleArray` and the
    removal step of `getCard`. */
module Deck {
  import opened Cards

  /** No two cards share a name (a name is the card's identity). */
  ghost predicate DistinctNames(deck: seq<Card>) {
    forall i, j :: 0 <= i < |deck| && 0 <= j < |deck| && i != j ==> deck[i].name != deck[j].name
  }

  /** The unshuffled deck: suits in the outer order, labels in the inner order, so the
      card at position k has label k % 13 and suit k / 13. */
  function FullDeck(): (d: seq<Card>)
    ensures |d| == 52
  {
    seq(52, k requires 0 <= k < 52 => CardAt(k))
  }

  /** The card at position k of the unshuffled deck. */
  function CardAt(k: int): (c: Card)
    requires 0 <= k < 52
  {
    MakeCard(Labels[k % 13], Suits[k / 13])
  }

  /** Position si * 13 + li of the unshuffled deck holds suit si and label li. */
  lemma CardAtPosition(si: int, li: int)
    requires 0 <= si < |Suits| && 0 <= li < |Labels|
    ensures 0 <= si * 13 + li < 52
    ensures CardAt(si * 13 + li) == MakeCard(Labels[li], Suits[si])
  {
    assert (si * 13 + li) / 13 == si && (si * 13 + li) % 13 == li;
  }

  /** A prefix one longer is the prefix followed by the next element. */
  lemma PrefixStep<T>(s: seq<T>, n: int)
    requires 0 <= n < |s|
    ensures s[..n + 1] == s[..n] + [s[n]]
  {
  }

  /** `makeDeck` before the shuffle: one push per (suit, label) pair, in nested loops. */
  method BuildDeck() returns (deck: seq<Card>)
    ensures deck == FullDeck()
  {
    deck := [];
    assert |Suits| == 4 && |Labels| == 13;
    for si := 0 to |Suits|
      invariant |deck| == si * 13
      invariant deck == FullDeck()[..|deck|]
    {
      for li := 0 to |Labels|
        invariant |deck| == si * 13 + li
        invariant deck == FullDeck()[..|deck|]
      {
        CardAtPosition(si, li);
        PrefixStep(FullDeck(), |deck|);
        deck := deck + [MakeCard(Labels[li], Suits[si])];
      }
    }
  }

  /** The built deck holds a card for every (suit, label) pair. */
  lemma FullDeckCoversPairs(si: int, li: int)
    requires 0 <= si < |Suits| && 0 <= li < |Labels|
    ensures MakeCard(Labels[li], Suits[si]) in FullDeck()
  {
    CardAtPosition(si, li);
    assert FullDeck()[si * 13 + li] == CardAt(si * 13 + li);
  }

  /** Every card of the built deck carries one of the thirteen labels and one of the four
      suits, and its value is the label's `transformCard` score, between 1 and 10. */
  lemma FullDeckValues(c: Card)
    requires c in FullDeck()
    ensures c.rank in Labels && c.suit in Suits
    ensures TransformCard(c.rank) == Some(c.value) && 1 <= c.value <= 10
  {
    var k :| 0 <= k < 52 && FullDeck()[k] == c;
    assert c == CardAt(k);
  }

  /** No two cards of the built deck share a name. */
  lemma FullDeckDistinct()
    ensures DistinctNames(FullDeck())
  {
    var d := FullDeck();
    LabelsWellFormed();
    SuitsDistinct();
    forall i, j | 0 <= i < 52 && 0 <= j < 52 && i != j
      ensures d[i].name != d[j].name
    {
      assert d[i] == CardAt(i) && d[j] == CardAt(j);
      if d[i].name == d[j].name {
        NameInjective(Labels[i % 13], Suits[i / 13], Labels[j % 13], Suits[j / 13]);
        assert false;
      }
    }
  }

  /** The random choices of one shuffle of n cards: for each i from n - 1 down to 1, a
      position j with 0 <= j <= i (`Math.floor(Math.random() * (i + 1))`). */
  predicate ValidChoices(js: seq<int>, n: int) {
    |js| == n && forall i :: 0 < i < n ==> 0 <= js[i] <= i
  }

  /** The sequence with the elements at positions i and j exchanged. */
  function Swap<T>(s: seq<T>, i: int, j: int): (r: seq<T>)
    requires 0 <= i < |s| && 0 <= j < |s|
    ensures |r| == |s|
  {
    s[i := s[j]][j := s[i]]
  }

  /** Exchanging two elements keeps every element's count. */
  lemma SwapPermutes<T>(s: seq<T>, i: int, j: int)
    requires 0 <= i < |s| && 0 <= j < |s|
    ensures multiset(Swap(s, i, j)) == multiset(s)
  {
  }

  /** The Fisher-Yates steps i, i - 1, ..., 1 applied to s. */
  function Shuffled<T>(s: seq<T>, js: seq<int>, i: int): (r: seq<T>)
    requires ValidChoices(js, |s|) && i < |s|
    decreases i
  {
    if i <= 0 then s else Shuffled(Swap(s, i, js[i]), js, i - 1)
  }

  /** Every shuffle is a permutation of its input. */
  lemma {:induction false} ShuffledIsPermutation<T>(s: seq<T>, js: seq<int>, i: int)
    requires ValidChoices(js, |s|) && i < |s|
    ensures |Shuffled(s, js, i)| == |s|
    ensures multiset(Shuffled(s, js, i)) == multiset(s)
    decreases i
  {
    if i <= 0 {
      assert Shuffled(s, js, i) == s;
    } else {
      var t := Swap(s, i, js[i]);
      ShuffledIsPermutation(t, js, i - 1);
      SwapPermutes(s, i, js[i]);
      var r := Shuffled(t, js, i - 1);
      assert Shuffled(s, js, i) == r;
      assert |r| == |s| && multiset(r) == multiset(s);
    }
  }

  /** Exchanging two cards keeps the names distinct. */
  lemma SwapKeepsNamesDistinct(s: seq<Card>, i: int, j: int)
    requires DistinctNames(s) && 0 <= i < |s| && 0 <= j < |s|
    ensures DistinctNames(Swap(s, i, j))
  {
    var t := Swap(s, i, j);
    forall p, q | 0 <= p < |t| && 0 <= q < |t| && p != q
      ensures t[p].name != t[q].name
    {
      var p' := if p == i then j else if p == j then i else p;
      var q' := if q == i then j else if q == j then i else q;
      assert t[p] == s[p'] && t[q] == s[q'];
    }
  }

  /** Shuffling keeps every name distinct. */
  lemma {:induction false} ShuffledKeepsNamesDistinct(s: seq<Card>, js: seq<int>, i: int)
    requires ValidChoices(js, |s|) && i < |s|
    requires DistinctNames(s)
    ensures DistinctNames(Shuffled(s, js, i))
    decreases i
  {
    if i <= 0 {
      assert Shuffled(s, js, i) == s;
      assert DistinctNames(Shuffled(s, js, i));
    } else {
      var t := Swap(s, i, js[i]);
      SwapKeepsNamesDistinct(s, i, js[i]);
      ShuffledKeepsNamesDistinct(t, js, i - 1);
      assert Shuffled(s, js, i) == Shuffled(t, js, i - 1);
      assert DistinctNames(Shuffled(s, js, i));
    }
  }

  /** Every shuffle of the built deck still has 52 distinct names. */
  lemma ShuffledDeckDistinct(js: seq<int>)
    requires ValidChoices(js, 52)
    ensures DistinctNames(Shuffled(FullDeck(), js, 51))
  {
    FullDeckDistinct();
    ShuffledKeepsNamesDistinct(FullDeck(), js, 51);
  }

  /** `shuffleArray`: copies the input into a fresh array and, for i from the last index
      down to 1, swaps element i with element js[i]. The input itself is a value and is
      left as it was. */
  method Shuffle<T>(input: seq<T>, js: seq<int>) returns (r: seq<T>)
    requires ValidChoices(js, |input|)
    ensures r == Shuffled(input, js, |input| - 1)
    ensures |r| == |input| && multiset(r) == multiset(input)
  {
    var arr := new T[|input|](k requires 0 <= k < |input| => input[k]);
    assert arr[..] == input;
    assert Shuffled(arr[..], js, arr.Length - 1) == Shuffled(input, js, |input| - 1);
    var i := arr.Length - 1;
    while i > 0
      invariant -1 <= i < arr.Length == |input|
      invariant Shuffled(arr[..], js, i) == Shuffled(input, js, |input| - 1)
    {
      var j := js[i];
      ghost var before := arr[..];
      var temp := arr[i];
      arr[i] := arr[j];
      arr[j] := temp;
      assert arr[..] == Swap(before, i, j);
      assert Shuffled(before, js, i) == Shuffled(arr[..], js, i - 1);
      assert Shuffled(arr[..], js, i - 1) == Shuffled(input, js, |input| - 1);
      i := i - 1;
    }
    r := arr[..];
    assert r == Shuffled(r, js, i);
    ShuffledIsPermutation(input, js, |input| - 1);
  }

  /** The `filter` of `getCard`: every card whose name differs from `name`, in order. */
  function RemoveByName(deck: seq<Card>, name: string): (r: seq<Card>)
    ensures |r| <= |deck|
  {
    if deck == [] then []
    else (if deck[0].name != name then [deck[0]] else []) + RemoveByName(deck[1..], name)
  }

  /** The filter keeps exactly the cards whose name differs from `name`. */
  lemma {:induction false} RemoveByNameKeeps(deck: seq<Card>, name: string, c: Card)
    ensures c in RemoveByName(deck, name) <==> c in deck && c.name != name
  {
    if deck != [] {
      RemoveByNameKeeps(deck[1..], name, c);
      assert deck == [deck[0]] + deck[1..];
    }
  }

  /** Filtering out a name that no card carries changes nothing. */
  lemma {:induction false} RemoveAbsentName(deck: seq<Card>, name: string)
    requires forall c :: c in deck ==> c.name != name
    ensures RemoveByName(deck, name) == deck
  {
    if deck != [] {
      RemoveAbsentName(deck[1..], name);
    }
  }

  /** Dropping the first card keeps the names distinct. */
  lemma DistinctNamesTail(deck: seq<Card>)
    requires DistinctNames(deck) && deck != []
    ensures DistinctNames(deck[1..])
  {
    var rest := deck[1..];
    forall p, q | 0 <= p < |rest| && 0 <= q < |rest| && p != q
      ensures rest[p].name != rest[q].name
    {
      assert rest[p] == deck[p + 1] && rest[q] == deck[q + 1];
    }
  }

  /** Dropping the card at position i keeps the names distinct. */
  lemma DistinctNamesWithout(deck: seq<Card>, i: int)
    requires DistinctNames(deck) && 0 <= i < |deck|
    ensures DistinctNames(deck[..i] + deck[i + 1..])
  {
    var r := deck[..i] + deck[i + 1..];
    forall p, q | 0 <= p < |r| && 0 <= q < |r| && p != q
      ensures r[p].name != r[q].name
    {
      var p' := if p < i then p else p + 1;
      var q' := if q < i then q else q + 1;
      assert r[p] == deck[p'] && r[q] == deck[q'];
    }
  }

  /** In a deck of distinct names, filtering out the name of the card at position i
      removes exactly that card and keeps the others in order. */
  lemma {:induction false} RemoveByNameAt(deck: seq<Card>, i: int)
    requires DistinctNames(deck) && 0 <= i < |deck|
    ensures RemoveByName(deck, deck[i].name) == deck[..i] + deck[i + 1..]
  {
    var name := deck[i].name;
    var rest := deck[1..];
    DistinctNamesTail(deck);
    if i == 0 {
      forall c | c in rest
        ensures c.name != name
      {
        var k :| 0 <= k < |rest| && rest[k] == c;
        assert c == deck[k + 1];
      }
      RemoveAbsentName(rest, name);
    } else {
      assert deck[0].name != name;
      assert rest[i - 1] == deck[i];
      RemoveByNameAt(rest, i - 1);
      assert deck[..i] + deck[i + 1..] == [deck[0]] + (rest[..i - 1] + rest[i..]);
    }
  }

  /** Drawing the card at position i from a deck of distinct names: the remaining deck
      has one card fewer, no longer holds the drawn card, holds every other card as
      often as before, and its names are still distinct. */
  lemma DrawRemovesOne(deck: seq<Card>, i: int)
    requires DistinctNames(deck) && 0 <= i < |deck|
    ensures |RemoveByName(deck, deck[i].name)| == |deck| - 1
    ensures deck[i] !in RemoveByName(deck, deck[i].name)
    ensures multiset(RemoveByName(deck, deck[i].name)) + multiset{deck[i]} == multiset(deck)
    ensures DistinctNames(RemoveByName(deck, deck[i].name))
  {
    RemoveByNameAt(deck, i);
    DistinctNamesWithout(deck, i);
    assert deck == deck[..i] + [deck[i]] + deck[i + 1..];
  }

  /** In a sequence of distinct names every card occurs at most once. */
  lemma {:induction false} DistinctNamesOccurOnce(s: seq<Card>, c: Card)
    requires DistinctNames(s)
    ensures multiset(s)[c] <= 1
  {
    if s != [] {
      var init := s[..|s| - 1];
      assert s == init + [s[|s| - 1]];
      assert DistinctNames(init) by {
        forall p, q | 0 <= p < |init| && 0 <= q < |init| && p != q
          ensures init[p].name != init[q].name
        {
          assert init[p] == s[p] && init[q] == s[q];
        }
      }
      DistinctNamesOccurOnce(init, c);
      if c == s[|s| - 1] {
        forall k | 0 <= k < |init|
          ensures init[k] != c
        {
          assert init[k] == s[k];
        }
        assert c !in init;
      }
    }
  }
}
