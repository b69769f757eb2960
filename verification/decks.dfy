/** The deck: the 52-card ordered list the source builds, the shuffled
    order it deals from, and dealing by popping from the end of the list. */
module Decks {
  import opened Results
  import opened Cards
  import opened Hands

  /** The rank order of the source's value tuple. */
  const Ranks: seq<Rank> :=
    [Ace, Two, Three, Four, Five, Six, Seven, Eight, Nine, Ten, Jack, Queen, King]

  /** The suit order of the source's suit tuple. */
  const Suits: seq<Suit> := [Spades, Hearts, Clubs, Diamonds]

  /** Where a rank sits in `Ranks`. */
  function RankIndex(r: Rank): (i: nat)
    ensures i < |Ranks| && Ranks[i] == r
  {
    match r
    case Ace => 0
    case Two => 1
    case Three => 2
    case Four => 3
    case Five => 4
    case Six => 5
    case Seven => 6
    case Eight => 7
    case Nine => 8
    case Ten => 9
    case Jack => 10
    case Queen => 11
    case King => 12
  }

  /** Where a suit sits in `Suits`. */
  function SuitIndex(s: Suit): (i: nat)
    ensures i < |Suits| && Suits[i] == s
  {
    match s
    case Spades => 0
    case Hearts => 1
    case Clubs => 2
    case Diamonds => 3
  }

  /** The list the source builds before shuffling: for each value, for each
      suit, one card. */
  function OrderedDeck(): seq<Card>
  {
    seq(52, i requires 0 <= i < 52 => Card(Ranks[i / 4], Suits[i % 4]))
  }

  predicate Distinct(s: seq<Card>)
  {
    forall i, j :: 0 <= i < j < |s| ==> s[i] != s[j]
  }

  /** `RankIndex` and `SuitIndex` invert the two orders. */
  lemma IndexInverts()
    ensures forall a :: 0 <= a < |Ranks| ==> RankIndex(Ranks[a]) == a
    ensures forall a :: 0 <= a < |Suits| ==> SuitIndex(Suits[a]) == a
  {
    forall a | 0 <= a < |Ranks|
      ensures RankIndex(Ranks[a]) == a
    {
      assert a in {0, 1, 2, 3, 4, 5, 6, 7, 8, 9, 10, 11, 12};
    }
    forall a | 0 <= a < |Suits|
      ensures SuitIndex(Suits[a]) == a
    {
      assert a in {0, 1, 2, 3};
    }
  }

  /** The ordered deck holds 52 cards, every card exactly once. */
  lemma OrderedDeckIsComplete()
    ensures |OrderedDeck()| == 52
    ensures forall c: Card :: c in OrderedDeck()
    ensures Distinct(OrderedDeck())
  {
    var d := OrderedDeck();
    forall c: Card
      ensures c in d
    {
      var i := 4 * RankIndex(c.rank) + SuitIndex(c.suit);
      assert i / 4 == RankIndex(c.rank) && i % 4 == SuitIndex(c.suit);
      assert d[i] == c;
    }
    IndexInverts();
    forall i, j | 0 <= i < j < |d|
      ensures d[i] != d[j]
    {
      if i / 4 != j / 4 {
        assert RankIndex(d[i].rank) != RankIndex(d[j].rank);
      } else {
        assert i % 4 != j % 4;
        assert SuitIndex(d[i].suit) != SuitIndex(d[j].suit);
      }
    }
  }

  /** What the shuffle may produce: a rearrangement of the ordered deck. */
  predicate IsShuffle(order: seq<Card>)
  {
    multiset(order) == multiset(OrderedDeck())
  }

  /** In a list without repeats every card occurs at most once. */
  lemma {:induction false} DistinctOccursOnce(s: seq<Card>, c: Card)
    requires Distinct(s)
    ensures multiset(s)[c] <= 1
  {
    if |s| > 0 {
      var init := s[..|s| - 1];
      assert s == init + [s[|s| - 1]];
      DistinctOccursOnce(init, c);
      if c == s[|s| - 1] {
        assert c !in init;
      }
    }
  }

  /** A card at two positions occurs at least twice. */
  lemma RepeatOccursTwice(s: seq<Card>, i: nat, j: nat)
    requires i < j < |s| && s[i] == s[j]
    ensures multiset(s)[s[i]] >= 2
  {
    assert s == s[..j] + [s[j]] + s[j + 1..];
    assert s[i] in s[..j];
  }

  /** A shuffle has the ordered deck's 52 cards. */
  lemma ShuffleSize(order: seq<Card>)
    requires IsShuffle(order)
    ensures |order| == 52
  {
    assert |order| == |multiset(order)| == |multiset(OrderedDeck())| == |OrderedDeck()|;
  }

  /** Every shuffle of the ordered deck is a full deck: 52 cards, each of the
      52 cards present, none twice. */
  lemma ShuffleIsFullDeck(order: seq<Card>)
    requires IsShuffle(order)
    ensures |order| == 52
    ensures forall c: Card :: c in order
    ensures Distinct(order)
  {
    OrderedDeckIsComplete();
    ShuffleSize(order);
    forall c: Card
      ensures c in order
    {
      assert c in OrderedDeck();
      assert c in multiset(OrderedDeck());
    }
    forall i, j | 0 <= i < j < |order|
      ensures order[i] != order[j]
    {
      if order[i] == order[j] {
        RepeatOccursTwice(order, i, j);
        DistinctOccursOnce(OrderedDeck(), order[i]);
        assert false;
      }
    }
  }

  /** `pop()` once: the deck without its last card, and that card. */
  function PopOne(deck: seq<Card>): (r: Result<(seq<Card>, Card)>)
  {
    if |deck| == 0 then Err(DeckExhausted)
    else Ok((deck[..|deck| - 1], deck[|deck| - 1]))
  }

  /** `pop()` fails exactly on an empty deck; otherwise the rest of the deck
      followed by the popped card is the deck. */
  lemma PopOneTakesLast(deck: seq<Card>)
    ensures PopOne(deck).Ok? <==> |deck| > 0
    ensures PopOne(deck).Err? ==> PopOne(deck).failure == DeckExhausted
    ensures PopOne(deck).Ok? ==> PopOne(deck).value.0 + [PopOne(deck).value.1] == deck
  {
    if |deck| > 0 {
      assert deck == deck[..|deck| - 1] + [deck[|deck| - 1]];
    }
  }

  /** The cards of `s` in the order repeated `pop()` takes them off: the
      last card first. */
  function PopOrder(s: seq<Card>): (p: seq<Card>)
    ensures |p| == |s|
  {
    if |s| == 0 then [] else [s[|s| - 1]] + PopOrder(s[..|s| - 1])
  }

  /** Pop order is the reversal of the list and holds the same cards. */
  lemma {:induction false} PopOrderReverses(s: seq<Card>)
    ensures forall k :: 0 <= k < |s| ==> PopOrder(s)[k] == s[|s| - 1 - k]
    ensures multiset(PopOrder(s)) == multiset(s)
  {
    if |s| > 0 {
      var init := s[..|s| - 1];
      PopOrderReverses(init);
      assert s == init + [s[|s| - 1]];
    }
  }

  /** Popping `a + b` takes all of `b` before any of `a`. */
  lemma {:induction false} PopOrderAppend(a: seq<Card>, b: seq<Card>)
    ensures PopOrder(a + b) == PopOrder(b) + PopOrder(a)
    decreases |b|
  {
    if |b| == 0 {
      assert a + b == a;
    } else {
      var init := b[..|b| - 1];
      PopOrderAppend(a, init);
      assert (a + b)[..|a + b| - 1] == a + init;
    }
  }

  /** `deck'` and `cards'` are what is left after popping some of the last
      cards of `deck` and appending them, one by one, to `cards`. */
  ghost predicate Drawn(deck: seq<Card>, cards: seq<Card>, deck': seq<Card>, cards': seq<Card>)
  {
    && |deck'| <= |deck|
    && deck' == deck[..|deck'|]
    && cards' == cards + PopOrder(deck[|deck'|..])
  }

  /** Drawing nothing is a draw. */
  lemma DrawnNothing(deck: seq<Card>, cards: seq<Card>)
    ensures Drawn(deck, cards, deck, cards)
  {
    assert deck[|deck|..] == [];
    assert PopOrder([]) == [];
  }

  /** Popping one card is a draw. */
  lemma DrawnOne(deck: seq<Card>, cards: seq<Card>)
    requires |deck| > 0
    ensures Drawn(deck, cards, deck[..|deck| - 1], cards + [deck[|deck| - 1]])
  {
    var top := deck[|deck| - 1];
    assert deck[|deck| - 1..] == [top];
    assert [top][..0] == [];
    assert PopOrder([top]) == [top] + PopOrder([]);
    assert PopOrder([]) == [];
  }

  /** A draw followed by a draw is a draw. */
  lemma DrawnTransitive(d0: seq<Card>, c0: seq<Card>, d1: seq<Card>, c1: seq<Card>,
                        d2: seq<Card>, c2: seq<Card>)
    requires Drawn(d0, c0, d1, c1) && Drawn(d1, c1, d2, c2)
    ensures Drawn(d0, c0, d2, c2)
  {
    assert d0[|d2|..] == d1[|d2|..] + d0[|d1|..];
    PopOrderAppend(d1[|d2|..], d0[|d1|..]);
  }

  /** A draw keeps the cards already held, moves cards from the deck to the
      hand one for one, and neither loses nor copies a card. */
  lemma DrawnKeepsCards(deck: seq<Card>, cards: seq<Card>, deck': seq<Card>, cards': seq<Card>)
    requires Drawn(deck, cards, deck', cards')
    ensures |cards'| >= |cards| && cards'[..|cards|] == cards
    ensures |deck'| + |cards'| == |deck| + |cards|
    ensures multiset(deck') + multiset(cards') == multiset(deck) + multiset(cards)
  {
    var top := deck[|deck'|..];
    PopOrderReverses(top);
    assert deck == deck' + top;
  }

  /** `pop()` n times, collecting the cards in the order they come off: the
      remaining deck and the dealt cards. Fails when the deck runs out. */
  function PopCards(deck: seq<Card>, n: nat): (r: Result<(seq<Card>, seq<Card>)>)
    ensures r.Ok? <==> n <= |deck|
    ensures r.Err? ==> r.failure == DeckExhausted
    ensures r.Ok? ==> r.value == (deck[..|deck| - n], PopOrder(deck[|deck| - n..]))
    decreases n
  {
    if n == 0 then
      assert deck[..|deck|] == deck && deck[|deck|..] == [];
      assert PopOrder([]) == [];
      Ok((deck, []))
    else if |deck| == 0 then Err(DeckExhausted)
    else
      var top := deck[|deck| - 1];
      var below := deck[..|deck| - 1];
      var (rest, more) :- PopCards(below, n - 1);
      var t := deck[|deck| - n..];
      assert t[..n - 1] == below[|below| - (n - 1)..];
      assert PopOrder(t) == [top] + PopOrder(t[..n - 1]);
      assert rest == deck[..|deck| - n];
      Ok((rest, [top] + more))
  }

  /** The single-card branch of dealing agrees with one turn of the loop branch. */
  lemma PopOneIsPopCardsOne(deck: seq<Card>)
    ensures PopCards(deck, 1).Ok? <==> PopOne(deck).Ok?
    ensures PopOne(deck).Ok? ==>
              PopCards(deck, 1).value == (PopOne(deck).value.0, [PopOne(deck).value.1])
  {
    if |deck| > 0 {
      var top := deck[|deck| - 1];
      assert deck[|deck| - 1..] == [top];
      assert [top][..0] == [];
      assert PopOrder([top]) == [top] + PopOrder([]);
      assert PopOrder([]) == [];
      assert PopOrder(deck[|deck| - 1..]) == [top];
      assert PopCards(deck, 1).Ok?;
      assert PopCards(deck, 1).value == (deck[..|deck| - 1], [top]);
    }
  }

  /** Dealing `n` cards from the end of the deck into a hand, then recounting
      the hand's aces and sum. One card is popped directly; any other count
      goes through the loop, which pops nothing for a count of zero or less.
      Either way the hand gains the deck's last cards in pop order. */
  function DealCards(deck: seq<Card>, n: int, hand: Hand): (r: Result<(seq<Card>, Hand)>)
    ensures r.Ok? <==> n <= |deck|
    ensures r.Err? ==> r.failure == DeckExhausted
    ensures r.Ok? ==>
              var k := if n < 0 then 0 else n;
              r.value == (deck[..|deck| - k],
                          Recount(hand.(cards := hand.cards + PopOrder(deck[|deck| - k..]))))
  {
    if n == 1 then
      var (rest, card) :- PopOne(deck);
      PopOneIsPopCardsOne(deck);
      Ok((rest, Recount(hand.(cards := hand.cards + [card]))))
    else
      var (rest, dealt) :- PopCards(deck, if n < 0 then 0 else n);
      Ok((rest, Recount(hand.(cards := hand.cards + dealt))))
  }

  /** What dealing promises besides the cards' order: the deck loses `k`
      cards and the hand gains them, no card is lost or copied, and the
      hand's ace count and sum are up to date. */
  lemma DealCardsMovesCards(deck: seq<Card>, n: int, hand: Hand)
    requires DealCards(deck, n, hand).Ok?
    ensures var k := if n < 0 then 0 else n;
            var (deck', hand') := DealCards(deck, n, hand).value;
            && |deck'| == |deck| - k
            && |hand'.cards| == |hand.cards| + k
            && multiset(deck') + multiset(hand'.cards) == multiset(deck) + multiset(hand.cards)
            && Consistent(hand')
            && hand'.aces == Some(CountAces(hand'.cards))
  {
    var k := if n < 0 then 0 else n;
    var (deck', hand') := DealCards(deck, n, hand).value;
    assert deck' == deck[..|deck| - k];
    assert hand'.cards == hand.cards + PopOrder(deck[|deck'|..]);
    DrawnKeepsCards(deck, hand.cards, deck', hand'.cards);
  }

  /** Dealing one card moves the deck's last card to the end of the hand. */
  lemma DealOne(deck: seq<Card>, hand: Hand)
    requires |deck| >= 1
    ensures DealCards(deck, 1, hand) ==
              Ok((deck[..|deck| - 1], Recount(hand.(cards := hand.cards + [deck[|deck| - 1]]))))
    ensures Drawn(deck, hand.cards, deck[..|deck| - 1], hand.cards + [deck[|deck| - 1]])
  {
    DrawnOne(deck, hand.cards);
  }

  /** Dealing two cards into an empty hand gives it the last card of the
      deck, then the one before. */
  lemma DealTwoIntoEmpty(deck: seq<Card>, hand: Hand)
    requires |deck| >= 2 && hand.cards == []
    ensures DealCards(deck, 2, hand) ==
              Ok((deck[..|deck| - 2], Recount(hand.(cards := [deck[|deck| - 1], deck[|deck| - 2]]))))
  {
    var top := deck[|deck| - 2..];
    PopOrderReverses(top);
    assert PopOrder(top) == [deck[|deck| - 1], deck[|deck| - 2]];
    assert hand.cards + PopOrder(top) == PopOrder(top);
  }

  /** The loop branch of dealing as the source runs it: pop `n` times,
      appending each card to a list. */
  method PopInLoop(deck: seq<Card>, n: int) returns (r: Result<(seq<Card>, seq<Card>)>)
    ensures r == PopCards(deck, if n < 0 then 0 else n)
  {
    var k: nat := if n < 0 then 0 else n;
    var cards := deck;
    var dealt: seq<Card> := [];
    var i := 0;
    while i < n
      invariant 0 <= i <= k && i <= |deck|
      invariant cards == deck[..|deck| - i]
      invariant |dealt| == i
      invariant forall j :: 0 <= j < i ==> dealt[j] == deck[|deck| - 1 - j]
    {
      if |cards| == 0 {
        return Err(DeckExhausted);
      }
      dealt := dealt + [cards[|cards| - 1]];
      cards := cards[..|cards| - 1];
      i := i + 1;
    }
    r := Ok((cards, dealt));
    PopOrderReverses(deck[|deck| - k..]);
    assert dealt == PopOrder(deck[|deck| - k..]);
  }

  /** Dealing as the source's statements do it: pop into a list (once, or in
      the loop), extend the hand, count the aces, update the sum. */
  method DealCardsInPlace(deck: seq<Card>, n: int, hand: Hand) returns (r: Result<(seq<Card>, Hand)>)
    ensures r == DealCards(deck, n, hand)
  {
    var cards: seq<Card>;
    var dealt: seq<Card>;
    if n == 1 {
      if |deck| == 0 {
        return Err(DeckExhausted);
      }
      dealt := [deck[|deck| - 1]];
      cards := deck[..|deck| - 1];
    } else {
      var popped := PopInLoop(deck, n);
      if popped.Err? {
        return Err(popped.failure);
      }
      cards, dealt := popped.value.0, popped.value.1;
    }
    var extended := hand.(cards := hand.cards + dealt);
    var counted, aces := GetNumberOfAces(extended);
    var updated, sum := UpdateHandSum(counted);
    r := Ok((cards, updated));
  }
}
