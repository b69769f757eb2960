/** A hand of cards and its blackjack arithmetic.

    The source's hand object keeps three attributes: the card list, a stored
    sum, and an ace count. The count does not exist until the first recount
    (the constructor never sets it) and a reset leaves it stale; the stored
    sum is only brought up to date by an explicit recount after dealing. The
    record below keeps the same three fields, and `Consistent` is the
    invariant that the stored sum is the hand's true total. */
module Hands {
  import opened Results
  import opened Cards

  datatype Hand = Hand(cards: seq<Card>, sum: int, aces: Option<nat>)

  /** A fresh hand: no cards, sum 0, ace count never computed. */
  const EmptyHand: Hand := Hand([], 0, None)

  /** Sum of the cards' point values, every ace counted as 1. */
  function RawSum(cards: seq<Card>): (n: nat)
    ensures |cards| <= n <= 10 * |cards|
  {
    if |cards| == 0 then 0
    else RawSum(cards[..|cards| - 1]) + Value(cards[|cards| - 1])
  }

  /** Number of aces in the cards. */
  function CountAces(cards: seq<Card>): (n: nat)
    ensures n <= |cards|
  {
    if |cards| == 0 then 0
    else CountAces(cards[..|cards| - 1]) + (if cards[|cards| - 1].rank == Ace then 1 else 0)
  }

  /** The count is zero exactly when no card is an ace. */
  lemma {:induction false} NoAcesIffCountZero(cards: seq<Card>)
    ensures CountAces(cards) == 0 <==> forall i :: 0 <= i < |cards| ==> cards[i].rank != Ace
  {
    if |cards| > 0 {
      var init := cards[..|cards| - 1];
      NoAcesIffCountZero(init);
      assert forall i :: 0 <= i < |init| ==> init[i] == cards[i];
    }
  }

  /** The soft-ace adjustment applied to a raw sum: one ten added when the
      hand holds an ace and the raw sum is below 12. */
  function SoftAdjust(raw: int, aces: nat): int
  {
    if aces > 0 && raw < 12 then raw + 10 else raw
  }

  /** The total of a hand: its raw sum, with at most one ace raised to 11,
      and only when that cannot bust the hand. */
  function Total(cards: seq<Card>): (t: int)
  {
    SoftAdjust(RawSum(cards), CountAces(cards))
  }

  /** The total is the raw sum, or the raw sum plus ten when the hand holds
      an ace and the ten does not bust it; a hand without aces totals its raw
      sum, and a busted total is never adjusted. */
  lemma TotalAdjustsOnce(cards: seq<Card>)
    ensures (forall i :: 0 <= i < |cards| ==> cards[i].rank != Ace) ==> Total(cards) == RawSum(cards)
    ensures Total(cards) == RawSum(cards)
         || (CountAces(cards) > 0 && Total(cards) == RawSum(cards) + 10 && Total(cards) <= 21)
    ensures Total(cards) > 21 ==> Total(cards) == RawSum(cards)
  {
    NoAcesIffCountZero(cards);
  }

  /** Every ace adds 1 to the raw sum, so there are never more aces than points. */
  lemma {:induction false} AcesAtMostRawSum(cards: seq<Card>)
    ensures CountAces(cards) <= RawSum(cards)
  {
    if |cards| > 0 {
      AcesAtMostRawSum(cards[..|cards| - 1]);
    }
  }

  /** The value of the hand when `soft` of its aces count 11 instead of 1. */
  function Valuation(cards: seq<Card>, soft: nat): int
    requires soft <= CountAces(cards)
  {
    RawSum(cards) + 10 * soft
  }

  /** The one-shot adjustment gives the casino value of the hand: the total
      is one of the hand's valuations, no valuation that stays at or under 21
      is higher, and when the total busts every valuation busts. Two aces
      counted 11 would already make 22, so one adjustment is all a hand ever
      needs. */
  lemma TotalIsBestValuation(cards: seq<Card>)
    ensures Total(cards) == Valuation(cards, 0)
         || (CountAces(cards) >= 1 && Total(cards) == Valuation(cards, 1))
    ensures forall soft :: 0 <= soft <= CountAces(cards) && Valuation(cards, soft) <= 21
                           ==> Valuation(cards, soft) <= Total(cards)
    ensures Total(cards) > 21 ==>
              forall soft :: 0 <= soft <= CountAces(cards) ==> Valuation(cards, soft) > 21
  {
    AcesAtMostRawSum(cards);
  }

  /** Ace and king: raw 11, adjusted to 21. */
  lemma AceKingTotal(s: Suit, t: Suit)
    ensures Total([Card(Ace, s), Card(King, t)]) == 21
  {
    Pair(Card(Ace, s), Card(King, t));
  }

  /** Ace and five: raw 6, adjusted to 16. */
  lemma AceFiveTotal(s: Suit, t: Suit)
    ensures Total([Card(Ace, s), Card(Five, t)]) == 16
  {
    Pair(Card(Ace, s), Card(Five, t));
  }

  /** Ten, ten and ace: raw 21 is not below 12, so no adjustment. */
  lemma TenTenAceTotal(s: Suit, t: Suit, u: Suit)
    ensures Total([Card(Ten, s), Card(Ten, t), Card(Ace, u)]) == 21
  {
    var t1, t2, a := Card(Ten, s), Card(Ten, t), Card(Ace, u);
    Pair(t1, t2);
    Append([t1, t2], a);
    assert [t1, t2] + [a] == [t1, t2, a];
  }

  /** Ace, ace and nine: raw 11, one adjustment gives 21. */
  lemma AceAceNineTotal(s: Suit, t: Suit, u: Suit)
    ensures Total([Card(Ace, s), Card(Ace, t), Card(Nine, u)]) == 21
  {
    var a1, a2, n := Card(Ace, s), Card(Ace, t), Card(Nine, u);
    Pair(a1, a2);
    Append([a1, a2], n);
    assert [a1, a2] + [n] == [a1, a2, n];
  }

  /** The raw sum and ace count of a two-card hand. */
  lemma Pair(c: Card, d: Card)
    ensures RawSum([c, d]) == Value(c) + Value(d)
    ensures CountAces([c, d]) == (if c.rank == Ace then 1 else 0) + (if d.rank == Ace then 1 else 0)
  {
    Append([], c);
    assert [] + [c] == [c];
    Append([c], d);
    assert [c] + [d] == [c, d];
  }

  /** Adding a card adds its value to the raw sum and counts it if it is an ace. */
  lemma Append(cards: seq<Card>, c: Card)
    ensures RawSum(cards + [c]) == RawSum(cards) + Value(c)
    ensures CountAces(cards + [c]) == CountAces(cards) + (if c.rank == Ace then 1 else 0)
  {
    assert (cards + [c])[..|cards|] == cards;
  }

  /** The hand invariant: the stored sum is the hand's total. */
  predicate Consistent(h: Hand)
  {
    h.sum == Total(h.cards)
  }

  /** Emptying a hand at the start of a round; the stale ace count stays. */
  function ResetHand(h: Hand): (r: Hand)
    ensures r.cards == [] && r.sum == 0
    ensures Consistent(r)
    ensures r.aces == h.aces
  {
    h.(cards := [], sum := 0)
  }

  /** The ace count followed by the sum update, as done after every deal. */
  function Recount(h: Hand): (r: Hand)
    ensures r.cards == h.cards
    ensures r.aces == Some(CountAces(h.cards))
    ensures Consistent(r)
  {
    var n := CountAces(h.cards);
    Hand(h.cards, SoftAdjust(RawSum(h.cards), n), Some(n))
  }

  /** Counting the aces by walking the hand, storing the count. */
  method GetNumberOfAces(h: Hand) returns (r: Hand, n: nat)
    ensures n == CountAces(h.cards)
    ensures r == h.(aces := Some(n))
  {
    n := 0;
    var i := 0;
    while i < |h.cards|
      invariant 0 <= i <= |h.cards|
      invariant n == CountAces(h.cards[..i])
    {
      assert h.cards[..i + 1][..i] == h.cards[..i];
      if Label(h.cards[i].rank) == "A" {
        n := n + 1;
      }
      i := i + 1;
    }
    assert h.cards[..i] == h.cards;
    r := h.(aces := Some(n));
  }

  /** Summing the card values by walking the hand, then applying the soft-ace
      adjustment with the stored ace count. The count must have been computed
      first: reading it before any recount raises AttributeError. */
  method UpdateHandSum(h: Hand) returns (r: Hand, s: int)
    requires h.aces.Some?
    ensures h.aces == Some(CountAces(h.cards)) ==> Consistent(r) && s == Total(h.cards)
    ensures r.cards == h.cards && r.aces == h.aces && r.sum == s
  {
    var raw := 0;
    var i := 0;
    while i < |h.cards|
      invariant 0 <= i <= |h.cards|
      invariant raw == RawSum(h.cards[..i])
    {
      assert h.cards[..i + 1][..i] == h.cards[..i];
      raw := raw + Value(h.cards[i]);
      i := i + 1;
    }
    assert h.cards[..i] == h.cards;
    s := raw;
    if h.aces.value > 0 && s < 12 {
      s := s + 10;
    }
    r := h.(sum := s);
  }

  /** The two recount methods together compute `Recount`. */
  method RecountHand(h: Hand) returns (r: Hand)
    ensures r == Recount(h)
  {
    var counted, n := GetNumberOfAces(h);
    var s;
    r, s := UpdateHandSum(counted);
  }

  /** Blackjack: the stored sum is exactly 21. */
  predicate IsBlackjack(h: Hand)
  {
    h.sum == 21
  }

  /** Bust: the stored sum is over 21; never at the same time as blackjack. */
  predicate IsBust(h: Hand)
    ensures IsBust(h) ==> !IsBlackjack(h)
  {
    h.sum > 21
  }

  /** Two cards never bust: their raw sum is at most 20, and the soft-ace
      adjustment never takes a total over 21. */
  lemma TwoCardsNeverBust(h: Hand)
    requires Consistent(h) && |h.cards| == 2
    ensures !IsBust(h)
  {
    TotalAdjustsOnce(h.cards);
  }

  /** A hand that has not busted holds at most 21 cards, since every card is
      worth at least one point. */
  lemma NotBustIsSmall(h: Hand)
    requires Consistent(h) && !IsBust(h)
    ensures RawSum(h.cards) <= 21
    ensures |h.cards| <= 21
  {
  }
}
