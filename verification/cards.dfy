/** Playing cards: a rank and a suit, the card's point value and its suit
    symbol. The source stores the rank as a label string ("A", "2", ..., "10",
    "J", "Q", "K") and the suit as its English name; here both are
    enumerations, and the label and name functions give back the source's
    strings so that the source's string-based rules can be stated about them. */
module Cards {
  import opened Results

  datatype Rank =
    | Ace | Two | Three | Four | Five | Six | Seven | Eight | Nine | Ten
    | Jack | Queen | King

  datatype Suit = Spades | Hearts | Clubs | Diamonds

  datatype Card = Card(rank: Rank, suit: Suit)

  /** The value string the source stores for a rank. */
  function Label(r: Rank): (s: string)
    ensures s == "A" <==> r == Ace
  {
    match r
    case Ace => "A"
    case Two => "2"
    case Three => "3"
    case Four => "4"
    case Five => "5"
    case Six => "6"
    case Seven => "7"
    case Eight => "8"
    case Nine => "9"
    case Ten => "10"
    case Jack => "J"
    case Queen => "Q"
    case King => "K"
  }

  predicate IsDigit(c: char)
  {
    '0' <= c <= '9'
  }

  /** `str.isnumeric()` for ASCII text: non-empty and all digits. */
  predicate IsNumeric(s: string)
  {
    |s| > 0 && forall i :: 0 <= i < |s| ==> IsDigit(s[i])
  }

  /** `int(s)` for a string of decimal digits. */
  function DigitsValue(s: string): nat
    requires forall i :: 0 <= i < |s| ==> IsDigit(s[i])
  {
    if |s| == 0 then 0
    else 10 * DigitsValue(s[..|s| - 1]) + DigitValue(s[|s| - 1])
  }

  function DigitValue(c: char): nat
    requires IsDigit(c)
  {
    c as int - '0' as int
  }

  /** The point value the source assigns to a card from its value string:
      a number label is read as its number, "A" counts 1, anything else
      (a face card) counts 10. */
  function AssignInt(text: string): int
  {
    if IsNumeric(text) then DigitsValue(text)
    else if text == "A" then 1
    else 10
  }

  /** The blackjack point value of a rank, with an ace counted hard (as 1). */
  function PointValue(r: Rank): (v: int)
    ensures 1 <= v <= 10
    ensures v == 1 <==> r == Ace
    ensures v == 10 <==> r in {Ten, Jack, Queen, King}
  {
    match r
    case Ace => 1
    case Two => 2
    case Three => 3
    case Four => 4
    case Five => 5
    case Six => 6
    case Seven => 7
    case Eight => 8
    case Nine => 9
    case Ten | Jack | Queen | King => 10
  }

  /** `int()` of a one-digit label is that digit. */
  lemma OneDigit(c: char)
    requires IsDigit(c)
    ensures DigitsValue([c]) == DigitValue(c)
  {
    assert [c][..0] == [];
  }

  /** The rank's point value is what the source's label-based rule assigns
      to the rank's label, for every rank. */
  lemma PointValueMatchesLabel(r: Rank)
    ensures PointValue(r) == AssignInt(Label(r))
  {
    match r
    case Ten =>
      assert "10"[..1] == "1";
      OneDigit('1');
    case Ace | Jack | Queen | King =>
    case _ =>
      OneDigit(Label(r)[0]);
      assert Label(r) == [Label(r)[0]];
  }

  function Value(c: Card): int
  {
    PointValue(c.rank)
  }

  /** The suit name the source stores for a suit. */
  function SuitName(s: Suit): string
  {
    match s
    case Spades => "Spades"
    case Hearts => "Hearts"
    case Clubs => "Clubs"
    case Diamonds => "Diamonds"
  }

  /** The class-level table from suit name to printed symbol. */
  const SymbolTable: map<string, char> :=
    map["Spades" := '\U{2660}', "Hearts" := '\U{2665}',
        "Clubs" := '\U{2663}', "Diamonds" := '\U{2666}']

  /** Looking a suit name up in the symbol table: `None` is the KeyError the
      source raises for a name outside the four suits. */
  function AssignSymbol(name: string): (r: Option<char>)
    ensures r.Some? <==> name in {"Spades", "Hearts", "Clubs", "Diamonds"}
  {
    if name in SymbolTable then Some(SymbolTable[name]) else None
  }

  /** The symbol of a suit: the table entry for its name, different for every suit. */
  function Symbol(s: Suit): (c: char)
    ensures AssignSymbol(SuitName(s)) == Some(c)
    ensures forall t: Suit :: t != s ==> AssignSymbol(SuitName(t)) != Some(c)
  {
    SymbolTable[SuitName(s)]
  }
}
