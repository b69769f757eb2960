/** The round engine: one player against the dealer, a wallet, and the
    sequence gate, deal, early blackjack checks, bet, player turn, dealer
    turn, showdown, continue prompt, repeated while the player wants to go on.

    Everything the game reads from outside comes in as `Inputs`: the shuffled
    deck order used for each round, the bet attempts, the hit/stay lines and
    the continue/stop lines, each consumed from the front as the game reads
    it. Running out of a stream is reading past the end of the input. */
module Blackjack {
  import opened Results
  import opened Text
  import opened Cards
  import opened Hands
  import opened Decks

  /** The game's settings: minimum bet, starting wallet, blackjack payout ratio. */
  datatype Rules = Rules(minBet: real, startingAmount: real, blackjackPayout: real)

  const DefaultRules: Rules := Rules(10.0, 100.0, 1.5)

  /** Settings under which money only moves the way the outcome says. */
  predicate SaneRules(rules: Rules)
  {
    rules.minBet >= 0.0 && rules.blackjackPayout >= 0.0
  }

  /** What the game object holds. `bet` is unset until the first accepted
      bet and afterwards keeps the most recent one. */
  datatype State = State(
    rules: Rules,
    wallet: real,
    player: Hand,
    dealer: Hand,
    deck: seq<Card>,
    bet: Option<real>,
    playAgain: bool)

  /** The game as constructed: full starting wallet, empty hands and deck,
      ready to play. */
  function NewGame(rules: Rules): (g: State)
    ensures g.wallet == rules.startingAmount && g.playAgain
    ensures g.player.cards == [] && g.dealer.cards == [] && g.deck == []
  {
    State(rules, rules.startingAmount, EmptyHand, EmptyHand, [], None, true)
  }

  /** One line typed at the bet prompt: not a number, or a number. */
  datatype BetInput = NotANumber | Amount(amount: real)

  datatype Move = Hit | Stay | Invalid

  datatype Inputs = Inputs(
    shuffles: seq<seq<Card>>,
    bets: seq<BetInput>,
    moves: seq<string>,
    answers: seq<string>)

  /** How a round ended; each corresponds to one of the game's announcements. */
  datatype Outcome =
    | InsufficientFunds
    | BothBlackjack
    | DealerBlackjack
    | PlayerBlackjack
    | PlayerBust
    | DealerBust
    | Push
    | DealerWins
    | PlayerWins

  datatype RoundEnd = RoundEnd(state: State, rest: Inputs, outcome: Outcome)

  /** The wallet change each outcome stands for. */
  function Payoff(o: Outcome, bet: real, payout: real): real
  {
    match o
    case InsufficientFunds | BothBlackjack | Push => 0.0
    case DealerBlackjack | PlayerBust | DealerWins => -bet
    case DealerBust | PlayerWins => bet
    case PlayerBlackjack => bet * payout
  }

  /** Outcomes reached only after the dealer has drawn. */
  predicate AfterDealerTurn(o: Outcome)
  {
    o in {DealerBust, Push, DealerWins, PlayerWins}
  }

  // ---------------------------------------------------------------------
  // Prompts

  /** The hit/stay prompt: the line is upper-cased and compared with "H" and "S". */
  function ReadMove(line: string): Move
  {
    var u := Upper(line);
    if u == "H" then Hit else if u == "S" then Stay else Invalid
  }

  /** Which lines count as hit and as stay. */
  lemma ReadMoveLines(line: string)
    ensures ReadMove(line) == Hit <==> line == "h" || line == "H"
    ensures ReadMove(line) == Stay <==> line == "s" || line == "S" || line == "\U{17F}"
  {
    if |line| == 1 {
      assert Upper(line) == [UpperChar(line[0])];
      assert line == [line[0]];
    } else {
      assert |Upper(line)| != 1;
    }
  }

  /** The continue prompt's reading of a line: lower-cased, then stripped. */
  function Normalize(line: string): string
  {
    Strip(Lower(line))
  }

  /** An empty answer is exactly a line of white space (or nothing). */
  lemma EmptyAnswerIsBlank(line: string)
    ensures Normalize(line) == "" <==> IsBlank(line)
  {
    StripEmptyIffBlank(Lower(line));
    assert IsBlank(Lower(line)) <==> IsBlank(line) by {
      assert forall i :: 0 <= i < |line| ==> (IsSpace(Lower(line)[i]) <==> IsSpace(line[i]));
    }
  }

  /** How the continue prompt reads a line. */
  datatype Answer = StopPlaying | KeepPlaying | Unrecognized

  function ReadAnswer(line: string): Answer
  {
    var i := Normalize(line);
    if i == "stop" then StopPlaying else if i == "" then KeepPlaying else Unrecognized
  }

  /** "stop" in any mix of upper and lower case. */
  predicate IsStopWord(w: string)
  {
    && |w| == 4
    && w[0] in {'s', 'S'} && w[1] in {'t', 'T'} && w[2] in {'o', 'O'} && w[3] in {'p', 'P'}
  }

  /** A word lower-cases to "stop" exactly when it is "stop" in some case. */
  lemma LowerIsStop(w: string)
    ensures Lower(w) == "stop" <==> IsStopWord(w)
  {
    if |w| == 4 {
      assert Lower(w) == [LowerChar(w[0]), LowerChar(w[1]), LowerChar(w[2]), LowerChar(w[3])];
    }
  }

  /** Which lines the continue prompt accepts: a line stops the game exactly
      when, stripped, it is "stop" in any case, and plays on exactly when it
      is all white space. */
  lemma ReadAnswerLines(line: string)
    ensures ReadAnswer(line) == StopPlaying <==> IsStopWord(Strip(line))
    ensures ReadAnswer(line) == KeepPlaying <==> IsBlank(line)
  {
    StripLower(line);
    LowerIsStop(Strip(line));
    EmptyAnswerIsBlank(line);
  }

  /** The continue prompt with its validation loop: lines are read until one
      reads as "stop" (end the game) or as empty (play on). The result is the
      new play-again flag and the unread lines. */
  function GoToNextRound(answers: seq<string>): (r: Result<(bool, seq<string>)>)
    ensures r.Err? <==> forall i :: 0 <= i < |answers| ==> ReadAnswer(answers[i]) == Unrecognized
    ensures r.Err? ==> r.failure == EndOfInput
    ensures r.Ok? ==> |r.value.1| < |answers| && r.value.1 == answers[|answers| - |r.value.1|..]
  {
    if |answers| == 0 then Err(EndOfInput)
    else match ReadAnswer(answers[0])
      case StopPlaying => Ok((false, answers[1..]))
      case KeepPlaying => Ok((true, answers[1..]))
      case Unrecognized => GoToNextRound(answers[1..])
  }

  /** The prompt stops at the first line it recognises, and the flag says
      whether that line asked to play on. */
  lemma {:induction false} GoToNextRoundStopsAtFirstAnswer(answers: seq<string>)
    requires GoToNextRound(answers).Ok?
    ensures var r := GoToNextRound(answers).value;
            var k := |answers| - |r.1| - 1;
            && ReadAnswer(answers[k]) != Unrecognized
            && (forall i :: 0 <= i < k ==> ReadAnswer(answers[i]) == Unrecognized)
            && (r.0 <==> ReadAnswer(answers[k]) == KeepPlaying)
  {
    if ReadAnswer(answers[0]) == Unrecognized {
      var tail := answers[1..];
      GoToNextRoundStopsAtFirstAnswer(tail);
      var k := |tail| - |GoToNextRound(tail).value.1| - 1;
      assert GoToNextRound(answers) == GoToNextRound(tail);
      assert tail[k] == answers[k + 1];
      forall i | 0 <= i < k + 1
        ensures ReadAnswer(answers[i]) == Unrecognized
      {
        if i > 0 {
          assert answers[i] == tail[i - 1];
        }
      }
    }
  }

  /** A bet the game accepts: a number from the minimum bet up to the wallet. */
  predicate ValidBet(rules: Rules, wallet: real, b: BetInput)
  {
    b.Amount? && rules.minBet <= b.amount <= wallet
  }

  /** The bet prompt: attempts are read until one is a number no lower than
      the minimum bet and no higher than the wallet; everything else is
      rejected and the prompt repeats. */
  function GetPlayerBet(rules: Rules, wallet: real, bets: seq<BetInput>): (r: Result<(real, seq<BetInput>)>)
    ensures r.Err? <==> forall i :: 0 <= i < |bets| ==> !ValidBet(rules, wallet, bets[i])
    ensures r.Err? ==> r.failure == EndOfInput
    ensures r.Ok? ==> rules.minBet <= r.value.0 <= wallet
    ensures r.Ok? ==> |r.value.1| < |bets| && r.value.1 == bets[|bets| - |r.value.1|..]
    ensures r.Ok? ==>
              var k := |bets| - |r.value.1| - 1;
              && bets[k] == Amount(r.value.0)
              && (forall i :: 0 <= i < k ==> !ValidBet(rules, wallet, bets[i]))
  {
    if |bets| == 0 then Err(EndOfInput)
    else match bets[0]
      case NotANumber => GetPlayerBet(rules, wallet, bets[1..])
      case Amount(x) =>
        if x < rules.minBet || x > wallet then GetPlayerBet(rules, wallet, bets[1..])
        else Ok((x, bets[1..]))
  }

  // ---------------------------------------------------------------------
  // Round steps

  /** The gate at the start of every round. */
  predicate CheckIfCantBet(g: State)
  {
    g.wallet < g.rules.minBet
  }

  /** A hand holding exactly `cards`, counted. */
  function Holding(cards: seq<Card>): (h: Hand)
    ensures h.cards == cards && Consistent(h)
  {
    Recount(Hand(cards, 0, None))
  }

  /** Both hands emptied, a fresh shuffled deck, two cards to the dealer and
      then two to the player, each pair popped from the end of the deck. */
  function DealNewHand(g: State, order: seq<Card>): (r: State)
    requires IsShuffle(order)
    ensures |order| == 52
    ensures r == g.(dealer := Holding([order[51], order[50]]),
                    player := Holding([order[49], order[48]]),
                    deck := order[..48])
  {
    ShuffleSize(order);
    var dealer0 := ResetHand(g.dealer);
    DealTwoIntoEmpty(order, dealer0);
    var (deck1, dealer) := DealCards(order, 2, dealer0).value;
    assert deck1 == order[..50];
    var player0 := ResetHand(g.player);
    DealTwoIntoEmpty(deck1, player0);
    var (deck2, player) := DealCards(deck1, 2, player0).value;
    assert deck2 == order[..48];
    g.(player := player, dealer := dealer, deck := deck2)
  }

  /** After the deal the four dealt cards and the 48 left in the deck are
      the whole 52-card deck, each card once. */
  lemma DealNewHandUsesOneDeck(g: State, order: seq<Card>)
    requires IsShuffle(order)
    ensures var r := DealNewHand(g, order);
            && |r.dealer.cards| == 2 && |r.player.cards| == 2 && |r.deck| == 48
            && CardsInPlay(r) == multiset(OrderedDeck())
  {
    ShuffleSize(order);
    TopFour(order);
  }

  /** The last four cards of a deck and the rest hold the deck's cards. */
  lemma TopFour(order: seq<Card>)
    requires |order| == 52
    ensures multiset(order) == multiset(order[..48]) + multiset([order[49], order[48]])
                               + multiset([order[51], order[50]])
  {
    assert order == order[..48] + [order[48], order[49], order[50], order[51]];
  }

  /** Both hands are blackjack before any bet is taken. */
  predicate CheckIfBothBlackjack(g: State)
  {
    IsBlackjack(g.dealer) && IsBlackjack(g.player)
  }

  /** Settlement of a single blackjack after the bet: the dealer's hand is
      checked first. */
  function CheckIfEitherBlackjack(g: State, bet: real): (r: Option<(State, Outcome)>)
    ensures r.None? <==> !IsBlackjack(g.dealer) && !IsBlackjack(g.player)
    ensures r.Some? ==> r.value.0 == g.(wallet := r.value.0.wallet)
    ensures r.Some? ==> r.value.0.wallet == g.wallet + Payoff(r.value.1, bet, g.rules.blackjackPayout)
    ensures r.Some? ==> (r.value.1 == DealerBlackjack <==> IsBlackjack(g.dealer))
    ensures r.Some? ==> r.value.1 in {DealerBlackjack, PlayerBlackjack}
  {
    if IsBlackjack(g.dealer) then Some((g.(wallet := g.wallet - bet), DealerBlackjack))
    else if IsBlackjack(g.player) then
      Some((g.(wallet := g.wallet + bet * g.rules.blackjackPayout), PlayerBlackjack))
    else None
  }

  /** Number of lines among `lines` that read as a hit. */
  function Hits(lines: seq<string>): nat
  {
    if |lines| == 0 then 0
    else (if ReadMove(lines[0]) == Hit then 1 else 0) + Hits(lines[1..])
  }

  /** The hit/stay loop. A hit deals one card to the player and, if that
      busts the hand, takes the bet and ends the turn; a stay ends the turn
      with the hand as it is; any other line is ignored. The result is the
      state, whether the player busted, and the unread lines. Only the deck,
      the player's hand and the wallet change; the wallet loses the bet
      exactly when the turn ends in a bust. */
  function PlayerTurn(g: State, bet: real, moves: seq<string>): (r: Result<(State, bool, seq<string>)>)
    requires Consistent(g.player)
    ensures r.Err? ==> r.failure in {EndOfInput, DeckExhausted}
    ensures r.Ok? ==> |r.value.2| < |moves|
    ensures r.Ok? ==>
              var (g', busted, _) := r.value;
              && g' == g.(deck := g'.deck, player := g'.player, wallet := g'.wallet)
              && Consistent(g'.player)
              && g'.wallet == (if busted then g.wallet - bet else g.wallet)
              && (busted ==> IsBust(g'.player))
              && (!busted && !IsBust(g.player) ==> !IsBust(g'.player))
    decreases |moves|
  {
    if |moves| == 0 then Err(EndOfInput)
    else match ReadMove(moves[0])
      case Stay => Ok((g, false, moves[1..]))
      case Invalid => PlayerTurn(g, bet, moves[1..])
      case Hit =>
        var (deck, player) :- DealCards(g.deck, 1, g.player);
        var g' := g.(deck := deck, player := player);
        if IsBust(player) then Ok((g'.(wallet := g.wallet - bet), true, moves[1..]))
        else PlayerTurn(g', bet, moves[1..])
  }

  /** The player's turn after its first line: a stay ends it, any other
      line but a hit is skipped, and a hit that does not bust goes on from
      the dealt state. */
  lemma PlayerTurnStep(g: State, bet: real, moves: seq<string>)
    requires Consistent(g.player) && |moves| > 0
    ensures ReadMove(moves[0]) == Stay ==> PlayerTurn(g, bet, moves) == Ok((g, false, moves[1..]))
    ensures ReadMove(moves[0]) == Hit && |g.deck| == 0 ==> PlayerTurn(g, bet, moves) == Err(DeckExhausted)
    ensures ReadMove(moves[0]) == Invalid ==> PlayerTurn(g, bet, moves) == PlayerTurn(g, bet, moves[1..])
    ensures ReadMove(moves[0]) == Hit && |g.deck| > 0 ==>
              var g1 := g.(deck := g.deck[..|g.deck| - 1],
                           player := Recount(g.player.(cards := g.player.cards + [g.deck[|g.deck| - 1]])));
              PlayerTurn(g, bet, moves) ==
                if IsBust(g1.player) then Ok((g1.(wallet := g.wallet - bet), true, moves[1..]))
                else PlayerTurn(g1, bet, moves[1..])
  {
    if |g.deck| > 0 {
      DealOne(g.deck, g.player);
    }
  }

  /** A finished player turn reads its lines from the front: what is left
      unread is what follows the lines read. */
  lemma {:induction false} PlayerTurnReadsInOrder(g: State, bet: real, moves: seq<string>)
    requires Consistent(g.player)
    requires PlayerTurn(g, bet, moves).Ok?
    ensures var rest := PlayerTurn(g, bet, moves).value.2;
            rest == moves[|moves| - |rest|..]
    decreases |moves|
  {
    PlayerTurnStep(g, bet, moves);
    var m := ReadMove(moves[0]);
    if m == Invalid {
      PlayerTurnReadsInOrder(g, bet, moves[1..]);
    } else if m == Hit {
      var top := g.deck[|g.deck| - 1];
      var g1 := g.(deck := g.deck[..|g.deck| - 1],
                   player := Recount(g.player.(cards := g.player.cards + [top])));
      if !IsBust(g1.player) {
        PlayerTurnReadsInOrder(g1, bet, moves[1..]);
      }
    }
  }

  /** The cards in a finished player turn: the player's hand gains some of
      the deck's last cards, in the order they are popped. */
  lemma {:induction false} PlayerTurnDealsFromDeck(g: State, bet: real, moves: seq<string>)
    requires Consistent(g.player)
    requires PlayerTurn(g, bet, moves).Ok?
    ensures var g' := PlayerTurn(g, bet, moves).value.0;
            Drawn(g.deck, g.player.cards, g'.deck, g'.player.cards)
    decreases |moves|
  {
    PlayerTurnStep(g, bet, moves);
    var m := ReadMove(moves[0]);
    if m == Stay {
      DrawnNothing(g.deck, g.player.cards);
    } else if m == Invalid {
      PlayerTurnDealsFromDeck(g, bet, moves[1..]);
    } else {
      var top := g.deck[|g.deck| - 1];
      var g1 := g.(deck := g.deck[..|g.deck| - 1],
                   player := Recount(g.player.(cards := g.player.cards + [top])));
      DrawnOne(g.deck, g.player.cards);
      if !IsBust(g1.player) {
        PlayerTurnDealsFromDeck(g1, bet, moves[1..]);
        var g' := PlayerTurn(g, bet, moves).value.0;
        DrawnTransitive(g.deck, g.player.cards, g1.deck, g1.player.cards, g'.deck, g'.player.cards);
      }
    }
  }

  /** The lines a finished player turn read: the hand gains one card per
      hit among them, that is the hits in all the lines less the hits in the
      lines left unread. */
  lemma {:induction false} PlayerTurnCountsHits(g: State, bet: real, moves: seq<string>)
    requires Consistent(g.player)
    requires PlayerTurn(g, bet, moves).Ok?
    ensures var t := PlayerTurn(g, bet, moves).value;
            |t.0.player.cards| == |g.player.cards| + Hits(moves) - Hits(t.2)
    decreases |moves|
  {
    PlayerTurnStep(g, bet, moves);
    var m := ReadMove(moves[0]);
    if m == Invalid {
      PlayerTurnCountsHits(g, bet, moves[1..]);
    } else if m == Hit {
      var top := g.deck[|g.deck| - 1];
      var g1 := g.(deck := g.deck[..|g.deck| - 1],
                   player := Recount(g.player.(cards := g.player.cards + [top])));
      if !IsBust(g1.player) {
        PlayerTurnCountsHits(g1, bet, moves[1..]);
      }
    }
  }

  /** A player who starts the turn with a hand that has not busted, and a
      deck that together with the hand holds at least 50 cards, never runs
      the deck dry: a failing turn ran out of input. */
  lemma {:induction false} PlayerTurnHasCards(g: State, bet: real, moves: seq<string>)
    requires Consistent(g.player) && !IsBust(g.player)
    requires |g.deck| + |g.player.cards| >= 50
    ensures PlayerTurn(g, bet, moves).Err? ==> PlayerTurn(g, bet, moves).failure == EndOfInput
    decreases |moves|
  {
    if |moves| > 0 {
      match ReadMove(moves[0])
      case Stay =>
      case Invalid =>
        PlayerTurnHasCards(g, bet, moves[1..]);
      case Hit =>
        NotBustIsSmall(g.player);
        DealOne(g.deck, g.player);
        var (deck, player) := DealCards(g.deck, 1, g.player).value;
        if !IsBust(player) {
          PlayerTurnHasCards(g.(deck := deck, player := player), bet, moves[1..]);
        }
    }
  }

  /** The dealer draws one card at a time while the stored sum is below 17,
      and then stands at 17 or more; a dealer already at 17 draws nothing.
      Only the deck and the dealer's hand change. */
  function DealerTurn(g: State): (r: Result<State>)
    requires Consistent(g.dealer)
    ensures r.Err? ==> r.failure == DeckExhausted
    ensures g.dealer.sum >= 17 ==> r == Ok(g)
    ensures r.Ok? ==>
              && r.value == g.(deck := r.value.deck, dealer := r.value.dealer)
              && r.value.dealer.sum >= 17
              && Consistent(r.value.dealer)
    decreases |g.deck|
  {
    if g.dealer.sum < 17 then
      var (deck, dealer) :- DealCards(g.deck, 1, g.dealer);
      DealerTurn(g.(deck := deck, dealer := dealer))
    else Ok(g)
  }

  /** One draw of the dealer: below 17 the dealer takes the deck's last
      card and carries on from there. */
  lemma DealerTurnStep(g: State)
    requires Consistent(g.dealer) && g.dealer.sum < 17 && |g.deck| > 0
    ensures DealerTurn(g) ==
              DealerTurn(g.(deck := g.deck[..|g.deck| - 1],
                            dealer := Recount(g.dealer.(cards := g.dealer.cards + [g.deck[|g.deck| - 1]]))))
  {
    DealOne(g.deck, g.dealer);
  }

  /** The dealer's draws: the dealer's hand gains some of the deck's last
      cards, in the order they are popped. */
  lemma {:induction false} DealerTurnDealsFromDeck(g: State)
    requires Consistent(g.dealer)
    requires DealerTurn(g).Ok?
    ensures var g' := DealerTurn(g).value;
            Drawn(g.deck, g.dealer.cards, g'.deck, g'.dealer.cards)
    decreases |g.deck|
  {
    if g.dealer.sum < 17 {
      var top := g.deck[|g.deck| - 1];
      var g1 := g.(deck := g.deck[..|g.deck| - 1],
                   dealer := Recount(g.dealer.(cards := g.dealer.cards + [top])));
      DealerTurnStep(g);
      DrawnOne(g.deck, g.dealer.cards);
      DealerTurnDealsFromDeck(g1);
      var g' := DealerTurn(g).value;
      DrawnTransitive(g.deck, g.dealer.cards, g1.deck, g1.dealer.cards, g'.deck, g'.dealer.cards);
    } else {
      DrawnNothing(g.deck, g.dealer.cards);
    }
  }

  /** A dealer below 17 holds fewer than 17 cards, so a deck that together
      with the dealer's hand holds 17 cards or more is never run dry. */
  lemma {:induction false} DealerTurnHasCards(g: State)
    requires Consistent(g.dealer)
    requires |g.deck| + |g.dealer.cards| >= 17
    ensures DealerTurn(g).Ok?
    decreases |g.deck|
  {
    if g.dealer.sum < 17 {
      AcesAtMostRawSum(g.dealer.cards);
      DealOne(g.deck, g.dealer);
      var (deck, dealer) := DealCards(g.deck, 1, g.dealer).value;
      DealerTurnHasCards(g.(deck := deck, dealer := dealer));
    }
  }

  /** The showdown: a dealer bust pays the bet; otherwise equal sums are a
      push, and the higher sum wins the bet. */
  function Showdown(g: State, bet: real): (r: (State, Outcome))
    ensures r.0 == g.(wallet := r.0.wallet)
    ensures r.0.wallet == g.wallet + Payoff(r.1, bet, g.rules.blackjackPayout)
    ensures AfterDealerTurn(r.1)
    ensures r.1 == DealerBust <==> IsBust(g.dealer)
    ensures r.1 == Push <==> !IsBust(g.dealer) && g.dealer.sum == g.player.sum
    ensures r.1 == DealerWins <==> !IsBust(g.dealer) && g.dealer.sum > g.player.sum
    ensures r.1 == PlayerWins <==> !IsBust(g.dealer) && g.dealer.sum < g.player.sum
  {
    if IsBust(g.dealer) then (g.(wallet := g.wallet + bet), DealerBust)
    else if g.dealer.sum == g.player.sum then (g, Push)
    else if g.dealer.sum > g.player.sum then (g.(wallet := g.wallet - bet), DealerWins)
    else (g.(wallet := g.wallet + bet), PlayerWins)
  }

  /** Ending a round: the continue prompt decides the play-again flag. */
  function Finish(g: State, input: Inputs, o: Outcome): (r: Result<RoundEnd>)
    ensures r.Err? ==> r.failure == EndOfInput
    ensures r.Ok? ==> r.value.state == g.(playAgain := r.value.state.playAgain)
    ensures r.Ok? ==> r.value.rest == input.(answers := r.value.rest.answers)
    ensures r.Ok? ==> |r.value.rest.answers| < |input.answers|
    ensures r.Ok? ==> r.value.outcome == o
  {
    var (again, answers) :- GoToNextRound(input.answers);
    Ok(RoundEnd(g.(playAgain := again), input.(answers := answers), o))
  }

  /** The hand as the round deals it: two consistent cards each, 48 left in
      the deck, and not both blackjack. */
  predicate FreshDeal(g: State)
  {
    && Consistent(g.player) && Consistent(g.dealer)
    && |g.player.cards| == 2 && |g.dealer.cards| == 2 && |g.deck| == 48
    && !CheckIfBothBlackjack(g)
  }

  /** Everything after an accepted bet: the single-blackjack settlement, the
      player's turn, the dealer's turn and the showdown, then the prompt.
      The wallet moves by the payoff of the outcome and nothing else but the
      cards and the play-again flag changes; the deck never runs dry. */
  function PlayHand(g: State, bet: real, input: Inputs): (r: Result<RoundEnd>)
    requires FreshDeal(g)
    ensures r.Err? ==> r.failure == EndOfInput
    ensures r.Ok? ==>
              && r.value.state.rules == g.rules && r.value.state.bet == g.bet
              && r.value.state.wallet == g.wallet + Payoff(r.value.outcome, bet, g.rules.blackjackPayout)
              && r.value.outcome !in {InsufficientFunds, BothBlackjack}
              && r.value.rest.shuffles == input.shuffles && r.value.rest.bets == input.bets
              && |r.value.rest.answers| < |input.answers|
  {
    match CheckIfEitherBlackjack(g, bet)
    case Some((g', o)) => Finish(g', input, o)
    case None =>
      TwoCardsNeverBust(g.player);
      PlayerTurnHasCards(g, bet, input.moves);
      var (g', busted, moves) :- PlayerTurn(g, bet, input.moves);
      var input' := input.(moves := moves);
      if busted then Finish(g', input', PlayerBust)
      else
        DealerCanDraw(g, bet, input.moves);
        var (g'', o) := Showdown(DealerTurn(g').value, bet);
        Finish(g'', input', o)
  }

  /** A player who stays with a hand dealt as the round deals it leaves the
      dealer enough cards to reach 17. */
  lemma DealerCanDraw(g: State, bet: real, moves: seq<string>)
    requires Consistent(g.player) && Consistent(g.dealer) && !IsBust(g.player)
    requires |g.deck| + |g.player.cards| >= 50
    requires PlayerTurn(g, bet, moves).Ok? && !PlayerTurn(g, bet, moves).value.1
    ensures DealerTurn(PlayerTurn(g, bet, moves).value.0).Ok?
  {
    var g' := PlayerTurn(g, bet, moves).value.0;
    PlayerTurnDealsFromDeck(g, bet, moves);
    DrawnKeepsCards(g.deck, g.player.cards, g'.deck, g'.player.cards);
    NotBustIsSmall(g'.player);
    DealerTurnHasCards(g');
  }

  /** How a hand played after the bet can end. A dealer blackjack is
      reported exactly when the dealer was dealt one, checked first; a player
      blackjack only when the player was dealt one; every other outcome
      means neither was. A player who reaches the dealer's turn has not
      busted and the dealer stands at 17 or more; a player bust is a bust. */
  lemma PlayHandOutcome(g: State, bet: real, input: Inputs)
    requires FreshDeal(g)
    requires PlayHand(g, bet, input).Ok?
    ensures var e := PlayHand(g, bet, input).value;
            && (e.outcome == DealerBlackjack <==> IsBlackjack(g.dealer))
            && (e.outcome == PlayerBlackjack ==> IsBlackjack(g.player))
            && (e.outcome !in {DealerBlackjack, PlayerBlackjack} ==>
                  !IsBlackjack(g.dealer) && !IsBlackjack(g.player))
            && (AfterDealerTurn(e.outcome) ==> !IsBust(e.state.player) && e.state.dealer.sum >= 17)
            && (e.outcome == PlayerBust ==> IsBust(e.state.player))
  {
    if CheckIfEitherBlackjack(g, bet).None? {
      var t := PlayerTurn(g, bet, input.moves).value;
      if !t.1 {
        TwoCardsNeverBust(g.player);
        DealerCanDraw(g, bet, input.moves);
      }
    }
  }

  /** Where the cards of a hand played after the bet come from: the hands
      as dealt when a blackjack settles it, the player's turn when the
      player busts, and the dealer's turn after that otherwise. */
  lemma PlayHandCards(g: State, bet: real, input: Inputs)
    requires FreshDeal(g)
    requires PlayHand(g, bet, input).Ok?
    ensures var g' := PlayHand(g, bet, input).value.state;
            if CheckIfEitherBlackjack(g, bet).Some? then
              g'.deck == g.deck && g'.player == g.player && g'.dealer == g.dealer
            else
              var t := PlayerTurn(g, bet, input.moves).value;
              && t.0.dealer == g.dealer && Consistent(t.0.player)
              && (t.1 ==> g'.deck == t.0.deck && g'.player == t.0.player && g'.dealer == g.dealer)
              && (!t.1 ==> DealerTurn(t.0).Ok?
                           && g'.deck == DealerTurn(t.0).value.deck
                           && g'.player == t.0.player
                           && g'.dealer == DealerTurn(t.0).value.dealer)
  {
    if CheckIfEitherBlackjack(g, bet).None? {
      var t := PlayerTurn(g, bet, input.moves).value;
      if !t.1 {
        TwoCardsNeverBust(g.player);
        DealerCanDraw(g, bet, input.moves);
      }
    }
  }

  /** Both hands of a hand played after the bet keep their dealt cards and
      stay consistent. */
  lemma PlayHandKeepsDealtCards(g: State, bet: real, input: Inputs)
    requires FreshDeal(g)
    requires PlayHand(g, bet, input).Ok?
    ensures var g' := PlayHand(g, bet, input).value.state;
            && Consistent(g'.player) && Consistent(g'.dealer)
            && |g'.player.cards| >= 2 && g'.player.cards[..2] == g.player.cards
            && |g'.dealer.cards| >= 2 && g'.dealer.cards[..2] == g.dealer.cards
  {
    PlayHandCards(g, bet, input);
    if CheckIfEitherBlackjack(g, bet).None? {
      var t := PlayerTurn(g, bet, input.moves).value;
      PlayerTurnDealsFromDeck(g, bet, input.moves);
      DrawnKeepsCards(g.deck, g.player.cards, t.0.deck, t.0.player.cards);
      if !t.1 {
        DealerTurnDealsFromDeck(t.0);
        var d := DealerTurn(t.0).value;
        DrawnKeepsCards(t.0.deck, t.0.dealer.cards, d.deck, d.dealer.cards);
      }
    }
  }

  /** The cards in play: the deck and both hands. */
  function CardsInPlay(g: State): multiset<Card>
  {
    multiset(g.deck) + multiset(g.player.cards) + multiset(g.dealer.cards)
  }

  /** The player's turn neither loses nor copies a card in play. */
  lemma PlayerTurnConservesCards(g: State, bet: real, moves: seq<string>)
    requires Consistent(g.player)
    requires PlayerTurn(g, bet, moves).Ok?
    ensures CardsInPlay(PlayerTurn(g, bet, moves).value.0) == CardsInPlay(g)
  {
    var g' := PlayerTurn(g, bet, moves).value.0;
    PlayerTurnDealsFromDeck(g, bet, moves);
    DrawnKeepsCards(g.deck, g.player.cards, g'.deck, g'.player.cards);
    Regroup(g.deck, g.player.cards, g.dealer.cards, g'.deck, g'.player.cards, g'.dealer.cards);
  }

  /** The dealer's turn neither loses nor copies a card in play. */
  lemma DealerTurnConservesCards(g: State)
    requires Consistent(g.dealer)
    requires DealerTurn(g).Ok?
    ensures CardsInPlay(DealerTurn(g).value) == CardsInPlay(g)
  {
    var g' := DealerTurn(g).value;
    DealerTurnDealsFromDeck(g);
    DrawnKeepsCards(g.deck, g.dealer.cards, g'.deck, g'.dealer.cards);
    Regroup(g.deck, g.dealer.cards, g.player.cards, g'.deck, g'.dealer.cards, g'.player.cards);
  }

  /** Cards moving between two places leave a third place's cards and the
      total alone. */
  lemma Regroup(a: seq<Card>, b: seq<Card>, c: seq<Card>, a': seq<Card>, b': seq<Card>, c': seq<Card>)
    requires multiset(a') + multiset(b') == multiset(a) + multiset(b)
    requires c' == c
    ensures multiset(a') + multiset(b') + multiset(c') == multiset(a) + multiset(b) + multiset(c)
    ensures multiset(a') + multiset(c') + multiset(b') == multiset(a) + multiset(c) + multiset(b)
  {
    assert multiset(a') + multiset(c') + multiset(b') == multiset(a') + multiset(b') + multiset(c');
    assert multiset(a) + multiset(c) + multiset(b) == multiset(a) + multiset(b) + multiset(c);
  }

  /** No card is lost or copied in a hand played after the bet: the deck
      and both hands hold the same cards between them as when dealt. */
  lemma PlayHandConservesCards(g: State, bet: real, input: Inputs)
    requires FreshDeal(g)
    requires PlayHand(g, bet, input).Ok?
    ensures CardsInPlay(PlayHand(g, bet, input).value.state) == CardsInPlay(g)
  {
    var g' := PlayHand(g, bet, input).value.state;
    PlayHandCards(g, bet, input);
    if CheckIfEitherBlackjack(g, bet).None? {
      var t := PlayerTurn(g, bet, input.moves).value;
      PlayerTurnConservesCards(g, bet, input.moves);
      if !t.1 {
        DealerTurnConservesCards(t.0);
      }
    }
  }

  /** One round, `start_game`. A player who cannot cover the minimum bet
      ends the game with nothing dealt and nothing read; otherwise a deal
      from the next shuffled deck, the double-blackjack push before any bet,
      then the bet and the hand. The deck never runs dry. */
  function StartGame(g: State, input: Inputs): (r: Result<RoundEnd>)
    requires |input.shuffles| > 0 ==> IsShuffle(input.shuffles[0])
    ensures CheckIfCantBet(g) ==> r == Ok(RoundEnd(g.(playAgain := false), input, InsufficientFunds))
    ensures r.Err? ==> r.failure == EndOfInput || (r.failure == NoShuffle && |input.shuffles| == 0)
    ensures r.Ok? && !CheckIfCantBet(g) ==>
              && |input.shuffles| > 0 && r.value.rest.shuffles == input.shuffles[1..]
              && |r.value.rest.answers| < |input.answers|
              && r.value.state.rules == g.rules
              && r.value.outcome != InsufficientFunds
  {
    if CheckIfCantBet(g) then Ok(RoundEnd(g.(playAgain := false), input, InsufficientFunds))
    else if |input.shuffles| == 0 then Err(NoShuffle)
    else
      var g1 := DealNewHand(g, input.shuffles[0]);
      var input1 := input.(shuffles := input.shuffles[1..]);
      if CheckIfBothBlackjack(g1) then Finish(g1, input1, BothBlackjack)
      else
        var (bet, bets) :- GetPlayerBet(g1.rules, g1.wallet, input1.bets);
        PlayHand(g1.(bet := Some(bet)), bet, input1.(bets := bets))
  }

  /** The money in a round that passed the gate. A double blackjack is a
      push that reads no bet and no move and keeps the wallet; any other
      round records a bet from the minimum up to the wallet, and the wallet
      moves by exactly that outcome's payoff on it. */
  lemma StartGameSettles(g: State, input: Inputs)
    requires |input.shuffles| > 0 ==> IsShuffle(input.shuffles[0])
    requires !CheckIfCantBet(g) && StartGame(g, input).Ok?
    ensures var e := StartGame(g, input).value;
            && (e.outcome == BothBlackjack ==>
                  && e.state.wallet == g.wallet && e.state.bet == g.bet
                  && e.rest.bets == input.bets && e.rest.moves == input.moves)
            && (e.outcome != BothBlackjack ==>
                  && e.state.bet.Some?
                  && g.rules.minBet <= e.state.bet.value <= g.wallet
                  && e.state.wallet == g.wallet + Payoff(e.outcome, e.state.bet.value, g.rules.blackjackPayout))
  {
    var g1 := DealNewHand(g, input.shuffles[0]);
    DealNewHandUsesOneDeck(g, input.shuffles[0]);
    var input1 := input.(shuffles := input.shuffles[1..]);
    if CheckIfBothBlackjack(g1) {
      assert StartGame(g, input) == Finish(g1, input1, BothBlackjack);
    } else {
      var (bet, bets) := GetPlayerBet(g1.rules, g1.wallet, input1.bets).value;
      assert StartGame(g, input) == PlayHand(g1.(bet := Some(bet)), bet, input1.(bets := bets));
    }
  }

  /** The deal and bet of a round that passed the gate, when the round goes
      on to the hand: the state dealt from the first shuffle with the
      accepted bet recorded. */
  function BetPlaced(g: State, input: Inputs): (r: Option<(State, real, Inputs)>)
    requires |input.shuffles| > 0 && IsShuffle(input.shuffles[0])
    ensures r.Some? ==> FreshDeal(r.value.0) && r.value.0.bet == Some(r.value.1)
  {
    var g1 := DealNewHand(g, input.shuffles[0]);
    DealNewHandUsesOneDeck(g, input.shuffles[0]);
    if CheckIfBothBlackjack(g1) then None
    else match GetPlayerBet(g1.rules, g1.wallet, input.bets)
      case Err(_) => None
      case Ok((bet, bets)) =>
        Some((g1.(bet := Some(bet)), bet, input.(shuffles := input.shuffles[1..], bets := bets)))
  }

  /** A round that passed the gate ends in a double blackjack right after the
      deal, or goes through the bet to the hand. */
  lemma StartGameShape(g: State, input: Inputs)
    requires |input.shuffles| > 0 ==> IsShuffle(input.shuffles[0])
    requires !CheckIfCantBet(g) && StartGame(g, input).Ok?
    ensures |input.shuffles| > 0
    ensures var e := StartGame(g, input).value;
            if e.outcome == BothBlackjack then
              e.state == DealNewHand(g, input.shuffles[0]).(playAgain := e.state.playAgain)
            else
              var b := BetPlaced(g, input);
              b.Some? && PlayHand(b.value.0, b.value.1, b.value.2) == Ok(e)
  {
  }

  /** The cards in a round that passed the gate: both hands consistent, the
      deck and the hands together exactly the 52 cards. */
  lemma StartGameConservesCards(g: State, input: Inputs)
    requires |input.shuffles| > 0 ==> IsShuffle(input.shuffles[0])
    requires !CheckIfCantBet(g) && StartGame(g, input).Ok?
    ensures var g' := StartGame(g, input).value.state;
            && Consistent(g'.player) && Consistent(g'.dealer)
            && CardsInPlay(g') == multiset(OrderedDeck())
  {
    StartGameShape(g, input);
    DealNewHandUsesOneDeck(g, input.shuffles[0]);
    var b := BetPlaced(g, input);
    if b.Some? && StartGame(g, input).value.outcome != BothBlackjack {
      PlayHandKeepsDealtCards(b.value.0, b.value.1, b.value.2);
      PlayHandConservesCards(b.value.0, b.value.1, b.value.2);
    }
  }

  /** A round that reached the dealer's turn started with neither two-card
      hand worth 21, and ends with the player at 21 or under and the dealer
      at 17 or more. */
  lemma StartGameDealerStands(g: State, input: Inputs)
    requires |input.shuffles| > 0 ==> IsShuffle(input.shuffles[0])
    requires !CheckIfCantBet(g) && StartGame(g, input).Ok?
    requires AfterDealerTurn(StartGame(g, input).value.outcome)
    ensures var g' := StartGame(g, input).value.state;
            && |g'.player.cards| >= 2 && Total(g'.player.cards[..2]) != 21
            && |g'.dealer.cards| >= 2 && Total(g'.dealer.cards[..2]) != 21
            && Total(g'.player.cards) <= 21 && Total(g'.dealer.cards) >= 17
  {
    StartGameShape(g, input);
    var b := BetPlaced(g, input).value;
    PlayHandOutcome(b.0, b.1, b.2);
    PlayHandKeepsDealtCards(b.0, b.1, b.2);
  }

  /** With a non-negative minimum bet and payout, a round never takes the
      wallet below zero: a losing bet is at most the wallet. */
  lemma RoundKeepsWalletNonNegative(g: State, input: Inputs)
    requires SaneRules(g.rules) && g.wallet >= 0.0
    requires |input.shuffles| > 0 ==> IsShuffle(input.shuffles[0])
    requires StartGame(g, input).Ok?
    ensures StartGame(g, input).value.state.wallet >= 0.0
  {
    if !CheckIfCantBet(g) {
      StartGameSettles(g, input);
      var e := StartGame(g, input).value;
      if e.outcome != BothBlackjack {
        PayoffAtLeastLoss(e.outcome, e.state.bet.value, g.rules.blackjackPayout);
      }
    }
  }

  /** No outcome costs more than the bet when the payout ratio is not negative. */
  lemma PayoffAtLeastLoss(o: Outcome, bet: real, payout: real)
    requires bet >= 0.0 && payout >= 0.0
    ensures Payoff(o, bet, payout) >= -bet
  {
    if o == PlayerBlackjack {
      assert bet * payout >= 0.0;
    }
  }

  /** Every supplied deck order is a shuffle of the 52 cards. */
  predicate AllShuffles(shuffles: seq<seq<Card>>)
  {
    forall i :: 0 <= i < |shuffles| ==> IsShuffle(shuffles[i])
  }

  /** `play`: rounds are played while the play-again flag is set. The game
      ends only with the flag cleared, under the same rules, and never on a
      deck that ran dry. */
  function Play(g: State, input: Inputs): (r: Result<(State, Inputs)>)
    requires AllShuffles(input.shuffles)
    ensures r.Ok? ==> !r.value.0.playAgain && r.value.0.rules == g.rules
    ensures r.Err? ==> r.failure != DeckExhausted
    decreases |input.answers|, if g.playAgain then 1 else 0
  {
    if !g.playAgain then Ok((g, input))
    else
      var e :- StartGame(g, input);
      Play(e.state, e.rest)
  }

  /** A player who cannot cover the minimum bet at the start of a round
      ends the game on the spot: nothing is dealt and no input is read. */
  lemma PlayStopsWhenBroke(g: State, input: Inputs)
    requires AllShuffles(input.shuffles)
    requires g.playAgain && CheckIfCantBet(g)
    ensures Play(g, input) == Ok((g.(playAgain := false), input))
  {
  }

  /** Over a whole game, with a non-negative minimum bet and payout, a
      wallet that starts at zero or more never goes below zero. */
  lemma {:induction false} PlayKeepsWalletNonNegative(g: State, input: Inputs)
    requires AllShuffles(input.shuffles)
    requires SaneRules(g.rules) && g.wallet >= 0.0
    requires Play(g, input).Ok?
    ensures Play(g, input).value.0.wallet >= 0.0
    decreases |input.answers|, if g.playAgain then 1 else 0
  {
    if g.playAgain {
      RoundKeepsWalletNonNegative(g, input);
      var e := StartGame(g, input).value;
      PlayKeepsWalletNonNegative(e.state, e.rest);
    }
  }
}
