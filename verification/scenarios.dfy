/** Worked rounds of each game, starting from the page as it loads. */
module Scenarios {
  import opened Options
  import opened Cards
  import opened Scoring
  import opened Table
  import opened Blackjack
  import opened Mines
  import opened Wagers
  import opened Session

  /** Player 10+7 against dealer 6+5, the eight on top of the deck, 1000 bet. */
  const StandOnSeventeen: State :=
    Initial().(balance := 39000,
               player := [Card(Spades, Pip(10)), Card(Hearts, Pip(7))],
               dealer := [Card(Clubs, Pip(6)), Card(Diamonds, Pip(5))],
               deck := [Card(Spades, Pip(2)), Card(Hearts, Pip(8))],
               currentBet := 1000, phase := PlayerTurn)

  /** Player 10+7 stands on 17 against a dealer 6+5 who draws an 8 to 19:
      the dealer wins and the 1000 debited at the deal stays lost. */
  lemma {:induction false} DealerBeatsSeventeen() returns (t: State)
    ensures PlayerStand(StandOnSeventeen) == Ok(t)
    ensures t.balance == 39000 && HandTotal(t.dealer) == 19
  {
    var s := StandOnSeventeen;
    var dealer := s.dealer + [s.deck[1]];
    DealerDrawsEight(s.dealer, s.deck);
    PairTotal(s.player);
    t := StandSettles(s, dealer, [s.deck[0]]);
  }

  /** The dealer stands on a soft 17: ace and six draw nothing, even from
      an empty deck. */
  lemma {:induction false} DealerStandsOnSoft17(hand: seq<Card>)
    requires hand == [Card(Spades, Ace), Card(Spades, Pip(6))]
    ensures HandTotal(hand) == 17
    ensures DealerPlay(hand, []) == Stood(hand, [])
  {
    PairTotal(hand);
  }

  /** A stand, in the player's turn, after which the dealer stands on `dealer`
      settles with Payout on that hand. */
  lemma {:induction false} StandSettles(s: State, dealer: seq<Card>, deck: seq<Card>) returns (t: State)
    ensures s.phase == PlayerTurn && DealerPlay(s.dealer, s.deck) == Stood(dealer, deck) ==>
      && PlayerStand(s) == Ok(t)
      && t.balance == s.balance + Payout(HandTotal(s.player), HandTotal(dealer), s.currentBet)
      && t.dealer == dealer
  {
    var r := PlayerStand(s);
    if s.phase == PlayerTurn && DealerPlay(s.dealer, s.deck) == Stood(dealer, deck) {
      assert CanDrawOut(s.dealer, s.deck);
      t := r.state;
      DealerFindsDrawOut(s.dealer, s.deck, t.dealer, t.deck);
    } else {
      t := s;
    }
  }

  /** The dealer's 11 takes the eight on top of the deck and stands on 19. */
  lemma {:induction false} DealerDrawsEight(dealer: seq<Card>, deck: seq<Card>)
    requires dealer == StandOnSeventeen.dealer && deck == StandOnSeventeen.deck
    ensures DealerPlay(dealer, deck) == Stood(dealer + [deck[1]], [deck[0]])
    ensures HandTotal(dealer + [deck[1]]) == 19
  {
    PairTotal(dealer);
    NoAcesTotal(dealer + [deck[1]], 19);
  }

  /** Shuffle draws that leave every card of the deck where it is. */
  const Unshuffled: seq<int> := seq(DeckSize, k => k)

  /** A deal from a fresh deck whose shuffle draws leave every card in place:
      the player gets the last two cards (ace and king of clubs, 21), the
      dealer the two before them (queen and jack of clubs, 20). The dealer
      stands on 20 and the player's 21 wins twice the bet back. */
  lemma {:induction false} DealFromUnshuffledDeck() returns (s: State, t: State)
    ensures SwapIndices(Unshuffled, DeckSize) && s == StartGame(Initial(), 1000, Unshuffled)
    ensures s.player == [Card(Clubs, Ace), Card(Clubs, King)]
    ensures s.dealer == [Card(Clubs, Queen), Card(Clubs, Jack)]
    ensures |s.deck| == 48
    ensures PlayerStand(s) == Ok(t) && t.dealer == s.dealer && t.balance == 41000
  {
    var d := UnshuffledEnd(Unshuffled);
    s := StartGame(Initial(), 1000, Unshuffled);
    var tail := [s.dealer[1], s.dealer[0], s.player[1], s.player[0]];
    assert tail == d[48..] by {
      assert |s.deck| == 48 && s.deck + tail == d;
      assert d[48..] == (s.deck + tail)[48..];
    }
    PairTotal(s.player);
    PairTotal(s.dealer);
    assert DealerPlay(s.dealer, s.deck) == Stood(s.dealer, s.deck);
    t := StandSettles(s, s.dealer, s.deck);
  }

  /** Draws that leave every card in place end the shuffled deck with the
      jack, queen, king and ace of clubs. */
  lemma {:induction false} UnshuffledEnd(swaps: seq<int>) returns (d: seq<Card>)
    requires |swaps| == DeckSize && forall k :: 0 <= k < DeckSize ==> swaps[k] == k
    ensures SwapIndices(swaps, DeckSize) && d == Shuffle(CreateDeck(), swaps)
    ensures d[48..] == [Card(Clubs, Jack), Card(Clubs, Queen), Card(Clubs, King), Card(Clubs, Ace)]
  {
    var deck := CreateDeck();
    StayPut(deck, swaps, DeckSize - 1);
    d := Shuffle(deck, swaps);
    assert d == deck;
    assert d[51] == Card(Clubs, Ace) && d[50] == Card(Clubs, King);
    assert d[49] == Card(Clubs, Queen) && d[48] == Card(Clubs, Jack);
  }

  /** The soft total and the ace count of a two-card hand. */
  lemma {:induction false} PairTotal(hand: seq<Card>)
    requires |hand| == 2
    ensures SoftTotal(hand) == CardValue(hand[0]) + CardValue(hand[1])
    ensures AceCount(hand) == AceWeight(hand[0]) + AceWeight(hand[1])
  {
    PairSum(hand, CardValue);
    PairSum(hand, AceWeight);
  }

  lemma {:induction false} PairSum(hand: seq<Card>, f: Card -> int)
    requires |hand| == 2
    ensures Sum(hand, f) == f(hand[0]) + f(hand[1])
  {
    var first := hand[..1];
    assert first == [hand[0]] && first[..0] == [];
    assert Sum(first, f) == f(hand[0]);
  }

  /** A hand of pip cards totals the sum of its pips. */
  lemma {:induction false} NoAcesTotal(hand: seq<Card>, pips: int)
    requires forall k :: 0 <= k < |hand| ==> hand[k].rank.Pip?
    requires pips == Sum(hand, CardValue)
    ensures HandTotal(hand) == pips
  {
    NoAces(hand);
  }

  lemma {:induction false} NoAces(hand: seq<Card>)
    requires forall k :: 0 <= k < |hand| ==> hand[k].rank.Pip?
    ensures AceCount(hand) == 0
    decreases |hand|
  {
    if hand != [] {
      NoAces(hand[..|hand| - 1]);
    }
  }

  /** 1000 on 3 mines pays 500 a cell: two safe cells and a cash-out bring
      the balance back to 40000. */
  lemma {:induction false} TwoSafeCellsThenCashOut()
    ensures
      var start := StartMinesGame(Initial(), 1000, [0, 1, 2]);
      && start.Ok?
      && var r := CashOut(RevealMine(RevealMine(start.state, 5), 6));
      && r.balance == 40000 && r.revealed == 2 && !r.minesActive
  {
    MinesOpening();
    var s4 := TwoRevealsAndCashOut(StartMinesGame(Initial(), 1000, [0, 1, 2]).state);
  }

  lemma {:induction false} TwoRevealsAndCashOut(s1: State) returns (s4: State)
    requires s1 == Initial().(minesBet := 1000, balance := 39000, grid := LayGrid([0, 1, 2]),
                              revealed := 0, minesActive := true)
    ensures s4 == CashOut(RevealMine(RevealMine(s1, 5), 6))
    ensures s4.balance == 40000 && s4.revealed == 2
  {
    assert s1.grid[5] == Safe;
    var s2 := RevealMine(s1, 5);
    assert s2.revealed == 1 && s2.grid[6] == Safe;
    var s3 := RevealMine(s2, 6);
    assert s3.revealed == 2 && s3.minesActive;
    assert CalculateCashout(s3) == 1000;
    s4 := CashOut(s3);
  }

  /** The opening of the mines scenario: mines on cells 0, 1 and 2. */
  lemma {:induction false} MinesOpening()
    ensures StartMinesGame(Initial(), 1000, [0, 1, 2])
      == Ok(Initial().(minesBet := 1000, balance := 39000, grid := LayGrid([0, 1, 2]),
                       revealed := 0, minesActive := true))
  {
    PickFirst();
    assert PlaceMines([0, 1, 2], 3) == Some([0, 1, 2]);
  }

  /** Drawing 0, 1, 2 for three mines keeps all three, one draw at a time. */
  lemma {:induction false} PickFirst()
    ensures PickDistinct([0, 1, 2], [], 3) == Some([0, 1, 2])
  {
    PickSecond();
    assert [] + [0] == [0] && [0, 1, 2][1..] == [1, 2];
  }

  lemma {:induction false} PickSecond()
    ensures PickDistinct([1, 2], [0], 3) == Some([0, 1, 2])
  {
    PickThird();
    assert [0] + [1] == [0, 1] && [1, 2][1..] == [2];
  }

  lemma {:induction false} PickThird()
    ensures PickDistinct([2], [0, 1], 3) == Some([0, 1, 2])
  {
    assert [0, 1] + [2] == [0, 1, 2] && [2][1..] == [];
  }

  /** 500 on heads, heads comes up: +500. 2000 on red, black comes up: -2000. */
  lemma {:induction false} CoinAndRoulette()
    ensures FlipCoin(Initial(), 500, Heads, Heads).balance == 40500
    ensures SpinRoulette(Initial(), 2000, Some(Red), Black).balance == 38000
  {
  }
}
