/** One blackjack round: bet and deal, hit, stand, dealer draws to 17,
    settlement. Cards are drawn from the end of the deck. */
module Blackjack {
  import opened Cards
  import opened Scoring
  import opened Table

  /** The card a draw takes: the last one of the deck. */
  function Top(deck: seq<Card>): Card
    requires deck != []
  {
    deck[|deck| - 1]
  }

  /** The deck after a draw. */
  function Rest(deck: seq<Card>): seq<Card>
    requires deck != []
  {
    deck[..|deck| - 1]
  }

  /** All cards of the round, wherever they are now. */
  function InPlay(s: State): multiset<Card>
  {
    multiset(s.deck) + multiset(s.player) + multiset(s.dealer)
  }

  /** The buttons go back to Deal enabled, Hit and Stand disabled. */
  function EndRound(s: State): (r: State)
    ensures r.phase == Betting
  {
    s.(phase := Betting)
  }

  /** Deal: validate the bet, debit it, build and shuffle a fresh deck and
      deal two cards to the player, then two to the dealer. */
  function StartGame(s: State, bet: int, swaps: seq<int>): (r: State)
    requires SwapIndices(swaps, DeckSize)
    ensures s.phase == PlayerTurn || !ValidBet(s.balance, bet) ==> r == s
    ensures s.phase == Betting && ValidBet(s.balance, bet) ==>
      && r.balance == s.balance - bet
      && r.currentBet == bet
      && r.phase == PlayerTurn
      && |r.player| == 2 && |r.dealer| == 2 && |r.deck| == DeckSize - 4
      && r.deck + [r.dealer[1], r.dealer[0], r.player[1], r.player[0]] == Shuffle(CreateDeck(), swaps)
      && InPlay(r) == multiset(CreateDeck())
      && SameMines(r, s)
  {
    if s.phase == PlayerTurn || !ValidBet(s.balance, bet) then s
    else
      var d := Shuffle(CreateDeck(), swaps);
      DealConserves(d);
      s.(balance := s.balance - bet,
         deck := d[..48],
         player := [d[51], d[50]],
         dealer := [d[49], d[48]],
         phase := PlayerTurn,
         currentBet := bet)
  }

  /** Dealing four cards from the end of a deck keeps every card: the
      player's two, then the dealer's two, come off the end in that order. */
  lemma {:induction false} DealConserves(d: seq<Card>)
    requires |d| == DeckSize
    ensures d[..48] + [d[48], d[49], d[50], d[51]] == d
    ensures multiset(d[..48]) + multiset([d[51], d[50]]) + multiset([d[49], d[48]]) == multiset(d)
  {
    assert d == d[..48] + [d[48], d[49]] + [d[50], d[51]];
  }

  /** Hit: the player takes the top card; going over 21 ends the round and
      the bet, already debited, is lost. */
  function PlayerHit(s: State): (r: Step)
    ensures s.phase != PlayerTurn ==> r == Ok(s)
    ensures s.phase == PlayerTurn && s.deck == [] ==> r == DeckExhausted
    ensures s.phase == PlayerTurn && s.deck != [] ==>
      && r.Ok?
      && r.state.player == s.player + [Top(s.deck)]
      && r.state.deck == Rest(s.deck)
      && InPlay(r.state) == InPlay(s)
      && (r.state.phase == Betting <==> HandTotal(r.state.player) > 21)
      && r.state == s.(deck := r.state.deck, player := r.state.player, phase := r.state.phase)
  {
    if s.phase != PlayerTurn then Ok(s)
    else if s.deck == [] then DeckExhausted
    else
      var t := s.(player := s.player + [Top(s.deck)], deck := Rest(s.deck));
      HitConserves(s);
      if HandTotal(t.player) > 21 then Ok(EndRound(t)) else Ok(t)
  }

  /** Moving the deck's last card onto a hand loses and duplicates no card. */
  lemma {:induction false} DrawConserves(deck: seq<Card>, hand: seq<Card>)
    requires deck != []
    ensures multiset(hand + [Top(deck)]) + multiset(Rest(deck)) == multiset(hand) + multiset(deck)
  {
    assert deck == Rest(deck) + [Top(deck)];
  }

  /** The player's draw keeps every card of the round in play. */
  lemma {:induction false} HitConserves(s: State)
    requires s.deck != []
    ensures InPlay(s.(player := s.player + [Top(s.deck)], deck := Rest(s.deck))) == InPlay(s)
  {
    DrawConserves(s.deck, s.player);
    var t := s.(player := s.player + [Top(s.deck)], deck := Rest(s.deck));
    calc {
      InPlay(t);
      multiset(Rest(s.deck)) + multiset(s.player + [Top(s.deck)]) + multiset(s.dealer);
      (multiset(s.player + [Top(s.deck)]) + multiset(Rest(s.deck))) + multiset(s.dealer);
      (multiset(s.player) + multiset(s.deck)) + multiset(s.dealer);
      InPlay(s);
    }
  }

  datatype DealerDraw = Stood(hand: seq<Card>, deck: seq<Card>) | RanOut

  /** `final` and `left` are what the dealer's hand and the deck become when
      the dealer, holding `hand`, draws from `deck` until the total reaches
      17: the drawn cards come off the end of the deck in order, every draw
      was made below 17, and the final hand is at 17 or more. */
  ghost predicate DrawnTo17(hand: seq<Card>, deck: seq<Card>, final: seq<Card>, left: seq<Card>)
  {
    && HandTotal(final) >= 17
    && |hand| <= |final| && final[..|hand|] == hand
    && |final| + |left| == |hand| + |deck|
    && left == deck[..|left|]
    && (forall k :: |hand| <= k < |final| ==> final[k] == deck[|deck| - 1 - (k - |hand|)])
    && (forall k :: |hand| <= k < |final| ==> HandTotal(final[..k]) < 17)
  }

  /** Some draw-out to 17 from `hand` exists within `deck`. */
  ghost predicate CanDrawOut(hand: seq<Card>, deck: seq<Card>)
  {
    exists final, left :: DrawnTo17(hand, deck, final, left)
  }

  /** The dealer draws while the hand totals less than 17 (so stands on
      every 17, soft or hard). Each drawn card is the deck's last. */
  function DealerPlay(hand: seq<Card>, deck: seq<Card>): (r: DealerDraw)
    ensures r.Stood? ==> DrawnTo17(hand, deck, r.hand, r.deck)
    ensures r.Stood? ==> multiset(r.hand) + multiset(r.deck) == multiset(hand) + multiset(deck)
    ensures r.RanOut? ==> HardTotal(hand) + HardTotal(deck) < 17
    ensures r.RanOut? <==> !CanDrawOut(hand, deck)
    decreases |deck|
  {
    if HandTotal(hand) >= 17 then
      StandAtOnce(hand, deck);
      Stood(hand, deck)
    else if deck == [] then
      forall final, left
        ensures !DrawnTo17(hand, deck, final, left)
      {
        DrawOutStep(hand, deck, final, left);
      }
      RanOut
    else
      var r := DealerPlay(hand + [Top(deck)], Rest(deck));
      if r.Stood? then
        DrawOneMore(hand, deck, r.hand, r.deck);
        r
      else
        DrawKeepsHardTotal(hand, deck);
        forall final, left
          ensures !DrawnTo17(hand, deck, final, left)
        {
          DrawOutStep(hand, deck, final, left);
        }
        r
  }

  /** A draw-out to 17 from a hand below 17 begins with the deck's last
      card, and what follows is a draw-out from the extended hand. */
  lemma {:induction false} DrawOutStep(hand: seq<Card>, deck: seq<Card>, final: seq<Card>, left: seq<Card>)
    requires HandTotal(hand) < 17
    ensures DrawnTo17(hand, deck, final, left) ==>
      deck != [] && DrawnTo17(hand + [Top(deck)], Rest(deck), final, left)
  {
    if DrawnTo17(hand, deck, final, left) {
      FirstDraw(hand, deck, final, left);
      LaterDraws(hand, deck, final, left);
    }
  }

  /** A draw-out from a hand below 17 draws at least once, and its first
      card is the deck's last. */
  lemma {:induction false} FirstDraw(hand: seq<Card>, deck: seq<Card>, final: seq<Card>, left: seq<Card>)
    requires HandTotal(hand) < 17 && DrawnTo17(hand, deck, final, left)
    ensures deck != [] && |hand| < |final|
    ensures final[..|hand| + 1] == hand + [Top(deck)]
  {
    var n := |hand|;
    assert final[..|final|] == final;
    assert final[..n + 1] == final[..n] + [final[n]];
  }

  /** After the first draw, the rest of a draw-out comes off the rest of
      the deck in order. */
  lemma {:induction false} LaterDraws(hand: seq<Card>, deck: seq<Card>, final: seq<Card>, left: seq<Card>)
    requires deck != [] && |hand| < |final| && DrawnTo17(hand, deck, final, left)
    ensures left == Rest(deck)[..|left|]
    ensures forall k :: |hand| + 1 <= k < |final| ==>
      final[k] == Rest(deck)[|Rest(deck)| - 1 - (k - (|hand| + 1))]
  {
    var n := |hand|;
    forall k | n + 1 <= k < |final|
      ensures final[k] == Rest(deck)[|Rest(deck)| - 1 - (k - (n + 1))]
    {
    }
  }

  /** A hand at 17 or more admits only the draw-out that draws nothing. */
  lemma {:induction false} DrawOutAt17(hand: seq<Card>, deck: seq<Card>, final: seq<Card>, left: seq<Card>)
    requires HandTotal(hand) >= 17 && DrawnTo17(hand, deck, final, left)
    ensures final == hand && left == deck
  {
    var n := |hand|;
    assert final[..|final|] == final;
    assert final == final[..n];
    assert left == deck[..|deck|];
  }

  /** Whenever the deck allows a draw-out to 17, the dealer's play ends in
      exactly that draw-out: it is unique, and the dealer runs out only
      when there is none. */
  lemma {:induction false} DealerFindsDrawOut(hand: seq<Card>, deck: seq<Card>, final: seq<Card>, left: seq<Card>)
    requires DrawnTo17(hand, deck, final, left)
    ensures DealerPlay(hand, deck) == Stood(final, left)
    decreases |deck|
  {
    if HandTotal(hand) >= 17 {
      DrawOutAt17(hand, deck, final, left);
    } else {
      DrawOutStep(hand, deck, final, left);
      DealerFindsDrawOut(hand + [Top(deck)], Rest(deck), final, left);
    }
  }

  /** Moving the deck's last card onto a hand keeps the hard total of the
      two together. */
  lemma {:induction false} DrawKeepsHardTotal(hand: seq<Card>, deck: seq<Card>)
    requires deck != []
    ensures HardTotal(hand + [Top(deck)]) + HardTotal(Rest(deck)) == HardTotal(hand) + HardTotal(deck)
  {
    assert deck == Rest(deck) + [Top(deck)];
    HardTotalAppend(hand, [Top(deck)]);
    HardTotalAppend(Rest(deck), [Top(deck)]);
  }

  /** A hand at 17 or more stands without drawing. */
  lemma {:induction false} StandAtOnce(hand: seq<Card>, deck: seq<Card>)
    requires HandTotal(hand) >= 17
    ensures DrawnTo17(hand, deck, hand, deck)
  {
    assert hand[..|hand|] == hand && deck[..|deck|] == deck;
  }

  /** One draw below 17 followed by a draw-out to 17 is a draw-out to 17. */
  lemma {:induction false} DrawOneMore(hand: seq<Card>, deck: seq<Card>, final: seq<Card>, left: seq<Card>)
    requires deck != [] && HandTotal(hand) < 17
    requires DrawnTo17(hand + [Top(deck)], Rest(deck), final, left)
    requires multiset(final) + multiset(left) == multiset(hand + [Top(deck)]) + multiset(Rest(deck))
    ensures DrawnTo17(hand, deck, final, left)
    ensures multiset(final) + multiset(left) == multiset(hand) + multiset(deck)
  {
    DrawConserves(deck, hand);
    DrawPrefix(hand, deck, final, left);
    DrawOrder(hand, deck, final);
    DrawBelow(hand, final);
  }

  /** The hand before the first draw is a prefix of the final hand, and
      what is left is a prefix of the whole deck. */
  lemma {:induction false} DrawPrefix(hand: seq<Card>, deck: seq<Card>, final: seq<Card>, left: seq<Card>)
    requires deck != [] && |hand| + 1 <= |final|
    requires final[..|hand| + 1] == hand + [Top(deck)]
    requires |left| <= |Rest(deck)| && left == Rest(deck)[..|left|]
    ensures final[..|hand|] == hand
    ensures left == deck[..|left|]
  {
    assert final[..|hand| + 1][..|hand|] == final[..|hand|];
  }

  /** Every draw was made below 17: the first because the hand was below
      17, the later ones by the draw-out from the extended hand. */
  lemma {:induction false} DrawBelow(hand: seq<Card>, final: seq<Card>)
    requires HandTotal(hand) < 17 && |hand| < |final| && final[..|hand|] == hand
    requires forall k :: |hand| + 1 <= k < |final| ==> HandTotal(final[..k]) < 17
    ensures forall k :: |hand| <= k < |final| ==> HandTotal(final[..k]) < 17
  {
  }

  /** The cards drawn after the first one come off the rest of the deck in
      order, so together they come off the whole deck in order. */
  lemma {:induction false} DrawOrder(hand: seq<Card>, deck: seq<Card>, final: seq<Card>)
    requires deck != [] && |hand| < |final| <= |hand| + |deck|
    requires final[..|hand| + 1] == hand + [Top(deck)]
    requires forall k :: |hand| + 1 <= k < |final| ==>
      final[k] == Rest(deck)[|Rest(deck)| - 1 - (k - (|hand| + 1))]
    ensures forall k :: |hand| <= k < |final| ==> final[k] == deck[|deck| - 1 - (k - |hand|)]
  {
    var n := |hand|;
    assert final[..n + 1][n] == final[n];
  }

  /** The credit a finished round pays back: twice the bet for a win (the
      dealer busts or the player is higher), the bet itself for a tie,
      nothing for a loss. */
  function Payout(player: int, dealer: int, bet: int): (credit: int)
    ensures dealer > 21 || player > dealer ==> credit == 2 * bet
    ensures dealer <= 21 && player == dealer ==> credit == bet
    ensures dealer <= 21 && player < dealer ==> credit == 0
  {
    if dealer > 21 || player > dealer then 2 * bet
    else if player == dealer then bet
    else 0
  }

  /** Stand: the dealer plays out the hand, the round is settled and ends. */
  function PlayerStand(s: State): (r: Step)
    ensures s.phase != PlayerTurn ==> r == Ok(s)
    ensures r != OutOfDraws
    ensures r == DeckExhausted ==> HardTotal(s.dealer) + HardTotal(s.deck) < 17
    ensures s.phase == PlayerTurn ==>
      (r == DeckExhausted <==> !CanDrawOut(s.dealer, s.deck))
    ensures s.phase == PlayerTurn && r.Ok? ==>
      && r.state.phase == Betting
      && r.state.player == s.player
      && DrawnTo17(s.dealer, s.deck, r.state.dealer, r.state.deck)
      && InPlay(r.state) == InPlay(s)
      && r.state.balance == s.balance + Payout(HandTotal(s.player), HandTotal(r.state.dealer), s.currentBet)
      && r.state.currentBet == s.currentBet
      && SameMines(r.state, s)
  {
    if s.phase != PlayerTurn then Ok(s)
    else
      match DealerPlay(s.dealer, s.deck)
      case RanOut => DeckExhausted
      case Stood(dealer, deck) =>
        var credit := Payout(HandTotal(s.player), HandTotal(dealer), s.currentBet);
        var t := EndRound(s.(dealer := dealer, deck := deck, balance := s.balance + credit));
        assert InPlay(t) == InPlay(s) by {
          assert multiset(dealer) + multiset(deck) == multiset(s.dealer) + multiset(s.deck);
          assert InPlay(t) == multiset(s.player) + (multiset(dealer) + multiset(deck));
          assert InPlay(s) == multiset(s.player) + (multiset(s.dealer) + multiset(s.deck));
        }
        Ok(t)
  }
}
