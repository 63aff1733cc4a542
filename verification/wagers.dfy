/** Coin flip and red/black roulette: the bet is debited, and twice the bet
    is credited when the outcome matches the player's pick. The random
    outcome is an input. */
module Wagers {
  import opened Options
  import opened Table

  datatype Side = Heads | Tails

  datatype Color = Red | Black

  /** Debit the bet, then credit twice the bet on a win. */
  function Settle(s: State, bet: int, won: bool): State
  {
    var debited := s.balance - bet;
    s.(balance := if won then debited + 2 * bet else debited)
  }

  /** Flip: an invalid bet changes nothing; otherwise the player ends up
      `bet` richer on a matching side and `bet` poorer on the other. */
  function FlipCoin(s: State, bet: int, choice: Side, outcome: Side): (r: State)
    ensures !ValidBet(s.balance, bet) ==> r == s
    ensures ValidBet(s.balance, bet) && outcome == choice ==> r == s.(balance := s.balance + bet)
    ensures ValidBet(s.balance, bet) && outcome != choice ==> r == s.(balance := s.balance - bet)
  {
    if !ValidBet(s.balance, bet) then s
    else Settle(s, bet, outcome == choice)
  }

  /** Spin: an invalid bet or no colour picked changes nothing (the bet is
      checked first); otherwise as for the coin. */
  function SpinRoulette(s: State, bet: int, choice: Option<Color>, result: Color): (r: State)
    ensures !ValidBet(s.balance, bet) || choice.None? ==> r == s
    ensures ValidBet(s.balance, bet) && choice == Some(result) ==> r == s.(balance := s.balance + bet)
    ensures ValidBet(s.balance, bet) && choice.Some? && choice.value != result ==>
      r == s.(balance := s.balance - bet)
  {
    if !ValidBet(s.balance, bet) then s
    else match choice
      case None => s
      case Some(color) => Settle(s, bet, result == color)
  }
}
