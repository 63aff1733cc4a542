/** The state every game shares: one balance, the blackjack table and the
    mines board. The browser page keeps these as global variables; here they
    are one immutable record and every game operation maps it to a new one. */
module Table {
  import opened Cards

  /** Which blackjack buttons are enabled: Deal while Betting, Hit and Stand
      during the PlayerTurn. */
  datatype Phase = Betting | PlayerTurn

  datatype Cell = Safe | Mine | RevealedSafe | RevealedMine

  datatype State = State(
    balance: int,
    // blackjack
    deck: seq<Card>,
    player: seq<Card>,
    dealer: seq<Card>,
    currentBet: int,
    phase: Phase,
    // mines
    minesCount: int,
    minesBet: int,
    grid: seq<Cell>,
    revealed: int,
    minesActive: bool)

  /** The result of an operation that can get stuck: `DeckExhausted` is the
      crash of drawing from an empty deck; `OutOfDraws` means the supplied
      random draws ran out before the mines were placed. */
  datatype Step = Ok(state: State) | DeckExhausted | OutOfDraws

  const StartingBalance := 40000

  /** The page as it loads: 40000 in the wallet, nothing dealt, 3 mines
      selected, no mines game running. */
  function Initial(): State
  {
    State(StartingBalance, [], [], [], 0, Betting, 3, 0, [], 0, false)
  }

  /** A bet the wallet can cover. */
  predicate ValidBet(balance: int, bet: int)
  {
    0 < bet <= balance
  }

  /** The blackjack part of two states agrees. */
  predicate SameBlackjack(a: State, b: State)
  {
    a.deck == b.deck && a.player == b.player && a.dealer == b.dealer
    && a.currentBet == b.currentBet && a.phase == b.phase
  }

  /** The mines part of two states agrees. */
  predicate SameMines(a: State, b: State)
  {
    a.minesCount == b.minesCount && a.minesBet == b.minesBet && a.grid == b.grid
    && a.revealed == b.revealed && a.minesActive == b.minesActive
  }
}
