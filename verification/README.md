# Casino mini-games: a Dafny model of the game rules

The page runs four casino mini-games that share one wallet of 40000:
- blackjack against a dealer who stands on 17;
- a mines board: uncover safe cells on a 5x5 grid, cash out before hitting a mine;
- a coin flip;
- a red/black roulette spin.

This project models the rules of those games as pure functions over one immutable `State`. The state holds the balance, the blackjack deck, both hands, the bet and the round phase, and the mines board with its count, bet, revealed counter and active flag. Every random choice is an explicit input:
- the Fisher–Yates swap partners of the shuffle;
- the stream of mine-position draws;
- the coin and roulette outcomes.

The page records the blackjack round phase only by enabling and disabling the Deal/Hit/Stand buttons. The model makes that an explicit `Phase` (`Betting` or `PlayerTurn`).

Modules:
- `Cards`: cards, `CreateDeck`, and `Shuffle` with its swap draws as input.
- `Scoring`: `CardValue`, `HandTotal`, and the hard/soft totals behind them.
- `Table`: the shared `State` and the `Step` result. `Step` is `Ok(state)`, `DeckExhausted` (the page would crash drawing `undefined` from an empty deck) or `OutOfDraws` (the supplied mine draws ran out; the page would keep sampling).
- `Blackjack`: deal, hit, the dealer's draw-out to 17, stand and settlement.
- `Mines`: mine selection, start with mine placement, reveal, the payout table and cash-out.
- `Wagers`: the coin flip and the roulette spin.
- `Session`: the navigation reset, the invariant `Valid`, and the theorem that every action keeps it. A consequence of that theorem is that a blackjack draw never meets an empty deck.
- `Scenarios`: worked rounds of each game.

## Model

| member | source | states |
|---|---|---|
| Cards.CreateDeck | script.js:48-55 | the deck has 52 cards, no card twice, and every suit/rank pair appears |
| Cards.Swap | script.js:60 | the two positions trade cards and the length is kept |
| Cards.SwapElsewhere | script.js:60 | every position other than the two swapped keeps its card |
| Cards.SwapPermutes | script.js:60 | a swap keeps the multiset of cards |
| Cards.ShuffleDownPermutes | script.js:58-61 | the loop from position i down to 1 gives a permutation of its input (same multiset) |
| Cards.Shuffle | script.js:57-62 | for any swap draws with j in [0, i], the shuffled deck is a permutation of the input deck |
| Cards.SwapsFor | script.js:57-62 | for a target ordering with the same cards, it builds valid swap draws under which the shuffle loop produces exactly that target |
| Cards.ShuffleReachesEvery | script.js:57-62 | every ordering of the deck is the result of the shuffle under some valid swap draws |
| Scoring.CardValue | script.js:64-68 | a card is worth 2..11; 11 exactly for an ace; a numeric rank is worth its number; J, Q and K are worth 10 |
| Scoring.AceCount | script.js:73-76 | the number of aces in a hand is between 0 and the hand size |
| Scoring.SoftIsHardPlusAces | script.js:71-76 | the first loop's total (aces as 11) is the hard total (aces as 1) plus 10 per ace |
| Scoring.Demote | script.js:77-80 | the demotion loop takes off a multiple of 10, at most 10 per ace; it stops at or below 21 unless every ace is used up; it never demotes an ace it did not need to |
| Scoring.HandTotal | script.js:70-82 | the total is the hard total plus 10·k for some k up to the ace count; it is at most 21 exactly when the hard total is; over 21 means every ace counts 1; one more soft ace would bust it |
| Scoring.HandTotalIsBest | script.js:70-82 | no way of counting the aces that stays at or under 21 beats the total |
| Scoring.HandTotalPermutation | script.js:70-82 | two hands holding the same cards in any order have the same total |
| Blackjack.StartGame | script.js:127-151 | in the player's turn, or with a bet not in (0, balance], nothing changes; otherwise the balance drops by exactly the bet, each side holds 2 cards, 48 remain; of the shuffled fresh deck the player holds the last card and the one before it, the dealer the next two down, and the deck keeps the first 48 in order, so all 52 cards are in play; the mines state is untouched |
| Blackjack.DealConserves | script.js:144-145 | dealing two cards to each side from the end of a 52-card deck loses and duplicates no card |
| Blackjack.PlayerHit | script.js:153-162 | outside the player's turn nothing happens; otherwise the player takes the deck's last card, no card is lost, the balance is unchanged, and the round ends exactly when the new total is over 21 |
| Blackjack.DealerPlay | script.js:164-169 | the dealer takes cards from the end of the deck in order, every draw happens at a total below 17, and the final total is at least 17; the cards are conserved; it runs out of cards exactly when no such draw-out exists, and then the dealer's hand and the deck together are worth less than 17 |
| Blackjack.DealerFindsDrawOut | script.js:164-169 | a draw-out to 17 from a given hand and deck is unique: whenever one exists, the dealer's play ends in exactly that hand and that deck |
| Blackjack.Payout | script.js:176-184 | the credit is 2×bet when the dealer busts or the player is higher, 1×bet on a tie, 0 when the dealer is higher |
| Blackjack.PlayerStand | script.js:171-187 | outside the player's turn nothing happens; in it the stand fails (deck exhausted) exactly when no draw-out to 17 exists, and never for want of mine draws; when it succeeds the dealer draws out to 17 from the current deck, the round ends, cards are conserved, the mines state is untouched, and the balance rises by exactly the payout for the two totals |
| Mines.SetMineCount | script.js:200-204 | while a game runs nothing changes; otherwise only the mine count changes |
| Mines.PickDistinct | script.js:221-224 | the kept values have no repeats, extend what was kept before, number exactly the count (or the positions kept so far when already enough), and all come from the draws; a draw is dropped only when the count was already reached before it, so the kept values are the first distinct draws; the draws run out exactly when they hold fewer distinct values than the count |
| Mines.PlaceMines | script.js:218-224 | from draws in [0, 25) it picks exactly the mine count (0 for a count of 0 or less) distinct positions below 25, all taken from the draws, and they are the first distinct draws: a draw left out comes after the count was already reached; it fails exactly when the draws hold too few distinct values |
| Mines.LayGrid | script.js:216 | the board has 25 cells, a cell holds a mine exactly when its index is a mine position, and every cell is hidden |
| Mines.StartMinesGame | script.js:206-227 | while a game runs, or for a bet not in (0, balance], nothing changes; otherwise the balance drops by the bet and the board has 25 hidden cells with exactly minesCount mines at the first minesCount distinct drawn positions; revealed is 0 and the game is active; the blackjack state is untouched |
| Mines.RevealAllMines | script.js:266-271 | no hidden mine is left, the set of mine cells is unchanged, and every cell that was not a hidden mine keeps its state |
| Mines.RevealMine | script.js:241-264 | an inactive game, an index off the board or an already uncovered cell changes nothing; a hidden safe cell becomes uncovered and the counter rises by one with nothing else changed; a mine ends the game and uncovers every mine, leaving the balance and the counter alone |
| Mines.Bracket | script.js:279-285 | the bet brackets are up to 10000, up to 25000, up to 50000 and above |
| Mines.Rate | script.js:276-286 | the per-cell rate is 0 exactly when the mine count is not 3, 5, 8 or 12, and otherwise lies between 500 and 56000 |
| Mines.CalculateCashout | script.js:273-289 | the potential cashout is 0 exactly when no bet was placed, nothing is revealed or the count is off the menu; otherwise it is the tier rate times the cells revealed; it is never negative while the revealed counter is non-negative |
| Session.CashoutNeverNegative | script.js:273-289 | in every valid state (the invariant keeps the revealed counter non-negative) the potential cashout is at least 0 |
| Mines.RateGrowsWithBet | script.js:278-286 | for a fixed mine count, a bigger bet never gets a lower rate per cell |
| Mines.RateGrowsWithMines | script.js:278-286 | for a fixed bet, more mines (among 3, 5, 8, 12) never get a lower rate per cell |
| Mines.SafeCellAddsRate | script.js:273-289 | uncovering a hidden safe cell raises the potential cashout by exactly one rate |
| Mines.MineForfeitsBet | script.js:291-292 | after a mine is hit a cash-out changes nothing, so the debited bet is not returned |
| Mines.CashOut | script.js:291-304 | with no game running nothing changes; otherwise the balance rises by the potential cashout when that is positive, the game ends, every mine is uncovered and nothing else changes |
| Wagers.FlipCoin | script.js:313-345 | an invalid bet changes nothing; otherwise the net balance change is +bet when the outcome matches the pick and −bet when it does not, and nothing else changes |
| Wagers.SpinRoulette | script.js:348-378 | an invalid bet, or no colour picked, changes nothing; otherwise the net balance change is +bet on the picked colour and −bet on the other |
| Session.ShowGameForfeits | script.js:380-401 | after switching games the balance is what it was, and neither a hit, a stand, a reveal nor a cash-out can credit anything: a bet debited for the unfinished blackjack round or mines game is forfeited |
| Session.InitialValid | script.js:2-36 | the page's starting values satisfy the invariant |
| Session.TwoCardsFit | script.js:144-145 | a freshly dealt two-card hand never totals more than 21 |
| Session.DealKeepsValid | script.js:127-151 | dealing keeps the invariant: all 52 cards are in play, the dealer holds 2, the player has not bust, the stake is positive, the balance is non-negative |
| Session.HitNeverExhausts | script.js:153-162 | from a valid state a hit never draws from an empty deck and keeps the invariant |
| Session.StandNeverExhausts | script.js:164-187 | from a valid state the dealer's draw-out never runs out of cards, and standing keeps the invariant |
| Session.SelectKeepsValid | script.js:200-204 | selecting a mine count from the menu keeps the invariant |
| Session.StartMinesKeepsValid | script.js:206-227 | a started mines game has a 25-cell board with minesCount hidden mines, no uncovered cell and a positive bet |
| Session.RevealKeepsValid | script.js:249-264 | any click on a cell keeps the invariant, including the revealed counter equal to the number of uncovered safe cells; the board keeps its size and every cell keeps whether it holds a mine |
| Session.ApplyKeepsValid | script.js:127-378 | every player action keeps the invariant (the balance stays non-negative) and never draws from an empty deck |
| Session.RunKeepsValid | script.js:127-378 | any sequence of actions from a valid state keeps the invariant and never draws from an empty deck; it can stop early only when the supplied mine draws run out |
| Session.RevealedBound | script.js:256-262 | during a game the revealed counter is at most 25 minus the mine count |
| Session.CellsNeverHide | script.js:249-304 | apart from starting a new game, no action hides an uncovered cell or moves a mine |
| Scenarios.DealerBeatsSeventeen | script.js:171-187 | player 10+7 stands, dealer 6+5 draws an 8 to 19, the player loses and the balance stays at 39000 |
| Scenarios.DealerStandsOnSoft17 | script.js:164-169 | an ace and a six total a soft 17, so the dealer draws nothing and stands, even with no cards left |
| Scenarios.DealFromUnshuffledDeck | script.js:127-187 | with shuffle draws that move no card, the player is dealt the ace and king of clubs and the dealer the queen and jack; the dealer stands on 20 and the player's 21 brings the balance to 41000 |
| Scenarios.TwoSafeCellsThenCashOut | script.js:206-304 | a bet of 1000 on 3 mines, two safe cells revealed and then a cash-out returns the balance to 40000 |
| Scenarios.CoinAndRoulette | script.js:313-378 | 500 on heads that lands heads nets +500; 2000 on red that lands black nets −2000 |

## Left out

- Rendering and wiring are left out: `renderHand`, `renderMinesGrid`, `updateDisplay`, `updateBalanceDisplay`, `clearMessages`, message strings, `toLocaleString`, `onclick` wiring and the `window.*` exports. They are presentation only.
- The dealer's hidden second card is left out. It is a display flag only.
- The coin flip's 1.8 s `setInterval`/`setTimeout` animation is left out. Debit and settlement are one step with the outcome as an input. Interleaving other games during the delay is not modelled.
- The distribution of `Math.random` is left out. No uniformity or fairness is claimed for the shuffle or the mine placement. The model proves only two things for any supplied draws: the shuffle gives a permutation, and the mines land at distinct positions. It also proves that every ordering of the deck is reachable.
- Bets and the balance are unbounded integers. The page holds the balance in a JavaScript number, a double exact only up to 2^53; about 38 all-in wins in a row would pass that, and the model does not round there. The page parses bets with `Number(...)`, so fractional bets such as 0.5 pass its checks; the model does not cover them. A non-numeric input (NaN) fails every check on the page, which the model treats as an invalid bet.
- The page keeps the list of mine positions in a separate array. The model keeps only the board, which has a mine exactly at those positions.
- Mines.RevealMine: the guard in the cell's click handler (script.js:241-243) is part of the model. An index off the board is a no-op, since the page only attaches handlers to the 25 rendered cells.
- Mines.PlaceMines: the page's loop samples until it has `minesCount` distinct positions. With a count above 25 it never stops, although the menu only offers 3, 5, 8 and 12. The model takes a finite stream of draws and returns `OutOfDraws` when the stream holds too few distinct values.
- Blackjack.PlayerHit and Blackjack.PlayerStand: on an empty deck the page would push `undefined` and then throw in `cardValue`. The model returns `DeckExhausted` there. `Session.RunKeepsValid` shows that this never happens in play.
- Scoring.HandTotal is modelled as a pure function of the hand, not as the page's loop over a mutable counter. The demotion loop is `Demote`, one recursive step per iteration.

Two behaviours of the page that a reader might not expect; the model follows the code:
- The mine count is not validated against the menu. `Valid` assumes the count came from a menu button.
- A new blackjack round is blocked only by the disabled Deal button, which the model turns into the phase check.
