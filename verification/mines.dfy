/** The mines game: a 5x5 board with a chosen number of hidden mines. Every
    safe cell revealed raises the payout; hitting a mine loses the bet;
    cashing out pays the tier rate times the cells revealed. */
module Mines {
  import opened Options
  import opened Cards
  import opened Table

  const GridSize := 25

  /** The mine counts the page offers. */
  const MineMenu: set<int> := {3, 5, 8, 12}

  predicate IsRevealed(c: Cell)
  {
    c == RevealedSafe || c == RevealedMine
  }

  predicate IsMine(c: Cell)
  {
    c == Mine || c == RevealedMine
  }

  /** The indices of the cells of the board in state `c`. */
  function Positions(grid: seq<Cell>, c: Cell): set<int>
  {
    set i | 0 <= i < |grid| && grid[i] == c
  }

  function Elems(s: seq<int>): set<int>
  {
    set x | x in s
  }

  /** A sequence without repeats has as many distinct values as entries. */
  lemma {:induction false} DistinctCard(s: seq<int>)
    requires Distinct(s)
    ensures |Elems(s)| == |s|
    decreases |s|
  {
    if s != [] {
      var s' := s[..|s| - 1];
      assert Elems(s) == Elems(s') + {s[|s| - 1]};
      DistinctCard(s');
    }
  }

  /** A set of indices below n has at most n members. */
  lemma {:induction false} IndexSetBound(xs: set<int>, n: nat)
    requires forall x :: x in xs ==> 0 <= x < n
    ensures |xs| <= n
    decreases n
  {
    if n == 0 {
      assert forall x :: x !in xs;
      assert xs == {};
    } else {
      IndexSetBound(xs - {n - 1}, n - 1);
      assert xs <= (xs - {n - 1}) + {n - 1};
      IndexSetMonotone(xs, (xs - {n - 1}) + {n - 1});
    }
  }

  /** Choose the number of mines for the next game; ignored while a game runs. */
  function SetMineCount(s: State, count: int): (r: State)
    ensures s.minesActive ==> r == s
    ensures !s.minesActive ==> r.minesCount == count && r == s.(minesCount := count)
  {
    if s.minesActive then s else s.(minesCount := count)
  }

  /** The placement loop: go through the random draws, keep each value not
      already kept, stop once `count` values are kept. `None` when the draws
      run out first (the page would keep drawing). A draw is left out only
      when it was already kept or `count` values were held before it, so the
      values kept are the first `count` distinct ones. */
  function PickDistinct(draws: seq<int>, picked: seq<int>, count: int): (r: Option<seq<int>>)
    requires Distinct(picked)
    ensures r.None? <==> |Elems(picked + draws)| < count
    ensures r.Some? ==>
      && Distinct(r.value)
      && |picked| <= |r.value| && r.value[..|picked|] == picked
      && |r.value| == (if count <= |picked| then |picked| else count)
      && Elems(r.value) <= Elems(picked + draws)
      && (forall k :: 0 <= k < |draws| && draws[k] !in r.value ==> |Elems(picked + draws[..k])| >= count)
    decreases |draws|
  {
    if |picked| >= count then
      DistinctCard(picked);
      assert Elems(picked) <= Elems(picked + draws);
      IndexSetMonotone(Elems(picked), Elems(picked + draws));
      HeldBefore(picked, draws, count);
      Some(picked)
    else if draws == [] then
      assert picked + draws == picked;
      DistinctCard(picked);
      None
    else if draws[0] in picked then
      assert Elems(picked + draws[1..]) == Elems(picked + draws);
      var r := PickDistinct(draws[1..], picked, count);
      if r.Some? then
        SkipKept(draws, picked, count, r.value);
        r
      else r
    else
      assert picked + [draws[0]] + draws[1..] == picked + draws;
      var r := PickDistinct(draws[1..], picked + [draws[0]], count);
      if r.Some? then
        assert r.value[..|picked| + 1][..|picked|] == r.value[..|picked|];
        KeepNew(draws, picked, count, r.value);
        r
      else r
  }

  /** Once `count` distinct values are held, every later prefix of the draws
      still holds that many. */
  lemma {:induction false} HeldBefore(picked: seq<int>, draws: seq<int>, count: int)
    requires Distinct(picked) && |picked| >= count
    ensures forall k :: 0 <= k <= |draws| ==> |Elems(picked + draws[..k])| >= count
  {
    DistinctCard(picked);
    forall k | 0 <= k <= |draws|
      ensures |Elems(picked + draws[..k])| >= count
    {
      assert Elems(picked) <= Elems(picked + draws[..k]);
      IndexSetMonotone(Elems(picked), Elems(picked + draws[..k]));
    }
  }

  /** Skipping a draw already kept: the later draws see the same values. */
  lemma {:induction false} SkipKept(draws: seq<int>, picked: seq<int>, count: int, kept: seq<int>)
    requires draws != [] && draws[0] in picked
    requires |picked| <= |kept| && kept[..|picked|] == picked
    requires forall k :: 0 <= k < |draws[1..]| && draws[1..][k] !in kept ==>
      |Elems(picked + draws[1..][..k])| >= count
    ensures forall k :: 0 <= k < |draws| && draws[k] !in kept ==> |Elems(picked + draws[..k])| >= count
  {
    assert draws[0] in kept by {
      var i :| 0 <= i < |picked| && picked[i] == draws[0];
      assert kept[i] == picked[i];
    }
    forall k | 0 < k < |draws| && draws[k] !in kept
      ensures |Elems(picked + draws[..k])| >= count
    {
      assert draws[1..][k - 1] == draws[k];
      assert draws[..k] == [draws[0]] + draws[1..][..k - 1];
      assert Elems(picked + draws[..k]) == Elems(picked + draws[1..][..k - 1]);
    }
  }

  /** Keeping a new draw: the later draws see it among the values kept. */
  lemma {:induction false} KeepNew(draws: seq<int>, picked: seq<int>, count: int, kept: seq<int>)
    requires draws != []
    requires |picked| + 1 <= |kept| && kept[..|picked| + 1] == picked + [draws[0]]
    requires forall k :: 0 <= k < |draws[1..]| && draws[1..][k] !in kept ==>
      |Elems(picked + [draws[0]] + draws[1..][..k])| >= count
    ensures forall k :: 0 <= k < |draws| && draws[k] !in kept ==> |Elems(picked + draws[..k])| >= count
  {
    assert kept[|picked|] == draws[0] by {
      assert kept[..|picked| + 1][|picked|] == kept[|picked|];
    }
    forall k | 0 < k < |draws| && draws[k] !in kept
      ensures |Elems(picked + draws[..k])| >= count
    {
      assert draws[1..][k - 1] == draws[k];
      assert picked + draws[..k] == picked + [draws[0]] + draws[1..][..k - 1];
    }
  }

  lemma {:induction false} IndexSetMonotone(a: set<int>, b: set<int>)
    requires a <= b
    ensures |a| <= |b|
  {
    assert b == a + (b - a);
  }

  /** The mine positions of a new board: the first `count` distinct draws. */
  function PlaceMines(draws: seq<int>, count: int): (r: Option<seq<int>>)
    requires forall k :: 0 <= k < |draws| ==> 0 <= draws[k] < GridSize
    ensures r.None? <==> |Elems(draws)| < count
    ensures r.Some? ==>
      && Distinct(r.value)
      && |r.value| == (if count <= 0 then 0 else count)
      && (forall k :: 0 <= k < |r.value| ==> 0 <= r.value[k] < GridSize)
      && Elems(r.value) <= Elems(draws)
      && (forall k :: 0 <= k < |draws| && draws[k] !in r.value ==> |Elems(draws[..k])| >= count)
  {
    var r := PickDistinct(draws, [], count);
    NothingPicked(draws);
    if r.Some? then
      TakenOnBoard(r.value, draws);
      NothingPickedBefore(draws, r.value, count);
      r
    else r
  }

  /** Draws added to an empty pick hold the values of the draws. */
  lemma {:induction false} NothingPicked(draws: seq<int>)
    ensures Elems([] + draws) == Elems(draws)
  {
    assert [] + draws == draws;
  }

  /** Values taken from draws on the board are on the board. */
  lemma {:induction false} TakenOnBoard(values: seq<int>, draws: seq<int>)
    requires forall k :: 0 <= k < |draws| ==> 0 <= draws[k] < GridSize
    requires Elems(values) <= Elems(draws)
    ensures forall k :: 0 <= k < |values| ==> 0 <= values[k] < GridSize
  {
    forall k | 0 <= k < |values|
      ensures 0 <= values[k] < GridSize
    {
      assert values[k] in Elems(values);
    }
  }

  /** The first-distinct clause of PickDistinct when nothing was picked yet. */
  lemma {:induction false} NothingPickedBefore(draws: seq<int>, value: seq<int>, count: int)
    requires forall k :: 0 <= k < |draws| && draws[k] !in value ==> |Elems([] + draws[..k])| >= count
    ensures forall k :: 0 <= k < |draws| && draws[k] !in value ==> |Elems(draws[..k])| >= count
  {
    forall k | 0 <= k < |draws| && draws[k] !in value
      ensures |Elems(draws[..k])| >= count
    {
      assert [] + draws[..k] == draws[..k];
    }
  }

  /** A fresh board: a mine at each given position, every other cell safe. */
  function LayGrid(mines: seq<int>): (grid: seq<Cell>)
    ensures |grid| == GridSize
    ensures forall i :: 0 <= i < GridSize ==> (grid[i] == Mine <==> i in mines)
    ensures forall i :: 0 <= i < GridSize ==> grid[i] in {Safe, Mine}
  {
    seq(GridSize, i requires 0 <= i < GridSize => if i in mines then Mine else Safe)
  }

  /** Start: refused while a game runs or for a bet the wallet cannot cover;
      otherwise the bet is debited and a board with `minesCount` mines laid. */
  function StartMinesGame(s: State, bet: int, draws: seq<int>): (r: Step)
    requires forall k :: 0 <= k < |draws| ==> 0 <= draws[k] < GridSize
    ensures s.minesActive || !ValidBet(s.balance, bet) ==> r == Ok(s)
    ensures !s.minesActive && ValidBet(s.balance, bet) ==>
      (r == OutOfDraws <==> |Elems(draws)| < s.minesCount)
    ensures !s.minesActive && ValidBet(s.balance, bet) && r.Ok? ==>
      && r.state.balance == s.balance - bet
      && r.state.minesBet == bet
      && r.state.minesActive
      && r.state.revealed == 0
      && r.state.minesCount == s.minesCount
      && |r.state.grid| == GridSize
      && |Positions(r.state.grid, Mine)| == (if s.minesCount <= 0 then 0 else s.minesCount)
      && Positions(r.state.grid, Mine) <= Elems(draws)
      && (forall k :: 0 <= k < |draws| && draws[k] !in Positions(r.state.grid, Mine) ==>
            |Elems(draws[..k])| >= s.minesCount)
      && (forall i :: 0 <= i < GridSize ==> !IsRevealed(r.state.grid[i]))
      && SameBlackjack(r.state, s)
    ensures r != DeckExhausted
  {
    if s.minesActive || !ValidBet(s.balance, bet) then Ok(s)
    else
      match PlaceMines(draws, s.minesCount)
      case None => OutOfDraws
      case Some(mines) =>
        var grid := LayGrid(mines);
        assert Positions(grid, Mine) == Elems(mines);
        DistinctCard(mines);
        Ok(s.(minesBet := bet, balance := s.balance - bet, grid := grid,
              revealed := 0, minesActive := true))
  }

  /** Uncover every hidden mine; every other cell keeps its state. */
  function RevealAllMines(grid: seq<Cell>): (r: seq<Cell>)
    ensures |r| == |grid|
    ensures forall i :: 0 <= i < |r| ==> r[i] != Mine
    ensures forall i :: 0 <= i < |r| ==> (IsMine(r[i]) <==> IsMine(grid[i]))
    ensures forall i :: 0 <= i < |r| && grid[i] != Mine ==> r[i] == grid[i]
  {
    seq(|grid|, i requires 0 <= i < |grid| => if grid[i] == Mine then RevealedMine else grid[i])
  }

  /** A click on cell `index`. Ignored unless a game runs and the cell is
      still hidden. A safe cell is uncovered and counted; a mine ends the
      game, uncovers every mine and keeps the bet. */
  function RevealMine(s: State, index: int): (r: State)
    ensures !s.minesActive || !(0 <= index < |s.grid|) || IsRevealed(s.grid[index]) ==> r == s
    ensures s.minesActive && 0 <= index < |s.grid| && s.grid[index] == Safe ==>
      r == s.(grid := s.grid[index := RevealedSafe], revealed := s.revealed + 1)
    ensures s.minesActive && 0 <= index < |s.grid| && s.grid[index] == Mine ==>
      && !r.minesActive
      && r.grid == RevealAllMines(s.grid)
      && r == s.(grid := r.grid, minesActive := false)
  {
    if !s.minesActive || !(0 <= index < |s.grid|) || IsRevealed(s.grid[index]) then s
    else if s.grid[index] == Mine then
      var grid := RevealAllMines(s.grid[index := RevealedMine]);
      assert grid == RevealAllMines(s.grid);
      s.(grid := grid, minesActive := false)
    else
      s.(grid := s.grid[index := RevealedSafe], revealed := s.revealed + 1)
  }

  /** The bet bracket: 0 up to 10000, 1 up to 25000, 2 up to 50000, 3 above. */
  function Bracket(bet: int): (b: nat)
    ensures b < 4
    ensures b == 0 <==> bet <= 10000
    ensures b <= 1 <==> bet <= 25000
    ensures b <= 2 <==> bet <= 50000
  {
    if bet <= 10000 then 0 else if bet <= 25000 then 1 else if bet <= 50000 then 2 else 3
  }

  /** The payout per revealed cell by mine count and bet bracket; 0 for a
      mine count off the menu. */
  function Rate(count: int, bet: int): (rate: int)
    ensures rate == 0 <==> count !in MineMenu
    ensures count in MineMenu ==> 500 <= rate <= 56000
  {
    var b := Bracket(bet);
    if count == 3 then [500, 1000, 2000, 4000][b]
    else if count == 5 then [900, 1750, 3500, 7000][b]
    else if count == 8 then [1200, 2400, 4800, 9600][b]
    else if count == 12 then [7000, 14000, 28000, 56000][b]
    else 0
  }

  /** The potential cashout: the rate times the safe cells revealed, 0
      before any cell is revealed or when no bet was ever placed. */
  function CalculateCashout(s: State): (win: int)
    ensures win == 0 <==> s.minesBet == 0 || s.revealed == 0 || s.minesCount !in MineMenu
    ensures s.minesBet != 0 ==> win == Rate(s.minesCount, s.minesBet) * s.revealed
    ensures s.revealed >= 0 ==> win >= 0
  {
    if s.minesBet == 0 || s.revealed == 0 then 0
    else Rate(s.minesCount, s.minesBet) * s.revealed
  }

  /** Cash out: ignored unless a game runs; credits the potential cashout
      (if positive), ends the game and uncovers the mines. */
  function CashOut(s: State): (r: State)
    ensures !s.minesActive ==> r == s
    ensures s.minesActive ==>
      && !r.minesActive
      && r.grid == RevealAllMines(s.grid)
      && r.balance == s.balance + (if CalculateCashout(s) > 0 then CalculateCashout(s) else 0)
      && r == s.(balance := r.balance, grid := r.grid, minesActive := false)
  {
    if !s.minesActive then s
    else
      var winnings := CalculateCashout(s);
      var balance := if winnings > 0 then s.balance + winnings else s.balance;
      s.(balance := balance, minesActive := false, grid := RevealAllMines(s.grid))
  }

  /** A bigger bet never lowers the rate per cell. */
  lemma {:induction false} RateGrowsWithBet(count: int, bet: int, bet': int)
    requires bet <= bet'
    ensures Rate(count, bet) <= Rate(count, bet')
  {
  }

  /** More mines never lower the rate per cell. */
  lemma {:induction false} RateGrowsWithMines(count: int, count': int, bet: int)
    requires count in MineMenu && count' in MineMenu && count <= count'
    ensures Rate(count, bet) <= Rate(count', bet)
  {
  }

  /** Every safe cell uncovered adds exactly one rate to the potential
      cashout. */
  lemma {:induction false} SafeCellAddsRate(s: State, index: int)
    requires s.minesActive && 0 <= index < |s.grid| && s.grid[index] == Safe
    requires s.minesBet != 0 && s.revealed >= 0
    ensures CalculateCashout(RevealMine(s, index)) == CalculateCashout(s) + Rate(s.minesCount, s.minesBet)
  {
    var rate := Rate(s.minesCount, s.minesBet);
    assert rate * (s.revealed + 1) == rate * s.revealed + rate;
  }

  /** After a mine is hit, cashing out pays nothing: the bet is lost. */
  lemma {:induction false} MineForfeitsBet(s: State, index: int)
    requires s.minesActive && 0 <= index < |s.grid| && s.grid[index] == Mine
    ensures CashOut(RevealMine(s, index)) == RevealMine(s, index)
    ensures CashOut(RevealMine(s, index)).balance == s.balance
  {
  }
}
