/** The page as a whole: every game action on the shared state, the
    navigation reset, and the invariant every action keeps. */
module Session {
  import opened Options
  import opened Cards
  import opened Scoring
  import opened Table
  import opened Blackjack
  import opened Mines
  import opened Wagers

  /** Switching games: the blackjack buttons go back to Deal and a running
      mines game is dropped. Nothing is credited, so a bet already debited
      for an unfinished round is forfeited. */
  function ShowGame(s: State): (r: State)
    ensures r.balance == s.balance && r.phase == Betting && !r.minesActive
  {
    s.(phase := Betting, minesActive := false)
  }

  /** After a switch of games nothing the player can do credits the stake
      of the abandoned round: hit, stand, reveal and cash-out all leave the
      state as it is. */
  lemma {:induction false} ShowGameForfeits(s: State, index: int)
    ensures ShowGame(s).balance == s.balance
    ensures CashOut(ShowGame(s)) == ShowGame(s)
    ensures RevealMine(ShowGame(s), index) == ShowGame(s)
    ensures PlayerStand(ShowGame(s)) == Ok(ShowGame(s))
    ensures PlayerHit(ShowGame(s)) == Ok(ShowGame(s))
  {
  }

  /** During the player's turn all 52 cards are accounted for, the dealer
      holds two of them, the player has not bust and a stake is riding. */
  ghost predicate RoundOk(s: State)
  {
    s.phase == PlayerTurn ==>
      && InPlay(s) == multiset(CreateDeck())
      && |s.dealer| == 2
      && HandTotal(s.player) <= 21
      && s.currentBet > 0
  }

  /** The selected mine count is one the page offers; while a game runs the
      board has 25 cells, that many hidden mines, no mine uncovered, and the
      counter equals the number of uncovered safe cells. */
  ghost predicate BoardOk(s: State)
  {
    && s.minesCount in MineMenu
    && s.revealed >= 0
    && (s.minesActive ==>
          && |s.grid| == GridSize
          && Positions(s.grid, RevealedMine) == {}
          && |Positions(s.grid, Mine)| == s.minesCount
          && s.revealed == |Positions(s.grid, RevealedSafe)|
          && s.minesBet > 0)
  }

  ghost predicate Valid(s: State)
  {
    s.balance >= 0 && RoundOk(s) && BoardOk(s)
  }

  /** What the player can do on the page, with the random draws each action
      consumes. */
  datatype Action =
    | Deal(bet: int, swaps: seq<int>)
    | Hit
    | Stand
    | SelectMines(count: int)
    | StartMines(bet: int, draws: seq<int>)
    | Reveal(index: int)
    | CashOutMines
    | Flip(bet: int, side: Side, outcome: Side)
    | Spin(bet: int, color: Option<Color>, result: Color)
    | Navigate

  /** The draws are ones the random source can produce, and a mine count
      comes from the menu buttons. */
  ghost predicate Feasible(a: Action)
  {
    match a
    case Deal(_, swaps) => SwapIndices(swaps, DeckSize)
    case SelectMines(count) => count in MineMenu
    case StartMines(_, draws) => forall k :: 0 <= k < |draws| ==> 0 <= draws[k] < GridSize
    case _ => true
  }

  function Apply(s: State, a: Action): Step
    requires Feasible(a)
  {
    match a
    case Deal(bet, swaps) => Ok(StartGame(s, bet, swaps))
    case Hit => PlayerHit(s)
    case Stand => PlayerStand(s)
    case SelectMines(count) => Ok(SetMineCount(s, count))
    case StartMines(bet, draws) => StartMinesGame(s, bet, draws)
    case Reveal(index) => Ok(RevealMine(s, index))
    case CashOutMines => Ok(CashOut(s))
    case Flip(bet, side, outcome) => Ok(FlipCoin(s, bet, side, outcome))
    case Spin(bet, color, result) => Ok(SpinRoulette(s, bet, color, result))
    case Navigate => Ok(ShowGame(s))
  }

  lemma {:induction false} InitialValid()
    ensures Valid(Initial())
  {
  }

  /** Two cards never total more than 21. */
  lemma {:induction false} TwoCardsFit(hand: seq<Card>)
    requires |hand| == 2
    ensures HandTotal(hand) <= 21
  {
    HardTotalAtLeastSize(hand);
  }

  lemma {:induction false} DealKeepsValid(s: State, bet: int, swaps: seq<int>)
    requires Valid(s) && SwapIndices(swaps, DeckSize)
    ensures Valid(StartGame(s, bet, swaps))
  {
    var r := StartGame(s, bet, swaps);
    if s.phase == Betting && ValidBet(s.balance, bet) {
      TwoCardsFit(r.player);
    }
  }

  /** With 52 cards in play, a player who has not bust and a two-card dealer
      hand, the deck cannot be empty. */
  lemma {:induction false} HitNeverExhausts(s: State)
    requires Valid(s)
    ensures PlayerHit(s) != DeckExhausted
    ensures PlayerHit(s).Ok? && Valid(PlayerHit(s).state)
  {
    if s.phase == PlayerTurn {
      HardTotalAtLeastSize(s.player);
      assert |InPlay(s)| == |s.deck| + |s.player| + |s.dealer|;
      assert s.deck != [];
    }
  }

  /** The dealer's draw-out cannot run out: 52 cards in play, at most 21
      of them with the player, and running out would leave fewer than 17
      between the dealer's hand and the deck. */
  lemma {:induction false} StandNeverExhausts(s: State)
    requires Valid(s)
    ensures PlayerStand(s) != DeckExhausted
    ensures PlayerStand(s).Ok? && Valid(PlayerStand(s).state)
  {
    if s.phase == PlayerTurn {
      HardTotalAtLeastSize(s.player);
      HardTotalAtLeastSize(s.dealer);
      HardTotalAtLeastSize(s.deck);
      assert |InPlay(s)| == |s.deck| + |s.player| + |s.dealer|;
      assert HardTotal(s.dealer) + HardTotal(s.deck) >= 17;
    }
  }

  lemma {:induction false} SelectKeepsValid(s: State, count: int)
    requires Valid(s) && count in MineMenu
    ensures Valid(SetMineCount(s, count))
  {
  }

  lemma {:induction false} StartMinesKeepsValid(s: State, bet: int, draws: seq<int>)
    requires Valid(s)
    requires forall k :: 0 <= k < |draws| ==> 0 <= draws[k] < GridSize
    ensures StartMinesGame(s, bet, draws).Ok? ==> Valid(StartMinesGame(s, bet, draws).state)
  {
    var r := StartMinesGame(s, bet, draws);
    if r.Ok? && !s.minesActive && ValidBet(s.balance, bet) {
      var g := r.state.grid;
      assert Positions(g, RevealedMine) == {};
      assert Positions(g, RevealedSafe) == {};
    }
  }

  /** Uncovering a safe cell moves exactly that index from the hidden safe
      cells to the uncovered ones. */
  lemma {:induction false} RevealSafeCounts(g: seq<Cell>, index: int)
    requires 0 <= index < |g| && g[index] == Safe
    ensures Positions(g[index := RevealedSafe], Mine) == Positions(g, Mine)
    ensures Positions(g[index := RevealedSafe], RevealedMine) == Positions(g, RevealedMine)
    ensures |Positions(g[index := RevealedSafe], RevealedSafe)| == |Positions(g, RevealedSafe)| + 1
  {
    var g' := g[index := RevealedSafe];
    assert Positions(g', RevealedSafe) == Positions(g, RevealedSafe) + {index};
  }

  lemma {:induction false} RevealKeepsValid(s: State, index: int)
    requires Valid(s)
    ensures Valid(RevealMine(s, index))
    ensures |RevealMine(s, index).grid| == |s.grid|
    ensures forall i :: 0 <= i < |s.grid| ==> (IsMine(RevealMine(s, index).grid[i]) <==> IsMine(s.grid[i]))
  {
    if s.minesActive && 0 <= index < |s.grid| && s.grid[index] == Safe {
      RevealSafeCounts(s.grid, index);
    }
  }

  /** In any valid state the potential cashout is never negative. */
  lemma {:induction false} CashoutNeverNegative(s: State)
    requires Valid(s)
    ensures CalculateCashout(s) >= 0
  {
  }

  /** Every action keeps the invariant, and no action ever draws from an
      empty deck. */
  lemma {:induction false} ApplyKeepsValid(s: State, a: Action)
    requires Valid(s) && Feasible(a)
    ensures Apply(s, a) != DeckExhausted
    ensures Apply(s, a).Ok? ==> Valid(Apply(s, a).state)
  {
    match a
    case Deal(bet, swaps) => DealKeepsValid(s, bet, swaps);
    case Hit => HitNeverExhausts(s);
    case Stand => StandNeverExhausts(s);
    case SelectMines(count) => SelectKeepsValid(s, count);
    case StartMines(bet, draws) => StartMinesKeepsValid(s, bet, draws);
    case Reveal(index) => RevealKeepsValid(s, index);
    case CashOutMines =>
    case Flip(bet, side, outcome) =>
    case Spin(bet, color, result) =>
    case Navigate =>
  }

  /** Play a sequence of actions; stop at the first one that gets stuck. */
  function Run(s: State, actions: seq<Action>): Step
    requires forall k :: 0 <= k < |actions| ==> Feasible(actions[k])
    decreases |actions|
  {
    if actions == [] then Ok(s)
    else match Apply(s, actions[0])
      case Ok(t) => Run(t, actions[1..])
      case stuck => stuck
  }

  /** From any valid state (InitialValid covers the page as it loads), any
      sequence of actions keeps the balance non-negative and the invariant,
      and never draws from an empty deck; it can only stop early when the
      mine draws supplied run out. */
  lemma {:induction false} RunKeepsValid(s: State, actions: seq<Action>)
    requires Valid(s)
    requires forall k :: 0 <= k < |actions| ==> Feasible(actions[k])
    ensures Run(s, actions) != DeckExhausted
    ensures Run(s, actions).Ok? ==> Valid(Run(s, actions).state) && Run(s, actions).state.balance >= 0
    decreases |actions|
  {
    if actions != [] {
      ApplyKeepsValid(s, actions[0]);
      if Apply(s, actions[0]).Ok? {
        RunKeepsValid(Apply(s, actions[0]).state, actions[1..]);
      }
    }
  }

  /** A running mines game can never count more revealed cells than there
      are safe cells: revealed + minesCount <= 25. */
  lemma {:induction false} RevealedBound(s: State)
    requires Valid(s) && s.minesActive
    ensures 0 <= s.revealed <= GridSize - s.minesCount
  {
    var mines, safe := Positions(s.grid, Mine), Positions(s.grid, RevealedSafe);
    assert mines * safe == {};
    IndexSetBound(mines + safe, GridSize);
  }

  /** Apart from starting a new game, no action hides an uncovered cell or
      moves a mine. */
  lemma {:induction false} CellsNeverHide(s: State, a: Action, i: int)
    requires Feasible(a) && !a.StartMines? && Apply(s, a).Ok?
    requires 0 <= i < |s.grid|
    ensures |Apply(s, a).state.grid| == |s.grid|
    ensures IsRevealed(s.grid[i]) ==> Apply(s, a).state.grid[i] == s.grid[i]
    ensures IsMine(Apply(s, a).state.grid[i]) <==> IsMine(s.grid[i])
  {
  }
}
