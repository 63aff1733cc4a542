/** Playing cards, the 52-card deck and the Fisher-Yates shuffle used by
    the blackjack table. The random swap partners of the shuffle are an
    input: `swaps[i]` is the index the loop draws when it visits `i`. */
module Cards {

  datatype Suit = Spades | Hearts | Diamonds | Clubs

  /** Numeric ranks 2..10; the card's value is the number itself. */
  type PipValue = n: int | 2 <= n <= 10 witness 2

  datatype Rank = Pip(n: PipValue) | Jack | Queen | King | Ace

  datatype Card = Card(suit: Suit, rank: Rank)

  /** The suits and ranks in the order the deck is built from. */
  const Suits: seq<Suit> := [Spades, Hearts, Diamonds, Clubs]
  const Ranks: seq<Rank> :=
    [Pip(2), Pip(3), Pip(4), Pip(5), Pip(6), Pip(7), Pip(8), Pip(9), Pip(10),
     Jack, Queen, King, Ace]

  const DeckSize := 52

  function SuitIndex(s: Suit): (k: nat)
    ensures k < |Suits| && Suits[k] == s
  {
    match s
    case Spades => 0
    case Hearts => 1
    case Diamonds => 2
    case Clubs => 3
  }

  function RankIndex(r: Rank): (k: nat)
    ensures k < |Ranks| && Ranks[k] == r
  {
    match r
    case Pip(n) => n - 2
    case Jack => 9
    case Queen => 10
    case King => 11
    case Ace => 12
  }

  /** No suit and no rank is listed twice. */
  lemma {:induction false} IndexOfListed()
    ensures forall k :: 0 <= k < |Suits| ==> SuitIndex(Suits[k]) == k
    ensures forall k :: 0 <= k < |Ranks| ==> RankIndex(Ranks[k]) == k
  {
  }

  ghost predicate Distinct<T>(s: seq<T>)
  {
    forall i, j :: 0 <= i < j < |s| ==> s[i] != s[j]
  }

  /** Every suit paired with every rank, suit by suit, ranks in order. */
  function CreateDeck(): (deck: seq<Card>)
    ensures |deck| == DeckSize
    ensures Distinct(deck)
    ensures forall c: Card :: c in deck
  {
    var deck := seq(DeckSize, i requires 0 <= i < DeckSize => Card(Suits[i / 13], Ranks[i % 13]));
    IndexOfListed();
    PositionInDeck(deck);
    deck
  }

  /** Card c sits at position 13 * (suit index) + (rank index). */
  lemma {:induction false} PositionInDeck(deck: seq<Card>)
    requires |deck| == DeckSize
    requires forall i :: 0 <= i < DeckSize ==> deck[i] == Card(Suits[i / 13], Ranks[i % 13])
    ensures forall c: Card :: c in deck
  {
    forall c: Card
      ensures c in deck
    {
      var k := 13 * SuitIndex(c.suit) + RankIndex(c.rank);
      assert k / 13 == SuitIndex(c.suit) && k % 13 == RankIndex(c.rank);
      assert deck[k] == c;
    }
  }

  /** Exchanges the elements at `i` and `j` (the destructuring swap). */
  function Swap<T>(s: seq<T>, i: nat, j: nat): (r: seq<T>)
    requires i < |s| && j < |s|
    ensures |r| == |s| && r[i] == s[j] && r[j] == s[i]
  {
    s[i := s[j]][j := s[i]]
  }

  /** A swap leaves every other position alone. */
  lemma {:induction false} SwapElsewhere<T>(s: seq<T>, i: nat, j: nat)
    requires i < |s| && j < |s|
    ensures forall k :: 0 <= k < |s| && k != i && k != j ==> Swap(s, i, j)[k] == s[k]
  {
  }

  /** A swap keeps every card. */
  lemma {:induction false} SwapPermutes<T>(s: seq<T>, i: nat, j: nat)
    requires i < |s| && j < |s|
    ensures multiset(Swap(s, i, j)) == multiset(s)
  {
  }

  /** The draws a shuffle of `n` cards may receive: when the loop visits
      position i (from n-1 down to 1) it swaps with some j in [0, i]. */
  ghost predicate SwapIndices(swaps: seq<int>, n: nat)
  {
    |swaps| == n && forall i :: 0 < i < n ==> 0 <= swaps[i] <= i
  }

  /** The loop of the shuffle from position `i` down to 1. */
  function ShuffleDown<T>(deck: seq<T>, swaps: seq<int>, i: int): (r: seq<T>)
    requires SwapIndices(swaps, |deck|) && i < |deck|
    ensures |r| == |deck|
    decreases i
  {
    if i <= 0 then deck
    else ShuffleDown(Swap(deck, i, swaps[i]), swaps, i - 1)
  }

  /** Every turn of the loop swaps two cards, so the loop keeps every card. */
  lemma {:induction false} ShuffleDownPermutes<T>(deck: seq<T>, swaps: seq<int>, i: int)
    requires SwapIndices(swaps, |deck|) && i < |deck|
    ensures multiset(ShuffleDown(deck, swaps, i)) == multiset(deck)
    decreases i
  {
    if i > 0 {
      SwapPermutes(deck, i, swaps[i]);
      ShuffleDownPermutes(Swap(deck, i, swaps[i]), swaps, i - 1);
    }
  }

  /** Draws that swap every position with itself leave the deck as it is. */
  lemma {:induction false} StayPut<T>(deck: seq<T>, swaps: seq<int>, i: int)
    requires SwapIndices(swaps, |deck|) && i < |deck|
    requires forall k :: 0 <= k < |deck| ==> swaps[k] == k
    ensures ShuffleDown(deck, swaps, i) == deck
    decreases i
  {
    if i > 0 {
      assert Swap(deck, i, swaps[i]) == deck;
      StayPut(deck, swaps, i - 1);
    }
  }

  /** Fisher-Yates: for i from the last index down to 1, swap i with swaps[i]. */
  function Shuffle<T>(deck: seq<T>, swaps: seq<int>): (r: seq<T>)
    requires SwapIndices(swaps, |deck|)
    ensures |r| == |deck| && multiset(r) == multiset(deck)
  {
    ShuffleDownPermutes(deck, swaps, |deck| - 1);
    ShuffleDown(deck, swaps, |deck| - 1)
  }

  /** Draws under which the shuffle from position i down turns `deck` into
      `target`, when the two agree above i and hold the same cards up to i:
      at each position pick the index of the card the target wants there.
      The draws above i are taken from `fixed`. */
  lemma {:induction false} SwapsFor<T>(deck: seq<T>, target: seq<T>, i: int, fixed: seq<int>)
    returns (swaps: seq<int>)
    requires -1 <= i < |deck| == |target|
    requires SwapIndices(fixed, |deck|)
    requires multiset(deck[..i + 1]) == multiset(target[..i + 1])
    requires deck[i + 1..] == target[i + 1..]
    ensures SwapIndices(swaps, |deck|)
    ensures forall k :: i < k < |deck| ==> swaps[k] == fixed[k]
    ensures ShuffleDown(deck, swaps, i) == target
    decreases i + 1
  {
    if i <= 0 {
      SameAtBottom(deck, target, i);
      swaps := fixed;
    } else {
      var j, fixed' := PlaceWanted(deck, target, i, fixed);
      swaps := SwapsFor(Swap(deck, i, j), target, i - 1, fixed');
      ShuffleDownStep(deck, swaps, i, j, target);
    }
  }

  /** The draw at position i that brings the card the target wants there,
      recorded in the draws: what is left below i still holds the cards the
      target wants there. */
  lemma {:induction false} PlaceWanted<T>(deck: seq<T>, target: seq<T>, i: int, fixed: seq<int>)
    returns (j: int, fixed': seq<int>)
    requires 0 < i < |deck| == |target|
    requires SwapIndices(fixed, |deck|)
    requires multiset(deck[..i + 1]) == multiset(target[..i + 1])
    requires deck[i + 1..] == target[i + 1..]
    ensures 0 <= j <= i
    ensures SwapIndices(fixed', |deck|) && fixed'[i] == j
    ensures forall k :: 0 <= k < |fixed| && k != i ==> fixed'[k] == fixed[k]
    ensures multiset(Swap(deck, i, j)[..i]) == multiset(target[..i])
    ensures Swap(deck, i, j)[i..] == target[i..]
  {
    j := WantedCardBelow(deck, target, i);
    PlaceFor(deck, target, i, j);
    fixed' := KeepDraw(fixed, i, j);
  }

  /** Fixing the draw at position i to some j in [0, i] keeps the draws valid. */
  lemma {:induction false} KeepDraw(fixed: seq<int>, i: int, j: int) returns (fixed': seq<int>)
    requires 0 <= j <= i < |fixed|
    requires SwapIndices(fixed, |fixed|)
    ensures SwapIndices(fixed', |fixed|) && fixed'[i] == j
    ensures forall k :: 0 <= k < |fixed| && k != i ==> fixed'[k] == fixed[k]
  {
    fixed' := fixed[i := j];
  }

  /** One turn of the shuffle loop. */
  lemma {:induction false} ShuffleDownStep<T>(deck: seq<T>, swaps: seq<int>, i: int, j: int, target: seq<T>)
    requires SwapIndices(swaps, |deck|) && 0 < i < |deck| && swaps[i] == j
    requires ShuffleDown(Swap(deck, i, j), swaps, i - 1) == target
    ensures ShuffleDown(deck, swaps, i) == target
  {
  }

  lemma {:induction false} SameAtBottom<T>(deck: seq<T>, target: seq<T>, i: int)
    requires -1 <= i <= 0 && i < |deck| == |target|
    requires multiset(deck[..i + 1]) == multiset(target[..i + 1])
    requires deck[i + 1..] == target[i + 1..]
    ensures deck == target
  {
    assert deck == deck[..i + 1] + deck[i + 1..];
    assert target == target[..i + 1] + target[i + 1..];
    if i == 0 {
      assert deck[..1] == [deck[0]] && target[..1] == [target[0]];
      assert deck[0] in multiset(target[..1]);
    }
  }

  /** The card the target wants at i is somewhere at or below i. */
  lemma {:induction false} WantedCardBelow<T>(deck: seq<T>, target: seq<T>, i: int) returns (j: int)
    requires 0 < i < |deck| == |target|
    requires multiset(deck[..i + 1]) == multiset(target[..i + 1])
    ensures 0 <= j <= i && deck[j] == target[i]
  {
    assert target[..i + 1][i] == target[i];
    assert target[i] in multiset(deck[..i + 1]);
    j :| 0 <= j <= i && deck[..i + 1][j] == target[i];
  }

  /** After swapping the wanted card into position i the two sequences
      agree from i up and hold the same cards below i. */
  lemma {:induction false} PlaceFor<T>(deck: seq<T>, target: seq<T>, i: int, j: int)
    requires 0 <= j <= i < |deck| == |target|
    requires deck[j] == target[i]
    requires multiset(deck[..i + 1]) == multiset(target[..i + 1])
    requires deck[i + 1..] == target[i + 1..]
    ensures multiset(Swap(deck, i, j)[..i]) == multiset(target[..i])
    ensures Swap(deck, i, j)[i..] == target[i..]
  {
    PlaceBelow(deck, target, i, j);
    PlaceAbove(deck, target, i, j);
  }

  lemma {:induction false} PlaceBelow<T>(deck: seq<T>, target: seq<T>, i: int, j: int)
    requires 0 <= j <= i < |deck| == |target|
    requires deck[j] == target[i]
    requires multiset(deck[..i + 1]) == multiset(target[..i + 1])
    ensures multiset(Swap(deck, i, j)[..i]) == multiset(target[..i])
  {
    SwapPrefix(deck, i, j);
    SwapPermutes(deck[..i + 1], i, j);
    DropLast(Swap(deck, i, j), target, i);
  }

  /** Swapping two positions at or below i and then cutting after i is the
      same as cutting first. */
  lemma {:induction false} SwapPrefix<T>(deck: seq<T>, i: int, j: int)
    requires 0 <= j <= i < |deck|
    ensures Swap(deck, i, j)[..i + 1] == Swap(deck[..i + 1], i, j)
  {
    SwapElsewhere(deck, i, j);
    SwapElsewhere(deck[..i + 1], i, j);
  }

  lemma {:induction false} PlaceAbove<T>(deck: seq<T>, target: seq<T>, i: int, j: int)
    requires 0 <= j <= i < |deck| == |target|
    requires deck[j] == target[i]
    requires deck[i + 1..] == target[i + 1..]
    ensures Swap(deck, i, j)[i..] == target[i..]
  {
    var d := Swap(deck, i, j);
    SwapElsewhere(deck, i, j);
    assert d[i..] == [d[i]] + d[i + 1..];
    assert target[i..] == [target[i]] + target[i + 1..];
  }

  /** Two sequences whose first n + 1 elements are the same cards, with
      the same card at n, have the same cards in their first n. */
  lemma {:induction false} DropLast<T>(a: seq<T>, b: seq<T>, n: int)
    requires 0 <= n < |a| && n < |b| && a[n] == b[n]
    requires multiset(a[..n + 1]) == multiset(b[..n + 1])
    ensures multiset(a[..n]) == multiset(b[..n])
  {
    assert a[..n + 1] == a[..n] + [a[n]];
    assert b[..n + 1] == b[..n] + [a[n]];
    assert multiset(a[..n]) == multiset(a[..n + 1]) - multiset{a[n]};
    assert multiset(b[..n]) == multiset(b[..n + 1]) - multiset{a[n]};
  }

  /** The whole deck satisfies the preconditions of `SwapsFor` at the top. */
  lemma {:induction false} WholeDeck<T>(deck: seq<T>, target: seq<T>)
    requires multiset(deck) == multiset(target)
    ensures |deck| == |target|
    ensures multiset(deck[..|deck|]) == multiset(target[..|deck|])
    ensures deck[|deck|..] == target[|deck|..]
  {
    assert |deck| == |multiset(deck)| == |target|;
    assert deck[..|deck|] == deck && target[..|target|] == target;
  }

  /** Every ordering of the deck is a possible outcome of the shuffle. */
  lemma {:induction false} ShuffleReachesEvery<T>(deck: seq<T>, target: seq<T>)
    requires multiset(deck) == multiset(target)
    ensures exists swaps :: SwapIndices(swaps, |deck|) && Shuffle(deck, swaps) == target
  {
    var zeros := Zeros(|deck|);
    var swaps := Reach(deck, target, zeros);
    assert SwapIndices(swaps, |deck|) && Shuffle(deck, swaps) == target;
  }

  lemma {:induction false} Zeros(n: nat) returns (zeros: seq<int>)
    ensures SwapIndices(zeros, n)
  {
    zeros := seq(n, k => 0);
  }

  lemma {:induction false} Reach<T>(deck: seq<T>, target: seq<T>, zeros: seq<int>) returns (swaps: seq<int>)
    requires multiset(deck) == multiset(target)
    requires SwapIndices(zeros, |deck|)
    ensures SwapIndices(swaps, |deck|) && Shuffle(deck, swaps) == target
  {
    WholeDeck(deck, target);
    swaps := SwapsFor(deck, target, |deck| - 1, zeros);
  }
}
