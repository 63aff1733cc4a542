/** Blackjack card values and hand totals. An ace counts 11 ("soft") until
    the total passes 21, then the aces are demoted to 1, one at a time. */
module Scoring {
  import opened Cards

  /** Face cards 10, ace 11, a numeric rank its number. */
  function CardValue(c: Card): (v: int)
    ensures 2 <= v <= 11
    ensures v == 11 <==> c.rank == Ace
    ensures c.rank.Pip? ==> v == c.rank.n
    ensures c.rank in {Jack, Queen, King} ==> v == 10
  {
    match c.rank
    case Jack | Queen | King => 10
    case Ace => 11
    case Pip(n) => n
  }

  /** The value of a card with an ace counted as 1. */
  function HardValue(c: Card): (v: int)
    ensures 1 <= v <= 10
  {
    if c.rank == Ace then 1 else CardValue(c)
  }

  function AceWeight(c: Card): int
  {
    if c.rank == Ace then 1 else 0
  }

  /** The sum of `f` over the cards of a hand. */
  function Sum(hand: seq<Card>, f: Card -> int): int
    decreases |hand|
  {
    if hand == [] then 0 else Sum(hand[..|hand| - 1], f) + f(hand[|hand| - 1])
  }

  /** The first loop of the hand total: every card at its face value. */
  function SoftTotal(hand: seq<Card>): int
  {
    Sum(hand, CardValue)
  }

  /** The total with every ace counted as 1. */
  function HardTotal(hand: seq<Card>): int
  {
    Sum(hand, HardValue)
  }

  function AceCount(hand: seq<Card>): (n: int)
    ensures 0 <= n <= |hand|
  {
    SumBounds(hand, AceWeight, 0, 1);
    Sum(hand, AceWeight)
  }

  lemma {:induction false} SumAppend(a: seq<Card>, b: seq<Card>, f: Card -> int)
    ensures Sum(a + b, f) == Sum(a, f) + Sum(b, f)
    decreases |b|
  {
    if b == [] {
      assert a + b == a;
    } else {
      var b' := b[..|b| - 1];
      assert (a + b)[..|a + b| - 1] == a + b';
      SumAppend(a, b', f);
    }
  }

  /** A sum over a hand does not depend on the order of its cards. */
  lemma {:induction false} SumPermutation(a: seq<Card>, b: seq<Card>, f: Card -> int)
    requires multiset(a) == multiset(b)
    ensures Sum(a, f) == Sum(b, f)
    decreases |a|
  {
    if a == [] {
      assert |multiset(b)| == 0;
    } else {
      var k := MatchLast(a, b);
      var b' := b[..k] + b[k + 1..];
      SumPermutation(a[..|a| - 1], b', f);
      SumRemoveAt(b, k, f);
    }
  }

  /** The last card of `a` sits somewhere in `b`; without it both hold the
      same cards. */
  lemma {:induction false} MatchLast(a: seq<Card>, b: seq<Card>) returns (k: int)
    requires a != [] && multiset(a) == multiset(b)
    ensures 0 <= k < |b| && b[k] == a[|a| - 1]
    ensures multiset(a[..|a| - 1]) == multiset(b[..k] + b[k + 1..])
  {
    var x := a[|a| - 1];
    assert a == a[..|a| - 1] + [x];
    assert x in multiset(b);
    k :| 0 <= k < |b| && b[k] == x;
    assert b == (b[..k] + [x]) + b[k + 1..];
    assert multiset(b[..k] + b[k + 1..]) == multiset(b) - multiset{x};
    assert multiset(a[..|a| - 1]) == multiset(a) - multiset{x};
  }

  /** Taking the card at k out of a hand takes its value out of the sum. */
  lemma {:induction false} SumRemoveAt(b: seq<Card>, k: int, f: Card -> int)
    requires 0 <= k < |b|
    ensures Sum(b, f) == Sum(b[..k] + b[k + 1..], f) + f(b[k])
  {
    var pre, x, post := b[..k], b[k], b[k + 1..];
    calc {
      Sum(b, f);
      { assert b == (pre + [x]) + post; }
      Sum((pre + [x]) + post, f);
      { SumAppend(pre + [x], post, f); }
      Sum(pre + [x], f) + Sum(post, f);
      { SumSnoc(pre, x, f); }
      Sum(pre, f) + f(x) + Sum(post, f);
      { SumAppend(pre, post, f); }
      Sum(pre + post, f) + f(x);
    }
  }

  lemma {:induction false} SumSnoc(a: seq<Card>, x: Card, f: Card -> int)
    ensures Sum(a + [x], f) == Sum(a, f) + f(x)
  {
    assert (a + [x])[..|a|] == a;
  }

  lemma {:induction false} SumBounds(hand: seq<Card>, f: Card -> int, lo: int, hi: int)
    requires forall c :: lo <= f(c) <= hi
    ensures lo * |hand| <= Sum(hand, f) <= hi * |hand|
    decreases |hand|
  {
    if hand != [] {
      SumBounds(hand[..|hand| - 1], f, lo, hi);
    }
  }

  /** Counting each ace as 11 adds 10 per ace to the hard total. */
  lemma {:induction false} SoftIsHardPlusAces(hand: seq<Card>)
    ensures SoftTotal(hand) == HardTotal(hand) + 10 * AceCount(hand)
    decreases |hand|
  {
    if hand != [] {
      SoftIsHardPlusAces(hand[..|hand| - 1]);
    }
  }

  /** The demotion loop: while the total is over 21 and an ace still counts
      11, take 10 off. Stops as soon as the total fits or no ace is left. */
  function Demote(total: int, aces: nat): (r: int)
    ensures total - 10 * aces <= r <= total
    ensures (total - r) % 10 == 0
    ensures r <= 21 || r == total - 10 * aces
    ensures r < total ==> r + 10 > 21
    decreases aces
  {
    if total > 21 && aces > 0 then
      var r := Demote(total - 10, aces - 1);
      TenMore(total - 10 - r);
      r
    else total
  }

  lemma {:induction false} TenMore(x: int)
    requires x % 10 == 0
    ensures (x + 10) % 10 == 0
  {
  }

  /** The best total of a hand: the hard total plus 10 for as many aces as
      fit under 22; the hard total when even that is over 21. */
  function HandTotal(hand: seq<Card>): (r: int)
    ensures HardTotal(hand) <= r <= HardTotal(hand) + 10 * AceCount(hand)
    ensures (r - HardTotal(hand)) % 10 == 0
    ensures r <= 21 <==> HardTotal(hand) <= 21
    ensures r > 21 ==> r == HardTotal(hand)
    ensures r < HardTotal(hand) + 10 * AceCount(hand) ==> r + 10 > 21
  {
    SoftIsHardPlusAces(hand);
    Demote(SoftTotal(hand), AceCount(hand))
  }

  /** No way of counting the aces gives a better total that still fits. */
  lemma {:induction false} HandTotalIsBest(hand: seq<Card>, soft: int)
    requires 0 <= soft <= AceCount(hand)
    requires HardTotal(hand) + 10 * soft <= 21
    ensures HardTotal(hand) + 10 * soft <= HandTotal(hand) <= 21
  {
  }

  /** The total of a hand does not depend on the order of its cards. */
  lemma {:induction false} HandTotalPermutation(a: seq<Card>, b: seq<Card>)
    requires multiset(a) == multiset(b)
    ensures HandTotal(a) == HandTotal(b)
  {
    SumPermutation(a, b, CardValue);
    SumPermutation(a, b, AceWeight);
  }

  /** Every card is worth at least 1, so a hand totals at least its size. */
  lemma {:induction false} HardTotalAtLeastSize(hand: seq<Card>)
    ensures |hand| <= HardTotal(hand) <= 10 * |hand|
  {
    SumBounds(hand, HardValue, 1, 10);
  }

  lemma {:induction false} HardTotalAppend(a: seq<Card>, b: seq<Card>)
    ensures HardTotal(a + b) == HardTotal(a) + HardTotal(b)
  {
    SumAppend(a, b, HardValue);
  }
}
