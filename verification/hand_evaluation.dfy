/** Poker hand strength from hand_evaluation.py.  A hand of five or more
    cards is classified as a (category, strength) pair; two hands compare
    by category first and by strength second.

    A set of ranks (one suit's ranks, or the ranks seen exactly k times) is
    carried as its listing from the highest rank down, which is what the
    source obtains by sorting such a set and reading it from the end. */
module HandEvaluation {
  import opened Exceptions

  /** A card as (rank, suit): ranks 2..14 with the ace high. */
  type Card = (int, char)

  // Categories, weakest first.
  const High := 1
  const Pair := 2
  const TwoPair := 3
  const Kind3 := 4
  const Straight := 5
  const Flush := 6
  const FullHouse := 7
  const Kind4 := 8
  const StraightFlush := 9

  const PowBase := 100
  /** `pows`: the powers of `PowBase` used to pack tiebreak digits. */
  const Pows: seq<int> := [1, 100, 10000, 1000000, 100000000]

  const Suits := "cdhs"

  predicate RanksInRange(hand: seq<Card>)
  {
    forall i :: 0 <= i < |hand| ==> 2 <= hand[i].0 <= 14
  }

  predicate SuitsKnown(hand: seq<Card>)
  {
    forall i :: 0 <= i < |hand| ==> hand[i].1 in Suits
  }

  // ---------------------------------------------------------------------
  // Counting ranks

  /** `rank_counts[q]`: how many cards of the hand have rank `q`. */
  function Count(hand: seq<Card>, q: int): (n: nat)
    ensures n <= |hand|
  {
    if |hand| == 0 then 0
    else (if hand[0].0 == q then 1 else 0) + Count(hand[1..], q)
  }

  predicate CountsAtMostFour(hand: seq<Card>)
  {
    forall q :: 2 <= q <= 14 ==> Count(hand, q) <= 4
  }

  /** The ranks `top`, `top - 1`, ..., 2 seen exactly `k` times, highest
      first: `rank_count_sets[k]`. */
  function WithCount(hand: seq<Card>, k: int, top: int): seq<int>
    decreases top
  {
    if top < 2 then []
    else (if Count(hand, top) == k then [top] else []) + WithCount(hand, k, top - 1)
  }

  /** `l` is strictly descending with every entry in 2..top. */
  predicate DescendingWithin(l: seq<int>, top: int)
  {
    (forall i :: 0 <= i < |l| ==> 2 <= l[i] <= top)
    && forall i, j :: 0 <= i < j < |l| ==> l[i] > l[j]
  }

  /** `WithCount` lists exactly the ranks seen `k` times, strictly descending. */
  lemma {:induction false} WithCountSpec(hand: seq<Card>, k: int, top: int)
    ensures DescendingWithin(WithCount(hand, k, top), top)
    ensures forall q :: q in WithCount(hand, k, top) <==> 2 <= q <= top && Count(hand, q) == k
    decreases top
  {
    if top >= 2 {
      WithCountSpec(hand, k, top - 1);
    }
  }

  function RankSet(hand: seq<Card>, k: int): seq<int>
  {
    WithCount(hand, k, 14)
  }

  /** The ranks `top`, ..., 2 seen five times or more, which fail the
      assertion of the rank-count loop. */
  function Overfull(hand: seq<Card>, top: int): seq<int>
    decreases top
  {
    if top < 2 then []
    else (if Count(hand, top) > 4 then [top] else []) + Overfull(hand, top - 1)
  }

  lemma {:induction false} OverfullSpec(hand: seq<Card>, top: int)
    ensures forall q :: q in Overfull(hand, top) <==> 2 <= q <= top && Count(hand, q) > 4
    decreases top
  {
    if top >= 2 {
      OverfullSpec(hand, top - 1);
    }
  }

  /** Whether the hand holds the card (q, s). */
  function Holds(hand: seq<Card>, q: int, s: char): bool
  {
    |hand| > 0 && (hand[0] == (q, s) || Holds(hand[1..], q, s))
  }

  lemma {:induction false} HoldsSpec(hand: seq<Card>, q: int, s: char)
    ensures Holds(hand, q, s) <==> (q, s) in hand
  {
    if |hand| > 0 {
      HoldsSpec(hand[1..], q, s);
      assert hand == [hand[0]] + hand[1..];
    }
  }

  /** The ranks `top`, ..., 2 held in suit `s`, highest first: `suit_hands[s]`. */
  function SuitListing(hand: seq<Card>, s: char, top: int): seq<int>
    decreases top
  {
    if top < 2 then []
    else (if Holds(hand, top, s) then [top] else []) + SuitListing(hand, s, top - 1)
  }

  /** `SuitListing` lists exactly the suit's ranks, strictly descending. */
  lemma {:induction false} SuitListingSpec(hand: seq<Card>, s: char, top: int)
    ensures DescendingWithin(SuitListing(hand, s, top), top)
    ensures forall q :: q in SuitListing(hand, s, top) <==> 2 <= q <= top && (q, s) in hand
    decreases top
  {
    if top >= 2 {
      SuitListingSpec(hand, s, top - 1);
      HoldsSpec(hand, top, s);
    }
  }

  function SuitRanks(hand: seq<Card>, s: char): seq<int>
  {
    SuitListing(hand, s, 14)
  }

  /** The list `ranks` of all the hand's ranks, one per card. */
  function RanksOf(hand: seq<Card>): (r: seq<int>)
    ensures |r| == |hand| && forall i :: 0 <= i < |hand| ==> r[i] == hand[i].0
  {
    if |hand| == 0 then [] else [hand[0].0] + RanksOf(hand[1..])
  }

  /** What the first half of `full_classify_hand` gathers: `suit_hands` in
      the order of `Suits`, the list `ranks`, and `rank_count_sets[1..4]`;
      `overfull` holds the ranks that fail the rank-count assertion. */
  datatype Buckets = Buckets(
    bySuit: seq<seq<int>>,
    ranks: seq<int>,
    singles: seq<int>,
    pairs: seq<int>,
    trips: seq<int>,
    quads: seq<int>,
    overfull: seq<int>)

  /** The four suit buckets, in the order of `Suits`. */
  function SuitBuckets(hand: seq<Card>): (r: seq<seq<int>>)
    ensures |r| == 4 && forall k :: 0 <= k < 4 ==> r[k] == SuitRanks(hand, Suits[k])
  {
    seq(4, k requires 0 <= k < 4 => SuitRanks(hand, Suits[k]))
  }

  function Bucket(hand: seq<Card>): Buckets
  {
    Buckets(SuitBuckets(hand),
            RanksOf(hand), RankSet(hand, 1), RankSet(hand, 2), RankSet(hand, 3), RankSet(hand, 4),
            Overfull(hand, 14))
  }

  // ---------------------------------------------------------------------
  // get_straight

  /** `rank_order[i]` for `rank_order = [14] + range(2, 15)`: the ace is
      listed below the two as well as above the king. */
  function RankOrder(i: int): int
  {
    if i == 0 then 14 else i + 1
  }

  /** `ranks` holds a five-card run whose top card is `top`; the run to 5
      starts with the ace. */
  predicate RunTo(ranks: seq<int>, top: int)
  {
    forall i :: top - 5 <= i < top ==> RankOrder(i) in ranks
  }

  /** The loop of `get_straight` from position `i` down, `streak` being the
      number of consecutive ranks found just above `i`. */
  function Scan(ranks: seq<int>, i: int, streak: int): int
    decreases i + 1
  {
    if i < 0 then 0
    else if RankOrder(i) in ranks then
      if streak + 1 == 5 then RankOrder(i + 4) else Scan(ranks, i - 1, streak + 1)
    else Scan(ranks, i - 1, 0)
  }

  /** The loop invariant of `get_straight`: `streak` counts the ranks found
      just above `i`, the rank above those is missing, and no run tops out
      above `i + 5`. */
  lemma {:induction false} ScanSpec(ranks: seq<int>, i: int, streak: int)
    requires -1 <= i <= 13 && 0 <= streak <= 4 && i + streak <= 13
    requires forall j :: i < j <= i + streak ==> RankOrder(j) in ranks
    requires i + streak < 13 ==> RankOrder(i + streak + 1) !in ranks
    requires forall t :: i + 5 < t <= 14 ==> !RunTo(ranks, t)
    ensures var r := Scan(ranks, i, streak);
      (r == 0 ==> forall t :: 5 <= t <= 14 ==> !RunTo(ranks, t))
      && (r != 0 ==> 5 <= r <= 14 && RunTo(ranks, r) && forall t :: r < t <= 14 ==> !RunTo(ranks, t))
    decreases i + 1
  {
    if i >= 0 {
      if RankOrder(i) in ranks {
        if streak + 1 < 5 {
          assert RunTo(ranks, i + 5) ==> RankOrder(i + streak + 1) in ranks;
          ScanSpec(ranks, i - 1, streak + 1);
        }
      } else {
        assert RunTo(ranks, i + 5) ==> RankOrder(i) in ranks;
        ScanSpec(ranks, i - 1, 0);
      }
    }
  }

  /** `get_straight(ranks)`: the top card of the highest five-card run, or
      0 when there is none. */
  function GetStraight(ranks: seq<int>): (r: int)
    ensures r == 0 || 5 <= r <= 14
    ensures r == 0 <==> forall t :: 5 <= t <= 14 ==> !RunTo(ranks, t)
    ensures r != 0 ==> RunTo(ranks, r) && forall t :: r < t <= 14 ==> !RunTo(ranks, t)
  {
    ScanSpec(ranks, 13, 0);
    Scan(ranks, 13, 0)
  }

  // ---------------------------------------------------------------------
  // get_tiebreak

  /** The loop of `get_tiebreak`: each digit in turn is appended in base
      `PowBase`, the first digit ending up most significant. */
  function Horner(digits: seq<int>): int
  {
    if |digits| == 0 then 0
    else Horner(digits[..|digits| - 1]) * PowBase + digits[|digits| - 1]
  }

  /** `get_tiebreak(ranks, num)` on the total path: the loop over the `num`
      highest ranks. */
  function Tiebreak(desc: seq<int>, num: nat): int
    requires num <= |desc|
  {
    if num == 0 then 0 else Tiebreak(desc, num - 1) * PowBase + desc[num - 1]
  }

  /** The tiebreak is the packing of the `num` highest ranks. */
  lemma {:induction false} TiebreakPacks(desc: seq<int>, num: nat)
    requires num <= |desc|
    ensures Tiebreak(desc, num) == Horner(desc[..num])
  {
    if num > 0 {
      TiebreakPacks(desc, num - 1);
      assert desc[..num][..num - 1] == desc[..num - 1];
    }
  }

  /** `get_tiebreak(ranks, num)` for a set of ranks listed highest first:
      it raises `IndexError` when the set has fewer than `num` ranks. */
  function GetTiebreak(desc: seq<int>, num: nat): (r: Outcome<int>)
    ensures r.Raises? <==> |desc| < num
    ensures r.Raises? ==> r.error == "IndexError"
    ensures r.Returns? ==> r.value == Tiebreak(desc, num)
  {
    if |desc| < num then Raises("IndexError") else Returns(Tiebreak(desc, num))
  }

  predicate Digits(s: seq<int>)
  {
    forall i :: 0 <= i < |s| ==> 0 <= s[i] < PowBase
  }

  /** Lexicographic order, first element most significant. */
  predicate LexLess(a: seq<int>, b: seq<int>)
    requires |a| == |b|
  {
    |a| > 0
    && (LexLess(a[..|a| - 1], b[..|b| - 1])
        || (a[..|a| - 1] == b[..|b| - 1] && a[|a| - 1] < b[|b| - 1]))
  }

  /** Packing digits below `PowBase` preserves lexicographic order and is
      injective: comparing two tiebreak numbers compares the rank lists. */
  lemma {:induction false} HornerOrder(a: seq<int>, b: seq<int>)
    requires |a| == |b| && Digits(a) && Digits(b)
    ensures Horner(a) < Horner(b) <==> LexLess(a, b)
    ensures Horner(a) == Horner(b) <==> a == b
    decreases |a|
  {
    if |a| > 0 {
      var a', b' := a[..|a| - 1], b[..|b| - 1];
      var x, y := a[|a| - 1], b[|b| - 1];
      HornerOrder(a', b');
      HornerOrder(b', a');
      assert a == a' + [x] && b == b' + [y];
      if Horner(a') < Horner(b') {
        assert Horner(a) < Horner(b);
      } else if Horner(b') < Horner(a') {
        assert Horner(b) < Horner(a);
        assert !LexLess(a', b') && a' != b';
      }
    }
  }

  // ---------------------------------------------------------------------
  // Helpers for the classification

  /** `max(xs)` on a non-empty collection. */
  function Largest(xs: seq<int>): (m: int)
    requires |xs| > 0
    ensures m in xs && forall i :: 0 <= i < |xs| ==> xs[i] <= m
  {
    if |xs| == 1 then xs[0]
    else
      var m := Largest(xs[1..]);
      if xs[0] > m then xs[0] else m
  }

  /** The best of `value` over the suit buckets, by the loop
      `if v > best: best = v` from 0.  The source walks the buckets in
      dictionary order; the maximum does not depend on it. */
  function BestOverSuits(buckets: seq<seq<int>>, value: seq<int> -> int): (m: int)
    ensures m >= 0 && forall i :: 0 <= i < |buckets| ==> value(buckets[i]) <= m
    ensures m == 0 || exists i :: 0 <= i < |buckets| && value(buckets[i]) == m
  {
    if |buckets| == 0 then 0
    else
      var m := BestOverSuits(buckets[..|buckets| - 1], value);
      var v := value(buckets[|buckets| - 1]);
      if v > m then v else m
  }

  /** The straight-flush candidate of one suit bucket. */
  function StraightFlushOf(rs: seq<int>): int
  {
    if |rs| >= 5 then GetStraight(rs) else 0
  }

  /** The flush candidate of one suit bucket. */
  function FlushOf(rs: seq<int>): int
  {
    if |rs| >= 5 then Tiebreak(rs, 5) else 0
  }

  /** The strength three of a kind evidently means to have: the trips'
      rank, then the two best kickers packed by `get_tiebreak`. */
  function Kind3Strength(trips: int, kickers: int): int
  {
    trips * Pows[2] + kickers
  }

  // ---------------------------------------------------------------------
  // full_classify_hand

  /** The category checks of `full_classify_hand`, strongest first. */
  function Categorize(b: Buckets): (r: Outcome<(int, int)>)
    ensures r.Returns? ==> High <= r.value.0 <= StraightFlush
    ensures r.Returns? && r.value.0 == Kind3 ==> |b.trips| >= 1
    ensures r.Raises? ==> r.error in {"AssertionError", "IndexError", "ValueError"}
  {
    var sf := BestOverSuits(b.bySuit, StraightFlushOf);
    if sf > 0 then Returns((StraightFlush, sf))
    else if |b.quads| > 0 then Returns((Kind4, Largest(b.quads)))
    else if |b.trips| >= 2 || (|b.trips| == 1 && |b.pairs| >= 1) then Returns((FullHouse, Largest(b.trips)))
    else if BestOverSuits(b.bySuit, FlushOf) > 0 then Returns((Flush, BestOverSuits(b.bySuit, FlushOf)))
    else if GetStraight(b.ranks) > 0 then Returns((Straight, GetStraight(b.ranks)))
    else ByCounts(b.singles, b.pairs, b.trips, b.quads)
  }

  /** The last four categories, decided by the rank-count sets `s1`..`s4`.
      Each branch starts with the source's assertion on the set sizes.  As
      written, three of a kind scores its two kickers alone. */
  function ByCounts(s1: seq<int>, s2: seq<int>, s3: seq<int>, s4: seq<int>): (r: Outcome<(int, int)>)
    ensures r.Returns? ==> High <= r.value.0 <= Kind3
    ensures r.Returns? && r.value.0 == Kind3 ==> |s3| >= 1
    ensures r.Raises? ==> r.error in {"AssertionError", "IndexError", "ValueError"}
  {
    if |s3| >= 1 then
      if !(|s2| == 0 && |s3| == 1 && |s4| == 0) then Raises("AssertionError")
      else
        match GetTiebreak(s1, 2)
        case Raises(e) => Raises(e)
        case Returns(t) => Returns((Kind3, t))
    else if |s2| >= 2 then
      if !(|s3| == 0 && |s4| == 0) then Raises("AssertionError")
      else
        var remaining := s2[2..] + s1;
        if |remaining| == 0 then Raises("ValueError")
        else Returns((TwoPair, s2[0] * Pows[2] + s2[1] * Pows[1] + Largest(remaining)))
    else if |s2| >= 1 then
      if !(|s2| == 1 && |s3| == 0 && |s4| == 0) then Raises("AssertionError")
      else
        match GetTiebreak(s1, 3)
        case Raises(e) => Raises(e)
        case Returns(t) => Returns((Pair, Largest(s2) * Pows[3] + t))
    else if !(|s2| == 0 && |s3| == 0 && |s4| == 0) then Raises("AssertionError")
    else
      match GetTiebreak(s1, 5)
      case Raises(e) => Raises(e)
      case Returns(t) => Returns((High, t))
  }

  /** `full_classify_hand(hand)`.  A short hand raises `NameError`, since
      the `Error` it means to raise is not defined; an unknown suit raises
      `KeyError` in the bucketing; a rank seen five or more times fails the
      assertion in the rank-count loop. */
  function FullClassifyHand(hand: seq<Card>): (r: Outcome<(int, int)>)
    requires RanksInRange(hand)
    ensures |hand| < 5 <==> r == Raises("NameError")
    ensures |hand| >= 5 && !SuitsKnown(hand) ==> r == Raises("KeyError")
    ensures r.Returns? ==> SuitsKnown(hand) && High <= r.value.0 <= StraightFlush
    ensures r.Returns? && r.value.0 == Kind3 ==> |RankSet(hand, 3)| >= 1
  {
    if |hand| < 5 then Raises("NameError")
    else if !SuitsKnown(hand) then Raises("KeyError")
    else
      var b := Bucket(hand);
      if |b.overfull| > 0 then Raises("AssertionError") else Categorize(b)
  }

  /** `full_classify_hand` with three of a kind scored as evidently meant:
      the trips' rank ahead of the kickers.  Every other outcome is the
      source's. */
  function FullClassifyHandCorrected(hand: seq<Card>): (r: Outcome<(int, int)>)
    requires RanksInRange(hand)
    ensures r.Returns? <==> FullClassifyHand(hand).Returns?
    ensures r.Raises? ==> r == FullClassifyHand(hand)
    ensures r.Returns? ==> r.value.0 == FullClassifyHand(hand).value.0
    ensures r.Returns? && r.value.0 != Kind3 ==> r == FullClassifyHand(hand)
  {
    var c := FullClassifyHand(hand);
    if c.Returns? && c.value.0 == Kind3 then
      Returns((Kind3, Kind3Strength(Largest(RankSet(hand, 3)), c.value.1)))
    else c
  }

  /** `classify_hand`: the memo lookup after its first line is dead code. */
  function ClassifyHand(hand: seq<Card>): (r: Outcome<(int, int)>)
    requires RanksInRange(hand)
    ensures r == FullClassifyHand(hand)
  {
    FullClassifyHand(hand)
  }

  // ---------------------------------------------------------------------
  // Comparison

  /** Classification order: category first, strength second. */
  predicate Beats(x: (int, int), y: (int, int))
  {
    x.0 > y.0 || (x.0 == y.0 && x.1 > y.1)
  }

  /** `compare_poker_hand(a, b)`: positive when `a` wins, zero on a tie,
      negative when `b` wins.  A classification error propagates. */
  function CompareHands(a: seq<Card>, b: seq<Card>): (r: Outcome<int>)
    requires RanksInRange(a) && RanksInRange(b)
    ensures r.Returns? <==> ClassifyHand(a).Returns? && ClassifyHand(b).Returns?
    ensures r.Returns? ==> (r.value > 0 <==> Beats(ClassifyHand(a).value, ClassifyHand(b).value))
    ensures r.Returns? ==> (r.value < 0 <==> Beats(ClassifyHand(b).value, ClassifyHand(a).value))
    ensures r.Returns? ==> (r.value == 0 <==> ClassifyHand(a).value == ClassifyHand(b).value)
  {
    match ClassifyHand(a)
    case Raises(e) => Raises(e)
    case Returns(ca) =>
      match ClassifyHand(b)
      case Raises(e) => Raises(e)
      case Returns(cb) => Returns(if ca.0 != cb.0 then ca.0 - cb.0 else ca.1 - cb.1)
  }

  /** `poker_hand_comparator(a, b)`: the sign of `compare_poker_hand`. */
  function PokerHandComparator(a: seq<Card>, b: seq<Card>): (r: Outcome<int>)
    requires RanksInRange(a) && RanksInRange(b)
    ensures r.Returns? <==> CompareHands(a, b).Returns?
    ensures r.Raises? ==> r == CompareHands(a, b)
    ensures r.Returns? ==> -1 <= r.value <= 1
    ensures r.Returns? ==> (r.value == 1 <==> CompareHands(a, b).value > 0)
    ensures r.Returns? ==> (r.value == -1 <==> CompareHands(a, b).value < 0)
  {
    match CompareHands(a, b)
    case Raises(e) => Raises(e)
    case Returns(d) => Returns(if d > 0 then 1 else if d == 0 then 0 else -1)
  }

  /** Swapping the hands negates the comparator. */
  lemma ComparatorAntisymmetric(a: seq<Card>, b: seq<Card>)
    requires RanksInRange(a) && RanksInRange(b)
    ensures PokerHandComparator(a, b).Returns? <==> PokerHandComparator(b, a).Returns?
    ensures PokerHandComparator(a, b).Returns? ==>
      PokerHandComparator(a, b).value == -PokerHandComparator(b, a).value
  {
  }

  /** The comparator orders hands transitively. */
  lemma ComparatorTransitive(a: seq<Card>, b: seq<Card>, c: seq<Card>)
    requires RanksInRange(a) && RanksInRange(b) && RanksInRange(c)
    requires PokerHandComparator(a, b) == Returns(1) && PokerHandComparator(b, c) == Returns(1)
    ensures PokerHandComparator(a, c) == Returns(1)
  {
  }

  // ---------------------------------------------------------------------
  // The classification is total on hands of distinct deck cards

  /** Cards with ranks `top`, ..., 2. */
  function CountSum(hand: seq<Card>, top: int): nat
    decreases top
  {
    if top < 2 then 0 else Count(hand, top) + CountSum(hand, top - 1)
  }

  lemma {:induction false} CountSumStep(hand: seq<Card>, top: int)
    requires |hand| > 0
    ensures CountSum(hand, top) == (if 2 <= hand[0].0 <= top then 1 else 0) + CountSum(hand[1..], top)
    decreases top
  {
    if top >= 2 {
      CountSumStep(hand, top - 1);
    }
  }

  /** Every card is counted under its rank once. */
  lemma {:induction false} CountSumLength(hand: seq<Card>)
    requires RanksInRange(hand)
    ensures CountSum(hand, 14) == |hand|
  {
    if |hand| > 0 {
      CountSumStep(hand, 14);
      CountSumLength(hand[1..]);
    }
  }

  /** With no rank seen more than four times, the rank-count sets account
      for every card. */
  lemma {:induction false} CountSumBySets(hand: seq<Card>, top: int)
    requires forall q :: 2 <= q <= top ==> Count(hand, q) <= 4
    ensures CountSum(hand, top) == |WithCount(hand, 1, top)| + 2 * |WithCount(hand, 2, top)|
                                   + 3 * |WithCount(hand, 3, top)| + 4 * |WithCount(hand, 4, top)|
    decreases top
  {
    if top >= 2 {
      CountSumBySets(hand, top - 1);
    }
  }

  predicate DistinctCards(hand: seq<Card>)
  {
    forall i, j :: 0 <= i < j < |hand| ==> hand[i] != hand[j]
  }

  lemma {:induction false} CountBySuit(hand: seq<Card>, q: int)
    requires SuitsKnown(hand)
    ensures Count(hand, q) == multiset(hand)[(q, 'c')] + multiset(hand)[(q, 'd')]
                              + multiset(hand)[(q, 'h')] + multiset(hand)[(q, 's')]
  {
    if |hand| > 0 {
      CountBySuit(hand[1..], q);
      assert hand == [hand[0]] + hand[1..];
    }
  }

  lemma {:induction false} DistinctOnce(hand: seq<Card>, x: Card)
    requires DistinctCards(hand)
    ensures multiset(hand)[x] <= 1
  {
    if |hand| > 0 {
      DistinctOnce(hand[1..], x);
      assert hand == [hand[0]] + hand[1..];
      if hand[0] == x {
        assert x !in hand[1..];
      }
    }
  }

  /** Four suits hold at most four distinct cards of a rank, so the
      rank-count assertion holds for a hand dealt from one deck. */
  lemma DistinctCountsAtMostFour(hand: seq<Card>)
    requires SuitsKnown(hand) && DistinctCards(hand)
    ensures CountsAtMostFour(hand)
  {
    forall q | 2 <= q <= 14
      ensures Count(hand, q) <= 4
    {
      CountBySuit(hand, q);
      DistinctOnce(hand, (q, 'c'));
      DistinctOnce(hand, (q, 'd'));
      DistinctOnce(hand, (q, 'h'));
      DistinctOnce(hand, (q, 's'));
    }
  }

  /** Once the checks above them have failed, the assertions of the last
      four categories hold and, with five or more cards counted, neither an
      index nor an empty `max` fails. */
  lemma ByCountsReturns(s1: seq<int>, s2: seq<int>, s3: seq<int>, s4: seq<int>)
    requires |s4| == 0 && !(|s3| >= 2 || (|s3| == 1 && |s2| >= 1))
    requires |s1| + 2 * |s2| + 3 * |s3| >= 5
    ensures ByCounts(s1, s2, s3, s4).Returns?
  {
  }

  lemma CategorizeReturns(b: Buckets)
    requires |b.singles| + 2 * |b.pairs| + 3 * |b.trips| + 4 * |b.quads| >= 5
    ensures Categorize(b).Returns?
  {
    if |b.quads| == 0 && !(|b.trips| >= 2 || (|b.trips| == 1 && |b.pairs| >= 1)) {
      ByCountsReturns(b.singles, b.pairs, b.trips, b.quads);
    }
  }

  /** `full_classify_hand` returns on every hand of five or more distinct
      cards with known suits: no assertion, index or empty `max` fails. */
  lemma ClassifyReturns(hand: seq<Card>)
    requires RanksInRange(hand) && SuitsKnown(hand) && DistinctCards(hand)
    ensures FullClassifyHand(hand).Returns? <==> |hand| >= 5
  {
    if |hand| >= 5 {
      DistinctCountsAtMostFour(hand);
      OverfullSpec(hand, 14);
      assert |Overfull(hand, 14)| == 0;
      CountSumLength(hand);
      CountSumBySets(hand, 14);
      CategorizeReturns(Bucket(hand));
    }
  }

  // ---------------------------------------------------------------------
  // How strengths order hands within a category

  /** A straight's strength is its top card; the wheel A-2-3-4-5 tops out at 5. */
  lemma WheelIsFive()
    ensures GetStraight([14, 2, 3, 4, 5]) == 5
    ensures GetStraight([10, 11, 12, 13, 14]) == 14
    ensures GetStraight([2, 3, 4, 5, 7]) == 0
  {
    var wheel := [14, 2, 3, 4, 5];
    forall i | 0 <= i < 5
      ensures RankOrder(i) in wheel
    {
      assert RankOrder(i) == wheel[i];
    }
    forall t | 5 < t <= 14
      ensures !RunTo(wheel, t)
    {
      var i := if t <= 10 then 5 else t - 5;
      assert t - 5 <= i < t && RankOrder(i) !in wheel;
    }
    var broadway := [10, 11, 12, 13, 14];
    forall i | 9 <= i < 14
      ensures RankOrder(i) in broadway
    {
      assert RankOrder(i) == broadway[i - 9];
    }
    var gap := [2, 3, 4, 5, 7];
    forall t | 5 <= t <= 14
      ensures !RunTo(gap, t)
    {
      var i := if t == 5 then 0 else if t <= 10 then 5 else t - 1;
      assert t - 5 <= i < t && RankOrder(i) !in gap;
    }
  }

  /** A longer run reports its highest five-card window. */
  lemma HighestRunWins(ranks: seq<int>, t: int)
    requires 5 <= t <= 14 && RunTo(ranks, t)
    ensures GetStraight(ranks) >= t
  {
  }

  lemma HornerThree(a: int, b: int, c: int)
    ensures Horner([a, b, c]) == a * Pows[2] + b * Pows[1] + c
  {
    assert [a, b, c][..2] == [a, b];
    assert [a, b][..1] == [a];
    assert [a][..0] == [];
    assert Horner([a]) == a;
    assert Horner([a, b]) == a * Pows[1] + b;
  }

  /** The packing of two, three and four digits, spelled out. */
  lemma HornerSmall(a: int, b: int, c: int, d: int)
    ensures Horner([a, b]) == a * PowBase + b
    ensures Horner([a, b, c]) == (a * PowBase + b) * PowBase + c
    ensures Horner([a, b, c, d]) == ((a * PowBase + b) * PowBase + c) * PowBase + d
  {
    assert [a, b, c, d][..3] == [a, b, c];
    assert [a, b, c][..2] == [a, b];
    assert [a, b][..1] == [a];
    assert [a][..0] == [];
    assert Horner([a]) == a;
    assert Horner([a, b]) == a * PowBase + b;
    assert Horner([a, b, c]) == (a * PowBase + b) * PowBase + c;
  }

  /** Packed digits compare lexicographically: two digits. */
  lemma PackedTwo(x1: int, y1: int, x2: int, y2: int)
    requires 0 <= y1 < PowBase && 0 <= y2 < PowBase
    ensures Horner([x1, y1]) < Horner([x2, y2]) <==> x1 < x2 || (x1 == x2 && y1 < y2)
    ensures Horner([x1, y1]) == Horner([x2, y2]) <==> x1 == x2 && y1 == y2
  {
    HornerSmall(x1, y1, 0, 0);
    HornerSmall(x2, y2, 0, 0);
  }

  /** Three digits. */
  lemma PackedThree(x1: int, y1: int, z1: int, x2: int, y2: int, z2: int)
    requires 0 <= y1 < PowBase && 0 <= z1 < PowBase && 0 <= y2 < PowBase && 0 <= z2 < PowBase
    ensures Horner([x1, y1, z1]) < Horner([x2, y2, z2])
            <==> x1 < x2 || (x1 == x2 && (y1 < y2 || (y1 == y2 && z1 < z2)))
    ensures Horner([x1, y1, z1]) == Horner([x2, y2, z2]) <==> x1 == x2 && y1 == y2 && z1 == z2
  {
    HornerSmall(x1, y1, z1, 0);
    HornerSmall(x2, y2, z2, 0);
    PackedTwo(x1, y1, x2, y2);
    PackedTwo(Horner([x1, y1]), z1, Horner([x2, y2]), z2);
  }

  /** Four digits. */
  lemma PackedFour(w1: int, x1: int, y1: int, z1: int, w2: int, x2: int, y2: int, z2: int)
    requires 0 <= x1 < PowBase && 0 <= y1 < PowBase && 0 <= z1 < PowBase
    requires 0 <= x2 < PowBase && 0 <= y2 < PowBase && 0 <= z2 < PowBase
    ensures Horner([w1, x1, y1, z1]) < Horner([w2, x2, y2, z2])
            <==> w1 < w2 || (w1 == w2 && (x1 < x2 || (x1 == x2 && (y1 < y2 || (y1 == y2 && z1 < z2)))))
    ensures Horner([w1, x1, y1, z1]) == Horner([w2, x2, y2, z2])
            <==> w1 == w2 && x1 == x2 && y1 == y2 && z1 == z2
  {
    HornerSmall(w1, x1, y1, z1);
    HornerSmall(w2, x2, y2, z2);
    PackedThree(w1, x1, y1, w2, x2, y2);
    PackedTwo(Horner([w1, x1, y1]), z1, Horner([w2, x2, y2]), z2);
  }

  // ---------------------------------------------------------------------
  // What the count-based categories score

  /** How many of the hand's cards have suit `s`. */
  function SuitCount(hand: seq<Card>, s: char): (n: nat)
    ensures n <= |hand|
  {
    if |hand| == 0 then 0
    else (if hand[0].1 == s then 1 else 0) + SuitCount(hand[1..], s)
  }

  /** No five of the hand's cards share a suit. */
  predicate NoFlush(hand: seq<Card>)
  {
    forall s :: SuitCount(hand, s) < 5
  }

  /** No five-rank run among the hand's ranks, the ace counting also below
      the two. */
  predicate NoStraight(hand: seq<Card>)
  {
    forall t :: 5 <= t <= 14 ==> !RunTo(RanksOf(hand), t)
  }

  /** Five or more deck cards with neither a flush nor a straight: the
      hands the rank counts alone classify. */
  predicate Plain(hand: seq<Card>)
  {
    RanksInRange(hand) && SuitsKnown(hand) && |hand| >= 5 && NoFlush(hand) && NoStraight(hand)
  }

  lemma {:induction false} ListingOfNothing(hand: seq<Card>, s: char, top: int)
    requires |hand| == 0
    ensures SuitListing(hand, s, top) == []
    decreases top
  {
    if top >= 2 {
      ListingOfNothing(hand, s, top - 1);
    }
  }

  /** The first card adds at most one rank to its suit's listing. */
  lemma {:induction false} ListingStep(hand: seq<Card>, s: char, top: int)
    requires |hand| > 0
    ensures |SuitListing(hand, s, top)|
            <= |SuitListing(hand[1..], s, top)| + (if hand[0].1 == s && 2 <= hand[0].0 <= top then 1 else 0)
    decreases top
  {
    if top >= 2 {
      ListingStep(hand, s, top - 1);
    }
  }

  /** A suit lists no more ranks than the hand has cards of that suit. */
  lemma {:induction false} ListingBound(hand: seq<Card>, s: char)
    ensures |SuitRanks(hand, s)| <= SuitCount(hand, s)
  {
    if |hand| == 0 {
      ListingOfNothing(hand, s, 14);
    } else {
      ListingStep(hand, s, 14);
      ListingBound(hand[1..], s);
    }
  }

  /** Without five cards of one suit, neither flush check finds a candidate. */
  lemma NoFlushBuckets(hand: seq<Card>)
    requires NoFlush(hand)
    ensures BestOverSuits(SuitBuckets(hand), StraightFlushOf) == 0
    ensures BestOverSuits(SuitBuckets(hand), FlushOf) == 0
  {
    var b := SuitBuckets(hand);
    forall k | 0 <= k < 4
      ensures StraightFlushOf(b[k]) == 0 && FlushOf(b[k]) == 0
    {
      ListingBound(hand, Suits[k]);
    }
  }

  lemma {:induction false} NoneWithCount(hand: seq<Card>, k: int, top: int)
    requires forall q :: 2 <= q <= top ==> Count(hand, q) != k
    ensures WithCount(hand, k, top) == []
    decreases top
  {
    if top >= 2 {
      NoneWithCount(hand, k, top - 1);
    }
  }

  lemma {:induction false} NoneOverfull(hand: seq<Card>, top: int)
    requires forall q :: 2 <= q <= top ==> Count(hand, q) <= 4
    ensures Overfull(hand, top) == []
    decreases top
  {
    if top >= 2 {
      NoneOverfull(hand, top - 1);
    }
  }

  /** With no straight flush, no four of a kind, no full house, no flush
      and no straight, the rank-count sets decide. */
  lemma CategorizeByCounts(b: Buckets)
    requires BestOverSuits(b.bySuit, StraightFlushOf) == 0 && BestOverSuits(b.bySuit, FlushOf) == 0
    requires |b.quads| == 0 && !(|b.trips| >= 2 || (|b.trips| == 1 && |b.pairs| >= 1))
    requires GetStraight(b.ranks) == 0
    ensures Categorize(b) == ByCounts(b.singles, b.pairs, b.trips, b.quads)
  {
  }

  lemma LargestIs(xs: seq<int>, m: int)
    requires m in xs && forall x :: x in xs ==> x <= m
    ensures Largest(xs) == m
  {
    var k :| 0 <= k < |xs| && xs[k] == m;
  }

  /** When `a` is the highest rank up to `top` seen `k` times, the listing
      starts with it. */
  lemma {:induction false} ListingFrom(hand: seq<Card>, k: int, top: int, a: int)
    requires 2 <= a <= top && Count(hand, a) == k
    requires forall q :: a < q <= top ==> Count(hand, q) != k
    ensures WithCount(hand, k, top) == [a] + WithCount(hand, k, a - 1)
    decreases top
  {
    if top > a {
      ListingFrom(hand, k, top - 1, a);
    }
  }

  /** A rank seen `k` times when no other rank is lists alone. */
  lemma SoleListed(hand: seq<Card>, k: int, a: int)
    requires 2 <= a <= 14 && Count(hand, a) == k
    requires forall q :: 2 <= q <= 14 && q != a ==> Count(hand, q) != k
    ensures RankSet(hand, k) == [a]
  {
    ListingFrom(hand, k, 14, a);
    NoneWithCount(hand, k, a - 1);
  }

  /** `ListingFrom` by position, for the first entries: the listing is
      `a` followed by the listing below `a`. */
  lemma ListingShift(hand: seq<Card>, k: int, top: int, a: int)
    requires 2 <= a <= top && Count(hand, a) == k
    requires forall q :: a < q <= top ==> Count(hand, q) != k
    ensures |WithCount(hand, k, top)| == |WithCount(hand, k, a - 1)| + 1
    ensures WithCount(hand, k, top)[0] == a
    ensures |WithCount(hand, k, a - 1)| >= 1 ==> WithCount(hand, k, top)[1] == WithCount(hand, k, a - 1)[0]
    ensures |WithCount(hand, k, a - 1)| >= 2 ==> WithCount(hand, k, top)[2] == WithCount(hand, k, a - 1)[1]
  {
    ListingFrom(hand, k, top, a);
  }

  /** The two highest ranks up to `top` seen `k` times head the listing. */
  lemma {:induction false} FirstTwo(hand: seq<Card>, k: int, top: int, a: int, b: int)
    requires 2 <= b < a <= top && Count(hand, a) == k && Count(hand, b) == k
    requires forall q :: b < q <= top && q != a ==> Count(hand, q) != k
    ensures |WithCount(hand, k, top)| >= 2
    ensures WithCount(hand, k, top)[0] == a && WithCount(hand, k, top)[1] == b
    decreases top
  {
    if top > a {
      FirstTwo(hand, k, top - 1, a, b);
    } else {
      ListingShift(hand, k, top - 1, b);
    }
  }

  /** The three highest ranks up to `top` seen `k` times head the listing. */
  lemma {:induction false} FirstThree(hand: seq<Card>, k: int, top: int, a: int, b: int, c: int)
    requires 2 <= c < b < a <= top && Count(hand, a) == k && Count(hand, b) == k && Count(hand, c) == k
    requires forall q :: c < q <= top && q != a && q != b ==> Count(hand, q) != k
    ensures |WithCount(hand, k, top)| >= 3
    ensures WithCount(hand, k, top)[0] == a && WithCount(hand, k, top)[1] == b
    ensures WithCount(hand, k, top)[2] == c
    decreases top
  {
    if top > a {
      FirstThree(hand, k, top - 1, a, b, c);
    } else {
      FirstTwo(hand, k, top - 1, b, c);
    }
  }

  /** On a plain hand with no four of a kind and no full house, the
      count-based categories decide. */
  lemma PlainByCounts(hand: seq<Card>)
    requires Plain(hand) && forall q :: 2 <= q <= 14 ==> Count(hand, q) <= 3
    requires |RankSet(hand, 3)| == 0 || (|RankSet(hand, 3)| == 1 && |RankSet(hand, 2)| == 0)
    ensures RankSet(hand, 4) == []
    ensures FullClassifyHand(hand)
      == ByCounts(RankSet(hand, 1), RankSet(hand, 2), RankSet(hand, 3), RankSet(hand, 4))
  {
    ClassifyByBuckets(hand);
    NoneOverfull(hand, 14);
    NoneWithCount(hand, 4, 14);
    NoFlushBuckets(hand);
    CategorizeByCounts(Bucket(hand));
  }

  /** Two pair on the rank-count listings: the two highest pairs, then the
      best rank among the other pairs and the singles. */
  lemma TwoPairByCounts(s1: seq<int>, s2: seq<int>, hi: int, lo: int, kicker: int)
    requires |s2| >= 2 && s2[0] == hi && s2[1] == lo
    requires kicker in s2[2..] || kicker in s1
    requires forall i :: 2 <= i < |s2| ==> s2[i] <= kicker
    requires forall x :: x in s1 ==> x <= kicker
    ensures ByCounts(s1, s2, [], []) == Returns((TwoPair, Horner([hi, lo, kicker])))
  {
    var remaining := s2[2..] + s1;
    forall x | x in remaining
      ensures x <= kicker
    {
      if x !in s1 {
        var i :| 0 <= i < |s2[2..]| && s2[2..][i] == x;
        assert s2[i + 2] == x;
      }
    }
    LargestIs(remaining, kicker);
    HornerThree(hi, lo, kicker);
  }

  /** Three of a kind on the listings, as written: the two best singles. */
  lemma Kind3ByCounts(s1: seq<int>, trips: int, high: int, low: int)
    requires |s1| >= 2 && s1[0] == high && s1[1] == low
    ensures ByCounts(s1, [], [trips], []) == Returns((Kind3, Horner([high, low])))
  {
    TiebreakPacks(s1, 2);
    assert s1[..2] == [high, low];
  }

  /** One pair on the listings: the pair, then the three best singles. */
  lemma PairByCounts(s1: seq<int>, pair: int, k1: int, k2: int, k3: int)
    requires |s1| >= 3 && s1[0] == k1 && s1[1] == k2 && s1[2] == k3
    ensures ByCounts(s1, [pair], [], []) == Returns((Pair, Horner([pair, k1, k2, k3])))
  {
    TiebreakPacks(s1, 3);
    assert s1[..3] == [k1, k2, k3];
    HornerSmall(pair, k1, k2, k3);
    HornerSmall(k1, k2, k3, 0);
    assert Largest([pair]) == pair;
  }

  /** Putting the trips' rank in front of the two packed kickers packs the
      three digits. */
  lemma Kind3Packs(trips: int, high: int, low: int)
    ensures Kind3Strength(trips, Horner([high, low])) == Horner([trips, high, low])
  {
    HornerSmall(trips, high, low, 0);
  }

  /** `hi` and `lo` are the ranks of the hand's two highest pairs and
      `kicker` its highest other rank; no rank is held three times. */
  predicate TwoPairShape(hand: seq<Card>, hi: int, lo: int, kicker: int)
  {
    && (forall q :: 2 <= q <= 14 ==> Count(hand, q) <= 2)
    && 2 <= lo < hi <= 14 && Count(hand, hi) == 2 && Count(hand, lo) == 2
    && (forall q :: lo < q <= 14 && q != hi ==> Count(hand, q) < 2)
    && 2 <= kicker <= 14 && kicker != hi && kicker != lo && Count(hand, kicker) >= 1
    && (forall q :: kicker < q <= 14 && q != hi && q != lo ==> Count(hand, q) == 0)
  }

  /** The singles of a two-pair hand rank no higher than its kicker. */
  lemma TwoPairSingles(hand: seq<Card>, hi: int, lo: int, kicker: int)
    requires TwoPairShape(hand, hi, lo, kicker)
    ensures forall x :: x in RankSet(hand, 1) ==> x <= kicker
  {
    WithCountSpec(hand, 1, 14);
  }

  /** The pairs of a two-pair hand: the two it is named for, then lower
      ones that rank no higher than its kicker. */
  lemma TwoPairPairs(hand: seq<Card>, hi: int, lo: int, kicker: int)
    requires TwoPairShape(hand, hi, lo, kicker)
    ensures |RankSet(hand, 2)| >= 2 && RankSet(hand, 2)[0] == hi && RankSet(hand, 2)[1] == lo
    ensures forall i :: 2 <= i < |RankSet(hand, 2)| ==> RankSet(hand, 2)[i] <= kicker
  {
    FirstTwo(hand, 2, 14, hi, lo);
    WithCountSpec(hand, 2, 14);
    var s2 := RankSet(hand, 2);
    forall i | 2 <= i < |s2|
      ensures s2[i] <= kicker
    {
      assert s2[i] < s2[1] && s2[i] in s2;
    }
  }

  /** The kicker of a two-pair hand is a single or a lower pair. */
  lemma TwoPairKicker(hand: seq<Card>, hi: int, lo: int, kicker: int)
    requires 2 <= kicker <= 14 && kicker != hi && kicker != lo && 1 <= Count(hand, kicker) <= 2
    requires |RankSet(hand, 2)| >= 2 && RankSet(hand, 2)[0] == hi && RankSet(hand, 2)[1] == lo
    ensures kicker in RankSet(hand, 2)[2..] || kicker in RankSet(hand, 1)
  {
    var s2 := RankSet(hand, 2);
    if Count(hand, kicker) == 2 {
      Listed(hand, 2, 14, kicker);
      TailMember(s2, kicker);
    } else {
      Listed(hand, 1, 14, kicker);
    }
  }

  /** A rank seen `k` times is in the listing. */
  lemma Listed(hand: seq<Card>, k: int, top: int, q: int)
    requires 2 <= q <= top && Count(hand, q) == k
    ensures q in WithCount(hand, k, top)
  {
    WithCountSpec(hand, k, top);
  }

  /** A member of `l` other than its first two entries is in the tail. */
  lemma TailMember(l: seq<int>, x: int)
    requires |l| >= 2 && x in l && x != l[0] && x != l[1]
    ensures x in l[2..]
  {
    var j :| 0 <= j < |l| && l[j] == x;
    assert l[2..][j - 2] == l[j];
  }

  /** A plain two-pair hand scores its higher pair, its lower pair and its
      best other rank, packed in that order. */
  lemma TwoPairClassified(hand: seq<Card>, hi: int, lo: int, kicker: int)
    requires Plain(hand) && TwoPairShape(hand, hi, lo, kicker)
    ensures FullClassifyHand(hand) == Returns((TwoPair, Horner([hi, lo, kicker])))
  {
    TwoPairPairs(hand, hi, lo, kicker);
    TwoPairSingles(hand, hi, lo, kicker);
    TwoPairKicker(hand, hi, lo, kicker);
    NoneWithCount(hand, 3, 14);
    PlainByCounts(hand);
    TwoPairByCounts(RankSet(hand, 1), RankSet(hand, 2), hi, lo, kicker);
  }

  /** `trips` is held three times, `high` and `low` are the two highest
      other ranks, and no other rank is held twice. */
  predicate Kind3Shape(hand: seq<Card>, trips: int, high: int, low: int)
  {
    && 2 <= trips <= 14 && Count(hand, trips) == 3
    && (forall q :: 2 <= q <= 14 && q != trips ==> Count(hand, q) <= 1)
    && 2 <= low < high <= 14 && high != trips && low != trips
    && Count(hand, high) == 1 && Count(hand, low) == 1
    && (forall q :: low < q <= 14 && q != trips && q != high ==> Count(hand, q) == 0)
  }

  /** As written, plain three of a kind scores its two kickers alone; the
      corrected classification puts the trips' rank in front of them. */
  lemma Kind3Classified(hand: seq<Card>, trips: int, high: int, low: int)
    requires Plain(hand) && Kind3Shape(hand, trips, high, low)
    ensures FullClassifyHand(hand) == Returns((Kind3, Horner([high, low])))
    ensures FullClassifyHandCorrected(hand) == Returns((Kind3, Horner([trips, high, low])))
  {
    FirstTwo(hand, 1, 14, high, low);
    SoleListed(hand, 3, trips);
    NoneWithCount(hand, 2, 14);
    PlainByCounts(hand);
    Kind3ByCounts(RankSet(hand, 1), trips, high, low);
    Kind3Corrected(hand, trips, Horner([high, low]));
    Kind3Packs(trips, high, low);
  }

  /** The corrected classification puts the trips' rank in front. */
  lemma Kind3Corrected(hand: seq<Card>, trips: int, kickers: int)
    requires RanksInRange(hand) && RankSet(hand, 3) == [trips]
    requires FullClassifyHand(hand) == Returns((Kind3, kickers))
    ensures FullClassifyHandCorrected(hand) == Returns((Kind3, Kind3Strength(trips, kickers)))
  {
    assert Largest([trips]) == trips;
  }

  /** `pair` is held twice, `k1 > k2 > k3` are the three highest other
      ranks, and no other rank is held twice. */
  predicate PairShape(hand: seq<Card>, pair: int, k1: int, k2: int, k3: int)
  {
    && 2 <= pair <= 14 && Count(hand, pair) == 2
    && (forall q :: 2 <= q <= 14 && q != pair ==> Count(hand, q) <= 1)
    && 2 <= k3 < k2 < k1 <= 14 && k1 != pair && k2 != pair && k3 != pair
    && Count(hand, k1) == 1 && Count(hand, k2) == 1 && Count(hand, k3) == 1
    && (forall q :: k3 < q <= 14 && q != pair && q != k1 && q != k2 ==> Count(hand, q) == 0)
  }

  /** A plain one-pair hand scores the pair's rank, then its three best
      other ranks, packed in that order. */
  lemma PairClassified(hand: seq<Card>, pair: int, k1: int, k2: int, k3: int)
    requires Plain(hand) && PairShape(hand, pair, k1, k2, k3)
    ensures FullClassifyHand(hand) == Returns((Pair, Horner([pair, k1, k2, k3])))
  {
    FirstThree(hand, 1, 14, k1, k2, k3);
    SoleListed(hand, 2, pair);
    NoneWithCount(hand, 3, 14);
    PlainByCounts(hand);
    PairByCounts(RankSet(hand, 1), pair, k1, k2, k3);
  }

  // ---------------------------------------------------------------------
  // How the comparator orders hands within a category

  /** The comparator on two hands that classify as `x` and `y`. */
  lemma ComparatorOn(a: seq<Card>, b: seq<Card>, x: (int, int), y: (int, int))
    requires RanksInRange(a) && RanksInRange(b)
    requires FullClassifyHand(a) == Returns(x) && FullClassifyHand(b) == Returns(y)
    ensures PokerHandComparator(a, b) == Returns(1) <==> Beats(x, y)
    ensures PokerHandComparator(a, b) == Returns(0) <==> x == y
  {
  }

  /** Two plain two-pair hands compare by the higher pair, then the lower
      pair, then the kicker. */
  lemma TwoPairOrder(a: seq<Card>, hiA: int, loA: int, kA: int, b: seq<Card>, hiB: int, loB: int, kB: int)
    requires Plain(a) && TwoPairShape(a, hiA, loA, kA)
    requires Plain(b) && TwoPairShape(b, hiB, loB, kB)
    ensures PokerHandComparator(a, b) == Returns(1)
            <==> hiA > hiB || (hiA == hiB && (loA > loB || (loA == loB && kA > kB)))
    ensures PokerHandComparator(a, b) == Returns(0) <==> hiA == hiB && loA == loB && kA == kB
  {
    TwoPairClassified(a, hiA, loA, kA);
    TwoPairClassified(b, hiB, loB, kB);
    ComparatorOn(a, b, (TwoPair, Horner([hiA, loA, kA])), (TwoPair, Horner([hiB, loB, kB])));
    PackedThree(hiB, loB, kB, hiA, loA, kA);
  }

  /** Two plain one-pair hands compare by the pair, then the three kickers
      from the highest down. */
  lemma PairOrder(a: seq<Card>, pA: int, a1: int, a2: int, a3: int, b: seq<Card>, pB: int, b1: int, b2: int, b3: int)
    requires Plain(a) && PairShape(a, pA, a1, a2, a3)
    requires Plain(b) && PairShape(b, pB, b1, b2, b3)
    ensures PokerHandComparator(a, b) == Returns(1)
            <==> pA > pB || (pA == pB && (a1 > b1 || (a1 == b1 && (a2 > b2 || (a2 == b2 && a3 > b3)))))
    ensures PokerHandComparator(a, b) == Returns(0) <==> pA == pB && a1 == b1 && a2 == b2 && a3 == b3
  {
    PairClassified(a, pA, a1, a2, a3);
    PairClassified(b, pB, b1, b2, b3);
    ComparatorOn(a, b, (Pair, Horner([pA, a1, a2, a3])), (Pair, Horner([pB, b1, b2, b3])));
    PackedFour(pB, b1, b2, b3, pA, a1, a2, a3);
  }

  /** As written, two plain three-of-a-kind hands compare by their kickers
      alone: the trips' rank plays no part. */
  lemma Kind3OrderAsWritten(a: seq<Card>, tA: int, hA: int, lA: int, b: seq<Card>, tB: int, hB: int, lB: int)
    requires Plain(a) && Kind3Shape(a, tA, hA, lA)
    requires Plain(b) && Kind3Shape(b, tB, hB, lB)
    ensures PokerHandComparator(a, b) == Returns(1) <==> hA > hB || (hA == hB && lA > lB)
    ensures PokerHandComparator(a, b) == Returns(0) <==> hA == hB && lA == lB
  {
    Kind3Classified(a, tA, hA, lA);
    Kind3Classified(b, tB, hB, lB);
    ComparatorOn(a, b, (Kind3, Horner([hA, lA])), (Kind3, Horner([hB, lB])));
    PackedTwo(hB, lB, hA, lA);
  }

  /** With the trips counted, plain three of a kind is ordered by the trips'
      rank first and by the two kickers second. */
  lemma Kind3Order(a: seq<Card>, tA: int, hA: int, lA: int, b: seq<Card>, tB: int, hB: int, lB: int)
    requires Plain(a) && Kind3Shape(a, tA, hA, lA)
    requires Plain(b) && Kind3Shape(b, tB, hB, lB)
    ensures FullClassifyHandCorrected(a).Returns? && FullClassifyHandCorrected(b).Returns?
    ensures Beats(FullClassifyHandCorrected(a).value, FullClassifyHandCorrected(b).value)
            <==> tA > tB || (tA == tB && (hA > hB || (hA == hB && lA > lB)))
  {
    Kind3Classified(a, tA, hA, lA);
    Kind3Classified(b, tB, hB, lB);
    PackedThree(tB, hB, lB, tA, hA, lA);
  }

  lemma CountFive(h: seq<Card>, q: int)
    requires |h| == 5
    ensures Count(h, q) == (if h[0].0 == q then 1 else 0) + (if h[1].0 == q then 1 else 0)
      + (if h[2].0 == q then 1 else 0) + (if h[3].0 == q then 1 else 0) + (if h[4].0 == q then 1 else 0)
  {
    assert Count(h[5..], q) == 0;
    assert Count(h[1..], q) == (if h[1].0 == q then 1 else 0) + Count(h[2..], q) by {
      assert h[1..][0] == h[1] && h[1..][1..] == h[2..];
    }
    assert Count(h[2..], q) == (if h[2].0 == q then 1 else 0) + Count(h[3..], q) by {
      assert h[2..][0] == h[2] && h[2..][1..] == h[3..];
    }
    assert Count(h[3..], q) == (if h[3].0 == q then 1 else 0) + Count(h[4..], q) by {
      assert h[3..][0] == h[3] && h[3..][1..] == h[4..];
    }
    assert Count(h[4..], q) == (if h[4].0 == q then 1 else 0) + Count(h[5..], q) by {
      assert h[4..][0] == h[4] && h[4..][1..] == h[5..];
    }
  }

  lemma SuitCountFive(h: seq<Card>, s: char)
    requires |h| == 5
    ensures SuitCount(h, s) == (if h[0].1 == s then 1 else 0) + (if h[1].1 == s then 1 else 0)
      + (if h[2].1 == s then 1 else 0) + (if h[3].1 == s then 1 else 0) + (if h[4].1 == s then 1 else 0)
  {
    assert SuitCount(h[5..], s) == 0;
    assert SuitCount(h[1..], s) == (if h[1].1 == s then 1 else 0) + SuitCount(h[2..], s) by {
      assert h[1..][0] == h[1] && h[1..][1..] == h[2..];
    }
    assert SuitCount(h[2..], s) == (if h[2].1 == s then 1 else 0) + SuitCount(h[3..], s) by {
      assert h[2..][0] == h[2] && h[2..][1..] == h[3..];
    }
    assert SuitCount(h[3..], s) == (if h[3].1 == s then 1 else 0) + SuitCount(h[4..], s) by {
      assert h[3..][0] == h[3] && h[3..][1..] == h[4..];
    }
    assert SuitCount(h[4..], s) == (if h[4].1 == s then 1 else 0) + SuitCount(h[5..], s) by {
      assert h[4..][0] == h[4] && h[4..][1..] == h[5..];
    }
  }

  /** 2c 2d 2h 5s 6c: trip twos with kickers 6 and 5. */
  lemma TripTwosShape(h: seq<Card>)
    requires h == [(2, 'c'), (2, 'd'), (2, 'h'), (5, 's'), (6, 'c')]
    ensures Plain(h) && Kind3Shape(h, 2, 6, 5)
  {
    forall q
      ensures Count(h, q) == (if q == 2 then 3 else if q == 5 || q == 6 then 1 else 0)
    {
      CountFive(h, q);
    }
    forall s
      ensures SuitCount(h, s) < 5
    {
      SuitCountFive(h, s);
    }
    var ranks := RanksOf(h);
    assert ranks == [2, 2, 2, 5, 6];
    forall t | 5 <= t <= 14
      ensures !RunTo(ranks, t)
    {
      var i := if t <= 7 then 2 else t - 1;
      assert t - 5 <= i < t && RankOrder(i) !in ranks;
    }
  }

  /** 3c 3d 3h 4s 5c: trip threes with kickers 5 and 4. */
  lemma TripThreesShape(h: seq<Card>)
    requires h == [(3, 'c'), (3, 'd'), (3, 'h'), (4, 's'), (5, 'c')]
    ensures Plain(h) && Kind3Shape(h, 3, 5, 4)
  {
    forall q
      ensures Count(h, q) == (if q == 3 then 3 else if q == 4 || q == 5 then 1 else 0)
    {
      CountFive(h, q);
    }
    forall s
      ensures SuitCount(h, s) < 5
    {
      SuitCountFive(h, s);
    }
    var ranks := RanksOf(h);
    assert ranks == [3, 3, 3, 4, 5];
    forall t | 5 <= t <= 14
      ensures !RunTo(ranks, t)
    {
      var i := if t == 5 then 0 else if t == 6 then 1 else t - 1;
      assert t - 5 <= i < t && RankOrder(i) !in ranks;
    }
  }

  /** hand_evaluation.py:279 as written ranks trip twos with kickers 6, 5
      above trip threes with kickers 5, 4, because the trips' rank is
      ignored; the corrected classification ranks the threes higher. */
  lemma Kind3AsWrittenMisorders(twos: seq<Card>, threes: seq<Card>)
    requires twos == [(2, 'c'), (2, 'd'), (2, 'h'), (5, 's'), (6, 'c')]
    requires threes == [(3, 'c'), (3, 'd'), (3, 'h'), (4, 's'), (5, 'c')]
    requires RanksInRange(twos) && RanksInRange(threes)
    ensures FullClassifyHand(twos) == Returns((Kind3, 605))
    ensures FullClassifyHand(threes) == Returns((Kind3, 504))
    ensures Beats(FullClassifyHand(twos).value, FullClassifyHand(threes).value)
    ensures PokerHandComparator(twos, threes) == Returns(1)
    ensures FullClassifyHandCorrected(twos) == Returns((Kind3, 20605))
    ensures FullClassifyHandCorrected(threes) == Returns((Kind3, 30504))
    ensures Beats(FullClassifyHandCorrected(threes).value, FullClassifyHandCorrected(twos).value)
  {
    TripTwosShape(twos);
    TripThreesShape(threes);
    Kind3Classified(twos, 2, 6, 5);
    Kind3Classified(threes, 3, 5, 4);
    HornerSmall(6, 5, 0, 0);
    HornerSmall(5, 4, 0, 0);
    HornerSmall(2, 6, 5, 0);
    HornerSmall(3, 5, 4, 0);
    ComparatorOn(twos, threes, (Kind3, 605), (Kind3, 504));
  }

  // ---------------------------------------------------------------------
  // Renaming the suits

  /** A renaming of the suits: `perm[k]` replaces `Suits[k]`, and the four
      replacements are the four suits again. */
  predicate SuitPermutation(perm: seq<char>)
  {
    |perm| == 4 && (forall i, j :: 0 <= i < j < 4 ==> perm[i] != perm[j])
    && forall t :: t in Suits <==> t in perm
  }

  function SuitIndex(s: char): (k: nat)
    requires s in Suits
    ensures k < 4 && Suits[k] == s
  {
    if s == 'c' then 0 else if s == 'd' then 1 else if s == 'h' then 2 else 3
  }

  function RenameSuit(perm: seq<char>, s: char): char
    requires |perm| == 4
  {
    if s in Suits then perm[SuitIndex(s)] else s
  }

  function RenameHand(hand: seq<Card>, perm: seq<char>): (r: seq<Card>)
    requires |perm| == 4
    ensures |r| == |hand|
    ensures forall i :: 0 <= i < |hand| ==> r[i] == (hand[i].0, RenameSuit(perm, hand[i].1))
  {
    if |hand| == 0 then [] else [(hand[0].0, RenameSuit(perm, hand[0].1))] + RenameHand(hand[1..], perm)
  }

  lemma {:induction false} CountRenamed(hand: seq<Card>, perm: seq<char>, q: int)
    requires |perm| == 4
    ensures Count(RenameHand(hand, perm), q) == Count(hand, q)
  {
    if |hand| > 0 {
      CountRenamed(hand[1..], perm, q);
    }
  }

  lemma {:induction false} RankSetsRenamed(hand: seq<Card>, perm: seq<char>, k: int, top: int)
    requires |perm| == 4
    ensures WithCount(RenameHand(hand, perm), k, top) == WithCount(hand, k, top)
    ensures Overfull(RenameHand(hand, perm), top) == Overfull(hand, top)
    decreases top
  {
    if top >= 2 {
      CountRenamed(hand, perm, top);
      RankSetsRenamed(hand, perm, k, top - 1);
    }
  }

  lemma {:induction false} HoldsRenamed(hand: seq<Card>, perm: seq<char>, q: int, k: int)
    requires SuitPermutation(perm) && 0 <= k < 4
    ensures Holds(RenameHand(hand, perm), q, perm[k]) == Holds(hand, q, Suits[k])
  {
    if |hand| > 0 {
      HoldsRenamed(hand[1..], perm, q, k);
      assert perm[k] in Suits;
    }
  }

  lemma {:induction false} SuitListingRenamed(hand: seq<Card>, perm: seq<char>, k: int, top: int)
    requires SuitPermutation(perm) && 0 <= k < 4
    ensures SuitListing(RenameHand(hand, perm), perm[k], top) == SuitListing(hand, Suits[k], top)
    decreases top
  {
    if top >= 2 {
      HoldsRenamed(hand, perm, top, k);
      SuitListingRenamed(hand, perm, k, top - 1);
    }
  }

  /** The best over the suit buckets depends only on which buckets there are. */
  lemma BestOverSuitsSameElements(xs: seq<seq<int>>, ys: seq<seq<int>>, value: seq<int> -> int)
    requires forall x :: x in xs <==> x in ys
    ensures BestOverSuits(xs, value) == BestOverSuits(ys, value)
  {
    var mx, my := BestOverSuits(xs, value), BestOverSuits(ys, value);
    if mx != 0 {
      var i :| 0 <= i < |xs| && value(xs[i]) == mx;
      assert xs[i] in ys;
      var j :| 0 <= j < |ys| && ys[j] == xs[i];
      assert mx <= my;
    }
    if my != 0 {
      var j :| 0 <= j < |ys| && value(ys[j]) == my;
      assert ys[j] in xs;
      var i :| 0 <= i < |xs| && xs[i] == ys[j];
      assert my <= mx;
    }
  }

  /** Renaming the suits keeps every count-based bucket. */
  lemma RankBucketsRenamed(hand: seq<Card>, perm: seq<char>)
    requires |perm| == 4
    ensures RanksOf(RenameHand(hand, perm)) == RanksOf(hand)
    ensures forall k :: 1 <= k <= 4 ==> RankSet(RenameHand(hand, perm), k) == RankSet(hand, k)
    ensures Overfull(RenameHand(hand, perm), 14) == Overfull(hand, 14)
  {
    forall k | 1 <= k <= 4
      ensures RankSet(RenameHand(hand, perm), k) == RankSet(hand, k)
    {
      RankSetsRenamed(hand, perm, k, 14);
    }
    RankSetsRenamed(hand, perm, 1, 14);
  }

  /** Renaming the suits permutes the suit buckets. */
  lemma SuitBucketsRenamed(hand: seq<Card>, perm: seq<char>)
    requires SuitPermutation(perm)
    ensures forall x :: x in SuitBuckets(RenameHand(hand, perm)) <==> x in SuitBuckets(hand)
  {
    var h' := RenameHand(hand, perm);
    var xs, ys := SuitBuckets(h'), SuitBuckets(hand);
    forall k | 0 <= k < 4
      ensures SuitRanks(h', perm[k]) == ys[k]
    {
      SuitListingRenamed(hand, perm, k, 14);
    }
    forall i | 0 <= i < 4
      ensures xs[i] in ys
    {
      assert Suits[i] in perm;
      var j :| 0 <= j < 4 && perm[j] == Suits[i];
      assert xs[i] == ys[j];
    }
    forall i | 0 <= i < 4
      ensures ys[i] in xs
    {
      assert perm[i] in Suits;
      assert ys[i] == xs[SuitIndex(perm[i])];
    }
  }

  /** So the renamed hand's buckets are the original's with the suit
      buckets shuffled. */
  lemma BucketRenamed(hand: seq<Card>, perm: seq<char>)
    requires SuitPermutation(perm)
    ensures var b, b' := Bucket(hand), Bucket(RenameHand(hand, perm));
      b' == b.(bySuit := b'.bySuit) && forall x :: x in b'.bySuit <==> x in b.bySuit
  {
    RankBucketsRenamed(hand, perm);
    SuitBucketsRenamed(hand, perm);
  }

  lemma SuitsKnownRenamed(hand: seq<Card>, perm: seq<char>)
    requires SuitPermutation(perm)
    ensures SuitsKnown(RenameHand(hand, perm)) <==> SuitsKnown(hand)
  {
    var h' := RenameHand(hand, perm);
    forall i | 0 <= i < |hand|
      ensures h'[i].1 in Suits <==> hand[i].1 in Suits
    {
      if hand[i].1 in Suits {
        assert perm[SuitIndex(hand[i].1)] in perm;
      }
    }
  }

  /** The order of the suit buckets does not matter to the classification. */
  lemma CategorizeIgnoresSuitOrder(b: Buckets, b': Buckets)
    requires b' == b.(bySuit := b'.bySuit) && forall x :: x in b'.bySuit <==> x in b.bySuit
    ensures Categorize(b') == Categorize(b)
  {
    BestOverSuitsSameElements(b'.bySuit, b.bySuit, StraightFlushOf);
    BestOverSuitsSameElements(b'.bySuit, b.bySuit, FlushOf);
  }

  /** Hands that differ only by a renaming of the suits classify alike. */
  lemma SuitRenamingInvariant(hand: seq<Card>, perm: seq<char>)
    requires RanksInRange(hand) && SuitPermutation(perm)
    ensures RanksInRange(RenameHand(hand, perm))
    ensures FullClassifyHand(RenameHand(hand, perm)) == FullClassifyHand(hand)
  {
    var h' := RenameHand(hand, perm);
    forall i | 0 <= i < |h'|
      ensures 2 <= h'[i].0 <= 14
    {
      assert h'[i].0 == hand[i].0;
    }
    SuitsKnownRenamed(hand, perm);
    if |hand| >= 5 && SuitsKnown(hand) {
      BucketRenamed(hand, perm);
      CategorizeIgnoresSuitOrder(Bucket(hand), Bucket(h'));
      ClassifyByBuckets(hand);
      ClassifyByBuckets(h');
    }
  }

  /** On five or more cards of known suits the classification depends on
      the buckets alone. */
  lemma ClassifyByBuckets(hand: seq<Card>)
    requires RanksInRange(hand) && |hand| >= 5 && SuitsKnown(hand)
    ensures FullClassifyHand(hand)
      == if |Bucket(hand).overfull| > 0 then Raises("AssertionError") else Categorize(Bucket(hand))
  {
  }

  /** So a hand and its renaming tie. */
  lemma SuitRenamingTies(hand: seq<Card>, perm: seq<char>)
    requires RanksInRange(hand) && SuitPermutation(perm) && FullClassifyHand(hand).Returns?
    ensures RanksInRange(RenameHand(hand, perm))
    ensures PokerHandComparator(hand, RenameHand(hand, perm)) == Returns(0)
  {
    SuitRenamingInvariant(hand, perm);
  }
}
