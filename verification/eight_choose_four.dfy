/** Models 8c4/game_simulator.py: each of two players holds eight cards and
    passes four of them to the other; the payoff matrix records, for every
    pair of passes, which new hand wins, and `find_winning_play` looks for a
    pass that cannot lose. */
module EightChooseFour {
  import opened Exceptions
  import opened Options
  import opened CardText
  import GameSimulator

  /** A card `(rank, suit)`. */
  type Card = (int, char)

  /** What `poker_hand_comparator` returns: -1, 0 or 1. */
  type Sign = x: int | -1 <= x <= 1

  const HandSize := 8
  const NumPassed := 4

  // ---------------------------------------------------------------------
  // string_to_card / card_to_string (8c4/game_simulator.py:14-66)

  /** `string_to_number_mapping`: face letters in both cases. */
  const RankTable: map<string, int> := map[
    "1" := 14, "2" := 2, "3" := 3, "4" := 4, "5" := 5, "6" := 6, "7" := 7,
    "8" := 8, "9" := 9, "10" := 10, "11" := 11, "12" := 12, "13" := 13, "14" := 14,
    "j" := 11, "J" := 11, "q" := 12, "Q" := 12, "k" := 13, "K" := 13, "a" := 14, "A" := 14]

  /** `number_to_string_mapping`: 1 and 14 both print as "A". */
  const NumberTable: map<int, string> := map[
    1 := "A", 2 := "2", 3 := "3", 4 := "4", 5 := "5", 6 := "6", 7 := "7",
    8 := "8", 9 := "9", 10 := "10", 11 := "J", 12 := "Q", 13 := "K", 14 := "A"]

  function ParseCard(s: string): (r: Outcome<Card>)
    ensures r == StringToCard(RankTable, s)
  {
    StringToCard(RankTable, s)
  }

  /** `card_to_string(card)`: `KeyError` for a rank outside 1..14. */
  function CardToString(card: Card): (r: Outcome<string>)
    ensures r.Returns? <==> 1 <= card.0 <= 14
    ensures r.Returns? ==> |r.value| >= 2 && r.value[|r.value| - 1] == card.1
  {
    if card.0 in NumberTable then Returns(NumberTable[card.0] + [card.1]) else Raises("KeyError")
  }

  /** Face letters read the same in either case. */
  lemma FaceLettersEitherCase(letter: char, suit: char)
    requires letter in "jqkaJQKA"
    ensures ParseCard([letter] + [suit]).Returns?
    ensures ParseCard([letter] + [suit]).value.0 == RankTable[[letter]]
    ensures 11 <= ParseCard([letter] + [suit]).value.0 <= 14
  {
    LetterKeyRead(RankTable, [letter], suit);
  }

  lemma DigitRankRoundTrip(n: int, suit: char)
    requires 2 <= n <= 10
    ensures CardToString((n, suit)) == Returns(DecimalString(n) + [suit])
  {
    assert NumberTable[n] == DecimalString(n);
  }

  /** `string_to_card(card_to_string(c)) == c` for every rank 2..14. */
  lemma CardRoundTrip(n: int, suit: char)
    requires 2 <= n <= 14
    ensures CardToString((n, suit)).Returns?
    ensures ParseCard(CardToString((n, suit)).value) == Returns((n, suit))
  {
    var text := NumberTable[n];
    assert CardToString((n, suit)) == Returns(text + [suit]);
    assert (text + [suit])[..|text|] == text;
    if n <= 10 {
      DigitRankRoundTrip(n, suit);
      DecimalRoundTrip(n);
    } else {
      assert text in RankTable && RankTable[text] == n && |text| == 1;
      NoDigitNoInt(text);
    }
  }

  /** Rank 1 prints as "A" and so reads back as 14: the round trip needs
      rank 2..14. */
  lemma LowAceReadsHigh(suit: char)
    ensures CardToString((1, suit)) == Returns("A" + [suit])
    ensures ParseCard("A" + [suit]) == Returns((14, suit))
  {
    assert NumberTable[1] == "A";
    assert "A" in RankTable && RankTable["A"] == 14;
    LetterKeyRead(RankTable, "A", suit);
  }

  // ---------------------------------------------------------------------
  // itertools.combinations(range(n), k)

  /** Each combination of `rest` with `i` in front. */
  function Prefix(i: int, rest: seq<seq<int>>): (r: seq<seq<int>>)
    ensures |r| == |rest| && forall j :: 0 <= j < |r| ==> r[j] == [i] + rest[j]
  {
    seq(|rest|, j requires 0 <= j < |rest| => [i] + rest[j])
  }

  /** The `k`-combinations of range(first, n) in lexicographic order:
      those starting with `first`, then those starting later. */
  function CombinationsFrom(n: int, first: int, k: nat): seq<seq<int>>
    decreases if first <= n then n - first else 0, 1
  {
    if k == 0 then [[]] else CombinationsLoop(n, k, first)
  }

  function CombinationsLoop(n: int, k: nat, i: int): seq<seq<int>>
    requires k >= 1
    decreases if i <= n then n - i else 0, 0
  {
    if i >= n then []
    else Prefix(i, CombinationsFrom(n, i + 1, k - 1)) + CombinationsLoop(n, k, i + 1)
  }

  /** `itertools.combinations(range(hand_size), num_passed)`. */
  const Passes: seq<seq<int>> := CombinationsFrom(HandSize, 0, NumPassed)

  function Elements(s: seq<int>): set<int>
  {
    set x | x in s
  }

  /** `itertools.combinations` and `choose_generator` (game_simulator.py)
      enumerate the same subsets in the same order. */
  lemma {:induction false} CombinationsAreChoices(n: int, chosen: set<int>, first: int, k: nat)
    ensures |CombinationsFrom(n, first, k)| == |GameSimulator.ChooseHelper(n, chosen, first, k)|
    ensures forall j :: 0 <= j < |CombinationsFrom(n, first, k)| ==>
      GameSimulator.ChooseHelper(n, chosen, first, k)[j] == chosen + Elements(CombinationsFrom(n, first, k)[j])
    decreases if first <= n then n - first else 0, 1
  {
    if k == 0 {
      GameSimulator.LoopNonPositive(n, chosen, k, first);
      assert Elements([]) == {};
    } else {
      LoopAreChoices(n, chosen, k, first);
    }
  }

  lemma {:induction false} LoopAreChoices(n: int, chosen: set<int>, k: nat, i: int)
    requires k >= 1
    ensures |CombinationsLoop(n, k, i)| == |GameSimulator.ChooseLoop(n, chosen, k, i)|
    ensures forall j :: 0 <= j < |CombinationsLoop(n, k, i)| ==>
      GameSimulator.ChooseLoop(n, chosen, k, i)[j] == chosen + Elements(CombinationsLoop(n, k, i)[j])
    decreases if i <= n then n - i else 0, 0
  {
    if i < n {
      var c := chosen + {i};
      CombinationsAreChoices(n, c, i + 1, k - 1);
      LoopAreChoices(n, chosen, k, i + 1);
      var head := Prefix(i, CombinationsFrom(n, i + 1, k - 1));
      var choiceHead := GameSimulator.ChooseHelper(n, c, i + 1, k - 1);
      forall j | 0 <= j < |head| ensures choiceHead[j] == chosen + Elements(head[j]) {
        assert Elements(head[j]) == {i} + Elements(CombinationsFrom(n, i + 1, k - 1)[j]);
      }
    }
  }

  /** Each combination lists `k` increasing numbers of range(first, n). */
  predicate Increasing(s: seq<int>, lo: int, hi: int)
  {
    (forall j :: 0 <= j < |s| ==> lo <= s[j] < hi) && (forall a, b :: 0 <= a < b < |s| ==> s[a] < s[b])
  }

  lemma {:induction false} CombinationsIncreasing(n: int, first: int, k: nat)
    ensures forall c :: c in CombinationsFrom(n, first, k) ==> |c| == k && Increasing(c, first, n)
    decreases if first <= n then n - first else 0, 1
  {
    if k > 0 {
      LoopIncreasing(n, k, first);
    }
  }

  lemma {:induction false} LoopIncreasing(n: int, k: nat, i: int)
    requires k >= 1
    ensures forall c :: c in CombinationsLoop(n, k, i) ==> |c| == k && Increasing(c, i, n)
    decreases if i <= n then n - i else 0, 0
  {
    if i < n {
      CombinationsIncreasing(n, i + 1, k - 1);
      LoopIncreasing(n, k, i + 1);
      var rest := CombinationsFrom(n, i + 1, k - 1);
      forall c | c in Prefix(i, rest) ensures |c| == k && Increasing(c, i, n) {
        var j :| 0 <= j < |rest| && c == [i] + rest[j];
        assert rest[j] in rest;
      }
    }
  }

  lemma BinomialEightFour()
    ensures GameSimulator.Binomial(8, 4) == 70
  {
    assert GameSimulator.Binomial(4, 1) == 4 && GameSimulator.Binomial(5, 2) == 10;
    assert GameSimulator.Binomial(6, 3) == 20 && GameSimulator.Binomial(7, 4) == 35;
  }

  lemma ChoicesSeventy()
    ensures |GameSimulator.Choose(HandSize, NumPassed)| == 70
  {
    GameSimulator.ChooseExactlyOnce(HandSize, NumPassed);
    BinomialEightFour();
  }

  /** There are C(8, 4) = 70 passes, ... */
  lemma PassesCount()
    ensures |Passes| == 70
  {
    CombinationsAreChoices(HandSize, {}, 0, NumPassed);
    ChoicesSeventy();
  }

  /** ... each four increasing hand positions, ... */
  lemma PassesArePositions(p: seq<int>)
    requires p in Passes
    ensures |p| == NumPassed && Increasing(p, 0, HandSize)
  {
    CombinationsIncreasing(HandSize, 0, NumPassed);
  }

  /** ... and no two of them the same subset. */
  lemma PassesDistinct(a: int, b: int)
    requires 0 <= a < b < |Passes|
    ensures Elements(Passes[a]) != Elements(Passes[b])
  {
    CombinationsDistinct(HandSize, NumPassed, a, b);
  }

  lemma CombinationsDistinct(n: int, k: nat, a: int, b: int)
    requires 0 <= a < b < |CombinationsFrom(n, 0, k)|
    ensures Elements(CombinationsFrom(n, 0, k)[a]) != Elements(CombinationsFrom(n, 0, k)[b])
  {
    var combos := CombinationsFrom(n, 0, k);
    var choices := GameSimulator.Choose(n, k);
    CombinationsAreChoices(n, {}, 0, k);
    GameSimulator.HelperNoDuplicates(n, {}, 0, k);
    assert choices[a] != choices[b];
    assert choices[a] == {} + Elements(combos[a]) == Elements(combos[a]);
    assert choices[b] == {} + Elements(combos[b]) == Elements(combos[b]);
  }

  /** `get_pass(i)`: the `i`-th pass in combinations order, `None` when the
      loop runs out. */
  method GetPass(i: int) returns (r: Option<seq<int>>)
    ensures 0 <= i < |Passes| ==> r == Some(Passes[i])
    ensures !(0 <= i < |Passes|) ==> r == None
  {
    var it := 0;
    while it < |Passes|
      invariant 0 <= it <= |Passes|
      invariant i < 0 || i >= it
    {
      if it == i {
        return Some(Passes[it]);
      }
      it := it + 1;
    }
    return None;
  }

  // ---------------------------------------------------------------------
  // get_payoff_matrix (8c4/game_simulator.py:95-116)

  /** The loop over range(i) that deals the new hands: position `p` of
      player A's hand goes to B if `p` is in `pass1`, and to A otherwise;
      position `p` of B's hand goes to A if `p` is in `pass2`, and to B
      otherwise. */
  function DealUpTo(handA: seq<Card>, handB: seq<Card>, pass1: seq<int>, pass2: seq<int>, i: nat)
    : (r: (set<Card>, set<Card>))
    requires i <= |handA| && i <= |handB|
  {
    if i == 0 then ({}, {})
    else
      var (a, b) := DealUpTo(handA, handB, pass1, pass2, i - 1);
      var p := i - 1;
      var (a', b') := if p in pass1 then (a, b + {handA[p]}) else (a + {handA[p]}, b);
      if p in pass2 then (a' + {handB[p]}, b') else (a', b' + {handB[p]})
  }

  /** The cards of `hand` at positions below `i` that are not in `passed`. */
  function Kept(hand: seq<Card>, passed: seq<int>, i: nat): set<Card>
    requires i <= |hand|
  {
    set p | 0 <= p < i && p !in passed :: hand[p]
  }

  /** The cards of `hand` at positions below `i` that are in `passed`. */
  function Given(hand: seq<Card>, passed: seq<int>, i: nat): set<Card>
    requires i <= |hand|
  {
    set p | 0 <= p < i && p in passed :: hand[p]
  }

  lemma KeptStep(hand: seq<Card>, passed: seq<int>, i: nat)
    requires i < |hand|
    ensures Kept(hand, passed, i + 1) == Kept(hand, passed, i) + (if i !in passed then {hand[i]} else {})
  {
  }

  lemma GivenStep(hand: seq<Card>, passed: seq<int>, i: nat)
    requires i < |hand|
    ensures Given(hand, passed, i + 1) == Given(hand, passed, i) + (if i in passed then {hand[i]} else {})
  {
  }

  /** A new hand: the owner's unpassed cards and the opponent's passed ones. */
  function KeptAndReceived(own: seq<Card>, other: seq<Card>, ownPass: seq<int>, otherPass: seq<int>, i: nat): set<Card>
    requires i <= |own| && i <= |other|
  {
    Kept(own, ownPass, i) + Given(other, otherPass, i)
  }

  lemma {:induction false} DealIsExchange(handA: seq<Card>, handB: seq<Card>, pass1: seq<int>, pass2: seq<int>, i: nat)
    requires i <= |handA| && i <= |handB|
    ensures DealUpTo(handA, handB, pass1, pass2, i).0 == KeptAndReceived(handA, handB, pass1, pass2, i)
    ensures DealUpTo(handA, handB, pass1, pass2, i).1 == KeptAndReceived(handB, handA, pass2, pass1, i)
  {
    if i > 0 {
      DealIsExchange(handA, handB, pass1, pass2, i - 1);
      KeptStep(handA, pass1, i - 1);
      KeptStep(handB, pass2, i - 1);
      GivenStep(handA, pass1, i - 1);
      GivenStep(handB, pass2, i - 1);
    }
  }

  /** The two new hands share out exactly the sixteen cards, and share none
      when the sixteen are distinct. */
  lemma DealSharesOut(handA: seq<Card>, handB: seq<Card>, pass1: seq<int>, pass2: seq<int>)
    requires |handA| >= HandSize && |handB| >= HandSize
    ensures var (a, b) := DealUpTo(handA, handB, pass1, pass2, HandSize);
      a + b == Elements16(handA, handB)
    ensures var (a, b) := DealUpTo(handA, handB, pass1, pass2, HandSize);
      Distinct16(handA, handB) ==> a * b == {}
  {
    DealIsExchange(handA, handB, pass1, pass2, HandSize);
    var (a, b) := DealUpTo(handA, handB, pass1, pass2, HandSize);
    forall x | x in Elements16(handA, handB) ensures x in a + b {
      var p :| 0 <= p < HandSize && (x == handA[p] || x == handB[p]);
      if x == handA[p] {
        if p in pass1 { assert x in b; } else { assert x in a; }
      } else {
        if p in pass2 { assert x in a; } else { assert x in b; }
      }
    }
    if Distinct16(handA, handB) {
      forall x | x in a ensures x !in b {
        if x in b {
          var p :| 0 <= p < HandSize && ((p !in pass1 && x == handA[p]) || (p in pass2 && x == handB[p]));
          var q :| 0 <= q < HandSize && ((q !in pass2 && x == handB[q]) || (q in pass1 && x == handA[q]));
          assert false;
        }
      }
    }
  }

  function Elements16(handA: seq<Card>, handB: seq<Card>): set<Card>
    requires |handA| >= HandSize && |handB| >= HandSize
  {
    (set p | 0 <= p < HandSize :: handA[p]) + (set p | 0 <= p < HandSize :: handB[p])
  }

  /** The sixteen dealt cards are pairwise different. */
  predicate Distinct16(handA: seq<Card>, handB: seq<Card>)
    requires |handA| >= HandSize && |handB| >= HandSize
  {
    && (forall p, q :: 0 <= p < q < HandSize ==> handA[p] != handA[q] && handB[p] != handB[q])
    && (forall p, q :: 0 <= p < HandSize && 0 <= q < HandSize ==> handA[p] != handB[q])
  }

  /** `get_payoff_matrix(hand_A, hand_B)` with the comparator `compare`
      (`hand_evaluation.poker_hand_comparator`) passed in: entry `[i][j]`
      compares A's and B's new hands when A passes the `i`-th and B the
      `j`-th combination.  A hand shorter than eight raises `IndexError`. */
  function PayoffMatrix(handA: seq<Card>, handB: seq<Card>, compare: (set<Card>, set<Card>) -> Sign)
    : (r: Outcome<seq<seq<Sign>>>)
    ensures r.Returns? <==> |handA| >= HandSize && |handB| >= HandSize
    ensures r.Returns? ==> |r.value| == |Passes| && forall i :: 0 <= i < |Passes| ==> |r.value[i]| == |Passes|
    ensures r.Returns? ==> forall i, j :: 0 <= i < |Passes| && 0 <= j < |Passes| ==>
      r.value[i][j] == Exchanged(handA, handB, compare, Passes[i], Passes[j])
  {
    if |handA| < HandSize || |handB| < HandSize then Raises("IndexError")
    else
      var m := seq(|Passes|, i requires 0 <= i < |Passes| => PayoffRow(handA, handB, compare, Passes[i]));
      Returns(m)
  }

  /** One row: A passes `pass1`, B passes each combination in turn. */
  function PayoffRow(handA: seq<Card>, handB: seq<Card>, compare: (set<Card>, set<Card>) -> Sign, pass1: seq<int>)
    : (r: seq<Sign>)
    requires |handA| >= HandSize && |handB| >= HandSize
    ensures |r| == |Passes|
    ensures forall j :: 0 <= j < |Passes| ==> r[j] == Exchanged(handA, handB, compare, pass1, Passes[j])
  {
    seq(|Passes|, j requires 0 <= j < |Passes| => Payoff(handA, handB, compare, pass1, Passes[j]))
  }

  /** The comparison of the two hands after the exchange: each player keeps
      the cards it did not pass and receives the ones the other passed. */
  function Exchanged(handA: seq<Card>, handB: seq<Card>, compare: (set<Card>, set<Card>) -> Sign, pass1: seq<int>, pass2: seq<int>)
    : Sign
    requires |handA| >= HandSize && |handB| >= HandSize
  {
    compare(KeptAndReceived(handA, handB, pass1, pass2, HandSize), KeptAndReceived(handB, handA, pass2, pass1, HandSize))
  }

  /** One entry: deal the new hands and compare them. */
  function Payoff(handA: seq<Card>, handB: seq<Card>, compare: (set<Card>, set<Card>) -> Sign, pass1: seq<int>, pass2: seq<int>)
    : (r: Sign)
    requires |handA| >= HandSize && |handB| >= HandSize
    ensures r == Exchanged(handA, handB, compare, pass1, pass2)
  {
    var hands := DealUpTo(handA, handB, pass1, pass2, HandSize);
    DealIsExchange(handA, handB, pass1, pass2, HandSize);
    compare(hands.0, hands.1)
  }

  // ---------------------------------------------------------------------
  // find_winning_play (8c4/game_simulator.py:125-162)

  /** Passing the `i`-th combination never loses for player A. */
  predicate RowSafe(m: seq<seq<int>>, i: int)
    requires 0 <= i < |m| && |m[i]| >= |m|
  {
    forall j :: 0 <= j < |m| ==> m[i][j] != -1
  }

  /** Passing the `j`-th combination never loses for player B. */
  predicate ColumnSafe(m: seq<seq<int>>, j: int)
    requires 0 <= j < |m| && forall i :: 0 <= i < |m| ==> |m[i]| >= |m|
  {
    forall i :: 0 <= i < |m| ==> m[i][j] != 1
  }

  predicate Square(m: seq<seq<int>>)
  {
    forall i :: 0 <= i < |m| ==> |m[i]| >= |m|
  }

  /** `find_winning_play`: 1 when some row has no -1, otherwise -1 when some
      column has no 1, otherwise 0. */
  method FindWinningPlay(m: seq<seq<int>>) returns (r: int)
    requires Square(m)
    ensures r == 1 <==> exists i :: 0 <= i < |m| && RowSafe(m, i)
    ensures r == -1 <==> (forall i :: 0 <= i < |m| ==> !RowSafe(m, i)) && exists j :: 0 <= j < |m| && ColumnSafe(m, j)
    ensures r == 0 <==> (forall i :: 0 <= i < |m| ==> !RowSafe(m, i)) && (forall j :: 0 <= j < |m| ==> !ColumnSafe(m, j))
  {
    var n := |m|;
    for i := 0 to n
      invariant forall i' :: 0 <= i' < i ==> !RowSafe(m, i')
    {
      var winning := true;
      for j := 0 to n
        invariant winning <==> forall j' :: 0 <= j' < j ==> m[i][j'] != -1
      {
        if m[i][j] == -1 {
          winning := false;
          break;
        }
      }
      if winning {
        assert RowSafe(m, i);
        return 1;
      }
    }
    for j := 0 to n
      invariant forall j' :: 0 <= j' < j ==> !ColumnSafe(m, j')
    {
      var winning := true;
      for i := 0 to n
        invariant winning <==> forall i' :: 0 <= i' < i ==> m[i'][j] != 1
      {
        if m[i][j] == 1 {
          winning := false;
          break;
        }
      }
      if winning {
        assert ColumnSafe(m, j);
        return -1;
      }
    }
    return 0;
  }
}
