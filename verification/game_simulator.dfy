/** Models game_simulator.py: parsing a card such as "10h" or "qs" into a
    (rank, suit) pair, and `choose_generator`, which yields every k-element
    subset of range(n). */
module GameSimulator {
  import opened Exceptions
  import opened Options
  import opened CardText

  // ---------------------------------------------------------------------
  // string_to_card (game_simulator.py:13-41)

  /** `string_to_number_mapping`: lower-case letters only. */
  const RankTable: map<string, int> := map[
    "1" := 14, "2" := 2, "3" := 3, "4" := 4, "5" := 5, "6" := 6, "7" := 7,
    "8" := 8, "9" := 9, "10" := 10, "11" := 11, "12" := 12, "13" := 13, "14" := 14,
    "j" := 11, "q" := 12, "k" := 13, "a" := 14]

  function ParseCard(s: string): (r: Outcome<(int, char)>)
    ensures r == StringToCard(RankTable, s)
  {
    StringToCard(RankTable, s)
  }

  /** "1c" is rank 1: `int()` accepts "1" before the table's "1" -> 14 entry
      is consulted, so that entry is unreachable. */
  lemma OneIsNotAce(suit: char)
    ensures RankTable["1"] == 14
    ensures ParseCard("1" + [suit]) == Returns((1, suit))
  {
    OneReadsAsOne(RankTable, suit);
  }

  /** The face letters read as 11..14 in lower case ... */
  lemma LowerCaseFaces(suit: char)
    ensures ParseCard("j" + [suit]) == Returns((11, suit))
    ensures ParseCard("q" + [suit]) == Returns((12, suit))
    ensures ParseCard("k" + [suit]) == Returns((13, suit))
    ensures ParseCard("a" + [suit]) == Returns((14, suit))
  {
    LetterKeyRead(RankTable, "j", suit);
    LetterKeyRead(RankTable, "q", suit);
    LetterKeyRead(RankTable, "k", suit);
    LetterKeyRead(RankTable, "a", suit);
  }

  /** ... and are not ranks at all in upper case. */
  lemma UpperCaseFaces(letter: char, suit: char)
    requires letter in "JQKA"
    ensures ParseCard([letter] + [suit]) == Raises("KeyError")
  {
    assert [letter] !in RankTable by {
      assert forall key :: key in RankTable && |key| == 1 ==> key[0] in "123456789jqka";
    }
    UnknownRankRaises(RankTable, [letter], suit);
  }

  /** Any decimal rank parses as itself, whatever the table says. */
  lemma DecimalRanks(n: int, suit: char)
    ensures ParseCard(DecimalString(n) + [suit]) == Returns((n, suit))
  {
    DecimalRoundTrip(n);
    assert (DecimalString(n) + [suit])[..|DecimalString(n)|] == DecimalString(n);
  }

  // ---------------------------------------------------------------------
  // choose_generator (game_simulator.py:52-61)

  /** `choose_generator_helper(n, chosen, first_index, k)`: `chosen` if
      `k == 0`, then, for each `i` in range(first_index, n), everything the
      call on `chosen | {i}`, `i + 1`, `k - 1` yields. */
  function ChooseHelper(n: int, chosen: set<int>, first: int, k: int): seq<set<int>>
    decreases if first <= n then n - first else 0, 1
  {
    (if k == 0 then [chosen] else []) + ChooseLoop(n, chosen, k, first)
  }

  /** The `for i in range(i, n)` loop of `choose_generator_helper`. */
  function ChooseLoop(n: int, chosen: set<int>, k: int, i: int): seq<set<int>>
    decreases if i <= n then n - i else 0, 0
  {
    if i >= n then []
    else ChooseHelper(n, chosen + {i}, i + 1, k - 1) + ChooseLoop(n, chosen, k, i + 1)
  }

  /** `choose_generator(n, k)`, as the sequence of sets it yields. */
  function Choose(n: int, k: int): seq<set<int>>
  {
    ChooseHelper(n, {}, 0, k)
  }

  /** `x` is `chosen` plus exactly `k` further elements of range(lo, n). */
  predicate Extends(x: set<int>, chosen: set<int>, lo: int, n: int, k: int)
  {
    && chosen <= x
    && (forall e :: e in x && e !in chosen ==> lo <= e < n)
    && |x - chosen| == k
  }

  predicate Below(chosen: set<int>, bound: int)
  {
    forall e :: e in chosen ==> e < bound
  }

  predicate NoDuplicates<T(==)>(s: seq<T>)
  {
    forall i, j :: 0 <= i < j < |s| ==> s[i] != s[j]
  }

  /** Whatever the helper yields extends `chosen` by `k` elements of
      range(first, n). */
  lemma {:induction false} HelperSound(n: int, chosen: set<int>, first: int, k: int)
    requires Below(chosen, first)
    ensures forall x :: x in ChooseHelper(n, chosen, first, k) ==> Extends(x, chosen, first, n, k)
    decreases if first <= n then n - first else 0, 1
  {
    LoopSound(n, chosen, first, k, first);
  }

  lemma {:induction false} LoopSound(n: int, chosen: set<int>, first: int, k: int, i: int)
    requires Below(chosen, first) && first <= i
    ensures forall x :: x in ChooseLoop(n, chosen, k, i) ==> Extends(x, chosen, i, n, k)
    decreases if i <= n then n - i else 0, 0
  {
    if i < n {
      var c := chosen + {i};
      HelperSound(n, c, i + 1, k - 1);
      LoopSound(n, chosen, first, k, i + 1);
      forall x | x in ChooseHelper(n, c, i + 1, k - 1) ensures Extends(x, chosen, i, n, k) {
        assert x - chosen == (x - c) + {i};
      }
    }
  }

  /** The least `j` in range(lo, hi) that is in `s`, or `hi` if none is. */
  function FirstIn(s: set<int>, lo: int, hi: int): (r: int)
    ensures r < hi ==> lo <= r && r in s
    ensures forall j :: lo <= j < r && j < hi ==> j !in s
    decreases hi - lo
  {
    if lo >= hi then hi else if lo in s then lo else FirstIn(s, lo + 1, hi)
  }

  /** A set within range(lo, hi) is empty or has a least element there. */
  lemma FirstInFound(s: set<int>, lo: int, hi: int)
    requires forall e :: e in s ==> lo <= e < hi
    ensures s == {} || (FirstIn(s, lo, hi) < hi && forall e :: e in s ==> FirstIn(s, lo, hi) <= e)
  {
    if FirstIn(s, lo, hi) >= hi {
      assert forall e :: e !in s;
    }
  }

  /** With `k` at most 0 the loop yields nothing, since every set it would
      yield comes from a call with `k - 1 < 0`. */
  lemma {:induction false} HelperNegative(n: int, chosen: set<int>, first: int, k: int)
    requires k < 0
    ensures ChooseHelper(n, chosen, first, k) == []
    decreases if first <= n then n - first else 0, 1
  {
    LoopNonPositive(n, chosen, k, first);
  }

  lemma {:induction false} LoopNonPositive(n: int, chosen: set<int>, k: int, i: int)
    requires k <= 0
    ensures ChooseLoop(n, chosen, k, i) == []
    decreases if i <= n then n - i else 0, 0
  {
    if i < n {
      HelperNegative(n, chosen + {i}, i + 1, k - 1);
      LoopNonPositive(n, chosen, k, i + 1);
    }
  }

  /** Every extension of `chosen` by `k` elements of range(first, n) is
      yielded. */
  lemma {:induction false} HelperComplete(n: int, chosen: set<int>, first: int, k: int, x: set<int>)
    requires Below(chosen, first) && Extends(x, chosen, first, n, k)
    ensures x in ChooseHelper(n, chosen, first, k)
    decreases if first <= n then n - first else 0, 1
  {
    var rest := x - chosen;
    if k == 0 {
      assert rest == {};
      assert x == chosen;
    } else {
      FirstInFound(rest, first, n);
      LoopComplete(n, chosen, first, k, first, x, FirstIn(rest, first, n));
    }
  }

  lemma {:induction false} LoopComplete(n: int, chosen: set<int>, first: int, k: int, i: int, x: set<int>, m: int)
    requires Below(chosen, first) && first <= i && Extends(x, chosen, first, n, k)
    requires m in x - chosen && (forall e :: e in x - chosen ==> m <= e) && i <= m
    ensures x in ChooseLoop(n, chosen, k, i)
    decreases if i <= n then n - i else 0, 0
  {
    if i == m {
      var c := chosen + {i};
      assert x - c == (x - chosen) - {i};
      forall e | e in x && e !in c ensures i + 1 <= e < n {
        assert e in x - chosen;
      }
      HelperComplete(n, c, i + 1, k - 1, x);
    } else {
      LoopComplete(n, chosen, first, k, i + 1, x, m);
    }
  }

  lemma NoDuplicatesConcat<T>(a: seq<T>, b: seq<T>)
    requires NoDuplicates(a) && NoDuplicates(b)
    requires forall x :: x in a ==> x !in b
    ensures NoDuplicates(a + b)
  {
    forall i, j | 0 <= i < j < |a + b| ensures (a + b)[i] != (a + b)[j] {
      if i < |a| && j >= |a| {
        assert (a + b)[i] in a && (a + b)[j] == b[j - |a|];
      }
    }
  }

  /** Nothing is yielded twice. */
  lemma {:induction false} HelperNoDuplicates(n: int, chosen: set<int>, first: int, k: int)
    requires Below(chosen, first)
    ensures NoDuplicates(ChooseHelper(n, chosen, first, k))
    decreases if first <= n then n - first else 0, 1
  {
    LoopNoDuplicates(n, chosen, first, k, first);
    if k == 0 {
      LoopNonPositive(n, chosen, k, first);
      assert ChooseHelper(n, chosen, first, k) == [chosen];
    }
  }

  lemma {:induction false} LoopNoDuplicates(n: int, chosen: set<int>, first: int, k: int, i: int)
    requires Below(chosen, first) && first <= i
    ensures NoDuplicates(ChooseLoop(n, chosen, k, i))
    decreases if i <= n then n - i else 0, 0
  {
    if i < n {
      var c := chosen + {i};
      HelperNoDuplicates(n, c, i + 1, k - 1);
      LoopNoDuplicates(n, chosen, first, k, i + 1);
      HelperSound(n, c, i + 1, k - 1);
      LoopSound(n, chosen, first, k, i + 1);
      NoDuplicatesConcat(ChooseHelper(n, c, i + 1, k - 1), ChooseLoop(n, chosen, k, i + 1));
    }
  }

  /** The binomial coefficient by Pascal's rule. */
  function Binomial(m: nat, k: int): nat
  {
    if k < 0 then 0
    else if k == 0 then 1
    else if m == 0 then 0
    else Binomial(m - 1, k - 1) + Binomial(m - 1, k)
  }

  lemma {:induction false} HelperCount(n: int, chosen: set<int>, first: int, k: int)
    requires first <= n
    ensures |ChooseHelper(n, chosen, first, k)| == Binomial(n - first, k)
    decreases n - first, 1
  {
    LoopCount(n, chosen, k, first);
  }

  lemma {:induction false} LoopCount(n: int, chosen: set<int>, k: int, i: int)
    requires i <= n
    ensures |ChooseLoop(n, chosen, k, i)| == Binomial(n - i, k) - (if k == 0 then 1 else 0)
    decreases n - i, 0
  {
    if i < n {
      HelperCount(n, chosen + {i}, i + 1, k - 1);
      LoopCount(n, chosen, k, i + 1);
    }
  }

  /** Every set `choose_generator(n, k)` yields has `k` elements of range(n). */
  lemma ChooseSound(n: int, k: int, x: set<int>)
    requires x in Choose(n, k)
    ensures |x| == k && forall e :: e in x ==> 0 <= e < n
  {
    HelperSound(n, {}, 0, k);
    assert x - {} == x;
  }

  /** Every `k`-element subset of range(n) is yielded. */
  lemma ChooseComplete(n: int, k: int, x: set<int>)
    requires |x| == k && forall e :: e in x ==> 0 <= e < n
    ensures x in Choose(n, k)
  {
    assert x - {} == x;
    HelperComplete(n, {}, 0, k, x);
  }

  /** ... exactly once, C(n, k) sets in all. */
  lemma ChooseExactlyOnce(n: nat, k: int)
    ensures NoDuplicates(Choose(n, k))
    ensures |Choose(n, k)| == Binomial(n, k)
  {
    HelperNoDuplicates(n, {}, 0, k);
    HelperCount(n, {}, 0, k);
  }
}
