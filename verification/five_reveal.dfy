/** Models 5reveal1.py: the "reveal four cards, let the partner guess the
    fifth" card trick.  Player one (`p1`) holds five cards, keeps one hidden
    and reveals four in a chosen order; player two (`p2`) names the hidden card
    from the revealed ones alone.

    Python 2 detail that the model keeps: `Card` defines `__eq__` but no
    `__ne__`, so `removed_card != card` in `remove_card_from_hand` compares
    object IDENTITY, not card equality.  A card object in a hand is therefore a
    `HeldCard`, a card together with its object identity. */
module FiveReveal {
  import opened Exceptions
  import opened Options
  import opened CardUtils

  /** A Python card object: `id` stands for its identity. */
  datatype HeldCard = HeldCard(id: int, card: Card)

  function Cards(hand: seq<HeldCard>): (r: seq<Card>)
    ensures |r| == |hand| && forall i :: 0 <= i < |hand| ==> r[i] == hand[i].card
  {
    if |hand| == 0 then [] else [hand[0].card] + Cards(hand[1..])
  }

  /** How many entries of the list are the given object. */
  function CountId(hand: seq<HeldCard>, id: int): nat
  {
    if |hand| == 0 then 0 else (if hand[0].id == id then 1 else 0) + CountId(hand[1..], id)
  }

  /** The list comprehension `[card for card in hand if removed_card != card]`. */
  function KeepOthers(hand: seq<HeldCard>, id: int): (r: seq<HeldCard>)
    ensures |r| + CountId(hand, id) == |hand|
    ensures forall c :: c in r <==> c in hand && c.id != id
    ensures multiset(r) <= multiset(hand)
  {
    if |hand| == 0 then []
    else
      assert hand == [hand[0]] + hand[1..];
      (if hand[0].id == id then [] else [hand[0]]) + KeepOthers(hand[1..], id)
  }

  predicate DistinctIds(hand: seq<HeldCard>)
  {
    forall i, j :: 0 <= i < j < |hand| ==> hand[i].id != hand[j].id
  }

  lemma CountIdOfDistinct(hand: seq<HeldCard>, c: HeldCard)
    requires DistinctIds(hand) && c in hand
    ensures CountId(hand, c.id) == 1
  {
    if hand[0] != c {
      CountIdOfDistinct(hand[1..], c);
    } else {
      assert forall d :: d in hand[1..] ==> d.id != c.id;
      CountIdAbsent(hand[1..], c.id);
    }
  }

  lemma CountIdAbsent(hand: seq<HeldCard>, id: int)
    requires forall d :: d in hand ==> d.id != id
    ensures CountId(hand, id) == 0
  {
    if |hand| > 0 {
      CountIdAbsent(hand[1..], id);
    }
  }

  /** A sub-multiset of a list of distinct objects holds distinct objects. */
  lemma DistinctIdsOfSubMultiset(small: seq<HeldCard>, big: seq<HeldCard>)
    requires DistinctIds(big) && multiset(small) <= multiset(big)
    ensures DistinctIds(small)
  {
    forall i, j | 0 <= i < j < |small|
      ensures small[i].id != small[j].id
    {
      if small[i].id == small[j].id {
        assert small[i] in multiset(big) && small[j] in multiset(big);
        var a :| 0 <= a < |big| && big[a] == small[i];
        var b :| 0 <= b < |big| && big[b] == small[j];
        if a == b {
          assert small[i] == small[j];
          assert multiset(small)[small[i]] >= 2 by {
            assert small == small[..i] + [small[i]] + small[i+1..];
            assert small[j] in small[i+1..] by { assert small[i+1..][j - i - 1] == small[j]; }
          }
          DistinctCountOne(big, a);
        }
      }
    }
  }

  lemma DistinctCountOne(big: seq<HeldCard>, a: int)
    requires DistinctIds(big) && 0 <= a < |big|
    ensures multiset(big)[big[a]] == 1
  {
    assert big == big[..a] + [big[a]] + big[a+1..];
    assert big[a] !in big[..a];
    assert big[a] !in big[a+1..];
  }

  /** `remove_card_from_hand`: drops the given object and asserts that exactly
      one entry went. */
  function RemoveCardFromHand(hand: seq<HeldCard>, removed: HeldCard): (r: Outcome<seq<HeldCard>>)
    ensures r.Returns? <==> CountId(hand, removed.id) == 1
    ensures r.Returns? ==> |r.value| == |hand| - 1
    ensures r.Returns? ==> forall c :: c in r.value <==> c in hand && c.id != removed.id
    ensures r.Returns? ==> multiset(r.value) <= multiset(hand)
  {
    var kept := KeepOthers(hand, removed.id);
    if |kept| == |hand| - 1 then Returns(kept) else Raises("AssertionError")
  }

  // ---------------------------------------------------------------------
  // Suits in a hand

  function CountSuit(hand: seq<HeldCard>, suit: string): nat
  {
    if |hand| == 0 then 0
    else (if hand[0].card.suit.suit == suit then 1 else 0) + CountSuit(hand[1..], suit)
  }

  /** `find_duplicate_suits`: the suits held more than once (the source returns
      them as a list in dictionary order; the model returns their names). */
  function FindDuplicateSuits(hand: seq<HeldCard>): (r: set<string>)
    ensures forall s :: s in r <==> CountSuit(hand, s) >= 2
  {
    forall s | CountSuit(hand, s) >= 2 ensures exists c :: c in hand && c.card.suit.suit == s {
      SuitHeld(hand, s);
    }
    set c | c in hand && CountSuit(hand, c.card.suit.suit) > 1 :: c.card.suit.suit
  }

  lemma SuitHeld(hand: seq<HeldCard>, s: string)
    requires CountSuit(hand, s) > 0
    ensures exists c :: c in hand && c.card.suit.suit == s
  {
    if hand[0].card.suit.suit != s {
      SuitHeld(hand[1..], s);
    }
  }

  const SuitNames: seq<string> := ["Clubs", "Diamonds", "Hearts", "Spades"]

  predicate DeckHand(hand: seq<HeldCard>)
  {
    forall c :: c in hand ==> IsDeckCard(c.card)
  }

  predicate FourSuited(hand: seq<HeldCard>)
  {
    forall c :: c in hand ==> c.card.suit.suit in SuitNames
  }

  lemma {:induction false} SuitCountsSum(hand: seq<HeldCard>)
    requires FourSuited(hand)
    ensures CountSuit(hand, "Clubs") + CountSuit(hand, "Diamonds")
          + CountSuit(hand, "Hearts") + CountSuit(hand, "Spades") == |hand|
  {
    if |hand| > 0 {
      assert FourSuited(hand[1..]) by {
        forall c | c in hand[1..] ensures c.card.suit.suit in SuitNames { assert c in hand; }
      }
      SuitCountsSum(hand[1..]);
      assert hand[0] in hand;
    }
  }

  lemma DeckHandFourSuited(hand: seq<HeldCard>)
    requires DeckHand(hand)
    ensures FourSuited(hand)
  {
    forall c | c in hand ensures c.card.suit.suit in SuitNames {
      assert IsDeckCard(c.card);
    }
  }

  /** Pigeonhole: five deck cards share four suits, so some suit repeats. */
  lemma PigeonholeSuit(hand: seq<HeldCard>)
    requires DeckHand(hand) && |hand| >= 5
    ensures FindDuplicateSuits(hand) != {}
    ensures exists s :: s in SuitNames && CountSuit(hand, s) >= 2
  {
    DeckHandFourSuited(hand);
    SuitCountsSum(hand);
    if CountSuit(hand, "Clubs") >= 2 {
      assert "Clubs" in FindDuplicateSuits(hand);
    } else if CountSuit(hand, "Diamonds") >= 2 {
      assert "Diamonds" in FindDuplicateSuits(hand);
    } else if CountSuit(hand, "Hearts") >= 2 {
      assert "Hearts" in FindDuplicateSuits(hand);
    } else {
      assert "Spades" in FindDuplicateSuits(hand);
    }
  }

  /** The cards of one suit, in hand order (`cards_by_suit[suit]`). */
  function CardsOfSuit(hand: seq<HeldCard>, suit: string): (r: seq<HeldCard>)
    ensures |r| == CountSuit(hand, suit)
    ensures forall c :: c in r <==> c in hand && c.card.suit.suit == suit
    ensures multiset(r) <= multiset(hand)
  {
    if |hand| == 0 then []
    else
      assert hand == [hand[0]] + hand[1..];
      (if hand[0].card.suit.suit == suit then [hand[0]] else []) + CardsOfSuit(hand[1..], suit)
  }

  /** The first suit, in the dictionary's iteration order `order`, held twice. */
  function FirstDuplicateSuit(order: seq<string>, hand: seq<HeldCard>): (r: Option<string>)
    ensures r.Some? ==> r.value in order && CountSuit(hand, r.value) > 1
    ensures r.None? ==> forall s :: s in order ==> CountSuit(hand, s) <= 1
  {
    if |order| == 0 then None
    else if CountSuit(hand, order[0]) > 1 then Some(order[0])
    else FirstDuplicateSuit(order[1..], hand)
  }

  // ---------------------------------------------------------------------
  // Sorting (`list.sort`, stable, using only `__lt__`)

  /** Inserts a card before the first card that is not smaller than it. */
  function Insert(x: HeldCard, s: seq<HeldCard>): (r: seq<HeldCard>)
    ensures multiset(r) == multiset(s) + multiset{x}
    ensures |r| == |s| + 1
  {
    if |s| == 0 then [x]
    else if !CardLt(s[0].card, x.card) then [x] + s
    else
      assert s == [s[0]] + s[1..];
      [s[0]] + Insert(x, s[1..])
  }

  function SortCards(s: seq<HeldCard>): (r: seq<HeldCard>)
    ensures multiset(r) == multiset(s)
    ensures |r| == |s|
  {
    if |s| == 0 then []
    else
      assert s == [s[0]] + s[1..];
      Insert(s[0], SortCards(s[1..]))
  }

  predicate SortedCards(s: seq<HeldCard>)
  {
    forall i, j :: 0 <= i < j < |s| ==> !CardLt(s[j].card, s[i].card)
  }

  lemma {:induction false} InsertSorted(x: HeldCard, s: seq<HeldCard>)
    requires SortedCards(s)
    ensures SortedCards(Insert(x, s))
  {
    if |s| == 0 {
    } else if !CardLt(s[0].card, x.card) {
      var r := [x] + s;
      forall i, j | 0 <= i < j < |r| ensures !CardLt(r[j].card, r[i].card) {
        if i == 0 {
          CardOrderMirror(s[0].card, s[j-1].card, x.card);
          CardOrderMirror(x.card, s[0].card, s[j-1].card);
        }
      }
    } else {
      InsertSorted(x, s[1..]);
      var t := Insert(x, s[1..]);
      var r := [s[0]] + t;
      forall i, j | 0 <= i < j < |r| ensures !CardLt(r[j].card, r[i].card) {
        if i == 0 {
          assert r[j] in t;
          assert r[j] in multiset(s[1..]) + multiset{x};
          if r[j] == x {
            CardOrderMirror(x.card, s[0].card, x.card);
          } else {
            assert r[j] in s[1..];
            var k :| 0 <= k < |s[1..]| && s[1..][k] == r[j];
            assert s[k + 1] == r[j];
          }
        }
      }
    }
  }

  /** `hand.sort()` yields a sorted permutation of the hand. */
  lemma {:induction false} SortCardsSorted(s: seq<HeldCard>)
    ensures SortedCards(SortCards(s))
  {
    if |s| > 0 {
      SortCardsSorted(s[1..]);
      InsertSorted(s[0], SortCards(s[1..]));
    }
  }

  // ---------------------------------------------------------------------
  // SimpleStrategy (5reveal1.py:35-55)

  function SameSuitAs(s: seq<HeldCard>, c: HeldCard): (r: seq<HeldCard>)
    ensures forall x :: x in r <==> x in s && SuitEq(x.card.suit, c.card.suit)
  {
    if |s| == 0 then []
    else (if SuitEq(s[0].card.suit, c.card.suit) then [s[0]] else []) + SameSuitAs(s[1..], c)
  }

  function SameValueAs(s: seq<HeldCard>, c: HeldCard): (r: seq<HeldCard>)
    ensures forall x :: x in r <==> x in s && ValueEq(x.card.value, c.card.value)
  {
    if |s| == 0 then []
    else (if ValueEq(s[0].card.value, c.card.value) then [s[0]] else []) + SameValueAs(s[1..], c)
  }

  /** A successful simple reveal: two cards of the hand, other than the chosen
      one, the first of its suit and the second of its value. */
  predicate SimpleReveal(hand: seq<HeldCard>, chosen: HeldCard, revealed: seq<HeldCard>)
  {
    && chosen in hand
    && |revealed| == 2
    && revealed[0] in hand && revealed[1] in hand
    && revealed[0].id != chosen.id && revealed[1].id != chosen.id && revealed[0].id != revealed[1].id
    && SuitEq(revealed[0].card.suit, chosen.card.suit)
    && ValueEq(revealed[1].card.value, chosen.card.value)
  }

  /** The inner loop over `other_cards_of_suit`. */
  function SimpleOthers(hand: seq<HeldCard>, chosen: HeldCard, noChosen: seq<HeldCard>,
                        others: seq<HeldCard>, j: nat): (r: Outcome<Option<(HeldCard, seq<HeldCard>)>>)
    requires chosen in hand
    requires forall c :: c in noChosen <==> c in hand && c.id != chosen.id
    requires forall c :: c in others ==> c in noChosen && SuitEq(c.card.suit, chosen.card.suit)
    ensures r.Returns? && r.value.Some? ==> r.value.value.0 == chosen && SimpleReveal(hand, chosen, r.value.value.1)
    decreases |others| - j
  {
    if j >= |others| then Returns(None)
    else
      match RemoveCardFromHand(noChosen, others[j])
      case Raises(e) => Raises(e)
      case Returns(noSuit) =>
        var matching := SameValueAs(noSuit, chosen);
        if |matching| > 0 then
          assert matching[0] in matching;
          Returns(Some((chosen, [others[j], matching[0]])))
        else SimpleOthers(hand, chosen, noChosen, others, j + 1)
  }

  function SimpleFrom(hand: seq<HeldCard>, i: nat): (r: Outcome<Option<(HeldCard, seq<HeldCard>)>>)
    ensures r.Returns? && r.value.Some? ==> SimpleReveal(hand, r.value.value.0, r.value.value.1)
    decreases |hand| - i
  {
    if i >= |hand| then Returns(None)
    else
      var chosen := hand[i];
      match RemoveCardFromHand(hand, chosen)
      case Raises(e) => Raises(e)
      case Returns(noChosen) =>
        match SimpleOthers(hand, chosen, noChosen, SameSuitAs(noChosen, chosen), 0)
        case Raises(e) => Raises(e)
        case Returns(found) =>
          if found.Some? then Returns(found) else SimpleFrom(hand, i + 1)
  }

  /** `SimpleStrategy.p1`: the first chosen card, in hand order, for which some
      other card shares its suit and a third card shares its value. */
  function SimpleP1(hand: seq<HeldCard>): (r: Outcome<Option<(HeldCard, seq<HeldCard>)>>)
    ensures r.Returns? && r.value.Some? ==> SimpleReveal(hand, r.value.value.0, r.value.value.1)
  {
    SimpleFrom(hand, 0)
  }

  /** `SimpleStrategy.p2`: the first revealed card's suit with the second's value. */
  function SimpleP2(revealed: seq<Card>): (r: Option<Card>)
    ensures |revealed| == 2 <==> r.Some?
    ensures r.Some? ==> r.value.suit == revealed[0].suit && r.value.value == revealed[1].value
  {
    if |revealed| == 2 then Some(Card(revealed[0].suit, revealed[1].value)) else None
  }

  /** Whenever the simple strategy reveals, player two names a card equal to
      the hidden one. */
  lemma SimpleRoundTrip(hand: seq<HeldCard>)
    requires SimpleP1(hand).Returns? && SimpleP1(hand).value.Some?
    ensures SimpleP2(Cards(SimpleP1(hand).value.value.1)).Some?
    ensures CardEq(SimpleP2(Cards(SimpleP1(hand).value.value.1)).value, SimpleP1(hand).value.value.0.card)
  {
  }

  // ---------------------------------------------------------------------
  // WinningStrategy (5reveal1.py:57-111)

  /** `value_to_perm`: the hidden distance 1..6 as an order of three cards. */
  function ValueToPerm(v: int): (p: seq<int>)
    requires 1 <= v <= 6
    ensures |p| == 3 && forall i :: 0 <= i < 3 ==> 0 <= p[i] <= 2
  {
    if v == 1 then [0, 1, 2]
    else if v == 2 then [0, 2, 1]
    else if v == 3 then [1, 0, 2]
    else if v == 4 then [1, 2, 0]
    else if v == 5 then [2, 0, 1]
    else [2, 1, 0]
  }

  predicate IsPerm3(p: seq<int>)
  {
    |p| == 3 && multiset(p) == multiset{0, 1, 2}
  }

  lemma Perm3Elements(p: seq<int>)
    requires IsPerm3(p)
    ensures forall i :: 0 <= i < 3 ==> 0 <= p[i] <= 2
    ensures p[0] != p[1] && p[0] != p[2] && p[1] != p[2]
  {
    assert p == [p[0], p[1], p[2]];
    var m := multiset{p[0], p[1], p[2]};
    assert m == multiset(p);
    forall i | 0 <= i < 3 ensures 0 <= p[i] <= 2 {
      assert p[i] in multiset(p);
    }
    assert m[p[0]] == 1 && m[p[1]] == 1 && m[p[2]] == 1;
  }

  /** Every entry of `value_to_perm` orders three things. */
  lemma ValueToPermArePerms(v: int)
    requires 1 <= v <= 6
    ensures IsPerm3(ValueToPerm(v))
  {
    var p := ValueToPerm(v);
    assert p == [p[0], p[1], p[2]];
    assert multiset(p) == multiset{p[0], p[1], p[2]};
  }

  /** `value_to_perm` is one-to-one on 1..6. */
  lemma ValueToPermInjective(a: int, b: int)
    requires 1 <= a <= 6 && 1 <= b <= 6 && a != b
    ensures ValueToPerm(a) != ValueToPerm(b)
  {
    var pa, pb := ValueToPerm(a), ValueToPerm(b);
    assert pa[0] != pb[0] || pa[1] != pb[1];
  }

  /** Every order of three things is an entry of `value_to_perm`, so with
      `ValueToPermInjective` the table is a bijection. */
  lemma ValueToPermOnto(p: seq<int>)
    requires IsPerm3(p)
    ensures exists v :: 1 <= v <= 6 && ValueToPerm(v) == p
  {
    Perm3Elements(p);
    assert p == [p[0], p[1], p[2]];
    if p[0] == 0 {
      if p[1] == 1 { assert ValueToPerm(1) == p; } else { assert ValueToPerm(2) == p; }
    } else if p[0] == 1 {
      if p[1] == 0 { assert ValueToPerm(3) == p; } else { assert ValueToPerm(4) == p; }
    } else {
      if p[1] == 0 { assert ValueToPerm(5) == p; } else { assert ValueToPerm(6) == p; }
    }
  }

  /** Pair comparison in `sorted(zip(remaining, range(3)))`: tuples compare
      their cards with `__eq__` first, then with `__lt__`, and fall back to the
      index for equal cards. */
  predicate PairLt(a: Card, i: int, b: Card, j: int)
  {
    if CardEq(a, b) then i < j else CardLt(a, b)
  }

  /** The position of `remaining[j]` in the sorted pairs: the number of pairs
      before it, which is that position whenever the pairs are totally ordered
      (as they are for deck cards). */
  function Rank(remaining: seq<Card>, j: int): int
    requires |remaining| == 3 && 0 <= j < 3
  {
    (if PairLt(remaining[0], 0, remaining[j], j) then 1 else 0)
    + (if PairLt(remaining[1], 1, remaining[j], j) then 1 else 0)
    + (if PairLt(remaining[2], 2, remaining[j], j) then 1 else 0)
  }

  /** The first key of `value_to_perm`, in iteration order 1..6, mapped to `perm`. */
  function ValueOfPerm(perm: seq<int>, v: int): (r: Option<int>)
    requires 1 <= v <= 7
    ensures r.Some? ==> 1 <= r.value <= 6 && ValueToPerm(r.value) == perm
    ensures r.None? ==> forall w :: v <= w <= 6 ==> ValueToPerm(w) != perm
    decreases 7 - v
  {
    if v == 7 then None
    else if ValueToPerm(v) == perm then Some(v)
    else ValueOfPerm(perm, v + 1)
  }

  /** The hand without the hidden and the first revealed card, sorted. */
  function RestOfHand(hand: seq<HeldCard>, chosen: HeldCard, shown: HeldCard): (r: Outcome<seq<HeldCard>>)
    ensures r.Returns? ==> |r.value| == |hand| - 2
  {
    match RemoveCardFromHand(hand, chosen)
    case Raises(e) => Raises(e)
    case Returns(rest1) =>
      match RemoveCardFromHand(rest1, shown)
      case Raises(e) => Raises(e)
      case Returns(rest2) => Returns(SortCards(rest2))
  }

  /** The revealed list: the shown card, then the sorted rest in `perm` order. */
  function Arrange(shown: HeldCard, sorted: seq<HeldCard>, perm: seq<int>): (r: seq<HeldCard>)
    requires |perm| == 3 && forall i :: 0 <= i < 3 ==> 0 <= perm[i] < |sorted|
    ensures |r| == 4 && r[0] == shown
    ensures forall i :: 0 <= i < 3 ==> r[i + 1] == sorted[perm[i]]
  {
    [shown, sorted[perm[0]], sorted[perm[1]], sorted[perm[2]]]
  }

  /** The tail of `WinningStrategy.p1` once the hidden and the first
      revealed card are fixed: remove both, sort the rest, and reveal three of
      them in the order that encodes `difference`. */
  function RevealRest(hand: seq<HeldCard>, chosen: HeldCard, shown: HeldCard, difference: int)
    : (r: Outcome<(HeldCard, seq<HeldCard>)>)
  {
    match RestOfHand(hand, chosen, shown)
    case Raises(e) => Raises(e)
    case Returns(sorted) =>
      if !(0 < difference < 7) then Raises("AssertionError")
      else
        var perm := ValueToPerm(difference);
        if |sorted| < 3 then Raises("IndexError")
        else Returns((chosen, Arrange(shown, sorted, perm)))
  }

  /** `WinningStrategy.p1`.  `order` is the iteration order of the dictionary
      keyed by suit, which Python leaves unspecified; it lists suit names. */
  function WinningP1(hand: seq<HeldCard>, order: seq<string>): (r: Outcome<(HeldCard, seq<HeldCard>)>)
  {
    match FirstDuplicateSuit(order, hand)
    case None => Raises("IndexError")
    case Some(suit) =>
      var group := CardsOfSuit(hand, suit);
      var pair := ChoosePair(group[0], group[1]);
      RevealRest(hand, pair.0, pair.1, pair.2)
  }

  /** How many steps `to` lies above `from`, counting round the 13 values. */
  function Steps(from: int, to: int): (d: int)
    ensures 0 <= d < 13
  {
    (to - from) % 13
  }

  /** Of two cards of one suit, the one to hide, the one to show first, and
      how many steps (mod 13) the hidden value lies above the shown one. */
  function ChoosePair(c1: HeldCard, c2: HeldCard): (r: (HeldCard, HeldCard, int))
    ensures (r.0, r.1) == (c1, c2) || (r.0, r.1) == (c2, c1)
    ensures r.2 == Steps(r.1.card.value.value, r.0.card.value.value)
  {
    var v1, v2 := c1.card.value.value, c2.card.value.value;
    if (v1 - v2) % 13 < 7 then (c1, c2, (v1 - v2) % 13)
    else (c2, c1, (v2 - v1) % 13)
  }

  /** `WinningStrategy.p2`. */
  function WinningP2(revealed: seq<Card>): (r: Outcome<Option<Card>>)
    ensures r.Returns? ==> |revealed| == 4
    ensures r.Returns? && r.value.Some? ==> r.value.value.suit == revealed[0].suit
  {
    if |revealed| == 0 then Raises("IndexError")
    else
      var chosenSuit := revealed[0].suit;
      var firstVal := revealed[0].value.value;
      var remaining := revealed[1..];
      if |remaining| != 3 then Raises("AssertionError")
      else
        var chosenPerm := [Rank(remaining, 0), Rank(remaining, 1), Rank(remaining, 2)];
        match ValueOfPerm(chosenPerm, 1)
        case None => Returns(None)
        case Some(value) => Returns(Some(Card(chosenSuit, Values[(firstVal + value - 1) % 13 + 1])))
  }

  // ---------------------------------------------------------------------
  // Correctness of the winning strategy

  /** Five different cards of the deck, each held as its own object: what
      `Engine.simulate` deals (5reveal1.py:115-130). */
  predicate FiveDistinctDeckCards(hand: seq<HeldCard>)
  {
    && |hand| == 5
    && DistinctIds(hand)
    && DeckHand(hand)
    && forall i, j :: 0 <= i < j < |hand| ==> !CardEq(hand[i].card, hand[j].card)
  }

  /** Two different objects of such a hand hold unequal cards. */
  lemma DifferentObjectsUnequal(hand: seq<HeldCard>, a: HeldCard, b: HeldCard)
    requires DistinctIds(hand) && forall i, j :: 0 <= i < j < |hand| ==> !CardEq(hand[i].card, hand[j].card)
    requires a in hand && b in hand && a.id != b.id
    ensures !CardEq(a.card, b.card)
  {
    var i :| 0 <= i < |hand| && hand[i] == a;
    var j :| 0 <= j < |hand| && hand[j] == b;
    if i < j { } else { assert j < i; }
  }

  lemma ModDifference(a: int, b: int)
    requires 1 <= a <= 13 && 1 <= b <= 13 && a != b
    ensures 1 <= (a - b) % 13 <= 12
    ensures (b - a) % 13 == 13 - (a - b) % 13
  {
    if a > b {
      assert (a - b) % 13 == a - b;
      assert (b - a) % 13 == 13 + b - a;
    } else {
      assert (a - b) % 13 == 13 + a - b;
      assert (b - a) % 13 == b - a;
    }
  }

  /** Adding the distance back to the revealed value recovers the hidden value. */
  lemma ModRoundTrip(chosen: int, first: int)
    requires 1 <= chosen <= 13 && 1 <= first <= 13
    ensures (first + Steps(first, chosen) - 1) % 13 + 1 == chosen
  {
    if chosen >= first {
      assert (chosen - first) % 13 == chosen - first;
    } else {
      assert (chosen - first) % 13 == 13 + chosen - first;
      assert (first + 13 + chosen - first - 1) == 13 + (chosen - 1);
    }
  }

  /** What `Engine.simulate` asserts of player one's answer, and the shape the
      encoding relies on: the hidden card and the four revealed cards are five
      different objects of the hand, the first revealed card shares the hidden
      card's suit, and the hidden value lies 1..6 steps above it (mod 13). */
  predicate WellFormedReveal(hand: seq<HeldCard>, chosen: HeldCard, revealed: seq<HeldCard>)
  {
    && chosen in hand
    && |revealed| == 4
    && (forall c :: c in revealed ==> c in hand && c.id != chosen.id)
    && DistinctIds(revealed)
    && SuitEq(revealed[0].card.suit, chosen.card.suit)
    && 1 <= Steps(revealed[0].card.value.value, chosen.card.value.value) <= 6
  }

  /** The chosen pair of a repeated suit: two different cards of one suit. */
  lemma CandidatePair(hand: seq<HeldCard>, order: seq<string>)
    requires FiveDistinctDeckCards(hand)
    requires forall s :: s in SuitNames ==> s in order
    ensures FirstDuplicateSuit(order, hand).Some?
    ensures var group := CardsOfSuit(hand, FirstDuplicateSuit(order, hand).value);
      && |group| >= 2 && group[0] in hand && group[1] in hand && group[0].id != group[1].id
      && SuitEq(group[0].card.suit, group[1].card.suit)
      && group[0].card.value.value != group[1].card.value.value
  {
    PigeonholeSuit(hand);
    var suit := FirstDuplicateSuit(order, hand).value;
    var group := CardsOfSuit(hand, suit);
    assert group[0] in group && group[1] in group;
    DistinctIdsOfSubMultiset(group, hand);
    DifferentObjectsUnequal(hand, group[0], group[1]);
  }

  /** On two different cards of such a hand, the rest is three further
      objects of the hand, sorted. */
  lemma RestOfHandShape(hand: seq<HeldCard>, chosen: HeldCard, shown: HeldCard)
    requires FiveDistinctDeckCards(hand)
    requires chosen in hand && shown in hand && chosen.id != shown.id
    ensures RestOfHand(hand, chosen, shown).Returns?
    ensures var sorted := RestOfHand(hand, chosen, shown).value;
      && |sorted| == 3
      && (forall c :: c in sorted ==> c in hand && c.id != chosen.id && c.id != shown.id)
      && DistinctIds(sorted)
      && SortedCards(sorted)
  {
    CountIdOfDistinct(hand, chosen);
    var rest1 := RemoveCardFromHand(hand, chosen).value;
    DistinctIdsOfSubMultiset(rest1, hand);
    CountIdOfDistinct(rest1, shown);
    var rest2 := RemoveCardFromHand(rest1, shown).value;
    DistinctIdsOfSubMultiset(rest2, rest1);
    var sorted := SortCards(rest2);
    DistinctIdsOfSubMultiset(sorted, rest2);
    SortCardsSorted(rest2);
    forall c | c in sorted ensures c in hand && c.id != chosen.id && c.id != shown.id {
      assert c in multiset(rest2);
    }
  }

  /** `RevealRest` succeeds on two different cards of the hand and arranges
      the sorted rest by `ValueToPerm(difference)`. */
  lemma RevealRestArranges(hand: seq<HeldCard>, chosen: HeldCard, shown: HeldCard, difference: int)
    returns (sorted: seq<HeldCard>)
    requires FiveDistinctDeckCards(hand)
    requires chosen in hand && shown in hand && chosen.id != shown.id
    requires 1 <= difference <= 6
    ensures |sorted| == 3
    ensures forall c :: c in sorted ==> c in hand && c.id != chosen.id && c.id != shown.id
    ensures DistinctIds(sorted) && SortedCards(sorted)
    ensures RevealRest(hand, chosen, shown, difference) == Returns((chosen, Arrange(shown, sorted, ValueToPerm(difference))))
  {
    RestOfHandShape(hand, chosen, shown);
    sorted := RestOfHand(hand, chosen, shown).value;
    ValueToPermArePerms(difference);
  }

  /** Of two different values of a suit, exactly one lies 1..6 steps above
      the other, and that one is hidden. */
  lemma ChoosePairInRange(c1: HeldCard, c2: HeldCard)
    requires 1 <= c1.card.value.value <= 13 && 1 <= c2.card.value.value <= 13
    requires c1.card.value.value != c2.card.value.value
    ensures 1 <= ChoosePair(c1, c2).2 <= 6
  {
    ModDifference(c1.card.value.value, c2.card.value.value);
  }

  /** Player one hides one card of the first repeated suit and shows the
      other: the one that lies 1..6 steps above the other (mod 13) is hidden. */
  lemma WinningP1Unfold(hand: seq<HeldCard>, order: seq<string>)
    returns (chosen: HeldCard, shown: HeldCard, difference: int)
    requires FiveDistinctDeckCards(hand)
    requires forall s :: s in SuitNames ==> s in order
    ensures chosen in hand && shown in hand && chosen.id != shown.id
    ensures SuitEq(chosen.card.suit, shown.card.suit)
    ensures difference == Steps(shown.card.value.value, chosen.card.value.value)
    ensures 1 <= difference <= 6
    ensures WinningP1(hand, order) == RevealRest(hand, chosen, shown, difference)
  {
    CandidatePair(hand, order);
    var suit := FirstDuplicateSuit(order, hand).value;
    var group := CardsOfSuit(hand, suit);
    assert IsDeckCard(group[0].card) && IsDeckCard(group[1].card);
    ChoosePairInRange(group[0], group[1]);
    var pair := ChoosePair(group[0], group[1]);
    chosen, shown, difference := pair.0, pair.1, pair.2;
  }

  /** The arranged cards are the shown card and three further, different
      objects of the hand. */
  lemma ArrangeWellFormed(hand: seq<HeldCard>, chosen: HeldCard, shown: HeldCard, sorted: seq<HeldCard>, difference: int)
    requires chosen in hand && shown in hand && chosen.id != shown.id
    requires SuitEq(chosen.card.suit, shown.card.suit)
    requires difference == Steps(shown.card.value.value, chosen.card.value.value)
    requires 1 <= difference <= 6
    requires |sorted| == 3 && DistinctIds(sorted)
    requires forall c :: c in sorted ==> c in hand && c.id != chosen.id && c.id != shown.id
    ensures WellFormedReveal(hand, chosen, Arrange(shown, sorted, ValueToPerm(difference)))
  {
    var perm := ValueToPerm(difference);
    ValueToPermArePerms(difference);
    Perm3Elements(perm);
    var revealed := Arrange(shown, sorted, perm);
    assert sorted[perm[0]] in sorted && sorted[perm[1]] in sorted && sorted[perm[2]] in sorted;
    assert revealed == [shown, sorted[perm[0]], sorted[perm[1]], sorted[perm[2]]];
    forall c | c in revealed ensures c in hand && c.id != chosen.id {
    }
  }

  /** Player one always succeeds on five different deck cards, whatever the
      dictionary order, and answers as `Engine.simulate` expects. */
  lemma WinningP1Reveals(hand: seq<HeldCard>, order: seq<string>)
    requires FiveDistinctDeckCards(hand)
    requires forall s :: s in SuitNames ==> s in order
    ensures WinningP1(hand, order).Returns?
    ensures WellFormedReveal(hand, WinningP1(hand, order).value.0, WinningP1(hand, order).value.1)
  {
    var chosen, shown, difference := WinningP1Unfold(hand, order);
    var sorted := RevealRestArranges(hand, chosen, shown, difference);
    ArrangeWellFormed(hand, chosen, shown, sorted, difference);
  }

  /** In a sorted run of unequal deck cards, `<` is exactly index order. */
  lemma SortedStrict(sorted: seq<HeldCard>, hand: seq<HeldCard>)
    requires FiveDistinctDeckCards(hand)
    requires forall c :: c in sorted ==> c in hand
    requires DistinctIds(sorted) && SortedCards(sorted)
    ensures forall a, b :: 0 <= a < |sorted| && 0 <= b < |sorted| ==>
      (CardLt(sorted[a].card, sorted[b].card) <==> a < b) && (CardEq(sorted[a].card, sorted[b].card) <==> a == b)
  {
    forall a, b | 0 <= a < |sorted| && 0 <= b < |sorted|
      ensures (CardLt(sorted[a].card, sorted[b].card) <==> a < b) && (CardEq(sorted[a].card, sorted[b].card) <==> a == b)
    {
      assert sorted[a] in sorted && sorted[b] in sorted;
      assert IsDeckCard(sorted[a].card) && IsDeckCard(sorted[b].card);
      DeckTrichotomy(sorted[a].card, sorted[b].card);
      CardOrderMirror(sorted[a].card, sorted[b].card, sorted[a].card);
      if a != b {
        DifferentObjectsUnequal(hand, sorted[a], sorted[b]);
      }
    }
  }

  /** Player two reads back the order player one encoded: the rank of each of
      the three sorted-then-arranged cards is its entry of the permutation. */
  lemma ArrangedRanks(hand: seq<HeldCard>, shown: HeldCard, sorted: seq<HeldCard>, difference: int)
    requires FiveDistinctDeckCards(hand)
    requires |sorted| == 3 && forall c :: c in sorted ==> c in hand
    requires DistinctIds(sorted) && SortedCards(sorted)
    requires 1 <= difference <= 6
    ensures var remaining := Cards(Arrange(shown, sorted, ValueToPerm(difference)))[1..];
      [Rank(remaining, 0), Rank(remaining, 1), Rank(remaining, 2)] == ValueToPerm(difference)
  {
    ValueToPermArePerms(difference);
    var perm := ValueToPerm(difference);
    Perm3Elements(perm);
    var arranged := Arrange(shown, sorted, perm);
    var remaining := Cards(arranged)[1..];
    SortedStrict(sorted, hand);
    forall k | 0 <= k < 3
      ensures remaining[k] == sorted[perm[k]].card
    {
      assert remaining[k] == Cards(arranged)[k + 1] == arranged[k + 1].card;
    }
    PairsFollowPerm(sorted, perm, remaining);
    RankIsPosition(remaining, perm, 0);
    RankIsPosition(remaining, perm, 1);
    RankIsPosition(remaining, perm, 2);
    Three(perm);
  }

  lemma Three<T>(p: seq<T>)
    requires |p| == 3
    ensures p == [p[0], p[1], p[2]]
  {
  }

  /** Cards taken from a strictly sorted list in the order `perm` compare,
      as pairs, as their positions in the list do. */
  lemma PairsFollowPerm(sorted: seq<HeldCard>, perm: seq<int>, remaining: seq<Card>)
    requires |sorted| == 3 && |perm| == 3 && |remaining| == 3
    requires forall i :: 0 <= i < 3 ==> 0 <= perm[i] <= 2
    requires perm[0] != perm[1] && perm[0] != perm[2] && perm[1] != perm[2]
    requires forall k :: 0 <= k < 3 ==> remaining[k] == sorted[perm[k]].card
    requires forall a, b :: 0 <= a < |sorted| && 0 <= b < |sorted| ==>
      (CardLt(sorted[a].card, sorted[b].card) <==> a < b) && (CardEq(sorted[a].card, sorted[b].card) <==> a == b)
    ensures forall k, l :: 0 <= k < 3 && 0 <= l < 3 ==>
      (PairLt(remaining[k], k, remaining[l], l) <==> perm[k] < perm[l])
  {
    forall k, l | 0 <= k < 3 && 0 <= l < 3
      ensures PairLt(remaining[k], k, remaining[l], l) <==> perm[k] < perm[l]
    {
      var a, b := perm[k], perm[l];
      assert a == b <==> k == l;
      PairLtFollows(sorted[a].card, k, sorted[b].card, l, a, b);
    }
  }

  /** Cards ordered as their positions `a` and `b` are, with equal
      positions only for the same pair, compare as pairs the same way. */
  lemma PairLtFollows(x: Card, k: int, y: Card, l: int, a: int, b: int)
    requires CardLt(x, y) <==> a < b
    requires CardEq(x, y) <==> a == b
    requires a == b <==> k == l
    ensures PairLt(x, k, y, l) <==> a < b
  {
  }

  /** When the pairs are ordered as `perm` orders their positions, each
      rank is the entry of `perm`. */
  lemma RankIsPosition(remaining: seq<Card>, perm: seq<int>, j: int)
    requires |remaining| == 3 && |perm| == 3 && 0 <= j < 3
    requires forall i :: 0 <= i < 3 ==> 0 <= perm[i] <= 2
    requires perm[0] != perm[1] && perm[0] != perm[2] && perm[1] != perm[2]
    requires forall k, l :: 0 <= k < 3 && 0 <= l < 3 ==>
      (PairLt(remaining[k], k, remaining[l], l) <==> perm[k] < perm[l])
    ensures Rank(remaining, j) == perm[j]
  {
    assert PairLt(remaining[0], 0, remaining[j], j) <==> perm[0] < perm[j];
    assert PairLt(remaining[1], 1, remaining[j], j) <==> perm[1] < perm[j];
    assert PairLt(remaining[2], 2, remaining[j], j) <==> perm[2] < perm[j];
  }

  /** Player two decodes any four revealed cards whose first card shares the
      hidden card's suit, lies `difference` steps below it, and whose other
      three are ranked in the order `ValueToPerm(difference)`. */
  lemma P2Decodes(revealed: seq<Card>, hidden: Card, shown: Card, difference: int)
    requires |revealed| == 4 && revealed[0] == shown && 1 <= difference <= 6
    requires var remaining := revealed[1..];
      [Rank(remaining, 0), Rank(remaining, 1), Rank(remaining, 2)] == ValueToPerm(difference)
    requires hidden.suit == shown.suit
    requires IsDeckCard(hidden) && IsDeckCard(shown)
    requires difference == Steps(shown.value.value, hidden.value.value)
    ensures WinningP2(revealed) == Returns(Some(hidden))
  {
    var remaining := revealed[1..];
    var found := ValueOfPerm([Rank(remaining, 0), Rank(remaining, 1), Rank(remaining, 2)], 1);
    if found.Some? && found.value != difference {
      ValueToPermInjective(found.value, difference);
    }
    assert found == Some(difference);
    ModRoundTrip(hidden.value.value, shown.value.value);
  }

  /** The round trip of the trick: for any five different deck cards and any
      dictionary order, player two names exactly the card player one hid. */
  lemma WinningRoundTrip(hand: seq<HeldCard>, order: seq<string>)
    requires FiveDistinctDeckCards(hand)
    requires forall s :: s in SuitNames ==> s in order
    ensures WinningP1(hand, order).Returns?
    ensures WinningP2(Cards(WinningP1(hand, order).value.1)) == Returns(Some(WinningP1(hand, order).value.0.card))
  {
    var chosen, shown, difference := WinningP1Unfold(hand, order);
    var sorted := RevealRestArranges(hand, chosen, shown, difference);
    ArrangeDecodes(hand, chosen, shown, sorted, difference);
  }

  /** Player two decodes what player one arranges. */
  lemma ArrangeDecodes(hand: seq<HeldCard>, chosen: HeldCard, shown: HeldCard, sorted: seq<HeldCard>, difference: int)
    requires FiveDistinctDeckCards(hand)
    requires chosen in hand && shown in hand
    requires SuitEq(chosen.card.suit, shown.card.suit)
    requires difference == Steps(shown.card.value.value, chosen.card.value.value)
    requires 1 <= difference <= 6
    requires |sorted| == 3 && forall c :: c in sorted ==> c in hand
    requires DistinctIds(sorted) && SortedCards(sorted)
    ensures WinningP2(Cards(Arrange(shown, sorted, ValueToPerm(difference)))) == Returns(Some(chosen.card))
  {
    ArrangedRanks(hand, shown, sorted, difference);
    assert IsDeckCard(chosen.card) && IsDeckCard(shown.card);
    DeckSuitsDistinct(chosen.card.suit, shown.card.suit);
    var revealed := Cards(Arrange(shown, sorted, ValueToPerm(difference)));
    P2Decodes(revealed, chosen.card, shown.card, difference);
  }
}
