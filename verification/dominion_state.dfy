/** The player state of dominion.ts and the operations on it that the
    events and the turn loop share: `payDebt`, `validateGainCard`,
    `gainCard`, `buyCard`, `draw`, `findCard`, `findTreasure`,
    `trashCard`, `playTreasure` and `countVictoryPoints`.  Cards are
    referred to by name, as in the source. */
module DominionState {
  import opened Exceptions
  import opened DominionCatalog
  import opened DominionInput

  type Name = string

  /** `undefined`, which `zone.splice(index, 1)[0]` yields when `index` is
      past the end of `zone`; no registered name is empty. */
  const Undefined: Name := ""

  /** `supply_state[name]`. */
  datatype Pile = Pile(tax: int, supply: int)

  /** `State`, field for field. */
  datatype State = State(
    deck: seq<Name>,
    hand: seq<Name>,
    discard: seq<Name>,
    play: seq<Name>,
    trash: seq<Name>,
    buys: int,
    debt: int,
    borrowed: bool,
    travellingFaired: bool,
    money: int,
    minusCardToken: bool,
    extraDraw: int,
    vpTokens: int,
    gainedSilvers: int,
    gainedCards: int,
    takeMissionTurn: bool,
    isMissionTurn: bool,
    donated: bool,
    saved: seq<Name>,
    supply: map<Name, Pile>)

  // ---------------------------------------------------------------------
  // Where the cards are

  /** Every card the player owns or has trashed or set aside. */
  function Cards(s: State): multiset<Name>
  {
    Pool(s) + multiset(s.play) + multiset(s.trash) + multiset(s.saved)
  }

  /** The copies of `n` left in its supply pile. */
  function InSupply(s: State, n: Name): int
  {
    if n in s.supply then s.supply[n].supply else 0
  }

  /** The copies of `n` in the player's zones and the supply together. */
  function Total(s: State, n: Name): int
  {
    Cards(s)[n] + InSupply(s, n)
  }

  /** No card of any name appears or disappears between `s` and `t`. */
  ghost predicate Conserves(s: State, t: State)
  {
    forall n :: Total(t, n) == Total(s, n)
  }

  lemma ConservesTrans(s: State, t: State, u: State)
    requires Conserves(s, t) && Conserves(t, u)
    ensures Conserves(s, u)
  {
  }

  /** A state whose zones and piles are all left alone conserves. */
  lemma SameCardsConserve(s: State, t: State)
    requires Cards(t) == Cards(s) && t.supply == s.supply
    ensures Conserves(s, t)
  {
  }

  /** Every name in the zone is a card of the catalogue. */
  predicate Registered(zone: seq<Name>)
  {
    forall x :: x in zone ==> IsCardName(x)
  }

  // ---------------------------------------------------------------------
  // payDebt

  /** `payDebt(state)`: throws on negative debt or money, otherwise pays as
      much of the debt as the money covers. */
  function PayDebt(s: State): (r: Outcome<State>)
    ensures r.Raises? <==> s.debt < 0 || s.money < 0
    ensures r.Returns? ==> r.value == s.(debt := r.value.debt, money := r.value.money)
    ensures r.Returns? ==> r.value.debt >= 0 && r.value.money >= 0
    ensures r.Returns? ==> r.value.debt == 0 || r.value.money == 0
    ensures r.Returns? ==> s.debt - r.value.debt == s.money - r.value.money
  {
    if s.debt < 0 then Raises("Negative debt?!")
    else if s.money < 0 then Raises("Negative money?!")
    else if s.debt < s.money then Returns(s.(debt := 0, money := s.money - s.debt))
    else Returns(s.(debt := s.debt - s.money, money := 0))
  }

  /** Paying twice pays nothing more. */
  lemma PayDebtIdempotent(s: State)
    requires PayDebt(s).Returns?
    ensures PayDebt(PayDebt(s).value) == PayDebt(s)
  {
  }

  // ---------------------------------------------------------------------
  // validateGainCard / gainCard / buyCard

  /** `validateGainCard(state, card)`: the pile is not empty. */
  predicate CanGain(s: State, name: Name)
    requires name in s.supply
  {
    s.supply[name].supply != 0
  }

  /** `t` is `s` after one copy of `name` left its pile for the deck or
      the discard, with the turn's gain counters raised. */
  predicate Gained(s: State, t: State, name: Name)
    requires name in s.supply
  {
    t.supply == s.supply[name := s.supply[name].(supply := s.supply[name].supply - 1)]
    && t.gainedCards == s.gainedCards + 1
    && t.gainedSilvers == s.gainedSilvers + (if name == SILVER then 1 else 0)
    && ((t.deck == s.deck + [name] && t.discard == s.discard)
        || (t.deck == s.deck && t.discard == s.discard + [name]))
    && t == s.(deck := t.deck, discard := t.discard, supply := t.supply,
               gainedCards := t.gainedCards, gainedSilvers := t.gainedSilvers)
  }

  /** Where the gained card lands: on the deck when `top`, else the discard. */
  function Place(s: State, name: Name, top: bool): (t: State)
    ensures top ==> t.deck == s.deck + [name] && t.discard == s.discard
    ensures !top ==> t.deck == s.deck && t.discard == s.discard + [name]
    ensures t == s.(deck := t.deck, discard := t.discard)
  {
    if top then s.(deck := s.deck + [name]) else s.(discard := s.discard + [name])
  }

  function TakeFromPile(s: State, name: Name): (t: State)
    requires name in s.supply
    ensures t.supply == s.supply[name := s.supply[name].(supply := s.supply[name].supply - 1)]
    ensures t.gainedCards == s.gainedCards + 1
    ensures t.gainedSilvers == s.gainedSilvers + (if name == SILVER then 1 else 0)
    ensures t == s.(supply := t.supply, gainedCards := t.gainedCards, gainedSilvers := t.gainedSilvers)
  {
    var p := s.supply[name];
    s.(gainedSilvers := if name == SILVER then s.gainedSilvers + 1 else s.gainedSilvers,
       gainedCards := s.gainedCards + 1,
       supply := s.supply[name := p.(supply := p.supply - 1)])
  }

  /** `gainCard(state, card)`: false and no change on an empty pile;
      otherwise the pile shrinks and, after a travelling fair, the player
      is asked whether to put the card on the deck.  The value is whether
      the card was gained. */
  function GainCard(s: State, name: Name, env: Env): (r: Run<(bool, State)>)
    requires name in s.supply
    ensures !r.Crashed? && Within(r, env)
    ensures r.Done? ==> r.value.0 == CanGain(s, name) && r.env.rolls == env.rolls
    ensures r.Done? && !r.value.0 ==> r.value.1 == s && r.env == env
    ensures r.Done? && r.value.0 ==> Gained(s, r.value.1, name)
  {
    if !CanGain(s, name) then Done((false, s), env)
    else if s.travellingFaired then
      var (top, env') :- YesNo(env);
      Done((true, Place(TakeFromPile(s, name), name, top)), env')
    else Done((true, Place(TakeFromPile(s, name), name, false)), env)
  }

  /** Without a travelling fair nothing is asked and the card goes to the
      discard. */
  lemma GainWithoutFair(s: State, name: Name, env: Env)
    requires name in s.supply && CanGain(s, name) && !s.travellingFaired
    ensures GainCard(s, name, env).Done? && GainCard(s, name, env).env == env
    ensures GainCard(s, name, env).value.1.deck == s.deck
  {
  }

  /** After a travelling fair the player is asked, and the card goes on
      the deck exactly when the answer is yes. */
  lemma GainWithFair(s: State, name: Name, env: Env)
    requires name in s.supply && CanGain(s, name) && s.travellingFaired
    ensures GainCard(s, name, env).Done? <==> YesNo(env).Done?
    ensures GainCard(s, name, env).Done? ==>
      GainCard(s, name, env).env == YesNo(env).env
      && (GainCard(s, name, env).value.1.deck == s.deck + [name] <==> YesNo(env).value)
  {
  }

  /** A gain moves one card from its pile into the player's cards. */
  lemma GainConserves(s: State, name: Name, env: Env)
    requires name in s.supply && GainCard(s, name, env).Done?
    ensures Conserves(s, GainCard(s, name, env).value.1)
  {
    if CanGain(s, name) {
      GainedConserves(s, GainCard(s, name, env).value.1, name);
    }
  }

  lemma GainedConserves(s: State, t: State, name: Name)
    requires name in s.supply && Gained(s, t, name)
    ensures Conserves(s, t)
  {
    GainedCards(s, t, name);
    LeftPile(s, t, name);
  }

  lemma GainedCards(s: State, t: State, name: Name)
    requires name in s.supply && Gained(s, t, name)
    ensures Cards(t) == Cards(s) + multiset{name}
  {
    assert Pool(t) == Pool(s) + multiset{name} by {
      if t.deck == s.deck + [name] {
        assert multiset(t.deck) == multiset(s.deck) + multiset{name};
      } else {
        assert multiset(t.discard) == multiset(s.discard) + multiset{name};
      }
    }
  }

  /** One copy of `name` leaving its pile for the player's cards. */
  lemma LeftPile(s: State, t: State, name: Name)
    requires name in s.supply
    requires t.supply == s.supply[name := s.supply[name].(supply := s.supply[name].supply - 1)]
    requires Cards(t) == Cards(s) + multiset{name}
    ensures Conserves(s, t)
  {
    forall n
      ensures Total(t, n) == Total(s, n)
    {
      if n == name {
        assert InSupply(t, n) == InSupply(s, n) - 1;
      } else {
        assert InSupply(t, n) == InSupply(s, n);
      }
    }
  }

  /** `buyCard(state, card)`: gain the card, then add any tax on its pile
      to the debt and clear that tax. */
  function BuyCard(s: State, name: Name, env: Env): (r: Run<State>)
    requires name in s.supply
    ensures !r.Crashed? && Within(r, env)
    ensures r.Done? <==> GainCard(s, name, env).Done?
    ensures r.Done? ==> r.env == GainCard(s, name, env).env
  {
    var g :- GainCard(s, name, env);
    var ((gained, t), env') := g;
    if !gained then Done(t, env')
    else
      var p := t.supply[name];
      if p.tax != 0 then Done(t.(debt := t.debt + p.tax, supply := t.supply[name := p.(tax := 0)]), env')
      else Done(t, env')
  }

  /** A successful buy charges the pile's tax to the debt exactly once and
      clears it; otherwise it is the gain alone. */
  lemma BuyCardSpec(s: State, name: Name, env: Env)
    requires name in s.supply && BuyCard(s, name, env).Done?
    ensures !CanGain(s, name) ==> BuyCard(s, name, env).value == s
    ensures CanGain(s, name) ==>
      var g := GainCard(s, name, env).value.1;
      BuyCard(s, name, env).value
      == g.(debt := s.debt + s.supply[name].tax, supply := g.supply[name := Pile(0, s.supply[name].supply - 1)])
  {
  }

  /** A buy moves one card from its pile into the player's cards. */
  lemma BuyConserves(s: State, name: Name, env: Env)
    requires name in s.supply && BuyCard(s, name, env).Done?
    ensures Conserves(s, BuyCard(s, name, env).value)
  {
    GainConserves(s, name, env);
    var g := GainCard(s, name, env).value.1;
    var t := BuyCard(s, name, env).value;
    BuyCardSpec(s, name, env);
    if CanGain(s, name) {
      TaxConserves(g, t, name, 0);
      ConservesTrans(s, g, t);
    }
  }

  /** Changing a pile's tax changes no card count. */
  lemma TaxConserves(s: State, t: State, name: Name, tax: int)
    requires name in s.supply
    requires t == s.(debt := t.debt, supply := s.supply[name := Pile(tax, s.supply[name].supply)])
    ensures Conserves(s, t)
  {
    assert Cards(t) == Cards(s);
  }

  // ---------------------------------------------------------------------
  // draw

  /** JavaScript's default string order: by character codes, a proper
      prefix first. */
  predicate NameLe(a: Name, b: Name)
    decreases |a|
  {
    |a| == 0 || (|b| > 0 && (a[0] < b[0] || (a[0] == b[0] && NameLe(a[1..], b[1..]))))
  }

  lemma {:induction false} NameLeTotal(a: Name, b: Name)
    ensures NameLe(a, b) || NameLe(b, a)
    decreases |a|
  {
    if |a| > 0 && |b| > 0 && a[0] == b[0] {
      NameLeTotal(a[1..], b[1..]);
    }
  }

  predicate Sorted(s: seq<Name>)
  {
    forall i :: 0 <= i < |s| - 1 ==> NameLe(s[i], s[i + 1])
  }

  function Insert(x: Name, s: seq<Name>): (r: seq<Name>)
    requires Sorted(s)
    ensures Sorted(r)
    ensures |r| == |s| + 1
    ensures |s| > 0 ==> r[0] == x || r[0] == s[0]
  {
    if |s| == 0 then [x]
    else if NameLe(x, s[0]) then [x] + s
    else
      NameLeTotal(x, s[0]);
      assert s == [s[0]] + s[1..];
      [s[0]] + Insert(x, s[1..])
  }

  lemma {:induction false} InsertPermutes(x: Name, s: seq<Name>)
    requires Sorted(s)
    ensures multiset(Insert(x, s)) == multiset(s) + multiset{x}
  {
    if |s| > 0 && !NameLe(x, s[0]) {
      assert s == [s[0]] + s[1..];
      InsertPermutes(x, s[1..]);
    }
  }

  /** `array.sort()` on names. */
  function SortNames(s: seq<Name>): (r: seq<Name>)
    ensures Sorted(r) && |r| == |s|
  {
    if |s| == 0 then [] else Insert(s[0], SortNames(s[1..]))
  }

  /** Sorting only reorders. */
  lemma {:induction false} SortPermutes(s: seq<Name>)
    ensures multiset(SortNames(s)) == multiset(s)
  {
    if |s| > 0 {
      assert s == [s[0]] + s[1..];
      SortPermutes(s[1..]);
      InsertPermutes(s[0], SortNames(s[1..]));
    }
  }

  /** Deck, discard and hand together: what `draw` moves cards between. */
  function Pool(s: State): multiset<Name>
  {
    multiset(s.deck) + multiset(s.discard) + multiset(s.hand)
  }

  /** The deck `draw` takes from: the deck itself or, when that is empty,
      the shuffled discard, which is then emptied. */
  function Refill(s: State, env: Env): (r: (State, Env))
    ensures r.1.answers == env.answers
    ensures r.0 == s.(deck := r.0.deck, discard := r.0.discard)
    ensures |s.deck| > 0 ==> r == (s, env)
    ensures |s.deck| == 0 ==> r.0.discard == [] && |r.0.deck| == |s.discard|
  {
    if |s.deck| > 0 then (s, env)
    else
      var (deck, rolls) := Shuffle(s.discard, env.rolls);
      (s.(deck := deck, discard := []), env.(rolls := rolls))
  }

  lemma RefillPool(s: State, env: Env)
    ensures Pool(Refill(s, env).0) == Pool(s)
  {
    ShufflePermutes(s.discard, env.rolls);
  }

  /** The deck's last card joins the hand, which is then sorted. */
  function TakeTop(s: State): (t: State)
    requires |s.deck| > 0
    ensures t == s.(deck := t.deck, hand := t.hand)
    ensures t.deck == s.deck[..|s.deck| - 1]
    ensures Sorted(t.hand) && |t.hand| == |s.hand| + 1
  {
    s.(deck := s.deck[..|s.deck| - 1], hand := SortNames(s.hand + [s.deck[|s.deck| - 1]]))
  }

  lemma TakeTopPool(s: State)
    requires |s.deck| > 0
    ensures multiset(TakeTop(s).hand) == multiset(s.hand) + multiset{s.deck[|s.deck| - 1]}
    ensures Pool(TakeTop(s)) == Pool(s)
  {
    var card := s.deck[|s.deck| - 1];
    assert s.deck == s.deck[..|s.deck| - 1] + [card];
    SortPermutes(s.hand + [card]);
  }

  /** `draw(state)`: a pending -1 card token is spent instead of drawing;
      with no cards left nothing happens; an empty deck is first replaced
      by the shuffled discard.  The card taken is the deck's last, and the
      hand is sorted afterwards. */
  function Draw(s: State, env: Env): (r: (State, Env))
    ensures r.1.answers == env.answers
    ensures r.0 == s.(deck := r.0.deck, discard := r.0.discard, hand := r.0.hand,
                      minusCardToken := r.0.minusCardToken)
  {
    if s.minusCardToken then (s.(minusCardToken := false), env)
    else if |s.deck| == 0 && |s.discard| == 0 then (s, env)
    else
      var (t, env') := Refill(s, env);
      (TakeTop(t), env')
  }

  /** A draw only moves cards between deck, discard and hand. */
  lemma DrawPool(s: State, env: Env)
    ensures Pool(Draw(s, env).0) == Pool(s)
  {
    if !s.minusCardToken && (|s.deck| > 0 || |s.discard| > 0) {
      var (u, env') := Refill(s, env);
      RefillPool(s, env);
      TakeTopPool(u);
    }
  }

  /** With the -1 card token out, `draw` only spends the token. */
  lemma DrawSpendsToken(s: State, env: Env)
    requires s.minusCardToken
    ensures Draw(s, env) == (s.(minusCardToken := false), env)
  {
  }

  /** With deck and discard both empty, `draw` changes nothing. */
  lemma DrawNothingLeft(s: State, env: Env)
    requires !s.minusCardToken && |s.deck| == 0 && |s.discard| == 0
    ensures Draw(s, env) == (s, env)
  {
  }

  /** From a non-empty deck, `draw` moves the deck's last card into the
      hand, keeps the hand sorted and uses no roll. */
  lemma DrawFromDeck(s: State, env: Env)
    requires !s.minusCardToken && |s.deck| > 0
    ensures var t := Draw(s, env).0;
      t.deck == s.deck[..|s.deck| - 1] && t.discard == s.discard
      && multiset(t.hand) == multiset(s.hand) + multiset{s.deck[|s.deck| - 1]}
      && |t.hand| == |s.hand| + 1
      && Sorted(t.hand) && !t.minusCardToken && Draw(s, env).1 == env
  {
    TakeTopPool(s);
  }

  /** From an empty deck, `draw` shuffles the whole discard into the deck,
      empties the discard and then draws one of those cards (which cards
      end where is `Pool`, kept by every `Draw`). */
  lemma DrawAfterShuffle(s: State, env: Env)
    requires !s.minusCardToken && |s.deck| == 0 && |s.discard| > 0
    ensures Draw(s, env).0.discard == []
    ensures |Draw(s, env).0.deck| == |s.discard| - 1
    ensures |Draw(s, env).0.hand| == |s.hand| + 1
    ensures Sorted(Draw(s, env).0.hand) && !Draw(s, env).0.minusCardToken
  {
    var (u, env') := Refill(s, env);
    assert Draw(s, env).0 == TakeTop(u);
  }

  lemma DrawTokenSpent(s: State, env: Env)
    ensures !Draw(s, env).0.minusCardToken
  {
    if !s.minusCardToken && (|s.deck| > 0 || |s.discard| > 0) {
      var (u, env') := Refill(s, env);
      assert Draw(s, env).0 == TakeTop(u);
    }
  }

  /** One `draw` in numbers: a card moves exactly when no token is out and
      deck or discard holds one. */
  lemma DrawStep(s: State, env: Env)
    ensures var t := Draw(s, env).0;
      var moved := if !s.minusCardToken && |s.deck| + |s.discard| > 0 then 1 else 0;
      |t.hand| == |s.hand| + moved && |t.deck| + |t.discard| == |s.deck| + |s.discard| - moved
  {
    if s.minusCardToken {
      DrawSpendsToken(s, env);
    } else if |s.deck| == 0 && |s.discard| == 0 {
      DrawNothingLeft(s, env);
    } else if |s.deck| > 0 {
      DrawFromDeck(s, env);
    } else {
      DrawAfterShuffle(s, env);
    }
  }

  /** Drawing `n` times in a row. */
  function DrawN(s: State, env: Env, n: nat): (r: (State, Env))
    ensures r.1.answers == env.answers
    ensures r.0 == s.(deck := r.0.deck, discard := r.0.discard, hand := r.0.hand,
                      minusCardToken := r.0.minusCardToken)
    ensures n > 0 ==> !r.0.minusCardToken
    ensures n == 0 ==> r == (s, env)
    decreases n
  {
    if n == 0 then (s, env)
    else
      var (t, env') := Draw(s, env);
      DrawTokenSpent(s, env);
      DrawN(t, env', n - 1)
  }

  /** `n` draws take `n` cards, one fewer when the -1 card token is out,
      and never more than deck and discard hold. */
  lemma {:induction false} DrawNCount(s: State, env: Env, n: nat)
    ensures |DrawN(s, env, n).0.hand| == |s.hand| + Drawn(s.minusCardToken, n, |s.deck| + |s.discard|)
    decreases n
  {
    if n > 0 {
      var r := Draw(s, env);
      assert DrawN(s, env, n) == DrawN(r.0, r.1, n - 1);
      DrawStep(s, env);
      DrawTokenSpent(s, env);
      DrawNCount(r.0, r.1, n - 1);
      DrawnStep(s.minusCardToken, n, |s.deck| + |s.discard|);
    } else {
      assert DrawN(s, env, n) == (s, env);
    }
  }

  lemma DrawnStep(token: bool, n: nat, have: nat)
    requires n > 0
    ensures var moved := if !token && have > 0 then 1 else 0;
      Drawn(token, n, have) == moved + Drawn(false, n - 1, have - moved)
  {
  }

  /** How many cards `n` draws take from `have` cards, given whether the -1
      card token is out: one draw fewer with the token, never more than
      `have`. */
  function Drawn(token: bool, n: nat, have: nat): nat
  {
    var want := if token && n > 0 then n - 1 else n;
    if want < have then want else have
  }

  lemma {:induction false} DrawNPool(s: State, env: Env, n: nat)
    ensures Pool(DrawN(s, env, n).0) == Pool(s)
    decreases n
  {
    if n > 0 {
      var r := Draw(s, env);
      DrawPool(s, env);
      DrawNPool(r.0, r.1, n - 1);
    }
  }

  /** Drawing moves cards between deck, discard and hand only. */
  lemma DrawNConserves(s: State, env: Env, n: nat)
    ensures Conserves(s, DrawN(s, env, n).0)
  {
    var t := DrawN(s, env, n).0;
    DrawNPool(s, env, n);
    assert Cards(t) == Cards(s);
  }

  // ---------------------------------------------------------------------
  // findCard / findTreasure / trashCard / playTreasure

  /** `findCard(zone, card)`: the first index of the name, or -1. */
  function FindCard(zone: seq<Name>, name: Name): (i: int)
    ensures -1 <= i < |zone|
    ensures i == -1 <==> name !in zone
    ensures i >= 0 ==> zone[i] == name && name !in zone[..i]
  {
    if |zone| == 0 then -1
    else if zone[0] == name then 0
    else
      var k := FindCard(zone[1..], name);
      assert zone == [zone[0]] + zone[1..];
      if k == -1 then -1
      else
        assert zone[..k + 1] == [zone[0]] + zone[1..][..k];
        k + 1
  }

  predicate IsTreasure(name: Name)
  {
    IsCardName(name) && TreasureOf(name) != 0
  }

  /** `findTreasure(hand)`: the first index of a treasure, or -1. */
  function FindTreasure(hand: seq<Name>): (i: int)
    requires Registered(hand)
    ensures -1 <= i < |hand|
    ensures i == -1 <==> forall j :: 0 <= j < |hand| ==> !IsTreasure(hand[j])
    ensures i >= 0 ==> IsTreasure(hand[i]) && forall j :: 0 <= j < i ==> !IsTreasure(hand[j])
  {
    if |hand| == 0 then -1
    else if TreasureOf(hand[0]) != 0 then 0
    else
      var k := FindTreasure(hand[1..]);
      assert forall j :: 1 <= j < |hand| ==> hand[j] == hand[1..][j - 1];
      if k == -1 then -1 else k + 1
  }

  /** `hasTreasure(hand)`. */
  predicate HasTreasure(hand: seq<Name>)
    requires Registered(hand)
  {
    FindTreasure(hand) >= 0
  }

  function RemoveAt(a: seq<Name>, i: nat): (r: seq<Name>)
    requires i < |a|
    ensures |r| == |a| - 1
    ensures multiset(r) + multiset{a[i]} == multiset(a)
    ensures forall j :: 0 <= j < |r| ==> r[j] == if j < i then a[j] else a[j + 1]
  {
    assert a == a[..i] + [a[i]] + a[i + 1..];
    a[..i] + a[i + 1..]
  }

  /** The zones `trashCard` is called on. */
  datatype Zone = HandZone | DiscardZone | PlayZone

  function ZoneOf(s: State, z: Zone): seq<Name>
  {
    match z
    case HandZone => s.hand
    case DiscardZone => s.discard
    case PlayZone => s.play
  }

  function WithZone(s: State, z: Zone, cards: seq<Name>): (t: State)
    ensures ZoneOf(t, z) == cards
    ensures t.trash == s.trash && t.supply == s.supply
    ensures t.deck == s.deck && t.saved == s.saved
    ensures z != HandZone ==> t.hand == s.hand
    ensures z != DiscardZone ==> t.discard == s.discard
    ensures z != PlayZone ==> t.play == s.play
  {
    match z
    case HandZone => s.(hand := cards)
    case DiscardZone => s.(discard := cards)
    case PlayZone => s.(play := cards)
  }

  /** `trashCard(state, zone, index)`: the card at `index` leaves the zone
      for the trash; past the end of the zone nothing leaves and
      `undefined` is pushed onto the trash. */
  function TrashCard(s: State, z: Zone, i: nat): (t: State)
    ensures |t.trash| == |s.trash| + 1
    ensures i < |ZoneOf(s, z)| ==>
      t == WithZone(s, z, RemoveAt(ZoneOf(s, z), i)).(trash := s.trash + [ZoneOf(s, z)[i]])
    ensures i >= |ZoneOf(s, z)| ==> t == s.(trash := s.trash + [Undefined])
  {
    var zone := ZoneOf(s, z);
    if i < |zone| then WithZone(s, z, RemoveAt(zone, i)).(trash := s.trash + [zone[i]])
    else s.(trash := s.trash + [Undefined])
  }

  /** The cards outside zone `z` and outside the trash. */
  function Others(s: State, z: Zone): multiset<Name>
  {
    match z
    case HandZone => multiset(s.deck) + multiset(s.discard) + multiset(s.play) + multiset(s.saved)
    case DiscardZone => multiset(s.deck) + multiset(s.hand) + multiset(s.play) + multiset(s.saved)
    case PlayZone => multiset(s.deck) + multiset(s.hand) + multiset(s.discard) + multiset(s.saved)
  }

  lemma CardsSplit(s: State, z: Zone)
    ensures Cards(s) == (multiset(ZoneOf(s, z)) + multiset(s.trash)) + Others(s, z)
  {
  }

  lemma OthersKept(s: State, t: State, z: Zone)
    requires t.deck == s.deck && t.saved == s.saved
    requires z != HandZone ==> t.hand == s.hand
    requires z != DiscardZone ==> t.discard == s.discard
    requires z != PlayZone ==> t.play == s.play
    ensures Others(t, z) == Others(s, z)
  {
  }

  /** Moving one copy of `x` from `a` to `b` keeps their union. */
  lemma MoveOne(a: multiset<Name>, a': multiset<Name>, b: multiset<Name>, b': multiset<Name>, x: Name)
    requires a' + multiset{x} == a && b' == b + multiset{x}
    ensures a' + b' == a + b
  {
  }

  /** Trashing a card that is there moves it and changes no count. */
  lemma TrashConserves(s: State, z: Zone, i: nat)
    requires i < |ZoneOf(s, z)|
    ensures Conserves(s, TrashCard(s, z, i))
  {
    TrashMoves(s, z, i);
    SameCardsConserve(s, TrashCard(s, z, i));
  }

  lemma TrashMoves(s: State, z: Zone, i: nat)
    requires i < |ZoneOf(s, z)|
    ensures Cards(TrashCard(s, z, i)) == Cards(s) && TrashCard(s, z, i).supply == s.supply
  {
    var t := TrashCard(s, z, i);
    var zone := ZoneOf(s, z);
    MoveOne(multiset(zone), multiset(ZoneOf(t, z)), multiset(s.trash), multiset(t.trash), zone[i]);
    OthersKept(s, t, z);
    CardsSplit(s, z);
    CardsSplit(t, z);
  }

  /** `playTreasure(state, i)`: throws unless the card at `i` is a
      treasure; otherwise moves it to play and adds its value to money. */
  function PlayTreasure(s: State, i: nat): (r: Outcome<State>)
    requires i < |s.hand| && IsCardName(s.hand[i])
    ensures r.Raises? <==> !IsTreasure(s.hand[i])
    ensures r.Returns? ==>
      r.value == s.(hand := RemoveAt(s.hand, i), play := s.play + [s.hand[i]],
                    money := s.money + TreasureOf(s.hand[i]))
  {
    var card := s.hand[i];
    if TreasureOf(card) == 0 then Raises("is not a treasure")
    else Returns(s.(hand := RemoveAt(s.hand, i), play := s.play + [card], money := s.money + TreasureOf(card)))
  }

  lemma PlayTreasureConserves(s: State, i: nat)
    requires i < |s.hand| && IsCardName(s.hand[i]) && PlayTreasure(s, i).Returns?
    ensures Conserves(s, PlayTreasure(s, i).value)
  {
    var t := PlayTreasure(s, i).value;
    assert Cards(t) == Cards(s);
  }

  // ---------------------------------------------------------------------
  // Sums over zones

  /** `f` added up over `cards`. */
  function Sum(cards: seq<Name>, f: Name -> int): int
  {
    if |cards| == 0 then 0 else f(cards[0]) + Sum(cards[1..], f)
  }

  lemma {:induction false} SumAppend(a: seq<Name>, b: seq<Name>, f: Name -> int)
    ensures Sum(a + b, f) == Sum(a, f) + Sum(b, f)
  {
    if |a| > 0 {
      assert (a + b)[1..] == a[1..] + b;
      SumAppend(a[1..], b, f);
    } else {
      assert a + b == b;
    }
  }

  lemma SplitAt<T>(a: seq<T>, i: nat)
    requires i < |a|
    ensures a == (a[..i] + [a[i]]) + a[i + 1..]
  {
  }

  lemma SumRemoveAt(a: seq<Name>, i: nat, f: Name -> int)
    requires i < |a|
    ensures Sum(a, f) == f(a[i]) + Sum(RemoveAt(a, i), f)
  {
    var l, x, r := a[..i], [a[i]], a[i + 1..];
    SplitAt(a, i);
    assert RemoveAt(a, i) == l + r;
    assert Sum(x, f) == f(a[i]) by {
      assert x[1..] == [];
    }
    SumAppend(l + x, r, f);
    SumAppend(l, x, f);
    SumAppend(l, r, f);
  }

  /** A sum over a zone depends only on which cards the zone holds. */
  lemma {:induction false} SumPermutation(a: seq<Name>, b: seq<Name>, f: Name -> int)
    requires multiset(a) == multiset(b)
    ensures Sum(a, f) == Sum(b, f)
    decreases |a|
  {
    if |a| > 0 {
      assert a[0] in multiset(b);
      var k :| 0 <= k < |b| && b[k] == a[0];
      assert a == [a[0]] + a[1..];
      calc {
        multiset(a[1..]);
        multiset(a) - multiset{a[0]};
        multiset(b) - multiset{b[k]};
        multiset(RemoveAt(b, k));
      }
      SumPermutation(a[1..], RemoveAt(b, k), f);
      SumRemoveAt(b, k, f);
    }
  }

  lemma RegisteredPermutation(a: seq<Name>, b: seq<Name>)
    requires Registered(a) && multiset(a) == multiset(b)
    ensures Registered(b)
  {
    assert forall x :: x in b ==> x in multiset(a);
  }

  lemma RegisteredAppend(a: seq<Name>, b: seq<Name>)
    ensures Registered(a + b) <==> Registered(a) && Registered(b)
  {
  }

  /** What a name is worth as a treasure and in victory points; 0 for a
      name that is no card. */
  function TreasureValue(name: Name): int
  {
    if IsCardName(name) then TreasureOf(name) else 0
  }

  function VictoryValue(name: Name): int
  {
    if IsCardName(name) then VictoryOf(name) else 0
  }

  // ---------------------------------------------------------------------
  // Playing all treasures

  /** The treasures of a hand, in order, and what is left without them. */
  function Treasures(hand: seq<Name>): (r: seq<Name>)
    requires Registered(hand)
    ensures forall j :: 0 <= j < |r| ==> IsTreasure(r[j])
  {
    if |hand| == 0 then []
    else (if IsTreasure(hand[0]) then [hand[0]] else []) + Treasures(hand[1..])
  }

  function NonTreasures(hand: seq<Name>): (r: seq<Name>)
    requires Registered(hand)
    ensures Registered(r) && forall j :: 0 <= j < |r| ==> !IsTreasure(r[j])
  {
    if |hand| == 0 then []
    else (if IsTreasure(hand[0]) then [] else [hand[0]]) + NonTreasures(hand[1..])
  }

  /** The "ALL" answer: `while (hasTreasure(hand)) playTreasure(state,
      findTreasure(hand))`. */
  function PlayAll(s: State): (t: State)
    requires Registered(s.hand)
    ensures t == s.(hand := t.hand, play := t.play, money := t.money)
    decreases |s.hand|
  {
    var i := FindTreasure(s.hand);
    if i == -1 then s
    else
      var t := PlayTreasure(s, i).value;
      RemovedRegistered(s.hand, i);
      PlayAll(t)
  }

  lemma TreasuresSkip(hand: seq<Name>, i: nat)
    requires Registered(hand) && i < |hand| && IsTreasure(hand[i])
    requires forall j :: 0 <= j < i ==> !IsTreasure(hand[j])
    ensures Registered(RemoveAt(hand, i))
    ensures Treasures(hand) == [hand[i]] + Treasures(RemoveAt(hand, i))
    ensures NonTreasures(hand) == NonTreasures(RemoveAt(hand, i))
  {
    RemovedRegistered(hand, i);
    TreasuresSkipFirst(hand, i);
    NonTreasuresSkipFirst(hand, i);
  }

  lemma RemovedRegistered(hand: seq<Name>, i: nat)
    requires Registered(hand) && i < |hand|
    ensures Registered(RemoveAt(hand, i))
  {
    forall x | x in RemoveAt(hand, i)
      ensures IsCardName(x)
    {
      assert x in multiset(RemoveAt(hand, i));
    }
  }

  lemma {:induction false} TreasuresSkipFirst(hand: seq<Name>, i: nat)
    requires Registered(hand) && i < |hand| && IsTreasure(hand[i])
    requires forall j :: 0 <= j < i ==> !IsTreasure(hand[j])
    requires Registered(RemoveAt(hand, i))
    ensures Treasures(hand) == [hand[i]] + Treasures(RemoveAt(hand, i))
    decreases i
  {
    if i > 0 {
      var rest := RemoveAt(hand[1..], i - 1);
      RemovedRegistered(hand[1..], i - 1);
      TreasuresSkipFirst(hand[1..], i - 1);
      RemoveAtCons(hand, i);
      ConsParts(hand[0], rest);
    } else {
      SliceZero(hand);
    }
  }

  lemma {:induction false} NonTreasuresSkipFirst(hand: seq<Name>, i: nat)
    requires Registered(hand) && i < |hand| && IsTreasure(hand[i])
    requires forall j :: 0 <= j < i ==> !IsTreasure(hand[j])
    requires Registered(RemoveAt(hand, i))
    ensures NonTreasures(hand) == NonTreasures(RemoveAt(hand, i))
    decreases i
  {
    if i > 0 {
      var rest := RemoveAt(hand[1..], i - 1);
      RemovedRegistered(hand[1..], i - 1);
      NonTreasuresSkipFirst(hand[1..], i - 1);
      RemoveAtCons(hand, i);
      ConsParts(hand[0], rest);
    } else {
      SliceZero(hand);
    }
  }

  lemma SliceZero<T>(a: seq<T>)
    requires 0 < |a|
    ensures a[..0] + a[1..] == a[1..]
  {
  }

  lemma RemoveAtCons(a: seq<Name>, i: nat)
    requires 0 < i < |a|
    ensures RemoveAt(a, i) == [a[0]] + RemoveAt(a[1..], i - 1)
  {
    SliceCons(a, i);
  }

  lemma SliceCons<T>(a: seq<T>, i: nat)
    requires 0 < i < |a|
    ensures a[..i] + a[i + 1..] == [a[0]] + (a[1..][..i - 1] + a[1..][i..])
  {
  }

  lemma ConsParts<T>(x: T, r: seq<T>)
    ensures ([x] + r)[0] == x && ([x] + r)[1..] == r
  {
  }

  lemma {:induction false} NoTreasures(hand: seq<Name>)
    requires Registered(hand) && forall j :: 0 <= j < |hand| ==> !IsTreasure(hand[j])
    ensures Treasures(hand) == [] && NonTreasures(hand) == hand
  {
    if |hand| > 0 {
      NoTreasures(hand[1..]);
    }
  }

  /** After "ALL" the hand keeps exactly its non-treasures, in order, and
      holds no treasure. */
  lemma {:induction false} PlayAllLeavesNoTreasure(s: State)
    requires Registered(s.hand)
    ensures PlayAll(s).hand == NonTreasures(s.hand) && !HasTreasure(PlayAll(s).hand)
    decreases |s.hand|
  {
    var i := FindTreasure(s.hand);
    if i == -1 {
      NoTreasures(s.hand);
    } else {
      TreasuresSkip(s.hand, i);
      PlayAllLeavesNoTreasure(PlayTreasure(s, i).value);
    }
  }

  /** One round of the "ALL" loop. */
  lemma PlayAllStep(s: State)
    requires Registered(s.hand) && FindTreasure(s.hand) >= 0
    ensures var i := FindTreasure(s.hand); var t := PlayTreasure(s, i).value;
      Registered(t.hand) && PlayAll(s) == PlayAll(t)
      && t.hand == RemoveAt(s.hand, i) && t.play == s.play + [s.hand[i]]
      && t.money == s.money + TreasureValue(s.hand[i])
  {
  }

  /** "ALL" plays the hand's treasures in hand order. */
  lemma {:induction false} PlayAllPlays(s: State)
    requires Registered(s.hand)
    ensures PlayAll(s).play == s.play + Treasures(s.hand)
    decreases |s.hand|
  {
    var i := FindTreasure(s.hand);
    if i == -1 {
      NoTreasures(s.hand);
      assert s.play + [] == s.play;
    } else {
      var t := PlayTreasure(s, i).value;
      var x := s.hand[i];
      assert Registered(t.hand) && PlayAll(s) == PlayAll(t) && t.play == s.play + [x] by {
        PlayAllStep(s);
      }
      assert Treasures(s.hand) == [x] + Treasures(t.hand) by {
        PlayAllStep(s);
        TreasuresSkip(s.hand, i);
      }
      PlayAllPlays(t);
      AppendAssoc(s.play, [x], Treasures(t.hand));
    }
  }

  lemma AppendAssoc(a: seq<Name>, b: seq<Name>, c: seq<Name>)
    ensures (a + b) + c == a + (b + c)
  {
  }

  /** "ALL" adds the values of the hand's treasures to money. */
  lemma {:induction false} PlayAllPays(s: State)
    requires Registered(s.hand)
    ensures PlayAll(s).money == s.money + Sum(Treasures(s.hand), TreasureValue)
    decreases |s.hand|
  {
    var i := FindTreasure(s.hand);
    if i == -1 {
      NoTreasures(s.hand);
    } else {
      var t := PlayTreasure(s, i).value;
      TreasuresSkip(s.hand, i);
      PlayAllPays(t);
      assert Treasures(s.hand)[1..] == Treasures(t.hand);
    }
  }

  lemma {:induction false} PlayAllConserves(s: State)
    requires Registered(s.hand)
    ensures Conserves(s, PlayAll(s))
    decreases |s.hand|
  {
    var i := FindTreasure(s.hand);
    if i == -1 {
      SameCardsConserve(s, s);
    } else {
      PlayTreasureConserves(s, i);
      PlayAllConserves(PlayTreasure(s, i).value);
    }
  }

  // ---------------------------------------------------------------------
  // countVictoryPoints

  /** The cards `countVictoryPoints` walks: hand, discard, then deck. */
  function Scored(s: State): (r: seq<Name>)
    ensures multiset(r) == Pool(s)
    ensures Registered(r) <==> Registered(s.hand) && Registered(s.discard) && Registered(s.deck)
  {
    RegisteredAppend(s.hand, s.discard);
    RegisteredAppend(s.hand + s.discard, s.deck);
    s.hand + s.discard + s.deck
  }

  /** `countVictoryPoints(state)`: the tokens plus the victory values of
      the cards in hand, discard and deck; a name that is not a card
      throws. */
  function CountVictoryPoints(s: State): (r: Outcome<int>)
    ensures r.Returns? <==> Registered(s.hand) && Registered(s.discard) && Registered(s.deck)
  {
    if Registered(Scored(s)) then Returns(s.vpTokens + Sum(Scored(s), VictoryValue))
    else Raises("BUG: Invalid card found")
  }

  /** The score is the tokens plus each zone's victory points. */
  lemma CountVictoryPointsSpec(s: State)
    requires CountVictoryPoints(s).Returns?
    ensures CountVictoryPoints(s).value
            == s.vpTokens + Sum(s.hand, VictoryValue) + Sum(s.discard, VictoryValue) + Sum(s.deck, VictoryValue)
  {
    SumAppend(s.hand, s.discard, VictoryValue);
    SumAppend(s.hand + s.discard, s.deck, VictoryValue);
  }

  /** Zones holding the same cards together are registered together. */
  lemma PoolRegistered(s: State, t: State)
    requires Pool(s) == Pool(t)
    ensures Registered(Scored(s)) <==> Registered(Scored(t))
  {
    if Registered(Scored(s)) {
      RegisteredPermutation(Scored(s), Scored(t));
    }
    if Registered(Scored(t)) {
      RegisteredPermutation(Scored(t), Scored(s));
    }
  }

  /** The score only looks at the tokens and at which cards hand, discard
      and deck hold together. */
  lemma ScoreOfPool(s: State, t: State)
    requires Pool(s) == Pool(t) && s.vpTokens == t.vpTokens
    ensures CountVictoryPoints(s) == CountVictoryPoints(t)
  {
    PoolRegistered(s, t);
    SumPermutation(Scored(s), Scored(t), VictoryValue);
  }

  /** Drawing never changes the score. */
  lemma DrawKeepsScore(s: State, env: Env)
    ensures CountVictoryPoints(Draw(s, env).0) == CountVictoryPoints(s)
  {
    DrawPool(s, env);
    ScoreOfPool(Draw(s, env).0, s);
  }
}
