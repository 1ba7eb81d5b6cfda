/** The effects of the events dominion.ts registers with `AddEvent`
    (dominion.ts:152-450).  Each effect takes the state and the remaining
    input to a new state and the input left over; one that loops on a
    prompt waits for input when the answers run out, and one that throws
    ends as `Crashed`. */
module DominionEvents {
  import opened Options
  import opened DominionCatalog
  import opened DominionInput
  import opened DominionState

  // ---------------------------------------------------------------------
  // Shared pieces

  /** The seven supply piles `main` sets up are all present. */
  predicate Stocked(s: State)
  {
    COPPER in s.supply && SILVER in s.supply && GOLD in s.supply && ESTATE in s.supply
    && DUCHY in s.supply && PROVINCE in s.supply && CURSE in s.supply
  }

  /** Every card of the catalogue has a pile once the supply is stocked. */
  lemma CardNamesStocked(s: State, name: Name)
    requires Stocked(s) && IsCardName(name)
    ensures name in s.supply
  {
    LookupSpec(CARDS, name);
  }

  /** A card the parser returns is a card of the catalogue. */
  lemma ParsedCardIsCard(a: string)
    requires ParseCard(ALL, a).Some?
    ensures IsCardName(ParseCard(ALL, a).value.name)
  {
    CatalogueNonNegative(ParseCard(ALL, a).value);
  }

  /** What the prompt loops of the events insist on before they stop
      asking: a card in the given zone, a card with a supply pile, or a
      victory card whose pile, if it has one, is not empty. */
  datatype Want = InZone(cards: seq<Name>) | HasPile(piles: map<Name, Pile>) | StockedVictory(piles: map<Name, Pile>)

  predicate Accepts(w: Want, d: Def)
  {
    match w
    case InZone(cards) => d.name in cards
    case HasPile(piles) => d.name in piles
    case StockedVictory(piles) => d.CardDef? && d.victory != 0 && (d.name in piles ==> piles[d.name].supply != 0)
  }

  /** `askCard` in a `while (true)` loop that goes round again until the
      answer names a card the loop wants. */
  function AskCardWhere(all: seq<Def>, env: Env, accept: Want): (r: Run<Def>)
    ensures !r.Crashed?
    ensures r.Done? ==> Accepts(accept, r.value) && r.value.CardDef?
    ensures r.Done? ==> |r.env.answers| < |env.answers| && r.env.rolls == env.rolls
    decreases |env.answers|
  {
    var x :- Ask(env);
    var (a, env') := x;
    match ParseCard(all, a)
    case None => AskCardWhere(all, env', accept)
    case Some(d) => if Accepts(accept, d) then Done(d, env') else AskCardWhere(all, env', accept)
  }

  /** The card the loop settles on is an entry of the catalogue. */
  lemma {:induction false} AskCardInCatalogue(all: seq<Def>, env: Env, accept: Want)
    requires AskCardWhere(all, env, accept).Done?
    ensures AskCardWhere(all, env, accept).value in all
    decreases |env.answers|
  {
    var a := env.answers[0];
    var rest := env.(answers := env.answers[1..]);
    if ParseCard(all, a).None? || !Accepts(accept, ParseCard(all, a).value) {
      AskCardInCatalogue(all, rest, accept);
    }
  }

  /** The loop stops at the first answer naming an accepted card. */
  lemma AskCardFirst(all: seq<Def>, env: Env, accept: Want)
    requires |env.answers| > 0
    requires ParseCard(all, env.answers[0]).Some? && Accepts(accept, ParseCard(all, env.answers[0]).value)
    ensures AskCardWhere(all, env, accept) == Done(ParseCard(all, env.answers[0]).value, env.(answers := env.answers[1..]))
  {
  }

  /** An answer that is not an accepted card is skipped. */
  lemma AskCardSkips(all: seq<Def>, env: Env, accept: Want)
    requires |env.answers| > 0
    requires ParseCard(all, env.answers[0]).None? || !Accepts(accept, ParseCard(all, env.answers[0]).value)
    ensures AskCardWhere(all, env, accept) == AskCardWhere(all, env.(answers := env.answers[1..]), accept)
  {
  }

  /** `gainCard(state, CARDS[name])`; reading a pile that is not in the
      supply throws. */
  function Gain(s: State, name: Name, env: Env): (r: Run<(bool, State)>)
    ensures r.Crashed? <==> name !in s.supply
    ensures Within(r, env)
  {
    if name in s.supply then GainCard(s, name, env) else Crashed("TypeError: no supply pile")
  }

  /** How many of `k` gains in a row succeed from a pile of `p`: a pile
      refuses only once it is at exactly 0. */
  function Gainable(p: int, k: nat): (n: nat)
    ensures n <= k
    ensures p >= 0 ==> n <= p
  {
    if p < 0 || p >= k then k else p
  }

  /** `for (...) await gainCard(state, CARDS[name])`, `k` times. */
  function GainTimes(s: State, name: Name, env: Env, k: nat): (r: Run<State>)
    ensures r.Crashed? ==> name !in s.supply && k > 0
    ensures Within(r, env)
    decreases k
  {
    if k == 0 then Done(s, env)
    else
      var g :- Gain(s, name, env);
      var ((_, t), env') := g;
      GainTimes(t, name, env', k - 1)
  }

  /** `t` differs from `s` only in what gaining touches. */
  predicate GainFrame(s: State, t: State)
  {
    t == s.(deck := t.deck, discard := t.discard, supply := t.supply,
            gainedCards := t.gainedCards, gainedSilvers := t.gainedSilvers)
  }

  /** `k` gains from a pile take `Gainable` copies from it and leave the
      other piles alone. */
  lemma {:induction false} GainTimesPile(s: State, name: Name, env: Env, k: nat)
    requires name in s.supply && GainTimes(s, name, env, k).Done?
    ensures var n := Gainable(s.supply[name].supply, k);
      GainTimes(s, name, env, k).value.supply == s.supply[name := s.supply[name].(supply := s.supply[name].supply - n)]
    decreases k
  {
    if k > 0 {
      var g := GainCard(s, name, env);
      var t := g.value.1;
      var p := s.supply[name].supply;
      assert GainTimes(s, name, env, k) == GainTimes(t, name, g.env, k - 1);
      GainableStep(p, k);
      GainTimesPile(t, name, g.env, k - 1);
      if p != 0 {
        assert Gained(s, t, name);
        UpdateTwice(s.supply, name, s.supply[name].(supply := p - 1), s.supply[name].(supply := p - Gainable(p, k)));
      }
    }
  }

  /** One gain, then the rest: a pile at 0 refuses, any other gives one. */
  lemma GainableStep(p: int, k: nat)
    requires k > 0
    ensures Gainable(p, k) == if p == 0 then 0 else 1 + Gainable(p - 1, k - 1)
  {
  }

  lemma UpdateTwice<K, V>(m: map<K, V>, key: K, v: V, w: V)
    ensures m[key := v][key := w] == m[key := w]
  {
  }

  /** ... and count those copies as gained this turn. */
  lemma {:induction false} GainTimesTally(s: State, name: Name, env: Env, k: nat)
    requires name in s.supply && GainTimes(s, name, env, k).Done?
    ensures var n := Gainable(s.supply[name].supply, k);
      GainTimes(s, name, env, k).value.gainedCards == s.gainedCards + n
      && GainTimes(s, name, env, k).value.gainedSilvers == s.gainedSilvers + (if name == SILVER then n else 0)
    decreases k
  {
    if k > 0 {
      var g := GainCard(s, name, env);
      GainTimesTally(g.value.1, name, g.env, k - 1);
    }
  }

  /** ... and change nothing a gain does not touch. */
  lemma {:induction false} GainTimesFrame(s: State, name: Name, env: Env, k: nat)
    requires GainTimes(s, name, env, k).Done?
    ensures GainFrame(s, GainTimes(s, name, env, k).value)
    decreases k
  {
    if k > 0 {
      var g := GainCard(s, name, env);
      GainTimesFrame(g.value.1, name, g.env, k - 1);
    }
  }

  lemma {:induction false} GainTimesConserves(s: State, name: Name, env: Env, k: nat)
    requires GainTimes(s, name, env, k).Done?
    ensures Conserves(s, GainTimes(s, name, env, k).value)
    decreases k
  {
    if k == 0 {
      SameCardsConserve(s, s);
    } else {
      var g := GainCard(s, name, env);
      var t := g.value.1;
      GainConserves(s, name, env);
      GainTimesConserves(t, name, g.env, k - 1);
      ConservesTrans(s, t, GainTimes(s, name, env, k).value);
    }
  }

  /** Gaining never loses a pile. */
  lemma {:induction false} GainTimesKeepsPiles(s: State, name: Name, env: Env, k: nat)
    requires GainTimes(s, name, env, k).Done?
    ensures GainTimes(s, name, env, k).value.supply.Keys == s.supply.Keys
    decreases k
  {
    if k > 0 {
      var g := GainCard(s, name, env);
      GainTimesKeepsPiles(g.value.1, name, g.env, k - 1);
    }
  }

  /** A change to counters and flags alone conserves every card. */
  lemma CountersConserve(s: State, t: State)
    requires t.deck == s.deck && t.hand == s.hand && t.discard == s.discard && t.play == s.play
    requires t.trash == s.trash && t.saved == s.saved && t.supply == s.supply
    ensures Conserves(s, t)
  {
    SameCardsConserve(s, t);
  }

  // ---------------------------------------------------------------------
  // Effects that only set counters and flags

  /** BORROW (dominion.ts:152-165): once per turn, +$1, +1 buy and the
      -1 card token. */
  function Borrow(s: State): (t: State)
    ensures s.borrowed ==> t == s
    ensures !s.borrowed ==> t.borrowed && t.minusCardToken
    ensures !s.borrowed ==> t.money == s.money + 1 && t.buys == s.buys + 1
    ensures t == s.(borrowed := t.borrowed, money := t.money, buys := t.buys, minusCardToken := t.minusCardToken)
  {
    if s.borrowed then s
    else s.(borrowed := true, money := s.money + 1, minusCardToken := true, buys := s.buys + 1)
  }

  /** A second BORROW in the same turn does nothing. */
  lemma BorrowOnce(s: State)
    ensures Borrow(Borrow(s)) == Borrow(s)
  {
  }

  /** EXPEDITION (dominion.ts:166-172): two more cards next turn. */
  function Expedition(s: State): (t: State)
    ensures t.extraDraw == s.extraDraw + 2 && t == s.(extraDraw := t.extraDraw)
  {
    s.(extraDraw := s.extraDraw + 2)
  }

  /** MISSION (dominion.ts:173-179): ask for a mission turn. */
  function Mission(s: State): (t: State)
    ensures t.takeMissionTurn && t == s.(takeMissionTurn := true)
  {
    s.(takeMissionTurn := true)
  }

  /** TRAVELLING_FAIR (dominion.ts:240-247): +2 buys, and gains this turn
      may be put on the deck. */
  function TravellingFair(s: State): (t: State)
    ensures t.buys == s.buys + 2 && t.travellingFaired
    ensures t == s.(buys := t.buys, travellingFaired := true)
  {
    s.(buys := s.buys + 2, travellingFaired := true)
  }

  /** DONATE (dominion.ts:248-255): the donation happens at cleanup. */
  function Donate(s: State): (t: State)
    ensures t.donated && t == s.(donated := true)
  {
    s.(donated := true)
  }

  // ---------------------------------------------------------------------
  // Effects that gain

  /** WEDDING (dominion.ts:205-213): +1 VP token, gain a Gold. */
  function Wedding(s: State, env: Env): (r: Run<State>)
    ensures r.Crashed? <==> GOLD !in s.supply
    ensures Within(r, env)
  {
    var g :- Gain(s.(vpTokens := s.vpTokens + 1), GOLD, env);
    var ((_, t), env') := g;
    Done(t, env')
  }

  /** DOMINATE (dominion.ts:214-222): gain a Province, and +9 VP tokens if
      that worked. */
  function Dominate(s: State, env: Env): (r: Run<State>)
    ensures r.Crashed? <==> PROVINCE !in s.supply
    ensures Within(r, env)
  {
    var g :- Gain(s, PROVINCE, env);
    var ((gained, t), env') := g;
    Done(if gained then t.(vpTokens := t.vpTokens + 9) else t, env')
  }

  /** DELVE (dominion.ts:256-263): +1 buy, gain a Silver. */
  function Delve(s: State, env: Env): (r: Run<State>)
    ensures r.Crashed? <==> SILVER !in s.supply
    ensures Within(r, env)
  {
    var g :- Gain(s.(buys := s.buys + 1), SILVER, env);
    var ((_, t), env') := g;
    Done(t, env')
  }

  /** WINDFALL (dominion.ts:282-292): three Golds, but only with deck and
      discard both empty. */
  function Windfall(s: State, env: Env): (r: Run<State>)
    ensures r.Crashed? ==> GOLD !in s.supply
    ensures Within(r, env)
  {
    if |s.deck| == 0 && |s.discard| == 0 then GainTimes(s, GOLD, env, 3) else Done(s, env)
  }

  /** CONQUEST (dominion.ts:293-301): gain two Silvers, then a VP token per
      Silver gained this turn. */
  function Conquest(s: State, env: Env): (r: Run<State>)
    ensures r.Crashed? ==> SILVER !in s.supply
    ensures Within(r, env)
  {
    var g :- GainTimes(s, SILVER, env, 2);
    var (t, env') := g;
    Done(t.(vpTokens := t.vpTokens + t.gainedSilvers), env')
  }

  /** TRIUMPH (dominion.ts:302-311): gain an Estate, and if that worked a
      VP token per card gained this turn. */
  function Triumph(s: State, env: Env): (r: Run<State>)
    ensures r.Crashed? <==> ESTATE !in s.supply
    ensures Within(r, env)
  {
    var g :- Gain(s, ESTATE, env);
    var ((gained, t), env') := g;
    Done(if gained then t.(vpTokens := t.vpTokens + t.gainedCards) else t, env')
  }

  /** RAID (dominion.ts:357-372): a Silver per Silver in play. */
  function Raid(s: State, env: Env): (r: Run<State>)
    ensures r.Crashed? ==> SILVER !in s.supply
    ensures Within(r, env)
  {
    GainTimes(s, SILVER, env, multiset(s.play)[SILVER])
  }

  /** DOMINATE scores 9 exactly when a Province was left to gain. */
  lemma DominateScores(s: State, env: Env)
    requires PROVINCE in s.supply && Dominate(s, env).Done?
    ensures var t := Dominate(s, env).value;
      t.vpTokens == s.vpTokens + (if s.supply[PROVINCE].supply != 0 then 9 else 0)
    ensures var t := Dominate(s, env).value;
      s.supply[PROVINCE].supply == 0 ==> t == s
  {
  }

  /** TRIUMPH scores every card gained this turn, the Estate included,
      and only when the Estate was gained. */
  lemma TriumphScores(s: State, env: Env)
    requires ESTATE in s.supply && Triumph(s, env).Done?
    ensures var t := Triumph(s, env).value;
      t.vpTokens == s.vpTokens + (if s.supply[ESTATE].supply != 0 then s.gainedCards + 1 else 0)
    ensures var t := Triumph(s, env).value;
      s.supply[ESTATE].supply == 0 ==> t == s
  {
  }

  /** CONQUEST scores the Silvers gained earlier in the turn plus the ones
      it gains itself, of which the pile may supply fewer than two. */
  lemma ConquestScores(s: State, env: Env)
    requires SILVER in s.supply && Conquest(s, env).Done?
    ensures Conquest(s, env).value.vpTokens
      == s.vpTokens + s.gainedSilvers + Gainable(s.supply[SILVER].supply, 2)
  {
    GainTimesTally(s, SILVER, env, 2);
    GainTimesFrame(s, SILVER, env, 2);
  }

  /** RAID gains as many Silvers as are in play, while the pile lasts. */
  lemma RaidGains(s: State, env: Env)
    requires SILVER in s.supply && Raid(s, env).Done?
    ensures var n := Gainable(s.supply[SILVER].supply, multiset(s.play)[SILVER]);
      Raid(s, env).value.supply == s.supply[SILVER := s.supply[SILVER].(supply := s.supply[SILVER].supply - n)]
      && Raid(s, env).value.gainedSilvers == s.gainedSilvers + n
  {
    GainTimesPile(s, SILVER, env, multiset(s.play)[SILVER]);
    GainTimesTally(s, SILVER, env, multiset(s.play)[SILVER]);
  }

  /** WINDFALL with cards left in deck or discard does nothing. */
  lemma WindfallNeedsEmpty(s: State, env: Env)
    requires |s.deck| > 0 || |s.discard| > 0
    ensures Windfall(s, env) == Done(s, env)
  {
  }

  // ---------------------------------------------------------------------
  // Effects that ask for a card

  /** The card at `i` of the hand is set aside for next turn. */
  function SetAside(s: State, i: nat): (t: State)
    requires i < |s.hand|
    ensures t.saved == s.saved + [s.hand[i]] && t.hand == RemoveAt(s.hand, i)
    ensures t == s.(hand := t.hand, saved := t.saved)
  {
    s.(hand := RemoveAt(s.hand, i), saved := s.saved + [s.hand[i]])
  }

  /** The prompt loop that asks for a card until the answer names one in
      `zone`; the value is the position of that card's first copy. */
  function PickIn(all: seq<Def>, zone: seq<Name>, env: Env): (r: Run<nat>)
    ensures !r.Crashed?
    ensures r.Done? ==> r.value < |zone| && |r.env.answers| < |env.answers|
  {
    var c :- AskCardWhere(all, env, InZone(zone));
    var (d, env') := c;
    Done(FindCard(zone, d.name), env')
  }

  /** The position picked holds the first copy of the card named. */
  lemma PickInNamed(all: seq<Def>, zone: seq<Name>, env: Env)
    requires PickIn(all, zone, env).Done?
    ensures var d := AskCardWhere(all, env, InZone(zone)).value;
      zone[PickIn(all, zone, env).value] == d.name && d.name !in zone[..PickIn(all, zone, env).value]
  {
  }

  /** Which card of a non-empty hand SAVE takes: the only one, or the
      first copy of the card the player names. */
  function SaveIndex(all: seq<Def>, hand: seq<Name>, env: Env): (r: Run<nat>)
    requires |hand| > 0
    ensures !r.Crashed?
    ensures r.Done? ==> r.value < |hand| && |r.env.answers| <= |env.answers|
  {
    if |hand| == 1 then Done(0, env) else PickIn(all, hand, env)
  }

  /** SAVE (dominion.ts:180-204): +1 buy, then a card of the hand is set
      aside; with one card in hand it is that card, with more the player
      names one. */
  function Save(all: seq<Def>, s: State, env: Env): (r: Run<State>)
    ensures !r.Crashed? && Within(r, env)
  {
    var t := s.(buys := s.buys + 1);
    if |t.hand| == 0 then Done(t, env)
    else
      var c :- SaveIndex(all, t.hand, env);
      var (i, env') := c;
      Done(SetAside(t, i), env')
  }

  /** SAVE moves exactly one card from a non-empty hand to the saved
      cards, and the buy comes regardless. */
  lemma SaveMoves(all: seq<Def>, s: State, env: Env)
    requires Save(all, s, env).Done?
    ensures var t := Save(all, s, env).value;
      t.buys == s.buys + 1
      && |t.saved| == |s.saved| + (if |s.hand| == 0 then 0 else 1)
      && multiset(t.hand) + multiset(t.saved) == multiset(s.hand) + multiset(s.saved)
  {
  }

  lemma SaveConserves(all: seq<Def>, s: State, env: Env)
    requires Save(all, s, env).Done?
    ensures Conserves(s, Save(all, s, env).value)
  {
    var t := Save(all, s, env).value;
    SaveMoves(all, s, env);
    HandSavedSplit(s);
    HandSavedSplit(t);
    assert t == s.(hand := t.hand, saved := t.saved, buys := t.buys);
    SameCardsConserve(s, t);
  }

  /** The cards in hand and saved, apart from the rest. */
  lemma HandSavedSplit(s: State)
    ensures Cards(s) == (multiset(s.hand) + multiset(s.saved))
      + (multiset(s.deck) + multiset(s.discard) + multiset(s.play) + multiset(s.trash))
  {
  }

  /** TAX (dominion.ts:223-239): the player names a card with a pile, and
      that pile's tax rises by 2. */
  function Tax(all: seq<Def>, s: State, env: Env): (r: Run<State>)
    ensures !r.Crashed? && Within(r, env)
  {
    var c :- AskCardWhere(all, env, HasPile(s.supply));
    var (d, env') := c;
    Done(RaiseTax(s, d.name), env')
  }

  function RaiseTax(s: State, name: Name): (t: State)
    requires name in s.supply
  {
    s.(supply := s.supply[name := s.supply[name].(tax := s.supply[name].tax + 2)])
  }

  /** TAX raises the tax of exactly one existing pile by 2 and changes
      nothing else. */
  lemma TaxRaisesOne(all: seq<Def>, s: State, env: Env)
    requires Tax(all, s, env).Done?
    ensures exists n :: n in s.supply && Tax(all, s, env).value == RaiseTax(s, n)
  {
    var c := AskCardWhere(all, env, HasPile(s.supply));
    assert Tax(all, s, env).value == RaiseTax(s, c.value.name);
  }

  lemma TaxEventConserves(all: seq<Def>, s: State, env: Env)
    requires Tax(all, s, env).Done?
    ensures Conserves(s, Tax(all, s, env).value)
  {
    TaxRaisesOne(all, s, env);
    var n :| n in s.supply && Tax(all, s, env).value == RaiseTax(s, n);
    TaxConserves(s, RaiseTax(s, n), n, s.supply[n].tax + 2);
  }

  /** One round of the BONFIRE loop: a card named from play, trashed. */
  function BonfireRound(all: seq<Def>, s: State, env: Env): (r: Run<State>)
    ensures !r.Crashed?
    ensures r.Done? ==> |r.env.answers| < |env.answers|
  {
    var c :- PickIn(all, s.play, env);
    var (i, env') := c;
    Done(TrashCard(s, PlayZone, i), env')
  }

  /** A round takes one card from play to the trash and touches nothing
      else. */
  lemma RoundMoves(all: seq<Def>, s: State, env: Env)
    requires BonfireRound(all, s, env).Done?
    ensures var t := BonfireRound(all, s, env).value;
      |s.play| > 0 && |t.play| == |s.play| - 1 && |t.trash| == |s.trash| + 1
      && multiset(t.play) + multiset(t.trash) == multiset(s.play) + multiset(s.trash)
      && t == s.(play := t.play, trash := t.trash)
  {
    var c := PickIn(all, s.play, env);
    var u := TrashCard(s, PlayZone, c.value);
    MoveOne(multiset(s.play), multiset(u.play), multiset(s.trash), multiset(u.trash), s.play[c.value]);
  }

  lemma RoundConserves(all: seq<Def>, s: State, env: Env)
    requires BonfireRound(all, s, env).Done?
    ensures Conserves(s, BonfireRound(all, s, env).value)
  {
    TrashConserves(s, PlayZone, PickIn(all, s.play, env).value);
  }

  /** BONFIRE (dominion.ts:264-281): the loop runs exactly two rounds,
      each trashing a card named from play. */
  function Bonfire(all: seq<Def>, s: State, env: Env): (r: Run<State>)
    ensures !r.Crashed? && Within(r, env)
  {
    var c :- BonfireRound(all, s, env);
    var (u, env') := c;
    BonfireRound(all, u, env')
  }

  /** BONFIRE takes two cards from play to the trash and touches nothing
      else, so it can only finish with two cards in play. */
  lemma BonfireMoves(all: seq<Def>, s: State, env: Env)
    requires Bonfire(all, s, env).Done?
    ensures var t := Bonfire(all, s, env).value;
      |s.play| >= 2 && |t.play| == |s.play| - 2 && |t.trash| == |s.trash| + 2
      && multiset(t.play) + multiset(t.trash) == multiset(s.play) + multiset(s.trash)
      && t == s.(play := t.play, trash := t.trash)
  {
    var c := BonfireRound(all, s, env);
    RoundMoves(all, s, env);
    RoundMoves(all, c.value, c.env);
  }

  lemma BonfireConserves(all: seq<Def>, s: State, env: Env)
    requires Bonfire(all, s, env).Done?
    ensures Conserves(s, Bonfire(all, s, env).value)
  {
    var c := BonfireRound(all, s, env);
    RoundConserves(all, s, env);
    RoundConserves(all, c.value, c.env);
    ConservesTrans(s, c.value, Bonfire(all, s, env).value);
  }

  /** With fewer than two cards in play BONFIRE keeps asking forever. */
  lemma BonfireNeedsTwo(all: seq<Def>, s: State, env: Env)
    requires |s.play| < 2
    ensures !Bonfire(all, s, env).Done?
  {
    if Bonfire(all, s, env).Done? {
      BonfireMoves(all, s, env);
    }
  }

  /** The second half of RITUAL: with a card in hand, trash one the
      player names and score its cost. */
  function RitualTrash(all: seq<Def>, s: State, env: Env): (r: Run<State>)
    ensures !r.Crashed? && Within(r, env)
  {
    if |s.hand| == 0 then Done(s, env)
    else
      var c :- AskCardWhere(all, env, InZone(s.hand));
      var (d, env') := c;
      Done(TrashAndScore(s, FindCard(s.hand, d.name), d.cost), env')
  }

  function TrashAndScore(s: State, i: nat, vp: int): (t: State)
    requires i < |s.hand|
  {
    var u := TrashCard(s, HandZone, i);
    u.(vpTokens := u.vpTokens + vp)
  }

  /** RITUAL (dominion.ts:312-333): gain a Curse; if that worked and the
      hand is not empty, trash a named card from hand for VP tokens equal
      to its cost. */
  function Ritual(all: seq<Def>, s: State, env: Env): (r: Run<State>)
    ensures r.Crashed? <==> CURSE !in s.supply
    ensures Within(r, env)
  {
    var g :- Gain(s, CURSE, env);
    var ((gained, t), env') := g;
    if gained then RitualTrash(all, t, env') else Done(t, env')
  }

  /** RITUAL without a Curse left to gain does nothing. */
  lemma RitualNeedsCurse(all: seq<Def>, s: State, env: Env)
    requires CURSE in s.supply && s.supply[CURSE].supply == 0
    ensures Ritual(all, s, env) == Done(s, env)
  {
  }

  /** The trash step takes one card from a non-empty hand and scores the
      cost of a card of the catalogue that was in hand. */
  lemma RitualTrashScores(all: seq<Def>, s: State, env: Env)
    requires RitualTrash(all, s, env).Done?
    ensures var t := RitualTrash(all, s, env).value;
      |t.hand| == |s.hand| - (if |s.hand| > 0 then 1 else 0)
      && |t.trash| == |s.trash| + (if |s.hand| > 0 then 1 else 0)
    ensures var t := RitualTrash(all, s, env).value;
      |s.hand| > 0 ==> exists d :: d in all && d.CardDef? && d.name in s.hand && t.vpTokens == s.vpTokens + d.cost
  {
    if |s.hand| > 0 {
      var c := AskCardWhere(all, env, InZone(s.hand));
      AskCardInCatalogue(all, env, InZone(s.hand));
    }
  }

  lemma RitualTrashConserves(all: seq<Def>, s: State, env: Env)
    requires RitualTrash(all, s, env).Done?
    ensures Conserves(s, RitualTrash(all, s, env).value)
  {
    if |s.hand| == 0 {
      SameCardsConserve(s, s);
    } else {
      var c := AskCardWhere(all, env, InZone(s.hand));
      var i := FindCard(s.hand, c.value.name);
      var u := TrashCard(s, HandZone, i);
      TrashConserves(s, HandZone, i);
      CountersConserve(u, TrashAndScore(s, i, c.value.cost));
      ConservesTrans(s, u, TrashAndScore(s, i, c.value.cost));
    }
  }

  /** The card entries of the catalogue are exactly `CARDS`. */
  lemma CardIsNotEvent(d: Def)
    requires d in ALL && d.CardDef?
    ensures d in CARDS
  {
    if d !in CARDS {
      EventsAreEvents(d);
    }
  }

  lemma EventsAreEvents(d: Def)
    requires d in EVENTS
    ensures d.EventDef?
  {
  }

  // ---------------------------------------------------------------------
  // SALT_THE_EARTH

  /** SALT_THE_EARTH (dominion.ts:334-356): +1 VP token, then the player
      names victory cards until one has a non-empty pile or no pile at
      all; that pile loses a card to the trash, and reading a pile that is
      not there throws. */
  function SaltTheEarth(all: seq<Def>, s: State, env: Env): (r: Run<State>)
    ensures Within(r, env)
  {
    var t := s.(vpTokens := s.vpTokens + 1);
    var c :- AskCardWhere(all, env, StockedVictory(t.supply));
    var (d, env') := c;
    if d.name !in t.supply then Crashed("TypeError: no supply pile")
    else Done(t.(supply := t.supply[d.name := t.supply[d.name].(supply := t.supply[d.name].supply - 1)],
                 trash := t.trash + [d.name]), env')
  }

  /** SALT_THE_EARTH moves one victory card from a non-empty pile to the
      trash, scores 1, and touches nothing else. */
  lemma SaltTheEarthMoves(all: seq<Def>, s: State, env: Env)
    requires SaltTheEarth(all, s, env).Done?
    ensures var t := SaltTheEarth(all, s, env).value;
      exists d :: d in all && d.CardDef? && d.victory != 0 && d.name in s.supply && s.supply[d.name].supply != 0
        && t == s.(vpTokens := s.vpTokens + 1, trash := s.trash + [d.name],
                   supply := s.supply[d.name := s.supply[d.name].(supply := s.supply[d.name].supply - 1)])
  {
    var c := AskCardWhere(all, env, StockedVictory(s.(vpTokens := s.vpTokens + 1).supply));
    AskCardInCatalogue(all, env, StockedVictory(s.(vpTokens := s.vpTokens + 1).supply));
    assert c.value in all;
  }

  /** The card a pile gives up to the trash is still counted. */
  lemma PileToTrashConserves(s: State, t: State, name: Name)
    requires name in s.supply
    requires t == s.(vpTokens := t.vpTokens, trash := s.trash + [name],
                     supply := s.supply[name := s.supply[name].(supply := s.supply[name].supply - 1)])
    ensures Conserves(s, t)
  {
    assert Cards(t) == Cards(s) + multiset{name};
    forall n
      ensures Total(t, n) == Total(s, n)
    {
      if n == name {
        assert InSupply(t, n) == InSupply(s, n) - 1;
      } else {
        assert InSupply(t, n) == InSupply(s, n);
      }
    }
  }

  lemma SaltTheEarthConserves(all: seq<Def>, s: State, env: Env)
    requires SaltTheEarth(all, s, env).Done?
    ensures Conserves(s, SaltTheEarth(all, s, env).value)
  {
    SaltTheEarthMoves(all, s, env);
    var d :| d in all && d.CardDef? && d.victory != 0 && d.name in s.supply && s.supply[d.name].supply != 0
      && SaltTheEarth(all, s, env).value == s.(vpTokens := s.vpTokens + 1, trash := s.trash + [d.name],
                   supply := s.supply[d.name := s.supply[d.name].(supply := s.supply[d.name].supply - 1)]);
    PileToTrashConserves(s, SaltTheEarth(all, s, env).value, d.name);
  }

  // ---------------------------------------------------------------------
  // TRADE

  /** An answer that ends one of the "trash a card?" loops: the loop's own
      word for no, or DONE, in any letter case. */
  predicate Stops(no: string, answer: string)
  {
    Upper(answer) == no || Upper(answer) == "DONE"
  }

  /** One question of a loop that trashes named cards from `zone` (TRADE
      and the donation at cleanup), repeated until the answer stops the
      loop (`None`) or names a card in `zone` (`Some` of its position). */
  function AskOrStop(all: seq<Def>, zone: seq<Name>, env: Env, no: string): (r: Run<Option<nat>>)
    ensures !r.Crashed?
    ensures r.Done? ==> |r.env.answers| < |env.answers| && r.env.rolls == env.rolls
    ensures r.Done? && r.value.Some? ==> r.value.value < |zone|
    decreases |env.answers|
  {
    var x :- Ask(env);
    var (a, env') := x;
    if Stops(no, a) then Done(None, env')
    else match ParseCard(all, a)
      case None => AskOrStop(all, zone, env', no)
      case Some(d) =>
        var i := FindCard(zone, d.name);
        if i == -1 then AskOrStop(all, zone, env', no) else Done(Some(i), env')
  }

  /** The position the loop settles on holds the first copy of a card of
      the registry. */
  lemma {:induction false} AskOrStopNamed(all: seq<Def>, zone: seq<Name>, env: Env, no: string)
    requires AskOrStop(all, zone, env, no).Done? && AskOrStop(all, zone, env, no).value.Some?
    ensures var i := AskOrStop(all, zone, env, no).value.value;
      exists d :: d in all && d.CardDef? && zone[i] == d.name && d.name !in zone[..i]
    decreases |env.answers|
  {
    var a := env.answers[0];
    var rest := env.(answers := env.answers[1..]);
    if !Stops(no, a) && ParseCard(all, a).Some? && FindCard(zone, ParseCard(all, a).value.name) != -1 {
      var d := ParseCard(all, a).value;
      assert d in all;
    } else {
      AskOrStopNamed(all, zone, rest, no);
    }
  }

  /** The loop stops at the first answer that is the stop word. */
  lemma AskOrStopStops(all: seq<Def>, zone: seq<Name>, env: Env, no: string)
    requires |env.answers| > 0 && Stops(no, env.answers[0])
    ensures AskOrStop(all, zone, env, no) == Done(None, env.(answers := env.answers[1..]))
  {
  }

  /** One round of the loop: whether a card was trashed, and the state.
      The position comes from the hand, and the card is taken from zone
      `z`. */
  function TradeRound(all: seq<Def>, s: State, env: Env, z: Zone): (r: Run<(bool, State)>)
    ensures !r.Crashed? && Within(r, env)
  {
    var p :- AskOrStop(all, s.hand, env, "NO");
    var (o, env') := p;
    match o
    case None => Done((false, s), env')
    case Some(i) => Done((true, TrashCard(s, z, i)), env')
  }

  /** The loop `while (num_trashed < 2)`: how many cards it trashed, and
      the state after. */
  function Trading(all: seq<Def>, s: State, env: Env, z: Zone): (r: Run<(nat, State)>)
    ensures !r.Crashed? && Within(r, env)
    ensures r.Done? ==> r.value.0 <= 2
  {
    var p :- TradeRound(all, s, env, z);
    var ((first, u), env') := p;
    if !first then Done((0, s), env')
    else
      var q :- TradeRound(all, u, env', z);
      var ((second, v), env'') := q;
      Done((if second then 2 else 1, v), env'')
  }

  /** TRADE with the trashing loop taking its cards from zone `z`, then a
      Silver gained per card trashed. */
  function TradeFrom(all: seq<Def>, s: State, env: Env, z: Zone): (r: Run<State>)
    ensures Within(r, env)
  {
    var c :- Trading(all, s, env, z);
    var ((n, t), env') := c;
    GainTimes(t, SILVER, env', n)
  }

  /** TRADE as dominion.ts:383-406 writes it: the card's position is found
      in the hand, but `trashCard` is handed the discard pile. */
  function TradeAsWritten(all: seq<Def>, s: State, env: Env): (r: Run<State>)
    ensures Within(r, env)
  {
    TradeFrom(all, s, env, DiscardZone)
  }

  /** TRADE as its comment describes it: trash up to two cards from hand,
      gain a Silver per card trashed. */
  function Trade(all: seq<Def>, s: State, env: Env): (r: Run<State>)
    ensures Within(r, env)
  {
    TradeFrom(all, s, env, HandZone)
  }

  /** A round from the hand moves a card of the hand to the trash, or
      changes nothing. */
  lemma TradeRoundMoves(all: seq<Def>, s: State, env: Env)
    requires TradeRound(all, s, env, HandZone).Done?
    ensures var (moved, t) := TradeRound(all, s, env, HandZone).value;
      (!moved ==> t == s)
      && (moved ==> |s.hand| > 0 && |t.hand| == |s.hand| - 1 && |t.trash| == |s.trash| + 1
                    && multiset(t.hand) + multiset(t.trash) == multiset(s.hand) + multiset(s.trash)
                    && t == s.(hand := t.hand, trash := t.trash))
  {
    var p := AskOrStop(all, s.hand, env, "NO");
    if p.value.Some? {
      var i := p.value.value;
      var u := TrashCard(s, HandZone, i);
      MoveOne(multiset(s.hand), multiset(u.hand), multiset(s.trash), multiset(u.trash), s.hand[i]);
    }
  }

  lemma TradeRoundConserves(all: seq<Def>, s: State, env: Env, z: Zone)
    requires TradeRound(all, s, env, z).Done?
    requires z == HandZone
    ensures Conserves(s, TradeRound(all, s, env, z).value.1)
  {
    var p := AskOrStop(all, s.hand, env, "NO");
    if p.value.Some? {
      TrashConserves(s, z, p.value.value);
    } else {
      SameCardsConserve(s, s);
    }
  }

  /** The corrected loop trashes `n` cards of the hand, at most two, and
      touches nothing else. */
  lemma TradingMoves(all: seq<Def>, s: State, env: Env)
    requires Trading(all, s, env, HandZone).Done?
    ensures var (n, t) := Trading(all, s, env, HandZone).value;
      |t.hand| == |s.hand| - n && |t.trash| == |s.trash| + n
      && multiset(t.hand) + multiset(t.trash) == multiset(s.hand) + multiset(s.trash)
      && t == s.(hand := t.hand, trash := t.trash)
  {
    var p := TradeRound(all, s, env, HandZone);
    TradeRoundMoves(all, s, env);
    if p.value.0 {
      TradeRoundMoves(all, p.value.1, p.env);
    }
  }

  lemma TradingConserves(all: seq<Def>, s: State, env: Env)
    requires Trading(all, s, env, HandZone).Done?
    ensures Conserves(s, Trading(all, s, env, HandZone).value.1)
  {
    var p := TradeRound(all, s, env, HandZone);
    TradeRoundConserves(all, s, env, HandZone);
    if p.value.0 {
      TradeRoundConserves(all, p.value.1, p.env, HandZone);
      ConservesTrans(s, p.value.1, Trading(all, s, env, HandZone).value.1);
    }
  }

  /** TRADE gains one Silver per card it trashed from hand, while the
      Silver pile lasts. */
  lemma TradeGains(all: seq<Def>, s: State, env: Env)
    requires SILVER in s.supply && Trade(all, s, env).Done?
    ensures var t := Trade(all, s, env).value;
      var n := |s.hand| - |t.hand|;
      0 <= n <= 2 && |t.trash| == |s.trash| + n
      && t.gainedSilvers == s.gainedSilvers + Gainable(s.supply[SILVER].supply, n)
  {
    var c := Trading(all, s, env, HandZone);
    TradingMoves(all, s, env);
    GainTimesTally(c.value.1, SILVER, c.env, c.value.0);
    GainTimesFrame(c.value.1, SILVER, c.env, c.value.0);
  }

  lemma TradeConserves(all: seq<Def>, s: State, env: Env)
    requires Trade(all, s, env).Done?
    ensures Conserves(s, Trade(all, s, env).value)
  {
    var c := Trading(all, s, env, HandZone);
    TradingConserves(all, s, env);
    GainTimesConserves(c.value.1, SILVER, c.env, c.value.0);
    ConservesTrans(s, c.value.1, Trade(all, s, env).value);
  }

  /** As written, a round of TRADE never takes a card from the hand ... */
  lemma TradeRoundKeepsHand(all: seq<Def>, s: State, env: Env)
    requires TradeRound(all, s, env, DiscardZone).Done?
    ensures TradeRound(all, s, env, DiscardZone).value.1.hand == s.hand
  {
  }

  /** ... and neither does the whole loop. */
  lemma TradeAsWrittenKeepsHand(all: seq<Def>, s: State, env: Env)
    requires Trading(all, s, env, DiscardZone).Done?
    ensures Trading(all, s, env, DiscardZone).value.1.hand == s.hand
  {
    var p := TradeRound(all, s, env, DiscardZone);
    TradeRoundKeepsHand(all, s, env);
    if p.value.0 {
      TradeRoundKeepsHand(all, p.value.1, p.env);
    }
  }

  /** With an empty discard pile, naming a card in hand and then stopping
      pushes `undefined` onto the trash and keeps the card in hand, so a
      card appears from nowhere; the corrected TRADE trashes the card named. */
  lemma TradeAsWrittenTrashesUndefined(all: seq<Def>, s: State, env: Env)
    requires |s.discard| == 0 && |env.answers| >= 2
    requires !Stops("NO", env.answers[0]) && ParseCard(all, env.answers[0]).Some?
    requires ParseCard(all, env.answers[0]).value.name in s.hand
    requires Stops("NO", env.answers[1])
    ensures Trading(all, s, env, DiscardZone)
      == Done((1, s.(trash := s.trash + [DominionState.Undefined])), env.(answers := env.answers[2..]))
    ensures Total(s.(trash := s.trash + [DominionState.Undefined]), DominionState.Undefined) == Total(s, DominionState.Undefined) + 1
    ensures var i := FindCard(s.hand, ParseCard(all, env.answers[0]).value.name);
      Trading(all, s, env, HandZone)
      == Done((1, TrashCard(s, HandZone, i)), env.(answers := env.answers[2..]))
  {
    var rest := env.(answers := env.answers[1..]);
    assert rest.answers[0] == env.answers[1];
    assert rest.answers[1..] == env.answers[2..];
    assert Cards(s.(trash := s.trash + [DominionState.Undefined])) == Cards(s) + multiset{DominionState.Undefined};
  }

  /** Every card name keeps its count from `s` to `t`; only `undefined`
      may gain copies. */
  ghost predicate ConservesNamed(s: State, t: State)
  {
    && (forall n :: n != DominionState.Undefined ==> Total(t, n) == Total(s, n))
    && Total(t, DominionState.Undefined) >= Total(s, DominionState.Undefined)
  }

  /** `trashCard` keeps every card name's count, whatever the index. */
  lemma TrashKeepsNamed(s: State, z: Zone, i: nat)
    ensures ConservesNamed(s, TrashCard(s, z, i))
  {
    if i < |ZoneOf(s, z)| {
      TrashConserves(s, z, i);
    } else {
      var t := TrashCard(s, z, i);
      assert t == s.(trash := s.trash + [DominionState.Undefined]);
      assert Pool(t) == Pool(s) && t.play == s.play && t.saved == s.saved && t.supply == s.supply;
      assert multiset(t.trash) == multiset(s.trash) + multiset{DominionState.Undefined};
      assert Cards(t) == Cards(s) + multiset{DominionState.Undefined};
    }
  }

  lemma TradeRoundKeepsNamed(all: seq<Def>, s: State, env: Env, z: Zone)
    requires TradeRound(all, s, env, z).Done?
    ensures ConservesNamed(s, TradeRound(all, s, env, z).value.1)
  {
    var p := AskOrStop(all, s.hand, env, "NO");
    if p.value.Some? {
      TrashKeepsNamed(s, z, p.value.value);
    }
  }

  /** As written, TRADE conserves every card name; the only thing it can
      create is `undefined` in the trash. */
  lemma TradeAsWrittenKeepsNamed(all: seq<Def>, s: State, env: Env)
    requires TradeAsWritten(all, s, env).Done?
    ensures ConservesNamed(s, TradeAsWritten(all, s, env).value)
  {
    var p := TradeRound(all, s, env, DiscardZone);
    TradeRoundKeepsNamed(all, s, env, DiscardZone);
    var c := Trading(all, s, env, DiscardZone);
    if p.value.0 {
      TradeRoundKeepsNamed(all, p.value.1, p.env, DiscardZone);
    }
    assert ConservesNamed(s, c.value.1);
    GainTimesConserves(c.value.1, SILVER, c.env, c.value.0);
  }

  // ---------------------------------------------------------------------
  // Running an event

  /** The six events registered with an effect that throws
      'unimplemented' (dominion.ts:409-450). */
  predicate Unimplemented(e: Effect)
  {
    e.Banquet? || e.Quest? || e.Annex? || e.ScoutingParty? || e.Pilgrimage? || e.Ball?
  }

  /** `await bought.effect(state)` for an event of registry `all`; TRADE
      is the corrected one. */
  function ApplyEffect(all: seq<Def>, e: Effect, s: State, env: Env): (r: Run<State>)
    ensures Within(r, env)
  {
    match e
    case Borrow => Done(Borrow(s), env)
    case Expedition => Done(Expedition(s), env)
    case Mission => Done(Mission(s), env)
    case Save => Save(all, s, env)
    case Wedding => Wedding(s, env)
    case Dominate => Dominate(s, env)
    case Tax => Tax(all, s, env)
    case TravellingFair => Done(TravellingFair(s), env)
    case Donate => Done(Donate(s), env)
    case Delve => Delve(s, env)
    case Bonfire => Bonfire(all, s, env)
    case Windfall => Windfall(s, env)
    case Conquest => Conquest(s, env)
    case Triumph => Triumph(s, env)
    case Ritual => Ritual(all, s, env)
    case SaltTheEarth => SaltTheEarth(all, s, env)
    case Raid => Raid(s, env)
    case Trade => Trade(all, s, env)
    case Banquet => Crashed("unimplemented")
    case Quest => Crashed("unimplemented")
    case Annex => Crashed("unimplemented")
    case ScoutingParty => Crashed("unimplemented")
    case Pilgrimage => Crashed("unimplemented")
    case Ball => Crashed("unimplemented")
  }

  /** Every victory card of the registry has a supply pile. */
  predicate VictoryPiles(all: seq<Def>, s: State)
  {
    forall d :: d in all && d.CardDef? && d.victory != 0 ==> d.name in s.supply
  }

  /** The stocked supply has a pile for every card of the catalogue. */
  lemma StockedVictoryPiles(s: State)
    requires Stocked(s)
    ensures VictoryPiles(ALL, s)
  {
    forall d | d in ALL && d.CardDef? && d.victory != 0
      ensures d.name in s.supply
    {
      CatalogueNonNegative(d);
      CardNamesStocked(s, d.name);
    }
  }

  lemma SaltTheEarthSafe(all: seq<Def>, s: State, env: Env)
    requires VictoryPiles(all, s)
    ensures !SaltTheEarth(all, s, env).Crashed?
  {
    var w := StockedVictory(s.(vpTokens := s.vpTokens + 1).supply);
    if AskCardWhere(all, env, w).Done? {
      AskCardInCatalogue(all, env, w);
    }
  }

  /** With the seven piles in place, an effect throws exactly when it is
      one of the six unimplemented ones. */
  lemma EffectCrashes(all: seq<Def>, e: Effect, s: State, env: Env)
    requires Stocked(s) && VictoryPiles(all, s)
    ensures ApplyEffect(all, e, s, env).Crashed? <==> Unimplemented(e)
  {
    if e.Save? || e.Tax? || e.Bonfire? || e.Ritual? || e.SaltTheEarth? || e.Trade? {
      AskingSafe(all, e, s, env);
    } else {
      GainingSafe(all, e, s, env);
    }
  }

  lemma AskingSafe(all: seq<Def>, e: Effect, s: State, env: Env)
    requires Stocked(s) && VictoryPiles(all, s)
    requires e.Save? || e.Tax? || e.Bonfire? || e.Ritual? || e.SaltTheEarth? || e.Trade?
    ensures !ApplyEffect(all, e, s, env).Crashed? && !Unimplemented(e)
  {
    match e
    case Save =>
    case Tax =>
    case Bonfire =>
    case Ritual =>
      assert CURSE in s.supply;
    case SaltTheEarth =>
      SaltTheEarthSafe(all, s, env);
    case Trade =>
      TradeSafe(all, s, env);
  }

  /** With a Silver pile, the corrected TRADE never throws. */
  lemma TradeSafe(all: seq<Def>, s: State, env: Env)
    requires SILVER in s.supply
    ensures !Trade(all, s, env).Crashed?
  {
    var c := Trading(all, s, env, HandZone);
    if c.Done? {
      TradingMoves(all, s, env);
      assert SILVER in c.value.1.supply;
    }
  }

  lemma GainingSafe(all: seq<Def>, e: Effect, s: State, env: Env)
    requires Stocked(s)
    requires !(e.Save? || e.Tax? || e.Bonfire? || e.Ritual? || e.SaltTheEarth? || e.Trade?)
    ensures ApplyEffect(all, e, s, env).Crashed? <==> Unimplemented(e)
  {
    if e.Windfall? || e.Conquest? || e.Raid? {
    }
  }

  /** What the buy loop relies on: an effect leaves the debt and the
      kind of turn alone, never lowers money or buys, and neither adds
      nor removes a pile. */
  predicate KeepsCounters(s: State, t: State)
  {
    t.debt == s.debt && t.money >= s.money && t.buys >= s.buys
    && t.isMissionTurn == s.isMissionTurn && t.supply.Keys == s.supply.Keys
  }

  lemma GainKeepsCounters(s: State, name: Name, env: Env)
    requires Gain(s, name, env).Done?
    ensures KeepsCounters(s, Gain(s, name, env).value.1)
  {
  }

  lemma GainTimesKeepsCounters(s: State, name: Name, env: Env, k: nat)
    requires GainTimes(s, name, env, k).Done?
    ensures KeepsCounters(s, GainTimes(s, name, env, k).value)
  {
    GainTimesFrame(s, name, env, k);
    GainTimesKeepsPiles(s, name, env, k);
  }

  /** The trash step of RITUAL changes only the hand, the trash and the
      VP tokens. */
  lemma RitualTrashFrame(all: seq<Def>, s: State, env: Env)
    requires RitualTrash(all, s, env).Done?
    ensures var t := RitualTrash(all, s, env).value;
      t == s.(hand := t.hand, trash := t.trash, vpTokens := t.vpTokens)
  {
    if |s.hand| > 0 {
      var c := AskCardWhere(all, env, InZone(s.hand));
      var u := TrashCard(s, HandZone, FindCard(s.hand, c.value.name));
      assert u == s.(hand := u.hand, trash := u.trash);
    }
  }

  lemma RitualKeepsCounters(all: seq<Def>, s: State, env: Env)
    requires Ritual(all, s, env).Done?
    ensures KeepsCounters(s, Ritual(all, s, env).value)
  {
    var g := Gain(s, CURSE, env);
    GainKeepsCounters(s, CURSE, env);
    if g.value.0 {
      RitualTrashFrame(all, g.value.1, g.env);
    }
  }

  lemma TradeKeepsCounters(all: seq<Def>, s: State, env: Env)
    requires Trade(all, s, env).Done?
    ensures KeepsCounters(s, Trade(all, s, env).value)
  {
    var c := Trading(all, s, env, HandZone);
    TradingMoves(all, s, env);
    GainTimesKeepsCounters(c.value.1, SILVER, c.env, c.value.0);
  }

  lemma EffectKeepsCounters(all: seq<Def>, e: Effect, s: State, env: Env)
    requires ApplyEffect(all, e, s, env).Done?
    ensures KeepsCounters(s, ApplyEffect(all, e, s, env).value)
  {
    if e.Save? || e.Tax? || e.Bonfire? || e.Ritual? || e.SaltTheEarth? || e.Trade? {
      AskingKeepsCounters(all, e, s, env);
    } else {
      GainingKeepsCounters(all, e, s, env);
    }
  }

  lemma AskingKeepsCounters(all: seq<Def>, e: Effect, s: State, env: Env)
    requires e.Save? || e.Tax? || e.Bonfire? || e.Ritual? || e.SaltTheEarth? || e.Trade?
    requires ApplyEffect(all, e, s, env).Done?
    ensures KeepsCounters(s, ApplyEffect(all, e, s, env).value)
  {
    match e
    case Save => SaveMoves(all, s, env);
    case Tax => TaxRaisesOne(all, s, env);
    case Bonfire => BonfireMoves(all, s, env);
    case Ritual => RitualKeepsCounters(all, s, env);
    case SaltTheEarth => SaltTheEarthMoves(all, s, env);
    case Trade => TradeKeepsCounters(all, s, env);
  }

  lemma GainingKeepsCounters(all: seq<Def>, e: Effect, s: State, env: Env)
    requires !(e.Save? || e.Tax? || e.Bonfire? || e.Ritual? || e.SaltTheEarth? || e.Trade?)
    requires ApplyEffect(all, e, s, env).Done?
    ensures KeepsCounters(s, ApplyEffect(all, e, s, env).value)
  {
    if e.Windfall? || e.Conquest? || e.Raid? {
      RepeatedGainKeepsCounters(all, e, s, env);
    } else {
      SingleGainKeepsCounters(all, e, s, env);
    }
  }

  lemma SingleGainKeepsCounters(all: seq<Def>, e: Effect, s: State, env: Env)
    requires !(e.Save? || e.Tax? || e.Bonfire? || e.Ritual? || e.SaltTheEarth? || e.Trade?)
    requires !(e.Windfall? || e.Conquest? || e.Raid?)
    requires ApplyEffect(all, e, s, env).Done?
    ensures KeepsCounters(s, ApplyEffect(all, e, s, env).value)
  {
    match e
    case Wedding => WeddingKeepsCounters(s, env);
    case Dominate => DominateKeepsCounters(s, env);
    case Delve => DelveKeepsCounters(s, env);
    case Triumph => TriumphKeepsCounters(s, env);
    case _ =>
  }

  lemma WeddingKeepsCounters(s: State, env: Env)
    requires Wedding(s, env).Done?
    ensures KeepsCounters(s, Wedding(s, env).value)
  {
    GainKeepsCounters(s.(vpTokens := s.vpTokens + 1), GOLD, env);
  }

  lemma DominateKeepsCounters(s: State, env: Env)
    requires Dominate(s, env).Done?
    ensures KeepsCounters(s, Dominate(s, env).value)
  {
    GainKeepsCounters(s, PROVINCE, env);
  }

  lemma DelveKeepsCounters(s: State, env: Env)
    requires Delve(s, env).Done?
    ensures KeepsCounters(s, Delve(s, env).value)
  {
    GainKeepsCounters(s.(buys := s.buys + 1), SILVER, env);
  }

  lemma TriumphKeepsCounters(s: State, env: Env)
    requires Triumph(s, env).Done?
    ensures KeepsCounters(s, Triumph(s, env).value)
  {
    GainKeepsCounters(s, ESTATE, env);
  }

  lemma RepeatedGainKeepsCounters(all: seq<Def>, e: Effect, s: State, env: Env)
    requires e.Windfall? || e.Conquest? || e.Raid?
    requires ApplyEffect(all, e, s, env).Done?
    ensures KeepsCounters(s, ApplyEffect(all, e, s, env).value)
  {
    match e
    case Windfall => if |s.deck| == 0 && |s.discard| == 0 { GainTimesKeepsCounters(s, GOLD, env, 3); }
    case Conquest => GainTimesKeepsCounters(s, SILVER, env, 2);
    case Raid => GainTimesKeepsCounters(s, SILVER, env, multiset(s.play)[SILVER]);
  }

  // ---------------------------------------------------------------------
  // Effects conserve cards

  lemma WeddingConserves(s: State, env: Env)
    requires Wedding(s, env).Done?
    ensures Conserves(s, Wedding(s, env).value)
  {
    var u := s.(vpTokens := s.vpTokens + 1);
    assert Wedding(s, env).value == Gain(u, GOLD, env).value.1;
    CountersThenGainConserves(s, u, GOLD, env);
  }

  lemma DelveConserves(s: State, env: Env)
    requires Delve(s, env).Done?
    ensures Conserves(s, Delve(s, env).value)
  {
    var u := s.(buys := s.buys + 1);
    assert Delve(s, env).value == Gain(u, SILVER, env).value.1;
    CountersThenGainConserves(s, u, SILVER, env);
  }

  /** Counters set and then a card gained, as WEDDING and DELVE do. */
  lemma CountersThenGainConserves(s: State, u: State, name: Name, env: Env)
    requires u.deck == s.deck && u.hand == s.hand && u.discard == s.discard && u.play == s.play
    requires u.trash == s.trash && u.saved == s.saved && u.supply == s.supply
    requires Gain(u, name, env).Done?
    ensures Conserves(s, Gain(u, name, env).value.1)
  {
    CountersConserve(s, u);
    GainConserves(u, name, env);
    ConservesTrans(s, u, Gain(u, name, env).value.1);
  }

  /** A gain followed by VP tokens, as DOMINATE and TRIUMPH do. */
  lemma GainAndScoreConserves(s: State, name: Name, env: Env, t: State)
    requires Gain(s, name, env).Done?
    requires t == Gain(s, name, env).value.1.(vpTokens := t.vpTokens)
    ensures Conserves(s, t)
  {
    var u := Gain(s, name, env).value.1;
    GainConserves(s, name, env);
    CountersConserve(u, t);
    ConservesTrans(s, u, t);
  }

  lemma RitualConserves(all: seq<Def>, s: State, env: Env)
    requires Ritual(all, s, env).Done?
    ensures Conserves(s, Ritual(all, s, env).value)
  {
    var g := Gain(s, CURSE, env);
    GainConserves(s, CURSE, env);
    if g.value.0 {
      RitualTrashConserves(all, g.value.1, g.env);
      ConservesTrans(s, g.value.1, Ritual(all, s, env).value);
    }
  }

  lemma ConquestConserves(s: State, env: Env)
    requires Conquest(s, env).Done?
    ensures Conserves(s, Conquest(s, env).value)
  {
    var g := GainTimes(s, SILVER, env, 2);
    GainTimesConserves(s, SILVER, env, 2);
    CountersConserve(g.value, Conquest(s, env).value);
    ConservesTrans(s, g.value, Conquest(s, env).value);
  }

  /** No event makes a card appear or vanish: every card stays in a zone,
      in the trash or in its supply pile. */
  lemma EffectConserves(all: seq<Def>, e: Effect, s: State, env: Env)
    requires ApplyEffect(all, e, s, env).Done?
    ensures Conserves(s, ApplyEffect(all, e, s, env).value)
  {
    if e.Save? || e.Tax? || e.Bonfire? || e.Ritual? || e.SaltTheEarth? || e.Trade? {
      AskingConserves(all, e, s, env);
    } else {
      OthersConserve(all, e, s, env);
    }
  }

  lemma AskingConserves(all: seq<Def>, e: Effect, s: State, env: Env)
    requires e.Save? || e.Tax? || e.Bonfire? || e.Ritual? || e.SaltTheEarth? || e.Trade?
    requires ApplyEffect(all, e, s, env).Done?
    ensures Conserves(s, ApplyEffect(all, e, s, env).value)
  {
    match e
    case Save => SaveConserves(all, s, env);
    case Tax => TaxEventConserves(all, s, env);
    case Bonfire => BonfireConserves(all, s, env);
    case Ritual => RitualConserves(all, s, env);
    case SaltTheEarth => SaltTheEarthConserves(all, s, env);
    case Trade => TradeConserves(all, s, env);
  }

  lemma OthersConserve(all: seq<Def>, e: Effect, s: State, env: Env)
    requires !(e.Save? || e.Tax? || e.Bonfire? || e.Ritual? || e.SaltTheEarth? || e.Trade?)
    requires ApplyEffect(all, e, s, env).Done?
    ensures Conserves(s, ApplyEffect(all, e, s, env).value)
  {
    match e
    case Wedding => WeddingConserves(s, env);
    case Dominate => DominateConserves(s, env);
    case Delve => DelveConserves(s, env);
    case Windfall => WindfallConserves(s, env);
    case Conquest => ConquestConserves(s, env);
    case Triumph => TriumphConserves(s, env);
    case Raid => GainTimesConserves(s, SILVER, env, multiset(s.play)[SILVER]);
    case Borrow => CountersConserve(s, Borrow(s));
    case Expedition => CountersConserve(s, Expedition(s));
    case Mission => CountersConserve(s, Mission(s));
    case TravellingFair => CountersConserve(s, TravellingFair(s));
    case Donate => CountersConserve(s, Donate(s));
    case _ =>
  }

  lemma DominateConserves(s: State, env: Env)
    requires Dominate(s, env).Done?
    ensures Conserves(s, Dominate(s, env).value)
  {
    GainAndScoreConserves(s, PROVINCE, env, Dominate(s, env).value);
  }

  lemma TriumphConserves(s: State, env: Env)
    requires Triumph(s, env).Done?
    ensures Conserves(s, Triumph(s, env).value)
  {
    GainAndScoreConserves(s, ESTATE, env, Triumph(s, env).value);
  }

  lemma WindfallConserves(s: State, env: Env)
    requires Windfall(s, env).Done?
    ensures Conserves(s, Windfall(s, env).value)
  {
    if |s.deck| == 0 && |s.discard| == 0 {
      GainTimesConserves(s, GOLD, env, 3);
    } else {
      SameCardsConserve(s, s);
    }
  }
}
