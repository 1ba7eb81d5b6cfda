/** The turn loop of dominion.ts `main` (dominion.ts:654-867): the
    starting state, then turn after turn the resets, the draw, the
    treasure phase, the buy phase, cleanup, the donation and the mission
    turn, until the Province pile is empty. */
module DominionTurn {
  import opened Exceptions
  import opened Options
  import opened DominionCatalog
  import opened DominionInput
  import opened DominionState
  import opened DominionEvents

  // ---------------------------------------------------------------------
  // The starting state

  /** `supply_state` as `main` sets it up: every pile taxed 1. */
  const STARTING_SUPPLY: map<Name, Pile> := map[
    COPPER := Pile(1, 60 - 7 * 2), SILVER := Pile(1, 40), GOLD := Pile(1, 30),
    ESTATE := Pile(1, 8), DUCHY := Pile(1, 8), PROVINCE := Pile(1, 8), CURSE := Pile(1, 10)]

  /** The state `main` starts from (dominion.ts:655-711): one buy, nothing
      owed, seven Coppers and three Estates in the discard pile. */
  const START: State := State(
    [], [], [COPPER, COPPER, COPPER, COPPER, COPPER, COPPER, COPPER, ESTATE, ESTATE, ESTATE],
    [], [], 1, 0, false, false, 0, false, 0, 0, 0, 0, false, false, false, [], STARTING_SUPPLY)

  /** The player starts with ten cards, none in play, and the supply is
      stocked. */
  lemma StartStocked()
    ensures Stocked(START) && |Cards(START)| == 10
    ensures multiset(START.discard)[COPPER] == 7 && multiset(START.discard)[ESTATE] == 3
    ensures START.supply[PROVINCE].supply == 8
  {
  }

  // ---------------------------------------------------------------------
  // Start of turn and draw

  /** The resets at the top of each turn (dominion.ts:721-727). */
  function ResetTurn(s: State): (t: State)
    ensures t.buys == 1 && t.money == 0 && t.gainedCards == 0 && t.gainedSilvers == 0
    ensures !t.borrowed && !t.donated && !t.travellingFaired
    ensures Cards(t) == Cards(s) && t.supply == s.supply && t.debt == s.debt
    ensures t.extraDraw == s.extraDraw && t.minusCardToken == s.minusCardToken
    ensures t.isMissionTurn == s.isMissionTurn && t.takeMissionTurn == s.takeMissionTurn
  {
    s.(buys := 1, money := 0, borrowed := false, donated := false, travellingFaired := false,
       gainedSilvers := 0, gainedCards := 0)
  }

  /** How many cards the turn draws: five, plus any extra draw. */
  function HandSize(extraDraw: int): (n: nat)
    ensures n >= 5
  {
    if extraDraw > 0 then 5 + extraDraw else 5
  }

  /** The draw (dominion.ts:734-746): `5 + extra_draw` draws, the extra
      draw spent, then the saved cards join the hand. */
  function DrawPhase(s: State, env: Env): (r: (State, Env))
    ensures r.1.answers == env.answers
  {
    var s' := if s.extraDraw > 0 then s.(extraDraw := 0) else s;
    var (t, env') := DrawN(s', env, HandSize(s.extraDraw));
    (t.(hand := t.hand + t.saved, saved := []), env')
  }

  /** The hand grows by the cards drawn and the cards saved, the extra
      draw is used up, and nothing is saved any more. */
  lemma DrawPhaseSpec(s: State, env: Env)
    ensures var t := DrawPhase(s, env).0;
      |t.hand| == |s.hand| + Drawn(s.minusCardToken, HandSize(s.extraDraw), |s.deck| + |s.discard|) + |s.saved|
      && t.saved == [] && t.extraDraw == (if s.extraDraw > 0 then 0 else s.extraDraw)
      && !t.minusCardToken
      && t == s.(deck := t.deck, discard := t.discard, hand := t.hand, saved := [],
                 minusCardToken := false, extraDraw := t.extraDraw)
  {
    var s' := if s.extraDraw > 0 then s.(extraDraw := 0) else s;
    DrawNCount(s', env, HandSize(s.extraDraw));
  }

  lemma DrawPhaseConserves(s: State, env: Env)
    ensures Conserves(s, DrawPhase(s, env).0)
  {
    var s' := if s.extraDraw > 0 then s.(extraDraw := 0) else s;
    var t := DrawN(s', env, HandSize(s.extraDraw)).0;
    DrawNPool(s', env, HandSize(s.extraDraw));
    assert Cards(s') == Cards(s);
    assert Cards(t) == Cards(s');
    assert Cards(DrawPhase(s, env).0) == Cards(t);
    SameCardsConserve(s, DrawPhase(s, env).0);
  }

  // ---------------------------------------------------------------------
  // Treasure phase

  /** `findTreasure(hand)` as it runs on any hand: it reads `CARDS[name]`
      for each card up to the first treasure, and reading `.treasure` of
      a name that is no card throws. */
  function ScanTreasure(hand: seq<Name>): (r: Outcome<int>)
    ensures r.Returns? ==> -1 <= r.value < |hand|
  {
    if |hand| == 0 then Returns(-1)
    else if !IsCardName(hand[0]) then Raises("TypeError: not a card")
    else if TreasureOf(hand[0]) != 0 then Returns(0)
    else
      match ScanTreasure(hand[1..])
      case Raises(m) => Raises(m)
      case Returns(k) => Returns(if k == -1 then -1 else k + 1)
  }

  /** On a hand of cards the scan is `FindTreasure`, and only such a hand
      can be scanned to its end. */
  lemma {:induction false} ScanTreasureRegistered(hand: seq<Name>)
    ensures Registered(hand) ==> ScanTreasure(hand) == Returns(FindTreasure(hand))
    ensures ScanTreasure(hand) == Returns(-1) ==> Registered(hand)
  {
    if |hand| > 0 {
      ScanTreasureRegistered(hand[1..]);
      assert forall x :: x in hand[1..] ==> x in hand;
      assert forall x :: x in hand ==> x == hand[0] || x in hand[1..];
    }
  }

  /** The ALL answer on any hand: `while (hasTreasure(hand))
      playTreasure(state, findTreasure(hand))`, where each scan throws on a
      name that is no card before the first treasure. */
  function PlayAllScan(s: State): (r: Outcome<State>)
    ensures r.Returns? ==> r.value == s.(hand := r.value.hand, play := r.value.play, money := r.value.money)
    ensures r.Returns? ==> ScanTreasure(r.value.hand) == Returns(-1)
    decreases |s.hand|
  {
    match ScanTreasure(s.hand)
    case Raises(m) => Raises(m)
    case Returns(k) =>
      if k == -1 then Returns(s)
      else
        ScanTreasureFinds(s.hand);
        PlayAllScan(PlayTreasure(s, k).value)
  }

  /** A scan that finds index `k` passed only cards that are no treasure
      and stopped at a treasure. */
  lemma {:induction false} ScanTreasureFinds(hand: seq<Name>)
    requires ScanTreasure(hand).Returns? && ScanTreasure(hand).value >= 0
    ensures var k := ScanTreasure(hand).value;
      IsTreasure(hand[k]) && forall j :: 0 <= j < k ==> IsCardName(hand[j]) && !IsTreasure(hand[j])
  {
    if TreasureOf(hand[0]) == 0 {
      ScanTreasureFinds(hand[1..]);
      assert forall j :: 1 <= j < |hand| ==> hand[j] == hand[1..][j - 1];
    }
  }

  /** On a hand of cards, ALL plays exactly as `PlayAll`. */
  lemma {:induction false} PlayAllScanRegistered(s: State)
    requires Registered(s.hand)
    ensures PlayAllScan(s) == Returns(PlayAll(s))
    decreases |s.hand|
  {
    ScanTreasureRegistered(s.hand);
    if FindTreasure(s.hand) >= 0 {
      PlayAllStep(s);
      PlayAllScanRegistered(PlayTreasure(s, FindTreasure(s.hand)).value);
    }
  }

  lemma {:induction false} PlayAllScanConserves(s: State)
    requires PlayAllScan(s).Returns?
    ensures Conserves(s, PlayAllScan(s).value)
    decreases |s.hand|
  {
    var k := ScanTreasure(s.hand).value;
    if k == -1 {
      SameCardsConserve(s, s);
    } else {
      ScanTreasureFinds(s.hand);
      var t := PlayTreasure(s, k).value;
      PlayTreasureConserves(s, k);
      PlayAllScanConserves(t);
      ConservesTrans(s, t, PlayAllScan(s).value);
    }
  }

  /** An answer that ends a phase's prompt loop. */
  predicate EndsPhase(answer: string)
  {
    Upper(answer) == "NONE" || Upper(answer) == "DONE"
  }

  /** The treasure phase (dominion.ts:750-773): while the hand has a
      treasure, NONE or DONE ends it, ALL plays every treasure, and a
      card name plays that card, throwing if it is not a treasure. */
  function TreasurePhase(all: seq<Def>, s: State, env: Env): (r: Run<State>)
    ensures Within(r, env)
    ensures r.Done? ==> r.value == s.(hand := r.value.hand, play := r.value.play, money := r.value.money)
    decreases |env.answers|
  {
    match ScanTreasure(s.hand)
    case Raises(m) => Crashed(m)
    case Returns(k) =>
      if k == -1 then Done(s, env)
      else
        var x :- Ask(env);
        var (a, env') := x;
        if EndsPhase(a) then Done(s, env')
        else
          match TreasureStep(all, s, a)
          case Raises(m) => Crashed(m)
          case Returns(t) => TreasurePhase(all, t, env')
  }

  /** What one answer other than NONE or DONE does: ALL plays every
      treasure; a name that does not resolve to a card, or to a card not
      in hand, changes nothing; a card in hand is played, which throws if
      it is no treasure. */
  function TreasureStep(all: seq<Def>, s: State, a: string): (r: Outcome<State>)
    ensures r.Returns? ==> r.value == s.(hand := r.value.hand, play := r.value.play, money := r.value.money)
    ensures r.Returns? ==> Conserves(s, r.value)
  {
    if Upper(a) == "ALL" then
      var r := PlayAllScan(s);
      if r.Returns? then PlayAllScanConserves(s); r else r
    else
      match ParseCard(all, a)
      case None => SameCardsConserve(s, s); Returns(s)
      case Some(d) =>
        var i := FindCard(s.hand, d.name);
        if i == -1 then SameCardsConserve(s, s); Returns(s)
        else if !IsCardName(s.hand[i]) then Raises("TypeError: not a card")
        else
          var r := PlayTreasure(s, i);
          if r.Returns? then PlayTreasureConserves(s, i); r else r
  }

  /** ALL ends the phase with no treasure left in hand. */
  lemma TreasurePhaseAll(all: seq<Def>, s: State, env: Env)
    requires Registered(s.hand) && HasTreasure(s.hand)
    requires |env.answers| > 0 && Upper(env.answers[0]) == "ALL"
    ensures TreasurePhase(all, s, env) == Done(PlayAll(s), env.(answers := env.answers[1..]))
    ensures Registered(PlayAll(s).hand) && !HasTreasure(PlayAll(s).hand)
  {
    ScanTreasureRegistered(s.hand);
    PlayAllScanRegistered(s);
    PlayAllLeavesNoTreasure(s);
    assert "ALL" != "NONE" && "ALL" != "DONE";
  }

  /** Naming a card in hand that is no treasure throws. */
  lemma TreasurePhaseRejects(all: seq<Def>, s: State, env: Env)
    requires Registered(s.hand) && HasTreasure(s.hand)
    requires |env.answers| > 0 && !EndsPhase(env.answers[0]) && Upper(env.answers[0]) != "ALL"
    requires ParseCard(all, env.answers[0]).Some?
    requires var name := ParseCard(all, env.answers[0]).value.name; name in s.hand && !IsTreasure(name)
    ensures TreasurePhase(all, s, env).Crashed?
  {
    ScanTreasureRegistered(s.hand);
  }

  /** A phase that ends normally ends with no treasure in hand or on the
      player's NONE or DONE. */
  lemma {:induction false} TreasurePhaseEnds(all: seq<Def>, s: State, env: Env)
    requires TreasurePhase(all, s, env).Done?
    ensures var t := TreasurePhase(all, s, env).value;
      ScanTreasure(t.hand) == Returns(-1)
      || exists k :: 0 <= k < |env.answers| && EndsPhase(env.answers[k])
    decreases |env.answers|
  {
    if ScanTreasure(s.hand) != Returns(-1) {
      var a := env.answers[0];
      var rest := env.(answers := env.answers[1..]);
      if !EndsPhase(a) {
        var t := TreasureStep(all, s, a).value;
        TreasurePhaseEnds(all, t, rest);
        if exists k :: 0 <= k < |rest.answers| && EndsPhase(rest.answers[k]) {
          var k :| 0 <= k < |rest.answers| && EndsPhase(rest.answers[k]);
          assert EndsPhase(env.answers[k + 1]);
        }
      } else {
        assert EndsPhase(env.answers[0]);
      }
    }
  }

  lemma {:induction false} TreasurePhaseConserves(all: seq<Def>, s: State, env: Env)
    requires TreasurePhase(all, s, env).Done?
    ensures Conserves(s, TreasurePhase(all, s, env).value)
    decreases |env.answers|
  {
    if ScanTreasure(s.hand) == Returns(-1) || EndsPhase(env.answers[0]) {
      SameCardsConserve(s, s);
    } else {
      var t := TreasureStep(all, s, env.answers[0]).value;
      TreasurePhaseConserves(all, t, env.(answers := env.answers[1..]));
      ConservesTrans(s, t, TreasurePhase(all, s, env).value);
    }
  }

  // ---------------------------------------------------------------------
  // Buy phase

  /** How the buy loop judges one answer (dominion.ts:780-801). */
  datatype Verdict =
    | StopBuying      // NONE or DONE
    | Unresolved      // no single entry has the answer as a prefix
    | CantAfford      // costs more than the money
    | OnMissionTurn   // a card, and this is a mission turn
    | NoPile          // a card without a supply pile: reading it throws
    | EmptyPile       // a card whose pile is empty
    | Accepted(d: Def)

  function Judge(all: seq<Def>, s: State, answer: string): (v: Verdict)
    ensures v.Accepted? ==> v.d.cost <= s.money && (v.d.CardDef? ==> v.d.name in s.supply)
  {
    if EndsPhase(answer) then StopBuying
    else
      match ParseCardOrEvent(all, answer)
      case None => Unresolved
      case Some(d) =>
        if d.cost > s.money then CantAfford
        else if d.CardDef? && s.isMissionTurn then OnMissionTurn
        else if d.CardDef? && d.name !in s.supply then NoPile
        else if d.CardDef? && s.supply[d.name].supply == 0 then EmptyPile
        else Accepted(d)
  }

  /** The purchase proper (dominion.ts:809-820): `buyCard` for a card,
      the event's effect for an event. Neither adds debt nor takes money,
      and neither changes the mission flag, the set of piles or the number
      of any card. */
  function Acquire(all: seq<Def>, t: State, d: Def, env: Env): (r: Run<State>)
    requires d.CardDef? ==> d.name in t.supply
    ensures Within(r, env)
    ensures r.Done? ==> r.value.isMissionTurn == t.isMissionTurn && r.value.supply.Keys == t.supply.Keys
    ensures r.Done? && d.EventDef? ==> KeepsCounters(t, r.value)
    ensures r.Done? ==> Conserves(t, r.value)
  {
    if d.CardDef? then
      var r := BuyCard(t, d.name, env);
      if r.Done? then BuyCardSpec(t, d.name, env); BuyConserves(t, d.name, env); r else r
    else
      var r := ApplyEffect(all, d.effect, t, env);
      if r.Done? then EffectKeepsCounters(all, d.effect, t, env); EffectConserves(all, d.effect, t, env); r else r
  }

  /** Paying for an entry: its cost leaves the money and its own debt is
      added to the debt (dominion.ts:804-805). */
  function Charge(s: State, d: Def): (t: State)
    ensures t == s.(money := t.money, debt := t.debt)
    ensures t.money - t.debt == (s.money - d.cost) - (s.debt + d.debt)
  {
    s.(money := s.money - d.cost, debt := s.debt + d.debt)
  }

  /** After the purchase proper (dominion.ts:821-822): pay debt off and
      spend the buy; a negative debt or negative money throws. */
  function Settle(r: Run<State>): (q: Run<State>)
    ensures q.Done? <==> r.Done? && r.value.debt >= 0 && r.value.money >= 0
    ensures q.Done? ==> q.env == r.env
    ensures q.Done? ==> q.value == r.value.(money := q.value.money, debt := q.value.debt, buys := r.value.buys - 1)
    ensures q.Done? ==> q.value.money - q.value.debt == r.value.money - r.value.debt
    ensures q.Done? ==> q.value.money >= 0 && q.value.debt >= 0 && (q.value.money == 0 || q.value.debt == 0)
  {
    match r
    case Done(v, env') =>
      (match PayDebt(v)
       case Raises(m) => Crashed(m)
       case Returns(w) => Done(w.(buys := w.buys - 1), env'))
    case AwaitingInput => AwaitingInput
    case Crashed(m) => Crashed(m)
  }

  /** A purchase that has passed the checks (dominion.ts:803-823): pay the
      cost, take on the entry's debt, buy the card or run the event's
      effect, pay debt off, and spend the buy. */
  function Purchase(all: seq<Def>, s: State, d: Def, env: Env): (r: Run<State>)
    requires d.CardDef? ==> d.name in s.supply
    ensures Within(r, env)
    ensures r.Done? ==> Conserves(s, r.value)
  {
    var a := Acquire(all, Charge(s, d), d, env);
    var r := Settle(a);
    if r.Done? then
      CountersConserve(s, Charge(s, d));
      CountersConserve(a.value, r.value);
      ConservesTrans(s, Charge(s, d), a.value);
      ConservesTrans(s, a.value, r.value);
      r
    else r
  }

  /** The buy loop (dominion.ts:779-824): it runs while there is a buy and
      no debt; an answer that fails a check asks again without changing
      anything. */
  function BuyLoop(all: seq<Def>, s: State, env: Env): (r: Run<State>)
    ensures Within(r, env)
    decreases |env.answers|
  {
    if !(s.buys > 0 && s.debt == 0) then Done(s, env)
    else
      var x :- Ask(env);
      var (a, env') := x;
      match Judge(all, s, a)
      case StopBuying => Done(s, env')
      case NoPile => Crashed("TypeError: no supply pile")
      case Accepted(d) =>
        var p :- Purchase(all, s, d, env');
        var (t, env'') := p;
        BuyLoop(all, t, env'')
      case _ => BuyLoop(all, s, env')
  }

  /** The loop does not start without a buy or with debt. */
  lemma BuyLoopIdle(all: seq<Def>, s: State, env: Env)
    requires s.buys <= 0 || s.debt != 0
    ensures BuyLoop(all, s, env) == Done(s, env)
  {
  }

  /** A rejected answer leaves the state as it was and asks again. */
  lemma BuyLoopReprompts(all: seq<Def>, s: State, env: Env)
    requires s.buys > 0 && s.debt == 0 && |env.answers| > 0
    requires var v := Judge(all, s, env.answers[0]);
      v.Unresolved? || v.CantAfford? || v.OnMissionTurn? || v.EmptyPile?
    ensures BuyLoop(all, s, env) == BuyLoop(all, s, env.(answers := env.answers[1..]))
  {
  }

  /** Every check the loop makes, in terms of the answer's entry. */
  lemma JudgeSpec(all: seq<Def>, s: State, answer: string)
    requires !EndsPhase(answer)
    ensures Judge(all, s, answer).Unresolved? <==> ParseCardOrEvent(all, answer).None?
    ensures ParseCardOrEvent(all, answer).Some? ==>
      var d := ParseCardOrEvent(all, answer).value;
      (Judge(all, s, answer).Accepted? <==>
        d.cost <= s.money && (d.CardDef? ==> !s.isMissionTurn && d.name in s.supply && s.supply[d.name].supply != 0))
      && (Judge(all, s, answer).Accepted? ==> Judge(all, s, answer).d == d)
  {
  }

  /** Buying a card: the money pays the cost and then as much as it can of
      the entry's debt and the pile's tax; the pile gives up a copy and
      its tax is cleared; a buy is spent. */
  lemma PurchaseCard(all: seq<Def>, s: State, d: Def, env: Env)
    requires d.CardDef? && d.name in s.supply && s.supply[d.name].supply != 0
    requires Purchase(all, s, d, env).Done?
    ensures var t := Purchase(all, s, d, env).value;
      t.money - t.debt == (s.money - d.cost) - (s.debt + d.debt + s.supply[d.name].tax)
      && t.money >= 0 && t.debt >= 0 && (t.money == 0 || t.debt == 0)
      && t.buys == s.buys - 1
      && t.supply == s.supply[d.name := Pile(0, s.supply[d.name].supply - 1)]
  {
    var u := Charge(s, d);
    var a := Acquire(all, u, d, env);
    assert a == BuyCard(u, d.name, env);
    BuyCardSpec(u, d.name, env);
    assert Gained(u, GainCard(u, d.name, env).value.1, d.name);
  }

  /** Running an event: the money pays the cost, the effect never lowers
      money or adds debt, and the entry's debt is paid off as far as the
      money goes. */
  lemma PurchaseEvent(all: seq<Def>, s: State, d: Def, env: Env)
    requires d.EventDef? && Purchase(all, s, d, env).Done?
    ensures var t := Purchase(all, s, d, env).value;
      t.money - t.debt >= (s.money - d.cost) - (s.debt + d.debt)
      && t.money >= 0 && t.debt >= 0 && (t.money == 0 || t.debt == 0)
      && t.supply.Keys == s.supply.Keys && t.isMissionTurn == s.isMissionTurn
  {
  }

  /** Money is never negative in the buy phase. */
  lemma {:induction false} BuyLoopMoney(all: seq<Def>, s: State, env: Env)
    requires s.money >= 0 && BuyLoop(all, s, env).Done?
    ensures BuyLoop(all, s, env).value.money >= 0
    decreases |env.answers|
  {
    if s.buys > 0 && s.debt == 0 {
      var a := env.answers[0];
      var rest := env.(answers := env.answers[1..]);
      match Judge(all, s, a)
      case Accepted(d) =>
        var p := Purchase(all, s, d, rest);
        assert p.value.money >= 0;
        BuyLoopMoney(all, p.value, p.env);
      case StopBuying =>
      case _ => BuyLoopMoney(all, s, rest);
    }
  }

  lemma {:induction false} BuyLoopConserves(all: seq<Def>, s: State, env: Env)
    requires BuyLoop(all, s, env).Done?
    ensures Conserves(s, BuyLoop(all, s, env).value)
    decreases |env.answers|
  {
    if !(s.buys > 0 && s.debt == 0) {
      SameCardsConserve(s, s);
    } else {
      var a := env.answers[0];
      var rest := env.(answers := env.answers[1..]);
      match Judge(all, s, a)
      case Accepted(d) =>
        var p := Purchase(all, s, d, rest);
        BuyLoopConserves(all, p.value, p.env);
        ConservesTrans(s, p.value, BuyLoop(all, s, env).value);
      case StopBuying => SameCardsConserve(s, s);
      case _ => BuyLoopConserves(all, s, rest);
    }
  }

  /** A purchase keeps the mission flag and the set of piles. */
  lemma PurchaseKeeps(all: seq<Def>, s: State, d: Def, env: Env)
    requires d.CardDef? ==> d.name in s.supply
    requires Purchase(all, s, d, env).Done?
    ensures var t := Purchase(all, s, d, env).value;
      t.isMissionTurn == s.isMissionTurn && t.supply.Keys == s.supply.Keys
  {
  }

  lemma {:induction false} BuyLoopKeeps(all: seq<Def>, s: State, env: Env)
    requires BuyLoop(all, s, env).Done?
    ensures var t := BuyLoop(all, s, env).value;
      t.isMissionTurn == s.isMissionTurn && t.supply.Keys == s.supply.Keys
    decreases |env.answers|
  {
    if s.buys > 0 && s.debt == 0 {
      var a := env.answers[0];
      var rest := env.(answers := env.answers[1..]);
      match Judge(all, s, a)
      case Accepted(d) =>
        var p := Purchase(all, s, d, rest);
        PurchaseKeeps(all, s, d, rest);
        BuyLoopKeeps(all, p.value, p.env);
      case StopBuying =>
      case _ => BuyLoopKeeps(all, s, rest);
    }
  }

  /** `payDebt` before the buy loop, throwing as `payDebt` does. */
  function PayDebtRun(s: State, env: Env): (r: Run<State>)
    ensures r.Done? <==> s.debt >= 0 && s.money >= 0
    ensures r.Done? ==> r.env == env && r.value == PayDebt(s).value
  {
    match PayDebt(s)
    case Raises(m) => Crashed(m)
    case Returns(t) => Done(t, env)
  }

  // ---------------------------------------------------------------------
  // Cleanup, donation, mission turn

  /** Cleanup (dominion.ts:826-829): hand, then play, onto the discard. */
  function Cleanup(s: State): (t: State)
    ensures t.hand == [] && t.play == []
    ensures t.discard == s.discard + s.hand + s.play
    ensures t == s.(hand := [], play := [], discard := t.discard)
  {
    s.(discard := s.discard + s.hand + s.play, hand := [], play := [])
  }

  lemma CleanupConserves(s: State)
    ensures Conserves(s, Cleanup(s))
  {
    assert Cards(Cleanup(s)) == Cards(s);
    SameCardsConserve(s, Cleanup(s));
  }

  /** The donation loop (dominion.ts:835-848): while the discard pile has
      cards, NONE or DONE stops it, and a card named from the discard pile
      is trashed. */
  function DonateLoop(all: seq<Def>, s: State, env: Env): (r: Run<State>)
    ensures !r.Crashed? && Within(r, env)
    decreases |env.answers|
  {
    if |s.discard| == 0 then Done(s, env)
    else
      var p :- AskOrStop(all, s.discard, env, "NONE");
      var (o, env') := p;
      match o
      case None => Done(s, env')
      case Some(i) => DonateLoop(all, TrashCard(s, DiscardZone, i), env')
  }

  /** After DONATE (dominion.ts:831-849): the deck joins the discard pile,
      and the player trashes from it. */
  function DonatePhase(all: seq<Def>, s: State, env: Env): (r: Run<State>)
    ensures !r.Crashed? && Within(r, env)
  {
    if !s.donated then Done(s, env)
    else DonateLoop(all, s.(discard := s.discard + s.deck, deck := []), env)
  }

  /** The donation only moves cards from the discard pile to the trash. */
  lemma {:induction false} DonateLoopMoves(all: seq<Def>, s: State, env: Env)
    requires DonateLoop(all, s, env).Done?
    ensures var t := DonateLoop(all, s, env).value;
      |t.discard| + |t.trash| == |s.discard| + |s.trash|
      && multiset(t.discard) + multiset(t.trash) == multiset(s.discard) + multiset(s.trash)
      && t == s.(discard := t.discard, trash := t.trash)
    decreases |env.answers|
  {
    if |s.discard| > 0 {
      var p := AskOrStop(all, s.discard, env, "NONE");
      if p.value.Some? {
        var i := p.value.value;
        var u := TrashCard(s, DiscardZone, i);
        TrashFromDiscard(s, i);
        DonateLoopMoves(all, u, p.env);
      }
    }
  }

  /** Trashing from the discard pile moves one card to the trash. */
  lemma TrashFromDiscard(s: State, i: nat)
    requires i < |s.discard|
    ensures var u := TrashCard(s, DiscardZone, i);
      |u.discard| + |u.trash| == |s.discard| + |s.trash|
      && multiset(u.discard) + multiset(u.trash) == multiset(s.discard) + multiset(s.trash)
      && u == s.(discard := u.discard, trash := u.trash)
  {
    var u := TrashCard(s, DiscardZone, i);
    assert u == s.(discard := RemoveAt(s.discard, i), trash := s.trash + [s.discard[i]]);
    MoveOne(multiset(s.discard), multiset(u.discard), multiset(s.trash), multiset(u.trash), s.discard[i]);
  }

  lemma DonatePhaseConserves(all: seq<Def>, s: State, env: Env)
    requires DonatePhase(all, s, env).Done?
    ensures Conserves(s, DonatePhase(all, s, env).value)
  {
    if !s.donated {
      SameCardsConserve(s, s);
    } else {
      var u := s.(discard := s.discard + s.deck, deck := []);
      var t := DonatePhase(all, s, env).value;
      DonateLoopMoves(all, u, env);
      assert Cards(u) == Cards(s);
      assert Cards(t) == Cards(u) by {
        assert Cards(t) == (multiset(t.discard) + multiset(t.trash)) + (Cards(t) - multiset(t.discard) - multiset(t.trash));
      }
      SameCardsConserve(s, t);
    }
  }

  /** The end of the turn (dominion.ts:851-866): a requested mission turn
      starts if this is not one already, without counting a turn;
      otherwise both flags clear and the turn counts. The flag says
      whether the turn counts. */
  function EndTurn(s: State): (r: (State, bool))
  {
    if s.takeMissionTurn && !s.isMissionTurn then (s.(isMissionTurn := true, takeMissionTurn := false), false)
    else (s.(isMissionTurn := false, takeMissionTurn := false), true)
  }

  /** A mission turn follows exactly a turn that asked for one and was not
      itself a mission turn, and only turns that are not followed by a
      mission turn count. */
  lemma EndTurnSpec(s: State)
    ensures var (t, counts) := EndTurn(s);
      (t.isMissionTurn <==> s.takeMissionTurn && !s.isMissionTurn)
      && (counts <==> !t.isMissionTurn) && !t.takeMissionTurn
      && t == s.(isMissionTurn := t.isMissionTurn, takeMissionTurn := false)
  {
  }

  // ---------------------------------------------------------------------
  // One turn and the game

  /** One pass through the body of `while (true)` after the Province
      check: the state after it and whether it counted as a turn. */
  function Turn(all: seq<Def>, s: State, env: Env): (r: Run<(State, bool)>)
    ensures Within(r, env)
  {
    var (s1, env1) := DrawPhase(ResetTurn(s), env);
    var p2 :- TreasurePhase(all, s1, env1);
    var (s2, env2) := p2;
    var p3 :- PayDebtRun(s2, env2);
    var (s3, env3) := p3;
    var p4 :- BuyLoop(all, s3, env3);
    var (s4, env4) := p4;
    var p5 :- DonatePhase(all, Cleanup(s4), env4);
    var (s5, env5) := p5;
    Done(EndTurn(s5), env5)
  }

  /** The turn's stages, each to the next. */
  lemma TurnStages(all: seq<Def>, s: State, env: Env)
    requires Turn(all, s, env).Done?
    ensures var (s1, env1) := DrawPhase(ResetTurn(s), env);
      var p2 := TreasurePhase(all, s1, env1);
      p2.Done? && PayDebtRun(p2.value, p2.env).Done?
      && var p3 := PayDebtRun(p2.value, p2.env);
      BuyLoop(all, p3.value, p3.env).Done?
      && var p4 := BuyLoop(all, p3.value, p3.env);
      DonatePhase(all, Cleanup(p4.value), p4.env).Done?
      && var p5 := DonatePhase(all, Cleanup(p4.value), p4.env);
      Turn(all, s, env) == Done(EndTurn(p5.value), p5.env)
  {
  }

  /** No card is created or lost in a turn. */
  lemma TurnConserves(all: seq<Def>, s: State, env: Env)
    requires Turn(all, s, env).Done?
    ensures Conserves(s, Turn(all, s, env).value.0)
  {
    TurnStages(all, s, env);
    var r := ResetTurn(s);
    var (s1, env1) := DrawPhase(r, env);
    var p2 := TreasurePhase(all, s1, env1);
    var p3 := PayDebtRun(p2.value, p2.env);
    var p4 := BuyLoop(all, p3.value, p3.env);
    var c := Cleanup(p4.value);
    var p5 := DonatePhase(all, c, p4.env);
    SameCardsConserve(s, r);
    DrawPhaseConserves(r, env);
    ConservesTrans(s, r, s1);
    TreasurePhaseConserves(all, s1, env1);
    ConservesTrans(s, s1, p2.value);
    SameCardsConserve(p2.value, p3.value);
    ConservesTrans(s, p2.value, p3.value);
    BuyLoopConserves(all, p3.value, p3.env);
    ConservesTrans(s, p3.value, p4.value);
    CleanupConserves(p4.value);
    ConservesTrans(s, p4.value, c);
    DonatePhaseConserves(all, c, p4.env);
    ConservesTrans(s, c, p5.value);
    CountersConserve(p5.value, EndTurn(p5.value).0);
    ConservesTrans(s, p5.value, EndTurn(p5.value).0);
  }

  /** A turn ends with an empty hand and nothing in play, and a mission
      turn is never followed by another one and always counts. */
  lemma TurnEnds(all: seq<Def>, s: State, env: Env)
    requires Turn(all, s, env).Done?
    ensures var (t, counts) := Turn(all, s, env).value;
      t.hand == [] && t.play == [] && !t.takeMissionTurn
      && (s.isMissionTurn ==> !t.isMissionTurn && counts)
      && t.supply.Keys == s.supply.Keys
  {
    TurnStages(all, s, env);
    var (s1, env1) := DrawPhase(ResetTurn(s), env);
    var p2 := TreasurePhase(all, s1, env1);
    var p3 := PayDebtRun(p2.value, p2.env);
    var p4 := BuyLoop(all, p3.value, p3.env);
    var c := Cleanup(p4.value);
    BuyLoopKeeps(all, p3.value, p3.env);
    if c.donated {
      DonateLoopMoves(all, c.(discard := c.discard + c.deck, deck := []), p4.env);
    }
  }

  /** How the game stopped: the Province pile ran out, or the bound on
      turns was reached with the game still going. */
  datatype Ending = GameOver(state: State, turn: nat) | StillPlaying(state: State, turn: nat)

  /** The `while (true)` loop of `main` for at most `fuel` passes, starting
      at turn number `turn`; reading the Province pile when there is none
      throws. */
  function Game(all: seq<Def>, s: State, env: Env, turn: nat, fuel: nat): (r: Run<Ending>)
    ensures Within(r, env)
    ensures r.Done? ==> PROVINCE in r.value.state.supply && r.value.turn >= turn
    ensures r.Done? && r.value.GameOver? ==> r.value.state.supply[PROVINCE].supply == 0
    ensures r.Done? ==> Conserves(s, r.value.state)
    decreases fuel
  {
    if PROVINCE !in s.supply then Crashed("TypeError: no supply pile")
    else if s.supply[PROVINCE].supply == 0 || fuel == 0 then
      SameCardsConserve(s, s);
      Done(if s.supply[PROVINCE].supply == 0 then GameOver(s, turn) else StillPlaying(s, turn), env)
    else
      var p :- Turn(all, s, env);
      var ((t, counts), env') := p;
      var r := Game(all, t, env', if counts then turn + 1 else turn, fuel - 1);
      if r.Done? then TurnConserves(all, s, env); ConservesTrans(s, t, r.value.state); r else r
  }

  /** The game stops, before any reset, as soon as the Province pile is
      empty. */
  lemma GameStopsWithoutProvinces(all: seq<Def>, s: State, env: Env, turn: nat, fuel: nat)
    requires PROVINCE in s.supply && s.supply[PROVINCE].supply == 0
    ensures Game(all, s, env, turn, fuel) == Done(GameOver(s, turn), env)
  {
  }
}
