/** The card and event catalogue of dominion.ts: the `CARDS` and `EVENTS`
    registries filled by `AddCard`/`AddEvent`, the merged registry `ALL`,
    and the prefix parser that turns what the player types into an entry.
    A registry is a JavaScript object keyed by name, so it is modelled as
    the sequence of its entries in insertion order (the order `for ... in`
    visits them), with pairwise distinct names. */
module DominionCatalog {
  import opened Exceptions
  import opened Options

  /** The effect an event runs when bought; one constructor per `AddEvent`. */
  datatype Effect =
    | Borrow | Expedition | Mission | Save | Wedding | Dominate | Tax
    | TravellingFair | Donate | Delve | Bonfire | Windfall | Conquest
    | Triumph | Ritual | SaltTheEarth | Raid | Trade
    | Banquet | Quest | Annex | ScoutingParty | Pilgrimage | Ball

  /** `CardDef` and `EventDef`.  Optional numeric fields that are absent
      read as 0, which the source treats exactly like an explicit 0
      (every use is a truthiness test or an addition after one). */
  datatype Def =
    | CardDef(name: string, cost: int, debt: int, treasure: int, victory: int)
    | EventDef(name: string, cost: int, debt: int, effect: Effect)

  const COPPER := "COPPER"
  const SILVER := "SILVER"
  const GOLD := "GOLD"
  const ESTATE := "ESTATE"
  const DUCHY := "DUCHY"
  const PROVINCE := "PROVINCE"
  const CURSE := "CURSE"

  /** The seven `AddCard` calls, in order. */
  const CARDS: seq<Def> := [
    CardDef(COPPER, 0, 0, 1, 0),
    CardDef(SILVER, 3, 0, 2, 0),
    CardDef(GOLD, 6, 0, 3, 0),
    CardDef(ESTATE, 2, 0, 0, 1),
    CardDef(DUCHY, 5, 0, 0, 3),
    CardDef(PROVINCE, 8, 0, 0, 6),
    CardDef(CURSE, 0, 0, 0, 0)
  ]

  /** The twenty-four `AddEvent` calls, in order, six to a block. */
  const EVENTS_1: seq<Def> := [
    EventDef("BORROW", 0, 0, Borrow),
    EventDef("EXPEDITION", 3, 0, Expedition),
    EventDef("MISSION", 4, 0, Mission),
    EventDef("SAVE", 1, 0, Save),
    EventDef("WEDDING", 4, 3, Wedding),
    EventDef("DOMINATE", 14, 0, Dominate)
  ]

  const EVENTS_2: seq<Def> := [
    EventDef("TAX", 2, 0, Tax),
    EventDef("TRAVELLING_FAIR", 2, 0, TravellingFair),
    EventDef("DONATE", 0, 8, Donate),
    EventDef("DELVE", 2, 0, Delve),
    EventDef("BONFIRE", 3, 0, Bonfire),
    EventDef("WINDFALL", 5, 0, Windfall)
  ]

  const EVENTS_3: seq<Def> := [
    EventDef("CONQUEST", 6, 0, Conquest),
    EventDef("TRIUMPH", 0, 5, Triumph),
    EventDef("RITUAL", 4, 0, Ritual),
    EventDef("SALT_THE_EARTH", 4, 0, SaltTheEarth),
    EventDef("RAID", 5, 0, Raid),
    EventDef("TRADE", 5, 0, Trade)
  ]

  const EVENTS_4: seq<Def> := [
    EventDef("BANQUET", 3, 0, Banquet),
    EventDef("QUEST", 0, 0, Quest),
    EventDef("ANNEX", 0, 8, Annex),
    EventDef("SCOUTING_PARTY", 2, 0, ScoutingParty),
    EventDef("PILGRIMAGE", 4, 0, Pilgrimage),
    EventDef("BALL", 5, 0, Ball)
  ]

  const EVENTS: seq<Def> := (EVENTS_1 + EVENTS_2) + (EVENTS_3 + EVENTS_4)

  predicate DistinctNames(defs: seq<Def>)
  {
    forall i, j :: 0 <= i < j < |defs| ==> defs[i].name != defs[j].name
  }

  /** Some entry of `defs` is called `name`: `reg[name]` is truthy. */
  predicate Named(defs: seq<Def>, name: string)
  {
    exists i :: 0 <= i < |defs| && defs[i].name == name
  }

  // ---------------------------------------------------------------------
  // AddCard / AddEvent

  /** The position of the entry called `name`, or `|defs|` when there is none. */
  function IndexOfName(defs: seq<Def>, name: string): (k: nat)
    ensures k <= |defs|
    ensures k < |defs| ==> defs[k].name == name
    ensures forall i :: 0 <= i < k ==> defs[i].name != name
  {
    if |defs| == 0 then 0
    else if defs[0].name == name then 0
    else 1 + IndexOfName(defs[1..], name)
  }

  /** `REG[def.name] = def`: a new name is appended, a known one has its
      entry replaced in place. */
  function Register(reg: seq<Def>, d: Def): (r: seq<Def>)
    requires DistinctNames(reg)
    ensures DistinctNames(r) && Named(r, d.name)
  {
    var k := IndexOfName(reg, d.name);
    if k < |reg| then
      ReplaceNamed(reg, k, d);
      reg[k := d]
    else
      AppendFresh(reg, d);
      reg + [d]
  }

  lemma ReplaceNamed(reg: seq<Def>, k: nat, d: Def)
    requires DistinctNames(reg) && k < |reg| && reg[k].name == d.name
    ensures DistinctNames(reg[k := d]) && Named(reg[k := d], d.name)
  {
    var r := reg[k := d];
    assert r[k] == d;
    forall i, j | 0 <= i < j < |r|
      ensures r[i].name != r[j].name
    {
      assert r[i].name == reg[i].name && r[j].name == reg[j].name;
    }
  }

  lemma AppendFresh(reg: seq<Def>, d: Def)
    requires DistinctNames(reg) && IndexOfName(reg, d.name) == |reg|
    ensures DistinctNames(reg + [d]) && Named(reg + [d], d.name)
  {
    var r := reg + [d];
    assert r[|reg|] == d;
    forall i, j | 0 <= i < j < |r|
      ensures r[i].name != r[j].name
    {
      assert r[i] == reg[i];
    }
  }

  /** Registering keeps one entry per name: the new one under its name,
      every other entry as it was. */
  lemma RegisterSpec(reg: seq<Def>, d: Def)
    requires DistinctNames(reg)
    ensures forall x :: x in Register(reg, d) <==> x == d || (x in reg && x.name != d.name)
    ensures !Named(reg, d.name) ==> Register(reg, d) == reg + [d]
    ensures Named(reg, d.name) ==> |Register(reg, d)| == |reg|
  {
    var k := IndexOfName(reg, d.name);
    var r := Register(reg, d);
    if k < |reg| {
      forall x
        ensures x in r <==> x == d || (x in reg && x.name != d.name)
      {
        if x in reg && x.name != d.name {
          var i :| 0 <= i < |reg| && reg[i] == x;
          assert r[i] == x;
        }
      }
    }
  }

  /** A run of `AddCard` (or `AddEvent`) calls. */
  function RegisterAll(reg: seq<Def>, defs: seq<Def>): (r: seq<Def>)
    requires DistinctNames(reg)
    ensures DistinctNames(r)
    decreases |defs|
  {
    if |defs| == 0 then reg else RegisterAll(Register(reg, defs[0]), defs[1..])
  }

  /** Registering fresh, distinct names one after another lists them in
      call order. */
  lemma {:induction false} RegisterAllFresh(reg: seq<Def>, defs: seq<Def>)
    requires DistinctNames(reg + defs)
    ensures DistinctNames(reg)
    ensures RegisterAll(reg, defs) == reg + defs
    decreases |defs|
  {
    assert forall i, j :: 0 <= i < j < |reg| ==> (reg + defs)[i] == reg[i] && (reg + defs)[j] == reg[j];
    if |defs| > 0 {
      var d := defs[0];
      assert !Named(reg, d.name) by {
        forall i | 0 <= i < |reg|
          ensures reg[i].name != d.name
        {
          assert (reg + defs)[i] == reg[i] && (reg + defs)[|reg|] == d;
        }
      }
      assert (reg + [d]) + defs[1..] == reg + defs;
      RegisterAllFresh(reg + [d], defs[1..]);
    }
  }

  /** The names of `defs`, in order. */
  function NamesOf(defs: seq<Def>): (r: seq<string>)
    ensures |r| == |defs| && forall i :: 0 <= i < |defs| ==> r[i] == defs[i].name
  {
    if |defs| == 0 then [] else [defs[0].name] + NamesOf(defs[1..])
  }

  const CARD_NAMES: seq<string> := ["COPPER", "SILVER", "GOLD", "ESTATE", "DUCHY", "PROVINCE", "CURSE"]
  const EVENT_NAMES_1: seq<string> := ["BORROW", "EXPEDITION", "MISSION", "SAVE", "WEDDING", "DOMINATE"]
  const EVENT_NAMES_2: seq<string> := ["TAX", "TRAVELLING_FAIR", "DONATE", "DELVE", "BONFIRE", "WINDFALL"]
  const EVENT_NAMES_3: seq<string> := ["CONQUEST", "TRIUMPH", "RITUAL", "SALT_THE_EARTH", "RAID", "TRADE"]
  const EVENT_NAMES_4: seq<string> := ["BANQUET", "QUEST", "ANNEX", "SCOUTING_PARTY", "PILGRIMAGE", "BALL"]

  predicate Distinct(names: seq<string>)
  {
    forall i, j :: 0 <= i < j < |names| ==> names[i] != names[j]
  }

  /** No name of `a` is a name of `b`. */
  predicate Apart(a: seq<string>, b: seq<string>)
  {
    forall i, j :: 0 <= i < |a| && 0 <= j < |b| ==> a[i] != b[j]
  }

  lemma EventNames1()
    ensures NamesOf(EVENTS_1) == EVENT_NAMES_1
  {
  }

  lemma EventNames2()
    ensures NamesOf(EVENTS_2) == EVENT_NAMES_2
  {
  }

  lemma EventNames3()
    ensures NamesOf(EVENTS_3) == EVENT_NAMES_3
  {
  }

  lemma EventNames4()
    ensures NamesOf(EVENTS_4) == EVENT_NAMES_4
  {
  }

  lemma CardNames()
    ensures NamesOf(CARDS) == CARD_NAMES
  {
  }

  lemma CatalogueNames()
    ensures NamesOf(CARDS + EVENTS) == CARD_NAMES + ((EVENT_NAMES_1 + EVENT_NAMES_2) + (EVENT_NAMES_3 + EVENT_NAMES_4))
  {
    CardNames();
    EventNames1();
    EventNames2();
    EventNames3();
    EventNames4();
    NamesOfAppend(EVENTS_1, EVENTS_2);
    NamesOfAppend(EVENTS_3, EVENTS_4);
    NamesOfAppend(EVENTS_1 + EVENTS_2, EVENTS_3 + EVENTS_4);
    NamesOfAppend(CARDS, EVENTS);
  }

  // Each group of names is distinct and apart from every other group.

  lemma CardNamesDistinct()
    ensures Distinct(CARD_NAMES)
  {
  }

  lemma EventNamesDistinct()
    ensures Distinct(EVENT_NAMES_1) && Distinct(EVENT_NAMES_2)
    ensures Distinct(EVENT_NAMES_3) && Distinct(EVENT_NAMES_4)
  {
  }

  lemma CardsApartFromEvents12()
    ensures Apart(CARD_NAMES, EVENT_NAMES_1) && Apart(CARD_NAMES, EVENT_NAMES_2)
  {
  }

  lemma CardsApartFromEvents34()
    ensures Apart(CARD_NAMES, EVENT_NAMES_3) && Apart(CARD_NAMES, EVENT_NAMES_4)
  {
  }

  lemma Events1Apart()
    ensures Apart(EVENT_NAMES_1, EVENT_NAMES_2) && Apart(EVENT_NAMES_1, EVENT_NAMES_3) && Apart(EVENT_NAMES_1, EVENT_NAMES_4)
  {
  }

  lemma Events2Apart()
    ensures Apart(EVENT_NAMES_2, EVENT_NAMES_3) && Apart(EVENT_NAMES_2, EVENT_NAMES_4)
  {
  }

  lemma Events3Apart()
    ensures Apart(EVENT_NAMES_3, EVENT_NAMES_4)
  {
  }

  lemma DistinctAppend(a: seq<string>, b: seq<string>)
    requires Distinct(a) && Distinct(b) && Apart(a, b)
    ensures Distinct(a + b)
  {
    forall i, j | 0 <= i < j < |a + b|
      ensures (a + b)[i] != (a + b)[j]
    {
      if j < |a| {
        assert (a + b)[i] == a[i] && (a + b)[j] == a[j];
      } else if i < |a| {
        assert (a + b)[i] == a[i] && (a + b)[j] == b[j - |a|];
      } else {
        assert (a + b)[i] == b[i - |a|] && (a + b)[j] == b[j - |a|];
      }
    }
  }

  lemma ApartAppendLeft(a: seq<string>, b: seq<string>, c: seq<string>)
    requires Apart(a, c) && Apart(b, c)
    ensures Apart(a + b, c)
  {
    forall i, j | 0 <= i < |a + b| && 0 <= j < |c|
      ensures (a + b)[i] != c[j]
    {
      if i < |a| {
        assert (a + b)[i] == a[i];
      } else {
        assert (a + b)[i] == b[i - |a|];
      }
    }
  }

  lemma ApartAppendRight(a: seq<string>, b: seq<string>, c: seq<string>)
    requires Apart(a, b) && Apart(a, c)
    ensures Apart(a, b + c)
  {
    forall i, j | 0 <= i < |a| && 0 <= j < |b + c|
      ensures a[i] != (b + c)[j]
    {
      if j < |b| {
        assert (b + c)[j] == b[j];
      } else {
        assert (b + c)[j] == c[j - |b|];
      }
    }
  }

  /** Different names, different entries. */
  lemma DistinctNamesOf(defs: seq<Def>)
    requires Distinct(NamesOf(defs))
    ensures DistinctNames(defs)
  {
    var names := NamesOf(defs);
    forall i, j | 0 <= i < j < |defs|
      ensures defs[i].name != defs[j].name
    {
      assert names[i] != names[j];
    }
  }

  /** No two catalogue entries share a name. */
  lemma CatalogueDistinct()
    ensures DistinctNames(CARDS + EVENTS)
  {
    var c, e1, e2, e3, e4 := CARD_NAMES, EVENT_NAMES_1, EVENT_NAMES_2, EVENT_NAMES_3, EVENT_NAMES_4;
    CardNamesDistinct();
    EventNamesDistinct();
    CardsApartFromEvents12();
    CardsApartFromEvents34();
    Events1Apart();
    Events2Apart();
    Events3Apart();
    DistinctAppend(e1, e2);
    DistinctAppend(e3, e4);
    ApartAppendRight(e1, e3, e4);
    ApartAppendRight(e2, e3, e4);
    ApartAppendLeft(e1, e2, e3 + e4);
    DistinctAppend(e1 + e2, e3 + e4);
    ApartAppendRight(c, e1, e2);
    ApartAppendRight(c, e3, e4);
    ApartAppendRight(c, e1 + e2, e3 + e4);
    DistinctAppend(c, (e1 + e2) + (e3 + e4));
    CatalogueNames();
    DistinctNamesOf(CARDS + EVENTS);
  }

  lemma {:induction false} NamesOfAppend(a: seq<Def>, b: seq<Def>)
    ensures NamesOf(a + b) == NamesOf(a) + NamesOf(b)
  {
    if |a| > 0 {
      assert (a + b)[1..] == a[1..] + b;
      NamesOfAppend(a[1..], b);
    } else {
      assert a + b == b;
    }
  }

  lemma DistinctSplit(a: seq<Def>, b: seq<Def>)
    requires DistinctNames(a + b)
    ensures DistinctNames(a) && DistinctNames(b)
    ensures forall i, j :: 0 <= i < |a| && 0 <= j < |b| ==> a[i].name != b[j].name
  {
    forall i, j | 0 <= i < |a| && 0 <= j < |b|
      ensures a[i].name != b[j].name
    {
      assert (a + b)[i] == a[i] && (a + b)[|a| + j] == b[j];
    }
    forall i, j | 0 <= i < j < |a|
      ensures a[i].name != a[j].name
    {
      assert (a + b)[i] == a[i] && (a + b)[j] == a[j];
    }
    forall i, j | 0 <= i < j < |b|
      ensures b[i].name != b[j].name
    {
      assert (a + b)[|a| + i] == b[i] && (a + b)[|a| + j] == b[j];
    }
  }

  /** The registries as the `AddCard`/`AddEvent` calls leave them. */
  lemma RegistriesBuilt()
    ensures RegisterAll([], CARDS) == CARDS
    ensures RegisterAll([], EVENTS) == EVENTS
  {
    CatalogueDistinct();
    DistinctSplit(CARDS, EVENTS);
    assert [] + CARDS == CARDS && [] + EVENTS == EVENTS;
    RegisterAllFresh([], CARDS);
    RegisterAllFresh([], EVENTS);
  }

  // ---------------------------------------------------------------------
  // ALL

  /** One of the two `for (const name in ...)` loops filling `ALL`: a name
      already present throws. */
  function Merge(all: seq<Def>, defs: seq<Def>): (r: Outcome<seq<Def>>)
    decreases |defs|
  {
    if |defs| == 0 then Returns(all)
    else if Named(all, defs[0].name) then Raises("Multiple cards/events with name")
    else Merge(all + [defs[0]], defs[1..])
  }

  /** `ALL`, built from the card registry and then the event registry. */
  function BuildAll(cards: seq<Def>, events: seq<Def>): Outcome<seq<Def>>
  {
    match Merge([], cards)
    case Raises(e) => Raises(e)
    case Returns(all) => Merge(all, events)
  }

  lemma {:induction false} MergeSpec(all: seq<Def>, defs: seq<Def>)
    requires DistinctNames(all)
    ensures Merge(all, defs).Returns? <==> DistinctNames(all + defs)
    ensures Merge(all, defs).Returns? ==> Merge(all, defs).value == all + defs
    decreases |defs|
  {
    if |defs| > 0 {
      var d := defs[0];
      assert (all + [d]) + defs[1..] == all + defs;
      if Named(all, d.name) {
        var i :| 0 <= i < |all| && all[i].name == d.name;
        assert (all + defs)[i] == all[i] && (all + defs)[|all|] == d;
      } else {
        assert DistinctNames(all + [d]);
        MergeSpec(all + [d], defs[1..]);
      }
    } else {
      assert all + defs == all;
    }
  }

  /** Building `ALL` from two registries throws exactly when a card and an
      event share a name; otherwise `ALL` lists the cards, then the events. */
  lemma BuildAllSpec(cards: seq<Def>, events: seq<Def>)
    requires DistinctNames(cards) && DistinctNames(events)
    ensures BuildAll(cards, events).Raises? <==>
      exists i, j :: 0 <= i < |cards| && 0 <= j < |events| && cards[i].name == events[j].name
    ensures BuildAll(cards, events).Returns? ==> BuildAll(cards, events).value == cards + events
  {
    assert DistinctNames([]);
    MergeSpec([], cards);
    assert [] + cards == cards;
    MergeSpec(cards, events);
    if exists i, j :: 0 <= i < |cards| && 0 <= j < |events| && cards[i].name == events[j].name {
      var i, j :| 0 <= i < |cards| && 0 <= j < |events| && cards[i].name == events[j].name;
      CrossCollision(cards, events, i, j);
    } else {
      CrossDistinct(cards, events);
    }
  }

  lemma CrossCollision(cards: seq<Def>, events: seq<Def>, i: nat, j: nat)
    requires i < |cards| && j < |events| && cards[i].name == events[j].name
    ensures !DistinctNames(cards + events)
  {
    assert (cards + events)[i] == cards[i] && (cards + events)[|cards| + j] == events[j];
  }

  lemma CrossDistinct(cards: seq<Def>, events: seq<Def>)
    requires DistinctNames(cards) && DistinctNames(events)
    requires forall i, j :: 0 <= i < |cards| && 0 <= j < |events| ==> cards[i].name != events[j].name
    ensures DistinctNames(cards + events)
  {
    forall i, j | 0 <= i < j < |cards + events|
      ensures (cards + events)[i].name != (cards + events)[j].name
    {
      if j < |cards| {
      } else if i >= |cards| {
        assert (cards + events)[i] == events[i - |cards|];
      } else {
        assert (cards + events)[j] == events[j - |cards|];
      }
    }
  }

  /** The catalogue as shipped: no card shares a name with an event. */
  const ALL: seq<Def> := CARDS + EVENTS

  lemma AllBuilds()
    ensures BuildAll(CARDS, EVENTS) == Returns(ALL)
    ensures DistinctNames(ALL)
  {
    CatalogueDistinct();
    DistinctSplit(CARDS, EVENTS);
    BuildAllSpec(CARDS, EVENTS);
  }

  // ---------------------------------------------------------------------
  // parseCardOrEvent / parseCard

  /** `toUpperCase` on the ASCII letters; every other character is kept. */
  function Upper(s: string): (r: string)
    ensures |r| == |s|
    ensures forall i :: 0 <= i < |s| ==> r[i] == UpperChar(s[i])
  {
    if |s| == 0 then [] else [UpperChar(s[0])] + Upper(s[1..])
  }

  function UpperChar(c: char): char
  {
    if 'a' <= c <= 'z' then (c as int - 32) as char else c
  }

  predicate StartsWith(name: string, prefix: string)
  {
    |prefix| <= |name| && name[..|prefix|] == prefix
  }

  /** `possibilities`: the entries whose name starts with `prefix`, in
      registry order. */
  function Possibilities(all: seq<Def>, prefix: string): (r: seq<Def>)
    ensures forall d :: d in r <==> d in all && StartsWith(d.name, prefix)
    ensures |r| <= |all|
  {
    if |all| == 0 then []
    else (if StartsWith(all[0].name, prefix) then [all[0]] else []) + Possibilities(all[1..], prefix)
  }

  /** `parseCardOrEvent(cardStr)` over the registry `all`. */
  function ParseCardOrEvent(all: seq<Def>, cardStr: string): (r: Option<Def>)
    ensures r.Some? ==> r.value in all && StartsWith(r.value.name, Upper(cardStr))
  {
    var p := Possibilities(all, Upper(cardStr));
    if |p| == 1 then Some(p[0]) else None
  }

  lemma {:induction false} PossibilitiesCount(all: seq<Def>, prefix: string, d: Def)
    requires DistinctNames(all) && d in all && StartsWith(d.name, prefix)
    requires forall e :: e in all && StartsWith(e.name, prefix) ==> e == d
    ensures Possibilities(all, prefix) == [d]
  {
    if all[0] == d {
      assert d !in all[1..] by {
        forall i | 0 <= i < |all| - 1
          ensures all[1..][i] != d
        {
          assert all[1..][i] == all[i + 1];
        }
      }
      NoneMatch(all[1..], prefix);
    } else {
      assert forall e :: e in all[1..] ==> e in all;
      PossibilitiesCount(all[1..], prefix, d);
    }
  }

  lemma {:induction false} NoneMatch(all: seq<Def>, prefix: string)
    requires forall e :: e in all ==> !StartsWith(e.name, prefix)
    ensures Possibilities(all, prefix) == []
  {
    if |all| > 0 {
      assert forall e :: e in all[1..] ==> e in all;
      NoneMatch(all[1..], prefix);
    }
  }

  /** The entry that alone matches `prefix`. */
  predicate OnlyMatch(all: seq<Def>, prefix: string, d: Def)
  {
    d in all && StartsWith(d.name, prefix)
    && forall e :: e in all && StartsWith(e.name, prefix) ==> e == d
  }

  /** An entry comes back exactly when one registered name starts with the
      upper-cased input, and then it is that entry. */
  lemma ParseSpec(all: seq<Def>, cardStr: string)
    requires DistinctNames(all)
    ensures forall d :: OnlyMatch(all, Upper(cardStr), d) ==> ParseCardOrEvent(all, cardStr) == Some(d)
    ensures ParseCardOrEvent(all, cardStr).Some? ==> OnlyMatch(all, Upper(cardStr), ParseCardOrEvent(all, cardStr).value)
  {
    var u := Upper(cardStr);
    var p := Possibilities(all, u);
    forall d | OnlyMatch(all, u, d)
      ensures ParseCardOrEvent(all, cardStr) == Some(d)
    {
      PossibilitiesCount(all, u, d);
    }
    if |p| == 1 {
      OnlyOne(all, u, p);
    }
  }

  lemma OnlyOne(all: seq<Def>, prefix: string, p: seq<Def>)
    requires p == Possibilities(all, prefix) && |p| == 1
    ensures OnlyMatch(all, prefix, p[0])
  {
    assert p[0] in p;
    forall e | e in all && StartsWith(e.name, prefix)
      ensures e == p[0]
    {
      assert e in p;
    }
  }

  /** `parseCard(cardStr)`: as above, but an event reads as null. */
  function ParseCard(all: seq<Def>, cardStr: string): (r: Option<Def>)
    ensures r.Some? <==> ParseCardOrEvent(all, cardStr).Some? && ParseCardOrEvent(all, cardStr).value.CardDef?
    ensures r.Some? ==> r == ParseCardOrEvent(all, cardStr)
  {
    match ParseCardOrEvent(all, cardStr)
    case None => None
    case Some(d) => if d.EventDef? then None else Some(d)
  }

  /** The whole name, in any letter case, reads as its entry when no other
      name extends it. */
  lemma FullNameParses(all: seq<Def>, d: Def, typed: string)
    requires DistinctNames(all) && d in all && Upper(typed) == d.name
    requires forall e :: e in all && e != d ==> !StartsWith(e.name, d.name)
    ensures ParseCardOrEvent(all, typed) == Some(d)
  {
    assert StartsWith(d.name, d.name) by {
      assert d.name[..|d.name|] == d.name;
    }
    PossibilitiesCount(all, Upper(typed), d);
  }

  /** The empty answer is a prefix of every name and so never resolves
      once two entries are registered. */
  lemma EmptyAnswerAmbiguous(all: seq<Def>)
    requires DistinctNames(all) && |all| >= 2
    ensures ParseCardOrEvent(all, "") == None
  {
    assert all[0] != all[1];
    assert StartsWith(all[0].name, "") && StartsWith(all[1].name, "");
    assert Upper("") == "";
    ParseSpec(all, "");
  }

  /** The entry of `defs` called `name`, if any: a lookup by key. */
  function Lookup(defs: seq<Def>, name: string): Option<Def>
  {
    if |defs| == 0 then None
    else if defs[0].name == name then Some(defs[0])
    else Lookup(defs[1..], name)
  }

  /** A lookup finds an entry of `defs` of the name asked for, and among
      distinct names it finds exactly the entry so called. */
  lemma {:induction false} LookupSpec(defs: seq<Def>, name: string)
    ensures Lookup(defs, name).Some? ==> Lookup(defs, name).value in defs && Lookup(defs, name).value.name == name
    ensures Lookup(defs, name).None? <==> forall d :: d in defs ==> d.name != name
    ensures DistinctNames(defs) ==> forall d :: d in defs && d.name == name ==> Lookup(defs, name) == Some(d)
  {
    if |defs| > 0 {
      assert forall d :: d in defs[1..] ==> d in defs;
      assert forall i :: 0 < i < |defs| ==> defs[i] in defs[1..] by {
        forall i | 0 < i < |defs| ensures defs[i] in defs[1..] { assert defs[i] == defs[1..][i - 1]; }
      }
      LookupSpec(defs[1..], name);
    }
  }

  lemma CardsAreCards()
    ensures forall d :: d in CARDS ==> d.CardDef?
  {
  }

  /** The card of a name: `CARDS[name]`. */
  function CardNamed(name: string): (r: Option<Def>)
    ensures r.Some? ==> r.value.name == name && r.value.CardDef?
  {
    CardsAreCards();
    LookupSpec(CARDS, name);
    Lookup(CARDS, name)
  }

  predicate IsCardName(name: string)
  {
    CardNamed(name).Some?
  }

  /** The treasure value of a card name. */
  function TreasureOf(name: string): int
    requires IsCardName(name)
  {
    CardNamed(name).value.treasure
  }

  /** The victory value of a card name. */
  function VictoryOf(name: string): int
    requires IsCardName(name)
  {
    CardNamed(name).value.victory
  }

  /** Costs, debts and card values are never negative. */
  predicate NonNegative(d: Def)
  {
    d.cost >= 0 && d.debt >= 0 && (d.CardDef? ==> d.treasure >= 0 && d.victory >= 0)
  }

  /** `NonNegative` for every entry of `defs`. */
  predicate AllNonNegative(defs: seq<Def>)
  {
    forall d :: d in defs ==> NonNegative(d)
  }

  lemma EventsNonNegative1()
    ensures AllNonNegative(EVENTS_1)
  {
  }

  lemma EventsNonNegative2()
    ensures AllNonNegative(EVENTS_2)
  {
  }

  lemma EventsNonNegative3()
    ensures AllNonNegative(EVENTS_3)
  {
  }

  lemma EventsNonNegative4()
    ensures AllNonNegative(EVENTS_4)
  {
  }

  lemma CardsDistinct()
    ensures DistinctNames(CARDS)
  {
    CatalogueDistinct();
    DistinctNamesPrefix(CARDS, EVENTS);
  }

  lemma DistinctNamesPrefix(a: seq<Def>, b: seq<Def>)
    requires DistinctNames(a + b)
    ensures DistinctNames(a)
  {
    forall i, j | 0 <= i < j < |a|
      ensures a[i].name != a[j].name
    {
      assert a[i] == (a + b)[i] && a[j] == (a + b)[j];
    }
  }

  /** Every card of the catalogue is found under its own name. */
  lemma CardsNamed(d: Def)
    requires d in CARDS
    ensures IsCardName(d.name) && CardNamed(d.name) == Some(d)
  {
    CardsDistinct();
    LookupSpec(CARDS, d.name);
  }

  /** A card's treasure and victory values are never negative. */
  lemma CardValuesNonNegative(name: string)
    requires IsCardName(name)
    ensures TreasureOf(name) >= 0 && VictoryOf(name) >= 0
  {
    LookupSpec(CARDS, name);
    CatalogueNonNegative(CardNamed(name).value);
  }

  lemma EventNonNegative(d: Def)
    requires d in EVENTS
    ensures NonNegative(d)
  {
    EventsNonNegative1();
    EventsNonNegative2();
    EventsNonNegative3();
    EventsNonNegative4();
  }

  /** Every entry of `ALL` has non-negative numbers, and every card in it
      is a card name. */
  lemma CatalogueNonNegative(d: Def)
    requires d in ALL
    ensures NonNegative(d)
    ensures d.CardDef? ==> IsCardName(d.name)
  {
    InAppend(d, CARDS, EVENTS);
    if d in CARDS {
      CardsNonNegative();
      CardsNamed(d);
    } else {
      EventNonNegative(d);
    }
  }

  lemma CardsNonNegative()
    ensures AllNonNegative(CARDS)
  {
  }

  lemma InAppend<T>(x: T, a: seq<T>, b: seq<T>)
    requires x in a + b
    ensures x in a || x in b
  {
  }
}
