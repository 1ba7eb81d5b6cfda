/** Models card_utils.py: playing-card suits, values and cards with the
    source's own equality and ordering, the 52-card deck, and ANSI colouring.
    Python objects become immutable records; the dunder methods `__eq__`,
    `__lt__` and `__gt__` become predicates, since the source's equality is
    NOT structural (a suit is equal to any suit with the same name). */
module CardUtils {
  import opened Exceptions

  // ---------------------------------------------------------------------
  // Colours (card_utils.py:3-16)

  const DefaultColor: string := "black"
  const ColorCodesEnd: string := "\U{1B}[0m"
  const ColorCodes: map<string, string> := map[
    "red" := "\U{1B}[91m",
    "green" := "\U{1B}[92m",
    "yellow" := "\U{1B}[93m",
    "light_purple" := "\U{1B}[94m",
    "purple" := "\U{1B}[95m"]

  /** `colorize`: wraps the string in the colour's escape codes unless the colour
      is the default one; an unknown colour is a `KeyError`. */
  function Colorize(s: string, color: string): (r: Outcome<string>)
    ensures color == DefaultColor ==> r == Returns(s)
    ensures color != DefaultColor && color in ColorCodes ==>
      r == Returns(ColorCodes[color] + s + ColorCodesEnd)
    ensures r.Raises? <==> color != DefaultColor && color !in ColorCodes
  {
    if color != DefaultColor then
      if color in ColorCodes then Returns(ColorCodes[color] + s + ColorCodesEnd)
      else Raises("KeyError: " + color)
    else Returns(s)
  }

  /** Removes the escape codes a colour added: the left inverse of `Colorize`. */
  function Uncolorize(t: string, color: string): string
  {
    if color != DefaultColor && color in ColorCodes
       && |ColorCodes[color]| + |ColorCodesEnd| <= |t|
    then t[|ColorCodes[color]|..|t| - |ColorCodesEnd|]
    else t
  }

  /** Colouring never loses the text: stripping the codes gives it back. */
  lemma ColorizeRoundTrip(s: string, color: string)
    requires color == DefaultColor || color in ColorCodes
    ensures Colorize(s, color).Returns?
    ensures Uncolorize(Colorize(s, color).value, color) == s
  {
    if color != DefaultColor {
      var t := ColorCodes[color] + s + ColorCodesEnd;
      assert t[|ColorCodes[color]|..|t| - |ColorCodesEnd|] == s;
    }
  }

  // ---------------------------------------------------------------------
  // Suits, values and cards (card_utils.py:18-87)

  datatype CardSuit = CardSuit(suit: string, display: string, color: string, value: int)
  datatype CardValue = CardValue(value: int, display: string)
  datatype Card = Card(suit: CardSuit, value: CardValue)

  /** The `CardSuit` constructor asserts that its colour is known. */
  function MakeSuit(suit: string, display: string, color: string, value: int): (r: Outcome<CardSuit>)
    ensures r.Returns? <==> (color == DefaultColor || color in ColorCodes)
    ensures r.Returns? ==> r.value.suit == suit && r.value.color == color && r.value.value == value
  {
    if color == DefaultColor || color in ColorCodes then Returns(CardSuit(suit, display, color, value))
    else Raises("AssertionError")
  }

  predicate SuitEq(a: CardSuit, b: CardSuit) { a.suit == b.suit }
  predicate SuitLt(a: CardSuit, b: CardSuit) { a.value < b.value }
  predicate SuitGt(a: CardSuit, b: CardSuit) { a.value > b.value }

  predicate ValueEq(a: CardValue, b: CardValue) { a.value == b.value }
  predicate ValueLt(a: CardValue, b: CardValue) { a.value < b.value }
  predicate ValueGt(a: CardValue, b: CardValue) { a.value > b.value }

  /** `Card.__eq__`: same value number and same suit name. */
  predicate CardEq(a: Card, b: Card) { ValueEq(a.value, b.value) && SuitEq(a.suit, b.suit) }

  /** `Card.__lt__`: by value, then by suit rank. */
  predicate CardLt(a: Card, b: Card)
  {
    ValueLt(a.value, b.value) || (ValueEq(a.value, b.value) && SuitLt(a.suit, b.suit))
  }

  /** `Card.__gt__`. */
  predicate CardGt(a: Card, b: Card)
  {
    ValueGt(a.value, b.value) || (ValueEq(a.value, b.value) && SuitGt(a.suit, b.suit))
  }

  /** `__deepcopy__` (and `__copy__`, which calls it) of a card: a fresh card
      built from copies of its suit and value. */
  function DeepCopy(c: Card): (r: Card)
    ensures CardEq(r, c) && !CardLt(r, c) && !CardGt(r, c)
  {
    Card(CardSuit(c.suit.suit, c.suit.display, c.suit.color, c.suit.value),
         CardValue(c.value.value, c.value.display))
  }

  /** `__gt__` is the mirror image of `__lt__`, and `__lt__` is a strict order. */
  lemma CardOrderMirror(a: Card, b: Card, c: Card)
    ensures CardGt(a, b) <==> CardLt(b, a)
    ensures !CardLt(a, a)
    ensures CardLt(a, b) ==> !CardLt(b, a)
    ensures CardLt(a, b) && CardLt(b, c) ==> CardLt(a, c)
  {
  }

  // ---------------------------------------------------------------------
  // The deck (card_utils.py:89-129)

  const Clubs: CardSuit := CardSuit("Clubs", "\U{2667}", "black", 1)
  const Diamonds: CardSuit := CardSuit("Diamonds", "\U{2662}", "red", 2)
  const Hearts: CardSuit := CardSuit("Hearts", "\U{2661}", "red", 3)
  const Spades: CardSuit := CardSuit("Spades", "\U{2664}", "black", 4)

  const Suits: seq<CardSuit> := [Clubs, Diamonds, Hearts, Spades]

  function ValueDisplay(n: int): string
  {
    if n == 1 then "A"
    else if n == 10 then "10"
    else if n == 11 then "J"
    else if n == 12 then "Q"
    else if n == 13 then "K"
    else if 2 <= n <= 9 then ['0' + n as char]
    else ""
  }

  /** `VALUES`: value number 1 (ace) to 13 (king). */
  const Values: map<int, CardValue> := map n | 1 <= n <= 13 :: CardValue(n, ValueDisplay(n))

  /** `DECK`: every suit, and within a suit every value in key order. */
  const Deck: seq<Card> := seq(52, i requires 0 <= i < 52 => Card(Suits[i / 13], Values[i % 13 + 1]))

  /** A card of the deck: one of the four suit objects and one of the value objects. */
  predicate IsDeckCard(c: Card)
  {
    c.suit in Suits && 1 <= c.value.value <= 13 && c.value == Values[c.value.value]
  }

  lemma DivMod13(k: int, r: int)
    requires 0 <= k && 0 <= r < 13
    ensures (13 * k + r) / 13 == k && (13 * k + r) % 13 == r
  {
  }

  /** Position `13 * k + v - 1` of the deck holds value `v` of suit `k`. */
  lemma DeckIndex(k: int, v: int)
    requires 0 <= k < 4 && 1 <= v <= 13
    ensures |Deck| == 52
    ensures Deck[13 * k + v - 1] == Card(Suits[k], Values[v])
  {
    DivMod13(k, v - 1);
  }

  /** The cards of the deck are exactly the deck cards. */
  lemma DeckContents(c: Card)
    ensures c in Deck <==> IsDeckCard(c)
  {
    if IsDeckCard(c) {
      var k :| 0 <= k < 4 && Suits[k] == c.suit;
      var v := c.value.value;
      DeckIndex(k, v);
    }
    if c in Deck {
      var i :| 0 <= i < 52 && Deck[i] == c;
      assert 0 <= i / 13 < 4;
    }
  }

  /** Two deck suits are equal exactly when they are the same suit, and their
      ranks then decide `<` and `>`. */
  lemma DeckSuitsDistinct(a: CardSuit, b: CardSuit)
    requires a in Suits && b in Suits
    ensures SuitEq(a, b) <==> a == b
    ensures SuitEq(a, b) <==> a.value == b.value
  {
  }

  /** The 52 cards of the deck are pairwise unequal under `__eq__`. */
  lemma DeckPairwiseDistinct(i: int, j: int)
    requires 0 <= i < j < 52
    ensures !CardEq(Deck[i], Deck[j])
  {
    assert Deck[i].suit == Suits[i / 13] && Deck[j].suit == Suits[j / 13];
    assert Deck[i].value.value == i % 13 + 1 && Deck[j].value.value == j % 13 + 1;
  }

  /** For two unequal deck cards exactly one of `<` and `>` holds; for equal
      ones neither does. */
  lemma DeckTrichotomy(a: Card, b: Card)
    requires IsDeckCard(a) && IsDeckCard(b)
    ensures CardEq(a, b) <==> a == b
    ensures !CardEq(a, b) ==> (CardLt(a, b) != CardGt(a, b))
    ensures CardEq(a, b) ==> !CardLt(a, b) && !CardGt(a, b)
  {
    DeckSuitsDistinct(a.suit, b.suit);
  }
}
