/** Text forms of card ranks shared by game_simulator.py and
    8c4/game_simulator.py: Python 2's `int()` on a string, the decimal
    spelling of an integer, and `string_to_card`, which tries `int()` first
    and falls back to a rank table. */
module CardText {
  import opened Exceptions
  import opened Options

  // ---------------------------------------------------------------------
  // int(s) on a byte string, base 10

  /** The characters `int()` strips around its argument. */
  predicate IsSpace(c: char)
  {
    c == ' ' || c == '\t' || c == '\n' || c == '\r' || c == '\U{B}' || c == '\U{C}'
  }

  predicate IsDigit(c: char)
  {
    '0' <= c <= '9'
  }

  predicate AllDigits(s: string)
  {
    forall i :: 0 <= i < |s| ==> IsDigit(s[i])
  }

  /** The value of a run of decimal digits, most significant first. */
  function DigitsValue(s: string): (n: nat)
    requires AllDigits(s)
  {
    if |s| == 0 then 0
    else DigitsValue(s[..|s| - 1]) * 10 + (s[|s| - 1] - '0') as int
  }

  /** Drops leading characters that `IsSpace`. */
  function TrimStart(s: string): (r: string)
    ensures |r| <= |s| && r == s[|s| - |r|..]
    ensures |r| > 0 ==> !IsSpace(r[0])
    ensures forall i :: 0 <= i < |s| - |r| ==> IsSpace(s[i])
  {
    if |s| > 0 && IsSpace(s[0]) then TrimStart(s[1..]) else s
  }

  /** Drops trailing characters that `IsSpace`. */
  function TrimEnd(s: string): (r: string)
    ensures |r| <= |s| && r == s[..|r|]
    ensures |r| > 0 ==> !IsSpace(r[|r| - 1])
    ensures forall i :: |r| <= i < |s| ==> IsSpace(s[i])
  {
    if |s| > 0 && IsSpace(s[|s| - 1]) then TrimEnd(s[..|s| - 1]) else s
  }

  /** A signed literal once the surrounding space is gone: an optional
      `+` or `-`, then at least one digit.  Python 2's `int()` also skips
      space between the sign and the digits, so "- 5" reads as -5. */
  function ParseSigned(t: string): (r: Option<int>)
    ensures r.Some? <==> (|t| > 0 && (t[0] == '+' || t[0] == '-')
                          && |TrimStart(t[1..])| > 0 && AllDigits(TrimStart(t[1..])))
                         || (|t| > 0 && AllDigits(t))
    ensures r.Some? && t[0] == '-' ==> r.value <= 0
    ensures r.Some? && t[0] != '-' ==> r.value >= 0
  {
    if |t| == 0 then None
    else if t[0] == '-' || t[0] == '+' then AfterSign(t[0] == '-', t[1..])
    else if AllDigits(t) then Some(DigitsValue(t))
    else None
  }

  /** What follows a sign: optional space, then at least one digit. */
  function AfterSign(negative: bool, rest: string): (r: Option<int>)
    ensures r.Some? <==> |TrimStart(rest)| > 0 && AllDigits(TrimStart(rest))
    ensures r.Some? && negative ==> r.value <= 0
    ensures r.Some? && !negative ==> r.value >= 0
  {
    var digits := TrimStart(rest);
    if |digits| > 0 && AllDigits(digits) then
      Some(if negative then 0 - DigitsValue(digits) else DigitsValue(digits))
    else None
  }

  /** `int(s)`: `None` stands for the `ValueError` it raises. */
  function ParseInt(s: string): (r: Option<int>)
    ensures r.Some? ==> exists i :: 0 <= i < |s| && IsDigit(s[i])
  {
    ParseSigned(TrimEnd(TrimStart(s)))
  }

  // ---------------------------------------------------------------------
  // Decimal spelling

  function DigitChar(d: int): (c: char)
    requires 0 <= d <= 9
    ensures IsDigit(c) && (c - '0') as int == d
  {
    (d + '0' as int) as char
  }

  /** The digits of a natural number, without leading zeros. */
  function NatString(n: nat): (s: string)
    ensures |s| > 0 && AllDigits(s)
    ensures |s| > 1 ==> s[0] != '0'
  {
    if n < 10 then [DigitChar(n)] else NatString(n / 10) + [DigitChar(n % 10)]
  }

  /** `str(n)` for an integer. */
  function DecimalString(n: int): (s: string)
    ensures |s| > 0
  {
    if n < 0 then "-" + NatString(-n) else NatString(n)
  }

  lemma {:induction false} NatStringValue(n: nat)
    ensures DigitsValue(NatString(n)) == n
  {
    var s := NatString(n);
    if n >= 10 {
      NatStringValue(n / 10);
      assert s[..|s| - 1] == NatString(n / 10);
    }
  }

  /** A string already free of surrounding space is left as it is. */
  lemma TrimNothing(s: string)
    requires |s| > 0 && !IsSpace(s[0]) && !IsSpace(s[|s| - 1])
    ensures TrimEnd(TrimStart(s)) == s
  {
  }

  lemma ParseDigits(digits: string)
    requires |digits| > 0 && AllDigits(digits)
    ensures ParseSigned(digits) == Some(DigitsValue(digits))
    ensures ParseSigned("-" + digits) == Some(0 - DigitsValue(digits))
  {
    DropHead('-', digits);
    assert "-" + digits == ['-'] + digits;
    assert TrimStart(digits) == digits;
    AfterSignReads(true, digits, digits);
  }

  /** `TrimStart` drops exactly a leading run of space. */
  lemma {:induction false} TrimSpaces(spaces: string, rest: string)
    requires forall i :: 0 <= i < |spaces| ==> IsSpace(spaces[i])
    requires |rest| > 0 && !IsSpace(rest[0])
    ensures TrimStart(spaces + rest) == rest
  {
    if |spaces| > 0 {
      assert (spaces + rest)[1..] == spaces[1..] + rest;
      TrimSpaces(spaces[1..], rest);
    }
  }

  /** Space between the sign and the digits is skipped: `int("- 5")` is
      -5 and `int("+ 5")` is 5. */
  lemma SpaceAfterSign(sign: char, spaces: string, digits: string)
    requires sign == '-' || sign == '+'
    requires forall i :: 0 <= i < |spaces| ==> IsSpace(spaces[i])
    requires |digits| > 0 && AllDigits(digits)
    ensures ParseSigned([sign] + spaces + digits)
      == Some(if sign == '-' then 0 - DigitsValue(digits) else DigitsValue(digits))
  {
    var t := [sign] + (spaces + digits);
    DropHead(sign, spaces + digits);
    assert [sign] + spaces + digits == t;
    assert ParseSigned(t) == AfterSign(sign == '-', spaces + digits);
    SkipSpaces(sign == '-', spaces, digits);
  }

  lemma SkipSpaces(negative: bool, spaces: string, digits: string)
    requires forall i :: 0 <= i < |spaces| ==> IsSpace(spaces[i])
    requires |digits| > 0 && AllDigits(digits)
    ensures AfterSign(negative, spaces + digits)
      == Some(if negative then 0 - DigitsValue(digits) else DigitsValue(digits))
  {
    TrimSpaces(spaces, digits);
    AfterSignReads(negative, spaces + digits, digits);
  }

  /** Once the space is gone, the digits are what a signed literal reads as. */
  lemma AfterSignReads(negative: bool, rest: string, digits: string)
    requires |digits| > 0 && AllDigits(digits) && TrimStart(rest) == digits
    ensures AfterSign(negative, rest) == Some(if negative then 0 - DigitsValue(digits) else DigitsValue(digits))
  {
  }

  /** A sign followed by nothing but space is no number. */
  lemma SignAloneRejected(sign: char, spaces: string)
    requires sign == '-' || sign == '+'
    requires forall i :: 0 <= i < |spaces| ==> IsSpace(spaces[i])
    ensures ParseSigned([sign] + spaces) == None
  {
    DropHead(sign, spaces);
  }

  lemma DropHead<T>(x: T, s: seq<T>)
    ensures ([x] + s)[0] == x && ([x] + s)[1..] == s
  {
  }

  /** `int(str(n)) == n` for every integer. */
  lemma DecimalRoundTrip(n: int)
    ensures ParseInt(DecimalString(n)) == Some(n)
  {
    var s := DecimalString(n);
    TrimNothing(s);
    assert ParseInt(s) == ParseSigned(s);
    var m: nat := if n < 0 then -n else n;
    NatStringValue(m);
    ParseDigits(NatString(m));
  }

  /** A string with no digit is never an integer literal. */
  lemma NoDigitNoInt(s: string)
    requires forall i :: 0 <= i < |s| ==> !IsDigit(s[i])
    ensures ParseInt(s) == None
  {
  }

  // ---------------------------------------------------------------------
  // string_to_card

  /** `string_to_card(string)` with the module's rank table `table`: the last
      character is the suit, the rest is the rank, read by `int()` first and
      looked up in the table only when `int()` fails.  An empty string raises
      `IndexError` at `string[-1]`, a rank neither numeric nor in the table
      raises `KeyError`. */
  function StringToCard(table: map<string, int>, s: string): (r: Outcome<(int, char)>)
    ensures |s| == 0 <==> r == Raises("IndexError")
    ensures r.Returns? ==> r.value.1 == s[|s| - 1]
    ensures |s| > 0 && ParseInt(s[..|s| - 1]).Some? ==> r == Returns((ParseInt(s[..|s| - 1]).value, s[|s| - 1]))
    ensures |s| > 0 && ParseInt(s[..|s| - 1]).None? ==>
      (s[..|s| - 1] in table <==> r.Returns?)
      && (r.Returns? ==> r.value.0 == table[s[..|s| - 1]])
      && (r.Raises? ==> r.error == "KeyError")
  {
    if |s| == 0 then Raises("IndexError")
    else
      var num := s[..|s| - 1];
      var suit := s[|s| - 1];
      match ParseInt(num)
      case Some(n) => Returns((n, suit))
      case None =>
        if num in table then Returns((table[num], suit)) else Raises("KeyError")
  }

  /** A table entry whose key `int()` already accepts is never consulted. */
  lemma NumericKeyShadowed(table: map<string, int>, key: string, suit: char)
    requires key in table && ParseInt(key).Some?
    ensures StringToCard(table, key + [suit]) == Returns((ParseInt(key).value, suit))
  {
    assert (key + [suit])[..|key|] == key;
  }

  /** "1" followed by a suit reads as rank 1, whatever the table holds. */
  lemma OneReadsAsOne(table: map<string, int>, suit: char)
    ensures StringToCard(table, "1" + [suit]) == Returns((1, suit))
  {
    assert DecimalString(1) == "1";
    DecimalRoundTrip(1);
    assert ("1" + [suit])[..1] == "1";
  }

  /** A table entry whose key is not numeric is what the rank reads as. */
  lemma LetterKeyRead(table: map<string, int>, key: string, suit: char)
    requires key in table && forall i :: 0 <= i < |key| ==> !IsDigit(key[i])
    ensures StringToCard(table, key + [suit]) == Returns((table[key], suit))
  {
    assert (key + [suit])[..|key|] == key;
    NoDigitNoInt(key);
  }

  /** A rank that is neither numeric nor a key raises `KeyError`. */
  lemma UnknownRankRaises(table: map<string, int>, key: string, suit: char)
    requires key !in table && forall i :: 0 <= i < |key| ==> !IsDigit(key[i])
    ensures StringToCard(table, key + [suit]) == Raises("KeyError")
  {
    assert (key + [suit])[..|key|] == key;
    NoDigitNoInt(key);
  }
}
