/** Base-10 integers as strconv reads and prints them, at the width of a 64-bit int. */
module Decimal {

  const MAX_INT: int := 0x7FFF_FFFF_FFFF_FFFF
  const MIN_INT: int := -0x8000_0000_0000_0000

  predicate InRange(n: int) {
    MIN_INT <= n <= MAX_INT
  }

  datatype Parsed = NotANumber | OutOfRange | Number(value: int)

  predicate Digits(s: string) {
    forall i | 0 <= i < |s| :: '0' <= s[i] <= '9'
  }

  /** What a digit string denotes. */
  function Value(s: string): (n: nat)
    requires Digits(s)
  {
    if s == [] then 0 else 10 * Value(s[..|s| - 1]) + (s[|s| - 1] as int - '0' as int)
  }

  function FormatNat(n: nat): (s: string)
    ensures s != [] && Digits(s) && Value(s) == n
  {
    var last := [('0' as int + n % 10) as char];
    if n < 10 then
      assert last[..0] == [];
      last
    else
      var s := FormatNat(n / 10) + last;
      assert s[..|s| - 1] == FormatNat(n / 10);
      s
  }

  /** strconv.Itoa. */
  function Format(n: int): (s: string)
    ensures s != []
  {
    if n < 0 then "-" + FormatNat(-n) else FormatNat(n)
  }

  /** strconv.Atoi and strconv.ParseInt(s, 10, 64): an optional sign, at least one digit, 64 bits. */
  function Parse(s: string): Parsed {
    var digits := if s != [] && (s[0] == '-' || s[0] == '+') then s[1..] else s;
    if digits == [] || !Digits(digits) then NotANumber
    else
      var magnitude: int := Value(digits);
      var n := if s[0] == '-' then -magnitude else magnitude;
      if InRange(n) then Number(n) else OutOfRange
  }

  /** s is digits with an optional sign, and denotes n. */
  ghost predicate Spells(s: string, sign: string, digits: string, n: int) {
    && sign in {"", "+", "-"} && s == sign + digits && digits != "" && Digits(digits)
    && n == if sign == "-" then -(Value(digits) as int) else Value(digits)
  }

  /** What is parsed is exactly the signed digit strings in range, each to what it denotes. */
  lemma ParsesExactly(s: string, n: int)
    ensures Parse(s) == Number(n) <==>
              -0x8000_0000_0000_0000 <= n <= 0x7FFF_FFFF_FFFF_FFFF && exists sign, digits :: Spells(s, sign, digits, n)
  {
    if sign, digits :| InRange(n) && Spells(s, sign, digits, n) {
      SpelledParses(s, sign, digits, n);
    }
    if Parse(s) == Number(n) {
      if s[0] == '-' || s[0] == '+' {
        assert s == [s[0]] + s[1..];
        assert Spells(s, [s[0]], s[1..], n);
      } else {
        assert s == "" + s;
        assert Spells(s, "", s, n);
      }
    }
  }

  lemma SpelledParses(s: string, sign: string, digits: string, n: int)
    requires InRange(n) && Spells(s, sign, digits, n)
    ensures Parse(s) == Number(n)
  {
    if sign == "" {
      assert s == digits;
    } else {
      assert s[1..] == digits;
    }
  }

  /** A digit more is ten times as much and the digit. */
  lemma ValueByTens(s: string, d: char)
    requires Digits(s) && '0' <= d <= '9'
    ensures Digits(s + [d]) && Value(s + [d]) == 10 * Value(s) + (d as int - 48) && Value("") == 0
  {
    assert (s + [d])[..|s|] == s;
  }

  lemma ParseFormat(n: int)
    requires InRange(n)
    ensures Parse(Format(n)) == Number(n)
  {
    var s := Format(n);
    if n < 0 {
      assert s[1..] == FormatNat(-n);
    } else {
      assert '0' <= s[0] <= '9';
    }
  }
}
