/** The PHP values a condition compares, PHP 5's casts to string and to bool,
    and the two comparison operators `===` and `==`.

    Only null, booleans, integers and strings are modelled, and of PHP 5's
    numeric strings only the decimal-integer ones: a string is converted to
    a number by its leading decimal-integer prefix (after leading white
    space and an optional sign). Hexadecimal strings, fractions, exponents
    and floats are not modelled. */
module PhpValues {

  datatype Value = Null | Bool(b: bool) | Int(i: int) | Str(s: string)

  /** `===`: same type and same value. */
  predicate StrictEquals(a: Value, b: Value) {
    a == b
  }

  predicate IsSpace(c: char) {
    c == ' ' || c == '\t' || c == '\n' || c == '\r' || c == '\U{0B}' || c == '\U{0C}'
  }

  predicate IsDigit(c: char) {
    '0' <= c <= '9'
  }

  predicate AllDigits(s: string) {
    forall i :: 0 <= i < |s| ==> IsDigit(s[i])
  }

  function DigitValue(c: char): nat
    requires IsDigit(c)
  {
    c as int - '0' as int
  }

  function DigitChar(d: nat): char
    requires d < 10
  {
    ('0' as int + d) as char
  }

  /** Leading white space removed. */
  function SkipSpace(s: string): string {
    if s != [] && IsSpace(s[0]) then SkipSpace(s[1..]) else s
  }

  /** The longest prefix of digits. */
  function DigitPrefix(s: string): (r: string)
    ensures AllDigits(r) && |r| <= |s| && r == s[..|r|]
  {
    if s != [] && IsDigit(s[0]) then [s[0]] + DigitPrefix(s[1..]) else []
  }

  /** The number a string of decimal digits denotes ('' denotes 0). */
  function DigitsValue(s: string): nat
    requires AllDigits(s)
  {
    if s == [] then 0 else DigitsValue(s[..|s| - 1]) * 10 + DigitValue(s[|s| - 1])
  }

  predicate IsSign(c: char) {
    c == '-' || c == '+'
  }

  /** The integer PHP reads from the start of a string; 0 when there is none. */
  function LeadingInt(s: string): int {
    var t := SkipSpace(s);
    if t != [] && IsSign(t[0]) then
      var m: int := DigitsValue(DigitPrefix(t[1..]));
      if t[0] == '-' then -m else m
    else
      DigitsValue(DigitPrefix(t))
  }

  /** A numeric (integer) string: white space, an optional sign, then one or
      more digits and nothing else. */
  predicate IsNumeric(s: string) {
    var t := SkipSpace(s);
    var u := if t != [] && IsSign(t[0]) then t[1..] else t;
    u != [] && AllDigits(u)
  }

  function NatToString(n: nat): (r: string)
    ensures r != [] && AllDigits(r)
  {
    if n < 10 then [DigitChar(n)] else NatToString(n / 10) + [DigitChar(n % 10)]
  }

  /** Decimal notation of an integer, as `(string) $i` writes it. */
  function IntToString(i: int): string {
    if i < 0 then "-" + NatToString(-i) else NatToString(i)
  }

  /** `(bool) $v` */
  function ToBool(v: Value): bool {
    match v
    case Null => false
    case Bool(b) => b
    case Int(i) => i != 0
    case Str(s) => s != "" && s != "0"
  }

  /** `(string) $v` */
  function ToStr(v: Value): string {
    match v
    case Null => ""
    case Bool(b) => if b then "1" else ""
    case Int(i) => IntToString(i)
    case Str(s) => s
  }

  /** `==` as PHP 5 defines it on these values: a boolean or null operand
      compares by truth value (null against a string compares as ''), an
      integer against a string compares with the string's leading integer,
      and two strings compare numerically when both are numeric and
      character by character otherwise. */
  function LooseEquals(a: Value, b: Value): (r: bool)
    ensures StrictEquals(a, b) ==> r
    ensures a.Bool? || b.Bool? ==> (r <==> ToBool(a) == ToBool(b))
    ensures a.Str? && b.Str? && !(IsNumeric(a.s) && IsNumeric(b.s)) ==> (r <==> a == b)
  {
    match (a, b)
    case (Null, Null) => true
    case (Bool(x), _) => x == ToBool(b)
    case (_, Bool(y)) => ToBool(a) == y
    case (Null, Str(t)) => t == ""
    case (Str(t), Null) => t == ""
    case (Null, Int(j)) => j == 0
    case (Int(i), Null) => i == 0
    case (Int(i), Int(j)) => i == j
    case (Int(i), Str(t)) => i == LeadingInt(t)
    case (Str(t), Int(j)) => LeadingInt(t) == j
    case (Str(t), Str(u)) =>
      if IsNumeric(t) && IsNumeric(u) then LeadingInt(t) == LeadingInt(u) else t == u
  }

  /** Strict equality is contained in loose equality. */
  lemma StrictImpliesLoose(a: Value, b: Value)
    ensures StrictEquals(a, b) ==> LooseEquals(a, b)
  {
  }

  /** Loose equality is symmetric. */
  lemma LooseSymmetric(a: Value, b: Value)
    ensures LooseEquals(a, b) <==> LooseEquals(b, a)
  {
  }

  /** Loose equality is not transitive: null == 0 and 0 == 'a', yet null != 'a'. */
  lemma LooseNotTransitive()
    ensures LooseEquals(Null, Int(0)) && LooseEquals(Int(0), Str("a"))
    ensures !LooseEquals(Null, Str("a"))
  {
    assert DigitPrefix("a") == [];
  }

  /** The coercions the two comparison modes disagree on: '1' == 1 and
      null == false hold, '1' === 1 and null === false do not. */
  lemma LooseCoercions()
    ensures LooseEquals(Str("1"), Int(1)) && !StrictEquals(Str("1"), Int(1))
    ensures LooseEquals(Null, Bool(false)) && !StrictEquals(Null, Bool(false))
  {
    assert DigitPrefix("1") == "1" by {
      assert DigitPrefix("1"[1..]) == [];
    }
    assert DigitsValue("1") == 1 by {
      assert "1"[..0] == [];
    }
  }

  lemma {:induction false} DigitPrefixOfDigits(s: string)
    requires AllDigits(s)
    ensures DigitPrefix(s) == s
  {
    if s != [] {
      DigitPrefixOfDigits(s[1..]);
    }
  }

  lemma {:induction false} NatToStringValue(n: nat)
    ensures DigitsValue(NatToString(n)) == n
  {
    if n >= 10 {
      NatToStringValue(n / 10);
      var r := NatToString(n);
      assert r[..|r| - 1] == NatToString(n / 10);
    }
  }

  /** Reading back the decimal notation of an integer gives the integer,
      and that notation is a numeric string. */
  lemma IntToStringRoundTrip(i: int)
    ensures LeadingInt(IntToString(i)) == i
    ensures IsNumeric(IntToString(i))
  {
    var digits := NatToString(if i < 0 then -i else i);
    NatToStringValue(if i < 0 then -i else i);
    DigitPrefixOfDigits(digits);
    var t := IntToString(i);
    assert SkipSpace(t) == t;
    if i < 0 {
      assert t[1..] == digits;
    }
  }

  /** `(string)` of an integer is loosely, never strictly, equal to it, and two
      integers are loosely equal exactly when their decimal strings are. */
  lemma IntStringLooseEquality(i: int, j: int)
    ensures LooseEquals(Int(i), Str(ToStr(Int(i)))) && !StrictEquals(Int(i), Str(ToStr(Int(i))))
    ensures LooseEquals(Str(ToStr(Int(i))), Str(ToStr(Int(j)))) <==> i == j
  {
    IntToStringRoundTrip(i);
    IntToStringRoundTrip(j);
  }
}
