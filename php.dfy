/**
 * The slice of PHP's value model that the client relies on: the values a
 * settings array or a SimpleXML lookup can produce, the `(string)` and `(int)`
 * casts applied to them, `array_merge` on string-keyed arrays, `isset` on an
 * array key and `in_array`.
 */
module Php {

  datatype Option<+T> = None | Some(value: T)

  /** A PHP value. `Element(text)` stands for a SimpleXMLElement (an element or
      an attribute node) whose string conversion is `text`. */
  datatype Value =
    | Null
    | Bool(b: bool)
    | Int(i: int)
    | Str(s: string)
    | List(items: seq<Value>)
    | Element(text: string)

  /** A PHP array with string keys, such as the client settings or a query. */
  type PhpArray = map<string, Value>

  predicate IsDigit(c: char) {
    '0' <= c <= '9'
  }

  predicate AllDigits(s: string) {
    forall i :: 0 <= i < |s| ==> IsDigit(s[i])
  }

  /** The whitespace PHP skips before the digits of a numeric string. */
  predicate IsSpace(c: char) {
    c == ' ' || c == '\t' || c == '\n' || c == '\r' || c == '\U{000B}' || c == '\U{000C}'
  }

  function DigitChar(d: nat): (c: char)
    requires d < 10
    ensures IsDigit(c)
  {
    (48 + d) as char
  }

  /** The number written by a string of decimal digits, most significant first. */
  function DigitsValue(s: string): nat
    requires AllDigits(s)
  {
    if s == [] then 0 else 10 * DigitsValue(s[..|s| - 1]) + ((s[|s| - 1] as int) - 48)
  }

  /** The longest prefix of `s` made of decimal digits. */
  function LeadingDigits(s: string): (d: string)
    ensures AllDigits(d) && d <= s
    ensures |d| < |s| ==> !IsDigit(s[|d|])
  {
    if s != [] && IsDigit(s[0]) then [s[0]] + LeadingDigits(s[1..]) else []
  }

  /** `s` without its leading whitespace. */
  function SkipSpace(s: string): (t: string)
    ensures |t| <= |s| && t == s[|s| - |t|..]
    ensures t != [] ==> !IsSpace(t[0])
  {
    if s != [] && IsSpace(s[0]) then SkipSpace(s[1..]) else s
  }

  /** PHP's `(int)` of a string: leading whitespace, an optional sign, then the
      longest run of decimal digits; a string without digits there gives 0. */
  function StringToInt(s: string): int {
    var t := SkipSpace(s);
    if t != [] && (t[0] == '-' || t[0] == '+') then
      var m: int := DigitsValue(LeadingDigits(t[1..]));
      if t[0] == '-' then -m else m
    else
      DigitsValue(LeadingDigits(t))
  }

  /** The decimal notation of a natural number, without leading zeros. */
  function NatString(n: nat): (s: string)
    ensures s != [] && AllDigits(s)
  {
    if n < 10 then [DigitChar(n)] else NatString(n / 10) + [DigitChar(n % 10)]
  }

  /** PHP's `(string)` of an integer. */
  function DecimalString(n: int): string {
    if n < 0 then "-" + NatString(-n) else NatString(n)
  }

  lemma {:induction false} NatStringValue(n: nat)
    ensures DigitsValue(NatString(n)) == n
  {
    if n >= 10 {
      var s := NatString(n);
      NatStringValue(n / 10);
      assert s[..|s| - 1] == NatString(n / 10);
    }
  }

  lemma {:induction false} LeadingDigitsOfDigits(s: string)
    requires AllDigits(s)
    ensures LeadingDigits(s) == s
  {
    if s != [] {
      LeadingDigitsOfDigits(s[1..]);
    }
  }

  /** Casting the decimal notation of an integer back with `(int)` gives the
      integer again. */
  lemma StringToIntRoundTrip(n: int)
    ensures StringToInt(DecimalString(n)) == n
  {
    if n < 0 {
      NegativeRoundTrip(-n);
    } else {
      NatRoundTrip(n);
    }
  }

  lemma NatRoundTrip(n: nat)
    ensures StringToInt(NatString(n)) == n
  {
    var t := NatString(n);
    assert SkipSpace(t) == t by { assert IsDigit(t[0]); }
    assert !(t[0] == '-' || t[0] == '+') by { assert IsDigit(t[0]); }
    LeadingDigitsOfDigits(t);
    NatStringValue(n);
  }

  lemma NegativeRoundTrip(m: nat)
    requires m > 0
    ensures StringToInt(DecimalString(-(m as int))) == -(m as int)
  {
    var digits := NatString(m);
    var t := DecimalString(-(m as int));
    assert t == "-" + digits;
    assert SkipSpace(t) == t by { assert t[0] == '-'; }
    assert t[1..] == digits;
    LeadingDigitsOfDigits(digits);
    NatStringValue(m);
  }

  /** PHP's `(string)` cast. */
  function StringCast(v: Value): string {
    match v
    case Null => ""
    case Bool(b) => if b then "1" else ""
    case Int(i) => DecimalString(i)
    case Str(s) => s
    case List(_) => "Array"
    case Element(t) => t
  }

  /** PHP's `(int)` cast. */
  function IntCast(v: Value): int {
    match v
    case Null => 0
    case Bool(b) => if b then 1 else 0
    case Int(i) => i
    case Str(s) => StringToInt(s)
    case List(xs) => if xs == [] then 0 else 1
    case Element(t) => StringToInt(t)
  }

  /** `$a[$k]`: a missing key reads as null. */
  function Lookup(a: PhpArray, k: string): Value {
    if k in a then a[k] else Null
  }

  /** `isset($a[$k])`: the key is present and its value is not null. */
  predicate IsSet(a: PhpArray, k: string) {
    k in a && a[k] != Null
  }

  /** `array_merge($a, $b)` on string-keyed arrays: the keys of both, the value
      from `$b` wherever `$b` has the key. */
  function ArrayMerge(a: PhpArray, b: PhpArray): (r: PhpArray)
    ensures r.Keys == a.Keys + b.Keys
    ensures forall k :: k in b ==> r[k] == b[k]
    ensures forall k :: k in a && k !in b ==> r[k] == a[k]
  {
    a + b
  }

  /** `in_array($needle, $haystack)`: a scan of the list for an equal element. */
  function InArray(needle: Value, haystack: seq<Value>): (r: bool)
    ensures r <==> needle in haystack
  {
    haystack != [] && (haystack[0] == needle || InArray(needle, haystack[1..]))
  }
}
