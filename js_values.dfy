/** The JavaScript built-ins the daemon's code leans on, modelled on integers
    and strings: Number#toString for integers, parseInt with radix 10
    (section 19.2.5 of ECMA-262), the StringToNumber conversion behind isNaN
    (section 7.1.4.1.1 of ECMA-262), String#split with a one-character
    separator and String#toLowerCase restricted to ASCII letters. */
module JsValues {

  datatype Option<T> = None | Some(value: T)

  /** The JavaScript values the modelled code is given: numbers (restricted
      to integers) and strings. */
  datatype JsValue = Num(n: int) | Str(s: string)

  /** A JavaScript number as parseInt produces it: an integer or NaN. */
  datatype Number = Finite(n: int) | NaN

  /** JavaScript truthiness of an optional string (undefined/null or text). */
  predicate Truthy(v: Option<string>) {
    v.Some? && v.value != ""
  }

  // ---------------------------------------------------------------------
  // Decimal digits

  predicate IsDigit(c: char) { '0' <= c <= '9' }

  predicate AllDigits(s: string) {
    forall i :: 0 <= i < |s| ==> IsDigit(s[i])
  }

  function DigitValue(c: char): (d: nat)
    requires IsDigit(c)
    ensures d < 10
  {
    c as int - '0' as int
  }

  function DigitChar(d: nat): (c: char)
    requires d < 10
    ensures IsDigit(c) && DigitValue(c) == d
  {
    ('0' as int + d) as char
  }

  /** The value of a decimal numeral, most significant digit first. */
  function DigitsValue(s: string): nat
    requires AllDigits(s)
  {
    if s == [] then 0 else 10 * DigitsValue(s[..|s| - 1]) + DigitValue(s[|s| - 1])
  }

  /** The shortest decimal numeral of n: no leading zero, so "0" is the
      only numeral starting with '0'. */
  function NatToDigits(n: nat): (r: string)
    ensures |r| > 0 && AllDigits(r)
    ensures DigitsValue(r) == n
    ensures r[0] == '0' ==> n == 0
    ensures |r| > 1 ==> r[0] != '0'
  {
    if n < 10 then [DigitChar(n)]
    else
      var prefix := NatToDigits(n / 10);
      var r := prefix + [DigitChar(n % 10)];
      assert r[..|r| - 1] == prefix;
      r
  }

  /** Number#toString of an integer: an optional '-' followed by the digits. */
  function IntToString(n: int): (r: string)
    ensures |r| > 0
    ensures n >= 0 ==> AllDigits(r) && DigitsValue(r) == n
    ensures n < 0 ==> r[0] == '-' && AllDigits(r[1..]) && DigitsValue(r[1..]) == -n
    ensures n >= 0 && |r| > 1 ==> r[0] != '0'
    ensures n < 0 ==> |r| > 1 && r[1] != '0'
    ensures IsDigit(r[|r| - 1])
  {
    if n < 0 then
      var r := "-" + NatToDigits(-n);
      assert r[1..] == NatToDigits(-n);
      r
    else NatToDigits(n)
  }

  /** A numeral that does not start with '0' has a value of at least 1. */
  lemma {:induction false} LeadingNonZeroPositive(p: string)
    requires p != [] && AllDigits(p) && p[0] != '0'
    ensures DigitsValue(p) >= 1
    decreases |p|
  {
    if |p| > 1 {
      LeadingNonZeroPositive(p[..|p| - 1]);
    }
  }

  /** NatToDigits gives the only numeral of a value without a leading zero:
      every such numeral is the one Number#toString writes. */
  lemma {:induction false} CanonicalNumeralUnique(s: string)
    requires s != [] && AllDigits(s) && (|s| > 1 ==> s[0] != '0')
    ensures NatToDigits(DigitsValue(s)) == s
    decreases |s|
  {
    var p := s[..|s| - 1];
    var c := s[|s| - 1];
    if |s| == 1 {
      assert DigitsValue(s) == DigitValue(c);
      assert [c] == s;
    } else {
      assert p[0] == s[0];
      LeadingNonZeroPositive(p);
      CanonicalNumeralUnique(p);
      var v := DigitsValue(s);
      assert v == 10 * DigitsValue(p) + DigitValue(c);
      assert v / 10 == DigitsValue(p) && v % 10 == DigitValue(c);
      assert p + [c] == s;
    }
  }

  /** JavaScript's WhiteSpace and LineTerminator code points (sections 12.2
      and 12.3 of ECMA-262; the Zs category as of Unicode 15). */
  predicate IsWhiteSpace(c: char) {
    var u := c as int;
    u == 0x09 || u == 0x0A || u == 0x0B || u == 0x0C || u == 0x0D || u == 0x20
    || u == 0xA0 || u == 0x1680 || (0x2000 <= u <= 0x200A) || u == 0x2028
    || u == 0x2029 || u == 0x202F || u == 0x205F || u == 0x3000 || u == 0xFEFF
  }

  /** The string with its leading white space removed. */
  function TrimStart(s: string): (r: string)
    ensures |r| <= |s| && r == s[|s| - |r|..]
    ensures forall i :: 0 <= i < |s| - |r| ==> IsWhiteSpace(s[i])
    ensures r != [] ==> !IsWhiteSpace(r[0])
  {
    if s != [] && IsWhiteSpace(s[0]) then TrimStart(s[1..]) else s
  }

  /** The string with its trailing white space removed. */
  function TrimEnd(s: string): (r: string)
    ensures |r| <= |s| && r == s[..|r|]
    ensures forall i :: |r| <= i < |s| ==> IsWhiteSpace(s[i])
    ensures r != [] ==> !IsWhiteSpace(r[|r| - 1])
  {
    if s != [] && IsWhiteSpace(s[|s| - 1]) then TrimEnd(s[..|s| - 1]) else s
  }

  /** The longest prefix of s made of decimal digits. */
  function LeadingDigits(s: string): (r: string)
    ensures AllDigits(r) && |r| <= |s| && r == s[..|r|]
    ensures |r| < |s| ==> !IsDigit(s[|r|])
  {
    if s != [] && IsDigit(s[0]) then [s[0]] + LeadingDigits(s[1..]) else []
  }

  /** parseInt(s, 10): skip leading white space, take an optional sign, then
      the longest run of decimal digits; NaN when there is none.  (The sign
      of a negative zero is not kept.) */
  function ParseInt(s: string): Number {
    ParseSigned(TrimStart(s))
  }

  /** parseInt after the white space: an optional sign, then the digits. */
  function ParseSigned(t: string): Number {
    if t != [] && t[0] == '-' then Negate(ParseDigits(t[1..]))
    else if t != [] && t[0] == '+' then ParseDigits(t[1..])
    else ParseDigits(t)
  }

  /** The value of the leading run of digits, NaN when there is none. */
  function ParseDigits(u: string): (r: Number)
    ensures r == NaN <==> u == [] || !IsDigit(u[0])
  {
    var z := LeadingDigits(u);
    if z == [] then NaN else Finite(DigitsValue(z))
  }

  function Negate(x: Number): Number {
    match x
    case NaN => NaN
    case Finite(m) => Finite(-m)
  }

  lemma {:induction false} LeadingDigitsOfConcat(s: string, rest: string)
    requires AllDigits(s)
    requires rest == [] || !IsDigit(rest[0])
    ensures LeadingDigits(s + rest) == s
  {
    if s != [] {
      assert (s + rest)[1..] == s[1..] + rest;
      LeadingDigitsOfConcat(s[1..], rest);
    } else {
      assert s + rest == rest;
    }
  }

  /** Text that does not start with white space is not trimmed. */
  lemma TrimStartNoSpace(t: string)
    requires t == [] || !IsWhiteSpace(t[0])
    ensures TrimStart(t) == t
  {
  }

  /** parseInt reads a numeral up to the first character that is not a digit. */
  lemma ParseIntOfDigits(s: string, rest: string)
    requires s != [] && AllDigits(s)
    requires rest == [] || !IsDigit(rest[0])
    ensures ParseInt(s + rest) == Finite(DigitsValue(s))
  {
    var t := s + rest;
    assert t[0] == s[0] && IsDigit(t[0]);
    TrimStartNoSpace(t);
    LeadingDigitsOfConcat(s, rest);
    assert ParseSigned(t) == ParseDigits(t);
  }

  /** parseInt undoes Number#toString on integers, whatever non-digit text
      follows. */
  lemma {:induction false} ParseIntOfIntToString(n: int, rest: string)
    requires rest == [] || !IsDigit(rest[0])
    ensures ParseInt(IntToString(n) + rest) == Finite(n)
  {
    var r := IntToString(n);
    if n < 0 {
      var t := r + rest;
      assert t[0] == '-';
      TrimStartNoSpace(t);
      assert t[1..] == r[1..] + rest;
      LeadingDigitsOfConcat(r[1..], rest);
      assert LeadingDigits(t[1..]) == r[1..];
      assert ParseDigits(t[1..]) == Finite(-n);
      assert ParseSigned(t) == Negate(ParseDigits(t[1..]));
    } else {
      ParseIntOfDigits(r, rest);
    }
  }

  lemma ParseIntOfEmpty()
    ensures ParseInt("") == NaN
  {
  }

  // ---------------------------------------------------------------------
  // StringToNumber: whether isNaN holds of a string

  /** The index of the first c in s, if any. */
  function IndexOf(s: string, c: char): (r: Option<nat>)
    ensures r.None? ==> forall i :: 0 <= i < |s| ==> s[i] != c
    ensures r.Some? ==> r.value < |s| && s[r.value] == c
                        && forall i :: 0 <= i < r.value ==> s[i] != c
  {
    if s == [] then None
    else if s[0] == c then Some(0)
    else match IndexOf(s[1..], c)
      case None => None
      case Some(i) => Some(i + 1)
  }

  /** The first c in a + [c] + b is the one after a, when a has none. */
  lemma {:induction false} IndexOfAfter(a: string, c: char, b: string)
    requires IndexOf(a, c).None?
    ensures IndexOf(a + [c] + b, c) == Some(|a|)
    ensures (a + [c] + b)[..|a|] == a && (a + [c] + b)[|a| + 1..] == b
  {
    if a != [] {
      assert (a + [c] + b)[1..] == a[1..] + [c] + b;
      IndexOfAfter(a[1..], c, b);
    }
  }

  /** The index of the first exponent marker 'e' or 'E', or |s|. */
  function ExponentStart(s: string): (r: nat)
    ensures r <= |s|
    ensures forall i :: 0 <= i < r ==> s[i] != 'e' && s[i] != 'E'
    ensures r < |s| ==> s[r] == 'e' || s[r] == 'E'
  {
    if s == [] || s[0] == 'e' || s[0] == 'E' then 0 else 1 + ExponentStart(s[1..])
  }

  predicate AllIn(s: string, alphabet: set<char>) {
    forall i :: 0 <= i < |s| ==> s[i] in alphabet
  }

  /** NonDecimalIntegerLiteral: 0b…, 0o… or 0x… with at least one digit. */
  predicate IsNonDecimalIntegerLiteral(t: string) {
    |t| >= 3 && t[0] == '0'
    && ((t[1] in {'b', 'B'} && AllIn(t[2..], {'0', '1'}))
        || (t[1] in {'o', 'O'} && AllIn(t[2..], {'0', '1', '2', '3', '4', '5', '6', '7'}))
        || (t[1] in {'x', 'X'} && AllIn(t[2..], {'0', '1', '2', '3', '4', '5', '6', '7', '8', '9',
                                                'a', 'b', 'c', 'd', 'e', 'f',
                                                'A', 'B', 'C', 'D', 'E', 'F'})))
  }

  /** The part of a decimal literal before its exponent: digits with at most
      one '.', and at least one digit. */
  predicate IsMantissa(m: string) {
    match IndexOf(m, '.')
    case None => m != [] && AllDigits(m)
    case Some(p) => AllDigits(m[..p]) && AllDigits(m[p + 1..]) && |m| >= 2
  }

  /** ExponentPart: empty, or 'e'/'E', an optional sign and digits. */
  predicate IsExponent(x: string) {
    x == []
    || (|x| >= 2 && (x[0] == 'e' || x[0] == 'E')
        && var d := if x[1] == '+' || x[1] == '-' then x[2..] else x[1..];
        d != [] && AllDigits(d))
  }

  predicate IsUnsignedDecimalLiteral(t: string) {
    t == "Infinity"
    || (var e := ExponentStart(t); IsMantissa(t[..e]) && IsExponent(t[e..]))
  }

  predicate IsStrNumericLiteral(t: string) {
    IsNonDecimalIntegerLiteral(t)
    || (if t != [] && (t[0] == '+' || t[0] == '-') then IsUnsignedDecimalLiteral(t[1..])
        else IsUnsignedDecimalLiteral(t))
  }

  /** StringToNumber gives a number (not NaN): white space around a numeric
      literal, or white space only (which gives 0). */
  predicate IsNumericString(s: string) {
    var t := TrimEnd(TrimStart(s));
    t == [] || IsStrNumericLiteral(t)
  }

  /** The global isNaN on a number or a string. */
  predicate IsNaN(v: JsValue) {
    v.Str? && !IsNumericString(v.s)
  }

  lemma DigitStringIsNumeric(s: string)
    requires s != [] && AllDigits(s)
    ensures !IsNaN(Str(s))
  {
    assert TrimStart(s) == s;
    assert TrimEnd(s) == s;
    var e := ExponentStart(s);
    assert e == |s|;
    assert s[..e] == s;
    assert IndexOf(s, '.').None?;
  }

  /** Number#toString, as text. */
  function ToString(v: JsValue): string {
    match v
    case Num(n) => IntToString(n)
    case Str(s) => s
  }

  // ---------------------------------------------------------------------
  // String#split with a one-character separator

  /** s.split(sep), character by character. */
  function Split(s: string, sep: char): (parts: seq<string>)
    ensures |parts| >= 1
  {
    if s == [] then [""]
    else
      var rest := Split(s[1..], sep);
      if s[0] == sep then [""] + rest else [[s[0]] + rest[0]] + rest[1..]
  }

  /** parts joined with sep between consecutive parts. */
  function Join(parts: seq<string>, sep: char): string
    requires |parts| >= 1
  {
    if |parts| == 1 then parts[0] else parts[0] + [sep] + Join(parts[1..], sep)
  }

  /** Splitting then joining gives the string back. */
  lemma {:induction false} JoinSplit(s: string, sep: char)
    ensures Join(Split(s, sep), sep) == s
  {
    if s != [] {
      var rest := Split(s[1..], sep);
      JoinSplit(s[1..], sep);
      if s[0] != sep {
        if |rest| == 1 {
          assert Split(s, sep) == [[s[0]] + rest[0]];
        } else {
          assert Split(s, sep)[1..] == rest[1..];
        }
      } else {
        assert Split(s, sep)[1..] == rest;
      }
    }
  }

  /** A part never contains the separator. */
  lemma {:induction false} SplitPartsFree(s: string, sep: char, k: nat, i: nat)
    requires k < |Split(s, sep)| && i < |Split(s, sep)[k]|
    ensures Split(s, sep)[k][i] != sep
  {
    if s != [] {
      var rest := Split(s[1..], sep);
      if s[0] == sep {
        SplitPartsFree(s[1..], sep, k - 1, i);
      } else if k == 0 {
        if i > 0 { SplitPartsFree(s[1..], sep, 0, i - 1); }
      } else {
        SplitPartsFree(s[1..], sep, k, i);
      }
    }
  }

  /** The first part is the text before the first separator, or all of s;
      there is a second part exactly when s holds the separator. */
  lemma {:induction false} SplitHead(s: string, sep: char)
    ensures IndexOf(s, sep).None? ==> Split(s, sep) == [s]
    ensures IndexOf(s, sep).Some? ==>
              var i := IndexOf(s, sep).value;
              |Split(s, sep)| >= 2 && Split(s, sep)[0] == s[..i]
              && Split(s, sep)[1..] == Split(s[i + 1..], sep)
  {
    if s != [] {
      SplitHead(s[1..], sep);
      if s[0] != sep {
        assert s[1..][..|s| - 1] == s[1..];
        match IndexOf(s[1..], sep)
        case None =>
          assert [s[0]] + s[1..] == s;
        case Some(j) =>
          assert [s[0]] + s[1..][..j] == s[..j + 1];
          assert s[1..][j + 1..] == s[j + 2..];
      }
    }
  }

  // ---------------------------------------------------------------------
  // String#toLowerCase on ASCII letters

  function LowerChar(c: char): char {
    if 'A' <= c <= 'Z' then (c as int + 32) as char else c
  }

  /** s.toLowerCase() for ASCII letters; other characters are kept. */
  function ToLowerAscii(s: string): (r: string)
    ensures |r| == |s| && forall i :: 0 <= i < |s| ==> r[i] == LowerChar(s[i])
  {
    if s == [] then [] else [LowerChar(s[0])] + ToLowerAscii(s[1..])
  }
}
