/**
 * The JavaScript primitives that the map core is written against: dynamic values,
 * the `+x` (ToNumber) and `parseFloat` conversions, `String(x)`, `trim`, `padStart`,
 * `toFixed`, `Math.round` and case mapping. Finite numbers are exact reals: the
 * rounding of IEEE doubles is not modelled.
 */
module Js {
  import opened Wrappers

  /** A JavaScript number. */
  datatype Num = Finite(r: real) | NaN | Infinity(negative: bool)

  /** The primitive values found in CSV rows and in normalised records. */
  datatype Value = Undefined | Null | Bool(b: bool) | Number(n: Num) | Str(s: string)

  /** A plain object: its own properties by name. */
  type Record = map<string, Value>

  /** `d[k]`: a missing property reads as undefined. */
  function Get(d: Record, k: string): Value {
    if k in d then d[k] else Undefined
  }

  predicate IsNullish(v: Value) {
    v.Undefined? || v.Null?
  }

  /** JavaScript truthiness of a primitive. */
  predicate Truthy(v: Value) {
    match v
    case Undefined => false
    case Null => false
    case Bool(b) => b
    case Number(n) => !n.NaN? && n != Finite(0.0)
    case Str(s) => s != ""
  }

  /** `Number.isFinite(v)`: true only of a finite number, without coercion. */
  predicate IsFiniteValue(v: Value) {
    v.Number? && v.n.Finite?
  }

  /** `vs[0] ?? vs[1] ?? ...`: the first operand that is neither null nor undefined, else the last. */
  function Coalesce(vs: seq<Value>): (r: Value)
    requires |vs| > 0
    ensures r in vs
    ensures !IsNullish(vs[0]) ==> r == vs[0]
    ensures IsNullish(vs[0]) && |vs| > 1 ==> r == Coalesce(vs[1..])
  {
    if |vs| == 1 || !IsNullish(vs[0]) then vs[0] else Coalesce(vs[1..])
  }

  /** `vs[0] || vs[1] || ...`: the first truthy operand, else the last. */
  function Or(vs: seq<Value>): (r: Value)
    requires |vs| > 0
    ensures r in vs
    ensures Truthy(vs[0]) ==> r == vs[0]
    ensures (exists i :: 0 <= i < |vs| && Truthy(vs[i])) ==> Truthy(r)
    ensures !Truthy(r) ==> r == vs[|vs| - 1]
  {
    if |vs| == 1 || Truthy(vs[0]) then vs[0] else Or(vs[1..])
  }

  // ---------------------------------------------------------------------------
  // Characters and whitespace
  // ---------------------------------------------------------------------------

  /** The characters of `\s`, of `String.prototype.trim` and of StrWhiteSpaceChar. */
  predicate IsWhiteSpace(c: char) {
    c == '\t' || c == '\n' || c == '\U{B}' || c == '\U{C}' || c == '\r' || c == ' '
    || c == '\U{A0}' || c == '\U{1680}' || ('\U{2000}' <= c <= '\U{200A}')
    || c == '\U{2028}' || c == '\U{2029}' || c == '\U{202F}' || c == '\U{205F}'
    || c == '\U{3000}' || c == '\U{FEFF}'
  }

  predicate IsDigit(c: char) {
    '0' <= c <= '9'
  }

  /** The value of `c` as a hexadecimal digit, or -1. */
  function CharValue(c: char): int {
    if '0' <= c <= '9' then c as int - '0' as int
    else if 'a' <= c <= 'f' then c as int - 'a' as int + 10
    else if 'A' <= c <= 'F' then c as int - 'A' as int + 10
    else -1
  }

  predicate IsRadixDigit(c: char, radix: nat) {
    0 <= CharValue(c) < radix
  }

  predicate AllRadixDigits(s: string, radix: nat) {
    forall i :: 0 <= i < |s| ==> IsRadixDigit(s[i], radix)
  }

  /** The value of a digit string in the given radix. */
  function RadixValue(s: string, radix: nat): nat
    requires AllRadixDigits(s, radix)
  {
    if s == [] then 0 else RadixValue(s[..|s| - 1], radix) * radix + CharValue(s[|s| - 1])
  }

  /** The longest prefix of `s` made of decimal digits. */
  function DigitRun(s: string): (r: string)
    ensures |r| <= |s| && r == s[..|r|]
    ensures AllRadixDigits(r, 10)
    ensures |r| < |s| ==> !IsDigit(s[|r|])
  {
    if s != [] && IsDigit(s[0]) then [s[0]] + DigitRun(s[1..]) else []
  }

  function Pow10(n: nat): (r: real)
    ensures r >= 1.0
  {
    if n == 0 then 1.0 else 10.0 * Pow10(n - 1)
  }

  /** `x * 10^e` for a whole exponent `e`. */
  function Scale10(x: real, e: int): real {
    if e >= 0 then x * Pow10(e) else x / Pow10(-e)
  }

  // ---------------------------------------------------------------------------
  // Strings
  // ---------------------------------------------------------------------------

  /** `String.prototype.trimStart`; what it removes is stated by TrimStartShape. */
  function TrimStart(s: string): (r: string)
    ensures |r| <= |s|
  {
    if s != [] && IsWhiteSpace(s[0]) then TrimStart(s[1..]) else s
  }

  /** `String.prototype.trimEnd`; what it removes is stated by TrimEndShape. */
  function TrimEnd(s: string): (r: string)
    ensures |r| <= |s|
  {
    if s != [] && IsWhiteSpace(s[|s| - 1]) then TrimEnd(s[..|s| - 1]) else s
  }

  /** `String.prototype.trim`; what it removes is stated by TrimShape. */
  function Trim(s: string): (r: string)
    ensures |r| <= |s|
  {
    TrimEnd(TrimStart(s))
  }

  /** `s.replace(/\s+/g, "")`. */
  function RemoveWhiteSpace(s: string): (r: string)
    ensures forall i :: 0 <= i < |r| ==> !IsWhiteSpace(r[i])
  {
    if s == [] then []
    else if IsWhiteSpace(s[0]) then RemoveWhiteSpace(s[1..])
    else [s[0]] + RemoveWhiteSpace(s[1..])
  }

  /** Removes every character of `chars`, as a global regex replace of a character class by "". */
  function RemoveChars(s: string, chars: set<char>): (r: string)
    ensures |r| <= |s|
    ensures forall i :: 0 <= i < |r| ==> r[i] !in chars
  {
    if s == [] then []
    else if s[0] in chars then RemoveChars(s[1..], chars)
    else [s[0]] + RemoveChars(s[1..], chars)
  }

  /** `s.replace(/[^0-9.\-]/g, "")`: keeps only ASCII digits, '.' and '-'. */
  function KeepNumericChars(s: string): (r: string)
    ensures forall i :: 0 <= i < |r| ==> IsDigit(r[i]) || r[i] == '.' || r[i] == '-'
  {
    if s == [] then []
    else if IsDigit(s[0]) || s[0] == '.' || s[0] == '-' then [s[0]] + KeepNumericChars(s[1..])
    else KeepNumericChars(s[1..])
  }

  /** `s.replace(a, b)` with a one-character string pattern: only the first occurrence. */
  function ReplaceFirst(s: string, a: char, b: char): (r: string)
    ensures |r| == |s|
  {
    if s == [] then []
    else if s[0] == a then [b] + s[1..]
    else [s[0]] + ReplaceFirst(s[1..], a, b)
  }

  function Repeat(c: char, n: nat): (r: string)
    ensures |r| == n && forall i :: 0 <= i < n ==> r[i] == c
  {
    if n == 0 then [] else [c] + Repeat(c, n - 1)
  }

  /** `s.padStart(n, c)` with a one-character pad. */
  function PadStart(s: string, n: nat, c: char): (r: string)
    ensures |s| >= n ==> r == s
    ensures |s| < n ==> |r| == n
    ensures |r| >= n && |r| >= |s|
    ensures r[|r| - |s|..] == s
    ensures forall i :: 0 <= i < |r| - |s| ==> r[i] == c
  {
    if |s| >= n then s else Repeat(c, n - |s|) + s
  }

  predicate StartsWith(s: string, p: string) {
    |p| <= |s| && s[..|p|] == p
  }

  /** `p` occurs in `s` at index `i`. */
  predicate OccursAt(s: string, p: string, i: int) {
    0 <= i <= |s| - |p| && s[i..i + |p|] == p
  }

  /** `s.includes(p)`. */
  predicate Contains(s: string, p: string) {
    exists i :: 0 <= i <= |s| && OccursAt(s, p, i)
  }

  /** `String.prototype.toLowerCase` on ASCII and Latin-1 letters. */
  function ToLowerChar(c: char): char {
    if 'A' <= c <= 'Z' || ('\U{C0}' <= c <= '\U{DE}' && c != '\U{D7}') then (c as int + 32) as char else c
  }

  function ToLower(s: string): (r: string)
    ensures |r| == |s| && forall i :: 0 <= i < |s| ==> r[i] == ToLowerChar(s[i])
  {
    if s == [] then [] else [ToLowerChar(s[0])] + ToLower(s[1..])
  }

  /** `String.prototype.toUpperCase` on ASCII and Latin-1 letters ('ß' becomes "SS"). */
  function ToUpperChars(c: char): string {
    if 'a' <= c <= 'z' || ('\U{E0}' <= c <= '\U{FE}' && c != '\U{F7}') then [(c as int - 32) as char]
    else if c == '\U{DF}' then "SS"
    else if c == '\U{FF}' then ['\U{178}']
    else if c == '\U{B5}' then ['\U{39C}']
    else [c]
  }

  function ToUpper(s: string): string {
    if s == [] then [] else ToUpperChars(s[0]) + ToUpper(s[1..])
  }

  // ---------------------------------------------------------------------------
  // Number to string
  // ---------------------------------------------------------------------------

  function DigitChar(d: nat): char
    requires d < 10
  {
    ('0' as int + d) as char
  }

  /** The decimal digits of `n`, without leading zeros. */
  function NatToString(n: nat): (r: string)
    ensures |r| > 0 && AllRadixDigits(r, 10)
  {
    if n < 10 then [DigitChar(n)] else NatToString(n / 10) + [DigitChar(n % 10)]
  }

  function IntToString(i: int): string {
    if i < 0 then "-" + NatToString(-i) else NatToString(i)
  }

  /** Up to `fuel + 1` decimal digits of a fraction `0 < f < 1`. */
  function FracDigits(f: real, fuel: nat): string
    requires 0.0 < f < 1.0
    decreases fuel
  {
    var d := (f * 10.0).Floor;
    var rest := f * 10.0 - d as real;
    if rest == 0.0 || fuel == 0 then [DigitChar(d)]
    else [DigitChar(d)] + FracDigits(rest, fuel - 1)
  }

  /** `String(n)` for a number: exact for integers and for fractions of up to 20 decimals. */
  function NumberToString(n: Num): string {
    match n
    case NaN => "NaN"
    case Infinity(neg) => if neg then "-Infinity" else "Infinity"
    case Finite(r) =>
      if r == r.Floor as real then IntToString(r.Floor)
      else (if r < 0.0 then "-" else "") + FractionToString(if r < 0.0 then -r else r)
  }

  /** The digits of a positive number. */
  function FractionToString(a: real): string
    requires a > 0.0
  {
    var w := a.Floor;
    var f := a - w as real;
    if f == 0.0 then NatToString(w) else NatToString(w) + "." + FracDigits(f, 19)
  }

  /** `String(v)`. */
  function ToString(v: Value): string {
    match v
    case Undefined => "undefined"
    case Null => "null"
    case Bool(b) => if b then "true" else "false"
    case Number(n) => NumberToString(n)
    case Str(s) => s
  }

  // ---------------------------------------------------------------------------
  // String to number
  // ---------------------------------------------------------------------------

  function Signed(neg: bool, v: nat): int {
    if neg then -(v as int) else v
  }

  /** A whole ExponentPart (or nothing): `e`/`E`, an optional sign and at least one digit. */
  function WholeExponent(s: string): Option<int> {
    if s == [] then Some(0)
    else if s[0] != 'e' && s[0] != 'E' then None
    else
      var neg := |s| > 1 && s[1] == '-';
      var ds := if |s| > 1 && (s[1] == '+' || s[1] == '-') then s[2..] else s[1..];
      if ds != [] && AllRadixDigits(ds, 10) then Some(Signed(neg, RadixValue(ds, 10)))
      else None
  }

  /** The longest ExponentPart at the start of `s`, or 0 when there is none. */
  function ExponentPrefix(s: string): int {
    if s == [] || (s[0] != 'e' && s[0] != 'E') then 0
    else
      var neg := |s| > 1 && s[1] == '-';
      var ds := DigitRun(if |s| > 1 && (s[1] == '+' || s[1] == '-') then s[2..] else s[1..]);
      if ds == [] then 0 else Signed(neg, RadixValue(ds, 10))
  }

  /** The value of `ip.fp`. */
  function Mantissa(ip: string, fp: string): real
    requires AllRadixDigits(ip, 10) && AllRadixDigits(fp, 10)
  {
    RadixValue(ip, 10) as real + RadixValue(fp, 10) as real / Pow10(|fp|)
  }

  /** The digits before and after an optional '.', and what follows them. */
  datatype DecimalParts = DecimalParts(ip: string, fp: string, rest: string)

  /** Splits the longest `digits[.digits]` prefix off `u`. */
  function SplitDecimal(u: string): (r: DecimalParts)
    ensures AllRadixDigits(r.ip, 10) && AllRadixDigits(r.fp, 10)
  {
    var ip := DigitRun(u);
    var afterInt := u[|ip|..];
    var dot := afterInt != [] && afterInt[0] == '.';
    var fp := if dot then DigitRun(afterInt[1..]) else [];
    DecimalParts(ip, fp, if dot then afterInt[1 + |fp|..] else afterInt)
  }

  /** The whole of `t` read as a StrDecimalLiteral, or None when it is not one. */
  function ParseDecimalLiteral(t: string): Option<Num> {
    var neg := t != [] && t[0] == '-';
    var u := if t != [] && (t[0] == '+' || t[0] == '-') then t[1..] else t;
    if u == "Infinity" then Some(Infinity(neg))
    else
      var p := SplitDecimal(u);
      if |p.ip| + |p.fp| == 0 then None
      else
        match WholeExponent(p.rest)
        case None => None
        case Some(e) =>
          var m := Scale10(Mantissa(p.ip, p.fp), e);
          Some(Finite(if neg then -m else m))
  }

  /** StringToNumber: `+s` for a string. */
  function StringToNumber(s: string): Num {
    var t := Trim(s);
    if t == [] then Finite(0.0)
    else if |t| > 2 && t[0] == '0' && t[1] in "xXoObB" then
      var radix := if t[1] in "xX" then 16 else if t[1] in "oO" then 8 else 2;
      if AllRadixDigits(t[2..], radix) then Finite(RadixValue(t[2..], radix) as real) else NaN
    else
      match ParseDecimalLiteral(t)
      case Some(n) => n
      case None => NaN
  }

  /** `+v` (ToNumber) of a primitive. */
  function ToNumber(v: Value): Num {
    match v
    case Undefined => NaN
    case Null => Finite(0.0)
    case Bool(b) => Finite(if b then 1.0 else 0.0)
    case Number(n) => n
    case Str(s) => StringToNumber(s)
  }

  /** `parseFloat(s)`: the longest StrDecimalLiteral after leading whitespace, else NaN. */
  function ParseFloat(s: string): Num {
    var t := TrimStart(s);
    var neg := t != [] && t[0] == '-';
    var u := if t != [] && (t[0] == '+' || t[0] == '-') then t[1..] else t;
    if StartsWith(u, "Infinity") then Infinity(neg)
    else
      var p := SplitDecimal(u);
      if |p.ip| + |p.fp| == 0 then NaN
      else
        var m := Scale10(Mantissa(p.ip, p.fp), ExponentPrefix(p.rest));
        Finite(if neg then -m else m)
  }

  // ---------------------------------------------------------------------------
  // Rounding
  // ---------------------------------------------------------------------------

  /** `Math.round(x)`: halves round up. */
  function MathRound(x: real): real {
    (x + 0.5).Floor as real
  }

  /** The integer `n` of `x.toFixed(f)`: `|x| * 10^f` rounded, halves away from zero. */
  function FixedDigits(x: real, f: nat): nat {
    var a := if x < 0.0 then -x else x;
    var n := (a * Pow10(f) + 0.5).Floor;
    if n < 0 then 0 else n
  }

  /** `x.toFixed(f)` (for |x| below 1e21). */
  function ToFixed(x: real, f: nat): string {
    var m := NatToString(FixedDigits(x, f));
    var body :=
      if f == 0 then m
      else
        var p := PadStart(m, f + 1, '0');
        p[..|p| - f] + "." + p[|p| - f..];
    (if x < 0.0 then "-" else "") + body
  }

  /** `+x.toFixed(f)`: the number that the string above denotes. */
  function FixedValue(x: real, f: nat): real {
    var v := FixedDigits(x, f) as real / Pow10(f);
    if x < 0.0 then -v else v
  }

  // ---------------------------------------------------------------------------
  // Lemmas
  // ---------------------------------------------------------------------------

  /** `|x| * 100` rounded, halves up: the digits of `x.toFixed(2)`. */
  function Cents(x: real): int {
    var a := if x < 0.0 then -x else x;
    var n := (a * 100.0 + 0.5).Floor;
    if n < 0 then 0 else n
  }

  /** `+x.toFixed(2)` is a whole number of hundredths, with the sign of `x`. */
  lemma FixedValueCents(x: real)
    ensures FixedValue(x, 2) == (if x < 0.0 then -(Cents(x) as real) else Cents(x) as real) / 100.0
  {
    assert Pow10(2) == 100.0 by {
      assert Pow10(1) == 10.0;
    }
    assert FixedDigits(x, 2) == Cents(x);
  }

  lemma FloorMonotone(a: real, b: real)
    requires a <= b
    ensures a.Floor <= b.Floor
  {
    assert a.Floor as real <= a;
    assert b < b.Floor as real + 1.0;
  }

  /** Rounding to two decimals never reverses the order of two numbers. */
  lemma FixedValueMonotone(a: real, b: real)
    requires a <= b
    ensures FixedValue(a, 2) <= FixedValue(b, 2)
  {
    FixedValueCents(a);
    FixedValueCents(b);
    if a < 0.0 && b < 0.0 {
      FloorMonotone(-b * 100.0 + 0.5, -a * 100.0 + 0.5);
    } else if 0.0 <= a {
      FloorMonotone(a * 100.0 + 0.5, b * 100.0 + 0.5);
    }
  }

  /** `Math.round` never reverses the order of two numbers. */
  lemma MathRoundMonotone(a: real, b: real)
    requires a <= b
    ensures MathRound(a) <= MathRound(b)
  {
    FloorMonotone(a + 0.5, b + 0.5);
  }

  /** `trimStart` drops the leading whitespace and nothing else. */
  lemma {:induction false} TrimStartShape(s: string)
    ensures TrimStart(s) == s[|s| - |TrimStart(s)|..]
    ensures TrimStart(s) == [] || !IsWhiteSpace(TrimStart(s)[0])
    ensures forall i :: 0 <= i < |s| - |TrimStart(s)| ==> IsWhiteSpace(s[i])
  {
    if s != [] && IsWhiteSpace(s[0]) {
      TrimStartShape(s[1..]);
    }
  }

  /** `trimEnd` drops the trailing whitespace and nothing else. */
  lemma {:induction false} TrimEndShape(s: string)
    ensures TrimEnd(s) == s[..|TrimEnd(s)|]
    ensures TrimEnd(s) == [] || !IsWhiteSpace(TrimEnd(s)[|TrimEnd(s)| - 1])
    ensures forall i :: |TrimEnd(s)| <= i < |s| ==> IsWhiteSpace(s[i])
  {
    if s != [] && IsWhiteSpace(s[|s| - 1]) {
      TrimEndShape(s[..|s| - 1]);
    }
  }

  /**
   * `trim` keeps the slice of `s` between its leading and its trailing whitespace:
   * the result neither starts nor ends with whitespace.
   */
  lemma {:induction false} TrimShape(s: string)
    ensures var r := Trim(s); var i := |s| - |TrimStart(s)|;
      i + |r| <= |s| && r == s[i..i + |r|]
      && (forall j :: 0 <= j < i ==> IsWhiteSpace(s[j]))
      && (forall j :: i + |r| <= j < |s| ==> IsWhiteSpace(s[j]))
      && (r == [] || (!IsWhiteSpace(r[0]) && !IsWhiteSpace(r[|r| - 1])))
  {
    var u := TrimStart(s);
    TrimStartShape(s);
    TrimEndShape(u);
    var i := |s| - |u|;
    var r := TrimEnd(u);
    forall j | i + |r| <= j < |s| ensures IsWhiteSpace(s[j]) {
      assert s[j] == u[j - i];
    }
  }

  /** `x.toFixed(f)` never ends in anything but a decimal digit. */
  lemma ToFixedEndsInDigit(x: real, f: nat)
    ensures var s := ToFixed(x, f); s != [] && IsDigit(s[|s| - 1])
  {
    var m := NatToString(FixedDigits(x, f));
    assert IsRadixDigit(m[|m| - 1], 10);
    if f > 0 {
      var p := PadStart(m, f + 1, '0');
      assert p[|p| - 1] == m[|m| - 1];
    }
  }

  /** Trimming a trimmed string changes nothing. */
  lemma TrimIdempotent(s: string)
    ensures Trim(Trim(s)) == Trim(s)
  {
    TrimShape(s);
    var t := Trim(s);
    assert TrimStart(t) == t;
    assert TrimEnd(t) == t;
  }

  /** A string that does not start with whitespace keeps a non-empty trim. */
  lemma TrimNotBlank(s: string)
    requires s != [] && !IsWhiteSpace(s[0])
    ensures Trim(s) != []
  {
    assert TrimStart(s) == s;
    TrimEndShape(s);
  }

  /** Removing whitespace after one character is removing it from the rest. */
  lemma {:induction false} RemoveWhiteSpaceConcat(a: string, b: string)
    ensures RemoveWhiteSpace(a + b) == RemoveWhiteSpace(a) + RemoveWhiteSpace(b)
    decreases |a|
  {
    if a == [] {
      assert a + b == b;
    } else {
      assert (a + b)[0] == a[0];
      assert (a + b)[1..] == a[1..] + b;
      RemoveWhiteSpaceConcat(a[1..], b);
    }
  }

  /** Leading whitespace is removed either way. */
  lemma {:induction false} RemoveWhiteSpaceTrimStart(s: string)
    ensures RemoveWhiteSpace(TrimStart(s)) == RemoveWhiteSpace(s)
    decreases |s|
  {
    if s != [] && IsWhiteSpace(s[0]) {
      RemoveWhiteSpaceTrimStart(s[1..]);
    }
  }

  /** Trailing whitespace is removed either way. */
  lemma {:induction false} RemoveWhiteSpaceTrimEnd(s: string)
    ensures RemoveWhiteSpace(TrimEnd(s)) == RemoveWhiteSpace(s)
    decreases |s|
  {
    if s != [] && IsWhiteSpace(s[|s| - 1]) {
      var p, c := s[..|s| - 1], s[|s| - 1];
      RemoveWhiteSpaceTrimEnd(p);
      assert s == p + [c];
      RemoveWhiteSpaceConcat(p, [c]);
      assert [c][1..] == [];
    }
  }

  /** Removing all whitespace makes a preceding trim irrelevant. */
  lemma {:induction false} RemoveWhiteSpaceTrim(s: string)
    ensures RemoveWhiteSpace(Trim(s)) == RemoveWhiteSpace(s)
  {
    RemoveWhiteSpaceTrimStart(s);
    RemoveWhiteSpaceTrimEnd(TrimStart(s));
  }

  /** `String(v)` of a value that is not a string is never blank. */
  lemma ToStringNotBlank(v: Value)
    requires !v.Str?
    ensures ToString(v) != [] && !IsWhiteSpace(ToString(v)[0])
    ensures Trim(ToString(v)) != []
  {
    if v.Number? && v.n.Finite? {
      var r := v.n.r;
      if r == r.Floor as real {
        if r.Floor >= 0 {
          assert IsRadixDigit(NatToString(r.Floor)[0], 10);
        }
      } else if r >= 0.0 {
        assert IsRadixDigit(NatToString(r.Floor)[0], 10);
      }
    }
    TrimNotBlank(ToString(v));
  }

  /** No character of `s` is whitespace. */
  predicate NoWhiteSpace(s: string) {
    forall i :: 0 <= i < |s| ==> !IsWhiteSpace(s[i])
  }

  /** Strings without whitespace are left alone by trimming and by whitespace removal. */
  lemma {:induction false} NoWhiteSpaceUnchanged(s: string)
    requires NoWhiteSpace(s)
    ensures Trim(s) == s && RemoveWhiteSpace(s) == s
  {
    if s != [] {
      assert TrimStart(s) == s;
      assert TrimEnd(s) == s;
      NoWhiteSpaceUnchanged(s[1..]);
      assert [s[0]] + s[1..] == s;
    }
  }

  /** Only the first occurrence is replaced. */
  lemma {:induction false} ReplaceFirstAt(p: string, a: char, b: char, q: string)
    requires a !in p
    ensures ReplaceFirst(p + [a] + q, a, b) == p + [b] + q
  {
    if p == [] {
      assert p + [a] + q == [a] + q;
    } else {
      assert (p + [a] + q)[0] == p[0];
      assert (p + [a] + q)[1..] == p[1..] + [a] + q;
      ReplaceFirstAt(p[1..], a, b, q);
    }
  }

  /** The digit run of digits followed by a non-digit is those digits. */
  lemma {:induction false} DigitRunOf(ds: string, rest: string)
    requires AllRadixDigits(ds, 10)
    requires rest == [] || !IsDigit(rest[0])
    ensures DigitRun(ds + rest) == ds
  {
    if ds == [] {
      assert ds + rest == rest;
    } else {
      assert (ds + rest)[0] == ds[0] && IsDigit(ds[0]);
      assert (ds + rest)[1..] == ds[1..] + rest;
      DigitRunOf(ds[1..], rest);
    }
  }

  /** `+"ip.fp"` is the decimal value of the digits, and a trailing non-numeric character makes it NaN. */
  lemma {:induction false} DecimalValue(ip: string, fp: string, rest: string)
    requires AllRadixDigits(ip, 10) && AllRadixDigits(fp, 10) && |ip| + |fp| > 0
    requires rest == [] || (rest[0] != 'e' && rest[0] != 'E' && !IsDigit(rest[0]))
    requires NoWhiteSpace(rest)
    ensures rest == [] ==> StringToNumber(ip + "." + fp + rest) == Finite(Mantissa(ip, fp))
    ensures rest != [] ==> StringToNumber(ip + "." + fp + rest) == NaN
  {
    var t := ip + "." + fp + rest;
    DigitsNoWhiteSpace(ip, '.', fp, rest);
    NoWhiteSpaceUnchanged(t);
    assert !(|t| > 2 && t[0] == '0' && t[1] in "xXoObB") by {
      if |ip| > 1 {
        assert t[1] == ip[1] && IsRadixDigit(ip[1], 10);
      } else if |ip| == 1 {
        assert t[1] == '.';
      }
    }
    DecimalLiteral(ip, fp, rest);
  }

  /** Digits around a non-whitespace separator, followed by a whitespace-free rest, hold no whitespace. */
  lemma {:induction false} DigitsNoWhiteSpace(ip: string, c: char, fp: string, rest: string)
    requires AllRadixDigits(ip, 10) && AllRadixDigits(fp, 10) && !IsWhiteSpace(c) && NoWhiteSpace(rest)
    ensures NoWhiteSpace(ip + [c] + fp + rest)
  {
    var t := ip + [c] + fp + rest;
    forall i | 0 <= i < |t| ensures !IsWhiteSpace(t[i]) {
      if i < |ip| {
        assert t[i] == ip[i] && IsRadixDigit(ip[i], 10);
      } else if i == |ip| {
        assert t[i] == c;
      } else if i < |ip| + 1 + |fp| {
        assert t[i] == fp[i - |ip| - 1] && IsRadixDigit(fp[i - |ip| - 1], 10);
      } else {
        assert t[i] == rest[i - |ip| - 1 - |fp|];
      }
    }
  }

  lemma {:induction false} DecimalLiteral(ip: string, fp: string, rest: string)
    requires AllRadixDigits(ip, 10) && AllRadixDigits(fp, 10) && |ip| + |fp| > 0
    requires rest == [] || (rest[0] != 'e' && rest[0] != 'E' && !IsDigit(rest[0]))
    ensures rest == [] ==> ParseDecimalLiteral(ip + "." + fp + rest) == Some(Finite(Mantissa(ip, fp)))
    ensures rest != [] ==> ParseDecimalLiteral(ip + "." + fp + rest) == None
  {
    var t := ip + "." + fp + rest;
    assert t[0] != '+' && t[0] != '-' && t != "Infinity" by {
      if ip != [] {
        assert t[0] == ip[0] && IsRadixDigit(ip[0], 10);
      } else {
        assert t[0] == '.';
      }
    }
    SplitDecimalOf(ip, fp, rest);
  }

  /** The parts of `ip.fp` followed by a non-digit are `ip`, `fp` and the rest. */
  lemma {:induction false} SplitDecimalOf(ip: string, fp: string, rest: string)
    requires AllRadixDigits(ip, 10) && AllRadixDigits(fp, 10)
    requires rest == [] || !IsDigit(rest[0])
    ensures SplitDecimal(ip + "." + fp + rest) == DecimalParts(ip, fp, rest)
  {
    var t := ip + "." + fp + rest;
    var tail := "." + fp + rest;
    assert t == ip + tail;
    DigitRunOf(ip, tail);
    assert t[|ip|..] == tail;
    assert tail[1..] == fp + rest;
    DigitRunOf(fp, rest);
    assert tail[1 + |fp|..] == rest;
    var d := SplitDecimal(t);
    assert d.ip == ip;
    assert d.fp == fp;
  }
}
