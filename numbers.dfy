/** JavaScript numbers as the calculator uses them, and its tolerant parser
    `parseNum` (script.js:64-73) together with the part of JavaScript's
    `Number(string)` conversion that the parser relies on. NaN, the
    calculator's "missing" marker, is `None`. */
module Numbers {
  import opened Wrappers

  /** A JavaScript number; `None` stands for NaN. */
  type JsNumber = Option<real>

  /** What `parseNum` is applied to: an absent field or attribute
      (`undefined`), `null`, a number, or the text of an input. */
  datatype JsValue = Undefined | Null | Number(n: JsNumber) | Text(s: string)

  /** JavaScript truthiness of a number: neither NaN nor zero. */
  predicate Truthy(x: JsNumber) {
    x.Some? && x.value != 0.0
  }

  /** The expression `x || fallback` on numbers: both NaN and 0 fall through. */
  function Or(x: JsNumber, fallback: JsNumber): JsNumber {
    if Truthy(x) then x else fallback
  }

  /** `x || 0`: the value of `x`, or 0 when it is missing. */
  function OrZero(x: JsNumber): (r: real)
    ensures r == x.GetOr(0.0)
  {
    Or(x, Some(0.0)).value
  }

  // ---------------------------------------------------------------------
  // Trimming, as String.prototype.trim does it

  /** White space and line terminators in the sense of ECMAScript. */
  predicate IsWhiteSpace(c: char) {
    || c == '\t' || c == '\n' || c == '\U{000B}' || c == '\U{000C}' || c == '\r'
    || c == ' ' || c == '\U{00A0}' || c == '\U{1680}' || ('\U{2000}' <= c <= '\U{200A}')
    || c == '\U{2028}' || c == '\U{2029}' || c == '\U{202F}' || c == '\U{205F}'
    || c == '\U{3000}' || c == '\U{FEFF}'
  }

  predicate Blank(s: string) {
    forall i | 0 <= i < |s| :: IsWhiteSpace(s[i])
  }

  /** Drops leading white space. */
  function TrimStart(s: string): string {
    if |s| > 0 && IsWhiteSpace(s[0]) then TrimStart(s[1..]) else s
  }

  /** TrimStart leaves the suffix of `s` that starts at its first non-blank
      character, and what it drops is all white space. */
  lemma {:induction false} TrimStartSuffix(s: string)
    ensures var r := TrimStart(s);
      && |r| <= |s| && r == s[|s| - |r|..]
      && (r == [] || !IsWhiteSpace(r[0]))
      && Blank(s[..|s| - |r|])
  {
    if |s| > 0 && IsWhiteSpace(s[0]) {
      TrimStartSuffix(s[1..]);
      var r := TrimStart(s);
      assert s[..|s| - |r|] == [s[0]] + s[1..][..|s| - 1 - |r|];
    }
  }

  /** Drops trailing white space. */
  function TrimEnd(s: string): string {
    if |s| > 0 && IsWhiteSpace(s[|s| - 1]) then TrimEnd(s[..|s| - 1]) else s
  }

  /** TrimEnd leaves the prefix of `s` that ends at its last non-blank
      character, and what it drops is all white space. */
  lemma {:induction false} TrimEndPrefix(s: string)
    ensures var r := TrimEnd(s);
      && |r| <= |s| && r == s[..|r|]
      && (r == [] || !IsWhiteSpace(r[|r| - 1]))
      && Blank(s[|r|..])
  {
    if |s| > 0 && IsWhiteSpace(s[|s| - 1]) {
      TrimEndPrefix(s[..|s| - 1]);
      var r := TrimEnd(s);
      assert s[|r|..] == s[..|s| - 1][|r|..] + [s[|s| - 1]];
    }
  }

  /** String.prototype.trim: what is left neither starts nor ends with
      white space, and is no longer than the text. */
  function Trim(s: string): (r: string)
    ensures |r| <= |s|
    ensures r != [] ==> !IsWhiteSpace(r[0]) && !IsWhiteSpace(r[|r| - 1])
  {
    var t := TrimStart(s);
    TrimStartSuffix(s);
    TrimEndPrefix(t);
    TrimEnd(t)
  }

  /** Trimming leaves nothing exactly when the text is all white space. */
  lemma TrimEmptyIffBlank(s: string)
    ensures Trim(s) == [] <==> Blank(s)
  {
    var t := TrimStart(s);
    TrimStartSuffix(s);
    TrimEndPrefix(t);
    if Trim(s) == [] {
      assert Blank(t[0..]);
      assert s == s[..|s| - |t|] + t;
    }
    if t != [] {
      assert t[0] == s[|s| - |t|];
    }
  }

  // ---------------------------------------------------------------------
  // Comma normalisation

  /** Every comma becomes a period; every other character is kept. */
  function ReplaceCommas(s: string): (r: string)
    ensures |r| == |s|
    ensures forall i | 0 <= i < |s| :: r[i] == (if s[i] == ',' then '.' else s[i])
  {
    if s == [] then [] else [if s[0] == ',' then '.' else s[0]] + ReplaceCommas(s[1..])
  }

  /** Trimming and comma replacement commute: neither a comma nor a period is
      white space. */
  lemma {:induction false} TrimStartReplaceCommas(s: string)
    ensures TrimStart(ReplaceCommas(s)) == ReplaceCommas(TrimStart(s))
    decreases |s|
  {
    var c := ReplaceCommas(s);
    if |s| > 0 {
      assert IsWhiteSpace(c[0]) == IsWhiteSpace(s[0]);
      if IsWhiteSpace(s[0]) {
        assert c[1..] == ReplaceCommas(s[1..]);
        TrimStartReplaceCommas(s[1..]);
      }
    }
  }

  lemma {:induction false} TrimEndReplaceCommas(s: string)
    ensures TrimEnd(ReplaceCommas(s)) == ReplaceCommas(TrimEnd(s))
    decreases |s|
  {
    var c := ReplaceCommas(s);
    if |s| > 0 {
      assert IsWhiteSpace(c[|c| - 1]) == IsWhiteSpace(s[|s| - 1]);
      if IsWhiteSpace(s[|s| - 1]) {
        assert c[..|c| - 1] == ReplaceCommas(s[..|s| - 1]);
        TrimEndReplaceCommas(s[..|s| - 1]);
      }
    }
  }

  lemma ReplaceCommasIdempotent(s: string)
    ensures ReplaceCommas(ReplaceCommas(s)) == ReplaceCommas(s)
  {
  }

  // ---------------------------------------------------------------------
  // Digits and powers of ten

  /** The value of `c` as a digit (hexadecimal letters in either case), or 16
      for a character that is no digit in any radix used here. */
  function DigitOf(c: char): nat {
    if '0' <= c <= '9' then c as nat - '0' as nat
    else if 'a' <= c <= 'f' then c as nat - 'a' as nat + 10
    else if 'A' <= c <= 'F' then c as nat - 'A' as nat + 10
    else 16
  }

  predicate AllDigits(s: string, radix: nat) {
    forall i | 0 <= i < |s| :: DigitOf(s[i]) < radix
  }

  /** The value of a string of digits in the given radix, most significant first. */
  function DigitsValue(s: string, radix: nat): nat
    requires AllDigits(s, radix)
  {
    if s == [] then 0 else DigitsValue(s[..|s| - 1], radix) * radix + DigitOf(s[|s| - 1])
  }

  function Pow10(n: nat): (r: real)
    ensures r >= 1.0
  {
    if n == 0 then 1.0 else 10.0 * Pow10(n - 1)
  }

  /** `x` times ten to the power `e`, for an exponent of either sign. */
  function ScaleByPow10(x: real, e: int): real {
    if e >= 0 then x * Pow10(e) else x / Pow10(-e)
  }

  /** The position of the first character of `s` that is in `marks`, or |s|. */
  function FirstIndex(s: string, marks: set<char>): (k: nat)
    ensures k <= |s|
    ensures k < |s| ==> s[k] in marks
    ensures forall i | 0 <= i < k :: s[i] !in marks
  {
    if s == [] || s[0] in marks then 0 else 1 + FirstIndex(s[1..], marks)
  }

  // ---------------------------------------------------------------------
  // Number(text) on a trimmed, non-empty text

  /** Digits with at most one decimal point and at least one digit, as in
      "5", ".5", "5." or "5.25". */
  function DecimalMantissa(m: string): JsNumber {
    var p := FirstIndex(m, {'.'});
    var whole := m[..p];
    var fraction := if p < |m| then m[p + 1..] else "";
    if |whole| + |fraction| > 0 && AllDigits(whole, 10) && AllDigits(fraction, 10) then
      Some(MantissaValue(whole, fraction))
    else
      None
  }

  /** The value of the decimal "whole.fraction". */
  function MantissaValue(whole: string, fraction: string): real
    requires AllDigits(whole, 10) && AllDigits(fraction, 10)
  {
    DigitsValue(whole, 10) as real + DigitsValue(fraction, 10) as real / Pow10(|fraction|)
  }

  /** The exponent that follows `e` or `E`: an optional sign and at least one digit. */
  function ExponentValue(e: string): Option<int> {
    var signed := |e| > 0 && (e[0] == '+' || e[0] == '-');
    var digits := if signed then e[1..] else e;
    if |digits| > 0 && AllDigits(digits, 10) then
      Some(if signed && e[0] == '-' then -(DigitsValue(digits, 10) as int) else DigitsValue(digits, 10))
    else
      None
  }

  function UnsignedDecimal(u: string): JsNumber {
    var k := FirstIndex(u, {'e', 'E'});
    match DecimalMantissa(u[..k])
    case None => None
    case Some(m) =>
      if k == |u| then Some(m)
      else
        match ExponentValue(u[k + 1..])
        case None => None
        case Some(e) => Some(ScaleByPow10(m, e))
  }

  function SignedDecimal(t: string): JsNumber {
    if |t| > 0 && t[0] == '-' then
      match UnsignedDecimal(t[1..])
      case None => None
      case Some(x) => Some(-x)
    else if |t| > 0 && t[0] == '+' then UnsignedDecimal(t[1..])
    else UnsignedDecimal(t)
  }

  /** The radix named by a "0x", "0o" or "0b" prefix (either case), or 0. */
  function RadixPrefix(t: string): nat {
    if |t| >= 2 && t[0] == '0' then
      if t[1] == 'x' || t[1] == 'X' then 16
      else if t[1] == 'o' || t[1] == 'O' then 8
      else if t[1] == 'b' || t[1] == 'B' then 2
      else 0
    else 0
  }

  /** No character of `s` is one of the decimal digits 0-9. */
  predicate NoDecimalDigit(s: string) {
    forall i | 0 <= i < |s| :: !('0' <= s[i] <= '9')
  }

  /** `Number(t)` for a trimmed, non-empty `t`: a hexadecimal, octal or binary
      integer after its prefix, or a signed decimal with optional exponent.
      Text without a decimal digit is never a number: every prefix starts
      with the digit 0, and a mantissa needs a digit before or after its
      point. */
  function NumberFromText(t: string): (r: JsNumber)
    ensures NoDecimalDigit(t) ==> r == None
  {
    var radix := RadixPrefix(t);
    if radix != 0 then
      if |t| > 2 && AllDigits(t[2..], radix) then Some(DigitsValue(t[2..], radix) as real) else None
    else
      SignedDecimalNeedsDigit(t);
      SignedDecimal(t)
  }

  lemma MantissaNeedsDigit(m: string)
    requires NoDecimalDigit(m)
    ensures DecimalMantissa(m) == None
  {
    var p := FirstIndex(m, {'.'});
    if p > 0 {
      assert m[..p][0] == m[0];
    } else if p + 1 < |m| {
      assert m[p + 1..][0] == m[p + 1];
    }
  }

  lemma SignedDecimalNeedsDigit(t: string)
    ensures NoDecimalDigit(t) ==> SignedDecimal(t) == None
  {
    if NoDecimalDigit(t) {
      var u := if |t| > 0 && (t[0] == '-' || t[0] == '+') then t[1..] else t;
      assert NoDecimalDigit(u);
      var k := FirstIndex(u, {'e', 'E'});
      assert NoDecimalDigit(u[..k]);
      MantissaNeedsDigit(u[..k]);
    }
  }

  /** Neither trimming nor comma replacement brings in a digit. */
  lemma NormalisedNoDecimalDigit(s: string)
    ensures NoDecimalDigit(s) ==> NoDecimalDigit(ReplaceCommas(Trim(s)))
  {
    if NoDecimalDigit(s) {
      var t := TrimStart(s);
      TrimStartSuffix(s);
      TrimEndPrefix(t);
      var u := Trim(s);
      assert u == s[|s| - |t|..][..|u|];
      assert NoDecimalDigit(u);
    }
  }

  /** parseNum: NaN for `undefined`, `null` and blank text; a number is
      returned as it is; text is trimmed, its commas become periods, and the
      result is converted as `Number` converts it, so text in which no
      decimal digit occurs ("abc", "-", ".") is NaN as well. */
  function ParseNum(v: JsValue): (r: JsNumber)
    ensures v.Undefined? || v.Null? ==> r == None
    ensures v.Number? ==> r == v.n
    ensures v.Text? && Blank(v.s) ==> r == None
    ensures v.Text? && NoDecimalDigit(v.s) ==> r == None
  {
    match v
    case Undefined => None
    case Null => None
    case Number(n) => n
    case Text(s) =>
      var t := Trim(s);
      TrimEmptyIffBlank(s);
      NormalisedNoDecimalDigit(s);
      if t == "" then None else NumberFromText(ReplaceCommas(t))
  }


  /** A comma and a period are the same decimal separator: replacing the
      commas of the text beforehand changes nothing. */
  lemma ParseNumCommaIsPoint(s: string)
    ensures ParseNum(Text(ReplaceCommas(s))) == ParseNum(Text(s))
  {
    var t := TrimStart(s);
    TrimStartReplaceCommas(s);
    TrimEndReplaceCommas(t);
    ReplaceCommasIdempotent(Trim(s));
    assert Trim(ReplaceCommas(s)) == ReplaceCommas(Trim(s));
  }

  // ---------------------------------------------------------------------
  // Decimal text of a natural number, the partner of the parser

  function DigitChar(d: nat): (c: char)
    requires d < 10
    ensures DigitOf(c) == d
  {
    ('0' as nat + d) as char
  }

  /** The decimal digits of `n`, most significant first, without leading zeros. */
  function DecimalText(n: nat): (s: string)
    ensures |s| > 0 && AllDigits(s, 10)
    decreases n
  {
    if n < 10 then [DigitChar(n)] else DecimalText(n / 10) + [DigitChar(n % 10)]
  }

  lemma {:induction false} DecimalTextValue(n: nat)
    ensures DigitsValue(DecimalText(n), 10) == n
    decreases n
  {
    if n >= 10 {
      var s := DecimalText(n);
      assert s[..|s| - 1] == DecimalText(n / 10);
      DecimalTextValue(n / 10);
    }
  }

  /** Text that begins and ends with a digit is left alone by trimming. */
  lemma TrimDigits(s: string)
    requires |s| > 0 && DigitOf(s[0]) < 10 && DigitOf(s[|s| - 1]) < 10
    ensures Trim(s) == s
  {
  }

  lemma FirstIndexAbsent(s: string, marks: set<char>)
    requires forall i | 0 <= i < |s| :: s[i] !in marks
    ensures FirstIndex(s, marks) == |s|
  {
  }

  /** Text without an exponent mark and without a sign or radix prefix
      converts as its mantissa. */
  lemma NumberFromMantissa(t: string)
    requires |t| > 0 && DigitOf(t[0]) < 10
    requires |t| >= 2 ==> t[1] == '.' || DigitOf(t[1]) < 10
    requires forall i | 0 <= i < |t| :: t[i] !in {'e', 'E'}
    ensures NumberFromText(t) == DecimalMantissa(t)
  {
    assert RadixPrefix(t) == 0;
    assert SignedDecimal(t) == UnsignedDecimal(t);
    FirstIndexAbsent(t, {'e', 'E'});
    assert t[..|t|] == t;
  }

  /** A string of digits without a period is a mantissa with no fraction. */
  lemma MantissaOfDigits(s: string)
    requires |s| > 0 && AllDigits(s, 10)
    ensures DecimalMantissa(s) == Some(DigitsValue(s, 10) as real)
  {
    assert forall i | 0 <= i < |s| :: s[i] !in {'.'} by {
      forall i | 0 <= i < |s| ensures s[i] !in {'.'} {
        assert DigitOf(s[i]) < 10;
      }
    }
    FirstIndexAbsent(s, {'.'});
    var p := FirstIndex(s, {'.'});
    assert p == |s|;
    assert s[..p] == s;
    assert MantissaValue(s, []) == DigitsValue(s, 10) as real by {
      assert DigitsValue([], 10) == 0;
      assert Pow10(0) == 1.0;
    }
  }

  /** A non-empty string of decimal digits converts to its value. */
  lemma NumberFromDigits(s: string)
    requires |s| > 0 && AllDigits(s, 10)
    ensures NumberFromText(s) == Some(DigitsValue(s, 10) as real)
  {
    NumberFromMantissa(s);
    MantissaOfDigits(s);
  }

  lemma FirstIndexAt(s: string, marks: set<char>, k: nat)
    requires k < |s| && s[k] in marks
    requires forall i | 0 <= i < k :: s[i] !in marks
    ensures FirstIndex(s, marks) == k
  {
  }

  /** The mantissa "a.b" has the value a + b / 10^|b|. */
  lemma MantissaPointed(a: string, b: string)
    requires |a| > 0 && AllDigits(a, 10) && AllDigits(b, 10)
    ensures DecimalMantissa(a + "." + b) == Some(MantissaValue(a, b))
  {
    var t := a + "." + b;
    assert forall i | 0 <= i < |a| :: t[i] == a[i];
    assert t[|a|] == '.';
    FirstIndexAt(t, {'.'}, |a|);
    assert t[..|a|] == a;
    assert t[|a| + 1..] == b;
  }

  /** Digits, a period and digits convert to the whole part plus the fraction. */
  lemma NumberFromPointed(a: string, b: string)
    requires |a| > 0 && AllDigits(a, 10) && AllDigits(b, 10)
    ensures NumberFromText(a + "." + b) == Some(MantissaValue(a, b))
  {
    var t := a + "." + b;
    assert t[0] == a[0];
    assert |t| >= 2 && (t[1] == '.' || t[1] == a[1]);
    assert forall i | 0 <= i < |t| :: t[i] !in {'e', 'E'} by {
      forall i | 0 <= i < |t| ensures t[i] !in {'e', 'E'} {
        if i < |a| { assert t[i] == a[i]; }
        else if i > |a| { assert t[i] == b[i - |a| - 1]; }
      }
    }
    NumberFromMantissa(t);
    MantissaPointed(a, b);
  }

  /** Text of digits only, possibly with commas, reaches the converter
      with its commas replaced and nothing trimmed. */
  lemma ParseNumUntrimmed(s: string)
    requires |s| > 0 && DigitOf(s[0]) < 10 && DigitOf(s[|s| - 1]) < 10
    ensures ParseNum(Text(s)) == NumberFromText(ReplaceCommas(s))
  {
    TrimDigits(s);
  }

  /** Parsing the decimal text of a natural number gives that number back. */
  lemma ParseNumDecimalText(n: nat)
    ensures ParseNum(Text(DecimalText(n))) == Some(n as real)
  {
    var s := DecimalText(n);
    ParseNumUntrimmed(s);
    assert ReplaceCommas(s) == s;
    NumberFromDigits(s);
    DecimalTextValue(n);
  }

  lemma ReplaceCommasDigits(x: string)
    requires AllDigits(x, 10)
    ensures ReplaceCommas(x) == x
  {
  }

  /** Comma replacement works character by character, so it distributes
      over concatenation. */
  lemma {:induction false} ReplaceCommasAppend(a: string, b: string)
    ensures ReplaceCommas(a + b) == ReplaceCommas(a) + ReplaceCommas(b)
    decreases |a|
  {
    if a != [] {
      assert (a + b)[1..] == a[1..] + b;
      ReplaceCommasAppend(a[1..], b);
    }
  }

  lemma ReplaceCommasJoin(a: string, b: string)
    ensures ReplaceCommas(a + "," + b) == ReplaceCommas(a) + "." + ReplaceCommas(b)
  {
    assert a + "," + b == a + ("," + b);
    ReplaceCommasAppend(a, "," + b);
    ReplaceCommasAppend(",", b);
  }

  /** Digits, a comma and digits parse as if the comma were a period. */
  lemma ParseNumCommaDigits(a: string, b: string)
    requires |a| > 0 && |b| > 0 && AllDigits(a, 10) && AllDigits(b, 10)
    ensures ParseNum(Text(a + "," + b)) == Some(MantissaValue(a, b))
  {
    var s := a + "," + b;
    assert s[0] == a[0] && s[|s| - 1] == b[|b| - 1];
    ParseNumUntrimmed(s);
    ReplaceCommasJoin(a, b);
    ReplaceCommasDigits(a);
    ReplaceCommasDigits(b);
    NumberFromPointed(a, b);
  }

  lemma MantissaTwelveFive()
    ensures MantissaValue("12", "5") == 12.5
  {
    assert DigitsValue("1", 10) == 1;
    assert DigitsValue("12", 10) == 12;
    assert DigitsValue("5", 10) == 5;
    assert Pow10(1) == 10.0;
  }

  /** The locale example: "12,5" reads as 12.5. */
  lemma ParseNumTwelveComma5()
    ensures ParseNum(Text("12,5")) == Some(12.5)
  {
    assert "12,5" == "12" + "," + "5";
    ParseNumCommaDigits("12", "5");
    MantissaTwelveFive();
  }
}
