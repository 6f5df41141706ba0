/** The JavaScript string and number built-ins the filter engine relies on:
    truthiness of a filter value, `String.prototype.toLowerCase`, template-string
    conversion `${n}` of an integer and the global `parseInt` with its default radix. */
module JsStrings {
  import opened Wrappers

  /** A filter value as it arrives in a query object: a string or a number. */
  datatype FilterValue = Str(s: string) | Num(n: int)

  /** JavaScript truthiness: `""` and `0` are falsy, every other string or number is truthy. */
  predicate Truthy(value: FilterValue): (b: bool)
    ensures b <==> value != Str("") && value != Num(0)
  {
    match value
    case Str(s) => s != ""
    case Num(n) => n != 0
  }

  // ---------------------------------------------------------------------------
  // toLowerCase, restricted to the ASCII letters

  function LowerChar(c: char): char
  {
    if 'A' <= c <= 'Z' then (c as int + 32) as char else c
  }

  function ToLower(s: string): (r: string)
    ensures |r| == |s|
  {
    seq(|s|, i requires 0 <= i < |s| => LowerChar(s[i]))
  }

  /** `a.toLowerCase() === b.toLowerCase()` */
  predicate EqualsIgnoreCase(a: string, b: string): (r: bool)
    ensures r <==> |a| == |b| && forall i :: 0 <= i < |a| ==> LowerChar(a[i]) == LowerChar(b[i])
  {
    assert |a| == |b| && (forall i :: 0 <= i < |a| ==> LowerChar(a[i]) == LowerChar(b[i]))
           ==> ToLower(a) == ToLower(b) by {
      if |a| == |b| && forall i :: 0 <= i < |a| ==> LowerChar(a[i]) == LowerChar(b[i]) {
        assert forall i :: 0 <= i < |a| ==> ToLower(a)[i] == ToLower(b)[i];
      }
    }
    assert ToLower(a) == ToLower(b) ==> |a| == |b| && forall i :: 0 <= i < |a| ==> LowerChar(a[i]) == LowerChar(b[i]) by {
      if ToLower(a) == ToLower(b) {
        assert forall i :: 0 <= i < |a| ==> ToLower(a)[i] == LowerChar(a[i]) && ToLower(b)[i] == LowerChar(b[i]);
      }
    }
    ToLower(a) == ToLower(b)
  }

  // ---------------------------------------------------------------------------
  // Decimal digits

  predicate IsDigit(c: char)
  {
    '0' <= c <= '9'
  }

  function DigitValue(c: char): (d: nat)
    requires IsDigit(c)
    ensures d < 10
  {
    c as int - '0' as int
  }

  function DigitChar(d: nat): (c: char)
    requires d < 10
    ensures IsDigit(c) && DigitValue(c) == d
  {
    ('0' as int + d) as char
  }

  /** The shortest decimal spelling of a natural number, as JavaScript prints it. */
  function NatToDecimal(n: nat): (r: string)
    ensures r != []
    ensures forall i :: 0 <= i < |r| ==> IsDigit(r[i])
    decreases n
  {
    if n < 10 then [DigitChar(n)] else NatToDecimal(n / 10) + [DigitChar(n % 10)]
  }

  /** `${n}` for an integer `n`. */
  function IntToDecimal(n: int): string
  {
    if n < 0 then "-" + NatToDecimal(-n) else NatToDecimal(n)
  }

  /** The template string `${value}` built from a filter value. */
  function ToText(value: FilterValue): string
  {
    match value
    case Str(s) => s
    case Num(n) => IntToDecimal(n)
  }

  // ---------------------------------------------------------------------------
  // parseInt

  /** The white-space and line-terminator characters `parseInt` skips before the number. */
  predicate IsJsWhitespace(c: char)
  {
    c == ' ' || c == '\t' || c == '\n' || c == '\r' || c == '\U{B}' || c == '\U{C}'
    || c == '\U{A0}' || c == '\U{FEFF}' || c == '\U{2028}' || c == '\U{2029}'
  }

  function TrimStart(s: string): (r: string)
    ensures |r| <= |s|
    ensures r != [] ==> !IsJsWhitespace(r[0])
  {
    if s != [] && IsJsWhitespace(s[0]) then TrimStart(s[1..]) else s
  }

  /** What `TrimStart` leaves is a suffix of its input. */
  lemma {:induction false} TrimStartIsSuffix(s: string)
    ensures TrimStart(s) == s[|s| - |TrimStart(s)|..]
  {
    if s != [] && IsJsWhitespace(s[0]) {
      TrimStartIsSuffix(s[1..]);
    }
  }

  /** The longest prefix of `s` made of decimal digits. */
  function DigitPrefix(s: string): (r: string)
    ensures |r| <= |s| && r == s[..|r|]
    ensures forall i :: 0 <= i < |r| ==> IsDigit(r[i])
  {
    if s != [] && IsDigit(s[0]) then [s[0]] + DigitPrefix(s[1..]) else []
  }

  /** The number a string of decimal digits spells, most significant digit first. */
  function DigitsValue(ds: string): nat
    requires forall i :: 0 <= i < |ds| ==> IsDigit(ds[i])
  {
    if ds == [] then 0 else DigitsValue(ds[..|ds| - 1]) * 10 + DigitValue(ds[|ds| - 1])
  }

  /** `parseInt(s)` with its default radix on a decimal string: leading white space,
      an optional sign, then the longest run of decimal digits; `None` is `NaN`,
      returned when there is no digit at all. */
  function ParseInt(s: string): (r: Option<int>)
    ensures (forall i :: 0 <= i < |s| ==> !IsDigit(s[i])) ==> r == None
    ensures s != [] && IsDigit(s[0]) ==> r.Some? && r.value >= 0
  {
    TrimStartIsSuffix(s);
    var t := TrimStart(s);
    var unsigned := if t != [] && (t[0] == '-' || t[0] == '+') then t[1..] else t;
    var digits := DigitPrefix(unsigned);
    var magnitude: int := DigitsValue(digits);
    if digits == [] then None
    else if t[0] == '-' then Some(-magnitude)
    else Some(magnitude)
  }

  lemma {:induction false} DigitPrefixOfDigits(ds: string)
    requires forall i :: 0 <= i < |ds| ==> IsDigit(ds[i])
    ensures DigitPrefix(ds) == ds
  {
    if ds != [] {
      DigitPrefixOfDigits(ds[1..]);
    }
  }

  lemma {:induction false} DigitsValueOfDecimal(n: nat)
    ensures DigitsValue(NatToDecimal(n)) == n
    decreases n
  {
    if n >= 10 {
      var ds := NatToDecimal(n);
      assert ds[..|ds| - 1] == NatToDecimal(n / 10);
      DigitsValueOfDecimal(n / 10);
    }
  }

  /** `parseInt(`${n}`)` gives `n` back for every integer `n`, so a numeric filter
      value reaches the comparison unchanged. */
  lemma ParseIntOfDecimal(n: int)
    ensures ParseInt(ToText(Num(n))) == Some(n)
  {
    var text := ToText(Num(n));
    var magnitude := if n < 0 then -n else n;
    var ds := NatToDecimal(magnitude);
    assert TrimStart(text) == text;
    DigitPrefixOfDigits(ds);
    DigitsValueOfDecimal(magnitude);
    if n < 0 {
      assert text[1..] == ds;
    }
  }

  lemma {:induction false} DigitPrefixStopsAtNonDigit(ds: string, rest: string)
    requires forall i :: 0 <= i < |ds| ==> IsDigit(ds[i])
    requires rest == [] || !IsDigit(rest[0])
    ensures DigitPrefix(ds + rest) == ds
  {
    if ds != [] {
      assert (ds + rest)[1..] == ds[1..] + rest;
      DigitPrefixStopsAtNonDigit(ds[1..], rest);
    }
  }

  lemma ParseIntOfLeadingDigit(text: string)
    requires text != [] && IsDigit(text[0])
    ensures ParseInt(text) == Some(DigitsValue(DigitPrefix(text)))
  {
    assert !IsJsWhitespace(text[0]) && text[0] != '-' && text[0] != '+';
    assert TrimStart(text) == text;
    assert DigitPrefix(text) != [];
  }

  lemma ParseIntOfLeadingMinus(text: string)
    requires text != [] && text[0] == '-' && DigitPrefix(text[1..]) != []
    ensures ParseInt(text) == Some(-(DigitsValue(DigitPrefix(text[1..])) as int))
  {
    assert TrimStart(text) == text;
  }

  /** `parseInt` reads the longest decimal prefix and ignores what follows it: the
      decimal form of `n` followed by anything that does not start with a digit reads
      as `n`, so `"1.6"` reads as 1 and `"120g"` as 120. */
  lemma ParseIntOfDecimalPrefix(n: int, rest: string)
    requires rest == [] || !IsDigit(rest[0])
    ensures ParseInt(IntToDecimal(n) + rest) == Some(n)
  {
    var magnitude := if n < 0 then -n else n;
    var ds := NatToDecimal(magnitude);
    DigitPrefixStopsAtNonDigit(ds, rest);
    DigitsValueOfDecimal(magnitude);
    if n < 0 {
      var text := ['-'] + (ds + rest);
      assert text[1..] == ds + rest;
      ParseIntOfLeadingMinus(text);
      assert IntToDecimal(n) + rest == text;
    } else {
      ParseIntOfLeadingDigit(ds + rest);
    }
  }

  /** The string `"0"` is truthy and reads as the number zero. */
  lemma ParseIntOfZeroText()
    ensures Truthy(Str("0")) && ParseInt(ToText(Str("0"))) == Some(0)
  {
    assert DigitPrefix("0") == "0";
  }

  /** The string `"1.6"` is truthy and reads as 1: the fraction is dropped. */
  lemma ParseIntOfFractionText()
    ensures Truthy(Str("1.6")) && ParseInt(ToText(Str("1.6"))) == Some(1)
  {
    assert ToText(Str("1.6")) == IntToDecimal(1) + ".6";
    ParseIntOfDecimalPrefix(1, ".6");
  }
}
