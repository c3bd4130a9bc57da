/** BRL amounts as text. */
module Money {
  import opened Domain

  predicate IsDigit(c: char) {
    '0' <= c <= '9'
  }

  predicate AllDigits(s: string) {
    forall i | 0 <= i < |s| :: IsDigit(s[i])
  }

  /** The number a digit string writes in base ten. */
  function Number(s: string): nat
    requires AllDigits(s)
  {
    if s == [] then 0 else 10 * Number(s[..|s| - 1]) + (s[|s| - 1] as int - '0' as int)
  }

  /** value is the digits of whole, with a point and one or two digits after it or not. */
  predicate IsDecimal(value: string, whole: string, fraction: string) {
    && whole != [] && AllDigits(whole) && AllDigits(fraction) && |fraction| <= 2
    && value == if fraction == [] then whole else whole + "." + fraction
  }

  function Cents(whole: string, fraction: string): nat
    requires AllDigits(whole) && AllDigits(fraction) && |fraction| <= 2
  {
    100 * Number(whole) + (if |fraction| == 1 then 10 * Number(fraction) else Number(fraction))
  }

  /** strings.Split on the point. */
  function Split(s: string): seq<string> {
    if '.' !in s then [s]
    else
      var i := PointIndex(s);
      [s[..i]] + Split(s[i + 1..])
  }

  function PointIndex(s: string): (i: nat)
    requires '.' in s
    ensures i < |s| && s[i] == '.' && '.' !in s[..i]
  {
    if s[0] == '.' then 0 else 1 + PointIndex(s[1..])
  }

  /** Splitting loses nothing: the parts are free of points and rebuild the text. */
  lemma {:induction false} SplitParts(s: string)
    ensures |Split(s)| >= 1
    ensures |Split(s)| == 1 ==> s == Split(s)[0]
    ensures |Split(s)| == 2 ==> s == Split(s)[0] + "." + Split(s)[1]
  {
    if '.' in s {
      var i := PointIndex(s);
      SplitParts(s[i + 1..]);
      assert s == s[..i] + "." + s[i + 1..];
    }
  }

  lemma {:induction false} SplitDecimal(whole: string, fraction: string)
    requires AllDigits(whole) && AllDigits(fraction)
    ensures Split(whole) == [whole] && Split(whole + "." + fraction) == [whole, fraction]
  {
    assert '.' !in whole && '.' !in fraction;
    var s := whole + "." + fraction;
    assert s[|whole|] == '.';
    var i := PointIndex(s);
    assert forall k | 0 <= k < |whole| :: s[k] == whole[k];
    assert i == |whole|;
    assert s[..i] == whole && s[i + 1..] == fraction;
  }

  method AsciiDigits(value: string) returns (ok: bool)
    ensures ok <==> value != [] && AllDigits(value)
  {
    if value == [] {
      return false;
    }
    for i := 0 to |value|
      invariant AllDigits(value[..i])
    {
      if value[i] < '0' || value[i] > '9' {
        return false;
      }
      assert value[..i + 1] == value[..i] + [value[i]];
    }
    assert value[..|value|] == value;
    return true;
  }

  /** strconv.ParseInt of a digit string: None beyond int64. */
  method ParseInt(s: string) returns (r: Option<nat>)
    requires AllDigits(s)
    ensures r == if Number(s) <= MAX_INT64 then Some(Number(s)) else None
  {
    var n := 0;
    for i := 0 to |s|
      invariant n == Number(s[..i]) && n <= MAX_INT64
    {
      assert s[..i + 1][..i] == s[..i];
      n := 10 * n + (s[i] as int - '0' as int);
      if n > MAX_INT64 {
        NumberGrows(s, i + 1);
        return None;
      }
    }
    assert s[..|s|] == s;
    return Some(n);
  }

  lemma {:induction false} NumberGrows(s: string, i: nat)
    requires AllDigits(s) && i <= |s|
    ensures Number(s[..i]) <= Number(s)
    decreases |s| - i
  {
    if i == |s| {
      assert s[..i] == s;
    } else {
      assert s[..i + 1][..i] == s[..i];
      NumberGrows(s, i + 1);
    }
  }

  /** Accepts exactly the decimals whose value in cents is positive and fits in
      int64, and returns that value. */
  method ParseBRL(value: string) returns (r: Option<nat>)
    ensures r.Some? <==>
      exists whole, fraction :: IsDecimal(value, whole, fraction) && 1 <= Cents(whole, fraction) <= MAX_INT64
    ensures forall whole, fraction | r.Some? && IsDecimal(value, whole, fraction) ::
      r.value == Cents(whole, fraction)
  {
    forall whole, fraction | IsDecimal(value, whole, fraction)
      ensures Split(value) == if fraction == [] then [whole] else [whole, fraction]
    {
      SplitDecimal(whole, fraction);
    }
    SplitParts(value);
    if value == [] || value[0] == '+' || value[0] == '-' {
      return None;
    }
    var parts := Split(value);
    if |parts| > 2 || parts[0] == [] || (|parts| == 2 && (|parts[1]| == 0 || |parts[1]| > 2)) {
      return None;
    }
    var wholeDigits := AsciiDigits(parts[0]);
    var fractionDigits := true;
    if |parts| == 2 {
      fractionDigits := AsciiDigits(parts[1]);
    }
    if !wholeDigits || !fractionDigits {
      return None;
    }
    ghost var fractionPart := if |parts| == 2 then parts[1] else [];
    assert IsDecimal(value, parts[0], fractionPart);
    var whole := ParseInt(parts[0]);
    if whole.None? {
      return None;
    }
    var fraction := 0;
    if |parts| == 2 {
      var fractionText := parts[1];
      if |fractionText| == 1 {
        fractionText := fractionText + "0";
        assert fractionText[..1] == parts[1];
      }
      SmallNumber(fractionText);
      var parsed := ParseInt(fractionText);
      fraction := parsed.value;
    }
    assert Cents(parts[0], fractionPart) == 100 * whole.value + fraction;
    if whole.value > (MAX_INT64 - fraction) / 100 {
      return None;
    }
    var amount := whole.value * 100 + fraction;
    if amount <= 0 {
      return None;
    }
    return Some(amount);
  }

  lemma SmallNumber(s: string)
    requires |s| == 2 && AllDigits(s)
    ensures Number(s) <= 99
  {
    assert s[..1][..0] == [];
    assert Number(s[..1]) <= 9;
  }

  /* ---- Printing ---- */

  function DigitChar(n: nat): char
    requires n < 10
  {
    (n + '0' as int) as char
  }

  /** %d of a non-negative number. */
  function Decimal(n: nat): string {
    if n < 10 then [DigitChar(n)] else Decimal(n / 10) + [DigitChar(n % 10)]
  }

  /** Money.String: %d.%02d. */
  function Print(minor: nat): string {
    Decimal(minor / 100) + "." + [DigitChar(minor % 100 / 10), DigitChar(minor % 10)]
  }

  lemma {:induction false} DecimalIsNumber(n: nat)
    ensures Decimal(n) != [] && AllDigits(Decimal(n)) && Number(Decimal(n)) == n
  {
    if n < 10 {
      assert Decimal(n)[..0] == [];
    } else {
      DecimalIsNumber(n / 10);
      assert Decimal(n)[..|Decimal(n)| - 1] == Decimal(n / 10);
    }
  }

  /** The printed text is a decimal of the printed amount. */
  lemma {:induction false} PrintIsDecimal(minor: nat)
    ensures
      var fraction := [DigitChar(minor % 100 / 10), DigitChar(minor % 10)];
      && IsDecimal(Print(minor), Decimal(minor / 100), fraction)
      && Cents(Decimal(minor / 100), fraction) == minor
  {
    DecimalIsNumber(minor / 100);
    var fraction := [DigitChar(minor % 100 / 10), DigitChar(minor % 10)];
    assert fraction[..1][..0] == [];
    assert Number(fraction[..1]) == minor % 100 / 10;
    assert Number(fraction) == 10 * (minor % 100 / 10) + minor % 10 == minor % 100;
  }

  /** Parsing what was printed gives every positive int64 amount back. */
  method PrintThenParse(minor: nat) returns (r: Option<nat>)
    requires 1 <= minor <= MAX_INT64
    ensures r == Some(minor)
  {
    PrintIsDecimal(minor);
    r := ParseBRL(Print(minor));
  }
}
