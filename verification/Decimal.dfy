/** Decimal numerals: the integer formats the printers use, and the reader that takes them back. */
module Decimal {
  import opened Wrappers

  predicate IsDigit(c: char) { '0' <= c <= '9' }

  predicate AllDigits(s: string) { forall i :: 0 <= i < |s| ==> IsDigit(s[i]) }

  function DigitChar(d: nat): (c: char)
    requires d < 10
    ensures IsDigit(c) && c as int - '0' as int == d
  {
    '0' + d as char
  }

  /** The numeral of `n`, without leading zeros. */
  function Show(n: nat): (s: string)
    ensures s != "" && AllDigits(s)
  {
    if n < 10 then [DigitChar(n)] else Show(n / 10) + [DigitChar(n % 10)]
  }

  function Value(s: string): nat
    requires AllDigits(s)
  {
    if s == "" then 0 else 10 * Value(s[..|s| - 1]) + (s[|s| - 1] as int - '0' as int)
  }

  function Zeros(k: nat): (s: string)
    ensures |s| == k && AllDigits(s)
  {
    seq(k, i => '0')
  }

  /** Zero-padded to at least `width` characters. */
  function Padded(n: nat, width: nat): (s: string)
    ensures s != "" && AllDigits(s) && |s| >= width
  {
    var s := Show(n);
    if |s| < width then Zeros(width - |s|) + s else s
  }

  lemma {:induction false} ValueOfShow(n: nat)
    ensures Value(Show(n)) == n
  {
    if n < 10 {
      assert Show(n)[..0] == "";
    } else {
      ValueOfShow(n / 10);
      assert Show(n)[..|Show(n)| - 1] == Show(n / 10);
    }
  }

  lemma {:induction false} ValueSkipsZeros(k: nat, s: string)
    requires AllDigits(s)
    ensures Value(Zeros(k) + s) == Value(s)
    decreases k, |s|
  {
    var t := Zeros(k) + s;
    if s != "" {
      assert t[..|t| - 1] == Zeros(k) + s[..|s| - 1];
      ValueSkipsZeros(k, s[..|s| - 1]);
    } else if k > 0 {
      assert t[..|t| - 1] == Zeros(k - 1) + s;
      ValueSkipsZeros(k - 1, s);
    }
  }

  lemma ValueOfPadded(n: nat, width: nat)
    ensures Value(Padded(n, width)) == n
  {
    ValueOfShow(n);
    ValueSkipsZeros(if |Show(n)| < width then width - |Show(n)| else 0, Show(n));
  }

  /** A signed integer, zero-padded to at least `width` characters, the sign included. */
  function ShowInt(i: int, width: nat): string {
    if i >= 0 then Padded(i, width)
    else "-" + Padded(-i, if width > 0 then width - 1 else 0)
  }

  /** Reads an optional sign and at least one digit, and nothing else. */
  function ParseInt(s: string): Option<int> {
    var body := if s != "" && (s[0] == '-' || s[0] == '+') then s[1..] else s;
    if body == "" || !AllDigits(body) then None
    else if s[0] == '-' then var v: int := Value(body); Some(-v)
    else Some(Value(body))
  }

  /** What a printer writes, the reader takes back, whatever the sign and the padding. */
  lemma ParseOfShowInt(i: int, width: nat)
    ensures ParseInt(ShowInt(i, width)) == Some(i)
  {
    if i >= 0 {
      ValueOfPadded(i, width);
    } else {
      var body := Padded(-i, if width > 0 then width - 1 else 0);
      ValueOfPadded(-i, if width > 0 then width - 1 else 0);
      assert ("-" + body)[1..] == body;
    }
  }

  /** Round to the nearest integer, halves to the even one. */
  function RoundHalfEven(x: real): (k: int)
    ensures k as real - 0.5 <= x <= k as real + 0.5
  {
    var f := x.Floor;
    var d := x - f as real;
    if d < 0.5 then f
    else if d > 0.5 then f + 1
    else if f % 2 == 0 then f
    else f + 1
  }

  lemma RoundIsMonotone(x: real, y: real)
    requires x <= y
    ensures RoundHalfEven(x) <= RoundHalfEven(y)
  {
  }

  lemma RoundOfInteger(k: int)
    ensures RoundHalfEven(k as real) == k
  {
    assert (k as real).Floor == k;
  }

  /** Adding an even number or turning the sign round moves a rounded value with it. */
  lemma RoundIsSymmetric(x: real, k: int)
    ensures RoundHalfEven(-x) == -RoundHalfEven(x)
    ensures k % 2 == 0 ==> RoundHalfEven(x + k as real) == RoundHalfEven(x) + k
  {
    assert (x + k as real).Floor == x.Floor + k;
    if x == x.Floor as real {
      assert (-x).Floor == -x.Floor;
    } else {
      assert (-x).Floor == -x.Floor - 1;
    }
  }

  // ---- Three decimals ----

  function Abs(x: real): (r: real)
    ensures r >= 0.0
  {
    if x < 0.0 then -x else x
  }

  /** To three decimals. */
  function Rounded(x: real): real { RoundHalfEven(x * 1000.0) as real / 1000.0 }

  function Pow10(k: nat): (p: nat)
    ensures p >= 1
  {
    if k == 0 then 1 else 10 * Pow10(k - 1)
  }

  /** `t` thousandths with three decimals, the whole part zero-padded to at least `width` digits. */
  function ShowThousandths(t: nat, width: nat): (s: string)
    ensures s != "" && IsDigit(s[0])
  {
    Padded(t / 1000, width) + ['.'] + Padded(t % 1000, 3)
  }

  /** Three decimals, zero-padded to at least `width` characters, the sign included. */
  function ShowFixed(x: real, width: nat): string {
    var t: nat := RoundHalfEven(Abs(x) * 1000.0);
    var sign := if x < 0.0 then ['-'] else [];
    var room := |sign| + 4;
    sign + ShowThousandths(t, if width > room then width - room else 0)
  }

  /** The number written with the digits of `v`, the last `k` of them behind the point. */
  function Scaled(v: nat, k: nat): real { v as real / Pow10(k) as real }

  /** Digits, and optionally a point and digits; at least one digit. */
  function ParseUnsigned(body: string): Option<real> {
    var k := IndexOf(body, '.');
    var places := if k < |body| then body[k + 1..] else [];
    if !AllDigits(body[..k] + places) || body[..k] + places == [] then None
    else Some(Scaled(Value(body[..k] + places), |places|))
  }

  /** An optional sign, then a number. */
  function ParseDecimal(s: string): Option<real> {
    if s == "" || (s[0] != '-' && s[0] != '+') then ParseUnsigned(s)
    else
      var v := ParseUnsigned(s[1..]);
      if v.Some? && s[0] == '-' then Some(-v.value) else v
  }

  lemma {:induction false} ShowFits(n: nat, k: nat)
    requires k >= 1 && n < Pow10(k)
    ensures |Show(n)| <= k
    decreases k
  {
    if n >= 10 {
      assert k >= 2;
      ShowFits(n / 10, k - 1);
    }
  }

  lemma PaddedFills(n: nat, k: nat)
    requires k >= 1 && n < Pow10(k)
    ensures |Padded(n, k)| == k
  {
    ShowFits(n, k);
  }

  lemma {:induction false} ValueOfConcat(a: string, b: string)
    requires AllDigits(a) && AllDigits(b)
    ensures Value(a + b) == Value(a) * Pow10(|b|) + Value(b)
    decreases |b|
  {
    if b == "" {
      assert a + b == a;
    } else {
      var c := b[..|b| - 1];
      assert (a + b)[..|a + b| - 1] == a + c;
      ValueOfConcat(a, c);
      assert Value(a + b) == 10 * Value(a + c) + (b[|b| - 1] as int - '0' as int);
      assert Value(b) == 10 * Value(c) + (b[|b| - 1] as int - '0' as int);
      assert Pow10(|b|) == 10 * Pow10(|c|);
      hide AllDigits, Value, Pow10;
      TenTimes(Value(a), Pow10(|c|));
    }
  }

  lemma TenTimes(v: int, p: int)
    ensures v * (10 * p) == 10 * (v * p)
  {
  }

  lemma ThreeDigits(n: nat)
    requires n < 1000
    ensures |Padded(n, 3)| == 3
  {
    assert n >= 10 ==> Show(n) == Show(n / 10) + [DigitChar(n % 10)];
    assert n >= 100 ==> Show(n / 10) == Show(n / 10 / 10) + [DigitChar(n / 10 % 10)];
  }

  lemma ParseOfParts(whole: string, frac: string)
    requires whole != "" && AllDigits(whole) && AllDigits(frac)
    ensures ParseUnsigned(whole + ['.'] + frac) == Some(Scaled(Value(whole) * Pow10(|frac|) + Value(frac), |frac|))
  {
    hide IndexOf, Value, Pow10, Scaled, AllDigits;
    PartsAtPoint(whole, frac);
    ValueOfConcat(whole, frac);
  }

  lemma PartsAtPoint(whole: string, frac: string)
    requires AllDigits(whole) && AllDigits(frac)
    ensures var body := whole + ['.'] + frac;
      IndexOf(body, '.') == |whole| && body[..|whole|] == whole && body[|whole| + 1..] == frac
    ensures AllDigits(whole + frac)
  {
    hide IndexOf;
    assert '.' !in whole;
    IndexOfAfter(whole, '.', frac);
  }

  lemma ThreePlaces(t: nat, width: nat)
    ensures ParseUnsigned(ShowThousandths(t, width)) == Some(t as real / 1000.0)
  {
    assert Pow10(3) == 1000;
    hide Padded, Value, Pow10, ParseUnsigned, AllDigits;
    PartsInThousandths(t / 1000, t % 1000, width);
    assert t / 1000 * 1000 + t % 1000 == t;
  }

  lemma PartsInThousandths(whole: nat, frac: nat, width: nat)
    requires frac < 1000
    ensures ParseUnsigned(Padded(whole, width) + ['.'] + Padded(frac, 3)) == Some(Scaled(whole * Pow10(3) + frac, 3))
  {
    hide Padded, Value, Pow10, ParseUnsigned, AllDigits, Scaled;
    ThreeDigits(frac);
    ValueOfPadded(whole, width);
    ValueOfPadded(frac, 3);
    ParseOfParts(Padded(whole, width), Padded(frac, 3));
  }

  lemma RoundedBySign(x: real)
    ensures var t := RoundHalfEven(Abs(x) * 1000.0);
      Rounded(x) == if x < 0.0 then -(t as real / 1000.0) else t as real / 1000.0
  {
    RoundIsSymmetric(x * 1000.0, 0);
    assert x < 0.0 ==> Abs(x) * 1000.0 == -(x * 1000.0);
  }

  /** The reader takes back what `ShowFixed` wrote: the number, to three decimals. */
  lemma ParseOfShowFixed(x: real, width: nat)
    ensures ParseDecimal(ShowFixed(x, width)) == Some(Rounded(x))
  {
    hide Rounded, RoundHalfEven, ParseUnsigned, ParseDecimal, ShowThousandths;
    var t: nat := RoundHalfEven(Abs(x) * 1000.0);
    var sign := if x < 0.0 then ['-'] else [];
    var room := |sign| + 4;
    var wide := if width > room then width - room else 0;
    RoundedBySign(x);
    ThreePlaces(t, wide);
    SignOfParts(sign, ShowThousandths(t, wide));
  }

  lemma SignOfParts(sign: string, body: string)
    requires sign == [] || sign == ['-']
    requires body != "" && IsDigit(body[0])
    ensures var v := ParseUnsigned(body);
      ParseDecimal(sign + body) == if sign == [] || v.None? then v else Some(-v.value)
  {
    hide ParseUnsigned;
    if sign == [] {
      assert sign + body == body;
    } else {
      assert (sign + body)[1..] == body;
    }
  }

  lemma ShowFixedFills(x: real, width: nat)
    ensures |ShowFixed(x, width)| >= width
  {
    hide Padded, RoundHalfEven;
    ThreeDigits(RoundHalfEven(Abs(x) * 1000.0) % 1000);
  }

  /** Eight characters hold every number below ten thousand. */
  lemma EightCharacters(x: real)
    requires 0.0 <= x && x * 2000.0 < 19999999.0
    ensures |ShowFixed(x, 8)| == 8
  {
    var t: nat := RoundHalfEven(Abs(x) * 1000.0);
    assert t < 10000000;
    ThreeDigits(t % 1000);
    assert Pow10(4) == 10000;
    PaddedFills(t / 1000, 4);
    hide Padded, RoundHalfEven;
  }

  // ---- Which texts are numbers ----

  /** Digits, and perhaps a point and digits; at least one digit. */
  predicate IsUnsigned(body: string, whole: string, frac: string) {
    && AllDigits(whole) && AllDigits(frac) && whole + frac != []
    && (body == whole + ['.'] + frac || (frac == [] && body == whole))
  }

  /** The same, perhaps behind a sign. */
  predicate IsNumeral(s: string, sign: string, whole: string, frac: string) {
    (sign == [] || sign == ['+'] || sign == ['-']) && sign <= s && IsUnsigned(s[|sign|..], whole, frac)
  }

  function NumeralValue(sign: string, whole: string, frac: string): real
    requires AllDigits(whole) && AllDigits(frac)
  {
    var v := Value(whole) as real + Value(frac) as real / Pow10(|frac|) as real;
    if sign == ['-'] then -v else v
  }

  lemma ScaledIsSum(whole: nat, frac: nat, k: nat)
    ensures Scaled(whole * Pow10(k) + frac, k) == whole as real + frac as real / Pow10(k) as real
  {
    var p := Pow10(k) as real;
    assert (whole * Pow10(k)) as real == whole as real * p;
    assert (whole as real * p) / p == whole as real;
    hide Pow10;
    assert (whole as real * p + frac as real) / p == whole as real * p / p + frac as real / p;
  }

  lemma UnsignedReads(body: string, whole: string, frac: string)
    requires IsUnsigned(body, whole, frac)
    ensures ParseUnsigned(body) == Some(NumeralValue([], whole, frac))
  {
    PartsAtPoint(whole, frac);
    ValueOfConcat(whole, frac);
    ScaledIsSum(Value(whole), Value(frac), |frac|);
    if body == whole {
      IndexOfNone(whole, '.');
      assert whole[..|whole|] + [] == whole + frac;
    }
    hide IndexOf, Value, Pow10, Scaled, AllDigits;
  }

  lemma StartsUnsigned(body: string, whole: string, frac: string)
    requires IsUnsigned(body, whole, frac)
    ensures body != [] && body[0] != '-' && body[0] != '+'
  {
    assert whole == [] ==> body[0] == '.';
    assert whole != [] ==> body[0] == whole[0];
  }

  lemma SignedReads(s: string, sign: string)
    requires sign == [] || sign == ['+'] || sign == ['-']
    requires sign <= s && |s| > |sign| && s[|sign|] != '-' && s[|sign|] != '+'
    ensures var v := ParseUnsigned(s[|sign|..]);
      ParseDecimal(s) == if sign == ['-'] && v.Some? then Some(-v.value) else v
  {
    hide ParseUnsigned;
    assert s[0..] == s;
  }

  /** A numeral reads as the number that it writes. */
  lemma NumeralReads(s: string, sign: string, whole: string, frac: string)
    requires IsNumeral(s, sign, whole, frac)
    ensures ParseDecimal(s) == Some(NumeralValue(sign, whole, frac))
  {
    var body := s[|sign|..];
    UnsignedReads(body, whole, frac);
    StartsUnsigned(body, whole, frac);
    SignedReads(s, sign);
    hide ParseUnsigned, ParseDecimal, Value, Pow10, IsUnsigned;
  }

  /** Nothing but a numeral is read as a number. */
  lemma OnlyNumeralsRead(s: string) returns (sign: string, whole: string, frac: string)
    requires ParseDecimal(s).Some?
    ensures IsNumeral(s, sign, whole, frac)
  {
    sign := if s != [] && (s[0] == '-' || s[0] == '+') then [s[0]] else [];
    assert s[|sign|..] == if sign == [] then s else s[1..];
    whole, frac := OnlyUnsignedRead(s[|sign|..]);
    hide ParseUnsigned, IsUnsigned;
  }

  lemma OnlyUnsignedRead(body: string) returns (whole: string, frac: string)
    requires ParseUnsigned(body).Some?
    ensures IsUnsigned(body, whole, frac)
  {
    var k := IndexOf(body, '.');
    whole := body[..k];
    frac := if k < |body| then body[k + 1..] else [];
    hide IndexOf, Value, Scaled;
    AllDigitsOfParts(whole, frac);
    if k < |body| {
      assert body == whole + [body[k]] + frac;
    }
  }

  lemma AllDigitsOfParts(a: string, b: string)
    requires AllDigits(a + b)
    ensures AllDigits(a) && AllDigits(b)
  {
    assert forall i :: 0 <= i < |a| ==> a[i] == (a + b)[i];
    assert forall i :: 0 <= i < |b| ==> b[i] == (a + b)[|a| + i];
  }

  /** Rounding finds the nearest thousandth, and of two equally near ones the even one. */
  lemma RoundedIsNearest(x: real, t: int)
    ensures Rounded(x) == t as real / 1000.0 <==>
      (var gap := x * 2000.0 - 2.0 * t as real; -1.0 < gap < 1.0 || ((gap == 1.0 || gap == -1.0) && t % 2 == 0))
  {
    var k := RoundHalfEven(x * 1000.0);
    assert Rounded(x) == t as real / 1000.0 <==> k == t;
  }

  lemma RoundedIsNear(x: real)
    ensures -0.0005 <= Rounded(x) - x <= 0.0005
  {
  }
}
