/**
 The legacy `frqXXXXX.cfg` frequency program: its printer (services/legacy_export.py), its parser
 (services/legacy_import.py), and what survives going through the file.
 */
module ProgramFile {
  import opened Wrappers
  import opened Decimal
  import opened TextLines
  import opened CallistoProtocol
  import FrequencyPlan

  const HEADER := "// frequency program " + "exported by e-Callisto NG"
  const TARGET := "target"
  const TESTPOINT := "on_line_testpoint_number"
  const MEASUREMENTS := "number_of_measurements_per_sweep"
  const SWEEPS := "number_of_sweeps_per_second"
  const EXTERNAL_LO := "external_lo"

  /** Pixels per second of the receiver. */
  const THROUGHPUT: nat := 800

  // ---- The sweep rate, as `%g` writes it ----

  /** How many decimals leave six significant digits of `THROUGHPUT / n`, from `k` on. */
  function Places(n: nat, k: nat): (places: nat)
    requires n >= 1
    ensures THROUGHPUT * Pow10(places) >= 100000 * n
    ensures places == k || 80 * Pow10(places) < 100000 * n
    decreases 100000 * n - THROUGHPUT * Pow10(k)
  {
    if THROUGHPUT * Pow10(k) >= 100000 * n then k else Places(n, k + 1)
  }

  function TrimZeros(s: string): (t: string)
    requires AllDigits(s)
    ensures AllDigits(t)
  {
    if s != "" && s[|s| - 1] == '0' then TrimZeros(s[..|s| - 1]) else s
  }

  function Quotient(d: nat, p: nat): nat
    requires p >= 1
  {
    d / p
  }

  /** `d` with `k` decimals, without trailing zeros, and without a point when none is left. */
  function Fraction(d: nat, k: nat): string {
    var whole, frac := Quotient(d, Pow10(k)), d % Pow10(k);
    if frac == 0 then Show(whole) else Show(whole) + ['.'] + TrimZeros(Padded(frac, k))
  }

  /** Six digits `d`, `k` of them decimals: fixed notation, or an exponent below 1e-4. */
  function General(d: nat, k: nat): string {
    if k <= 9 then Fraction(d, k) else Fraction(d, 5) + ['e', '-'] + Padded(k - 5, 2)
  }

  /** `a / n` to the nearest integer, halves to the even one. */
  function RoundQuotient(a: nat, n: nat): (d: nat)
    requires n >= 1
    ensures var gap: int := a - d * n; 2 * gap <= n && -2 * gap <= n
  {
    var q, rem := Quotient(a, n), a % n;
    assert a == q * n + rem && (q + 1) * n == q * n + n;
    if 2 * rem < n || (2 * rem == n && q % 2 == 0) then q else q + 1
  }

  /** `d` is nearest to `a / n`, and even when another is as near; `gap` is twice the rest that it leaves. */
  predicate IsNearest(n: int, d: int, gap: int) { -1 * n < gap < n || ((gap == n || gap == -1 * n) && d % 2 == 0) }

  lemma RoundingIsNearest(a: nat, n: nat)
    requires n >= 1
    ensures IsNearest(n, RoundQuotient(a, n), 2 * (a - RoundQuotient(a, n) * n))
  {
    var q := Quotient(a, n);
    assert a == q * n + a % n && (q + 1) * n == q * n + n;
  }

  lemma NearestIsOne(n: int, d: int, e: int, gap: int, other: int)
    requires n >= 1 && IsNearest(n, d, gap) && IsNearest(n, e, other) && other - gap == 2 * ((d - e) * n)
    ensures d == e
  {
    assert d - e >= 2 ==> (d - e) * n >= 2 * n;
    assert d - e <= -2 ==> (d - e) * n <= -2 * n;
    assert d - e == 1 ==> (d - e) * n == n;
    assert d - e == -1 ==> (d - e) * n == -1 * n;
  }

  /** Rounding finds the nearest integer, and of two as near the even one. */
  lemma QuotientIsNearest(a: nat, n: nat, d: nat)
    requires n >= 1
    ensures RoundQuotient(a, n) == d <==> IsNearest(n, d, 2 * (a - d * n))
  {
    var e := RoundQuotient(a, n);
    RoundingIsNearest(a, n);
    hide RoundQuotient, IsNearest;
    if IsNearest(n, d, 2 * (a - d * n)) {
      assert (d - e) * n == d * n - e * n;
      NearestIsOne(n, d, e, 2 * (a - d * n), 2 * (a - e * n));
    }
  }

  function SixDigits(n: nat): nat
    requires n >= 1
  {
    RoundQuotient(THROUGHPUT * Pow10(Places(n, 0)), n)
  }

  function SweepRate(n: nat): string {
    if n == 0 then ['0']
    else
      var k, d := Places(n, 0), SixDigits(n);
      if d == 1000000 && k > 0 then General(100000, k - 1) else General(d, k)
  }

  // ---- The printer ----

  function Line(key: string, val: string): string { ['['] + key + [']', '='] + val }

  function ChannelValue(freq: real, flagged: bool): string {
    ShowFixed(freq, 8) + [',', if flagged then '1' else '0']
  }

  /** The channel lines from channel `i` on. */
  function ChannelLines(frequencies: seq<real>, lightCurve: set<nat>, i: nat): (lines: seq<string>)
    requires i <= |frequencies|
    ensures |lines| == |frequencies| - i
    decreases |frequencies| - i
  {
    if i == |frequencies| then []
    else
      [Line(Padded(i + 1, 4), ChannelValue(frequencies[i], i in lightCurve))]
      + ChannelLines(frequencies, lightCurve, i + 1)
  }

  function SettingLines(n: nat, lo: real, target: string): seq<string> {
    [HEADER, Line(TARGET, target), Line(TESTPOINT, Show(n / 2)), Line(MEASUREMENTS, Show(n)),
     Line(SWEEPS, SweepRate(n)), Line(EXTERNAL_LO, ShowFixed(lo, 0))]
  }

  function ProgramText(frequencies: seq<real>, lightCurve: set<nat>, lo: real, target: string): string {
    JoinLines(SettingLines(|frequencies|, lo, target) + ChannelLines(frequencies, lightCurve, 0))
  }

  method BuildFrequencyProgramCfg(frequencies: seq<real>, lightCurve: set<nat>, lo: real, target: string)
    returns (text: string)
    ensures text == ProgramText(frequencies, lightCurve, lo, target)
  {
    hide Line, HEADER, TARGET, TESTPOINT, MEASUREMENTS, SWEEPS, EXTERNAL_LO, Padded, ChannelValue, SettingLines;
    var n := |frequencies|;
    var lines := SettingLines(n, lo, target);
    ghost var all := lines + ChannelLines(frequencies, lightCurve, 0);
    for i := 0 to n
      invariant lines + ChannelLines(frequencies, lightCurve, i) == all
    {
      var line := Line(Padded(i + 1, 4), ChannelValue(frequencies[i], i in lightCurve));
      ghost var later := ChannelLines(frequencies, lightCurve, i + 1);
      assert lines + ([line] + later) == lines + [line] + later;
      lines := lines + [line];
    }
    assert lines + [] == lines;
    text := JoinLines(lines);
  }

  // ---- The parser ----

  predicate IsWord(c: char) { 'a' <= c <= 'z' || 'A' <= c <= 'Z' || IsDigit(c) || c == '_' }

  /** Digits, upper-case letters, the underscore and lower-case letters, by their codes. */
  lemma WordCharacters(c: char)
    ensures IsWord(c) <==> (var n := c as int; 48 <= n < 58 || 65 <= n < 91 || n == 95 || 97 <= n < 123)
  {
  }

  predicate AllWord(s: string) { forall i :: 0 <= i < |s| ==> IsWord(s[i]) }

  function LowerChar(c: char): char { if 'A' <= c <= 'Z' then (c as int + 32) as char else c }

  function Lower(s: string): string { Map(LowerChar, s) }

  /** The text in front of the first `//`. */
  function BeforeComment(s: string): string {
    if s == "" || (|s| >= 2 && s[0] == '/' && s[1] == '/') then "" else [s[0]] + BeforeComment(s[1..])
  }

  /** `[key]=value`, the key in lower case, the value without comment and trimmed. */
  function KeyValue(raw: string): Option<(string, string)> {
    var line := Strip(raw);
    var j := IndexOf(line, ']');
    if j < 2 || j + 1 >= |line| || line[0] != '[' || line[j + 1] != '=' || !AllWord(line[1..j]) then None
    else Some((Lower(line[1..j]), Strip(BeforeComment(line[j + 2..]))))
  }

  datatype Reading = Reading(indexed: seq<(nat, real)>, sweeps: int, lo: real)

  /** One line; `None` is the `ValueError` of a number that cannot be read. */
  function ReadLine(r: Reading, raw: string): Option<Reading> {
    var kv := KeyValue(raw);
    if kv.None? then Some(r) else ReadSetting(r, kv.value.0, kv.value.1)
  }

  function ReadSetting(r: Reading, key: string, val: string): Option<Reading> {
    if key == SWEEPS then
      var v := if val == "" then Some(4) else ParseInt(val);
      if v.None? then None else Some(r.(sweeps := v.value))
    else if key == EXTERNAL_LO then
      var v := if val == "" then Some(0.0) else ParseDecimal(val);
      if v.None? then None else Some(r.(lo := v.value))
    else if AllDigits(key) then
      var v := ParseDecimal(Strip(Columns(val)[0]));
      if v.None? then None else Some(r.(indexed := r.indexed + [(Value(key), v.value)]))
    else Some(r)
  }

  function ReadLines(r: Reading, lines: seq<string>): Option<Reading>
    decreases |lines|
  {
    if lines == [] then Some(r)
    else
      var next := ReadLine(r, lines[0]);
      if next.None? then None else ReadLines(next.value, lines[1..])
  }

  /** Pairs sort by index, then by frequency. */
  predicate ChannelBefore(a: (nat, real), b: (nat, real)) {
    a.0 < b.0 || (a.0 == b.0 && a.1 <= b.1)
  }

  function InsertChannel(c: (nat, real), cs: seq<(nat, real)>): seq<(nat, real)> {
    if cs == [] || ChannelBefore(c, cs[0]) then [c] + cs else [cs[0]] + InsertChannel(c, cs[1..])
  }

  function SortedChannels(cs: seq<(nat, real)>): seq<(nat, real)> {
    if cs == [] then [] else InsertChannel(cs[0], SortedChannels(cs[1..]))
  }

  function Frequencies(cs: seq<(nat, real)>): (fs: seq<real>)
    ensures |fs| == |cs|
  {
    seq(|cs|, i requires 0 <= i < |cs| => cs[i].1)
  }

  datatype Program = Program(frequencies: seq<real>, sweeps: int, lo: real)

  const EMPTY := Reading([], 4, 0.0)

  function ParsedProgram(text: string): Option<Program> {
    var r := ReadLines(EMPTY, SplitLines(text));
    if r.None? then None else Some(Program(Frequencies(SortedChannels(r.value.indexed)), r.value.sweeps, r.value.lo))
  }

  method ParseFrequencyProgram(text: string) returns (p: Option<Program>)
    ensures p == ParsedProgram(text)
  {
    hide SplitLines, ReadLine, SortedChannels;
    var lines := SplitLines(text);
    var r := EMPTY;
    for i := 0 to |lines|
      invariant ReadLines(r, lines[i..]) == ReadLines(EMPTY, lines)
    {
      assert lines[i..][1..] == lines[i + 1..];
      var next := ReadLine(r, lines[i]);
      if next.None? {
        return None;
      }
      r := next.value;
    }
    p := Some(Program(Frequencies(SortedChannels(r.indexed)), r.sweeps, r.lo));
  }

  // ---- Reading one printed line ----

  lemma {:induction false} StripRightKeeps(p: string, t: string)
    requires p != "" && !IsSpace(p[|p| - 1])
    ensures StripRight(p + t) == p + StripRight(t)
    decreases |t|
  {
    if t == "" {
      assert p + t == p;
    } else if IsSpace(t[|t| - 1]) {
      StripRightKeeps(p, t[..|t| - 1]);
      assert (p + t)[..|p + t| - 1] == p + t[..|t| - 1];
    }
  }

  /** The key of a printed line is read back whatever the value is. */
  lemma KeyOfLine(key: string, val: string)
    requires key != "" && AllWord(key)
    ensures KeyValue(Line(key, val)) == Some((Lower(key), Strip(BeforeComment(StripRight(val)))))
  {
    hide Lower, BeforeComment, StripRight, IndexOf;
    var p := ['['] + key + [']', '='];
    StripRightKeeps(p, val);
    var rest := StripRight(val);
    var line := p + rest;
    assert Line(key, val) == p + val && Strip(Line(key, val)) == line;
    assert ']' !in ['['] + key;
    IndexOfAfter(['['] + key, ']', ['='] + rest);
    assert line == ['['] + key + [']'] + (['='] + rest);
    assert line[1..|key| + 1] == key && line[|key| + 3..] == rest;
  }

  predicate Plain(s: string) { s != "" && forall i :: 0 <= i < |s| ==> !IsSpace(s[i]) && s[i] != '/' }

  lemma {:induction false} NoComment(s: string)
    requires forall i :: 0 <= i < |s| ==> s[i] != '/'
    ensures BeforeComment(s) == s
  {
    if s != "" {
      NoComment(s[1..]);
    }
  }

  /** A value without blanks and slashes is read back too. */
  lemma PlainLine(key: string, val: string)
    requires key != "" && AllWord(key) && Plain(val)
    ensures KeyValue(Line(key, val)) == Some((Lower(key), val))
  {
    KeyOfLine(key, val);
    assert StripRight(val) == val;
    NoComment(val);
    TrimmedIsStripped(val);
  }

  /** A lower-case key is its own lower case. */
  predicate IsKey(key: string) {
    key != "" && AllWord(key) && !IsDigit(key[0]) && forall i :: 0 <= i < |key| ==> !('A' <= key[i] <= 'Z')
  }

  lemma KeyIsLower(key: string)
    requires IsKey(key)
    ensures Lower(key) == key && !AllDigits(key)
  {
  }

  lemma TargetIsKey()
    ensures IsKey(TARGET) && |TARGET| == 6
  {
  }

  lemma TestpointIsKey()
    ensures IsKey(TESTPOINT) && |TESTPOINT| == 24
  {
  }

  lemma MeasurementsIsKey()
    ensures IsKey(MEASUREMENTS) && |MEASUREMENTS| == 32
  {
  }

  lemma SweepsIsKey()
    ensures IsKey(SWEEPS) && |SWEEPS| == 27
  {
  }

  lemma ExternalLoIsKey()
    ensures IsKey(EXTERNAL_LO) && |EXTERNAL_LO| == 11
  {
  }

  // ---- The sweep rate goes through exactly when it is a whole number ----

  /** Six digits of `THROUGHPUT / n` end in a whole number only when the quotient is one. */
  lemma WholeOnlyIfDivides(n: nat, m: nat)
    requires n >= 1
    ensures SixDigits(n) == m * Pow10(Places(n, 0)) ==> THROUGHPUT == m * n
  {
    hide Places, Pow10, RoundQuotient;
    if SixDigits(n) == m * Pow10(Places(n, 0)) {
      SmallMultiple(m, n, Pow10(Places(n, 0)));
    }
  }

  /** A rounding error that is a multiple of `p` is none. */
  lemma SmallMultiple(m: nat, n: nat, p: nat)
    requires THROUGHPUT * p >= 100000 * n && p >= 1
    requires var gap: int := THROUGHPUT * p - m * p * n; 2 * gap <= n && -2 * gap <= n
    ensures THROUGHPUT == m * n
  {
    var q: int := THROUGHPUT - m * n;
    assert m * p * n == (m * n) * p;
    assert THROUGHPUT * p - m * p * n == q * p;
    NearZero(q, p);
  }

  /** The only multiple of `p` that is smaller than `p` is zero. */
  lemma NearZero(q: int, p: nat)
    requires q * p < p && -1 * (q * p) < p
    ensures q == 0
  {
    assert q >= 1 ==> q * p >= p;
    assert q <= -1 ==> q * p <= -1 * p;
  }

  lemma FractionReads(d: nat, k: nat)
    ensures ParseInt(Fraction(d, k)) == if d % Pow10(k) == 0 then Some(Quotient(d, Pow10(k))) else None
    ensures Plain(Fraction(d, k))
  {
    hide Pow10, Quotient, Padded, TrimZeros, Show;
    var whole, frac, s := Quotient(d, Pow10(k)), d % Pow10(k), Fraction(d, k);
    var shown := Show(whole);
    if frac == 0 {
      WholeReads(whole);
    } else {
      assert s[0] == shown[0] && s[|shown|] == '.';
    }
  }

  lemma WholeReads(n: nat)
    ensures ParseInt(Show(n)) == Some(n)
  {
    ParseOfShowInt(n, 0);
  }

  lemma GeneralReads(d: nat, k: nat)
    ensures ParseInt(General(d, k))
         == if k <= 9 && d % Pow10(k) == 0 then Some(Quotient(d, Pow10(k))) else None
    ensures Plain(General(d, k))
  {
    hide Pow10, Quotient, Padded, Fraction;
    if k <= 9 {
      FractionReads(d, k);
    } else {
      var f := Fraction(d, 5);
      FractionReads(d, 5);
      FractionStartsWithDigit(d, 5);
      assert General(d, k)[0] == f[0] && General(d, k)[|f|] == 'e';
    }
  }

  lemma FractionStartsWithDigit(d: nat, k: nat)
    ensures Fraction(d, k) != "" && IsDigit(Fraction(d, k)[0])
  {
  }

  lemma {:induction false} PowersGrow(j: nat, k: nat)
    requires j <= k
    ensures Pow10(j) <= Pow10(k)
    decreases k
  {
    if j < k {
      PowersGrow(j, k - 1);
    }
  }

  lemma FewPlaces(n: nat)
    requires 1 <= n <= THROUGHPUT
    ensures var k := Places(n, 0); 0 < k <= 9 && 80 * Pow10(k) < 100000 * n
  {
    var k := Places(n, 0);
    assert Pow10(0) == 1 && Pow10(6) == 1000000;
    hide Pow10;
    if k > 6 {
      PowersGrow(6, k);
    }
  }

  /** A whole rate of `m` has the six digits of `m`, and few enough decimals for fixed notation. */
  lemma WholeRate(n: nat, m: nat)
    requires n >= 1 && THROUGHPUT == m * n
    ensures var k, d := Places(n, 0), SixDigits(n); 0 < k <= 9 && d == m * Pow10(k) && d < 1000000
  {
    hide Pow10, Places, RoundQuotient;
    var k, d := Places(n, 0), SixDigits(n);
    var p := Pow10(k);
    assert n <= THROUGHPUT by { assert m >= 1; assert m * n >= n; }
    FewPlaces(n);
    assert THROUGHPUT * p == (m * p) * n;
    SameMultiple(m * p, d, n);
    SmallerFactor(m * p, 1000000, n);
  }

  lemma SameMultiple(a: nat, d: nat, n: nat)
    requires n >= 1 && var gap: int := a * n - d * n; 2 * gap <= n && -2 * gap <= n
    ensures a == d
  {
    assert (a - d) * n == a * n - d * n;
    NearZero(a - d, n);
  }

  lemma SmallerFactor(a: nat, b: nat, n: nat)
    requires a * n < b * n
    ensures a < b
  {
    assert (a - b) * n == a * n - b * n;
    assert a >= b ==> (a - b) * n >= 0;
  }

  /** The printed sweep rate is read back as an integer exactly when `n` divides the throughput. */
  lemma SweepRateReads(n: nat)
    ensures Plain(SweepRate(n))
    ensures ParseInt(SweepRate(n))
         == if n == 0 then Some(0) else if THROUGHPUT % n == 0 then Some(THROUGHPUT / n) else None
  {
    if n == 0 {
      assert Show(0) == ['0'];
      WholeReads(0);
    } else if THROUGHPUT % n == 0 {
      WholeRateReads(n, THROUGHPUT / n);
    } else {
      var k, d := Places(n, 0), SixDigits(n);
      var over := d == 1000000 && k > 0;
      var d', k' := if over then 100000 else d, if over then k - 1 else k;
      assert over ==> Pow10(k) == 10 * Pow10(k');
      hide Places, SixDigits, Pow10, General, ParseInt, Plain;
      GeneralReads(d', k');
      NoWholeRate(n, k, d, d', k', over);
    }
  }

  lemma WholeRateReads(n: nat, m: nat)
    requires n >= 1 && THROUGHPUT == m * n
    ensures ParseInt(SweepRate(n)) == Some(m) && Plain(SweepRate(n))
  {
    hide Places, SixDigits, Pow10, General, ParseInt, Plain;
    var k, d := Places(n, 0), SixDigits(n);
    WholeRate(n, m);
    GeneralReads(d, k);
    MultipleDivides(m, Pow10(k));
  }

  lemma NoWholeRate(n: nat, k: nat, d: nat, d': nat, k': nat, over: bool)
    requires n >= 1 && THROUGHPUT % n != 0 && k == Places(n, 0) && d == SixDigits(n)
    requires if over then d == 10 * d' && Pow10(k) == 10 * Pow10(k') else d == d' && k == k'
    ensures d' % Pow10(k') != 0
  {
    hide Places, SixDigits, Pow10;
    var p := Pow10(k');
    if d' % p == 0 {
      var m := d' / p;
      assert d' == m * p;
      assert 10 * (m * p) == m * (10 * p);
      WholeOnlyIfDivides(n, m);
      MultipleDivides(m, n);
      assert false;
    }
  }

  lemma MultipleDivides(m: nat, p: nat)
    requires p >= 1
    ensures (m * p) % p == 0 && (m * p) / p == m
  {
    var a := m * p;
    var q, r := a / p, a % p;
    assert a == q * p + r;
    assert (m - q) * p == m * p - q * p;
    NearZero(m - q, p);
  }

  // ---- The sweep rate says the quotient to six digits ----

  /** Dropping zeros at the end divides by as many tens. */
  lemma {:induction false} TrimDivides(s: string)
    requires AllDigits(s)
    ensures var t := TrimZeros(s);
      && |t| <= |s| && Value(s) == Value(t) * Pow10(|s| - |t|)
      && (t != "" ==> t[|t| - 1] != '0')
  {
    if s != "" && s[|s| - 1] == '0' {
      var p := s[..|s| - 1];
      TrimDivides(p);
      TenTimes(Value(TrimZeros(p)), Pow10(|p| - |TrimZeros(p)|));
    }
  }

  lemma ScaledByTens(v: nat, k: nat, j: nat)
    ensures Scaled(v * Pow10(j), k + j) == Scaled(v, k)
  {
    PowersMultiply(k, j);
    hide Pow10;
    Cancelled(v as real, Pow10(k) as real, Pow10(j) as real);
  }

  lemma ScaledByTen(v: nat, k: nat)
    ensures Scaled(v * 10, k + 1) == Scaled(v, k)
  {
    assert Pow10(1) == 10;
    ScaledByTens(v, k, 1);
  }

  lemma {:induction false} PowersMultiply(k: nat, j: nat)
    ensures Pow10(k + j) == Pow10(k) * Pow10(j)
  {
    if j > 0 {
      PowersMultiply(k, j - 1);
      TenTimes(Pow10(k), Pow10(j - 1));
    }
  }

  lemma Cancelled(v: real, p: real, q: real)
    requires p > 0.0 && q > 0.0
    ensures (v * q) / (p * q) == v / p
  {
    var r := v / p;
    assert r * p == v;
    assert r * (p * q) == v * q;
  }

  /** What `Fraction` writes reads as `d` with `k` decimals, and no zero ends its decimals. */
  lemma FractionSays(d: nat, k: nat)
    ensures ParseDecimal(Fraction(d, k)) == Some(Scaled(d, k))
    ensures '.' in Fraction(d, k) ==> var s := Fraction(d, k); s[|s| - 1] != '0'
  {
    FractionStartsWithDigit(d, k);
    UnsignedFractionSays(d, k);
    hide Fraction, ParseUnsigned, Scaled;
  }

  lemma UnsignedFractionSays(d: nat, k: nat)
    ensures ParseUnsigned(Fraction(d, k)) == Some(Scaled(d, k))
    ensures '.' in Fraction(d, k) ==> var s := Fraction(d, k); s[|s| - 1] != '0'
  {
    var whole, frac := Quotient(d, Pow10(k)), d % Pow10(k);
    Divided(d, Pow10(k));
    hide Pow10, Show, ParseUnsigned, Quotient, Scaled, Padded, TrimZeros;
    if frac == 0 {
      WholeSays(whole);
      ScaledByTens(whole, 0, k);
    } else {
      var t := BrokenSays(whole, frac, k);
      var s := Show(whole) + ['.'] + t;
      assert s[|s| - 1] == t[|t| - 1];
    }
  }

  lemma Divided(d: nat, p: nat)
    requires p >= 1
    ensures d == Quotient(d, p) * p + d % p
  {
  }

  lemma BrokenSays(whole: nat, frac: nat, k: nat) returns (t: string)
    requires 0 < frac < Pow10(k)
    ensures t == TrimZeros(Padded(frac, k)) && t != "" && t[|t| - 1] != '0'
    ensures ParseUnsigned(Show(whole) + ['.'] + t) == Some(Scaled(whole * Pow10(k) + frac, k))
  {
    hide Pow10, Show, Padded, TrimZeros, ParseUnsigned, Scaled, Value, AllDigits;
    t := DecimalsOf(frac, k);
    ValueOfShow(whole);
    ParseOfParts(Show(whole), t);
    TrimmedSays(whole, Value(t), |t|, k - |t|);
  }

  lemma DecimalsOf(frac: nat, k: nat) returns (t: string)
    requires 0 < frac < Pow10(k)
    ensures t == TrimZeros(Padded(frac, k)) && t != "" && t[|t| - 1] != '0' && |t| <= k
    ensures Value(t) * Pow10(k - |t|) == frac
  {
    assert k >= 1;
    hide Pow10, Padded, TrimZeros;
    t := TrimZeros(Padded(frac, k));
    PaddedFills(frac, k);
    ValueOfPadded(frac, k);
    TrimDivides(Padded(frac, k));
    assert t != "" by { assert Value("") == 0; }
  }

  lemma WholeSays(n: nat)
    ensures ParseUnsigned(Show(n)) == Some(Scaled(n, 0))
  {
    var s := Show(n);
    ValueOfShow(n);
    hide Show;
    assert '.' !in s;
    IndexOfNone(s, '.');
    assert s[..|s|] + [] == s;
  }

  lemma TrimmedSays(whole: nat, v: nat, m: nat, j: nat)
    ensures Scaled(whole * Pow10(m) + v, m) == Scaled(whole * Pow10(m + j) + v * Pow10(j), m + j)
  {
    PowersMultiply(m, j);
    ScaledByTens(whole * Pow10(m) + v, m, j);
    hide Pow10, Scaled;
    Distributed(whole, Pow10(m), v, Pow10(j));
  }

  lemma Distributed(w: nat, p: nat, v: nat, q: nat)
    ensures (w * p + v) * q == w * (p * q) + v * q
  {
  }

  /** `v / p` is 800 / `n` to half a unit of the sixth digit. */
  predicate SixDigitsNear(v: real, n: real, p: real) { -0.004 * p <= v * n - 800.0 * p <= 0.004 * p }

  /** A rounded quotient, `m` below its point and `p` in its exponent. */
  lemma RateIsNear(n: nat, d: nat, m: nat, p: nat)
    requires n >= 1 && m >= 1 && 800 * (m * p) >= 100000 * n
    requires 2 * (800 * (m * p) - d * n) <= n && -2 * (800 * (m * p) - d * n) <= n
    ensures SixDigitsNear(d as real / m as real, n as real, p as real)
  {
    hide SixDigitsNear;
    RateInReals(n, d, m, p);
    Nearness(n as real, d as real, m as real, p as real);
  }

  lemma DigitsAreNear(n: nat, e: nat)
    requires n >= 1 && e <= Places(n, 0)
    ensures SixDigitsNear(Scaled(SixDigits(n), Places(n, 0) - e), n as real, Pow10(e) as real)
  {
    hide Pow10, Places, SixDigits, SixDigitsNear;
    var k, d := Places(n, 0), SixDigits(n);
    var m, p := Pow10(k - e), Pow10(e);
    RateIsRounded(n);
    PowersMultiply(k - e, e);
    RateIsNear(n, d, m, p);
  }

  lemma RateInReals(n: nat, d: nat, m: nat, p: nat)
    requires 800 * (m * p) >= 100000 * n
    requires 2 * (800 * (m * p) - d * n) <= n && -2 * (800 * (m * p) - d * n) <= n
    ensures var mp, dn := m as real * p as real, d as real * n as real;
      && 800.0 * mp >= 100000.0 * n as real
      && 2.0 * (800.0 * mp - dn) <= n as real && -2.0 * (800.0 * mp - dn) <= n as real
  {
    ProductInReals(m, p);
    ProductInReals(d, n);
    var mp, dn := m * p, d * n;
  }

  lemma ProductInReals(a: nat, b: nat)
    ensures (a * b) as real == a as real * b as real
  {
  }

  lemma Nearness(n: real, d: real, m: real, p: real)
    requires m > 0.0 && 800.0 * (m * p) >= 100000.0 * n
    requires 2.0 * (800.0 * (m * p) - d * n) <= n && -2.0 * (800.0 * (m * p) - d * n) <= n
    ensures SixDigitsNear(d / m, n, p)
  {
    var v := d / m;
    assert v * m == d;
    var x := v * n - 800.0 * p;
    assert x * m == d * n - 800.0 * (m * p);
    assert x * m <= (0.004 * p) * m && (-0.004 * p) * m <= x * m;
    Ordered(x, 0.004 * p, m);
    Ordered(-0.004 * p, x, m);
  }

  lemma Ordered(x: real, y: real, m: real)
    requires m > 0.0 && x * m <= y * m
    ensures x <= y
  {
    assert (y - x) * m >= 0.0;
  }

  /** A number that reads as `v`, and behind it perhaps an exponent `-e`; no zero ends the decimals. */
  predicate Says(text: string, number: string, e: nat, v: real) {
    && text == (if e == 0 then number else number + ['e', '-'] + Padded(e, 2))
    && ParseDecimal(number) == Some(v)
    && ('.' in number ==> number[|number| - 1] != '0')
  }

  lemma GeneralSays(d: nat, k: nat) returns (number: string, e: nat)
    ensures e <= k && Says(General(d, k), number, e, Scaled(d, k - e))
  {
    hide Pow10, Fraction, Scaled, ParseDecimal, Padded;
    e := if k <= 9 then 0 else k - 5;
    number := Fraction(d, k - e);
    FractionSays(d, k - e);
  }

  /** The printed rate is within half a unit of the sixth digit of 800 / n. */
  lemma SweepRateSays(n: nat) returns (number: string, v: real, e: nat)
    requires n >= 1
    ensures Says(SweepRate(n), number, e, v) && SixDigitsNear(v, n as real, Pow10(e) as real)
  {
    var d, k := RateIsGeneral(n);
    hide *;
    number, e := GeneralSays(d, k);
    v := Scaled(d, k - e);
    ScaledByTen(d, k - e);
    DigitsAreNear(n, e);
  }

  lemma RateIsGeneral(n: nat) returns (d: nat, k: nat)
    requires n >= 1
    ensures SweepRate(n) == General(d, k)
    ensures (d == SixDigits(n) && k == Places(n, 0)) || (d * 10 == SixDigits(n) && k + 1 == Places(n, 0))
  {
    k, d := Places(n, 0), SixDigits(n);
    hide Places, SixDigits, General;
    if d == 1000000 && k > 0 {
      d, k := 100000, k - 1;
    }
  }

  lemma RateIsRounded(n: nat)
    requires n >= 1
    ensures var k, d := Places(n, 0), SixDigits(n);
      && 800 * Pow10(k) >= 100000 * n
      && 2 * (800 * Pow10(k) - d * n) <= n && -2 * (800 * Pow10(k) - d * n) <= n
  {
    hide Pow10, Places, RoundQuotient;
  }

  // ---- The round trip ----

  lemma PlainLineKeepsItsKey(r: Reading, key: string, val: string)
    requires IsKey(key) && Plain(val)
    ensures ReadLine(r, Line(key, val)) == ReadSetting(r, key, val)
  {
    PlainLine(key, val);
    KeyIsLower(key);
  }

  lemma HeaderShape()
    ensures NoBreak(HEADER) && Trimmed(HEADER) && HEADER != "" && HEADER[0] == '/'
  {
    var head, tail := "// frequency program ", "exported by e-Callisto NG";
    assert NoBreak(head) && head[0] == '/';
    assert NoBreak(tail) && tail[|tail| - 1] == 'G';
  }

  lemma OtherLinesAreSkipped(r: Reading, line: string)
    requires Trimmed(line) && line != "" && line[0] != '['
    ensures ReadLine(r, line) == Some(r)
  {
    TrimmedIsStripped(line);
  }

  /** Whatever stands behind an unknown key is ignored. */
  lemma UnknownKeyIsSkipped(r: Reading, key: string, val: string)
    requires IsKey(key) && |key| != |SWEEPS| && |key| != |EXTERNAL_LO|
    ensures ReadLine(r, Line(key, val)) == Some(r)
  {
    KeyOfLine(key, val);
    KeyIsLower(key);
  }

  lemma SweepsLineReads(r: Reading, n: nat)
    ensures ReadLine(r, Line(SWEEPS, SweepRate(n)))
         == if n == 0 then Some(r.(sweeps := 0))
            else if THROUGHPUT % n == 0 then Some(r.(sweeps := THROUGHPUT / n)) else None
  {
    hide SweepRate, ParseInt;
    SweepsIsKey();
    SweepRateReads(n);
    PlainLineKeepsItsKey(r, SWEEPS, SweepRate(n));
    hide SWEEPS;
  }

  lemma ShowFixedIsPlain(x: real, width: nat)
    ensures Plain(ShowFixed(x, width)) && ',' !in ShowFixed(x, width) && NoBreak(ShowFixed(x, width))
  {
    hide RoundHalfEven, Padded;
    var s := ShowFixed(x, width);
    assert forall i :: 0 <= i < |s| ==> IsDigit(s[i]) || s[i] == '.' || s[i] == '-';
  }

  lemma LoLineReads(r: Reading, lo: real)
    ensures ReadLine(r, Line(EXTERNAL_LO, ShowFixed(lo, 0))) == Some(r.(lo := Rounded(lo)))
  {
    hide ShowFixed, ParseDecimal, Rounded;
    ExternalLoIsKey();
    SweepsIsKey();
    ShowFixedIsPlain(lo, 0);
    ParseOfShowFixed(lo, 0);
    PlainLineKeepsItsKey(r, EXTERNAL_LO, ShowFixed(lo, 0));
    assert |SWEEPS| != |EXTERNAL_LO|;
    hide SWEEPS, EXTERNAL_LO;
  }

  lemma ChannelLineReads(r: Reading, i: nat, freq: real, flagged: bool)
    ensures ReadLine(r, Line(Padded(i + 1, 4), ChannelValue(freq, flagged)))
         == Some(r.(indexed := r.indexed + [(i + 1, Rounded(freq))]))
  {
    hide ShowFixed, ParseDecimal, Rounded, Padded, Value, Columns;
    var key, shown := Padded(i + 1, 4), ShowFixed(freq, 8);
    ShowFixedIsPlain(freq, 8);
    ParseOfShowFixed(freq, 8);
    PlainLine(key, ChannelValue(freq, flagged));
    DigitsAreLower(key);
    ValueOfPadded(i + 1, 4);
    NotTheSettings(key);
    FirstColumn(shown, [if flagged then '1' else '0']);
    assert ChannelValue(freq, flagged) == shown + [','] + [if flagged then '1' else '0'];
    TrimmedIsStripped(shown);
    hide KeyValue, Line, ChannelValue, SWEEPS, EXTERNAL_LO, Plain, NoBreak;
  }

  lemma DigitsAreLower(key: string)
    requires AllDigits(key)
    ensures Lower(key) == key && AllWord(key)
  {
  }

  lemma NotTheSettings(key: string)
    requires AllDigits(key)
    ensures key != SWEEPS && key != EXTERNAL_LO
  {
    SweepsIsKey();
    ExternalLoIsKey();
  }

  /** The channels of a program from channel `i` on, as they are read back. */
  function Indexed(frequencies: seq<real>, i: nat): (cs: seq<(nat, real)>)
    requires i <= |frequencies|
    ensures |cs| == |frequencies| - i
    ensures forall k :: 0 <= k < |cs| ==> cs[k] == (i + k + 1, Rounded(frequencies[i + k]))
    decreases |frequencies| - i
  {
    if i == |frequencies| then [] else [(i + 1, Rounded(frequencies[i]))] + Indexed(frequencies, i + 1)
  }

  lemma {:induction false} ChannelsRead(r: Reading, frequencies: seq<real>, lightCurve: set<nat>, i: nat)
    requires i <= |frequencies|
    ensures ReadLines(r, ChannelLines(frequencies, lightCurve, i))
         == Some(r.(indexed := r.indexed + Indexed(frequencies, i)))
    decreases |frequencies| - i
  {
    hide ReadLine, Line, Padded, ChannelValue, Rounded;
    if i < |frequencies| {
      var line := Line(Padded(i + 1, 4), ChannelValue(frequencies[i], i in lightCurve));
      var first, later := (i + 1, Rounded(frequencies[i])), Indexed(frequencies, i + 1);
      var next := r.(indexed := r.indexed + [first]);
      ChannelLineReads(r, i, frequencies[i], i in lightCurve);
      ChannelsRead(next, frequencies, lightCurve, i + 1);
      assert ChannelLines(frequencies, lightCurve, i)[1..] == ChannelLines(frequencies, lightCurve, i + 1);
      assert r.indexed + ([first] + later) == r.indexed + [first] + later;
    } else {
      assert r.indexed + [] == r.indexed;
    }
  }

  /** What was printed in index order is in order when it is read. */
  lemma {:induction false} IndexedIsSorted(frequencies: seq<real>, i: nat)
    requires i <= |frequencies|
    ensures SortedChannels(Indexed(frequencies, i)) == Indexed(frequencies, i)
    decreases |frequencies| - i
  {
    hide Rounded;
    if i < |frequencies| {
      IndexedIsSorted(frequencies, i + 1);
      assert Indexed(frequencies, i)[1..] == Indexed(frequencies, i + 1);
    }
  }

  lemma {:induction false} ReadInTurn(r: Reading, a: seq<string>, b: seq<string>)
    ensures ReadLines(r, a + b)
         == var m := ReadLines(r, a); if m.None? then None else ReadLines(m.value, b)
    decreases |a|
  {
    hide ReadLine;
    if a == [] {
      assert a + b == b;
    } else {
      assert (a + b)[1..] == a[1..] + b;
      var next := ReadLine(r, a[0]);
      if next.Some? {
        ReadInTurn(next.value, a[1..], b);
      }
    }
  }

  /** What reading the settings of a printed program leaves. */
  lemma SettingsRead(n: nat, lo: real, target: string)
    ensures ReadLines(EMPTY, SettingLines(n, lo, target))
         == if n == 0 then Some(Reading([], 0, Rounded(lo)))
            else if THROUGHPUT % n == 0 then Some(Reading([], THROUGHPUT / n, Rounded(lo)))
            else None
  {
    HeaderShape();
    OtherLinesAreSkipped(EMPTY, HEADER);
    SettingKeys();
    UnknownKeyIsSkipped(EMPTY, TARGET, target);
    UnknownKeyIsSkipped(EMPTY, TESTPOINT, Show(n / 2));
    UnknownKeyIsSkipped(EMPTY, MEASUREMENTS, Show(n));
    SweepsLineReads(EMPTY, n);
    var rate := if n == 0 then 0 else THROUGHPUT / n;
    LoLineReads(EMPTY.(sweeps := rate), lo);
    hide ReadLine, Line, HEADER, TARGET, TESTPOINT, MEASUREMENTS, SWEEPS, EXTERNAL_LO;
    hide Show, SweepRate, ShowFixed, Rounded;
    hide IsKey, NoBreak;
    SkipFour(EMPTY, HEADER, Line(TARGET, target), Line(TESTPOINT, Show(n / 2)), Line(MEASUREMENTS, Show(n)),
             Line(SWEEPS, SweepRate(n)), Line(EXTERNAL_LO, ShowFixed(lo, 0)));
  }

  lemma SettingKeys()
    ensures IsKey(TARGET) && IsKey(TESTPOINT) && IsKey(MEASUREMENTS)
    ensures |TARGET| != |SWEEPS| && |TESTPOINT| != |SWEEPS| && |MEASUREMENTS| != |SWEEPS|
    ensures |TARGET| != |EXTERNAL_LO| && |TESTPOINT| != |EXTERNAL_LO| && |MEASUREMENTS| != |EXTERNAL_LO|
  {
    TargetIsKey();
    TestpointIsKey();
    MeasurementsIsKey();
    SweepsIsKey();
    ExternalLoIsKey();
    hide TARGET, TESTPOINT, MEASUREMENTS, SWEEPS, EXTERNAL_LO, IsKey;
  }

  lemma SkipFour(r: Reading, a: string, b: string, c: string, d: string, e: string, f: string)
    requires ReadLine(r, a) == ReadLine(r, b) == ReadLine(r, c) == ReadLine(r, d) == Some(r)
    ensures ReadLines(r, [a, b, c, d, e, f])
         == var m := ReadLine(r, e); if m.None? then None else ReadLine(m.value, f)
  {
    hide ReadLine;
    ReadFirst(r, a, [b, c, d, e, f]);
    ReadFirst(r, b, [c, d, e, f]);
    ReadFirst(r, c, [d, e, f]);
    ReadFirst(r, d, [e, f]);
    ReadFirst(r, e, [f]);
    var m := ReadLine(r, e);
    if m.Some? {
      ReadFirst(m.value, f, []);
    }
    assert [a] + [b, c, d, e, f] == [a, b, c, d, e, f] && [b] + [c, d, e, f] == [b, c, d, e, f];
    assert [c] + [d, e, f] == [c, d, e, f] && [d] + [e, f] == [d, e, f] && [e] + [f] == [e, f] && [f] + [] == [f];
  }

  lemma ReadFirst(r: Reading, line: string, lines: seq<string>)
    ensures ReadLines(r, [line] + lines)
         == var m := ReadLine(r, line); if m.None? then None else ReadLines(m.value, lines)
    ensures ReadLines(r, []) == Some(r)
  {
    hide ReadLine;
    assert ([line] + lines)[1..] == lines;
  }

  lemma LineHasNoBreak(key: string, val: string)
    requires AllWord(key) && NoBreak(val)
    ensures NoBreak(Line(key, val))
  {
    assert forall i :: 0 <= i < |key| ==> IsWord(key[i]) && !IsBreak(key[i]);
  }

  lemma PlainHasNoBreak(s: string)
    requires Plain(s)
    ensures NoBreak(s)
  {
    assert forall c: char :: IsBreak(c) ==> IsSpace(c);
  }

  lemma ShowHasNoBreak(n: nat)
    ensures NoBreak(Show(n))
  {
    var s := Show(n);
    assert forall i :: 0 <= i < |s| ==> IsDigit(s[i]) && !IsBreak(s[i]);
  }

  lemma SettingLinesHaveNoBreak(n: nat, lo: real, target: string)
    requires NoBreak(target)
    ensures forall i :: 0 <= i < 6 ==> NoBreak(SettingLines(n, lo, target)[i])
  {
    HeaderShape();
    SettingKeys();
    SweepsIsKey();
    ExternalLoIsKey();
    ShowHasNoBreak(n / 2);
    ShowHasNoBreak(n);
    SweepRateReads(n);
    PlainHasNoBreak(SweepRate(n));
    ShowFixedIsPlain(lo, 0);
    hide HEADER, TARGET, TESTPOINT, MEASUREMENTS, SWEEPS, EXTERNAL_LO, Show, SweepRate, ShowFixed, NoBreak, AllWord;
    LineHasNoBreak(TARGET, target);
    LineHasNoBreak(TESTPOINT, Show(n / 2));
    LineHasNoBreak(MEASUREMENTS, Show(n));
    LineHasNoBreak(SWEEPS, SweepRate(n));
    LineHasNoBreak(EXTERNAL_LO, ShowFixed(lo, 0));
    hide Line;
    SixLines(HEADER, Line(TARGET, target), Line(TESTPOINT, Show(n / 2)), Line(MEASUREMENTS, Show(n)),
             Line(SWEEPS, SweepRate(n)), Line(EXTERNAL_LO, ShowFixed(lo, 0)));
  }

  lemma SixLines(a: string, b: string, c: string, d: string, e: string, f: string)
    requires NoBreak(a) && NoBreak(b) && NoBreak(c) && NoBreak(d) && NoBreak(e) && NoBreak(f)
    ensures forall i :: 0 <= i < 6 ==> NoBreak([a, b, c, d, e, f][i])
  {
    hide NoBreak;
  }

  lemma {:induction false} ChannelLinesHaveNoBreak(frequencies: seq<real>, lightCurve: set<nat>, i: nat)
    requires i <= |frequencies|
    ensures forall line <- ChannelLines(frequencies, lightCurve, i) :: NoBreak(line)
    decreases |frequencies| - i
  {
    if i < |frequencies| {
      ChannelLinesHaveNoBreak(frequencies, lightCurve, i + 1);
      var val := ChannelValue(frequencies[i], i in lightCurve);
      var key := Padded(i + 1, 4);
      ShowFixedIsPlain(frequencies[i], 8);
      DigitsAreLower(key);
      assert NoBreak(val);
      LineHasNoBreak(key, val);
      hide Line, ChannelValue, Padded, NoBreak;
    }
  }

  lemma LinesOfProgram(frequencies: seq<real>, lightCurve: set<nat>, lo: real, target: string)
    requires NoBreak(target)
    ensures SplitLines(ProgramText(frequencies, lightCurve, lo, target))
         == SettingLines(|frequencies|, lo, target) + ChannelLines(frequencies, lightCurve, 0)
  {
    var n := |frequencies|;
    var settings, channels := SettingLines(n, lo, target), ChannelLines(frequencies, lightCurve, 0);
    SettingLinesHaveNoBreak(n, lo, target);
    ChannelLinesHaveNoBreak(frequencies, lightCurve, 0);
    assert |settings| == 6;
    hide SettingLines, NoBreak, SplitLines, JoinLines, ChannelLines;
    var lines := settings + channels;
    forall i | 0 <= i < |lines|
      ensures NoBreak(lines[i])
    {
      assert i >= 6 ==> lines[i] == channels[i - 6];
    }
    SplitOfJoin(lines);
  }

  // ---- Files written by hand ----

  /** By number, and of one number by frequency. */
  predicate Ascends(a: (nat, real), b: (nat, real)) { a.0 <= b.0 && (a.0 == b.0 ==> a.1 <= b.1) }

  predicate InOrder(cs: seq<(nat, real)>) { forall i, j :: 0 <= i < j < |cs| ==> Ascends(cs[i], cs[j]) }

  lemma {:induction false} InsertKeepsOrder(c: (nat, real), cs: seq<(nat, real)>)
    requires InOrder(cs)
    ensures InOrder(InsertChannel(c, cs)) && multiset(InsertChannel(c, cs)) == multiset{c} + multiset(cs)
  {
    if cs == [] || ChannelBefore(c, cs[0]) {
      forall j | 0 <= j < |cs|
        ensures Ascends(c, cs[j])
      {
        assert j > 0 ==> Ascends(cs[0], cs[j]);
      }
    } else {
      InsertKeepsOrder(c, cs[1..]);
      assert Ascends(cs[0], c);
      hide Ascends, ChannelBefore;
      assert cs == [cs[0]] + cs[1..];
      FirstStaysFirst(cs[0], cs[1..], c, InsertChannel(c, cs[1..]));
    }
  }

  lemma FirstStaysFirst(first: (nat, real), cs: seq<(nat, real)>, c: (nat, real), tail: seq<(nat, real)>)
    requires multiset(tail) == multiset{c} + multiset(cs) && InOrder(tail)
    requires Ascends(first, c) && forall i :: 0 <= i < |cs| ==> Ascends(first, cs[i])
    ensures InOrder([first] + tail)
  {
    hide Ascends;
    forall j | 0 <= j < |tail|
      ensures Ascends(first, tail[j])
    {
      assert tail[j] in multiset(tail);
      assert tail[j] != c ==> tail[j] in cs;
    }
  }

  /** The channels are those of the file, by number, and of one number by frequency. */
  lemma {:induction false} ChannelsAreSorted(cs: seq<(nat, real)>)
    ensures InOrder(SortedChannels(cs)) && multiset(SortedChannels(cs)) == multiset(cs)
  {
    if cs != [] {
      ChannelsAreSorted(cs[1..]);
      InsertKeepsOrder(cs[0], SortedChannels(cs[1..]));
      assert cs == [cs[0]] + cs[1..];
      hide SortedChannels, InsertChannel, InOrder;
    }
  }

  /** The value of the last line with this key. */
  function LastValue(lines: seq<string>, key: string): Option<string> {
    if lines == [] then None
    else
      var later, kv := LastValue(lines[1..], key), KeyValue(lines[0]);
      if later.Some? then later else if kv.Some? && kv.value.0 == key then Some(kv.value.1) else None
  }

  /** The line has a number that cannot be read; only the sweeps and the oscillator may be left empty. */
  predicate Unreadable(line: string) {
    var kv := KeyValue(line);
    kv.Some? && (
      || (kv.value.0 == SWEEPS && kv.value.1 != "" && ParseInt(kv.value.1).None?)
      || (kv.value.0 == EXTERNAL_LO && kv.value.1 != "" && ParseDecimal(kv.value.1).None?)
      || (AllDigits(kv.value.0) && ParseDecimal(Strip(Columns(kv.value.1)[0])).None?))
  }

  /** The channel lines: the number in the key, and the first column as frequency. */
  function ChannelsIn(lines: seq<string>): seq<(nat, real)>
    requires forall line <- lines :: !Unreadable(line)
  {
    if lines == [] then []
    else
      var kv := KeyValue(lines[0]);
      NotTheSettingsIn(lines[0]);
      assert !Unreadable(lines[0]);
      (if kv.Some? && AllDigits(kv.value.0)
       then [(Value(kv.value.0), ParseDecimal(Strip(Columns(kv.value.1)[0])).value)] else [])
      + ChannelsIn(lines[1..])
  }

  lemma NotTheSettingsIn(line: string)
    ensures var kv := KeyValue(line);
      kv.Some? && AllDigits(kv.value.0) ==> kv.value.0 != SWEEPS && kv.value.0 != EXTERNAL_LO
  {
    hide KeyValue;
    var kv := KeyValue(line);
    if kv.Some? && AllDigits(kv.value.0) {
      NotTheSettings(kv.value.0);
    }
  }

  /** What one setting is after the lines: its last value, else what it was. */
  predicate SweepsAfter(before: int, last: Option<string>, after: int) {
    if last.None? then after == before else if last.value == "" then after == 4 else ParseInt(last.value) == Some(after)
  }

  predicate LoAfter(before: real, last: Option<string>, after: real) {
    if last.None? then after == before else if last.value == "" then after == 0.0
    else ParseDecimal(last.value) == Some(after)
  }

  lemma OneLineSays(r: Reading, line: string)
    ensures ReadLine(r, line).None? <==> Unreadable(line)
    ensures var kv, m := KeyValue(line), ReadLine(r, line);
      m.Some? ==>
        && SweepsAfter(r.sweeps, if kv.Some? && kv.value.0 == SWEEPS then Some(kv.value.1) else None, m.value.sweeps)
        && LoAfter(r.lo, if kv.Some? && kv.value.0 == EXTERNAL_LO then Some(kv.value.1) else None, m.value.lo)
        && m.value.indexed == r.indexed + if kv.Some? && AllDigits(kv.value.0)
             then [(Value(kv.value.0), ParseDecimal(Strip(Columns(kv.value.1)[0])).value)] else []
  {
    SettingKeys();
    SweepsIsKey();
    ExternalLoIsKey();
    NotTheSettingsIn(line);
    assert |SWEEPS| != |EXTERNAL_LO|;
    assert r.indexed + [] == r.indexed;
    hide KeyValue, ParseInt, ParseDecimal, Columns, Strip, Value, SWEEPS, EXTERNAL_LO, AllDigits, IsKey;
  }

  lemma {:induction false} LinesSay(r: Reading, lines: seq<string>)
    ensures ReadLines(r, lines).None? <==> exists line <- lines :: Unreadable(line)
    ensures var m := ReadLines(r, lines);
      m.Some? ==>
        && SweepsAfter(r.sweeps, LastValue(lines, SWEEPS), m.value.sweeps)
        && LoAfter(r.lo, LastValue(lines, EXTERNAL_LO), m.value.lo)
        && m.value.indexed == r.indexed + ChannelsIn(lines)
    decreases |lines|
  {
    hide KeyValue, ReadLine, ParseInt, ParseDecimal, Columns, Strip, Value, SWEEPS, EXTERNAL_LO, AllDigits, Unreadable;
    if lines != [] {
      OneLineSays(r, lines[0]);
      var next := ReadLine(r, lines[0]);
      assert lines == [lines[0]] + lines[1..];
      if next.Some? {
        LinesSay(next.value, lines[1..]);
      }
    }
  }

  /**
   Any program file: it is refused exactly when a line has a number that cannot be read. Otherwise the last sweep rate
   and the last oscillator count, 4 and 0 where there is none, and the frequencies are those of all channel lines in
   the order of their numbers.
   */
  lemma FileSays(text: string)
    ensures var lines, p := SplitLines(text), ParsedProgram(text);
      && (p.None? <==> exists line <- lines :: Unreadable(line))
      && (p.Some? ==>
            && SweepsAfter(4, LastValue(lines, SWEEPS), p.value.sweeps)
            && LoAfter(0.0, LastValue(lines, EXTERNAL_LO), p.value.lo)
            && var cs := SortedChannels(ChannelsIn(lines));
              && InOrder(cs) && multiset(cs) == multiset(ChannelsIn(lines)) && |cs| == |p.value.frequencies|
              && forall i :: 0 <= i < |cs| ==> p.value.frequencies[i] == cs[i].1)
  {
    var lines := SplitLines(text);
    hide SplitLines, Unreadable, SWEEPS, EXTERNAL_LO, SortedChannels, InOrder, SweepsAfter, LoAfter, ReadLines;
    LinesSay(EMPTY, lines);
    if ParsedProgram(text).Some? {
      assert [] + ChannelsIn(lines) == ChannelsIn(lines);
      ChannelsAreSorted(ChannelsIn(lines));
    }
  }

  /** A comment goes from the first two slashes on. */
  lemma {:induction false} CommentIsCut(s: string, i: nat)
    ensures var t := BeforeComment(s);
      && t <= s
      && (|t| < |s| ==> |t| + 1 < |s| && s[|t|] == '/' && s[|t| + 1] == '/')
      && (i < |t| ==> !(i + 1 < |s| && s[i] == '/' && s[i + 1] == '/'))
  {
    if s != "" && !(|s| >= 2 && s[0] == '/' && s[1] == '/') {
      CommentIsCut(s[1..], if i > 0 then i - 1 else 0);
      assert s == [s[0]] + s[1..];
    }
  }

  /** Keys are read in any case: a letter in lower case, and every other character as it is. */
  lemma LowerCase(key: string, i: nat)
    requires i < |key| && AllWord(key)
    ensures |Lower(key)| == |key|
    ensures 'A' <= key[i] && key[i] <= 'Z' ==> Lower(key)[i] as int - 'a' as int == key[i] as int - 'A' as int
    ensures key[i] < 'A' || key[i] > 'Z' ==> Lower(key)[i] == key[i]
  {
  }

  // ---- What the printed lines say ----

  /** The line reads back as the key and a whole number. */
  predicate SaysWhole(line: string, key: string, v: int) {
    var kv := KeyValue(line);
    kv.Some? && kv.value.0 == key && ParseInt(kv.value.1) == Some(v)
  }

  /** The line reads back as the key and a number. */
  predicate SaysNumber(line: string, key: string, v: real) {
    var kv := KeyValue(line);
    kv.Some? && kv.value.0 == key && ParseDecimal(kv.value.1) == Some(v)
  }

  /** The line of a channel: a number of at least four digits, the frequency, and the flag of the light curve. */
  predicate SaysChannel(line: string, number: nat, freq: real, flagged: bool) {
    var kv := KeyValue(line);
    && kv.Some? && |kv.value.0| >= 4 && AllDigits(kv.value.0) && Value(kv.value.0) == number
    && (number < 10000 ==> |kv.value.0| == 4)
    && var cols := Columns(kv.value.1);
      && |cols| == 2 && |cols[0]| >= 8 && ParseDecimal(cols[0]) == Some(freq)
      && (0.0 < freq < 9999.999 ==> |cols[0]| == 8)
      && (flagged ==> cols[1] == "1") && (!flagged ==> cols[1] == "0")
  }

  lemma WholeLineSays(key: string, v: nat)
    requires IsKey(key)
    ensures SaysWhole(Line(key, Show(v)), key, v)
  {
    WholeReads(v);
    PlainLine(key, Show(v));
    KeyIsLower(key);
    hide KeyValue, Line, ParseInt, Show, Lower;
  }

  lemma FixedLineSays(key: string, x: real)
    requires IsKey(key)
    ensures SaysNumber(Line(key, ShowFixed(x, 0)), key, Rounded(x))
  {
    ShowFixedIsPlain(x, 0);
    ParseOfShowFixed(x, 0);
    PlainLine(key, ShowFixed(x, 0));
    KeyIsLower(key);
    hide KeyValue, Line, ParseDecimal, ShowFixed, Rounded, Lower;
  }

  lemma ChannelLineSays(i: nat, freq: real, flagged: bool)
    ensures SaysChannel(Line(Padded(i + 1, 4), ChannelValue(freq, flagged)), i + 1, Rounded(freq), flagged)
  {
    hide ShowFixed, ParseDecimal, Rounded, Padded, Value, Columns, NoBreak;
    var key := Padded(i + 1, 4);
    ChannelValueSays(freq, flagged);
    KeyFills(i);
    PlainLine(key, ChannelValue(freq, flagged));
    DigitsAreLower(key);
    ValueOfPadded(i + 1, 4);
    hide KeyValue, Line, ChannelValue, Plain;
  }

  lemma ChannelValueSays(freq: real, flagged: bool)
    ensures var val := ChannelValue(freq, flagged);
      var cols := Columns(val);
      && Plain(val)
      && |cols| == 2 && |cols[0]| >= 8 && ParseDecimal(cols[0]) == Some(Rounded(freq))
      && (0.0 < Rounded(freq) < 9999.999 ==> |cols[0]| == 8)
      && cols[1] == if flagged then "1" else "0"
  {
    hide ShowFixed, ParseDecimal, Rounded, Columns, NoBreak;
    var shown, flag := ShowFixed(freq, 8), [if flagged then '1' else '0'];
    ShowFixedIsPlain(freq, 8);
    ShowFixedFills(freq, 8);
    FrequencyFills(freq);
    NegativeRounds(freq);
    ParseOfShowFixed(freq, 8);
    assert ChannelValue(freq, flagged) == shown + [','] + flag;
    FirstColumn(shown, flag);
    OneColumn(flag);
  }

  lemma KeyFills(i: nat)
    ensures i + 1 < 10000 ==> |Padded(i + 1, 4)| == 4
  {
    assert Pow10(4) == 10000;
    if i + 1 < 10000 {
      PaddedFills(i + 1, 4);
    }
  }

  lemma NegativeRounds(freq: real)
    ensures freq < 0.0 ==> Rounded(freq) <= 0.0
  {
    RoundedBySign(freq);
    hide RoundHalfEven;
  }

  lemma FrequencyFills(freq: real)
    ensures 0.0 <= freq && Rounded(freq) < 9999.999 ==> |ShowFixed(freq, 8)| == 8
  {
    RoundedIsNear(freq);
    hide Rounded, ShowFixed;
    if 0.0 <= freq && Rounded(freq) < 9999.999 {
      EightCharacters(freq);
    }
  }

  lemma OneColumn(s: string)
    requires ',' !in s
    ensures Columns(s) == [s]
  {
    IndexOfNone(s, ',');
  }

  lemma {:induction false} ChannelLineAt(frequencies: seq<real>, lightCurve: set<nat>, i: nat, k: nat)
    requires i <= k < |frequencies|
    ensures ChannelLines(frequencies, lightCurve, i)[k - i]
         == Line(Padded(k + 1, 4), ChannelValue(frequencies[k], k in lightCurve))
    decreases k - i
  {
    hide Line, Padded, ChannelValue;
    if i < k {
      ChannelLineAt(frequencies, lightCurve, i + 1, k);
    }
  }

  lemma SettingsSay(n: nat, lo: real, target: string, half: nat)
    requires 2 * half <= n < 2 * half + 2
    ensures var lines := SettingLines(n, lo, target);
      && |lines| == 6
      && SaysWhole(lines[2], TESTPOINT, half)
      && SaysWhole(lines[3], MEASUREMENTS, n)
      && SaysNumber(lines[5], EXTERNAL_LO, Rounded(lo))
  {
    hide TARGET, TESTPOINT, MEASUREMENTS, SWEEPS, EXTERNAL_LO, HEADER, IsKey;
    hide SaysWhole, SaysNumber, Line, Show, ShowFixed, SweepRate, Rounded;
    SettingKeys();
    ExternalLoKey();
    WholeLineSays(TESTPOINT, half);
    WholeLineSays(MEASUREMENTS, n);
    FixedLineSays(EXTERNAL_LO, lo);
    assert half == n / 2;
  }

  lemma ExternalLoKey()
    ensures IsKey(EXTERNAL_LO)
  {
    ExternalLoIsKey();
  }

  /**
   The lines of a printed program, read back one by one: half the channel count as testpoint, the count, the local
   oscillator, and for every channel its number, its frequency and whether it belongs to the light curve.
   */
  lemma PrintedLines(frequencies: seq<real>, lightCurve: set<nat>, lo: real, target: string, half: nat, k: nat)
    requires NoBreak(target) && 2 * half <= |frequencies| < 2 * half + 2
    ensures var lines := SplitLines(ProgramText(frequencies, lightCurve, lo, target));
      && |lines| == 6 + |frequencies|
      && SaysWhole(lines[2], TESTPOINT, half)
      && SaysWhole(lines[3], MEASUREMENTS, |frequencies|)
      && SaysNumber(lines[5], EXTERNAL_LO, Rounded(lo))
      && (k < |frequencies| ==> SaysChannel(lines[6 + k], k + 1, Rounded(frequencies[k]), k in lightCurve))
  {
    hide SaysWhole, SaysNumber, SaysChannel, SplitLines, ProgramText, SettingLines, ChannelLines, Rounded, NoBreak;
    LinesOfProgram(frequencies, lightCurve, lo, target);
    SettingsSay(|frequencies|, lo, target, half);
    if k < |frequencies| {
      ChannelLineAt(frequencies, lightCurve, 0, k);
      ChannelLineSays(k, frequencies[k], k in lightCurve);
    }
    hide Line, Padded, ChannelValue, TESTPOINT, MEASUREMENTS, EXTERNAL_LO;
  }

  /**
   Going through the file: the import succeeds exactly when the channel count divides the throughput (or is zero), and
   then it returns every frequency, in order, rounded to three decimals. Light-curve flags leave no trace.
   */
  lemma ImportOfExport(frequencies: seq<real>, lightCurve: set<nat>, lo: real, target: string)
    requires NoBreak(target)
    ensures var n := |frequencies|;
      ParsedProgram(ProgramText(frequencies, lightCurve, lo, target))
      == if n == 0 then Some(Program([], 0, Rounded(lo)))
         else if THROUGHPUT % n == 0 then Some(Program(Map(Rounded, frequencies), THROUGHPUT / n, Rounded(lo)))
         else None
  {
    var n := |frequencies|;
    var settings, channels := SettingLines(n, lo, target), ChannelLines(frequencies, lightCurve, 0);
    hide SettingLines, NoBreak, ReadLine, ReadLines, SplitLines, ProgramText, Rounded, ChannelLines, SortedChannels;
    LinesOfProgram(frequencies, lightCurve, lo, target);
    SettingsRead(n, lo, target);
    ReadInTurn(EMPTY, settings, channels);
    var m := ReadLines(EMPTY, settings);
    if m.Some? {
      ChannelsRead(m.value, frequencies, lightCurve, 0);
      ProgramOfIndexed(frequencies);
      hide Indexed, Frequencies;
    }
  }

  lemma ProgramOfIndexed(frequencies: seq<real>)
    ensures Frequencies(SortedChannels([] + Indexed(frequencies, 0))) == Map(Rounded, frequencies)
  {
    hide SortedChannels, Rounded;
    IndexedIsSorted(frequencies, 0);
    assert [] + Indexed(frequencies, 0) == Indexed(frequencies, 0);
  }

  /** Three channels cannot be imported: the printed rate is `266.667`. */
  lemma ThreeChannelsAreNotImported(frequencies: seq<real>, target: string)
    requires |frequencies| == 3 && NoBreak(target)
    ensures ParsedProgram(ProgramText(frequencies, {}, 0.0, target)) == None
  {
    ImportOfExport(frequencies, {}, 0.0, target);
  }

  // ---- The receiver is tuned alike ----

  /** All tuner frequencies near the grid point `j / 16` have the same divider. */
  lemma DividerNearGrid(j: int, x: real, fw: Firmware)
    requires x >= 0.0 && j as real - 0.016 <= x * 16.0 <= j as real + 0.016 && IsProfile(fw)
    ensures Divider(x, fw.ifInit) == j + if fw == FIRMWARE_18 then 578 else 603
  {
    assert (x + fw.ifInit) / SYNTHESIZER_RESOLUTION == x * 16.0 + fw.ifInit * 16.0;
  }

  /** A tuner frequency on the grid and one rounded from it select the same divider and the same band. */
  lemma SameWord(a: real, b: real, fw: Firmware)
    requires a >= 0.0 && b >= 0.0 && FrequencyPlan.OnGrid(a) && -0.001 <= b - a <= 0.001 && IsProfile(fw)
    requires a == LOW_BAND || a == MID_BAND ==> b == a
    ensures Divider(b, fw.ifInit) == Divider(a, fw.ifInit) && BandFor(b) == BandFor(a)
  {
    var j := (a * 16.0).Floor;
    DividerNearGrid(j, a, fw);
    DividerNearGrid(j, b, fw);
    hide Divider, IsProfile;
    assert LOW_BAND * 16.0 == 2736.0 && MID_BAND * 16.0 == 7200.0;
  }

  /** Rounding the frequency and the local oscillator separately keeps the band edges. */
  lemma EdgesStay(freq: real, lo: real, edge: int)
    requires edge % 2 == 0 && (freq - lo == edge as real / 1000.0)
    ensures Rounded(freq) - Rounded(lo) == edge as real / 1000.0
  {
    RoundIsSymmetric(lo * 1000.0, edge);
    assert freq * 1000.0 == lo * 1000.0 + edge as real;
  }

  /** The tuner frequency after rounding both the channel and the local oscillator. */
  lemma DistanceStays(freq: real, lo: real)
    ensures var a, b := Abs(freq - lo), Abs(Rounded(freq) - Rounded(lo));
      -0.001 <= b - a <= 0.001 && (a == LOW_BAND || a == MID_BAND ==> b == a)
  {
    var a := Abs(freq - lo);
    RoundedIsNear(freq);
    RoundedIsNear(lo);
    hide Rounded;
    if a == LOW_BAND {
      EdgesStay(freq, lo, if freq < lo then -171000 else 171000);
    } else if a == MID_BAND {
      EdgesStay(freq, lo, if freq < lo then -450000 else 450000);
    }
  }

  /** A command depends on the tuner frequency only through its divider and its band. */
  lemma CommandOfWord(index: nat, freq: real, lo: real, freq': real, lo': real, fw: Firmware, chargepump: bool)
    requires fw.ifInit >= 0.0
    requires Divider(Abs(freq - lo), fw.ifInit) == Divider(Abs(freq' - lo'), fw.ifInit)
    requires BandFor(Abs(freq - lo)) == BandFor(Abs(freq' - lo'))
    ensures ChannelCommand(index, freq, fw, lo, chargepump) == ChannelCommand(index, freq', fw, lo', chargepump)
  {
    hide Divider, BandFor, Show, Padded, Abs;
  }

  lemma SameCommand(index: nat, freq: real, fw: Firmware, lo: real, chargepump: bool)
    requires IsProfile(fw) && FrequencyPlan.OnGrid(freq - lo)
    ensures ChannelCommand(index, Rounded(freq), fw, Rounded(lo), chargepump)
      == ChannelCommand(index, freq, fw, lo, chargepump)
  {
    DistanceStays(freq, lo);
    GridIsSymmetric(freq - lo);
    assert fw.ifInit >= 0.0;
    hide Rounded, FrequencyPlan.OnGrid, Abs, ChannelCommand, IsProfile, Divider, BandFor;
    SameWord(Abs(freq - lo), Abs(Rounded(freq) - Rounded(lo)), fw);
    CommandOfWord(index, freq, lo, Rounded(freq), Rounded(lo), fw, chargepump);
  }

  lemma GridIsSymmetric(d: real)
    requires FrequencyPlan.OnGrid(d)
    ensures FrequencyPlan.OnGrid(Abs(d))
  {
    var k := (d * 16.0).Floor;
    assert (-d * 16.0) == (-k) as real;
    assert ((-k) as real).Floor == -k;
  }

  /** The two programs tune the receiver alike: same channels in number, same bytes for each of them. */
  predicate TunesAlike(p: Program, frequencies: seq<real>, lo: real, fw: Firmware, chargepump: bool)
    requires IsProfile(fw)
  {
    && |p.frequencies| == |frequencies|
    && forall i :: 0 <= i < |frequencies| ==>
         ChannelCommand(i, p.frequencies[i], fw, p.lo, chargepump)
           == ChannelCommand(i, frequencies[i], fw, lo, chargepump)
  }

  lemma RoundedTunesAlike(frequencies: seq<real>, sweeps: int, lo: real, fw: Firmware, chargepump: bool)
    requires IsProfile(fw) && forall i :: 0 <= i < |frequencies| ==> FrequencyPlan.OnGrid(frequencies[i] - lo)
    ensures TunesAlike(Program(Map(Rounded, frequencies), sweeps, Rounded(lo)), frequencies, lo, fw, chargepump)
  {
    assert fw.ifInit >= 0.0;
    hide Rounded, ChannelCommand, IsProfile, FrequencyPlan.OnGrid;
    forall i | 0 <= i < |frequencies|
      ensures ChannelCommand(i, Rounded(frequencies[i]), fw, Rounded(lo), chargepump)
           == ChannelCommand(i, frequencies[i], fw, lo, chargepump)
    {
      SameCommand(i, frequencies[i], fw, lo, chargepump);
    }
  }

  /**
   The plan survives the file: when the channel count divides the throughput, the channels keep their number and order,
   none moves by more than half a kilohertz, and every profile is sent the same bytes, provided the tuner frequencies
   (the distances from the local oscillator) are on the synthesizer grid.
   */
  lemma PlanSurvivesTheFile(
    frequencies: seq<real>, lightCurve: set<nat>, lo: real, target: string, fw: Firmware, chargepump: bool)
    requires NoBreak(target) && IsProfile(fw)
    requires frequencies != [] && THROUGHPUT % |frequencies| == 0
    requires forall i :: 0 <= i < |frequencies| ==> FrequencyPlan.OnGrid(frequencies[i] - lo)
    ensures var p := ParsedProgram(ProgramText(frequencies, lightCurve, lo, target));
      && p.Some? && p.value.sweeps * |frequencies| == THROUGHPUT
      && TunesAlike(p.value, frequencies, lo, fw, chargepump)
      && (forall i :: 0 <= i < |frequencies| ==> -0.0005 <= p.value.frequencies[i] - frequencies[i] <= 0.0005)
  {
    hide ProgramText, ParsedProgram, ChannelCommand, Rounded, NoBreak, IsProfile, FrequencyPlan.OnGrid, TunesAlike;
    ImportOfExport(frequencies, lightCurve, lo, target);
    var sweeps := THROUGHPUT / |frequencies|;
    assert sweeps * |frequencies| == THROUGHPUT;
    RoundedTunesAlike(frequencies, sweeps, lo, fw, chargepump);
    forall i | 0 <= i < |frequencies|
      ensures -0.0005 <= Rounded(frequencies[i]) - frequencies[i] <= 0.0005
    {
      RoundedIsNear(frequencies[i]);
    }
  }

  /** A generated plan survives the file without further condition than its channel count. */
  lemma GeneratedPlanSurvivesTheFile(r: FrequencyPlan.Request, target: string, fw: Firmware, chargepump: bool)
    requires r.Accepted() && THROUGHPUT % r.channels == 0 && NoBreak(target) && IsProfile(fw)
    ensures var p := ParsedProgram(ProgramText(FrequencyPlan.Plan(r), {}, 0.0, target));
      p.Some? && TunesAlike(p.value, FrequencyPlan.Plan(r), 0.0, fw, chargepump)
  {
    var plan := FrequencyPlan.Plan(r);
    forall i | 0 <= i < |plan|
      ensures FrequencyPlan.OnGrid(plan[i] - 0.0)
    {
      FrequencyPlan.SnapIsOnGrid(if i < r.pinned then r.start else FrequencyPlan.AllPicks(r)[i - r.pinned]);
      assert plan[i] - 0.0 == plan[i];
    }
    hide ProgramText, ParsedProgram, TunesAlike, NoBreak, FrequencyPlan.Plan, FrequencyPlan.OnGrid;
    PlanSurvivesTheFile(plan, {}, 0.0, target, fw, chargepump);
  }
}
