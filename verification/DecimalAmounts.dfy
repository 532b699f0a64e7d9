/**
 Ledger amounts as decimal strings, computed on as whole counts of 1e-7 units.
 `Denotes` is the reference: the real number that a string writes down.
 */
module DecimalAmounts {
  import opened Arithmetic

  const AMOUNT_DECIMALS: nat := 7
  const AMOUNT_SCALE: int := 10_000_000
  const MAX_AMOUNT_VALUE: int := 170141183460469231731687303715884105727
  const MAX_AMOUNT_UNITS: int := 1701411834604692317316873037158841057270000000

  /** `AmountError` carries the failing input only in its message. */
  datatype Result<+T> = Ok(value: T) | AmountError

  // ---------- digit strings ----------

  predicate IsDigit(c: char) {
    '0' <= c <= '9'
  }

  predicate AllDigits(s: string) {
    forall i :: 0 <= i < |s| ==> IsDigit(s[i])
  }

  function Digit(c: char): int {
    c as int - '0' as int
  }

  function DigitChar(d: nat): char
    requires d < 10
  {
    ('0' as int + d) as char
  }

  function Value(s: string): int {
    if s == "" then 0 else Value(s[..|s| - 1]) * 10 + Digit(s[|s| - 1])
  }

  /** `bigint.toString()`. */
  function Digits(n: nat): string {
    if n < 10 then [DigitChar(n)] else Digits(n / 10) + [DigitChar(n % 10)]
  }

  function Zeros(n: nat): string {
    seq(n, _ => '0')
  }

  function Pow10(n: nat): nat {
    if n == 0 then 1 else 10 * Pow10(n - 1)
  }

  lemma {:induction false} ValueBounds(s: string)
    requires AllDigits(s)
    ensures 0 <= Value(s) < Pow10(|s|)
  {
    if s != "" {
      ValueBounds(s[..|s| - 1]);
    }
  }

  lemma ShiftLeft(x: int, power: int, y: int)
    ensures (x * power + y) * 10 == x * (10 * power) + y * 10
  {
  }

  lemma {:induction false} ValueConcat(a: string, b: string)
    ensures Value(a + b) == Value(a) * Pow10(|b|) + Value(b)
    decreases |b|
  {
    if b == "" {
      assert a + b == a;
    } else {
      var init := b[..|b| - 1];
      ValueConcat(a, init);
      assert (a + b)[..|a + b| - 1] == a + init;
      ShiftLeft(Value(a), Pow10(|init|), Value(init));
    }
  }

  lemma {:induction false} ValueZeros(n: nat)
    ensures Value(Zeros(n)) == 0
  {
    if n > 0 {
      assert Zeros(n)[..n - 1] == Zeros(n - 1);
      ValueZeros(n - 1);
    }
  }

  lemma {:induction false} Pow10Sum(a: nat, b: nat)
    ensures Pow10(a + b) == Pow10(a) * Pow10(b) && Pow10(a) > 0
  {
    if a > 0 {
      Pow10Sum(a - 1, b);
    }
  }

  lemma {:induction false} DigitsFacts(n: nat)
    ensures AllDigits(Digits(n)) && Value(Digits(n)) == n && |Digits(n)| >= 1
    ensures n > 0 ==> Digits(n)[0] != '0'
    ensures n == 0 ==> Digits(n) == "0"
  {
    if n >= 10 {
      DigitsFacts(n / 10);
      assert Digits(n)[..|Digits(n)| - 1] == Digits(n / 10);
    } else {
      assert Digits(n)[..0] == "";
    }
  }

  lemma {:induction false} DigitsLength(n: nat, k: nat)
    requires k > 0 && n < Pow10(k)
    ensures |Digits(n)| <= k
  {
    if n >= 10 {
      DigitsLength(n / 10, k - 1);
    }
  }

  // ---------- parsing ----------

  /** Where the first '.' is, or the length when there is none. */
  function DotAt(s: string): nat
    ensures DotAt(s) <= |s|
  {
    if s == "" || s[0] == '.' then 0 else 1 + DotAt(s[1..])
  }

  function WholePart(s: string): string {
    s[..DotAt(s)]
  }

  function FractionPart(s: string): string {
    if DotAt(s) < |s| then s[DotAt(s) + 1..] else ""
  }

  /** `0|[1-9][0-9]{0,38}`. */
  predicate WholeOk(w: string) {
    w == "0" || (1 <= |w| <= 39 && AllDigits(w) && w[0] != '0')
  }

  /** `AMOUNT_PATTERN`. */
  predicate MatchesPattern(s: string) {
    WholeOk(WholePart(s)) && (DotAt(s) < |s| ==> 1 <= |FractionPart(s)| <= 7 && AllDigits(FractionPart(s)))
  }

  /** The fraction padded with zeros to seven places. */
  function Padded(fraction: string): string
    requires |fraction| <= 7
    ensures |Padded(fraction)| == 7
  {
    (fraction + Zeros(7))[..7]
  }

  function ToUnits(s: string): Result<int> {
    if !MatchesPattern(s) then AmountError
    else
      var units := Value(WholePart(s)) * AMOUNT_SCALE + Value(Padded(FractionPart(s)));
      if units > MAX_AMOUNT_UNITS then AmountError else Ok(units)
  }

  // ---------- printing ----------

  function PadStart(s: string, n: nat): string {
    if |s| >= n then s else Zeros(n - |s|) + s
  }

  function StripZeros(s: string): string {
    if s != "" && s[|s| - 1] == '0' then StripZeros(s[..|s| - 1]) else s
  }

  function FromUnits(units: int): Result<string> {
    if units < 0 || units > MAX_AMOUNT_UNITS then AmountError
    else
      var whole, fraction := Digits(units / AMOUNT_SCALE), units % AMOUNT_SCALE;
      if fraction == 0 then Ok(whole)
      else Ok(whole + "." + StripZeros(PadStart(Digits(fraction), 7)))
  }

  function Normalize(s: string): Result<string> {
    var units := ToUnits(s);
    if units.AmountError? then AmountError else FromUnits(units.value)
  }

  // ---------- round trip ----------

  lemma {:induction false} StripFacts(s: string)
    requires AllDigits(s)
    ensures |StripZeros(s)| <= |s| && s == StripZeros(s) + Zeros(|s| - |StripZeros(s)|)
    ensures AllDigits(StripZeros(s))
    ensures Value(s) > 0 ==> StripZeros(s) != ""
  {
    if s != "" && s[|s| - 1] == '0' {
      var init := s[..|s| - 1];
      StripFacts(init);
      assert Zeros(|s| - |StripZeros(s)|) == Zeros(|init| - |StripZeros(s)|) + "0";
    }
  }

  lemma {:induction false} DotAtDot(w: string, f: string)
    requires '.' !in w
    ensures DotAt(w + "." + f) == |w| && DotAt(w) == |w|
  {
    if w != "" {
      assert (w + "." + f)[1..] == w[1..] + "." + f;
      DotAtDot(w[1..], f);
    } else {
      assert w + "." + f == "." + f;
    }
  }

  lemma ScaleIsPower()
    ensures Pow10(7) == AMOUNT_SCALE
  {
  }

  lemma PaddedIs(f: string)
    requires |f| <= 7
    ensures Padded(f) == f + Zeros(7 - |f|)
  {
  }

  /** Zeros in front add nothing. */
  lemma PadStartValue(d: string)
    requires |d| <= 7 && AllDigits(d)
    ensures |PadStart(d, 7)| == 7 && AllDigits(PadStart(d, 7)) && Value(PadStart(d, 7)) == Value(d)
  {
    hide Value, Pow10;
    ValueZeros(7 - |d|);
    ValueConcat(Zeros(7 - |d|), d);
    assert Zeros(0) + d == d;
  }

  lemma PrintedFraction(fraction: nat)
    requires 0 < fraction < AMOUNT_SCALE
    ensures var f := StripZeros(PadStart(Digits(fraction), 7));
            1 <= |f| <= 7 && AllDigits(f) && Value(Padded(f)) == fraction
  {
    hide Value, Pow10, Digits, PadStart, StripZeros, Padded;
    DigitsFacts(fraction);
    ScaleIsPower();
    DigitsLength(fraction, 7);
    var full := PadStart(Digits(fraction), 7);
    PadStartValue(Digits(fraction));
    StripFacts(full);
    PaddedIs(StripZeros(full));
  }

  lemma PrintedWhole(whole: nat)
    requires whole <= MAX_AMOUNT_VALUE
    ensures WholeOk(Digits(whole)) && Value(Digits(whole)) == whole && '.' !in Digits(whole)
  {
    hide Pow10, Value, Digits;
    DigitsFacts(whole);
    ThirtyNineDigits();
    DigitsLength(whole, 39);
  }

  lemma ThirteenDigits()
    ensures Pow10(13) == 10_000_000_000_000
  {
  }

  lemma ThirtyNineDigits()
    ensures Pow10(39) > MAX_AMOUNT_VALUE
  {
    hide Pow10;
    ThirteenDigits();
    Pow10Sum(13, 13);
    Pow10Sum(26, 13);
  }

  /** Every unit count in range prints to a string the pattern accepts, and parses back to itself. */
  lemma PrintThenParse(units: int)
    requires 0 <= units <= MAX_AMOUNT_UNITS
    ensures FromUnits(units).Ok? && MatchesPattern(FromUnits(units).value)
    ensures ToUnits(FromUnits(units).value) == Ok(units)
  {
    hide WholeOk, Digits, StripZeros, PadStart, Padded, DotAt;
    var whole, fraction := units / AMOUNT_SCALE, units % AMOUNT_SCALE;
    PrintedWhole(whole);
    var w := Digits(whole);
    if fraction == 0 {
      DotAtDot(w, "");
      assert w[..|w|] == w;
      PaddedEmpty();
    } else {
      PrintedFraction(fraction);
      var f := StripZeros(PadStart(Digits(fraction), 7));
      DotAtDot(w, f);
      var s := w + "." + f;
      assert s[..|w|] == w && s[|w| + 1..] == f;
    }
  }

  lemma PaddedEmpty()
    ensures Value(Padded("")) == 0
  {
    assert Padded("") == Zeros(7);
    ValueZeros(7);
  }

  // ---------- the numbers strings denote ----------

  ghost function Denotes(s: string): real {
    var f := FractionPart(s);
    Pow10Sum(|f|, 0);
    Value(WholePart(s)) as real + Value(f) as real / Pow10(|f|) as real
  }

  lemma ScaledQuotient(v: int, a: int, b: int)
    requires a > 0
    ensures v as real / a as real * (a * b) as real == (v * b) as real
  {
    var x, y, z := v as real, a as real, b as real;
    assert x / y * y == x;
    assert x / y * (y * z) == x / y * y * z;
  }

  lemma PaddedValue(f: string)
    requires |f| <= 7 && AllDigits(f)
    ensures Value(f) >= 0 && Value(Padded(f)) == Value(f) * Pow10(7 - |f|) >= 0
    ensures Pow10(|f|) > 0 && Pow10(|f|) * Pow10(7 - |f|) == AMOUNT_SCALE
  {
    hide Value, Pow10, Padded;
    var k := |f|;
    PaddedIs(f);
    ValueConcat(f, Zeros(7 - k));
    ValueZeros(7 - k);
    Pow10Sum(k, 7 - k);
    Pow10Sum(7 - k, 0);
    ScaleIsPower();
    ValueBounds(f);
    NonNegativeProduct(Value(f), Pow10(7 - k));
  }

  /** Parsing an accepted string gives the number it denotes, in units. */
  lemma ParseIsExact(s: string)
    requires MatchesPattern(s)
    ensures var units := Value(WholePart(s)) * AMOUNT_SCALE + Value(Padded(FractionPart(s)));
            units >= 0 && units as real == Denotes(s) * AMOUNT_SCALE as real
  {
    hide Value, Pow10, Padded;
    var w, f := WholePart(s), FractionPart(s);
    PaddedValue(f);
    ValueBounds(w);
    ScaledQuotient(Value(f), Pow10(|f|), Pow10(7 - |f|));
  }

  /** A string is accepted exactly when it has the pattern and denotes at most 2^127 - 1. */
  lemma AcceptedIff(s: string)
    ensures ToUnits(s).Ok? <==> MatchesPattern(s) && Denotes(s) <= MAX_AMOUNT_VALUE as real
    ensures ToUnits(s).Ok? ==> 0 <= ToUnits(s).value <= MAX_AMOUNT_UNITS
                               && ToUnits(s).value as real == Denotes(s) * AMOUNT_SCALE as real
  {
    hide MatchesPattern, Denotes;
    if MatchesPattern(s) {
      ParseIsExact(s);
      assert MAX_AMOUNT_UNITS as real == MAX_AMOUNT_VALUE as real * AMOUNT_SCALE as real;
    }
  }

  /** Printing gives a string for the same number. */
  lemma PrintIsExact(units: int)
    requires 0 <= units <= MAX_AMOUNT_UNITS
    ensures FromUnits(units).Ok? && Denotes(FromUnits(units).value) * AMOUNT_SCALE as real == units as real
  {
    hide FromUnits, ToUnits, Denotes;
    PrintThenParse(units);
    AcceptedIff(FromUnits(units).value);
  }

  /** A run of decimal digits. */
  predicate Decimals(s: string) {
    forall i :: 0 <= i < |s| ==> s[i] in "0123456789"
  }

  /** `whole`, or `whole.fraction`, as `^(0|[1-9][0-9]{0,38})(\.[0-9]{1,7})?$` reads it. */
  predicate HasForm(s: string, whole: string, fraction: string) {
    && Decimals(whole) && 1 <= |whole| <= 39 && (whole[0] == '0' ==> |whole| == 1)
    && (s == whole || (s == whole + "." + fraction && Decimals(fraction) && 1 <= |fraction| <= 7))
  }

  lemma DigitsAreDecimals(s: string)
    ensures AllDigits(s) <==> Decimals(s)
  {
    forall i | 0 <= i < |s| ensures IsDigit(s[i]) <==> s[i] in "0123456789" {
      DigitIsDecimal(s[i]);
    }
  }

  lemma DigitIsDecimal(c: char)
    ensures IsDigit(c) <==> c in "0123456789"
  {
    var all := "0123456789";
    if IsDigit(c) {
      assert all[Digit(c)] == c;
    }
  }

  /** Splitting at the first '.' accepts exactly the strings of that form. */
  lemma PatternIff(s: string)
    ensures MatchesPattern(s) <==> exists whole, fraction :: HasForm(s, whole, fraction)
  {
    hide AllDigits, Decimals, DotAt;
    if MatchesPattern(s) {
      var w, f := WholePart(s), FractionPart(s);
      PartsAre(s);
      DigitsAreDecimals(w);
      DigitsAreDecimals(f);
      ZeroIsDecimal();
      assert HasForm(s, w, f);
    }
    if whole, fraction :| HasForm(s, whole, fraction) {
      DigitsAreDecimals(whole);
      DigitsAreDecimals(fraction);
      NoDotInside(whole);
      DotAtDot(whole, fraction);
      FormParts(s, whole, fraction);
    }
  }

  lemma ZeroIsDecimal()
    ensures Decimals("0") && AllDigits("0")
  {
  }

  lemma NoDotInside(s: string)
    requires AllDigits(s)
    ensures '.' !in s
  {
  }

  lemma FormParts(s: string, whole: string, fraction: string)
    requires '.' !in whole && DotAt(whole) == |whole| && DotAt(whole + "." + fraction) == |whole|
    ensures s == whole ==> WholePart(s) == whole && DotAt(s) == |s|
    ensures s == whole + "." + fraction ==> WholePart(s) == whole && FractionPart(s) == fraction
  {
    hide DotAt;
  }

  // ---------- one string for each number ----------

  /** A fraction, where there is one, does not end in zero. */
  predicate Canonical(s: string) {
    MatchesPattern(s) && (DotAt(s) < |s| ==> FractionPart(s) != "" && FractionPart(s)[|FractionPart(s)| - 1] != '0')
  }

  lemma {:induction false} StripEnd(s: string)
    ensures StripZeros(s) == "" || StripZeros(s)[|StripZeros(s)| - 1] != '0'
  {
    if s != "" && s[|s| - 1] == '0' {
      StripEnd(s[..|s| - 1]);
    }
  }

  /** Whatever is printed is canonical. */
  lemma PrintsCanonical(units: int)
    requires 0 <= units <= MAX_AMOUNT_UNITS
    ensures FromUnits(units).Ok? && Canonical(FromUnits(units).value)
  {
    hide WholeOk, Digits, StripZeros, PadStart, Padded, DotAt, MatchesPattern;
    PrintThenParse(units);
    var whole, fraction := units / AMOUNT_SCALE, units % AMOUNT_SCALE;
    var w := Digits(whole);
    PrintedWhole(whole);
    if fraction == 0 {
      DotAtDot(w, "");
    } else {
      PrintedFraction(fraction);
      StripEnd(PadStart(Digits(fraction), 7));
      var f := StripZeros(PadStart(Digits(fraction), 7));
      DotAtDot(w, f);
      var s := w + "." + f;
      assert s[|w| + 1..] == f;
    }
  }

  lemma {:induction false} SameLengthSameDigits(a: string, b: string)
    requires AllDigits(a) && AllDigits(b) && |a| == |b| && Value(a) == Value(b)
    ensures a == b
  {
    if a != "" {
      var x, y := a[..|a| - 1], b[..|b| - 1];
      LastDigit(Value(x), Digit(a[|a| - 1]), Value(y), Digit(b[|b| - 1]));
      SameLengthSameDigits(x, y);
      assert a == x + [a[|a| - 1]] && b == y + [b[|b| - 1]];
    }
  }

  lemma LastDigit(x: int, c: int, y: int, d: int)
    requires 0 <= c < 10 && 0 <= d < 10 && x * 10 + c == y * 10 + d
    ensures x == y && c == d
  {
  }

  lemma {:induction false} ValueAtLeast(s: string)
    requires AllDigits(s) && s != "" && s[0] != '0'
    ensures Value(s) >= Pow10(|s| - 1)
  {
    if |s| > 1 {
      ValueAtLeast(s[..|s| - 1]);
    } else {
      assert s[..0] == "";
    }
  }

  lemma {:induction false} Pow10Grows(a: nat, b: nat)
    requires a <= b
    ensures Pow10(a) <= Pow10(b)
  {
    if a < b {
      Pow10Grows(a, b - 1);
    }
  }

  /** A longer whole part is a larger number. */
  lemma LongerIsLarger(a: string, b: string)
    requires WholeOk(a) && WholeOk(b) && |a| < |b|
    ensures Value(a) < Value(b)
  {
    hide Value, Pow10;
    ValueBounds(a);
    ValueAtLeast(b);
    Pow10Grows(|a|, |b| - 1);
  }

  lemma SameWhole(a: string, b: string)
    requires WholeOk(a) && WholeOk(b) && Value(a) == Value(b)
    ensures a == b
  {
    hide Value;
    if |a| < |b| {
      LongerIsLarger(a, b);
    } else if |b| < |a| {
      LongerIsLarger(b, a);
    } else {
      SameLengthSameDigits(a, b);
    }
  }

  /** Of two fractions with the same padding, one that does not end in zero is the shorter. */
  lemma PaddedPrefix(f: string, g: string)
    requires |f| <= 7 && |g| <= 7 && Padded(f) == Padded(g) && (f == "" || f[|f| - 1] != '0')
    ensures f <= g
  {
    hide Padded;
    PaddedIs(f);
    PaddedIs(g);
    var p := Padded(f);
    assert p[..|f|] == f && p[..|g|] == g;
  }

  /** Two strings that denote one number have the same whole part and the same padded fraction. */
  lemma SameParts(s: string, t: string)
    requires MatchesPattern(s) && MatchesPattern(t) && Denotes(s) == Denotes(t)
    ensures WholePart(s) == WholePart(t) && Padded(FractionPart(s)) == Padded(FractionPart(t))
  {
    hide Value, Pow10, Padded, Denotes, WholeOk;
    ParseIsExact(s);
    ParseIsExact(t);
    var f, g := Padded(FractionPart(s)), Padded(FractionPart(t));
    PaddedDigits(FractionPart(s));
    PaddedDigits(FractionPart(t));
    SplitUnits(Value(WholePart(s)), Value(f), Value(WholePart(t)), Value(g));
    SameWhole(WholePart(s), WholePart(t));
    SameLengthSameDigits(f, g);
  }

  lemma PaddedDigits(f: string)
    requires |f| <= 7 && AllDigits(f)
    ensures AllDigits(Padded(f)) && 0 <= Value(Padded(f)) < AMOUNT_SCALE
  {
    hide Value, Pow10;
    ValueBounds(Padded(f));
    ScaleIsPower();
  }

  lemma SplitUnits(a: int, x: int, b: int, y: int)
    requires 0 <= x < AMOUNT_SCALE && 0 <= y < AMOUNT_SCALE && a * AMOUNT_SCALE + x == b * AMOUNT_SCALE + y
    ensures a == b && x == y
  {
  }

  lemma PartsAre(s: string)
    ensures s == if DotAt(s) < |s| then WholePart(s) + "." + FractionPart(s) else WholePart(s)
  {
    hide DotAt;
    DotIsThere(s);
    if DotAt(s) < |s| {
      CutAt(s, DotAt(s));
    }
  }

  lemma CutAt(s: string, d: nat)
    requires d < |s|
    ensures s == s[..d] + [s[d]] + s[d + 1..]
  {
  }

  lemma {:induction false} DotIsThere(s: string)
    ensures DotAt(s) < |s| ==> s[DotAt(s)] == '.'
  {
    if s != "" && s[0] != '.' {
      DotIsThere(s[1..]);
    }
  }

  /** A canonical string is the shortest one with the pattern that denotes its number, and the only canonical one. */
  lemma CanonicalIsShortest(s: string, t: string)
    requires Canonical(s) && MatchesPattern(t) && Denotes(s) == Denotes(t)
    ensures |s| <= |t| && (Canonical(t) ==> s == t)
  {
    hide Denotes, Value, WholeOk, DotAt, WholePart, FractionPart, Padded;
    SameParts(s, t);
    PartsAre(s);
    PartsAre(t);
    NoDotNoFraction(s);
    NoDotNoFraction(t);
    PaddedPrefix(FractionPart(s), FractionPart(t));
    if Canonical(t) {
      PaddedPrefix(FractionPart(t), FractionPart(s));
    }
  }

  lemma NoDotNoFraction(s: string)
    ensures DotAt(s) >= |s| ==> FractionPart(s) == ""
  {
  }

  /**
   Normalising keeps the number and is idempotent; its result is the shortest
   string for the number; a string stays as it is exactly when it is
   canonical; and two accepted strings normalise alike exactly when they denote
   the same number.
   */
  lemma NormalizeCanonical(a: string, b: string)
    requires ToUnits(a).Ok? && ToUnits(b).Ok?
    ensures Normalize(a).Ok? && Denotes(Normalize(a).value) == Denotes(a)
    ensures Normalize(Normalize(a).value) == Normalize(a)
    ensures Normalize(a) == Normalize(b) <==> Denotes(a) == Denotes(b)
    ensures Normalize(a) == Ok(a) <==> Canonical(a)
    ensures forall t :: MatchesPattern(t) && Denotes(t) == Denotes(a) ==> |Normalize(a).value| <= |t|
  {
    hide FromUnits, ToUnits, Denotes, Canonical, MatchesPattern;
    AcceptedIff(a);
    AcceptedIff(b);
    PrintThenParse(ToUnits(a).value);
    PrintThenParse(ToUnits(b).value);
    PrintIsExact(ToUnits(a).value);
    PrintsCanonical(ToUnits(a).value);
    CanonicalIsShortest(Normalize(a).value, a);
    forall t | MatchesPattern(t) && Denotes(t) == Denotes(a) ensures |Normalize(a).value| <= |t| {
      CanonicalIsShortest(Normalize(a).value, t);
    }
  }

  // ---------- arithmetic ----------

  function AddAmounts(a: string, b: string): Result<string> {
    var x, y := ToUnits(a), ToUnits(b);
    if x.AmountError? || y.AmountError? || x.value + y.value > MAX_AMOUNT_UNITS then AmountError
    else FromUnits(x.value + y.value)
  }

  function SubtractAmounts(a: string, b: string): Result<string> {
    var x, y := ToUnits(a), ToUnits(b);
    if x.AmountError? || y.AmountError? || x.value - y.value < 0 then AmountError
    else FromUnits(x.value - y.value)
  }

  function CompareAmounts(a: string, b: string): Result<int> {
    var x, y := ToUnits(a), ToUnits(b);
    if x.AmountError? || y.AmountError? then AmountError
    else Ok(if x.value < y.value then -1 else if x.value > y.value then 1 else 0)
  }

  /** The string has the pattern and denotes at most 2^127 - 1. */
  ghost predicate Accepted(s: string) {
    MatchesPattern(s) && Denotes(s) <= MAX_AMOUNT_VALUE as real
  }

  /**
   Addition, subtraction and comparison are those of the real numbers denoted:
   they succeed exactly on accepted strings whose result is in range, and a
   comparison is -1, 0 or 1.
   */
  lemma ArithmeticIsExact(a: string, b: string)
    ensures AddAmounts(a, b).Ok? <==> Accepted(a) && Accepted(b) && Denotes(a) + Denotes(b) <= MAX_AMOUNT_VALUE as real
    ensures AddAmounts(a, b).Ok? ==> Denotes(AddAmounts(a, b).value) == Denotes(a) + Denotes(b) && Canonical(AddAmounts(a, b).value)
    ensures SubtractAmounts(a, b).Ok? <==> Accepted(a) && Accepted(b) && Denotes(a) >= Denotes(b)
    ensures SubtractAmounts(a, b).Ok? ==>
      Denotes(SubtractAmounts(a, b).value) == Denotes(a) - Denotes(b) && Canonical(SubtractAmounts(a, b).value)
    ensures CompareAmounts(a, b) ==
            if !Accepted(a) || !Accepted(b) then AmountError
            else Ok(if Denotes(a) < Denotes(b) then -1 else if Denotes(a) > Denotes(b) then 1 else 0)
  {
    hide FromUnits, ToUnits, Denotes, MatchesPattern, Canonical;
    AcceptedIff(a);
    AcceptedIff(b);
    if ToUnits(a).Ok? && ToUnits(b).Ok? {
      var x, y := ToUnits(a).value, ToUnits(b).value;
      assert MAX_AMOUNT_UNITS as real == MAX_AMOUNT_VALUE as real * AMOUNT_SCALE as real;
      if x + y <= MAX_AMOUNT_UNITS {
        PrintIsExact(x + y);
        PrintsCanonical(x + y);
      }
      if x - y >= 0 {
        PrintIsExact(x - y);
        PrintsCanonical(x - y);
      }
    }
  }

  datatype Rounding = Floor | Ceil | HalfUp

  /** `units` is `exact / denominator` rounded in the given mode, told by what is left of `exact`. */
  ghost predicate Rounds(mode: Rounding, exact: int, denominator: int, units: int) {
    var rest := exact - units * denominator;
    match mode
    case Floor => 0 <= rest < denominator
    case Ceil => -denominator < rest <= 0
    case HalfUp => -denominator <= 2 * rest < denominator
  }

  lemma SmallMultiple(k: int, d: int)
    requires -d < k * d < d
    ensures k == 0
  {
    if k >= 1 {
      NonNegativeProduct(k - 1, d);
    } else if k <= -1 {
      NonNegativeProduct(-1 - k, d);
    }
  }

  lemma Apart(u: int, v: int, d: int)
    ensures v * d - u * d == (v - u) * d
  {
  }

  lemma RoundsOnce(mode: Rounding, exact: int, d: int, u: int, v: int)
    requires d > 0 && Rounds(mode, exact, d, u) && Rounds(mode, exact, d, v)
    ensures u == v
  {
    Apart(u, v, d);
    SmallMultiple(v - u, d);
  }

  function Quotient(a: int, b: int): int
    requires b > 0
  {
    a / b
  }

  function Remainder(a: int, b: int): int
    requires b > 0
  {
    a % b
  }

  lemma Division(a: int, b: int)
    requires b > 0 && a >= 0
    ensures Quotient(a, b) >= 0 && 0 <= Remainder(a, b) < b
    ensures a == Quotient(a, b) * b + Remainder(a, b)
    ensures a == (Quotient(a, b) + 1) * b + Remainder(a, b) - b
  {
  }

  /** `multiplyAmountByRatio`: the correctly rounded product when it is in range, and an error otherwise. */
  method MultiplyByRatio(s: string, numerator: int, denominator: int, rounding: Rounding) returns (r: Result<string>)
    ensures r.Ok? ==> denominator > 0 && numerator >= 0 && ToUnits(s).Ok? && ToUnits(r.value).Ok? && Canonical(r.value)
    ensures r.Ok? ==> Rounds(rounding, ToUnits(s).value * numerator, denominator, ToUnits(r.value).value)
    ensures denominator > 0 && numerator >= 0 && ToUnits(s).Ok? && r.AmountError? ==>
      forall u :: u <= MAX_AMOUNT_UNITS ==> !Rounds(rounding, ToUnits(s).value * numerator, denominator, u)
  {
    hide ToUnits, FromUnits, Quotient, Remainder, Canonical;
    if denominator <= 0 || numerator < 0 {
      return AmountError;
    }
    var parsed := ToUnits(s);
    if parsed.AmountError? {
      return AmountError;
    }
    AcceptedIff(s);
    var scaled := parsed.value * numerator;
    NonNegativeProduct(parsed.value, numerator);
    Division(scaled, denominator);
    var quotient, remainder := Quotient(scaled, denominator), Remainder(scaled, denominator);
    var units := quotient;
    if rounding == Ceil && remainder > 0 {
      units := units + 1;
    } else if rounding == HalfUp && remainder * 2 >= denominator {
      units := units + 1;
    }
    assert Rounds(rounding, scaled, denominator, units);
    if units > MAX_AMOUNT_UNITS {
      forall u | Rounds(rounding, scaled, denominator, u) ensures u == units {
        RoundsOnce(rounding, scaled, denominator, u, units);
      }
      return AmountError;
    }
    PrintThenParse(units);
    PrintsCanonical(units);
    r := FromUnits(units);
  }

  function UnitsTotal(values: seq<string>): Result<int> {
    if values == [] then Ok(0)
    else
      var before, last := UnitsTotal(values[..|values| - 1]), ToUnits(values[|values| - 1]);
      if before.AmountError? || last.AmountError? then AmountError else Ok(before.value + last.value)
  }

  lemma {:induction false} UnitsTotalGrows(values: seq<string>, k: nat)
    requires k <= |values|
    ensures UnitsTotal(values[..k]).AmountError? ==> UnitsTotal(values).AmountError?
    ensures UnitsTotal(values).Ok? && UnitsTotal(values[..k]).Ok? ==> 0 <= UnitsTotal(values[..k]).value <= UnitsTotal(values).value
    decreases |values|
  {
    hide ToUnits;
    if k == |values| {
      assert values[..k] == values;
    }
    if values != [] {
      var init := values[..|values| - 1];
      AcceptedIff(values[|values| - 1]);
      UnitsTotalGrows(init, if k < |values| then k else |init|);
      assert k < |values| ==> init[..k] == values[..k];
      assert init[..|init|] == init;
    }
  }

  /** `sumAmounts`: checking the bound after every addition accepts exactly the lists whose whole sum is in range. */
  method SumAmounts(values: seq<string>) returns (r: Result<string>)
    ensures r.Ok? <==> UnitsTotal(values).Ok? && UnitsTotal(values).value <= MAX_AMOUNT_UNITS
    ensures r.Ok? ==> ToUnits(r.value) == UnitsTotal(values) && Canonical(r.value)
  {
    hide ToUnits, FromUnits, Canonical;
    var units, k := 0, 0;
    while k < |values|
      invariant 0 <= k <= |values| && UnitsTotal(values[..k]) == Ok(units) && 0 <= units <= MAX_AMOUNT_UNITS
    {
      assert values[..k + 1][..k] == values[..k];
      UnitsTotalGrows(values, k + 1);
      AcceptedIff(values[k]);
      var parsed := ToUnits(values[k]);
      if parsed.AmountError? {
        return AmountError;
      }
      units := units + parsed.value;
      if units > MAX_AMOUNT_UNITS {
        return AmountError;
      }
      k := k + 1;
    }
    assert values[..k] == values;
    PrintThenParse(units);
    PrintsCanonical(units);
    r := FromUnits(units);
  }
}
