/** Sizes and durations with a unit: "5MB", "7d", "1mo". */
module Quantities {
  import opened Numbers
  import opened Strings
  import opened Ttl

  function Upper(s: string): string {
    seq(|s|, i requires 0 <= i < |s| => if 'a' <= s[i] <= 'z' then s[i] - 'a' + 'A' else s[i])
  }

  function Lower(s: string): string {
    seq(|s|, i requires 0 <= i < |s| => if 'A' <= s[i] <= 'Z' then s[i] - 'A' + 'a' else s[i])
  }

  predicate HasSuffix(s: string, suffix: string) {
    |s| >= |suffix| && s[|s| - |suffix|..] == suffix
  }

  function TrimSuffix(s: string, suffix: string): string {
    if HasSuffix(s, suffix) then s[..|s| - |suffix|] else s
  }

  // Sizes.

  const SIZE_UNITS: seq<(string, int)> := [("GB", 1024 * 1024 * 1024), ("MB", 1024 * 1024), ("KB", 1024)]

  /** The first unit from the i-th on that fits decides; the errors of ParseInt are ignored. */
  function SizeFrom(v: string, i: nat): int
    requires i <= |SIZE_UNITS|
    decreases |SIZE_UNITS| - i
  {
    if i == |SIZE_UNITS| then ValueOf(ParseInt(v))
    else if HasSuffix(v, SIZE_UNITS[i].0) then
      Wrap64(ValueOf(ParseInt(TrimSuffix(v, SIZE_UNITS[i].0))) * SIZE_UNITS[i].1)
    else SizeFrom(v, i + 1)
  }

  function Size(raw: string): int {
    SizeFrom(Trim(Upper(raw), Space), 0)
  }

  method ParseSize(raw: string) returns (size: int)
    ensures size == Size(raw)
  {
    var v := Trim(Upper(raw), Space);
    for i := 0 to |SIZE_UNITS|
      invariant SizeFrom(v, i) == SizeFrom(v, 0)
    {
      if HasSuffix(v, SIZE_UNITS[i].0) {
        var n := ParseInt(TrimSuffix(v, SIZE_UNITS[i].0));
        return Wrap64(ValueOf(n) * SIZE_UNITS[i].1);
      }
    }
    return ValueOf(ParseInt(v));
  }

  /** The units, the bare number among them. */
  datatype SizeUnit = Giga | Mega | Kilo | Bytes

  function SizeSuffix(u: SizeUnit): string {
    match u case Giga => "GB" case Mega => "MB" case Kilo => "KB" case Bytes => ""
  }

  function SizeFactor(u: SizeUnit): int {
    match u case Giga => 1073741824 case Mega => 1048576 case Kilo => 1024 case Bytes => 1
  }

  // Durations.

  const HOUR := 3600 * SECOND

  function Duration(raw: string): int {
    var v := Trim(Lower(raw), Space);
    if v == "" || v == "0" then 0 else DurationOf(v)
  }

  function DurationOf(v: string): int {
    if HasSuffix(v, "mo") then Wrap64(Wrap64(Wrap64(Amount(v, "mo") * 30) * 24) * HOUR)
    else if HasSuffix(v, "d") then Wrap64(Wrap64(Amount(v, "d") * 24) * HOUR)
    else if HasSuffix(v, "h") then Wrap64(Amount(v, "h") * HOUR)
    else Wrap64(Amount(v, "s") * SECOND)
  }

  function Amount(v: string, suffix: string): int {
    ValueOf(ParseInt(TrimSuffix(v, suffix)))
  }

  datatype TimeUnit = Months | Days | Hours | Secs | NoUnit

  function TimeSuffix(u: TimeUnit): string {
    match u case Months => "mo" case Days => "d" case Hours => "h" case Secs => "s" case NoUnit => ""
  }

  function TimeFactor(u: TimeUnit): int {
    match u
    case Months => 30 * 24 * HOUR
    case Days => 24 * HOUR
    case Hours => HOUR
    case Secs => SECOND
    case NoUnit => SECOND
  }

  // A printed number with its unit, in any case and with space around it.

  lemma SuffixOfAppend(digits: string, suffix: string)
    ensures HasSuffix(digits + suffix, suffix) && TrimSuffix(digits + suffix, suffix) == digits
  {
    var s := digits + suffix;
    assert s[|s| - |suffix|..] == suffix && s[..|s| - |suffix|] == digits;
  }

  /** A suffix that ends in another character does not fit. */
  lemma OtherSuffix(s: string, suffix: string, k: nat)
    requires 0 < k <= |suffix| && k <= |s| && s[|s| - k] != suffix[|suffix| - k]
    ensures !HasSuffix(s, suffix)
  {
    assert |s| >= |suffix| ==> s[|s| - |suffix|..][|suffix| - k] == s[|s| - k];
  }

  lemma InRange(x: int)
    ensures -TWO63 <= Wrap64(x) < TWO63 && (-TWO63 <= x < TWO63 ==> Wrap64(x) == x)
  {}

  /** Multiplying what was parsed is exact just when the product fits. */
  lemma ProductExact(n: nat, factor: int)
    requires factor >= 1
    ensures Wrap64(ValueOf(ParseInt(Show(n))) * factor) == n * factor <==> n * factor < TWO63
  {
    ParseShow(n);
    InRange(ValueOf(ParseInt(Show(n))) * factor);
    Grows(n, factor);
  }

  lemma Grows(n: nat, factor: int)
    requires factor >= 1
    ensures n * factor >= n
  {}

  lemma LastDigit(n: nat, suffix: string)
    ensures var s := Show(n) + suffix; |s| > |suffix| && IsDecimal(s[|s| - |suffix| - 1])
  {
    ShowIsDecimal(n);
  }

  lemma SizeOfText(n: nat, u: SizeUnit)
    ensures SizeFrom(Show(n) + SizeSuffix(u), 0) == Wrap64(ValueOf(ParseInt(Show(n))) * SizeFactor(u))
  {
    var s := Show(n) + SizeSuffix(u);
    LastDigit(n, SizeSuffix(u));
    SuffixOfAppend(Show(n), SizeSuffix(u));
    match u {
      case Giga =>
      case Mega =>
        OtherSuffix(s, "GB", 2);
      case Kilo =>
        OtherSuffix(s, "GB", 2);
        OtherSuffix(s, "MB", 2);
      case Bytes =>
        OtherSuffix(s, "GB", 1);
        OtherSuffix(s, "MB", 1);
        OtherSuffix(s, "KB", 1);
        assert s == Show(n);
        ParseShow(n);
        InRange(ValueOf(ParseInt(Show(n))));
    }
  }

  lemma ShowUnchanged(n: nat)
    ensures Upper(Show(n)) == Show(n) == Lower(Show(n)) && !Space(Show(n)[0])
  {
    ShowIsDecimal(n);
    var s := Show(n);
    assert forall i :: 0 <= i < |s| ==> IsDecimal(s[i]);
  }

  lemma SpacesUnchanged(s: string)
    requires All(s, Space)
    ensures Upper(s) == s == Lower(s)
  {}

  lemma UpperAppend(a: string, b: string)
    ensures Upper(a + b) == Upper(a) + Upper(b)
  {}

  lemma LowerAppend(a: string, b: string)
    ensures Lower(a + b) == Lower(a) + Lower(b)
  {}

  /** Main result: whatever the case of the unit and the space around it, a printed
      size parses to its number of bytes exactly when that fits an int64. */
  lemma SizeExact(pre: string, n: nat, unit: string, u: SizeUnit, post: string)
    requires All(pre, Space) && All(post, Space) && Upper(unit) == SizeSuffix(u)
    ensures Size(pre + (Show(n) + unit) + post) == n * SizeFactor(u) <==> n * SizeFactor(u) < TWO63
  {
    var s := Show(n) + SizeSuffix(u);
    UpperAppend(pre + (Show(n) + unit), post);
    UpperAppend(pre, Show(n) + unit);
    UpperAppend(Show(n), unit);
    ShowUnchanged(n);
    SpacesUnchanged(pre);
    SpacesUnchanged(post);
    LastDigit(n, SizeSuffix(u));
    TrimDrops(pre, s, post, Space);
    SizeOfText(n, u);
    ProductExact(n, SizeFactor(u));
  }

  /** The steps of a duration wrap one after the other, to the same effect as once. */
  lemma StepsWrapOnce(x: int, a: int, b: int)
    ensures Wrap64(Wrap64(x * a) * b) == Wrap64(x * a * b)
  {
    var q := (x * a + TWO63) / TWO64;
    assert Wrap64(x * a) == x * a - q * TWO64;
    Multiples(x * a * b, q * b, x * a, q, b);
  }

  lemma Multiples(product: int, turns: int, y: int, q: int, b: int)
    requires product == y * b && turns == q * b
    ensures Wrap64((y - q * TWO64) * b) == Wrap64(product)
  {
    assert (y - q * TWO64) * b == product - turns * TWO64;
    Turns(product, turns);
  }

  lemma Turns(x: int, k: int)
    ensures Wrap64(x - k * TWO64) == Wrap64(x)
  {
    var q, r := (x + TWO63) / TWO64, (x + TWO63) % TWO64;
    assert x - k * TWO64 + TWO63 == (q - k) * TWO64 + r;
  }

  lemma MonthSteps(x: int)
    ensures Wrap64(Wrap64(Wrap64(x * 30) * 24) * HOUR) == Wrap64(x * TimeFactor(Months))
  {
    StepsWrapOnce(x, 30, 24);
    StepsWrapOnce(x, 30 * 24, HOUR);
    assert x * 30 * 24 == x * (30 * 24);
    assert x * (30 * 24) * HOUR == x * TimeFactor(Months);
  }

  lemma DaySteps(x: int)
    ensures Wrap64(Wrap64(x * 24) * HOUR) == Wrap64(x * TimeFactor(Days))
  {
    StepsWrapOnce(x, 24, HOUR);
    assert x * 24 * HOUR == x * TimeFactor(Days);
  }

  lemma DurationOfText(n: nat, u: TimeUnit)
    ensures DurationOf(Show(n) + TimeSuffix(u)) == Wrap64(ValueOf(ParseInt(Show(n))) * TimeFactor(u))
  {
    var v := Show(n) + TimeSuffix(u);
    var x := ValueOf(ParseInt(Show(n)));
    LastDigit(n, TimeSuffix(u));
    SuffixOfAppend(Show(n), TimeSuffix(u));
    NoCapture(v, u);
    match u {
      case Months => MonthSteps(x);
      case Days => DaySteps(x);
      case Hours =>
      case Secs =>
      case NoUnit => assert v == Show(n);
    }
  }

  /** No other branch takes the text. */
  lemma NoCapture(v: string, u: TimeUnit)
    requires |v| > |TimeSuffix(u)| && HasSuffix(v, TimeSuffix(u)) && IsDecimal(v[|v| - |TimeSuffix(u)| - 1])
    ensures u != Months ==> !HasSuffix(v, "mo")
    ensures u != Months && u != Days ==> !HasSuffix(v, "d")
    ensures u == Secs || u == NoUnit ==> !HasSuffix(v, "h")
    ensures u == NoUnit ==> !HasSuffix(v, "s")
  {
    if u != Months {
      OtherSuffix(v, "mo", 1);
      if u != Days { OtherSuffix(v, "d", 1); }
      if u == Secs || u == NoUnit { OtherSuffix(v, "h", 1); }
      if u == NoUnit { OtherSuffix(v, "s", 1); }
    }
  }

  lemma ZeroText(n: nat, u: TimeUnit)
    requires Show(n) + TimeSuffix(u) == "0"
    ensures n == 0
  {
    ShowIsDecimal(n);
    assert |Show(n)| == |Show(n) + TimeSuffix(u)| == 1;
    assert Show(n)[0] == (Show(n) + TimeSuffix(u))[0] == '0';
  }

  /** Main result: the same for durations, in nanoseconds. */
  lemma DurationExact(pre: string, n: nat, unit: string, u: TimeUnit, post: string)
    requires All(pre, Space) && All(post, Space) && Lower(unit) == TimeSuffix(u)
    ensures Duration(pre + (Show(n) + unit) + post) == n * TimeFactor(u) <==> n * TimeFactor(u) < TWO63
  {
    DurationTrims(pre, n, unit, u, post);
    DurationOfText(n, u);
    if Show(n) + TimeSuffix(u) == "0" { ZeroText(n, u); }
    ProductExact(n, TimeFactor(u));
  }

  lemma DurationTrims(pre: string, n: nat, unit: string, u: TimeUnit, post: string)
    requires All(pre, Space) && All(post, Space) && Lower(unit) == TimeSuffix(u)
    ensures Trim(Lower(pre + (Show(n) + unit) + post), Space) == Show(n) + TimeSuffix(u) != ""
  {
    var s := Show(n) + TimeSuffix(u);
    LowerAppend(pre + (Show(n) + unit), post);
    LowerAppend(pre, Show(n) + unit);
    LowerAppend(Show(n), unit);
    ShowUnchanged(n);
    SpacesUnchanged(pre);
    SpacesUnchanged(post);
    LastDigit(n, TimeSuffix(u));
    TrimDrops(pre, s, post, Space);
  }

  predicate NoDigits(s: string) {
    forall i :: 0 <= i < |s| ==> !IsDecimal(s[i])
  }

  lemma NoNumber(s: string)
    requires NoDigits(s)
    ensures ValueOf(ParseInt(s)) == 0
  {}

  /** Main result: a setting without a single digit counts as nothing, whatever its unit. */
  lemma NoDigitsIsZero(raw: string)
    requires NoDigits(raw)
    ensures Size(raw) == 0 && Duration(raw) == 0
  {
    var a, b := TrimIsBare(Upper(raw), Space);
    var c, d := TrimIsBare(Lower(raw), Space);
    NoDigitsSize(Trim(Upper(raw), Space));
    NoDigitsDuration(Trim(Lower(raw), Space));
  }

  lemma NoDigitsSize(v: string)
    requires NoDigits(v)
    ensures SizeFrom(v, 0) == 0
  {
    NoNumber(v);
    NothingFrom(v, 2);
    NothingFrom(v, 1);
    NothingFrom(v, 0);
  }

  lemma NothingFrom(v: string, i: nat)
    requires NoDigits(v) && i < |SIZE_UNITS| && SizeFrom(v, i + 1) == 0
    ensures SizeFrom(v, i) == 0
  {
    NoNumber(TrimSuffix(v, SIZE_UNITS[i].0));
    assert Wrap64(0 * SIZE_UNITS[i].1) == 0;
  }

  lemma NoDigitsDuration(v: string)
    requires NoDigits(v)
    ensures DurationOf(v) == 0
  {
    NoAmount(v, "mo");
    NoAmount(v, "d");
    NoAmount(v, "h");
    NoAmount(v, "s");
  }

  lemma NoAmount(v: string, suffix: string)
    requires NoDigits(v)
    ensures Amount(v, suffix) == 0
  {
    NoNumber(TrimSuffix(v, suffix));
  }
}
