/** int64 arithmetic and decimal int64 text: strconv.ParseInt and Atoi in base 10, and printing. */
module Numbers {

  const MAX_UINT64 := 0xFFFF_FFFF_FFFF_FFFF
  const TWO63 := 0x8000_0000_0000_0000
  const TWO64 := 0x1_0000_0000_0000_0000

  /** Two's complement int64 arithmetic. */
  function Wrap64(x: int): int {
    (x + TWO63) % TWO64 - TWO63
  }

  /** A value, or an error with the value that comes with it. */
  datatype Parsed = Ok(n: int) | Syntax | Range(clamped: int)

  /** What a caller that ignores the error works with. */
  function ValueOf(r: Parsed): int {
    match r
    case Ok(n) => n
    case Syntax => 0
    case Range(clamped) => clamped
  }

  predicate IsDecimal(c: char) { '0' <= c <= '9' }

  /** ParseUint's loop from `n` on: the first bad character or the first overflow decides. */
  function Scan(s: string, n: nat): (r: Parsed)
    ensures (r.Ok? ==> r.n >= n) && (r.Range? ==> r.clamped == MAX_UINT64)
  {
    if s == "" then Ok(n)
    else if !IsDecimal(s[0]) then Syntax
    else
      var next := n * 10 + (s[0] - '0') as int;
      if next > MAX_UINT64 then Range(MAX_UINT64) else Scan(s[1..], next)
  }

  function ParseUint(s: string): Parsed {
    if s == "" then Syntax else Scan(s, 0)
  }

  function ParseInt(s: string): Parsed {
    if s == "" then Syntax
    else if s[0] == '-' then Negative(ParseUint(s[1..]))
    else Positive(ParseUint(if s[0] == '+' then s[1..] else s))
  }

  function Positive(u: Parsed): Parsed {
    if u == Syntax then u else if ValueOf(u) >= TWO63 then Range(TWO63 - 1) else Ok(ValueOf(u))
  }

  function Negative(u: Parsed): Parsed {
    if u == Syntax then u else if ValueOf(u) > TWO63 then Range(-TWO63) else Ok(-ValueOf(u))
  }

  function Show(n: nat): string {
    if n < 10 then [Decimal(n)] else Show(n / 10) + [Decimal(n % 10)]
  }

  function Decimal(d: nat): char
    requires d < 10
  {
    '0' + d as char
  }

  lemma {:induction false} ScanAppend(s: string, t: string, n: nat)
    ensures Scan(s + t, n) == if Scan(s, n).Ok? then Scan(t, Scan(s, n).n) else Scan(s, n)
  {
    if s == "" {
      assert s + t == t;
    } else if IsDecimal(s[0]) && n * 10 + (s[0] - '0') as int <= MAX_UINT64 {
      ScanAppend(s[1..], t, n * 10 + (s[0] - '0') as int);
      assert (s + t)[1..] == s[1..] + t;
    }
  }

  lemma {:induction false} ShowIsDecimal(n: nat)
    ensures |Show(n)| > 0 && (|Show(n)| == 1 <==> n < 10)
    ensures forall i :: 0 <= i < |Show(n)| ==> IsDecimal(Show(n)[i])
  {
    if n >= 10 { ShowIsDecimal(n / 10); }
  }

  lemma ScanDigit(d: nat, n: nat)
    requires d < 10
    ensures Scan([Decimal(d)], n) == if n * 10 + d > MAX_UINT64 then Range(MAX_UINT64) else Ok(n * 10 + d)
  {}

  lemma {:induction false} ScanShow(n: nat)
    ensures Scan(Show(n), 0) == if n > MAX_UINT64 then Range(MAX_UINT64) else Ok(n)
  {
    if n < 10 {
      ScanDigit(n, 0);
    } else {
      ScanShow(n / 10);
      ScanAppend(Show(n / 10), [Decimal(n % 10)], 0);
      if n / 10 <= MAX_UINT64 { ScanDigit(n % 10, n / 10); }
    }
  }

  /** Parsing undoes printing exactly up to the int64 limit, and clamps above it. */
  lemma ParseShow(n: nat)
    ensures ParseInt(Show(n)) == if n < TWO63 then Ok(n) else Range(TWO63 - 1)
  {
    ShowIsDecimal(n);
    ScanShow(n);
  }

  /** Only a sign and digits ever parse. */
  lemma ParsedIsPlain(s: string)
    requires ParseInt(s).Ok?
    ensures s != "" && forall i :: 0 <= i < |s| ==> IsDecimal(s[i]) || s[i] == '-' || s[i] == '+'
  {
    var digits := if s[0] == '-' || s[0] == '+' then s[1..] else s;
    ScannedIsDecimal(digits, 0);
    assert forall i :: 1 <= i < |s| ==> s[i] == s[1..][i - 1];
  }

  lemma {:induction false} ScannedIsDecimal(s: string, n: nat)
    requires Scan(s, n).Ok?
    ensures forall i :: 0 <= i < |s| ==> IsDecimal(s[i])
  {
    if s != "" { ScannedIsDecimal(s[1..], n * 10 + (s[0] - '0') as int); }
  }

  /** With a sign in front the same, down to -2^63. */
  lemma ParseSigned(n: nat)
    ensures ParseInt("-" + Show(n)) == if n <= TWO63 then Ok(-(n as int)) else Range(-TWO63)
    ensures ParseInt("+" + Show(n)) == if n < TWO63 then Ok(n) else Range(TWO63 - 1)
  {
    ShowIsDecimal(n);
    ScanShow(n);
    assert ("-" + Show(n))[1..] == Show(n) && ("+" + Show(n))[1..] == Show(n);
  }
}
