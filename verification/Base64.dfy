/** btoa and forgiving atob, with the Base64 alphabet and padding of section 4 of
    RFC 4648. Binary strings hold one byte per character. */
module Base64 {
  import opened Bytes
  import opened Wrappers

  type Sextet = n: int | 0 <= n < 64

  /** Table 1 of RFC 4648. */
  function Digit(n: Sextet): char {
    if n < 26 then 'A' + n as char
    else if n < 52 then 'a' + (n - 26) as char
    else if n < 62 then '0' + (n - 52) as char
    else if n == 62 then '+'
    else '/'
  }

  /** Table 1 from its ends: three runs of consecutive characters, and two more. */
  lemma DigitIsListed(n: Sextet)
    ensures Digit(0) == 'A' && Digit(25) == 'Z' && Digit(26) == 'a' && Digit(51) == 'z'
    ensures Digit(52) == '0' && Digit(61) == '9' && Digit(62) == '+' && Digit(63) == '/'
    ensures n < 61 && n != 25 && n != 51 ==> Digit(n + 1) == Digit(n) + 1 as char
  {}

  predicate IsDigit(c: char) {
    'A' <= c <= 'Z' || 'a' <= c <= 'z' || '0' <= c <= '9' || c == '+' || c == '/'
  }

  function Value(c: char): Sextet
    requires IsDigit(c)
  {
    if 'A' <= c <= 'Z' then (c - 'A') as int
    else if 'a' <= c <= 'z' then (c - 'a') as int + 26
    else if '0' <= c <= '9' then (c - '0') as int + 52
    else if c == '+' then 62
    else 63
  }

  lemma ValueOfDigit(n: Sextet)
    ensures IsDigit(Digit(n)) && Value(Digit(n)) == n
  {}

  predicate AllDigits(s: string) {
    forall i :: 0 <= i < |s| ==> IsDigit(s[i])
  }

  function Codes(s: string): seq<int> {
    seq(|s|, i requires 0 <= i < |s| => s[i] as int)
  }

  function Binary(b: ByteString): string {
    seq(|b|, i requires 0 <= i < |b| => b[i] as char)
  }

  // Three bytes x, y, z as four sextets a, b, c, d, and back.

  function A(x: Byte): Sextet { x / 4 }
  function B(x: Byte, y: Byte): Sextet { x % 4 * 16 + y / 16 }
  function C(y: Byte, z: Byte): Sextet { y % 16 * 4 + z / 64 }
  function D(z: Byte): Sextet { z % 64 }

  function X(a: Sextet, b: Sextet): Byte { a * 4 + b / 16 }
  function Y(b: Sextet, c: Sextet): Byte { b % 16 * 16 + c / 4 }
  function Z(c: Sextet, d: Sextet): Byte { c % 4 * 64 + d }

  lemma RegroupFirst(x: Byte, y: Byte)
    ensures X(A(x), B(x, y)) == x
  {}

  lemma Regroup(x: Byte, y: Byte, z: Byte)
    ensures X(A(x), B(x, y)) == x && Y(B(x, y), C(y, z)) == y && Z(C(y, z), D(z)) == z
  {}

  /** The four sextets are the base-64 numeral of the group's 24 bits. */
  lemma SextetsAreNumeral(x: Byte, y: Byte, z: Byte)
    ensures ((A(x) * 64 + B(x, y)) * 64 + C(y, z)) * 64 + D(z) == (x * 256 + y) * 256 + z
  {}

  /** Three bytes make four sextets, a rest of one or two makes two or three, its
      missing bits zero. */
  function Sextets(b: ByteString): seq<Sextet>
    decreases |b|
  {
    if |b| == 0 then []
    else if |b| == 1 then [A(b[0]), B(b[0], 0)]
    else if |b| == 2 then [A(b[0]), B(b[0], b[1]), C(b[1], 0)]
    else [A(b[0]), B(b[0], b[1]), C(b[1], b[2]), D(b[2])] + Sextets(b[3..])
  }

  /** Bits left over after the last whole byte are dropped. */
  function Unsextets(q: seq<Sextet>): ByteString
    decreases |q|
  {
    if |q| < 2 then []
    else if |q| == 2 then [X(q[0], q[1])]
    else if |q| == 3 then [X(q[0], q[1]), Y(q[1], q[2])]
    else [X(q[0], q[1]), Y(q[1], q[2]), Z(q[2], q[3])] + Unsextets(q[4..])
  }

  function Digits(q: seq<Sextet>): string {
    seq(|q|, i requires 0 <= i < |q| => Digit(q[i]))
  }

  function Values(s: string): seq<Sextet>
    requires AllDigits(s)
  {
    seq(|s|, i requires 0 <= i < |s| => Value(s[i]))
  }

  function Padding(n: nat): string {
    if n % 3 == 1 then "==" else if n % 3 == 2 then "=" else ""
  }

  /** btoa; None stands for the exception on a character above 255. */
  function Btoa(binary: string): Option<string> {
    if exists i :: 0 <= i < |binary| && binary[i] as int > 255 then None
    else
      var b: ByteString := Codes(binary);
      Some(Digits(Sextets(b)) + Padding(|b|))
  }

  predicate AsciiSpace(c: char) {
    c == '\t' || c == '\n' || c == '\U{000C}' || c == '\r' || c == ' '
  }

  function DropSpaces(s: string): string {
    if s == "" then "" else (if AsciiSpace(s[0]) then "" else [s[0]]) + DropSpaces(s[1..])
  }

  /** One or two trailing `=`, when the length is a multiple of four. */
  function Unpad(s: string): string {
    if |s| % 4 != 0 || |s| == 0 || s[|s| - 1] != '=' then s
    else if s[|s| - 2] == '=' then s[..|s| - 2]
    else s[..|s| - 1]
  }

  /** atob; None stands for the exception. */
  function Atob(s: string): Option<string> {
    AtobStripped(Unpad(DropSpaces(s)))
  }

  function AtobStripped(s: string): Option<string> {
    if |s| % 4 == 1 || !AllDigits(s) then None else Some(Binary(Unsextets(Values(s))))
  }

  lemma CodesOfBinary(b: ByteString)
    ensures Codes(Binary(b)) == b
  {}

  lemma DigitsRoundTrip(q: seq<Sextet>)
    ensures AllDigits(Digits(q)) && Values(Digits(q)) == q
  {
    forall i | 0 <= i < |q| ensures IsDigit(Digit(q[i])) && Value(Digit(q[i])) == q[i] { ValueOfDigit(q[i]); }
  }

  lemma {:induction false} SextetsRoundTrip(b: ByteString)
    ensures Unsextets(Sextets(b)) == b
    decreases |b|
  {
    if |b| < 3 {
      TailRoundTrip(b);
    } else {
      Regroup(b[0], b[1], b[2]);
      SextetsRoundTrip(b[3..]);
      assert Sextets(b)[4..] == Sextets(b[3..]);
      assert b == [b[0], b[1], b[2]] + b[3..];
    }
  }

  lemma TailRoundTrip(b: ByteString)
    requires |b| < 3
    ensures Unsextets(Sextets(b)) == b
  {
    if |b| == 1 { OneByte(b[0]); assert b == [b[0]]; }
    if |b| == 2 { TwoBytes(b[0], b[1]); assert b == [b[0], b[1]]; }
  }

  lemma OneByte(x: Byte)
    ensures Unsextets(Sextets([x])) == [x]
  {
    RegroupFirst(x, 0);
    assert Sextets([x]) == [A(x), B(x, 0)];
  }

  lemma TwoBytes(x: Byte, y: Byte)
    ensures Unsextets(Sextets([x, y])) == [x, y]
  {
    Regroup(x, y, 0);
    assert Sextets([x, y]) == [A(x), B(x, y), C(y, 0)];
  }

  lemma {:induction false} SextetCount(b: ByteString)
    ensures |Sextets(b)| == 4 * (|b| / 3) + if |b| % 3 == 0 then 0 else |b| % 3 + 1
    decreases |b|
  {
    if |b| >= 3 { SextetCount(b[3..]); }
  }

  lemma Padded(n: nat, count: nat)
    requires count == 4 * (n / 3) + if n % 3 == 0 then 0 else n % 3 + 1
    ensures (count + |Padding(n)|) % 4 == 0 && count % 4 != 1
  {
    Modulo(n / 3, 0);
    Modulo(n / 3 + 1, 0);
    if n % 3 != 0 { Modulo(n / 3, n % 3 + 1); }
  }

  lemma Modulo(k: nat, r: nat)
    requires r < 4
    ensures (4 * k + r) % 4 == r
  {}

  lemma NoSpaces(q: seq<Sextet>, n: nat)
    ensures DropSpaces(Digits(q) + Padding(n)) == Digits(q) + Padding(n)
  {
    DigitsRoundTrip(q);
    forall i | 0 <= i < |Digits(q) + Padding(n)| ensures !AsciiSpace((Digits(q) + Padding(n))[i]) {
      if i < |q| { assert IsDigit(Digits(q)[i]); }
    }
    NothingToDrop(Digits(q) + Padding(n));
  }

  lemma {:induction false} NothingToDrop(s: string)
    requires forall i :: 0 <= i < |s| ==> !AsciiSpace(s[i])
    ensures DropSpaces(s) == s
  {
    if s != "" { NothingToDrop(s[1..]); }
  }

  lemma UnpadDigits(digits: string, padding: string)
    requires AllDigits(digits) && (|digits| + |padding|) % 4 == 0 &&
      (padding == "" || padding == "=" || padding == "==")
    ensures Unpad(digits + padding) == digits
  {
    var s := digits + padding;
    if padding == "" {
      assert s == digits;
    } else if padding == "=" {
      assert IsDigit(s[|s| - 2]);
    }
  }

  lemma BtoaOfBytes(b: ByteString)
    ensures Btoa(Binary(b)) == Some(Digits(Sextets(b)) + Padding(|b|))
  {
    CodesOfBinary(b);
  }

  lemma StrippedBtoa(b: ByteString)
    ensures Unpad(DropSpaces(Digits(Sextets(b)) + Padding(|b|))) == Digits(Sextets(b))
  {
    SextetCount(b);
    Stripped(Sextets(b), |b|);
  }

  lemma Stripped(q: seq<Sextet>, n: nat)
    requires |q| == 4 * (n / 3) + if n % 3 == 0 then 0 else n % 3 + 1
    ensures Unpad(DropSpaces(Digits(q) + Padding(n))) == Digits(q)
  {
    Padded(n, |q|);
    DigitsRoundTrip(q);
    NoSpaces(q, n);
    UnpadDigits(Digits(q), Padding(n));
  }

  /** Main result: atob undoes btoa on every byte string, with each case of padding. */
  lemma AtobUndoesBtoa(b: ByteString)
    ensures Btoa(Binary(b)).Some? && Atob(Btoa(Binary(b)).value) == Some(Binary(b))
  {
    BtoaOfBytes(b);
    StrippedBtoa(b);
    SextetCount(b);
    Padded(|b|, |Sextets(b)|);
    DigitsRoundTrip(Sextets(b));
    SextetsRoundTrip(b);
  }

  lemma {:induction false} DropSpacesAppend(s: string, t: string)
    ensures DropSpaces(s + t) == DropSpaces(s) + DropSpaces(t)
  {
    if s == "" {
      assert s + t == t;
    } else {
      DropSpacesAppend(s[1..], t);
      FirstOfAppend(s, t);
      Associative(if AsciiSpace(s[0]) then "" else [s[0]], DropSpaces(s[1..]), DropSpaces(t));
    }
  }

  lemma FirstOfAppend(s: string, t: string)
    requires s != ""
    ensures (s + t)[0] == s[0] && (s + t)[1..] == s[1..] + t
  {}

  lemma Associative(a: string, b: string, c: string)
    ensures a + b + c == a + (b + c)
  {}

  lemma SpaceDropped(s: string, space: char, t: string)
    requires AsciiSpace(space)
    ensures DropSpaces(s + [space] + t) == DropSpaces(s + t)
  {
    assert DropSpaces([space]) == "";
    DropSpacesAppend(s + [space], t);
    DropSpacesAppend(s, [space]);
    DropSpacesAppend(s, t);
  }

  /** A line break put anywhere into the text changes nothing. */
  lemma SpacesIgnored(s: string, space: char, t: string)
    requires AsciiSpace(space)
    ensures Atob(s + [space] + t) == Atob(s + t)
  {
    SpaceDropped(s, space, t);
  }

  /** The text has four characters for every three bytes, begun ones too, and as many `=`
      at its end as the last three lack. */
  lemma BtoaIsPadded(b: ByteString)
    ensures Btoa(Binary(b)).Some?
    ensures var s := Btoa(Binary(b)).value; var missing := (3 - |b| % 3) % 3;
      && |s| == 4 * ((|b| + 2) / 3)
      && forall i :: 0 <= i < |s| ==> (s[i] == '=' <==> i >= |s| - missing)
  {
    BtoaOfBytes(b);
    SextetCount(b);
    var digits := Digits(Sextets(b));
    DigitsRoundTrip(Sextets(b));
    var s := digits + Padding(|b|);
    forall i | 0 <= i < |s| ensures s[i] == '=' <==> i >= |digits| {
      if i < |digits| { assert IsDigit(digits[i]); }
    }
  }

  lemma {:induction false} ByteCount(q: seq<Sextet>)
    requires |q| % 4 != 1
    ensures |Unsextets(q)| == |q| * 3 / 4
    decreases |q|
  {
    if |q| >= 4 { ByteCount(q[4..]); }
  }

  /** Digits without padding decode, three bytes for every four, unless one is left alone. */
  lemma AtobAccepts(q: seq<Sextet>)
    ensures Atob(Digits(q)).Some? <==> |q| % 4 != 1
    ensures |q| % 4 != 1 ==> |Atob(Digits(q)).value| == |q| * 3 / 4
  {
    DigitsRoundTrip(q);
    NoSpaces(q, 0);
    assert Digits(q) + Padding(0) == Digits(q);
    if q != [] { assert IsDigit(Digits(q)[|q| - 1]); }
    assert Unpad(Digits(q)) == Digits(q);
    if |q| % 4 != 1 { ByteCount(q); }
  }

  /** A character that is no digit, space or `=` is refused, wherever it stands. */
  lemma StrayRefused(s: string, c: char, t: string)
    requires !IsDigit(c) && !AsciiSpace(c) && c != '='
    ensures Atob(s + [c] + t) == None
  {
    DropSpacesAppend(s + [c], t);
    DropSpacesAppend(s, [c]);
    assert DropSpaces([c]) == [c];
    StaysIn(DropSpaces(s), c, DropSpaces(t));
  }

  lemma StaysIn(s: string, c: char, t: string)
    requires !IsDigit(c) && c != '='
    ensures !AllDigits(Unpad(s + [c] + t))
  {
    assert (s + [c] + t)[|s|] == c;
  }
}
