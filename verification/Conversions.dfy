/** Integer printing (%o, %u, %x, %X with the # flag) and strtoul of the small C library, and the
    proof that the second undoes the first. */
module Conversions {
  import opened Arithmetic

  const ULONG_MAX: nat := 0xFFFF_FFFF
  const BUF: nat := 40

  // ---------------------------------------------------------------- numbers and their digits

  ghost predicate IsBase(b: nat)
  {
    b == 8 || b == 10 || b == 16
  }

  /** to_char(d), or xdigs[d] */
  function DigitChar(d: nat, upper: bool): char
    requires d < 36
  {
    if d < 10 then (d + '0' as int) as char
    else if upper then (d - 10 + 'A' as int) as char
    else (d - 10 + 'a' as int) as char
  }

  lemma Divided(n: nat, b: nat)
    requires IsBase(b)
    ensures n % b < b && b * (n / b) + n % b == n
    ensures n / b <= n / 8 && (n >= b ==> 0 < n / b < n)
  {
    if b == 8 {
      assert n == 8 * (n / 8) + n % 8;
    } else if b == 10 {
      assert n == 10 * (n / 10) + n % 10;
    } else {
      assert n == 16 * (n / 16) + n % 16;
    }
  }

  /** The digits of n, most significant first; a single 0 for zero. */
  ghost function Text(n: nat, b: nat, upper: bool): (t: string)
    requires 2 <= b <= 36
    ensures t != []
  {
    if n < b then [DigitChar(n, upper)] else
      Shorter(n, b);
      Text(n / b, b, upper) + [DigitChar(n % b, upper)]
  }

  /** There is no leading zero, except for zero itself. */
  lemma {:induction false} LeadingDigit(n: nat, b: nat, upper: bool)
    requires IsBase(b)
    ensures Text(n, b, upper)[0] == '0' <==> n == 0
    ensures exists d: nat :: d < 16 && Text(n, b, upper)[0] == DigitChar(d, upper)
  {
    Divided(n, b);
    if n >= b {
      LeadingDigit(n / b, b, upper);
      assert Text(n, b, upper)[0] == Text(n / b, b, upper)[0];
    } else {
      DigitCharValue(n, upper);
    }
  }

  function Pow8(k: nat): nat
  {
    if k == 0 then 1 else 8 * Pow8(k - 1)
  }

  lemma SixtyFourBits(n: nat)
    requires n < 0x1_0000_0000_0000_0000
    ensures n < Pow8(22)
  {
    assert Pow8(2) == 64;
    assert Pow8(4) == 0x1000;
    assert Pow8(6) == 0x4_0000;
    assert Pow8(8) == 0x100_0000;
    assert Pow8(10) == 0x4000_0000;
    assert Pow8(12) == 0x10_0000_0000;
    assert Pow8(14) == 0x400_0000_0000;
    assert Pow8(16) == 0x1_0000_0000_0000;
    assert Pow8(18) == 0x40_0000_0000_0000;
    assert Pow8(20) == 0x1000_0000_0000_0000;
  }

  /** Removing a digit removes at least three bits. */
  lemma DigitRemoved(n: nat, b: nat, room: nat)
    requires IsBase(b) && n >= b && n < Pow8(room)
    ensures room > 0 && n / b < Pow8(room - 1) && 0 < n / b < n
  {
    Divided(n, b);
  }

  // ---------------------------------------------------------------- printing

  datatype Conv = Octal | Decimal | HexLower | HexUpper

  function Base(c: Conv): nat
  {
    match c case Octal => 8 case Decimal => 10 case HexLower => 16 case HexUpper => 16
  }

  /** What a conversion with the # flag prints. */
  ghost function Printed(c: Conv, n: nat): string
  {
    var t := Text(n, Base(c), c.HexUpper?);
    if n == 0 then t
    else match c
         case Octal => "0" + t
         case Decimal => t
         case HexLower => "0x" + t
         case HexUpper => "0X" + t
  }

  /** *--cp = digit */
  method PutDigit(buf: array<char>, cp: nat, d: nat, upper: bool) returns (cp': nat)
    requires 0 < cp <= buf.Length && d < 16
    modifies buf
    ensures cp' == cp - 1 && buf[cp'..] == [DigitChar(d, upper)] + old(buf[cp..])
  {
    cp' := cp - 1;
    buf[cp'] := DigitChar(d, upper);
  }

  /** The body of the three digit loops: *--cp = digit, until the number is used up. 22 characters
      are enough for 64 bits. */
  method WriteDigits(buf: array<char>, n: nat, b: nat, upper: bool) returns (cp: nat)
    requires buf.Length == BUF && IsBase(b) && n < 0x1_0000_0000_0000_0000
    modifies buf
    ensures 17 <= cp <= BUF && buf[cp..] == Text(n, b, upper)
  {
    var uquad: nat := n;
    cp := BUF;
    SixtyFourBits(n);
    ghost var room: nat := 22;
    while uquad >= b
      invariant cp == 18 + room && room <= 22 && uquad < Pow8(room)
      invariant Text(n, b, upper) == Text(uquad, b, upper) + buf[cp..]
      decreases uquad
    {
      DigitRemoved(uquad, b, room);
      TextStep(uquad, b, upper, buf[cp..]);
      cp := PutDigit(buf, cp, uquad % b, upper);
      uquad := uquad / b;
      room := room - 1;
    }
    cp := PutDigit(buf, cp, uquad, upper);
  }

  lemma TextStep(n: nat, b: nat, upper: bool, rest: string)
    requires IsBase(b) && n >= b
    ensures n % b < b && Text(n, b, upper) + rest == Text(n / b, b, upper) + ([DigitChar(n % b, upper)] + rest)
  {
    Divided(n, b);
  }

  /** The integer conversions of _vfprintf_r with the # flag, no width and no precision. The digits
      are written downwards from the end of a 40-byte buffer and never leave it, for any 64-bit
      argument. */
  method Print(c: Conv, n: nat) returns (s: string)
    requires n < 0x1_0000_0000_0000_0000
    ensures s == Printed(c, n)
  {
    var buf := new char[BUF](_ => ' ');
    var cp: nat;
    var prefix := "";
    match c {
      case Octal =>
        cp := WriteDigits(buf, n, 8, false);
        LeadingDigit(n, 8, false);
        if buf[cp] != '0' {
          ghost var t := buf[cp..];
          cp := cp - 1;
          buf[cp] := '0';
          assert buf[cp..] == "0" + t;
        }
      case Decimal =>
        cp := WriteDigits(buf, n, 10, false);
      case HexLower =>
        if n != 0 { prefix := "0x"; }
        cp := WriteDigits(buf, n, 16, false);
      case HexUpper =>
        if n != 0 { prefix := "0X"; }
        cp := WriteDigits(buf, n, 16, true);
    }
    s := prefix + buf[cp..];
  }

  // ---------------------------------------------------------------- parsing

  /** The character at a position of a NUL-terminated string. */
  function CharAt(s: string, i: nat): char
  {
    if i < |s| then s[i] else '\0'
  }

  predicate IsSpace(c: char) { '\t' <= c <= '\r' || c == ' ' }
  predicate IsDigit(c: char) { '0' <= c <= '9' }
  predicate IsUpper(c: char) { 'A' <= c <= 'Z' }
  predicate IsAlpha(c: char) { IsUpper(c) || 'a' <= c <= 'z' }

  /** The value of a digit or letter, and 36 (no digit of any base) for anything else. */
  function DigitValue(c: char): nat
  {
    if IsDigit(c) then c as int - '0' as int
    else if IsAlpha(c) then c as int - (if IsUpper(c) then 'A' as int else 'a' as int) + 10
    else 36
  }

  datatype Any = Nothing | Digits | Overflow

  datatype Scanned = Scanned(acc: nat, any: Any, pos: nat)

  /** The digit loop from position i on. */
  ghost function Scan(s: string, i: nat, b: nat, acc: nat, any: Any): Scanned
    requires 2 <= b <= 36
    decreases |s| - i
  {
    var c := DigitValue(CharAt(s, i));
    if i >= |s| || c >= b then Scanned(acc, any, i)
    else if (any.Overflow? || acc > ULONG_MAX / b || acc == ULONG_MAX / b) && c > ULONG_MAX % b
    then Scan(s, i + 1, b, acc, Overflow)
    else Scan(s, i + 1, b, (acc * b + c) % (ULONG_MAX + 1), Digits)
  }

  datatype Parsed = Parsed(value: nat, end: nat)

  ghost function SkipSpaces(s: string, i: nat): nat
    decreases |s| - i
  {
    if i < |s| && IsSpace(s[i]) then SkipSpaces(s, i + 1) else i
  }

  ghost predicate HexPrefixAt(s: string, i: nat, base: nat)
  {
    (base == 0 || base == 16) && CharAt(s, i) == '0' && (CharAt(s, i + 1) == 'x' || CharAt(s, i + 1) == 'X')
  }

  ghost function Finish(r: Scanned, neg: bool): Parsed
  {
    Parsed(if r.any.Overflow? then ULONG_MAX
           else if neg then (ULONG_MAX + 1 - r.acc) % (ULONG_MAX + 1)
           else r.acc,
           if r.any.Nothing? then 0 else r.pos)
  }

  /** What comes before the digits: the sign, the base, and where the digits start. */
  datatype Head = Head(neg: bool, base: nat, pos: nat)

  ghost function HeadOf(s: string, base: nat): (h: Head)
    requires base == 0 || 2 <= base <= 36
    ensures 2 <= h.base <= 36
  {
    var i := SkipSpaces(s, 0);
    var neg := CharAt(s, i) == '-';
    var j := if neg || CharAt(s, i) == '+' then i + 1 else i;
    if HexPrefixAt(s, j, base) then Head(neg, 16, j + 2)
    else Head(neg, if base == 0 then (if CharAt(s, j) == '0' then 8 else 10) else base, j)
  }

  /** What strtoul returns, and the offset it stores through endptr. */
  ghost function Strtoul(s: string, base: nat): Parsed
    requires base == 0 || 2 <= base <= 36
  {
    var h := HeadOf(s, base);
    Finish(Scan(s, h.pos, h.base, 0, Nothing), h.neg)
  }

  /** The loop of strtoul over white space. */
  method AfterSpaces(s: string) returns (pos: nat)
    ensures pos == SkipSpaces(s, 0) && pos <= |s|
  {
    pos := 0;
    while IsSpace(CharAt(s, pos))
      invariant pos <= |s| && SkipSpaces(s, 0) == SkipSpaces(s, pos)
      decreases |s| - pos
    {
      pos := pos + 1;
    }
  }

  /** The end of strtoul: saturation, the sign, and endptr. */
  method Conclude(acc: nat, any: Any, pos: nat, neg: bool) returns (value: nat, end: nat)
    requires acc <= ULONG_MAX
    ensures Parsed(value, end) == Finish(Scanned(acc, any, pos), neg)
  {
    value := acc;
    if any == Overflow {
      value := ULONG_MAX;
    } else if neg {
      value := (ULONG_MAX + 1 - acc) % (ULONG_MAX + 1);
    }
    end := if any == Nothing then 0 else pos;
  }

  /** strtoul. The pointer s of the source is pos + 1: the character c has already been read. */
  method ParseUnsigned(s: string, base: nat) returns (value: nat, end: nat)
    requires base == 0 || 2 <= base <= 36
    requires '\0' !in s
    ensures Parsed(value, end) == Strtoul(s, base)
  {
    var pos := AfterSpaces(s);
    var c := CharAt(s, pos);
    var neg := c == '-';
    if neg || c == '+' {
      pos := pos + 1;
      c := CharAt(s, pos);
    }
    var b := base;
    if (b == 0 || b == 16) && c == '0' && (CharAt(s, pos + 1) == 'x' || CharAt(s, pos + 1) == 'X') {
      pos := pos + 2;
      c := CharAt(s, pos);
      b := 16;
    }
    if b == 0 {
      b := if c == '0' then 8 else 10;
    }
    var acc, any, last := ScanDigits(s, pos, b);
    value, end := Conclude(acc, any, last, neg);
  }

  /** The digit loop of strtoul. */
  method ScanDigits(s: string, start: nat, b: nat) returns (acc: nat, any: Any, pos: nat)
    requires 2 <= b <= 36 && '\0' !in s && start <= |s|
    ensures Scanned(acc, any, pos) == Scan(s, start, b, 0, Nothing) && acc <= ULONG_MAX
  {
    var cutoff := ULONG_MAX / b;
    var cutlim := ULONG_MAX % b;
    acc, any, pos := 0, Nothing, start;
    var d := DigitValue(CharAt(s, pos));
    while d < b
      invariant pos <= |s| && d == DigitValue(CharAt(s, pos)) && acc <= ULONG_MAX
      invariant Scan(s, start, b, 0, Nothing) == Scan(s, pos, b, acc, any)
      decreases |s| - pos
    {
      if (any == Overflow || acc > cutoff || acc == cutoff) && d > cutlim {
        any := Overflow;
      } else {
        any := Digits;
        acc := (acc * b + d) % (ULONG_MAX + 1);
      }
      pos := pos + 1;
      d := DigitValue(CharAt(s, pos));
    }
  }

  // ---------------------------------------------------------------- the round trip

  lemma DigitCharValue(d: nat, upper: bool)
    requires d < 36
    ensures DigitValue(DigitChar(d, upper)) == d
    ensures !IsSpace(DigitChar(d, upper)) && DigitChar(d, upper) != '-' && DigitChar(d, upper) != '+'
    ensures DigitChar(d, upper) == '0' <==> d == 0
    ensures d != 33 ==> DigitChar(d, upper) != 'x' && DigitChar(d, upper) != 'X'
  {
  }

  /** One more digit of a number that fits: the overflow test is not tripped. */
  lemma ScanDigit(s: string, k: nat, b: nat, q: nat, r: nat, any: Any)
    requires IsBase(b) && r < b && b * q + r <= ULONG_MAX && !any.Overflow?
    requires k < |s| && DigitValue(s[k]) == r
    ensures Scan(s, k, b, q, any) == Scan(s, k + 1, b, b * q + r, Digits)
  {
    FitsUnderCutoff(b, q, r);
  }

  lemma FitsUnderCutoff(b: nat, q: nat, r: nat)
    requires IsBase(b) && r < b && b * q + r <= ULONG_MAX
    ensures q <= ULONG_MAX / b && (q == ULONG_MAX / b ==> r <= ULONG_MAX % b)
    ensures (q * b + r) % (ULONG_MAX + 1) == b * q + r
  {
    if b == 8 {
      assert b * q + r == 8 * q + r;
    } else if b == 10 {
      assert b * q + r == 10 * q + r;
    } else {
      assert b * q + r == 16 * q + r;
    }
  }

  /** A number that fits is accumulated digit by digit. */
  lemma {:induction false} ScanText(s: string, i: nat, n: nat, b: nat, upper: bool, any: Any, t: string)
    requires IsBase(b) && n <= ULONG_MAX && !any.Overflow? && t == Text(n, b, upper)
    requires i + |t| <= |s| && s[i..i + |t|] == t
    ensures Scan(s, i, b, 0, any) == Scan(s, i + |t|, b, n, Digits)
    decreases n
  {
    Divided(n, b);
    if n < b {
      assert s[i..i + 1][0] == s[i];
      FirstDigit(s, i, b, n, upper, any);
    } else {
      var t' := Text(n / b, b, upper);
      TextEnds(n, b, upper);
      LastInPlace(s, i, t', DigitChar(n % b, upper));
      ScanText(s, i, n / b, b, upper, any, t');
      LastDigit(s, i + |t'|, b, n / b, n % b, upper);
    }
  }

  lemma FirstDigit(s: string, k: nat, b: nat, r: nat, upper: bool, any: Any)
    requires IsBase(b) && r < b && k < |s| && s[k] == DigitChar(r, upper) && !any.Overflow?
    ensures Scan(s, k, b, 0, any) == Scan(s, k + 1, b, r, Digits)
  {
    DigitCharValue(r, upper);
    ScanDigit(s, k, b, 0, r, any);
  }

  lemma LastDigit(s: string, k: nat, b: nat, q: nat, r: nat, upper: bool)
    requires IsBase(b) && r < b && b * q + r <= ULONG_MAX && k < |s| && s[k] == DigitChar(r, upper)
    ensures Scan(s, k, b, q, Digits) == Scan(s, k + 1, b, b * q + r, Digits)
  {
    DigitCharValue(r, upper);
    ScanDigit(s, k, b, q, r, Digits);
  }

  /** Where a text stands, its prefix stands too, and then its last character. */
  lemma LastInPlace(s: string, i: nat, t: string, d: char)
    requires i + |t| + 1 <= |s| && s[i..i + (|t| + 1)] == t + [d]
    ensures s[i..i + |t|] == t && s[i + |t|] == d
  {
    var u := s[i..i + (|t| + 1)];
    assert s[i..i + |t|] == u[..|t|];
    assert u[|t|] == s[i + |t|];
  }

  lemma TextEnds(n: nat, b: nat, upper: bool)
    requires IsBase(b) && n >= b
    ensures n % b < b && Text(n, b, upper) == Text(n / b, b, upper) + [DigitChar(n % b, upper)]
  {
    Divided(n, b);
  }

  /** On a text that starts with a digit, strtoul goes straight to the digits. */
  lemma StartsWithDigit(s: string, base: nat, d: nat, upper: bool)
    requires (base == 0 || base == 10) && s != [] && d < 16 && s[0] == DigitChar(d, upper)
    ensures Strtoul(s, base) ==
            var hex := HexPrefixAt(s, 0, base);
            var b := if hex then 16 else if base == 0 && d == 0 then 8 else 10;
            Finish(Scan(s, if hex then 2 else 0, b, 0, Nothing), false)
  {
    DigitCharValue(d, upper);
    assert SkipSpaces(s, 0) == 0;
  }

  lemma RoundTripZero()
    ensures Strtoul("0", 0) == Parsed(0, 1)
  {
    StartsWithDigit("0", 0, 0, false);
    ScanDigit("0", 0, 8, 0, 0, Nothing);
  }

  lemma RoundTripDecimal(n: nat)
    requires 0 < n <= ULONG_MAX
    ensures var t := Text(n, 10, false); Strtoul(t, 0) == Parsed(n, |t|)
  {
    var t := Text(n, 10, false);
    LeadingDigit(n, 10, false);
    var d: nat :| d < 16 && t[0] == DigitChar(d, false);
    DigitCharValue(d, false);
    StartsWithDigit(t, 0, d, false);
    assert t[0..|t|] == t;
    ScanText(t, 0, n, 10, false, Nothing, t);
  }

  lemma RoundTripOctal(n: nat)
    requires 0 < n <= ULONG_MAX
    ensures var s := "0" + Text(n, 8, false); Strtoul(s, 0) == Parsed(n, |s|)
  {
    var t := Text(n, 8, false);
    var s := "0" + t;
    LeadingDigit(n, 8, false);
    var d: nat :| d < 16 && t[0] == DigitChar(d, false);
    DigitCharValue(d, false);
    assert s[1] == t[0] && s[1..1 + |t|] == t;
    StartsWithDigit(s, 0, 0, false);
    ScanDigit(s, 0, 8, 0, 0, Nothing);
    ScanText(s, 1, n, 8, false, Digits, t);
  }

  lemma RoundTripHex(n: nat, upper: bool)
    requires 0 < n <= ULONG_MAX
    ensures var s := (if upper then "0X" else "0x") + Text(n, 16, upper); Strtoul(s, 0) == Parsed(n, |s|)
  {
    var t := Text(n, 16, upper);
    var s := (if upper then "0X" else "0x") + t;
    assert s[0] == '0' && (s[1] == 'x' || s[1] == 'X') && s[2..2 + |t|] == t;
    StartsWithDigit(s, 0, 0, upper);
    ScanText(s, 2, n, 16, upper, Nothing, t);
  }

  /** strtoul with base 0 undoes %u, %#o, %#x and %#X for every 32-bit number, and consumes all
      that was printed. */
  lemma RoundTrip(c: Conv, n: nat)
    requires n <= ULONG_MAX
    ensures Strtoul(Printed(c, n), 0) == Parsed(n, |Printed(c, n)|)
  {
    if n == 0 {
      RoundTripZero();
    } else {
      match c
      case Octal => RoundTripOctal(n);
      case Decimal => RoundTripDecimal(n);
      case HexLower => RoundTripHex(n, false);
      case HexUpper => RoundTripHex(n, true);
    }
  }
}
