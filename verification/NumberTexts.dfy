/** What printing and strtoul mean on the characters themselves: the digits that are printed are
    spelled out, and a string is taken apart into white space, a sign, a prefix and digits without
    the functions that the code is compared with. */
module NumberTexts {
  import opened Arithmetic
  import opened Conversions
  import opened Saturation

  // ---------------------------------------------------------------- what is printed

  /** The string writes n with these digits, most significant first and with no leading zero. */
  ghost predicate Denotes(t: string, digits: string, n: nat)
    decreases |t|
  {
    && |digits| >= 2 && |t| >= 1 && t[|t| - 1] == digits[n % |digits|]
    && if |t| == 1 then n < |digits| else n >= |digits| && Denotes(t[..|t| - 1], digits, n / |digits|)
  }

  lemma {:induction false} TextDenotes(n: nat, b: nat, upper: bool, digits: string)
    requires 2 <= b <= 36 && |digits| == b && forall d :: 0 <= d < b ==> digits[d] == DigitChar(d, upper)
    ensures Denotes(Text(n, b, upper), digits, n)
    decreases n
  {
    if n < b {
      RemainderIs(n, b, 0, n);
    } else {
      Shorter(n, b);
      TextDenotes(n / b, b, upper, digits);
      var t := Text(n / b, b, upper);
      assert (t + [DigitChar(n % b, upper)])[..|t|] == t;
    }
  }

  lemma LowerDigits(d: nat)
    requires d < 16
    ensures "0123456789abcdef"[d] == DigitChar(d, false)
  {
  }

  lemma UpperDigits(d: nat)
    requires d < 16
    ensures "0123456789ABCDEF"[d] == DigitChar(d, true)
  {
  }

  /** The digits of %x are lower-case and those of %X upper-case, %#o adds a 0 and %#x and %#X add 0x
      and 0X, except to zero, and each conversion writes the number in its base. */
  lemma PrintedDenotes(c: Conv, n: nat)
    ensures var t := Printed(c, n);
            match c
            case Decimal => Denotes(t, "0123456789", n)
            case Octal => if n == 0 then t == "0" else t[..1] == "0" && Denotes(t[1..], "01234567", n)
            case HexLower => if n == 0 then t == "0" else t[..2] == "0x" && Denotes(t[2..], "0123456789abcdef", n)
            case HexUpper => if n == 0 then t == "0" else t[..2] == "0X" && Denotes(t[2..], "0123456789ABCDEF", n)
  {
    var t := Text(n, Base(c), c.HexUpper?);
    match c
    case Decimal =>
      TextDenotes(n, 10, false, "0123456789");
    case Octal =>
      TextDenotes(n, 8, false, "01234567");
      assert ("0" + t)[1..] == t;
    case HexLower =>
      forall d | 0 <= d < 16 ensures "0123456789abcdef"[d] == DigitChar(d, false) { LowerDigits(d); }
      TextDenotes(n, 16, false, "0123456789abcdef");
      assert ("0x" + t)[2..] == t;
    case HexUpper =>
      forall d | 0 <= d < 16 ensures "0123456789ABCDEF"[d] == DigitChar(d, true) { UpperDigits(d); }
      TextDenotes(n, 16, true, "0123456789ABCDEF");
      assert ("0X" + t)[2..] == t;
  }

  // ---------------------------------------------------------------- what comes before the digits

  /** Tab, line feed, vertical tab, form feed, carriage return and space. */
  ghost predicate IsBlank(ws: string)
  {
    forall k :: 0 <= k < |ws| ==> ws[k] == ' ' || 9 <= ws[k] as int <= 13
  }

  ghost predicate IsSign(sg: string)
  {
    sg == "" || sg == "+" || sg == "-"
  }

  /** What is left after white space and a sign; without a sign it starts with neither. */
  ghost predicate Follows(t: string, sg: string)
  {
    sg == "" && t != "" ==> t[0] != '+' && t[0] != '-' && t[0] != ' ' && !(9 <= t[0] as int <= 13)
  }

  ghost predicate HasPrefix(t: string, base: nat)
  {
    (base == 0 || base == 16) && |t| >= 2 && t[0] == '0' && (t[1] == 'x' || t[1] == 'X')
  }

  /** The base that is used: base 0 stands for 16 after 0x, for 8 after another 0, and for 10. */
  function PickedBase(t: string, base: nat): nat
  {
    if base != 0 then base
    else if |t| >= 2 && t[0] == '0' && (t[1] == 'x' || t[1] == 'X') then 16
    else if |t| >= 1 && t[0] == '0' then 8
    else 10
  }

  /** Every string is white space, a sign and a rest. */
  lemma {:induction false} TakenApart(s: string) returns (ws: string, sg: string, t: string)
    ensures s == ws + sg + t && IsBlank(ws) && IsSign(sg) && Follows(t, sg)
    decreases |s|
  {
    if s != "" && (s[0] == ' ' || 9 <= s[0] as int <= 13) {
      ws, sg, t := TakenApart(s[1..]);
      ws := [s[0]] + ws;
      assert s == [s[0]] + s[1..];
    } else if s != "" && (s[0] == '+' || s[0] == '-') {
      ws, sg, t := "", [s[0]], s[1..];
    } else {
      ws, sg, t := "", "", s;
    }
  }

  lemma {:induction false} BlankSkipped(ws: string, r: string, i: nat)
    requires IsBlank(ws) && i <= |ws| && (r != "" ==> r[0] != ' ' && !(9 <= r[0] as int <= 13))
    ensures SkipSpaces(ws + r, i) == |ws|
    decreases |ws| - i
  {
    var s := ws + r;
    if i < |ws| {
      assert s[i] == ws[i];
      BlankSkipped(ws, r, i + 1);
    } else if r != "" {
      assert s[i] == r[0];
    }
  }

  lemma CharsBehind(w: string, t: string)
    ensures forall k: nat :: CharAt(w + t, |w| + k) == CharAt(t, k)
  {
  }

  lemma SignRead(ws: string, sg: string, t: string)
    requires IsBlank(ws) && IsSign(sg) && Follows(t, sg)
    ensures var s := ws + sg + t;
            && SkipSpaces(s, 0) == |ws|
            && (CharAt(s, |ws|) == '-' <==> sg == "-") && (CharAt(s, |ws|) == '+' <==> sg == "+")
  {
    var r := sg + t;
    assert ws + sg + t == ws + r;
    BlankSkipped(ws, r, 0);
    CharsBehind(ws, r);
    assert CharAt(ws + r, |ws| + 0) == CharAt(r, 0);
  }

  /** The part before the digits is read as it is written: a minus sign and nothing else negates, and
      the digits start after the white space, the sign and the prefix. */
  lemma HeadExact(ws: string, sg: string, t: string, base: nat)
    requires IsBlank(ws) && IsSign(sg) && Follows(t, sg) && (base == 0 || 2 <= base <= 36)
    ensures HeadOf(ws + sg + t, base)
            == Head(sg == "-", PickedBase(t, base), |ws| + |sg| + if HasPrefix(t, base) then 2 else 0)
  {
    SignRead(ws, sg, t);
    CharsBehind(ws + sg, t);
    var s, w := ws + sg + t, ws + sg;
    assert CharAt(s, |w| + 0) == CharAt(t, 0) && CharAt(s, |w| + 1) == CharAt(t, 1);
  }

  // ---------------------------------------------------------------- what strtoul reads

  lemma {:induction false} NumeralAfter(w: string, t: string, i: nat, b: nat, acc: nat)
    requires 2 <= b <= 36 && i <= |t|
    ensures Numeral(w + t, |w| + i, b, acc) == Numeral(t, i, b, acc)
    decreases |t| - i
  {
    if i < |t| {
      assert (w + t)[|w| + i] == t[i];
      if DigitValue(t[i]) < b {
        NumeralAfter(w, t, i + 1, b, acc * b + DigitValue(t[i]));
      }
    }
  }

  /** Nothing that could be one more digit. */
  ghost predicate Ends(rest: string, b: nat)
  {
    rest != "" ==> DigitValue(rest[0]) >= b
  }

  /** The text of a number, behind anything and before something that is no digit. */
  lemma NumeralOfText(w: string, n: nat, b: nat, upper: bool, rest: string)
    requires 2 <= b <= 36 && Ends(rest, b)
    ensures var t := Text(n, b, upper);
            && Numeral(w + t + rest, |w|, b, 0) == n
            && DigitsEnd(w + t + rest, |w|, b) == |w| + |t|
  {
    var t := Text(n, b, upper);
    var s, k := w + t + rest, |w| + |t|;
    TextDigits(n, b, upper);
    TextNumeral(n, b, upper);
    forall j | |w| <= j < k
      ensures DigitValue(s[j]) < b
    {
      assert s[j] == t[j - |w|];
    }
    assert s[..k] == w + t;
    NumeralPrefix(s, |w|, k, b, 0);
    NumeralAfter(w, t, 0, b, 0);
    EndsAlike(s, |w|, k, b);
    assert rest != "" ==> s[k] == rest[0];
  }

  /** The value that is returned for a number with this sign: the negative of n is taken modulo 2^32. */
  function WithSign(sg: string, n: nat): nat
    requires n <= 0xFFFF_FFFF
  {
    if sg == "-" && n != 0 then 0x1_0000_0000 - n else n
  }

  lemma ReadsFrom(w: string, sg: string, n: nat, b: nat, upper: bool, rest: string, base: nat)
    requires (base == 0 || 2 <= base <= 36) && 2 <= b <= 36 && n <= 0xFFFF_FFFF && Ends(rest, b)
    requires HeadOf(w + Text(n, b, upper) + rest, base) == Head(sg == "-", b, |w|)
    ensures var t := Text(n, b, upper);
            Strtoul(w + t + rest, base) == Parsed(WithSign(sg, n), |w + t|)
  {
    NumeralOfText(w, n, b, upper, rest);
    StrtoulInRange(w + Text(n, b, upper) + rest, base);
  }

  lemma ReadsBehind(ws: string, sg: string, pre: string, n: nat, b: nat, upper: bool, rest: string, base: nat)
    requires IsBlank(ws) && IsSign(sg) && (base == 0 || 2 <= base <= 36) && n <= 0xFFFF_FFFF
    requires 2 <= b <= 36 && Ends(rest, b)
    requires var t := pre + Text(n, b, upper) + rest;
             Follows(t, sg) && PickedBase(t, base) == b && |pre| == if HasPrefix(t, base) then 2 else 0
    ensures var t := Text(n, b, upper);
            Strtoul(ws + sg + pre + t + rest, base) == Parsed(WithSign(sg, n), |ws + sg + pre + t|)
  {
    var t := Text(n, b, upper);
    Regrouped(ws + sg, pre, t, rest);
    HeadExact(ws, sg, pre + t + rest, base);
    ReadsFrom(ws + sg + pre, sg, n, b, upper, rest, base);
  }

  lemma Regrouped(a: string, b: string, c: string, d: string)
    ensures a + b + c + d == a + (b + c + d)
  {
  }

  lemma TextStarts(n: nat, b: nat, upper: bool, rest: string)
    requires 2 <= b <= 36
    ensures var t := Text(n, b, upper) + rest;
            && (forall sg: string :: Follows(t, sg)) && (t[0] == '0' <==> n == 0)
            && (b <= 33 && |t| >= 2 && (t[1] == 'x' || t[1] == 'X') && n == 0 ==> rest != "" && t[1] == rest[0])
  {
    var t := Text(n, b, upper);
    TextDigits(n, b, upper);
    assert DigitValue(t[0]) < b;
    Leads(n, b, upper);
  }

  lemma {:induction false} Leads(n: nat, b: nat, upper: bool)
    requires 2 <= b <= 36
    ensures Text(n, b, upper)[0] == '0' <==> n == 0
    decreases n
  {
    if n < b {
      DigitCharValue(n, upper);
    } else {
      Shorter(n, b);
      Leads(n / b, b, upper);
      assert Text(n, b, upper)[0] == Text(n / b, b, upper)[0];
    }
  }

  /** In every base, strtoul reads the text of every number that fits: after any white space and with
      any sign, up to the first character that is no digit. (An x after a lone 0 would make a prefix
      of base 16.) */
  lemma ReadsSigned(ws: string, sg: string, n: nat, b: nat, upper: bool, rest: string)
    requires IsBlank(ws) && IsSign(sg) && 2 <= b <= 36 && n <= 0xFFFF_FFFF && Ends(rest, b)
    requires b == 16 && n == 0 && rest != "" ==> rest[0] != 'x' && rest[0] != 'X'
    ensures var t := Text(n, b, upper);
            Strtoul(ws + sg + t + rest, b) == Parsed(WithSign(sg, n), |ws + sg + t|)
  {
    var t := Text(n, b, upper);
    TextStarts(n, b, upper, rest);
    assert "" + t + rest == t + rest && ws + sg + "" == ws + sg;
    ReadsBehind(ws, sg, "", n, b, upper, rest, b);
  }

  /** After 0x or 0X, bases 16 and 0 read hexadecimal digits. */
  lemma ReadsPrefixed(ws: string, sg: string, pre: string, n: nat, upper: bool, rest: string, base: nat)
    requires IsBlank(ws) && IsSign(sg) && (pre == "0x" || pre == "0X") && n <= 0xFFFF_FFFF && Ends(rest, 16)
    requires base == 0 || base == 16
    ensures var t := Text(n, 16, upper);
            Strtoul(ws + sg + pre + t + rest, base) == Parsed(WithSign(sg, n), |ws + sg + pre + t|)
  {
    ReadsBehind(ws, sg, pre, n, 16, upper, rest, base);
  }

  /** Base 0 is base 16 for a rest that starts with 0x or 0X, base 8 for another one that starts with
      0, and base 10 otherwise. */
  lemma BaseZeroPicks(ws: string, sg: string, t: string)
    requires IsBlank(ws) && IsSign(sg) && Follows(t, sg)
    ensures Strtoul(ws + sg + t, 0)
            == Strtoul(ws + sg + t, if t == "" || t[0] != '0' then 10
                                    else if |t| >= 2 && (t[1] == 'x' || t[1] == 'X') then 16 else 8)
  {
    HeadExact(ws, sg, t, 0);
    HeadExact(ws, sg, t, PickedBase(t, 0));
  }

  /** Without a digit nothing is read. That holds too for a prefix with no digit behind it, although
      its 0 is a number by section 7.22.1.4 of the C standard. */
  lemma ReadsNothing(ws: string, sg: string, pre: string, rest: string, base: nat)
    requires IsBlank(ws) && IsSign(sg) && (base == 0 || 2 <= base <= 36)
    requires if pre == "" then Follows(rest, sg) && Ends(rest, if base == 0 then 10 else base)
             else (pre == "0x" || pre == "0X") && (base == 0 || base == 16) && Ends(rest, 16)
    ensures Strtoul(ws + sg + pre + rest, base) == Parsed(0, 0)
  {
    var s := ws + sg + pre + rest;
    assert s == ws + sg + (pre + rest);
    assert pre == "" ==> pre + rest == rest;
    HeadExact(ws, sg, pre + rest, base);
    var h := HeadOf(s, base);
    assert h.pos == |ws + sg + pre|;
    assert rest != "" ==> s[h.pos] == rest[0];
  }
}
