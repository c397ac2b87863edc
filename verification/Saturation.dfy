/** How strtoul treats numbers that do not fit into 32 bits. Its overflow test groups its conditions
    otherwise than usual: a digit is refused if it is above the last digit of ULONG_MAX and the value
    so far is at least ULONG_MAX / base, and a later digit that is not refused ends the overflow. */
module Saturation {
  import opened Arithmetic
  import opened Conversions

  const TWO32: nat := 0x1_0000_0000

  /** The numeral that the scanned digits make up, with no bound on its size. */
  ghost function Numeral(s: string, i: nat, b: nat, acc: nat): nat
    requires 2 <= b <= 36
    decreases |s| - i
  {
    var c := DigitValue(CharAt(s, i));
    if i >= |s| || c >= b then acc else Numeral(s, i + 1, b, acc * b + c)
  }

  /** The first position from i on that has no digit of the base. */
  ghost function DigitsEnd(s: string, i: nat, b: nat): nat
    decreases |s| - i
  {
    if i >= |s| || DigitValue(s[i]) >= b then i else DigitsEnd(s, i + 1, b)
  }

  // ---------------------------------------------------------------- arithmetic of the test

  lemma Quotient(b: nat)
    requires 2 <= b <= 36
    ensures ULONG_MAX == ULONG_MAX / b * b + ULONG_MAX % b && ULONG_MAX % b < b
  {
  }

  /** The test on one digit: what fits is never refused, and what does not fit is refused exactly
      when the digit is above the last digit of ULONG_MAX. */
  lemma CutoffExact(m: nat, b: nat, d: nat)
    requires 2 <= b <= 36 && d < b
    ensures m * b + d <= ULONG_MAX ==> m <= ULONG_MAX / b && (m == ULONG_MAX / b ==> d <= ULONG_MAX % b)
    ensures m * b + d > ULONG_MAX ==> m >= ULONG_MAX / b
  {
    var q := ULONG_MAX / b;
    Quotient(b);
    if m > q {
      MulMonotone(q + 1, m, b);
      assert (q + 1) * b == q * b + b;
    } else if m < q {
      MulMonotone(m + 1, q, b);
      assert (m + 1) * b == m * b + b;
    }
  }

  /** One more digit of a numeral. */
  lemma NumeralStep(s: string, i: nat, b: nat, acc: nat) returns (n: nat)
    requires 2 <= b <= 36 && i < |s| && DigitValue(s[i]) < b
    ensures n == acc * b + DigitValue(s[i]) && n >= acc
    ensures Numeral(s, i, b, acc) == Numeral(s, i + 1, b, n)
  {
    n := acc * b + DigitValue(s[i]);
    MulMonotone(1, b, acc);
  }

  lemma {:induction false} NumeralGrows(s: string, i: nat, b: nat, acc: nat)
    requires 2 <= b <= 36
    ensures Numeral(s, i, b, acc) >= acc
    decreases |s| - i
  {
    if i < |s| && DigitValue(s[i]) < b {
      var n := NumeralStep(s, i, b, acc);
      NumeralGrows(s, i + 1, b, n);
    }
  }

  /** A digit after which the numeral still fits is added to the value. */
  lemma ScanStep(s: string, i: nat, b: nat, acc: nat, any: Any) returns (n: nat)
    requires 2 <= b <= 36 && i < |s| && DigitValue(s[i]) < b && !any.Overflow?
    requires acc * b + DigitValue(s[i]) <= ULONG_MAX
    ensures n == acc * b + DigitValue(s[i])
    ensures Scan(s, i, b, acc, any) == Scan(s, i + 1, b, n, Digits)
  {
    n := acc * b + DigitValue(s[i]);
    CutoffExact(acc, b, DigitValue(s[i]));
    assert n % TWO32 == n;
  }

  // ---------------------------------------------------------------- numbers that fit

  /** In every base, digits whose numeral fits into 32 bits are scanned to that numeral. */
  lemma {:induction false} ScanInRange(s: string, i: nat, b: nat, acc: nat, any: Any)
    requires 2 <= b <= 36 && !any.Overflow? && Numeral(s, i, b, acc) <= ULONG_MAX
    ensures Scan(s, i, b, acc, any)
            == Scanned(Numeral(s, i, b, acc), if DigitsEnd(s, i, b) == i then any else Digits, DigitsEnd(s, i, b))
    decreases |s| - i
  {
    if i < |s| && DigitValue(s[i]) < b {
      var n := NumeralStep(s, i, b, acc);
      NumeralGrows(s, i + 1, b, n);
      var m := ScanStep(s, i, b, acc, any);
      EndNotBefore(s, i + 1, b);
      ScanInRange(s, i + 1, b, n, Digits);
    }
  }

  lemma {:induction false} EndNotBefore(s: string, i: nat, b: nat)
    ensures DigitsEnd(s, i, b) >= i
    decreases |s| - i
  {
    if i < |s| && DigitValue(s[i]) < b {
      EndNotBefore(s, i + 1, b);
    }
  }

  /** strtoul on any string, in any base: a numeral that fits is returned, or its negative modulo
      2^32, with the end of its digits; and no digits give 0 and the start of the string. */
  lemma StrtoulInRange(s: string, base: nat)
    requires base == 0 || 2 <= base <= 36
    ensures var h := HeadOf(s, base);
            var n, end := Numeral(s, h.pos, h.base, 0), DigitsEnd(s, h.pos, h.base);
            n <= ULONG_MAX ==>
              Strtoul(s, base) == Parsed(if h.neg then (TWO32 - n) % TWO32 else n, if end == h.pos then 0 else end)
  {
    var h := HeadOf(s, base);
    if Numeral(s, h.pos, h.base, 0) <= ULONG_MAX {
      ScanInRange(s, h.pos, h.base, 0, Nothing);
    }
  }

  // ---------------------------------------------------------------- one digit too many

  /** The digits from i up to k, as a numeral. */
  ghost function Prefix(s: string, i: nat, k: nat, b: nat): nat
    requires 2 <= b <= 36 && k <= |s|
  {
    Numeral(s[..k], i, b, 0)
  }

  /** The digits before the last one are scanned first. */
  lemma {:induction false} ScanPrefix(s: string, i: nat, k: nat, b: nat, acc: nat, any: Any)
    requires 2 <= b <= 36 && i <= k <= |s| && !any.Overflow? && Numeral(s[..k], i, b, acc) <= ULONG_MAX
    requires forall j :: i <= j < k ==> DigitValue(s[j]) < b
    ensures Scan(s, i, b, acc, any) == Scan(s, k, b, Numeral(s[..k], i, b, acc), if i == k then any else Digits)
    decreases k - i
  {
    if i < k {
      assert s[i] == s[..k][i];
      var n := NumeralStep(s[..k], i, b, acc);
      NumeralGrows(s[..k], i + 1, b, n);
      var m := ScanStep(s, i, b, acc, any);
      ScanPrefix(s, i + 1, k, b, n, Digits);
    }
  }

  lemma {:induction false} NumeralPrefix(s: string, i: nat, k: nat, b: nat, acc: nat)
    requires 2 <= b <= 36 && i <= k <= |s| && forall j :: i <= j < k ==> DigitValue(s[j]) < b
    ensures Numeral(s, i, b, acc) == Numeral(s, k, b, Numeral(s[..k], i, b, acc))
    decreases k - i
  {
    if i < k {
      assert s[i] == s[..k][i];
      var n := NumeralStep(s[..k], i, b, acc);
      var m := NumeralStep(s, i, b, acc);
      NumeralPrefix(s, i + 1, k, b, n);
    }
  }

  /** One more digit d after digits whose numeral m fits: the overflow is seen exactly when m is at
      least ULONG_MAX / base and d is above ULONG_MAX % base. So of the numbers m * base + d that do
      not fit, exactly those with such a last digit are reported. */
  lemma LastDigitExact(s: string, i: nat, k: nat, b: nat)
    requires 2 <= b <= 36 && i <= k < |s| && (forall j :: i <= j <= k ==> DigitValue(s[j]) < b)
    requires DigitsEnd(s, i, b) == k + 1 && Prefix(s, i, k, b) <= ULONG_MAX
    ensures var m, d, r := Prefix(s, i, k, b), DigitValue(s[k]), Scan(s, i, b, 0, Nothing);
            && Numeral(s, i, b, 0) == m * b + d && r.pos == k + 1
            && (r.any.Overflow? <==> m >= ULONG_MAX / b && d > ULONG_MAX % b)
            && (m * b + d > ULONG_MAX ==> (r.any.Overflow? <==> d > ULONG_MAX % b))
            && (!r.any.Overflow? ==> r.acc == (m * b + d) % TWO32)
  {
    var m, d := Prefix(s, i, k, b), DigitValue(s[k]);
    ScanPrefix(s, i, k, b, 0, Nothing);
    NumeralPrefix(s, i, k, b, 0);
    EndAfter(s, i, k, b);
    CutoffExact(m, b, d);
  }

  lemma {:induction false} EndAfter(s: string, i: nat, k: nat, b: nat)
    requires i <= k < |s| && (forall j :: i <= j <= k ==> DigitValue(s[j]) < b) && DigitsEnd(s, i, b) == k + 1
    ensures k + 1 == |s| || DigitValue(s[k + 1]) >= b
    decreases k - i
  {
    if i < k {
      EndAfter(s, i + 1, k, b);
    } else {
      EndNotBefore(s, i + 2, b);
    }
  }

  /** Once the overflow has been seen, the next digit ends it unless it is refused too. */
  lemma OverflowGoesOn(s: string, k: nat, b: nat, m: nat)
    requires 2 <= b <= 36 && k < |s| && DigitValue(s[k]) < b
    ensures Scan(s, k, b, m, Overflow)
            == if DigitValue(s[k]) > ULONG_MAX % b then Scan(s, k + 1, b, m, Overflow)
               else Scan(s, k + 1, b, (m * b + DigitValue(s[k])) % TWO32, Digits)
  {
  }

  // ---------------------------------------------------------------- any number of digits too many

  /** A digit above the last one of ULONG_MAX. Others are never refused. */
  predicate High(c: char, b: nat)
    requires 2 <= b <= 36
  {
    ULONG_MAX % b < DigitValue(c) < b
  }

  /** Where the digits above the last one of ULONG_MAX begin that come right before position k. */
  ghost function RunStart(s: string, i: nat, k: nat, b: nat): (h: nat)
    requires 2 <= b <= 36 && i <= k <= |s|
    ensures i <= h <= k && (forall j :: h <= j < k ==> High(s[j], b)) && (h == i || !High(s[h - 1], b))
    decreases k
  {
    if k == i || !High(s[k - 1], b) then k else RunStart(s, i, k - 1, b)
  }

  lemma {:induction false} ScanEnds(s: string, i: nat, b: nat, acc: nat, any: Any)
    requires 2 <= b <= 36 && acc <= ULONG_MAX
    ensures var r := Scan(s, i, b, acc, any);
            && r.pos == DigitsEnd(s, i, b) && r.acc <= ULONG_MAX
            && (r.any.Nothing? <==> any.Nothing? && r.pos == i) && r.pos >= i
    decreases |s| - i
  {
    if i < |s| && DigitValue(s[i]) < b {
      var c := DigitValue(s[i]);
      if (any.Overflow? || acc > ULONG_MAX / b || acc == ULONG_MAX / b) && c > ULONG_MAX % b {
        ScanEnds(s, i + 1, b, acc, Overflow);
      } else {
        ScanEnds(s, i + 1, b, (acc * b + c) % TWO32, Digits);
      }
    }
  }

  /** The scan of a prefix, and then of the rest. */
  lemma {:induction false} ScanSplit(s: string, i: nat, k: nat, b: nat, acc: nat, any: Any)
    requires 2 <= b <= 36 && i <= k <= |s| && forall j :: i <= j < k ==> DigitValue(s[j]) < b
    ensures var r := Scan(s[..k], i, b, acc, any); Scan(s, i, b, acc, any) == Scan(s, k, b, r.acc, r.any)
    decreases k - i
  {
    if i < k {
      var c := DigitValue(s[i]);
      assert s[..k][i] == s[i];
      if (any.Overflow? || acc > ULONG_MAX / b || acc == ULONG_MAX / b) && c > ULONG_MAX % b {
        ScanSplit(s, i + 1, k, b, acc, Overflow);
      } else {
        ScanSplit(s, i + 1, k, b, (acc * b + c) % TWO32, Digits);
      }
    }
  }

  /** High digits do not end an overflow. */
  lemma {:induction false} OverflowStays(s: string, h: nat, b: nat, acc: nat)
    requires 2 <= b <= 36 && forall j :: h <= j < DigitsEnd(s, h, b) && j < |s| ==> High(s[j], b)
    ensures Scan(s, h, b, acc, Overflow).any.Overflow?
    decreases |s| - h
  {
    if h < |s| && DigitValue(s[h]) < b {
      EndNotBefore(s, h + 1, b);
      OverflowStays(s, h + 1, b, acc);
    }
  }

  /** A run of high digits is scanned as it should be: the overflow is seen exactly when the numeral,
      continued from the value before the run, does not fit. */
  lemma {:induction false} HighRun(s: string, h: nat, b: nat, acc: nat, any: Any)
    requires 2 <= b <= 36 && acc <= ULONG_MAX && !any.Overflow?
    requires forall j :: h <= j < DigitsEnd(s, h, b) && j < |s| ==> High(s[j], b)
    ensures var r, n := Scan(s, h, b, acc, any), Numeral(s, h, b, acc);
            (r.any.Overflow? <==> n > ULONG_MAX) && (n <= ULONG_MAX ==> r.acc == n)
    decreases |s| - h
  {
    if h < |s| && DigitValue(s[h]) < b {
      EndNotBefore(s, h + 1, b);
      var n := NumeralStep(s, h, b, acc);
      CutoffExact(acc, b, DigitValue(s[h]));
      if acc >= ULONG_MAX / b {
        NumeralGrows(s, h + 1, b, n);
        OverflowStays(s, h + 1, b, acc);
      } else {
        var m := ScanStep(s, h, b, acc, any);
        HighRun(s, h + 1, b, n, Digits);
      }
    }
  }

  /** The digits that are not refused. */
  ghost function Kept(s: string, i: nat, b: nat, acc: nat, any: Any): string
    requires 2 <= b <= 36
    decreases |s| - i
  {
    var c := DigitValue(CharAt(s, i));
    if i >= |s| || c >= b then ""
    else if (any.Overflow? || acc > ULONG_MAX / b || acc == ULONG_MAX / b) && c > ULONG_MAX % b
    then Kept(s, i + 1, b, acc, Overflow)
    else [s[i]] + Kept(s, i + 1, b, (acc * b + c) % TWO32, Digits)
  }

  lemma {:induction false} NumeralShift(t: string, u: string, i: nat, b: nat, acc: nat)
    requires 2 <= b <= 36 && |u| == |t| + 1 && u[1..] == t && i <= |t|
    ensures Numeral(u, i + 1, b, acc) == Numeral(t, i, b, acc)
    decreases |t| - i
  {
    if i < |t| {
      assert u[i + 1] == u[1..][i] == t[i];
      if DigitValue(t[i]) < b {
        var n := NumeralStep(t, i, b, acc);
        var m := NumeralStep(u, i + 1, b, acc);
        NumeralShift(t, u, i + 1, b, n);
      }
    }
  }

  /** The value is the numeral of the digits that are not refused, modulo 2^32. */
  lemma {:induction false} KeptValue(s: string, i: nat, b: nat, acc: nat, any: Any)
    requires 2 <= b <= 36
    ensures Scan(s, i, b, acc % TWO32, any).acc == Numeral(Kept(s, i, b, acc % TWO32, any), 0, b, acc) % TWO32
    decreases |s| - i
  {
    if i < |s| && DigitValue(s[i]) < b {
      var v, c := acc % TWO32, DigitValue(s[i]);
      if (any.Overflow? || v > ULONG_MAX / b || v == ULONG_MAX / b) && c > ULONG_MAX % b {
        KeptValue(s, i + 1, b, acc, Overflow);
      } else {
        WrapStep(acc, b, c);
        KeptValue(s, i + 1, b, acc * b + c, Digits);
        var t := Kept(s, i + 1, b, (v * b + c) % TWO32, Digits);
        assert ([s[i]] + t)[1..] == t;
        KeptFirst(t, s[i], b, acc);
      }
    }
  }

  lemma KeptFirst(t: string, c: char, b: nat, acc: nat)
    requires 2 <= b <= 36 && DigitValue(c) < b
    ensures Numeral([c] + t, 0, b, acc) == Numeral(t, 0, b, acc * b + DigitValue(c))
  {
    assert ([c] + t)[1..] == t;
    var n := NumeralStep([c] + t, 0, b, acc);
    NumeralShift(t, [c] + t, 0, b, n);
  }

  /** What comes before the trailing run of high digits: its value, as the scan sees it. */
  ghost function ValueBefore(s: string, i: nat, h: nat, b: nat): nat
    requires 2 <= b <= 36 && i <= h <= |s|
  {
    Scan(s[..h], i, b, 0, Nothing).acc
  }

  /** That value is the numeral of the digits that were not refused, modulo 2^32. */
  lemma ValueBeforeExact(s: string, i: nat, h: nat, b: nat)
    requires 2 <= b <= 36 && i <= h <= |s|
    ensures ValueBefore(s, i, h, b) == Numeral(Kept(s[..h], i, b, 0, Nothing), 0, b, 0) % TWO32
  {
    KeptValue(s[..h], i, b, 0, Nothing);
  }

  /** The scan has come to a run of high digits, without an overflow. */
  lemma BeforeRun(s: string, i: nat, h: nat, b: nat) returns (any: Any)
    requires 2 <= b <= 36 && i <= h <= |s| && forall j :: i <= j < h ==> DigitValue(s[j]) < b
    requires h == i || !High(s[h - 1], b)
    ensures !any.Overflow? && ValueBefore(s, i, h, b) <= ULONG_MAX
    ensures Scan(s, i, b, 0, Nothing) == Scan(s, h, b, ValueBefore(s, i, h, b), any)
  {
    any := Scan(s[..h], i, b, 0, Nothing).any;
    ScanSplit(s, i, h, b, 0, Nothing);
    ScanEnds(s[..h], i, b, 0, Nothing);
    LowBefore(s, i, h, b);
  }

  /** The whole scan, for every string and base: let the digits end in a run of high ones, and let v be
      the value of what comes before. The result is the numeral of that run continued from v, and it is
      reported as too large exactly when it is. */
  lemma ScanExact(s: string, i: nat, b: nat)
    requires 2 <= b <= 36 && i <= |s|
    ensures i <= DigitsEnd(s, i, b) <= |s|
    ensures var end := DigitsEnd(s, i, b);
            var h := RunStart(s, i, end, b);
            var n, r := Numeral(s, h, b, ValueBefore(s, i, h, b)), Scan(s, i, b, 0, Nothing);
            && r.pos == end && (r.any.Nothing? <==> end == i)
            && (r.any.Overflow? <==> n > ULONG_MAX) && (n <= ULONG_MAX ==> r.acc == n)
  {
    EndInside(s, i, b);
    ScanEnds(s, i, b, 0, Nothing);
    var h := RunStart(s, i, DigitsEnd(s, i, b), b);
    EndsAlike(s, i, h, b);
    var any := BeforeRun(s, i, h, b);
    HighRun(s, h, b, ValueBefore(s, i, h, b), any);
  }

  lemma {:induction false} EndInside(s: string, i: nat, b: nat)
    requires i <= |s|
    ensures i <= DigitsEnd(s, i, b) <= |s| && forall j :: i <= j < DigitsEnd(s, i, b) ==> DigitValue(s[j]) < b
    decreases |s| - i
  {
    if i < |s| && DigitValue(s[i]) < b {
      EndInside(s, i + 1, b);
    }
  }

  lemma {:induction false} EndsAlike(s: string, i: nat, k: nat, b: nat)
    requires i <= k <= |s| && forall j :: i <= j < k ==> DigitValue(s[j]) < b
    ensures DigitsEnd(s, k, b) == DigitsEnd(s, i, b)
    decreases k - i
  {
    if i < k {
      EndsAlike(s, i + 1, k, b);
    }
  }

  /** Before a run of high digits comes a digit that is not refused, or nothing. */
  lemma LowBefore(s: string, i: nat, h: nat, b: nat)
    requires 2 <= b <= 36 && i <= h <= |s| && forall j :: i <= j < h ==> DigitValue(s[j]) < b
    requires h == i || !High(s[h - 1], b)
    ensures !Scan(s[..h], i, b, 0, Nothing).any.Overflow?
  {
    if h > i {
      var t := s[..h];
      ScanSplit(t, i, h - 1, b, 0, Nothing);
      var r := Scan(t[..h - 1], i, b, 0, Nothing);
      LastIsLow(t, b, r.acc, r.any);
    }
  }

  lemma LastIsLow(t: string, b: nat, acc: nat, any: Any)
    requires 2 <= b <= 36 && t != [] && DigitValue(t[|t| - 1]) < b && !High(t[|t| - 1], b)
    ensures Scan(t, |t| - 1, b, acc, any).any == Digits
  {
  }

  lemma {:induction false} SpacesInside(s: string, i: nat)
    requires i <= |s|
    ensures SkipSpaces(s, i) <= |s|
    decreases |s| - i
  {
    if i < |s| && IsSpace(s[i]) {
      SpacesInside(s, i + 1);
    }
  }

  /** strtoul on every string in every base. */
  lemma StrtoulExact(s: string, base: nat)
    requires base == 0 || 2 <= base <= 36
    ensures HeadOf(s, base).pos <= DigitsEnd(s, HeadOf(s, base).pos, HeadOf(s, base).base) <= |s|
    ensures var hd := HeadOf(s, base);
            var end := DigitsEnd(s, hd.pos, hd.base);
            var h := RunStart(s, hd.pos, end, hd.base);
            var n := Numeral(s, h, hd.base, ValueBefore(s, hd.pos, h, hd.base));
            Strtoul(s, base) == Parsed(if n > ULONG_MAX then ULONG_MAX
                                       else if hd.neg then (TWO32 - n) % TWO32 else n,
                                       if end == hd.pos then 0 else end)
  {
    SpacesInside(s, 0);
    var hd := HeadOf(s, base);
    ScanExact(s, hd.pos, hd.base);
  }

  // ---------------------------------------------------------------- bases in which it never happens

  /** No string of digits is ever seen to overflow. */
  ghost predicate NeverOverflows(b: nat)
    requires 2 <= b <= 36
  {
    forall s: string, i: nat :: !Scan(s, i, b, 0, Nothing).any.Overflow?
  }

  lemma LastDigitOfMax(b: nat)
    requires 2 <= b <= 36
    ensures TWO32 % b == 0 <==> ULONG_MAX % b == b - 1
  {
    var q, r := ULONG_MAX / b, ULONG_MAX % b;
    Quotient(b);
    assert TWO32 == b * q + (r + 1);
    if r + 1 == b {
      assert TWO32 == b * (q + 1);
      RemainderIs(TWO32, b, q + 1, 0);
    } else {
      RemainderIs(TWO32, b, q, r + 1);
    }
  }

  /** The text of a number is made of digits of its base. */
  lemma {:induction false} TextDigits(n: nat, b: nat, upper: bool)
    requires 2 <= b <= 36
    ensures forall j :: 0 <= j < |Text(n, b, upper)| ==> DigitValue(Text(n, b, upper)[j]) < b
  {
    if n < b {
      DigitCharValue(n, upper);
    } else {
      Shorter(n, b);
      TextDigits(n / b, b, upper);
      DigitCharValue(n % b, upper);
    }
  }

  /** A string of digits of b, and what is left when the last is taken away. */
  lemma {:induction false} NumeralSnoc(t: string, i: nat, b: nat, acc: nat, c: char)
    requires 2 <= b <= 36 && i <= |t| && DigitValue(c) < b && forall j :: 0 <= j < |t| ==> DigitValue(t[j]) < b
    ensures Numeral(t + [c], i, b, acc) == Numeral(t, i, b, acc) * b + DigitValue(c)
    decreases |t| - i
  {
    var s := t + [c];
    if i < |t| {
      assert s[i] == t[i];
      var n := NumeralStep(t, i, b, acc);
      var m := NumeralStep(s, i, b, acc);
      NumeralSnoc(t, i + 1, b, n, c);
    } else {
      assert s[i] == c;
      var n := NumeralStep(s, i, b, acc);
    }
  }

  lemma {:induction false} TextNumeral(n: nat, b: nat, upper: bool)
    requires 2 <= b <= 36
    ensures Numeral(Text(n, b, upper), 0, b, 0) == n
  {
    if n < b {
      DigitCharValue(n, upper);
      assert Numeral(Text(n, b, upper), 1, b, n) == n;
    } else {
      Shorter(n, b);
      TextNumeral(n / b, b, upper);
      TextDigits(n / b, b, upper);
      DigitCharValue(n % b, upper);
      NumeralSnoc(Text(n / b, b, upper), 0, b, 0, DigitChar(n % b, upper));
    }
  }

  lemma {:induction false} AllDigits(s: string, i: nat, b: nat)
    requires i <= |s| && forall j :: 0 <= j < |s| ==> DigitValue(s[j]) < b
    ensures DigitsEnd(s, i, b) == |s|
    decreases |s| - i
  {
    if i < |s| {
      AllDigits(s, i + 1, b);
    }
  }

  /** A number too large by little, where the base leaves a digit above the last one of ULONG_MAX. */
  lemma OverflowSeen(b: nat)
    requires 2 <= b <= 36 && ULONG_MAX % b < b - 1
    ensures Scan(Text(ULONG_MAX / b, b, false) + [DigitChar(b - 1, false)], 0, b, 0, Nothing).any.Overflow?
  {
    var t := Text(ULONG_MAX / b, b, false);
    var s := t + [DigitChar(b - 1, false)];
    TextNumeral(ULONG_MAX / b, b, false);
    TextDigits(ULONG_MAX / b, b, false);
    DigitCharValue(b - 1, false);
    assert s[..|t|] == t;
    AllDigits(s, 0, b);
    LastDigitExact(s, 0, |t|, b);
  }

  lemma {:induction false} NeverSeen(s: string, i: nat, b: nat, acc: nat, any: Any)
    requires 2 <= b <= 36 && ULONG_MAX % b == b - 1 && !any.Overflow?
    ensures !Scan(s, i, b, acc, any).any.Overflow?
    decreases |s| - i
  {
    var c := DigitValue(CharAt(s, i));
    if i < |s| && c < b {
      NeverSeen(s, i + 1, b, (acc * b + c) % TWO32, Digits);
    }
  }

  /** The test can fire in exactly the bases that do not divide 2^32: not in 2, 4, 8, 16 and 32. */
  lemma NeverOverflowsExact(b: nat)
    requires 2 <= b <= 36
    ensures NeverOverflows(b) <==> TWO32 % b == 0
  {
    LastDigitOfMax(b);
    Quotient(b);
    if ULONG_MAX % b == b - 1 {
      forall s: string, i: nat
        ensures !Scan(s, i, b, 0, Nothing).any.Overflow?
      {
        NeverSeen(s, i, b, 0, Nothing);
      }
    } else {
      OverflowSeen(b);
    }
  }

  lemma WrapStep(acc: nat, b: nat, c: nat)
    ensures (acc % TWO32 * b + c) % TWO32 == (acc * b + c) % TWO32
  {
    var q, r := acc / TWO32, acc % TWO32;
    assert acc * b == r * b + TWO32 * (q * b) by {
      assert acc == r + TWO32 * q;
    }
    WholeTurns(r * b + c, q * b);
  }

  lemma WholeTurns(x: nat, z: nat)
    ensures (x + TWO32 * z) % TWO32 == x % TWO32
  {
  }

  /** In those bases the value is the numeral modulo 2^32, whatever the text. */
  lemma {:induction false} NumeralWraps(s: string, i: nat, b: nat, acc: nat, any: Any)
    requires 2 <= b <= 36 && TWO32 % b == 0 && !any.Overflow?
    ensures Scan(s, i, b, acc % TWO32, any).acc == Numeral(s, i, b, acc) % TWO32
    decreases |s| - i
  {
    var c := DigitValue(CharAt(s, i));
    if i < |s| && c < b {
      LastDigitOfMax(b);
      WrapStep(acc, b, c);
      NumeralWraps(s, i + 1, b, acc * b + c, Digits);
    }
  }

  // ---------------------------------------------------------------- an input

  /** 42949672960 is too large by a factor of ten: its last digit but one is refused, and the last
      digit then ends the overflow. */
  lemma SaturationIsForgotten()
    ensures var s := Text(429496729, 10, false) + "60";
            Numeral(s, 0, 10, 0) == 42949672960 > ULONG_MAX && Strtoul(s, 10) == Parsed(4294967290, |s|)
  {
    TextNumeral(429496729, 10, false);
    TextDigits(429496729, 10, false);
    Forgotten(Text(429496729, 10, false));
  }

  lemma Forgotten(t: string)
    requires t != [] && (forall j :: 0 <= j < |t| ==> DigitValue(t[j]) < 10) && Numeral(t, 0, 10, 0) == ULONG_MAX / 10
    ensures var s := t + "60";
            Numeral(s, 0, 10, 0) == 42949672960 && Strtoul(s, 10) == Parsed(4294967290, |s|)
  {
    var s := t + "60";
    assert s[..|t|] == t && s[|t|] == '6' && s[|t| + 1] == '0' && |s| == |t| + 2;
    ScanPrefix(s, 0, |t|, 10, 0, Nothing);
    NumeralPrefix(s, 0, |t|, 10, 0);
    DigitsGoFirst(s);
    SixtyMore(s, |t|, ULONG_MAX / 10);
  }

  lemma SixtyMore(s: string, k: nat, q: nat)
    requires q == ULONG_MAX / 10 && |s| == k + 2 && s[k] == '6' && s[k + 1] == '0'
    ensures Numeral(s, k, 10, q) == 100 * q + 60
    ensures Scan(s, k, 10, q, Digits) == Scanned(10 * q, Digits, k + 2)
  {
    assert Numeral(s, k, 10, q) == Numeral(s, k + 1, 10, 10 * q + 6);
    assert Scan(s, k, 10, q, Digits) == Scan(s, k + 1, 10, q, Overflow);
    OverflowGoesOn(s, k + 1, 10, q);
  }

  lemma DigitsGoFirst(s: string)
    requires s != [] && DigitValue(s[0]) < 10
    ensures HeadOf(s, 10) == Head(false, 10, 0)
  {
    assert SkipSpaces(s, 0) == 0;
  }
}
