/**
 * pkg/convert: the `StrTo` string wrapper and the `strconv.Atoi` parsing it
 * delegates to. Atoi is modelled as Go's implementation runs on a 64-bit
 * platform: a fast path for short strings, and otherwise `ParseInt(s, 10, 0)`,
 * whose digit loop (`ParseUint`) stops with a range error as soon as the
 * accumulated value overflows 64 bits. Go picks the path by byte length and
 * the model by character count; the two differ only on non-ASCII input, and
 * `AtoiFastAgrees` shows both paths give the same result anyway.
 */
module Convert {
  import opened GoInts
  import opened Wrappers

  datatype NumError = ErrSyntax | ErrRange

  /** The `(int, error)` pair `strconv.Atoi` returns. */
  datatype Parsed = Parsed(value: int, err: Option<NumError>)

  // ---------------------------------------------------------------------------
  // Decimal syntax and its value: the reference the parser is checked against

  predicate IsDigit(c: char)
  {
    '0' <= c <= '9'
  }

  function DigitValue(c: char): (d: nat)
    requires IsDigit(c)
    ensures d < 10
  {
    c as int - '0' as int
  }

  predicate AllDigits(s: string)
  {
    forall i :: 0 <= i < |s| ==> IsDigit(s[i])
  }

  function Pow10(k: nat): (r: nat)
    ensures r >= 1
  {
    if k == 0 then 1 else 10 * Pow10(k - 1)
  }

  /** The value of a digit string, read with its last digit as the units. */
  function DigitsValue(s: string): (v: nat)
    requires AllDigits(s)
    ensures v < Pow10(|s|)
  {
    if |s| == 0 then 0 else DigitsValue(s[..|s| - 1]) * 10 + DigitValue(s[|s| - 1])
  }

  predicate HasSign(s: string)
  {
    |s| > 0 && (s[0] == '+' || s[0] == '-')
  }

  /** The string with one leading sign removed, if it has one. */
  function Magnitude(s: string): string
  {
    if HasSign(s) then s[1..] else s
  }

  /** Atoi's syntax: an optional `+` or `-` followed by at least one decimal digit. */
  predicate IsDecimal(s: string)
  {
    |Magnitude(s)| > 0 && AllDigits(Magnitude(s))
  }

  function DecimalValue(s: string): int
    requires IsDecimal(s)
  {
    if s[0] == '-' then -(DigitsValue(Magnitude(s)) as int) else DigitsValue(Magnitude(s))
  }

  // ---------------------------------------------------------------------------
  // strconv.ParseUint / ParseInt (base 10, 64 bits)

  /** `maxUint64/10 + 1`: an accumulator at or above it overflows when multiplied by 10. */
  const Cutoff: nat := MaxUint64 / 10 + 1

  /** 1 << 63, the magnitude bound ParseInt applies after the unsigned scan. */
  const SignedCutoff: nat := 0x8000_0000_0000_0000

  datatype Scan = Scanned(n: nat) | SyntaxStop | RangeStop

  /** The digit loop of `ParseUint`, from accumulator `n`, consuming `s` left to right. */
  function ScanUint(s: string, n: nat): (r: Scan)
    requires n <= MaxUint64
    ensures r.Scanned? ==> n <= r.n <= MaxUint64
    decreases |s|
  {
    if |s| == 0 then Scanned(n)
    else if !IsDigit(s[0]) then SyntaxStop
    else if n >= Cutoff then RangeStop
    else if n * 10 + DigitValue(s[0]) > MaxUint64 then RangeStop
    else ScanUint(s[1..], n * 10 + DigitValue(s[0]))
  }

  function ParseUint(s: string): (r: (nat, Option<NumError>))
  {
    if |s| == 0 then (0, Some(ErrSyntax))
    else match ScanUint(s, 0)
      case Scanned(n) => (n, None)
      case SyntaxStop => (0, Some(ErrSyntax))
      case RangeStop => (MaxUint64, Some(ErrRange))
  }

  function ParseInt(s: string): Parsed
  {
    if |s| == 0 then Parsed(0, Some(ErrSyntax))
    else
      var neg := s[0] == '-';
      var (un, err) := ParseUint(Magnitude(s));
      if err.Some? && err.value != ErrRange then Parsed(0, err)
      else if !neg && un >= SignedCutoff then Parsed(MaxInt64, Some(ErrRange))
      else if neg && un > SignedCutoff then Parsed(MinInt64, Some(ErrRange))
      else Parsed(if neg then -(un as int) else un, None)
  }

  // ---------------------------------------------------------------------------
  // strconv.Atoi

  /** The digit loop of Atoi's fast path; no overflow check is needed below 19 digits. */
  function FastDigits(s: string, n: nat): Option<nat>
    decreases |s|
  {
    if |s| == 0 then Some(n)
    else if !IsDigit(s[0]) then None
    else FastDigits(s[1..], n * 10 + DigitValue(s[0]))
  }

  function AtoiFast(s: string): Parsed
    requires 0 < |s| < 19
  {
    var body := Magnitude(s);
    if |body| < 1 then Parsed(0, Some(ErrSyntax))
    else match FastDigits(body, 0)
      case None => Parsed(0, Some(ErrSyntax))
      case Some(n) => Parsed(if s[0] == '-' then -(n as int) else n, None)
  }

  function Atoi(s: string): Parsed
  {
    if 0 < |s| < 19 then AtoiFast(s) else ParseInt(s)
  }

  // ---------------------------------------------------------------------------
  // strconv.Itoa, used to state the round trip

  function DigitChar(d: nat): (c: char)
    requires d < 10
    ensures IsDigit(c) && DigitValue(c) == d
  {
    ('0' as int + d) as char
  }

  /** Shortest decimal rendering of a natural number. */
  function FormatUint(m: nat): (r: string)
    ensures |r| > 0 && AllDigits(r) && DigitsValue(r) == m
  {
    if m < 10 then [DigitChar(m)]
    else
      var prefix := FormatUint(m / 10);
      var r := prefix + [DigitChar(m % 10)];
      assert r[..|r| - 1] == prefix;
      r
  }

  /** Go's `strconv.Itoa`. */
  function FormatInt(n: int): (r: string)
    ensures IsDecimal(r) && DecimalValue(r) == n
  {
    if n < 0 then
      var r := "-" + FormatUint(-n);
      assert Magnitude(r) == FormatUint(-n);
      r
    else
      FormatUint(n)
  }

  // ---------------------------------------------------------------------------
  // Lemmas about the scans

  lemma MulAtLeast(a: nat, b: nat)
    requires b >= 1
    ensures a * b >= a
  {
  }

  lemma MulMono(a: nat, b: nat, c: nat)
    requires a <= b
    ensures a * c <= b * c
  {
  }

  lemma {:induction false} Pow10Mono(a: nat, b: nat)
    requires a <= b
    ensures Pow10(a) <= Pow10(b)
    decreases b
  {
    if a < b {
      Pow10Mono(a, b - 1);
    }
  }

  lemma Distribute(d: nat, p: nat, x: nat, last: nat)
    ensures (d * p + x) * 10 + last == d * (10 * p) + (x * 10 + last)
  {
  }

  /** Reading a digit string from its first digit gives the same value. */
  lemma {:induction false} DigitsValueFirst(s: string)
    requires |s| > 0 && AllDigits(s)
    ensures DigitsValue(s) == DigitValue(s[0]) * Pow10(|s| - 1) + DigitsValue(s[1..])
    decreases |s|
  {
    if |s| > 1 {
      var p := s[..|s| - 1];
      var last := DigitValue(s[|s| - 1]);
      DigitsValueFirst(p);
      assert p[1..] == s[1..][..|s[1..]| - 1];
      assert s[1..][|s[1..]| - 1] == s[|s| - 1];
      assert p[0] == s[0];
      assert DigitsValue(s) == DigitsValue(p) * 10 + last;
      assert DigitsValue(s[1..]) == DigitsValue(p[1..]) * 10 + last;
      Distribute(DigitValue(s[0]), Pow10(|s| - 2), DigitsValue(p[1..]), last);
    }
  }

  /** `n` digits-so-far followed by digit `d` and the remaining value `rest` of `k` digits. */
  lemma Regroup(n: nat, d: nat, p: nat, rest: nat)
    ensures n * (10 * p) + (d * p + rest) == (n * 10 + d) * p + rest
  {
  }

  /** On a digit string the ParseUint loop computes the value, or stops when it exceeds 64 bits. */
  lemma {:induction false} ScanDigits(t: string, n: nat)
    requires n <= MaxUint64 && AllDigits(t)
    ensures n * Pow10(|t|) + DigitsValue(t) <= MaxUint64 ==>
      ScanUint(t, n) == Scanned(n * Pow10(|t|) + DigitsValue(t))
    ensures n * Pow10(|t|) + DigitsValue(t) > MaxUint64 ==> ScanUint(t, n) == RangeStop
    decreases |t|
  {
    if |t| > 0 {
      var d := DigitValue(t[0]);
      var rest := t[1..];
      var p := Pow10(|t| - 1);
      var n' := n * 10 + d;
      DigitsValueFirst(t);
      Regroup(n, d, p, DigitsValue(rest));
      assert n * Pow10(|t|) + DigitsValue(t) == n' * p + DigitsValue(rest);
      MulAtLeast(n', p);
      if n < Cutoff && n' <= MaxUint64 {
        ScanDigits(rest, n');
      }
    }
  }

  /** The ParseUint loop never reports success on a string with a non-digit. */
  lemma {:induction false} ScanNonDigits(t: string, n: nat)
    requires n <= MaxUint64 && !AllDigits(t)
    ensures !ScanUint(t, n).Scanned?
    decreases |t|
  {
    if IsDigit(t[0]) && n < Cutoff && n * 10 + DigitValue(t[0]) <= MaxUint64 {
      var i :| 0 <= i < |t| && !IsDigit(t[i]);
      assert t[1..][i - 1] == t[i];
      ScanNonDigits(t[1..], n * 10 + DigitValue(t[0]));
    }
  }

  /**
   * If the first non-digit sits at index `j` and `j` digits cannot overflow from
   * accumulator `n`, the loop reaches it and reports a syntax error.
   */
  lemma {:induction false} ScanStopsAtNonDigit(t: string, n: nat, j: nat)
    requires n <= MaxUint64
    requires j < |t| && !IsDigit(t[j]) && AllDigits(t[..j])
    requires (n + 1) * Pow10(j) <= MaxUint64 + 1
    ensures ScanUint(t, n) == SyntaxStop
    decreases j
  {
    if j > 0 {
      assert IsDigit(t[..j][0]);
      var d := DigitValue(t[0]);
      assert (n + 1) * Pow10(j) == ((n + 1) * 10) * Pow10(j - 1);
      MulAtLeast((n + 1) * 10, Pow10(j - 1));
      assert n * 10 + d <= MaxUint64;
      assert t[1..][..j - 1] == t[..j][1..];
      assert (n * 10 + d + 1) * Pow10(j - 1) <= MaxUint64 + 1 by {
        MulMono(n * 10 + d + 1, (n + 1) * 10, Pow10(j - 1));
      }
      ScanStopsAtNonDigit(t[1..], n * 10 + d, j - 1);
    }
  }

  /** Index of the first non-digit of a string that has one. */
  function FirstNonDigit(t: string): (j: nat)
    requires !AllDigits(t)
    ensures j < |t| && !IsDigit(t[j]) && AllDigits(t[..j])
  {
    if !IsDigit(t[0]) then 0
    else
      var i :| 0 <= i < |t| && !IsDigit(t[i]);
      assert t[1..][i - 1] == t[i];
      var j := 1 + FirstNonDigit(t[1..]);
      assert t[..j] == [t[0]] + t[1..][..j - 1];
      j
  }

  lemma {:induction false} FastDigitsValue(t: string, n: nat)
    ensures AllDigits(t) ==> FastDigits(t, n) == Some(n * Pow10(|t|) + DigitsValue(t))
    ensures !AllDigits(t) ==> FastDigits(t, n) == None
    decreases |t|
  {
    if |t| > 0 && IsDigit(t[0]) {
      var rest := t[1..];
      var d := DigitValue(t[0]);
      FastDigitsValue(rest, n * 10 + d);
      if AllDigits(t) {
        assert AllDigits(rest) by {
          forall i | 0 <= i < |rest| ensures IsDigit(rest[i]) {
            assert rest[i] == t[i + 1];
          }
        }
        DigitsValueFirst(t);
        Regroup(n, d, Pow10(|t| - 1), DigitsValue(rest));
      } else {
        var i :| 0 <= i < |t| && !IsDigit(t[i]);
        assert rest[i - 1] == t[i];
      }
    }
  }

  // ---------------------------------------------------------------------------
  // What Atoi returns

  lemma Pow10Values()
    ensures Pow10(18) == 1_000_000_000_000_000_000
    ensures Pow10(19) == 10_000_000_000_000_000_000
  {
    assert Pow10(1) == 10;
    assert Pow10(2) == 100;
    assert Pow10(3) == 1000;
    assert Pow10(4) == 10_000;
    assert Pow10(5) == 100_000;
    assert Pow10(6) == 1_000_000;
    assert Pow10(7) == 10_000_000;
    assert Pow10(8) == 100_000_000;
    assert Pow10(9) == 1_000_000_000;
    assert Pow10(10) == 10_000_000_000;
    assert Pow10(11) == 100_000_000_000;
    assert Pow10(12) == 1_000_000_000_000;
    assert Pow10(13) == 10_000_000_000_000;
    assert Pow10(14) == 100_000_000_000_000;
    assert Pow10(15) == 1_000_000_000_000_000;
    assert Pow10(16) == 10_000_000_000_000_000;
    assert Pow10(17) == 100_000_000_000_000_000;
  }

  /** ParseUint on a digit string: its value, or a range error once it exceeds 64 bits. */
  lemma ParseUintDigits(t: string)
    requires |t| > 0 && AllDigits(t)
    ensures DigitsValue(t) <= MaxUint64 ==> ParseUint(t) == (DigitsValue(t), None)
    ensures DigitsValue(t) > MaxUint64 ==> ParseUint(t) == (MaxUint64, Some(ErrRange))
  {
    ScanDigits(t, 0);
    assert 0 * Pow10(|t|) == 0;
  }

  /** ParseUint on a string with a non-digit: always an error, a syntax error if short. */
  lemma ParseUintNonDigits(t: string)
    requires !AllDigits(t)
    ensures ParseUint(t).1.Some?
    ensures ParseUint(t).1 == Some(ErrSyntax) ==> ParseUint(t).0 == 0
    ensures ParseUint(t).1 == Some(ErrRange) ==> ParseUint(t).0 == MaxUint64
    ensures |t| <= 20 ==> ParseUint(t) == (0, Some(ErrSyntax))
  {
    ScanNonDigits(t, 0);
    if |t| <= 20 {
      var j := FirstNonDigit(t);
      Pow10Mono(j, 19);
      Pow10Values();
      ScanStopsAtNonDigit(t, 0, j);
    }
  }

  /** The complete input/output behaviour of `ParseInt(s, 10, 64)`. */
  lemma ParseIntSpec(s: string)
    ensures ParseInt(s).err == None <==> IsDecimal(s) && InInt64(DecimalValue(s))
    ensures ParseInt(s).err == None ==> ParseInt(s).value == DecimalValue(s)
    ensures IsDecimal(s) && DecimalValue(s) > MaxInt64 ==> ParseInt(s) == Parsed(MaxInt64, Some(ErrRange))
    ensures IsDecimal(s) && DecimalValue(s) < MinInt64 ==> ParseInt(s) == Parsed(MinInt64, Some(ErrRange))
    ensures ParseInt(s).err == Some(ErrSyntax) ==> ParseInt(s).value == 0 && !IsDecimal(s)
    ensures !IsDecimal(s) && |s| <= 20 ==> ParseInt(s) == Parsed(0, Some(ErrSyntax))
    ensures ParseInt(s).err == Some(ErrRange) ==> ParseInt(s).value == MaxInt64 || ParseInt(s).value == MinInt64
    ensures InInt64(ParseInt(s).value)
  {
    if |s| > 0 {
      var t := Magnitude(s);
      if |t| == 0 {
        assert ParseUint(t) == (0, Some(ErrSyntax));
      } else if AllDigits(t) {
        ParseUintDigits(t);
      } else {
        ParseUintNonDigits(t);
      }
    }
  }

  /** Atoi's fast path returns exactly what the general ParseInt path would. */
  lemma AtoiFastAgrees(s: string)
    requires 0 < |s| < 19
    ensures AtoiFast(s) == ParseInt(s)
  {
    ParseIntSpec(s);
    var body := Magnitude(s);
    FastDigitsValue(body, 0);
    if IsDecimal(s) {
      Pow10Mono(|body|, 18);
      Pow10Values();
      assert DigitsValue(body) < 1_000_000_000_000_000_000;
    }
  }

  /** Atoi accepts exactly the optional-sign-then-digits syntax, in range of a 64-bit int. */
  lemma AtoiSpec(s: string)
    ensures Atoi(s).err == None <==> IsDecimal(s) && InInt64(DecimalValue(s))
    ensures Atoi(s).err == None ==> Atoi(s).value == DecimalValue(s)
    ensures IsDecimal(s) && DecimalValue(s) > MaxInt64 ==> Atoi(s) == Parsed(MaxInt64, Some(ErrRange))
    ensures IsDecimal(s) && DecimalValue(s) < MinInt64 ==> Atoi(s) == Parsed(MinInt64, Some(ErrRange))
    ensures Atoi(s).err == Some(ErrSyntax) ==> Atoi(s).value == 0 && !IsDecimal(s)
    ensures !IsDecimal(s) && |s| <= 20 ==> Atoi(s) == Parsed(0, Some(ErrSyntax))
    ensures Atoi(s).err == Some(ErrRange) ==> Atoi(s).value == MaxInt64 || Atoi(s).value == MinInt64
    ensures InInt64(Atoi(s).value)
  {
    ParseIntSpec(s);
    if 0 < |s| < 19 {
      AtoiFastAgrees(s);
    }
  }

  /** Parsing the decimal rendering of any 64-bit int gives it back without error. */
  lemma AtoiFormatInt(n: int)
    requires InInt64(n)
    ensures Atoi(FormatInt(n)) == Parsed(n, None)
  {
    AtoiSpec(FormatInt(n));
  }

  /** Twenty digits starting with 9 exceed every uint64. */
  lemma TwentyDigitsOverflow(t: string)
    requires |t| == 20 && AllDigits(t) && t[0] == '9'
    ensures DigitsValue(t) > MaxUint64
  {
    DigitsValueFirst(t);
    Pow10Values();
  }

  /**
   * On a long unsigned input the loop overflows before it reaches a later
   * non-digit, so the error is a range error carrying the clamped value.
   */
  lemma AtoiOverflowFirst(s: string)
    requires |s| > 20 && AllDigits(s[..20]) && s[0] == '9'
    ensures Atoi(s) == Parsed(MaxInt64, Some(ErrRange))
  {
    var t := s[..20];
    TwentyDigitsOverflow(t);
    ScanDigits(t, 0);
    ScanPrefixRange(s, t, 0);
    assert Magnitude(s) == s;
    assert ParseUint(s) == (MaxUint64, Some(ErrRange));
  }

  lemma AtoiRangeBeforeSyntax()
    ensures Atoi("99999999999999999999x") == Parsed(MaxInt64, Some(ErrRange))
  {
    var s := "99999999999999999999x";
    assert AllDigits(s[..20]);
    AtoiOverflowFirst(s);
  }

  /** A range stop on a prefix is a range stop on the whole string. */
  lemma {:induction false} ScanPrefixRange(s: string, t: string, n: nat)
    requires n <= MaxUint64 && t <= s && ScanUint(t, n) == RangeStop
    ensures ScanUint(s, n) == RangeStop
    decreases |t|
  {
    assert s[0] == t[0];
    if IsDigit(t[0]) && n < Cutoff && n * 10 + DigitValue(t[0]) <= MaxUint64 {
      assert t[1..] <= s[1..];
      ScanPrefixRange(s[1..], t[1..], n * 10 + DigitValue(t[0]));
    }
  }

  // ---------------------------------------------------------------------------
  // convert.StrTo

  datatype StrTo = StrTo(s: string) {

    /** The wrapped string, unchanged. */
    function String(): (r: string)
      ensures StrTo(r) == this
    {
      s
    }

    function Int(): (r: Parsed)
      ensures r.err == None <==> IsDecimal(s) && InInt64(DecimalValue(s))
      ensures r.err == None ==> r.value == DecimalValue(s)
      ensures r.err == Some(ErrSyntax) ==> r.value == 0
      ensures IsDecimal(s) && DecimalValue(s) > MaxInt64 ==> r == Parsed(MaxInt64, Some(ErrRange))
      ensures IsDecimal(s) && DecimalValue(s) < MinInt64 ==> r == Parsed(MinInt64, Some(ErrRange))
      ensures r.err == Some(ErrRange) ==> r.value == MaxInt64 || r.value == MinInt64
    {
      AtoiSpec(String());
      Atoi(String())
    }

    /** Int's value with the error discarded. */
    function MustInt(): (r: int)
      ensures IsDecimal(s) && InInt64(DecimalValue(s)) ==> r == DecimalValue(s)
      ensures IsDecimal(s) && DecimalValue(s) > MaxInt64 ==> r == MaxInt64
      ensures IsDecimal(s) && DecimalValue(s) < MinInt64 ==> r == MinInt64
      ensures !IsDecimal(s) && |s| <= 20 ==> r == 0
      ensures InInt64(r)
    {
      AtoiSpec(s);
      Int().value
    }

    /** Atoi's value converted with Go's truncating `uint32(v)`, error passed through. */
    function UInt32(): (r: (uint32, Option<NumError>))
      ensures r.1 == None <==> IsDecimal(s) && InInt64(DecimalValue(s))
      ensures r.1 == None ==> (r.0 - DecimalValue(s)) % TwoTo32 == 0
      ensures IsDecimal(s) && 0 <= DecimalValue(s) < TwoTo32 ==> r == (DecimalValue(s), None)
      ensures r.1 == Some(ErrSyntax) ==> r.0 == 0
      ensures r.1 == Int().err
      ensures IsDecimal(s) && DecimalValue(s) > MaxInt64 ==> r == (4294967295, Some(ErrRange))
      ensures IsDecimal(s) && DecimalValue(s) < MinInt64 ==> r == (0, Some(ErrRange))
      ensures r.1 == Some(ErrRange) ==> r.0 == 4294967295 || r.0 == 0
    {
      AtoiSpec(String());
      assert TruncUint32(MaxInt64) == 4294967295 && TruncUint32(MinInt64) == 0;
      var p := Atoi(String());
      (TruncUint32(p.value), p.err)
    }

    function MustUint32(): (r: uint32)
      ensures IsDecimal(s) && 0 <= DecimalValue(s) < TwoTo32 ==> r == DecimalValue(s)
      ensures IsDecimal(s) && InInt64(DecimalValue(s)) ==> (r - DecimalValue(s)) % TwoTo32 == 0
      ensures IsDecimal(s) && DecimalValue(s) > MaxInt64 ==> r == 4294967295
      ensures IsDecimal(s) && DecimalValue(s) < MinInt64 ==> r == 0
      ensures !IsDecimal(s) && |s| <= 20 ==> r == 0
    {
      AtoiSpec(s);
      UInt32().0
    }
  }

  /** "-1" parses without error and wraps to the largest uint32. */
  lemma MinusOneWrapsToMaxUint32()
    ensures StrTo("-1").UInt32() == (4294967295, None)
  {
    var s := "-1";
    assert Magnitude(s) == "1";
    assert IsDecimal(s) && DecimalValue(s) == -1;
    AtoiSpec(s);
  }

  /** An id beyond the int64 range clamps to MaxInt64, whose low 32 bits are all ones. */
  lemma OversizedIdBecomesMaxUint32()
    ensures StrTo("99999999999999999999").MustUint32() == 4294967295
  {
    var s := "99999999999999999999";
    assert Magnitude(s) == s;
    assert AllDigits(s);
    TwentyDigitsOverflow(s);
    ParseIntSpec(s);
    assert Atoi(s) == Parsed(MaxInt64, Some(ErrRange));
    assert TruncUint32(MaxInt64) == 4294967295;
  }
}
