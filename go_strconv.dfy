/**
 * Go's `strconv.Atoi` on a 64-bit platform (where Go's `int` is 64 bits).
 * Atoi strips one leading '+' or '-', reads the rest as unsigned decimal
 * digits (ParseUint with base 10) and then fits the value into an int64.
 * A string that is not a signed decimal gives 0 with a syntax error, unless
 * its digits before the first non-digit already exceed 2^64 - 1, in which
 * case it saturates with a range error (see AtoiMalformed); a decimal
 * outside the int64 range gives the nearest bound with a range error.
 */
module GoStrconv {
  import opened Options

  const MaxUint64: int := 0xffff_ffff_ffff_ffff
  const MaxInt64: int := 0x7fff_ffff_ffff_ffff
  const MinInt64: int := -0x8000_0000_0000_0000

  predicate IsDigit(c: char) {
    '0' <= c <= '9'
  }

  function DigitValue(c: char): (d: nat)
    requires IsDigit(c)
    ensures d < 10
  {
    (c as int) - ('0' as int)
  }

  predicate AllDigits(s: string) {
    forall i :: 0 <= i < |s| ==> IsDigit(s[i])
  }

  /** The number a string of decimal digits denotes (the empty string denotes 0). */
  function DecimalValue(s: string): nat
    requires AllDigits(s)
    decreases |s|
  {
    if s == [] then 0 else 10 * DecimalValue(s[..|s| - 1]) + DigitValue(s[|s| - 1])
  }

  datatype NumError = ErrSyntax | ErrRange

  datatype UintScan = Scanned(n: nat) | Failed(err: NumError)

  /**
   * The digit loop of ParseUint(s, 10, 0): the state after reading every
   * character of `s` in order. The first non-digit stops it with a syntax
   * error, and so does nothing after a value beyond MaxUint64 has stopped it
   * with a range error.
   */
  function ScanDigits(s: string): (r: UintScan)
    ensures r.Scanned? ==> r.n <= MaxUint64
    decreases |s|
  {
    if s == [] then Scanned(0)
    else
      match ScanDigits(s[..|s| - 1])
      case Failed(e) => Failed(e)
      case Scanned(n) =>
        var c := s[|s| - 1];
        if !IsDigit(c) then Failed(ErrSyntax)
        else if n * 10 + DigitValue(c) > MaxUint64 then Failed(ErrRange)
        else Scanned(n * 10 + DigitValue(c))
  }

  /** ParseUint(s, 10, 0): the empty string is a syntax error. */
  function ParseUint10(s: string): UintScan {
    if s == [] then Failed(ErrSyntax) else ScanDigits(s)
  }

  /** What Atoi returns: the value and the error, if any. */
  datatype IntResult = IntResult(value: int, err: Option<NumError>)

  predicate HasSign(s: string) {
    |s| > 0 && (s[0] == '+' || s[0] == '-')
  }

  /** The string after its optional leading sign. */
  function Unsigned(s: string): string {
    if HasSign(s) then s[1..] else s
  }

  /** An optional sign followed by at least one decimal digit and nothing else. */
  predicate IsSignedDecimal(s: string) {
    |Unsigned(s)| > 0 && AllDigits(Unsigned(s))
  }

  /** The mathematical value of a signed decimal, before any range check. */
  function SignedValue(s: string): int
    requires IsSignedDecimal(s)
  {
    if HasSign(s) && s[0] == '-' then -(DecimalValue(Unsigned(s)) as int) else DecimalValue(Unsigned(s))
  }

  /** `strconv.Atoi(s)` with Go's 64-bit `int`. */
  function Atoi(s: string): (r: IntResult)
    ensures MinInt64 <= r.value <= MaxInt64
    ensures r.err == Some(ErrSyntax) ==> r.value == 0
    ensures r.err == None ==> IsSignedDecimal(s)
  {
    var neg := HasSign(s) && s[0] == '-';
    match ParseUint10(Unsigned(s))
    case Failed(ErrSyntax) => IntResult(0, Some(ErrSyntax))
    case Failed(ErrRange) => IntResult(if neg then MinInt64 else MaxInt64, Some(ErrRange))
    case Scanned(un) =>
      if !neg && un > MaxInt64 then IntResult(MaxInt64, Some(ErrRange))
      else if neg && un > -MinInt64 then IntResult(MinInt64, Some(ErrRange))
      else
        ScanDigitsAccepts(Unsigned(s));
        IntResult(if neg then -(un as int) else un, None)
  }

  /** A scan that ends with a value read only digits. */
  lemma {:induction false} ScanDigitsAccepts(s: string)
    requires ScanDigits(s).Scanned?
    ensures AllDigits(s)
    decreases |s|
  {
    if s != [] {
      ScanDigitsAccepts(s[..|s| - 1]);
      assert s == s[..|s| - 1] + [s[|s| - 1]];
    }
  }

  /** On digits only, the scan yields their decimal value, or a range error when it exceeds MaxUint64. */
  lemma {:induction false} ScanDigitsOfDecimal(s: string)
    requires AllDigits(s)
    ensures ScanDigits(s) == if DecimalValue(s) > MaxUint64 then Failed(ErrRange) else Scanned(DecimalValue(s))
    decreases |s|
  {
    if s != [] {
      var p := s[..|s| - 1];
      assert AllDigits(p);
      ScanDigitsOfDecimal(p);
    }
  }

  /**
   * When the first non-digit sits at index k, the scan fails there with a
   * syntax error, unless the digits before it already exceed MaxUint64.
   */
  lemma {:induction false} ScanDigitsStops(s: string, k: nat)
    requires k < |s| && !IsDigit(s[k]) && AllDigits(s[..k])
    ensures ScanDigits(s) == if DecimalValue(s[..k]) > MaxUint64 then Failed(ErrRange) else Failed(ErrSyntax)
    decreases |s|
  {
    var p := s[..|s| - 1];
    if |s| == k + 1 {
      assert p == s[..k];
      ScanDigitsOfDecimal(p);
    } else {
      assert p[..k] == s[..k];
      ScanDigitsStops(p, k);
    }
  }

  /**
   * A signed decimal parses to its value when that fits in an int64, and to
   * the nearest int64 bound with a range error when it does not.
   */
  lemma AtoiSignedDecimal(s: string)
    requires IsSignedDecimal(s)
    ensures var v := SignedValue(s);
      Atoi(s) == if v < MinInt64 then IntResult(MinInt64, Some(ErrRange))
                 else if v > MaxInt64 then IntResult(MaxInt64, Some(ErrRange))
                 else IntResult(v, None)
  {
    ScanDigitsOfDecimal(Unsigned(s));
  }

  /**
   * A string that is not a signed decimal parses to 0 with a syntax error,
   * unless the digits before its first non-digit already exceed MaxUint64,
   * in which case it saturates like an out-of-range decimal.
   */
  lemma AtoiMalformed(s: string, k: nat)
    requires k < |Unsigned(s)| && !IsDigit(Unsigned(s)[k]) && AllDigits(Unsigned(s)[..k])
    ensures !IsSignedDecimal(s)
    ensures Atoi(s) == if DecimalValue(Unsigned(s)[..k]) <= MaxUint64 then IntResult(0, Some(ErrSyntax))
                       else if HasSign(s) && s[0] == '-' then IntResult(MinInt64, Some(ErrRange))
                       else IntResult(MaxInt64, Some(ErrRange))
  {
    ScanDigitsStops(Unsigned(s), k);
  }

  /** A string with nothing after its optional sign parses to 0 with a syntax error. */
  lemma AtoiNoDigits(s: string)
    requires Unsigned(s) == []
    ensures !IsSignedDecimal(s) && Atoi(s) == IntResult(0, Some(ErrSyntax))
  {
  }

  function DigitChar(d: nat): (c: char)
    requires d < 10
    ensures IsDigit(c) && DigitValue(c) == d
  {
    ('0' as int + d) as char
  }

  /** The shortest decimal spelling of n. */
  function DecimalDigits(n: nat): (s: string)
    ensures |s| >= 1 && AllDigits(s) && DecimalValue(s) == n
    decreases n
  {
    if n < 10 then [DigitChar(n)]
    else
      var p := DecimalDigits(n / 10);
      var s := p + [DigitChar(n % 10)];
      assert s[..|s| - 1] == p;
      s
  }

  /** `strconv.Itoa`: the decimal spelling of i, with '-' when negative. */
  function FormatInt(i: int): string {
    if i < 0 then "-" + DecimalDigits(-i) else DecimalDigits(i)
  }

  /** Atoi reads back every int64 that FormatInt writes, without error. */
  lemma AtoiFormatInt(i: int)
    requires MinInt64 <= i <= MaxInt64
    ensures Atoi(FormatInt(i)) == IntResult(i, None)
  {
    var s := FormatInt(i);
    if i < 0 {
      assert HasSign(s) && Unsigned(s) == DecimalDigits(-i);
    } else {
      assert !HasSign(s) && Unsigned(s) == s;
    }
    AtoiSignedDecimal(s);
  }
}
