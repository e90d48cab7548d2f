/**
 * The decimal conversions of Go's strconv package that the route-parameter
 * accessors and the Retry-After header use: ParseUint and ParseInt in base 10
 * (with the values they return beside an error, since the callers discard the
 * error) and Itoa. A 64-bit platform is assumed, so IntSize is 64.
 */
module Strconv {
  import opened Encoding

  const MaxUint64: int := 0xFFFF_FFFF_FFFF_FFFF
  const MaxInt64: int := 0x7FFF_FFFF_FFFF_FFFF
  const MinInt64: int := -0x8000_0000_0000_0000
  const IntSize: nat := 64
  /** The smallest n for which n * 10 no longer fits in 64 bits. */
  const Cutoff: int := MaxUint64 / 10 + 1

  datatype NumError = NoError | ErrSyntax | ErrRange

  /** The pair (value, error) a parse function returns. */
  datatype NumResult = NumResult(value: int, err: NumError)

  predicate IsDigit(c: byte) { 48 <= c <= 57 }

  function DigitValue(c: byte): (d: nat)
    requires IsDigit(c)
    ensures d < 10
  {
    (c - 48) as nat
  }

  predicate AllDigits(s: Bytes) {
    forall i | 0 <= i < |s| :: IsDigit(s[i])
  }

  /** The number a run of ASCII digits denotes, read most significant first. */
  function DigitsValue(s: Bytes): nat
    requires AllDigits(s)
  {
    if s == [] then 0 else DigitsValue(s[..|s| - 1]) * 10 + DigitValue(s[|s| - 1])
  }

  predicate IsSign(c: byte) { c == Plus || c == Minus }

  /** An optional sign followed by at least one ASCII digit: the strings base-10 ParseInt accepts. */
  predicate IsDecimal(s: Bytes) {
    |s| > 0 && if IsSign(s[0]) then |s| > 1 && AllDigits(s[1..]) else AllDigits(s)
  }

  function DecimalValue(s: Bytes): int
    requires IsDecimal(s)
  {
    if s[0] == Minus then -(DigitsValue(s[1..]) as int)
    else if s[0] == Plus then DigitsValue(s[1..])
    else DigitsValue(s)
  }

  /**
   * The digit loop of ParseUint from index i with accumulator n: it fails
   * with a syntax error at the first non-digit and with a range error (value
   * MaxUint64) as soon as the next digit would overflow, before it looks at
   * the bytes after it.
   */
  function ParseUintFrom(s: Bytes, i: nat, n: nat): (r: NumResult)
    requires i <= |s| && n <= MaxUint64
    ensures 0 <= r.value <= MaxUint64
    ensures r.err == ErrSyntax ==> r.value == 0
    ensures r.err == ErrRange ==> r.value == MaxUint64
    decreases |s| - i
  {
    if i == |s| then NumResult(n, NoError)
    else if !IsDigit(s[i]) then NumResult(0, ErrSyntax)
    else if n >= Cutoff then NumResult(MaxUint64, ErrRange)
    else
      var n1 := n * 10 + DigitValue(s[i]);
      if n1 > MaxUint64 then NumResult(MaxUint64, ErrRange)
      else ParseUintFrom(s, i + 1, n1)
  }

  /** strconv.ParseUint(s, 10, 64). */
  function ParseUint(s: Bytes): (r: NumResult)
    ensures 0 <= r.value <= MaxUint64
    ensures r.err == ErrSyntax ==> r.value == 0
    ensures r.err == ErrRange ==> r.value == MaxUint64
  {
    if s == [] then NumResult(0, ErrSyntax) else ParseUintFrom(s, 0, 0)
  }

  /**
   * strconv.ParseInt(s, 10, bitSize) for the bit sizes 0 (IntSize) and 64:
   * a syntax error yields 0, an out-of-range value yields the nearest bound.
   */
  function ParseInt(s: Bytes, bitSize: nat): (r: NumResult)
    requires bitSize == 0 || bitSize == 64
    ensures MinInt64 <= r.value <= MaxInt64
    ensures r.err == ErrSyntax ==> r.value == 0
  {
    if s == [] then NumResult(0, ErrSyntax)
    else
      var neg := s[0] == Minus;
      var u := ParseUint(if IsSign(s[0]) then s[1..] else s);
      if u.err == ErrSyntax then NumResult(0, ErrSyntax)
      else
        var cutoff := MaxInt64 + 1;   // 1 << (IntSize - 1): both bit sizes are 64 here
        if !neg && u.value >= cutoff then NumResult(cutoff - 1, ErrRange)
        else if neg && u.value > cutoff then NumResult(-cutoff, ErrRange)
        else NumResult(if neg then -u.value else u.value, u.err)
  }

  function DigitChar(d: nat): (c: char)
    requires d < 10
  {
    (48 + d) as char
  }

  function FormatNat(n: nat): (s: string)
    ensures |s| >= 1 && '0' <= s[0] <= '9'
  {
    if n < 10 then [DigitChar(n)] else FormatNat(n / 10) + [DigitChar(n % 10)]
  }

  /** strconv.Itoa: the shortest decimal form, with '-' before a negative number. */
  function Itoa(n: int): (s: string)
    ensures |s| >= 1
    ensures s[0] == '-' <==> n < 0
  {
    if n < 0 then "-" + FormatNat(-n) else FormatNat(n)
  }

  // ---------------------------------------------------------------------
  // Lemmas about the parse loop

  lemma DigitsValueStep(s: Bytes, i: nat)
    requires AllDigits(s) && i < |s|
    ensures AllDigits(s[..i]) && AllDigits(s[..i + 1])
    ensures DigitsValue(s[..i + 1]) == DigitsValue(s[..i]) * 10 + DigitValue(s[i])
  {
    assert s[..i + 1][..i] == s[..i];
  }

  lemma TakeAll(s: Bytes)
    ensures s[..|s|] == s
  {
  }

  lemma {:induction false} DigitsValuePrefix(s: Bytes, i: nat)
    requires AllDigits(s) && i <= |s|
    ensures AllDigits(s[..i]) && DigitsValue(s[..i]) <= DigitsValue(s)
    decreases |s| - i
  {
    if i < |s| {
      DigitsValueStep(s, i);
      DigitsValuePrefix(s, i + 1);
    } else {
      assert s[..i] == s;
    }
  }

  lemma {:induction false} ParseUintFromExact(s: Bytes, i: nat)
    requires AllDigits(s) && DigitsValue(s) <= MaxUint64 && i <= |s|
    ensures AllDigits(s[..i]) && DigitsValue(s[..i]) <= MaxUint64
    ensures ParseUintFrom(s, i, DigitsValue(s[..i])) == NumResult(DigitsValue(s), NoError)
    decreases |s| - i
  {
    DigitsValuePrefix(s, i);
    if i == |s| {
      assert s[..i] == s;
    } else {
      DigitsValueStep(s, i);
      DigitsValuePrefix(s, i + 1);
      ParseUintFromExact(s, i + 1);
    }
  }

  /** A run of digits whose value fits in 64 bits parses to exactly that value. */
  lemma ParseUintExact(s: Bytes)
    requires |s| > 0 && AllDigits(s) && DigitsValue(s) <= MaxUint64
    ensures ParseUint(s) == NumResult(DigitsValue(s), NoError)
  {
    ParseUintFromExact(s, 0);
    assert s[..0] == [];
  }

  lemma {:induction false} ParseUintFromOverflow(s: Bytes, i: nat)
    requires AllDigits(s) && DigitsValue(s) > MaxUint64 && i <= |s|
    requires AllDigits(s[..i]) && DigitsValue(s[..i]) <= MaxUint64
    ensures ParseUintFrom(s, i, DigitsValue(s[..i])) == NumResult(MaxUint64, ErrRange)
    decreases |s| - i
  {
    if i == |s| {
      TakeAll(s);
      assert false;
    } else {
      DigitsValueStep(s, i);
      if DigitsValue(s[..i]) < Cutoff && DigitsValue(s[..i + 1]) <= MaxUint64 {
        ParseUintFromOverflow(s, i + 1);
      }
    }
  }

  /** A run of digits too large for 64 bits is a range error. */
  lemma ParseUintOverflow(s: Bytes)
    requires |s| > 0 && AllDigits(s) && DigitsValue(s) > MaxUint64
    ensures ParseUint(s) == NumResult(MaxUint64, ErrRange)
  {
    assert s[..0] == [];
    ParseUintFromOverflow(s, 0);
  }

  function Pow10(k: nat): (p: nat)
    ensures p >= 1
  {
    if k == 0 then 1 else 10 * Pow10(k - 1)
  }

  lemma {:induction false} DigitsValueBound(s: Bytes)
    requires AllDigits(s)
    ensures DigitsValue(s) < Pow10(|s|)
  {
    if s != [] {
      DigitsValueBound(s[..|s| - 1]);
    }
  }

  lemma {:induction false} Pow10Monotone(j: nat, k: nat)
    requires j <= k
    ensures Pow10(j) <= Pow10(k)
    decreases k
  {
    if j < k {
      Pow10Monotone(j, k - 1);
    }
  }

  lemma Pow10Values()
    ensures Pow10(18) == 1_000_000_000_000_000_000
    ensures Pow10(19) == 10_000_000_000_000_000_000
  {
    assert Pow10(9) == 1_000_000_000;
  }

  lemma {:induction false} ParseUintFromSyntax(s: Bytes, i: nat)
    requires |s| <= 19 && i <= |s| && AllDigits(s[..i]) && !AllDigits(s)
    ensures DigitsValue(s[..i]) <= MaxUint64
    ensures ParseUintFrom(s, i, DigitsValue(s[..i])) == NumResult(0, ErrSyntax)
    decreases |s| - i
  {
    DigitsValueBound(s[..i]);
    Pow10Monotone(i, 19);
    Pow10Values();
    if i == |s| {
      assert false;
    } else if IsDigit(s[i]) {
      assert s[..i + 1][..i] == s[..i];
      assert AllDigits(s[..i + 1]);
      Pow10Monotone(i, 18);
      assert DigitsValue(s[..i]) < Cutoff;
      ParseUintFromSyntax(s, i + 1);
    }
  }

  /** Up to 19 bytes never overflow, so any non-digit among them is a syntax error. */
  lemma ParseUintSyntax(s: Bytes)
    requires |s| <= 19 && !AllDigits(s)
    ensures ParseUint(s) == NumResult(0, ErrSyntax)
  {
    assert s[..0] == [];
    ParseUintFromSyntax(s, 0);
  }

  // ---------------------------------------------------------------------
  // Lemmas about ParseInt

  /** A decimal string in the int64 range parses to exactly its value. */
  lemma ParseIntExact(s: Bytes, bitSize: nat)
    requires bitSize == 0 || bitSize == 64
    requires IsDecimal(s) && MinInt64 <= DecimalValue(s) <= MaxInt64
    ensures ParseInt(s, bitSize) == NumResult(DecimalValue(s), NoError)
  {
    ParseUintExact(if IsSign(s[0]) then s[1..] else s);
  }

  /** A decimal string beyond the int64 range yields the nearest bound, not 0. */
  lemma ParseIntClamps(s: Bytes, bitSize: nat)
    requires bitSize == 0 || bitSize == 64
    requires IsDecimal(s) && !(MinInt64 <= DecimalValue(s) <= MaxInt64)
    ensures ParseInt(s, bitSize) == NumResult(if DecimalValue(s) > 0 then MaxInt64 else MinInt64, ErrRange)
  {
    var digits := if IsSign(s[0]) then s[1..] else s;
    if DigitsValue(digits) <= MaxUint64 {
      ParseUintExact(digits);
    } else {
      ParseUintOverflow(digits);
    }
  }

  /** A string of at most 19 bytes that is not a decimal integer (say "abc", "", "+", "1.5") yields 0. */
  lemma ParseIntRejects(s: Bytes, bitSize: nat)
    requires bitSize == 0 || bitSize == 64
    requires |s| <= 19 && !IsDecimal(s)
    ensures ParseInt(s, bitSize) == NumResult(0, ErrSyntax)
  {
    if s != [] {
      var digits := if IsSign(s[0]) then s[1..] else s;
      if digits != [] {
        ParseUintSyntax(digits);
      }
    }
  }

  // ---------------------------------------------------------------------
  // Itoa and ParseInt are inverse

  lemma {:induction false} FormatNatDigits(n: nat)
    ensures AllDigits(Utf8(FormatNat(n)))
    ensures |Utf8(FormatNat(n))| > 0 && DigitsValue(Utf8(FormatNat(n))) == n
    decreases n
  {
    if n < 10 {
      assert Utf8([DigitChar(n)]) == [(48 + n) as byte];
    } else {
      FormatNatDigits(n / 10);
      var head := Utf8(FormatNat(n / 10));
      Utf8Concat(FormatNat(n / 10), [DigitChar(n % 10)]);
      assert Utf8([DigitChar(n % 10)]) == [(48 + n % 10) as byte];
      var all := head + [(48 + n % 10) as byte];
      assert Utf8(FormatNat(n)) == all;
      assert all[..|all| - 1] == head;
    }
  }

  /** The decimal text Itoa gives for an int64 parses back to the same number. */
  lemma ItoaRoundTrip(n: int)
    requires MinInt64 <= n <= MaxInt64
    ensures IsDecimal(Utf8(Itoa(n))) && DecimalValue(Utf8(Itoa(n))) == n
    ensures ParseInt(Utf8(Itoa(n)), 64) == NumResult(n, NoError)
  {
    var m: nat := if n < 0 then -n else n;
    FormatNatDigits(m);
    var digits := Utf8(FormatNat(m));
    if n < 0 {
      Utf8Concat("-", FormatNat(m));
      assert Utf8("-") == [Minus];
      var s := [Minus] + digits;
      assert Utf8(Itoa(n)) == s;
      assert s[1..] == digits;
    } else {
      assert !IsSign(digits[0]) by {
        assert 48 <= digits[0] <= 57;
      }
    }
    ParseIntExact(Utf8(Itoa(n)), 64);
  }
}
