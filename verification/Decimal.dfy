/** Decimal text of integers, as `std::to_chars` writes it and `std::from_chars` reads it. */
module Decimal {
  predicate IsDigit(c: char) { '0' <= c <= '9' }

  function DigitOf(c: char): int { c as int - '0' as int }

  function DigitChar(d: nat): (c: char)
    requires d < 10
    ensures IsDigit(c) && DigitOf(c) == d
  {
    ('0' as int + d) as char
  }

  function Digits(n: nat): (t: string)
    ensures t != ""
  {
    if n < 10 then [DigitChar(n)] else Digits(n / 10) + [DigitChar(n % 10)]
  }

  function Text(n: int): string { if n < 0 then "-" + Digits(-n) else Digits(n) }

  /** The number written by the digits lo .. hi of a text. */
  function Value(t: string, lo: nat, hi: nat): int
    requires lo <= hi <= |t|
  {
    if lo == hi then 0 else Value(t, lo, hi - 1) * 10 + DigitOf(t[hi - 1])
  }

  /** The end of the digits that start at lo. */
  function DigitsEnd(t: string, lo: nat): (hi: nat)
    requires lo <= |t|
    ensures lo <= hi <= |t|
    decreases |t| - lo
  {
    if lo < |t| && IsDigit(t[lo]) then DigitsEnd(t, lo + 1) else lo
  }

  datatype Number = Num(n: int) | NumErr(err: int)

  const EINVAL: int := 22
  const ERANGE: int := 34
  const MIN64: int := -0x8000_0000_0000_0000
  const MAX64: int := 0x7fff_ffff_ffff_ffff

  /** `stoll_view`: the whole text must be a decimal 64-bit number. Digits out of range are
      reported as such even when other text follows them. */
  function Stoll(t: string): Number {
    var lo := if t != "" && t[0] == '-' then 1 else 0;
    var hi := DigitsEnd(t, lo);
    if hi == lo then NumErr(EINVAL)
    else
      var n: int := if lo == 1 then 0 - Value(t, lo, hi) else Value(t, lo, hi);
      if n < MIN64 || n > MAX64 then NumErr(ERANGE)
      else if hi < |t| then NumErr(EINVAL)
      else Num(n)
  }

  lemma {:induction false} DigitsAreDigits(n: nat, i: nat)
    requires i < |Digits(n)|
    ensures IsDigit(Digits(n)[i])
  {
    if n >= 10 && i < |Digits(n)| - 1 {
      DigitsAreDigits(n / 10, i);
    }
  }

  lemma {:induction false} ValueOfDigits(t: string, lo: nat, n: nat)
    requires lo + |Digits(n)| <= |t| && t[lo..lo + |Digits(n)|] == Digits(n)
    ensures Value(t, lo, lo + |Digits(n)|) == n
  {
    var hi := lo + |Digits(n)|;
    assert t[hi - 1] == t[lo..hi][|Digits(n)| - 1];
    if n < 10 {
      assert Value(t, lo, lo) == 0;
    } else {
      assert t[lo..hi - 1] == t[lo..hi][..|Digits(n)| - 1] == Digits(n / 10);
      ValueOfDigits(t, lo, n / 10);
    }
  }

  lemma {:induction false} DigitsEndIs(t: string, lo: nat, hi: nat)
    requires lo <= hi <= |t| && (forall i :: lo <= i < hi ==> IsDigit(t[i])) && (hi < |t| ==> !IsDigit(t[hi]))
    ensures DigitsEnd(t, lo) == hi
    decreases hi - lo
  {
    if lo < hi {
      DigitsEndIs(t, lo + 1, hi);
    }
  }

  /** Reading back what was written gives the same number, for every 64-bit number. */
  lemma {:induction false} StollOfText(n: int)
    requires MIN64 <= n <= MAX64
    ensures Stoll(Text(n)) == Num(n)
  {
    var t, m := Text(n), if n < 0 then -n else n;
    var lo := if n < 0 then 1 else 0;
    assert t[lo..] == Digits(m);
    ValueOfDigits(t, lo, m);
    forall i | lo <= i < |t| ensures IsDigit(t[i]) {
      DigitsAreDigits(m, i - lo);
    }
    DigitsEndIs(t, lo, |t|);
  }

  lemma {:induction false} TextHasNoNewline(n: int)
    ensures '\n' !in Text(n)
  {
    var m := if n < 0 then -n else n;
    forall i | 0 <= i < |Digits(m)| ensures Digits(m)[i] != '\n' {
      DigitsAreDigits(m, i);
    }
  }

  // ---- what is read, byte by byte

  /** The bytes lo .. hi are a decimal number, and no digit follows them. */
  predicate Numeral(t: string, lo: nat, hi: nat, n: int) {
    && lo < hi <= |t| && (forall k :: lo <= k < hi ==> IsDigit(t[k])) && (hi < |t| ==> !IsDigit(t[hi]))
    && n == Value(t, lo, hi)
  }

  lemma {:induction false} DigitsEndMeans(t: string, lo: nat)
    requires lo <= |t|
    ensures var hi := DigitsEnd(t, lo);
            (forall k :: lo <= k < hi ==> IsDigit(t[k])) && (hi < |t| ==> !IsDigit(t[hi]))
    decreases |t| - lo
  {
    if lo < |t| && IsDigit(t[lo]) {
      DigitsEndMeans(t, lo + 1);
    }
  }

  /** The text up to hi is the number n, with a minus sign where there is one. */
  predicate Signed(t: string, hi: nat, n: int) {
    if t != "" && t[0] == '-' then Numeral(t, 1, hi, -n) else Numeral(t, 0, hi, n)
  }

  lemma {:induction false} SignedEnd(t: string, hi: nat, n: int)
    requires Signed(t, hi, n)
    ensures var lo := if t[0] == '-' then 1 else 0;
            lo < hi == DigitsEnd(t, lo) && n == if lo == 1 then -Value(t, lo, hi) else Value(t, lo, hi)
  {
    DigitsEndIs(t, if t[0] == '-' then 1 else 0, hi);
  }

  /** A whole text that is a decimal number. */
  predicate IsNumber(t: string, n: int) { Signed(t, |t|, n) && -0x8000_0000_0000_0000 <= n <= 0x7fff_ffff_ffff_ffff }

  /** A text that begins with a number of more than 64 bits. */
  ghost predicate OutOfRange(t: string) { exists hi: nat, n :: Signed(t, hi, n) && !(MIN64 <= n <= MAX64) }

  /** `stoll_view` gives the number that the whole text is; ERANGE (34) for a text that begins with a
      number of more than 64 bits, and EINVAL (22) for every other text. */
  lemma {:induction false} StollIff(t: string)
    ensures match Stoll(t)
            case Num(n) => IsNumber(t, n) && !OutOfRange(t)
            case NumErr(e) => (forall n :: !IsNumber(t, n)) && e == if OutOfRange(t) then 34 else 22
  {
    var lo := if t != "" && t[0] == '-' then 1 else 0;
    var hi := DigitsEnd(t, lo);
    DigitsEndMeans(t, lo);
    forall h: nat, m | Signed(t, h, m) ensures lo < h == hi {
      SignedEnd(t, h, m);
    }
    if lo < hi {
      assert Signed(t, hi, if lo == 1 then -Value(t, lo, hi) else Value(t, lo, hi));
    }
  }
}
