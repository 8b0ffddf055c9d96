/** Decimal printing and parsing of machine integers: what Go's strconv does for
    the values that reach Redis, and the hand-written printer of the call board. */
module Decimal {
  import opened Wrappers

  const MIN_INT64: int := -0x8000_0000_0000_0000
  const MAX_INT64: int := 0x7fff_ffff_ffff_ffff
  const MAX_INT32: int := 0x7fff_ffff

  type int64 = x: int | -0x8000_0000_0000_0000 <= x <= 0x7fff_ffff_ffff_ffff
  type int32 = x: int | -0x8000_0000 <= x <= 0x7fff_ffff

  predicate IsDigit(c: char) {
    '0' <= c <= '9'
  }

  predicate AllDigits(s: string) {
    forall i :: 0 <= i < |s| ==> IsDigit(s[i])
  }

  function DigitChar(d: nat): char
    requires d < 10
  {
    '0' + d as char
  }

  function DigitValue(c: char): nat
    requires IsDigit(c)
  {
    c as int - '0' as int
  }

  /** The canonical digits of n, without leading zeros. */
  function Digits(n: nat): (s: string)
    ensures s != [] && AllDigits(s)
  {
    if n < 10 then [DigitChar(n)] else Digits(n / 10) + [DigitChar(n % 10)]
  }

  /** The number a digit string denotes. */
  function Value(s: string): nat
    requires AllDigits(s)
  {
    if s == [] then 0 else Value(s[..|s| - 1]) * 10 + DigitValue(s[|s| - 1])
  }

  /** The canonical decimal of n, as strconv.FormatInt(n, 10) prints it. */
  function Format(n: int): string {
    if n < 0 then "-" + Digits(-n) else Digits(n)
  }

  /** strconv.Atoi: an optional sign, at least one digit, and a 64-bit result. */
  function Atoi(s: string): Option<int> {
    var negative := s != [] && s[0] == '-';
    var body := if s != [] && (s[0] == '-' || s[0] == '+') then s[1..] else s;
    if body == [] || !AllDigits(body) then None
    else
      var v: int := if negative then -(Value(body) as int) else Value(body);
      if MIN_INT64 <= v <= MAX_INT64 then Some(v) else None
  }

  lemma {:induction false} ValueDigits(n: nat)
    ensures Value(Digits(n)) == n
  {
    if n < 10 {
      assert Digits(n)[..0] == [];
    } else {
      ValueDigits(n / 10);
      assert Digits(n)[..|Digits(n)| - 1] == Digits(n / 10);
    }
  }

  function Zeros(k: nat): (s: string)
    ensures AllDigits(s)
  {
    seq(k, _ => '0')
  }

  /** The canonical digits of n after any number of zeros. */
  ghost predicate Padded(body: string, n: nat) {
    exists k: nat {:trigger Zeros(k)} :: body == Zeros(k) + Digits(n)
  }

  lemma {:induction false} ValueOfZeros(k: nat)
    ensures Value(Zeros(k)) == 0
  {
    if k > 0 {
      ValueOfZeros(k - 1);
      assert Zeros(k)[..k - 1] == Zeros(k - 1);
    }
  }

  lemma {:induction false} ValueOfPadded(k: nat, n: nat)
    ensures AllDigits(Zeros(k) + Digits(n)) && Value(Zeros(k) + Digits(n)) == n
  {
    var body, m := Zeros(k) + Digits(n), |Digits(n)| - 1;
    assert body[..|body| - 1] == Zeros(k) + Digits(n)[..m];
    if n < 10 {
      assert Zeros(k) + Digits(n)[..m] == Zeros(k);
      ValueOfZeros(k);
    } else {
      assert Digits(n)[..m] == Digits(n / 10);
      ValueOfPadded(k, n / 10);
    }
  }

  lemma OneMoreDigit(front: string, v: nat, last: char)
    requires Padded(front, v) && IsDigit(last)
    ensures Padded(front + [last], v * 10 + DigitValue(last))
  {
    var k: nat :| front == Zeros(k) + Digits(v);
    var n := v * 10 + DigitValue(last);
    if v == 0 {
      assert front + [last] == Zeros(k + 1) + Digits(n);
    } else {
      assert Digits(n) == Digits(v) + [last];
      assert front + [last] == Zeros(k) + Digits(n);
    }
  }

  /** Every digit string is the canonical digits of its value after some zeros. */
  lemma {:induction false} ValueExactly(body: string)
    requires body != [] && AllDigits(body)
    ensures Padded(body, Value(body))
  {
    var front, last := body[..|body| - 1], body[|body| - 1];
    assert body == front + [last] && AllDigits(front);
    if front == [] {
      assert body == Zeros(0) + Digits(Value(body));
    } else {
      ValueExactly(front);
      OneMoreDigit(front, Value(front), last);
    }
  }

  /** How a text may spell n: its canonical digits after some zeros, with the sign in front, which may
      be left out when it is a plus. */
  ghost predicate Spells(s: string, n: int) {
    || (n >= 0 && (Padded(s, n) || (s != [] && s[0] == '+' && Padded(s[1..], n))))
    || (n <= 0 && s != [] && s[0] == '-' && Padded(s[1..], -n))
  }

  lemma PaddedReads(body: string, n: nat)
    requires Padded(body, n)
    ensures body != [] && AllDigits(body) && Value(body) == n
  {
    var k: nat :| body == Zeros(k) + Digits(n);
    ValueOfPadded(k, n);
  }

  /** A text is read as n exactly when it spells n and n has 64 bits. */
  lemma AtoiExactly(s: string, n: int)
    ensures Atoi(s) == Some(n) <==> -0x8000_0000_0000_0000 <= n <= 0x7fff_ffff_ffff_ffff && Spells(s, n)
  {
    if Atoi(s) == Some(n) {
      ValueExactly(if s[0] == '-' || s[0] == '+' then s[1..] else s);
    }
    if Spells(s, n) {
      if n >= 0 && Padded(s, n) {
        PaddedReads(s, n);
        assert IsDigit(s[0]);
      } else {
        PaddedReads(s[1..], if n >= 0 && s[0] == '+' then n else -n);
      }
    }
  }

  /** Printing and parsing are inverse on every 64-bit integer. */
  lemma AtoiFormat(n: int)
    requires MIN_INT64 <= n <= MAX_INT64
    ensures Atoi(Format(n)) == Some(n)
  {
    if n < 0 {
      ValueDigits(-n);
      assert Format(n)[0] == '-' && Format(n)[1..] == Digits(-n);
    } else {
      ValueDigits(n);
      assert IsDigit(Format(n)[0]);
    }
  }

  /** No printed number contains the payload separator. */
  lemma FormatHasNoColon(n: int)
    ensures Format(n) != [] && ':' !in Format(n)
  {
    var m := if n < 0 then -n else n;
    forall i | 0 <= i < |Format(n)| ensures Format(n)[i] != ':' {
      if n < 0 && i > 0 {
        assert Format(n)[i] == Digits(m)[i - 1];
      }
    }
  }

  function Pow10(k: nat): nat {
    if k == 0 then 1 else 10 * Pow10(k - 1)
  }

  lemma {:induction false} DigitsLength(n: nat, k: nat)
    requires k >= 1 && n < Pow10(k)
    ensures |Digits(n)| <= k
  {
    if n >= 10 {
      assert k != 1 by {
        assert Pow10(1) == 10;
      }
      DigitsLength(n / 10, k - 1);
    }
  }

  lemma Int64Length(n: nat)
    requires n <= MAX_INT64
    ensures |Digits(n)| <= 19
  {
    assert Pow10(19) == 1_000_000_000_000_0000_000 by {
      assert Pow10(5) == 100_000;
      assert Pow10(10) == 10_000_000_000;
      assert Pow10(15) == 1_000_000_000_000_000;
    }
    DigitsLength(n, 19);
  }

  /** Two's complement negation: the least value is its own negation. */
  function Negate(n: int64): int64 {
    if n == MIN_INT64 then n else -n
  }

  /** The first k characters of the text are the digits of m; no digits at all for zero. */
  ghost predicate Starts(whole: string, k: nat, m: nat) {
    k <= |whole| && whole[..k] == if m > 0 then Digits(m) else ""
  }

  lemma StartsStep(whole: string, k: nat, m: nat)
    requires m > 0 && Starts(whole, k, m)
    ensures k >= 1 && whole[k - 1] == DigitChar(m % 10) && Starts(whole, k - 1, m / 10)
  {
    assert whole[..k][k - 1] == whole[k - 1];
    assert whole[..k][..k - 1] == whole[..k - 1];
  }

  /** What the board's own printer produces: the canonical decimal, except that the
      least 64-bit integer, whose negation overflows, comes out as a bare sign. */
  function JsonText(n: int64): string {
    if n == MIN_INT64 then "-" else Format(n)
  }

  /** The printed text parses back to n exactly when n is not the least integer. */
  lemma JsonTextRoundTrip(n: int64)
    ensures Atoi(JsonText(n)) == Some(n) <==> n != MIN_INT64
  {
    if n != MIN_INT64 {
      AtoiFormat(n);
    }
  }

  lemma {:induction false} NoLeadingZero(n: nat)
    requires n > 0
    ensures Digits(n)[0] != '0'
  {
    if n >= 10 { NoLeadingZero(n / 10); }
  }

  /** The printed text has a sign exactly for a negative number, only digits after it, and no zero in
      front of other digits. */
  lemma JsonTextIsCanonical(n: int64)
    requires n != MIN_INT64
    ensures var s := JsonText(n);
      && s != "" && (s[0] == '-' <==> n < 0)
      && (forall i :: (if n < 0 then 1 else 0) <= i < |s| ==> '0' <= s[i] <= '9')
      && (n == 0 ==> s == "0")
      && (n > 0 ==> s[0] != '0')
      && (n < 0 ==> |s| > 1 && s[1] != '0')
  {
    if n > 0 { NoLeadingZero(n); }
    if n < 0 { NoLeadingZero(-n); }
  }

  lemma MinimumIsNoNumber()
    ensures Atoi(JsonText(MIN_INT64)) == None
  {
  }

  /** The digit loop: fills the buffer from its end; it does nothing unless m > 0. */
  method FillDigits(buf: array<char>, m: int64) returns (i: nat)
    requires buf.Length == 20
    modifies buf
    ensures 1 <= i <= 20
    ensures buf[i..] == if m > 0 then Digits(m) else ""
  {
    ghost var whole := if m > 0 then Digits(m) else "";
    if m > 0 {
      Int64Length(m);
    }
    ghost var start := 20 - |whole|;
    var rest: int := m;
    i := 20;
    while rest > 0
      invariant start <= i <= 20
      invariant Starts(whole, i - start, if rest > 0 then rest else 0)
      invariant forall k :: i <= k < 20 ==> buf[k] == whole[k - start]
      decreases rest
    {
      StartsStep(whole, i - start, rest);
      i := i - 1;
      buf[i] := DigitChar(rest % 10);
      rest := rest / 10;
    }
    assert i == start;
  }

  /** The printer itself; no index into the 20-byte buffer goes below zero. */
  method JsonNumber(n: int64) returns (s: string)
    ensures s == JsonText(n)
  {
    if n == 0 {
      return "0";
    }
    var buf := new char[20];
    var i := FillDigits(buf, if n < 0 then Negate(n) else n);
    if n < 0 {
      i := i - 1;
      ghost var digits := buf[i + 1..];
      buf[i] := '-';
      assert buf[i + 1..] == digits;
    }
    s := buf[i..];
  }
}
