/** Whole numbers as decimal text, written and read back. Text is bytes, one character a byte. */
module Digits {
  predicate IsDigit(c: char) {
    '0' <= c <= '9'
  }

  function DigitOf(n: nat): (c: char)
    requires n < 10
    ensures IsDigit(c) && ValueOf(c) == n
  {
    '0' + n as char
  }

  function ValueOf(c: char): nat
    requires IsDigit(c)
  {
    (c - '0') as nat
  }

  predicate AllDigits(s: string) {
    forall i :: 0 <= i < |s| ==> IsDigit(s[i])
  }

  function Decimal(n: nat): (s: string)
    ensures s != [] && AllDigits(s)
  {
    if n < 10 then [DigitOf(n)] else Decimal(n / 10) + [DigitOf(n % 10)]
  }

  function Parse(s: string): nat
    requires AllDigits(s)
  {
    if s == [] then 0 else Parse(s[..|s|-1]) * 10 + ValueOf(s[|s|-1])
  }

  lemma {:induction false} ParseDecimal(n: nat)
    ensures Parse(Decimal(n)) == n
  {
    if n >= 10 {
      ParseDecimal(n / 10);
      assert Decimal(n)[..|Decimal(n)|-1] == Decimal(n / 10);
    } else {
      assert Decimal(n)[..0] == [];
    }
  }

  function Pow10(k: nat): (p: nat)
    ensures p >= 1
  {
    if k == 0 then 1 else 10 * Pow10(k - 1)
  }

  lemma {:induction false} ParseBound(s: string)
    requires AllDigits(s)
    ensures Parse(s) < Pow10(|s|)
  {
    if s != [] { ParseBound(s[..|s|-1]); }
  }

  /** A number has at most `k` digits exactly when it is below the `k`-th power of ten. */
  lemma {:induction false} DecimalLength(n: nat, k: nat)
    requires k >= 1
    ensures |Decimal(n)| <= k <==> n < Pow10(k)
  {
    if n < 10 {
      assert Pow10(k) == 10 * Pow10(k - 1) >= 10;
    } else if k == 1 {
      assert Pow10(1) == 10 * Pow10(0) == 10;
    } else {
      DecimalLength(n / 10, k - 1);
      assert n < 10 * Pow10(k - 1) <==> n / 10 < Pow10(k - 1);
    }
  }

  function Zeros(k: nat): (s: string)
    ensures |s| == k && AllDigits(s)
  {
    if k == 0 then [] else Zeros(k - 1) + ['0']
  }

  /** Zero-padded to at least `k` digits. */
  function Padded(n: nat, k: nat): (s: string)
    ensures AllDigits(s) && |s| >= k && |s| >= |Decimal(n)|
  {
    if |Decimal(n)| >= k then Decimal(n) else Zeros(k - |Decimal(n)|) + Decimal(n)
  }

  lemma {:induction false} ParseZeros(k: nat, s: string)
    requires AllDigits(s)
    ensures AllDigits(Zeros(k) + s) && Parse(Zeros(k) + s) == Parse(s)
    decreases k + |s|
  {
    var t := Zeros(k) + s;
    if s == [] {
      assert t == Zeros(k);
      if k > 0 {
        ParseZeros(k - 1, []);
        assert Zeros(k - 1) + [] == Zeros(k - 1);
        assert Zeros(k)[..k-1] == Zeros(k - 1);
      }
    } else {
      ParseZeros(k, s[..|s|-1]);
      assert t[..|t|-1] == Zeros(k) + s[..|s|-1];
    }
  }

  lemma {:induction false} ParsePadded(n: nat, k: nat)
    ensures Parse(Padded(n, k)) == n
    ensures k >= 1 ==> (|Padded(n, k)| == k <==> n < Pow10(k))
  {
    ParseDecimal(n);
    if |Decimal(n)| < k { ParseZeros(k - |Decimal(n)|, Decimal(n)); }
    if k >= 1 { DecimalLength(n, k); }
  }

  // ----------------------------------------------------------------- reading

  /** `t` stands in `f` at `at`. */
  predicate StandsAt(f: string, at: nat, t: string) {
    at + |t| <= |f| && f[at..at+|t|] == t
  }

  /** How many digits stand at `at`. */
  function RunLength(f: string, at: nat): (n: nat)
    requires at <= |f|
    ensures at + n <= |f| && AllDigits(f[at..at+n])
    ensures at + n < |f| ==> !IsDigit(f[at+n])
    decreases |f| - at
  {
    if at < |f| && IsDigit(f[at]) then
      var n := RunLength(f, at + 1);
      assert f[at..at+n+1] == [f[at]] + f[at+1..at+1+n];
      n + 1
    else 0
  }

  /** The number at `at`, and where it ends. */
  function ReadNumber(f: string, at: nat): (nat, nat)
    requires at <= |f|
  {
    var n := RunLength(f, at);
    (Parse(f[at..at+n]), at + n)
  }

  lemma {:induction false} RunIs(f: string, at: nat, n: nat)
    requires at + n < |f| && AllDigits(f[at..at+n]) && !IsDigit(f[at+n])
    ensures RunLength(f, at) == n
    decreases n
  {
    if n > 0 {
      assert f[at] == f[at..at+n][0];
      assert f[at+1..at+n] == f[at..at+n][1..];
      RunIs(f, at + 1, n - 1);
    }
  }

  /** A number that something else follows is read back. */
  lemma {:induction false} ReadWritten(f: string, at: nat, n: nat)
    requires StandsAt(f, at, Decimal(n)) && at + |Decimal(n)| < |f| && !IsDigit(f[at+|Decimal(n)|])
    ensures ReadNumber(f, at) == (n, at + |Decimal(n)|)
  {
    RunIs(f, at, |Decimal(n)|);
    ParseDecimal(n);
  }

  lemma StandsJoin(f: string, at: nat, s: string, t: string)
    ensures StandsAt(f, at, s + t) <==> StandsAt(f, at, s) && StandsAt(f, at + |s|, t)
  {
    if at + |s + t| <= |f| {
      assert f[at..at+|s + t|] == f[at..at+|s|] + f[at+|s|..at+|s|+|t|];
      if StandsAt(f, at, s + t) {
        assert f[at..at+|s|] == (s + t)[..|s|];
        assert f[at+|s|..at+|s|+|t|] == (s + t)[|s|..];
      }
    }
  }
}
