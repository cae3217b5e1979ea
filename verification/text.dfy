/**
  String helpers the backend relies on through JavaScript built-ins:
  whitespace trimming (String.prototype.trim, and the `trim` sanitiser and
  schema option built on it), decimal rendering of a non-negative integer
  (Number.prototype.toString), String.prototype.slice with a negative start,
  and String.prototype.padStart.
 */
module Text {

  /** The characters JavaScript's `trim` removes: the WhiteSpace and
      LineTerminator code points of the language standard. */
  predicate IsSpace(c: char) {
    || c == ' ' || c == '\t' || c == '\n' || c == '\r' || c == '\U{000B}' || c == '\U{000C}'
    || c == '\U{00A0}' || c == '\U{1680}' || ('\U{2000}' <= c <= '\U{200A}')
    || c == '\U{2028}' || c == '\U{2029}' || c == '\U{202F}' || c == '\U{205F}'
    || c == '\U{3000}' || c == '\U{FEFF}'
  }

  /** The index of the first character at or after `i` that is not white space, or `|s|`. */
  function SkipLeading(s: string, i: nat): (j: nat)
    requires i <= |s|
    ensures i <= j <= |s|
    decreases |s| - i
  {
    if i < |s| && IsSpace(s[i]) then SkipLeading(s, i + 1) else i
  }

  /** Where `s[lo..hi]` ends once its trailing white space is dropped. */
  function SkipTrailing(s: string, lo: nat, hi: nat): (j: nat)
    requires lo <= hi <= |s|
    ensures lo <= j <= hi
    decreases hi
  {
    if lo < hi && IsSpace(s[hi - 1]) then SkipTrailing(s, lo, hi - 1) else hi
  }

  /** JavaScript's `String.prototype.trim`: leading and trailing white space removed. */
  function Trim(s: string): (r: string)
    ensures |r| <= |s|
  {
    var a := SkipLeading(s, 0);
    s[a..SkipTrailing(s, a, |s|)]
  }

  lemma {:induction false} SkipLeadingSpaces(s: string, i: nat)
    requires i <= |s|
    ensures forall k :: i <= k < SkipLeading(s, i) ==> IsSpace(s[k])
    ensures SkipLeading(s, i) < |s| ==> !IsSpace(s[SkipLeading(s, i)])
    decreases |s| - i
  {
    if i < |s| && IsSpace(s[i]) {
      SkipLeadingSpaces(s, i + 1);
    }
  }

  lemma {:induction false} SkipTrailingSpaces(s: string, lo: nat, hi: nat)
    requires lo <= hi <= |s|
    ensures forall k :: SkipTrailing(s, lo, hi) <= k < hi ==> IsSpace(s[k])
    ensures SkipTrailing(s, lo, hi) > lo ==> !IsSpace(s[SkipTrailing(s, lo, hi) - 1])
    ensures lo < hi && !IsSpace(s[lo]) ==> SkipTrailing(s, lo, hi) > lo
    decreases hi
  {
    if lo < hi && IsSpace(s[hi - 1]) {
      SkipTrailingSpaces(s, lo, hi - 1);
    }
  }

  /** What trimming leaves: a slice of `s` with only white space cut off either
      side, neither end of which is white space. */
  lemma TrimSlice(s: string)
    ensures var a := SkipLeading(s, 0);
            var b := SkipTrailing(s, a, |s|);
            && Trim(s) == s[a..b]
            && (forall k :: 0 <= k < a ==> IsSpace(s[k]))
            && (forall k :: b <= k < |s| ==> IsSpace(s[k]))
            && (a < b ==> !IsSpace(s[a]) && !IsSpace(s[b - 1]))
  {
    var a := SkipLeading(s, 0);
    SkipLeadingSpaces(s, 0);
    SkipTrailingSpaces(s, a, |s|);
  }

  /** The check `trim().isLength({ min: 1 })`, and Mongoose's `required` on a
      trimmed string: some character is not white space. */
  predicate NonBlank(s: string) {
    VisibleFrom(s, 0)
  }

  /** Some character at index `i` or later is not white space. */
  predicate VisibleFrom(s: string, i: nat)
    decreases |s| - i
  {
    i < |s| && (!IsSpace(s[i]) || VisibleFrom(s, i + 1))
  }

  lemma {:induction false} VisibleFromSkip(s: string, i: nat)
    requires i <= |s|
    ensures VisibleFrom(s, i) <==> SkipLeading(s, i) < |s|
    decreases |s| - i
  {
    if i < |s| && IsSpace(s[i]) {
      VisibleFromSkip(s, i + 1);
    }
  }

  /** The scan agrees with trimming: a string is non-blank exactly when trimming leaves something. */
  lemma NonBlankIff(s: string)
    ensures NonBlank(s) <==> Trim(s) != []
  {
    var a := SkipLeading(s, 0);
    VisibleFromSkip(s, 0);
    SkipLeadingSpaces(s, 0);
    SkipTrailingSpaces(s, a, |s|);
  }

  /** Trimming twice is trimming once, so the validator's `trim()` and the schema's `trim` agree. */
  lemma TrimIdempotent(s: string)
    ensures Trim(Trim(s)) == Trim(s)
  {
    var r := Trim(s);
    var a := SkipLeading(s, 0);
    var b := SkipTrailing(s, a, |s|);
    SkipLeadingSpaces(s, 0);
    SkipTrailingSpaces(s, a, |s|);
    if r != [] {
      assert r[0] == s[a] && r[|r| - 1] == s[b - 1];
      assert SkipLeading(r, 0) == 0;
      assert SkipTrailing(r, 0, |r|) == |r|;
    }
  }

  // ---------------------------------------------------------------- digits

  predicate IsDigit(c: char) {
    '0' <= c <= '9'
  }

  predicate AllDigits(s: string) {
    forall i :: 0 <= i < |s| ==> IsDigit(s[i])
  }

  function DigitValue(c: char): nat
    requires IsDigit(c)
  {
    (c as int) - ('0' as int)
  }

  function Digit(d: nat): (c: char)
    requires d < 10
    ensures IsDigit(c) && DigitValue(c) == d
  {
    (('0' as int) + d) as char
  }

  function Pow10(k: nat): (p: nat)
    ensures p >= 1
  {
    if k == 0 then 1 else 10 * Pow10(k - 1)
  }

  /** The number a string of decimal digits denotes (leading zeros allowed). */
  function DecimalValue(s: string): nat
    requires AllDigits(s)
  {
    if s == [] then 0 else 10 * DecimalValue(s[..|s| - 1]) + DigitValue(s[|s| - 1])
  }

  /** `n.toString()` for a non-negative integer `n`. */
  function DecimalString(n: nat): (r: string)
    ensures |r| >= 1 && AllDigits(r)
    ensures |r| > 1 ==> r[0] != '0'
  {
    if n < 10 then [Digit(n)] else DecimalString(n / 10) + [Digit(n % 10)]
  }

  /** Reading back a rendered number gives the number. */
  lemma {:induction false} DecimalRoundTrip(n: nat)
    ensures DecimalValue(DecimalString(n)) == n
  {
    if n >= 10 {
      var s := DecimalString(n);
      assert s[..|s| - 1] == DecimalString(n / 10);
      DecimalRoundTrip(n / 10);
    }
  }

  /** `k` digits denote less than 10^k. */
  lemma {:induction false} DecimalValueBound(s: string)
    requires AllDigits(s)
    ensures DecimalValue(s) < Pow10(|s|)
  {
    if s != [] {
      DecimalValueBound(s[..|s| - 1]);
    }
  }

  /** The rendering of `n` has more than `k` digits exactly when `n >= 10^k`. */
  lemma {:induction false} DecimalStringLength(n: nat, k: nat)
    requires k >= 1 || n >= 1
    ensures |DecimalString(n)| > k <==> n >= Pow10(k)
  {
    if n < 10 {
      assert |DecimalString(n)| == 1;
      if k > 0 {
        PowMonotone(1, k);
        assert Pow10(1) == 10;
      }
    } else if k > 0 {
      DecimalStringLength(n / 10, k - 1);
    }
  }

  lemma {:induction false} PowMonotone(j: nat, k: nat)
    requires j <= k
    ensures Pow10(j) <= Pow10(k)
  {
    if j < k {
      PowMonotone(j, k - 1);
    }
  }

  /** Splitting a digit string into a head and its last `k` digits. */
  lemma {:induction false} DecimalSplit(s: string, k: nat)
    requires AllDigits(s) && k <= |s|
    ensures DecimalValue(s) == DecimalValue(s[..|s| - k]) * Pow10(k) + DecimalValue(s[|s| - k..])
  {
    if k == 0 {
      assert s[..|s|] == s;
      assert s[|s|..] == [];
    } else {
      var t := s[..|s| - 1];
      DecimalSplit(t, k - 1);
      assert t[..|t| - (k - 1)] == s[..|s| - k];
      var u := s[|s| - k..];
      assert u[..|u| - 1] == t[|t| - (k - 1)..];
      assert u[|u| - 1] == s[|s| - 1];
      var a := DecimalValue(s[..|s| - k]);
      var b := DecimalValue(t[|t| - (k - 1)..]);
      var d := DigitValue(s[|s| - 1]);
      var p := Pow10(k - 1);
      assert DecimalValue(s) == 10 * DecimalValue(t) + d;
      assert DecimalValue(u) == 10 * b + d;
      assert Pow10(k) == 10 * p;
      Distribute(a, p, b, d);
      assert DecimalValue(t) == a * p + b;
    }
  }

  lemma Distribute(a: int, p: int, b: int, d: int)
    ensures 10 * (a * p + b) + d == a * (10 * p) + (10 * b + d)
  {
  }

  lemma MulAtLeast(c: int, m: int)
    requires c >= 1 && m > 0
    ensures c * m >= m
  {
  }

  /** The only multiple of `m` strictly between -m and m is zero. */
  lemma SmallMultiple(c: int, m: int)
    requires m > 0 && -m < c * m < m
    ensures c == 0
  {
    if c >= 1 {
      MulAtLeast(c, m);
    } else if c <= -1 {
      MulAtLeast(-c, m);
    }
  }

  /** A value written as a multiple of `m` plus a remainder below `m` leaves that remainder. */
  lemma ModOfMultiplePlus(x: int, a: nat, m: nat, b: nat)
    requires 0 <= b < m && x == a * m + b
    ensures x % m == b
  {
    var q := x / m;
    var r := x % m;
    assert x == q * m + r;
    assert (a - q) * m == r - b by {
      assert (a - q) * m == a * m - q * m;
    }
    SmallMultiple(a - q, m);
  }

  /** The last `k` digits of a digit string denote its value modulo 10^k. */
  lemma DecimalSuffix(s: string, k: nat)
    requires AllDigits(s) && k <= |s|
    ensures DecimalValue(s[|s| - k..]) == DecimalValue(s) % Pow10(k)
  {
    var tail := s[|s| - k..];
    assert |tail| == k;
    DecimalSplit(s, k);
    DecimalValueBound(tail);
    ModOfMultiplePlus(DecimalValue(s), DecimalValue(s[..|s| - k]), Pow10(k), DecimalValue(tail));
  }

  // ------------------------------------------------- slice and padStart

  /** `s.slice(-k)` for k >= 1: the last `k` characters, or all of `s` when it is shorter. */
  function SliceLast(s: string, k: nat): (r: string)
    ensures |r| == if |s| >= k then k else |s|
    ensures r == s[|s| - |r|..]
  {
    if |s| >= k then s[|s| - k..] else s
  }

  /** `s.padStart(width, fill)`. */
  function PadStart(s: string, width: nat, fill: char): (r: string)
    ensures |r| == if |s| >= width then |s| else width
    ensures r[|r| - |s|..] == s
    ensures forall i :: 0 <= i < |r| - |s| ==> r[i] == fill
  {
    if |s| >= width then s else seq(width - |s|, _ => fill) + s
  }

  /** Padding a digit string with zeros keeps its value. */
  lemma {:induction false} ZeroPadValue(s: string, width: nat)
    requires AllDigits(s)
    ensures AllDigits(PadStart(s, width, '0'))
    ensures DecimalValue(PadStart(s, width, '0')) == DecimalValue(s)
  {
    var p := PadStart(s, width, '0');
    assert AllDigits(p) by {
      forall i | 0 <= i < |p|
        ensures IsDigit(p[i])
      {
        if i >= |p| - |s| {
          assert p[i] == p[|p| - |s|..][i - (|p| - |s|)];
        }
      }
    }
    var z := |p| - |s|;
    DecimalSplit(p, |s|);
    assert p[z..] == s;
    assert DecimalValue(p[..z]) == 0 by {
      ZerosValue(p[..z]);
    }
  }

  lemma {:induction false} ZerosValue(z: string)
    requires forall i :: 0 <= i < |z| ==> z[i] == '0'
    ensures AllDigits(z) && DecimalValue(z) == 0
  {
    if z != [] {
      ZerosValue(z[..|z| - 1]);
    }
  }
}
