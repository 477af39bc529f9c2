/**
 The rankings of token holders. Balances are stored as decimal strings, so the database ranks them by length
 and then by string, and across tokens by length less the token's decimals.
 */
module SortKeys {
  import opened Decimals

  /** The database's string order: by character, a proper prefix first. */
  predicate LexLess(s: string, t: string) {
    t != [] && (s == [] || s[0] < t[0] || (s[0] == t[0] && LexLess(s[1..], t[1..])))
  }

  /** What the two descending sort stages compare: a number, then the string. */
  predicate KeyLess(m: int, s: string, n: int, t: string) {
    m < n || (m == n && LexLess(s, t))
  }

  function Pow10(k: nat): (p: nat)
    ensures p > 0
  {
    if k == 0 then 1 else 10 * Pow10(k - 1)
  }

  // ---------------------------------------------------------------------------
  // Digit strings
  // ---------------------------------------------------------------------------

  predicate Digits(s: string) {
    forall i :: 0 <= i < |s| ==> '0' <= s[i] <= '9'
  }

  /** The number a digit string stands for, leading zeros or not. */
  function Value(s: string): (v: nat)
    requires Digits(s)
    ensures v < Pow10(|s|)
  {
    if s == [] then 0
    else 10 * Value(s[..|s| - 1]) + (s[|s| - 1] as int - '0' as int)
  }

  lemma ValueAppend(s: string, c: char)
    requires Digits(s) && '0' <= c <= '9'
    ensures Digits(s + [c]) && Value(s + [c]) == 10 * Value(s) + (c as int - '0' as int)
  {
    assert (s + [c])[..|s|] == s;
  }

  lemma {:induction false} DecimalValue(n: nat)
    ensures Digits(Decimal(n)) && Value(Decimal(n)) == n
  {
    DigitValue(n % 10);
    if n < 10 {
      ValueAppend([], Digit(n));
      assert Decimal(n) == [] + [Digit(n)];
    } else {
      DecimalValue(n / 10);
      ValueAppend(Decimal(n / 10), Digit(n % 10));
    }
  }

  lemma DigitValue(d: nat)
    requires d < 10
    ensures '0' <= Digit(d) <= '9' && Digit(d) as int - '0' as int == d
  {
  }

  /** No leading zeros: the length of a positive number's string bounds it from below. */
  lemma {:induction false} DecimalLowerBound(n: nat)
    requires n > 0
    ensures n >= Pow10(|Decimal(n)| - 1)
  {
    if n >= 10 {
      DecimalLowerBound(n / 10);
    }
  }

  lemma {:induction false} Pow10Grows(k: nat, l: nat)
    requires k <= l
    ensures Pow10(k) <= Pow10(l)
    decreases l
  {
    if k < l {
      Pow10Grows(k, l - 1);
    }
  }

  /** Among digit strings of one length, string order is numeric order. */
  lemma {:induction false} SameLengthOrder(s: string, t: string)
    requires Digits(s) && Digits(t) && |s| == |t|
    ensures LexLess(s, t) <==> Value(s) < Value(t)
    ensures s == t <==> Value(s) == Value(t)
  {
    if s != [] {
      var n := |s| - 1;
      SameLengthOrder(s[..n], t[..n]);
      LexAppend(s[..n], s[n], t[..n], t[n]);
      assert s == s[..n] + [s[n]] && t == t[..n] + [t[n]];
    }
  }

  /** The last character decides only between equal fronts. */
  lemma {:induction false} LexAppend(s: string, c: char, t: string, d: char)
    requires |s| == |t|
    ensures LexLess(s + [c], t + [d]) <==> LexLess(s, t) || (s == t && c < d)
  {
    if s != [] {
      LexAppend(s[1..], c, t[1..], d);
      assert (s + [c])[1..] == s[1..] + [c] && (t + [d])[1..] == t[1..] + [d];
      assert s == [s[0]] + s[1..] && t == [t[0]] + t[1..];
    }
  }

  // ---------------------------------------------------------------------------
  // Holders of one token
  // ---------------------------------------------------------------------------

  /** On canonical decimals the order by length and then by string is the numeric order. */
  lemma LengthThenStringIsNumeric(x: nat, y: nat)
    ensures KeyLess(|Decimal(x)|, Decimal(x), |Decimal(y)|, Decimal(y)) <==> x < y
  {
    DecimalValue(x);
    DecimalValue(y);
    if |Decimal(x)| == |Decimal(y)| {
      SameLengthOrder(Decimal(x), Decimal(y));
    } else if |Decimal(x)| < |Decimal(y)| {
      LongerIsLarger(x, y);
    } else {
      LongerIsLarger(y, x);
    }
  }

  lemma LongerIsLarger(x: nat, y: nat)
    requires |Decimal(x)| < |Decimal(y)|
    ensures x < y
  {
    DecimalValue(x);
    DecimalLowerBound(y);
    Pow10Grows(|Decimal(x)|, |Decimal(y)| - 1);
  }

  /** The string order alone is not: 10 sorts below 9. */
  lemma StringAloneIsNotNumeric()
    ensures LexLess(Decimal(10), Decimal(9))
  {
    assert Decimal(10) == "10" && Decimal(9) == "9";
  }

  // ---------------------------------------------------------------------------
  // The tokens of one holder
  // ---------------------------------------------------------------------------

  /** The sort number of a balance in a token with the given decimals. */
  function BalLen(s: string, decimals: nat): int {
    |s| - decimals + 18
  }

  /** x / 10^d < y / 10^e, cross-multiplied. */
  predicate WorthLess(x: nat, d: nat, y: nat, e: nat) {
    x * Pow10(e) < y * Pow10(d)
  }

  lemma {:induction false} Pow10Add(k: nat, l: nat)
    ensures Pow10(k + l) == Pow10(k) * Pow10(l)
  {
    if k > 0 {
      Pow10Add(k - 1, l);
      assert Pow10(k + l) == 10 * (Pow10(k - 1) * Pow10(l));
      assert Pow10(k) * Pow10(l) == 10 * (Pow10(k - 1) * Pow10(l));
    }
  }

  function Zeros(k: nat): (z: string)
    ensures |z| == k && Digits(z)
  {
    if k == 0 then [] else Zeros(k - 1) + ['0']
  }

  lemma {:induction false} ValueZeros(s: string, k: nat)
    requires Digits(s)
    ensures Digits(s + Zeros(k)) && Value(s + Zeros(k)) == Value(s) * Pow10(k)
  {
    if k == 0 {
      assert s + Zeros(0) == s;
    } else {
      ValueZeros(s, k - 1);
      var t := s + Zeros(k - 1);
      assert s + Zeros(k) == t + ['0'];
      ValueAppend(t, '0');
      TenTimes(Value(s), Pow10(k - 1));
    }
  }

  lemma TenTimes(a: nat, b: nat)
    ensures 10 * (a * b) == a * (10 * b)
  {
  }

  /** Trailing zeros push a string up only to a tie: below stays below, and above becomes above or equal. */
  lemma {:induction false} PaddingAndOrder(s: string, t: string, k: nat)
    requires Digits(s) && Digits(t) && |s| == |t| + k
    ensures LexLess(s, t) ==> LexLess(s, t + Zeros(k))
    ensures LexLess(t, s) ==> !LexLess(s, t + Zeros(k))
  {
    if t == [] {
      assert t + Zeros(k) == Zeros(k);
      NothingBelowZeros(s, k);
    } else {
      PaddingAndOrder(s[1..], t[1..], k);
      assert (t + Zeros(k))[1..] == t[1..] + Zeros(k);
    }
  }

  lemma {:induction false} NothingBelowZeros(s: string, k: nat)
    requires Digits(s) && |s| == k
    ensures !LexLess(s, Zeros(k))
  {
    ValueZeros([], k);
    assert [] + Zeros(k) == Zeros(k);
    SameLengthOrder(s, Zeros(k));
  }

  /** x / 10^d == y / 10^e, cross-multiplied. */
  predicate WorthSame(x: nat, d: nat, y: nat, e: nat) {
    x * Pow10(e) == y * Pow10(d)
  }

  /** The listing orders positive balances by worth; only between equal worths do the tokens' decimals decide. */
  lemma RankingIsByWorth(x: nat, d: nat, y: nat, e: nat)
    requires x > 0 && y > 0
    ensures KeyLess(BalLen(Decimal(x), d), Decimal(x), BalLen(Decimal(y), e), Decimal(y))
       <==> WorthLess(x, d, y, e) || (WorthSame(x, d, y, e) && d < e)
  {
    var s, t := Decimal(x), Decimal(y);
    if BalLen(s, d) < BalLen(t, e) {
      FewerWholeDigits(x, d, y, e);
    } else if BalLen(t, e) < BalLen(s, d) {
      FewerWholeDigits(y, e, x, d);
    } else if |s| >= |t| {
      SameWholeDigits(x, d, y, e);
    } else {
      SameWholeDigits(y, e, x, d);
    }
  }

  lemma FewerWholeDigits(x: nat, d: nat, y: nat, e: nat)
    requires x > 0 && y > 0 && |Decimal(x)| - d < |Decimal(y)| - e
    ensures WorthLess(x, d, y, e)
  {
    DecimalValue(x);
    DecimalLowerBound(y);
    var l, m := |Decimal(x)|, |Decimal(y)|;
    Pow10Grows(l + e, m - 1 + d);
    Pow10Add(l, e);
    Pow10Add(m - 1, d);
    Between(x, Pow10(l), Pow10(e), y, Pow10(m - 1), Pow10(d));
  }

  lemma Between(x: nat, a: nat, q: nat, y: nat, b: nat, p: nat)
    requires x < a && b <= y && q > 0 && a * q <= b * p
    ensures x * q < y * p
  {
    Factor(x, a, q);
    AtMost(b, y, p);
  }

  lemma AtMost(a: nat, b: nat, q: nat)
    requires a <= b
    ensures a * q <= b * q
  {
  }

  lemma Factor(a: nat, b: nat, q: nat)
    requires q > 0
    ensures a * q < b * q <==> a < b
  {
    if a < b {
      AtMost(a + 1, b, q);
      assert (a + 1) * q == a * q + q;
    } else {
      AtMost(b, a, q);
    }
  }

  /** With as many whole digits the strings decide, up to trailing zeros. */
  lemma SameWholeDigits(x: nat, d: nat, y: nat, e: nat)
    requires |Decimal(x)| - d == |Decimal(y)| - e && |Decimal(x)| >= |Decimal(y)|
    ensures LexLess(Decimal(x), Decimal(y)) <==> WorthLess(x, d, y, e)
    ensures LexLess(Decimal(y), Decimal(x)) <==> WorthLess(y, e, x, d) || (WorthSame(x, d, y, e) && e < d)
  {
    var s, t, k := Decimal(x), Decimal(y), |Decimal(x)| - |Decimal(y)|;
    DecimalValue(x);
    DecimalValue(y);
    ValueZeros(t, k);
    PaddingAndOrder(s, t, k);
    SameLengthOrder(s, t + Zeros(k));
    CommonFactor(x, y, k, e, d);
    Trichotomy(s, t);
    if k == 0 {
      assert t + Zeros(0) == t;
    }
  }

  lemma CommonFactor(x: nat, y: nat, k: nat, e: nat, d: nat)
    requires d == k + e
    ensures WorthLess(x, d, y, e) <==> x < y * Pow10(k)
    ensures WorthSame(x, d, y, e) <==> x == y * Pow10(k)
  {
    Pow10Add(k, e);
    Regroup(y, Pow10(k), Pow10(e));
    Factor(x, y * Pow10(k), Pow10(e));
    Factor(y * Pow10(k), x, Pow10(e));
  }

  lemma Regroup(a: nat, b: nat, c: nat)
    ensures a * (b * c) == a * b * c
  {
  }

  lemma {:induction false} Trichotomy(s: string, t: string)
    ensures LexLess(s, t) || LexLess(t, s) || s == t
  {
    if s != [] && t != [] {
      Trichotomy(s[1..], t[1..]);
      if s[0] == t[0] && s[1..] == t[1..] {
        assert s == [s[0]] + s[1..] && t == [t[0]] + t[1..];
      }
    }
  }
}
