/** Go strings as the reconcilers use them: byte order, decimal rendering and
    decimal parsing. */
module Text {

  /** Go's `<` on strings: lexicographic, a proper prefix coming first. */
  predicate Less(a: string, b: string) {
    if b == "" then false
    else if a == "" then true
    else a[0] < b[0] || (a[0] == b[0] && Less(a[1..], b[1..]))
  }

  lemma LessIrreflexive(a: string)
    ensures !Less(a, a)
  {}

  lemma {:induction false} LessTransitive(a: string, b: string, c: string)
    requires Less(a, b) && Less(b, c)
    ensures Less(a, c)
  {
    if a != "" && a[0] == b[0] && b[0] == c[0] {
      LessTransitive(a[1..], b[1..], c[1..]);
    }
  }

  lemma {:induction false} LessTotal(a: string, b: string)
    ensures a == b || Less(a, b) || Less(b, a)
  {
    if a != "" && b != "" && a[0] == b[0] {
      LessTotal(a[1..], b[1..]);
      assert a == [a[0]] + a[1..] && b == [b[0]] + b[1..];
    }
  }

  predicate IsDigit(c: char) {
    '0' <= c <= '9'
  }

  function Digit(n: nat): char
    requires n < 10
  {
    ('0' as int + n) as char
  }

  /** strconv.Itoa, and fmt's %d, on a non-negative integer. */
  function Itoa(n: nat): (s: string)
    ensures |s| > 0
    ensures forall i :: 0 <= i < |s| ==> IsDigit(s[i])
  {
    if n < 10 then [Digit(n)] else Itoa(n / 10) + [Digit(n % 10)]
  }

  /** The value a string of digits denotes, leading zeros included. */
  function Decimal(s: string): nat
    requires forall i :: 0 <= i < |s| ==> IsDigit(s[i])
  {
    if s == "" then 0
    else
      assert IsDigit(s[|s| - 1]);
      10 * Decimal(s[..|s| - 1]) + (s[|s| - 1] as int - '0' as int)
  }

  lemma {:induction false} DecimalItoa(n: nat)
    ensures Decimal(Itoa(n)) == n
  {
    if n >= 10 {
      DecimalItoa(n / 10);
      assert Itoa(n)[..|Itoa(n)| - 1] == Itoa(n / 10);
    } else {
      assert Itoa(n)[..0] == "";
    }
  }

  lemma ItoaInjective(m: nat, n: nat)
    requires Itoa(m) == Itoa(n)
    ensures m == n
  {
    DecimalItoa(m);
    DecimalItoa(n);
  }

  function Pow10(k: nat): (p: nat)
    ensures p > 0
  {
    if k == 0 then 1 else 10 * Pow10(k - 1)
  }

  /** A number has at most k digits exactly when it is below 10^k. */
  lemma {:induction false} ItoaLength(n: nat, k: nat)
    requires k > 0
    ensures |Itoa(n)| <= k <==> n < Pow10(k)
  {
    if k > 1 {
      if n >= 10 {
        ItoaLength(n / 10, k - 1);
      } else {
        assert Pow10(k) == 10 * Pow10(k - 1);
      }
    }
  }

  const MAX_INT: nat := 0x7fff_ffff_ffff_ffff

  lemma MaxIntDigits()
    ensures Pow10(18) <= MAX_INT < Pow10(19)
  {
    assert Pow10(6) == 1_000_000;
    assert Pow10(12) == 1_000_000_000_000;
    assert Pow10(18) == 1_000_000_000_000_000_000;
  }

  predicate IsSigned(s: string) {
    |s| > 0 && (s[0] == '-' || s[0] == '+')
  }

  function Unsigned(s: string): string {
    if IsSigned(s) then s[1..] else s
  }

  /** Whether strconv.Atoi accepts the string: an optional sign, at least one
      digit, and a value that fits a 64-bit int. */
  predicate IsAtoi(s: string) {
    var negative := |s| > 0 && s[0] == '-';
    var digits := Unsigned(s);
    && |digits| > 0
    && (forall i :: 0 <= i < |digits| ==> IsDigit(digits[i]))
    && Decimal(digits) <= if negative then MAX_INT + 1 else MAX_INT
  }

  /** A sign is only read at the front. */
  lemma DigitsFollow(s: string)
    requires IsAtoi(s)
    ensures forall k :: 0 < k < |s| ==> IsDigit(s[k])
  {
    forall k | 0 < k < |s| ensures IsDigit(s[k]) {
      assert s[k] == Unsigned(s)[if IsSigned(s) then k - 1 else k];
    }
  }

  lemma ItoaIsAtoi(n: nat)
    requires n <= MAX_INT
    ensures IsAtoi(Itoa(n))
  {
    assert IsDigit(Itoa(n)[0]);
    DecimalItoa(n);
  }

  predicate NoDash(s: string) {
    forall i :: 0 <= i < |s| ==> s[i] != '-'
  }

  /** Two strings with dashless last parts split at their last dash alike. */
  lemma LastDashSplits(a: string, d: string, b: string, e: string)
    requires a + "-" + d == b + "-" + e && NoDash(d) && NoDash(e)
    ensures a == b && d == e
  {
    var s, t := a + "-" + d, b + "-" + e;
    assert s[|a|] == '-' && t[|b|] == '-';
    assert |a| == |b|;
    assert s[..|a|] == a && t[..|b|] == b && s[|a| + 1..] == d && t[|b| + 1..] == e;
  }

  lemma PrefixesOfOne(m: string, n: string, name: string)
    requires m <= name && n <= name
    ensures m <= n || n <= m
  {
    assert m == name[..|m|] && n == name[..|n|];
    if |m| <= |n| { assert n[..|m|] == m; } else { assert m[..|n|] == n; }
  }

  /** Of two names with this ending, whether one begins the other. Both clouds mark
      what a cluster owns in this way. */
  lemma MarkBegins(c: string, d: string)
    ensures d + "-bgp-" <= c + "-bgp-" <==> c == d || c == d + "-bgp" || d + "-bgp-" <= c
  {
    var m, n := c + "-bgp-", d + "-bgp-";
    if c == d + "-bgp" { assert m == n + "bgp-"; }
    if n <= c { assert m[..|n|] == c[..|n|]; }
    if n <= m {
      assert m[|c|] == '-' && m[|c| + 1] == 'b' && m[|c| + 2] == 'g' && m[|c| + 3] == 'p';
      assert n[|d|] == '-' && n[|d| + 1] == 'b' && n[|d| + 2] == 'g' && n[|d| + 3] == 'p' && n[|d| + 4] == '-';
      assert m[|d|..|d| + 5] == n[|d|..];
      assert d == m[..|d|] == c[..|d|];
      assert |c| == |d| || |c| >= |d| + 4;
      if |c| == |d| + 4 {
        assert c == m[..|d| + 4] == n[..|d| + 4];
      }
    }
  }

  /** strings.Join. */
  function Join(parts: seq<string>, sep: string): string {
    if parts == [] then ""
    else if |parts| == 1 then parts[0]
    else parts[0] + sep + Join(parts[1..], sep)
  }
}
