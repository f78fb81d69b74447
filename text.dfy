/**
 * The string operations the reminder script relies on: `str.strip()` and
 * `str.split()` with no argument, and the decimal fields that `strptime`
 * reads and `strftime` writes.  Whitespace is the ASCII set that Python 2
 * uses for byte strings and for `\s` in a pattern compiled without
 * `re.UNICODE`.
 */
module Text {

  import opened Wrappers

  /** Whitespace as `str.strip()` and `str.split()` see it in a byte string. */
  predicate IsSpace(c: char) {
    c == ' ' || c == '\t' || c == '\n' || c == '\r' || c == '\U{000B}' || c == '\U{000C}'
  }

  predicate AllSpace(s: string) {
    forall i :: 0 <= i < |s| ==> IsSpace(s[i])
  }

  predicate NoSpace(s: string) {
    forall i :: 0 <= i < |s| ==> !IsSpace(s[i])
  }

  /** Length of the run of whitespace that starts `s`. */
  function LeadingSpace(s: string): (n: nat)
    ensures n <= |s|
    ensures AllSpace(s[..n])
    ensures n == |s| || !IsSpace(s[n])
  {
    if s != [] && IsSpace(s[0]) then
      assert s[1..][..LeadingSpace(s[1..])] == s[1..1 + LeadingSpace(s[1..])];
      1 + LeadingSpace(s[1..])
    else 0
  }

  /** Length of the run of whitespace that ends `s`. */
  function TrailingSpace(s: string): (n: nat)
    ensures n <= |s|
    ensures AllSpace(s[|s| - n..])
    ensures n == |s| || !IsSpace(s[|s| - n - 1])
  {
    if s != [] && IsSpace(s[|s| - 1]) then
      var m := TrailingSpace(s[..|s| - 1]);
      assert s[|s| - (1 + m)..] == s[..|s| - 1][|s| - 1 - m..] + [s[|s| - 1]];
      1 + m
    else 0
  }

  /** Length of the run of non-whitespace that starts `s`. */
  function TokenLength(s: string): (n: nat)
    ensures n <= |s|
    ensures NoSpace(s[..n])
    ensures n == |s| || IsSpace(s[n])
  {
    if s != [] && !IsSpace(s[0]) then
      assert s[1..][..TokenLength(s[1..])] == s[1..1 + TokenLength(s[1..])];
      1 + TokenLength(s[1..])
    else 0
  }

  /**
   * `s.strip()`: `s` is leading whitespace, then `r`, then trailing
   * whitespace, and `r` neither starts nor ends with whitespace.
   */
  function Strip(s: string): (r: string)
    ensures |r| + LeadingSpace(s) <= |s|
    ensures r == s[LeadingSpace(s)..LeadingSpace(s) + |r|]
    ensures AllSpace(s[LeadingSpace(s) + |r|..])
    ensures r == [] || (!IsSpace(r[0]) && !IsSpace(r[|r| - 1]))
  {
    var rest := s[LeadingSpace(s)..];
    rest[..|rest| - TrailingSpace(rest)]
  }

  /** Whitespace padding around a string that has none at its ends is what `strip()` removes. */
  lemma StripPadded(a: string, t: string, b: string)
    requires AllSpace(a) && AllSpace(b)
    requires t == [] || (!IsSpace(t[0]) && !IsSpace(t[|t| - 1]))
    ensures Strip(a + t + b) == t
  {
    var s := a + t + b;
    if t == [] {
      assert s == a + b;
      AllSpaceConcat(a, b);
      AllSpaceStripsToEmpty(s);
    } else {
      assert s == a + (t + b);
      LeadingSpaceOfPadded(a, t + b);
      assert s[|a|..] == t + b;
      TrailingSpaceOfPadded(t, b);
      assert (t + b)[..|t|] == t;
    }
  }

  lemma AllSpaceConcat(a: string, b: string)
    requires AllSpace(a) && AllSpace(b)
    ensures AllSpace(a + b)
  {
    assert forall i :: 0 <= i < |a| ==> (a + b)[i] == a[i];
    assert forall i :: |a| <= i < |a + b| ==> (a + b)[i] == b[i - |a|];
  }

  lemma {:induction false} TrailingSpaceOfPadded(u: string, b: string)
    requires AllSpace(b)
    requires u == [] || !IsSpace(u[|u| - 1])
    ensures TrailingSpace(u + b) == |b|
    decreases |b|
  {
    var s := u + b;
    if b != [] {
      var init := b[..|b| - 1];
      assert s[..|s| - 1] == u + init;
      assert s[|s| - 1] == b[|b| - 1];
      TrailingSpaceOfPadded(u, init);
    } else {
      assert s == u;
    }
  }

  lemma AllSpaceStripsToEmpty(s: string)
    requires AllSpace(s)
    ensures Strip(s) == []
  {
  }

  lemma LeadingSpaceOfPadded(a: string, u: string)
    requires AllSpace(a)
    requires u == [] || !IsSpace(u[0])
    ensures LeadingSpace(a + u) == |a|
  {
    var s := a + u;
    assert forall i :: 0 <= i < |a| ==> s[i] == a[i];
    assert u != [] ==> s[|a|] == u[0];
  }

  /**
   * `s.split()[0]`: the first maximal run of non-whitespace characters,
   * or None when `s` holds no such run (where Python raises IndexError).
   */
  function FirstToken(s: string): (r: Option<string>)
    ensures r.None? <==> AllSpace(s)
    ensures r.Some? ==>
      && r.value != []
      && NoSpace(r.value)
      && LeadingSpace(s) + |r.value| <= |s|
      && r.value == s[LeadingSpace(s)..LeadingSpace(s) + |r.value|]
      && (LeadingSpace(s) + |r.value| == |s| || IsSpace(s[LeadingSpace(s) + |r.value|]))
  {
    var rest := s[LeadingSpace(s)..];
    if rest == [] then
      assert s[..LeadingSpace(s)] == s;
      None
    else
      assert !AllSpace(s) by { assert !IsSpace(s[LeadingSpace(s)]); }
      Some(rest[..TokenLength(rest)])
  }

  /** A word at the start of a string, ended by whitespace or by the end, is what `split()[0]` gives. */
  lemma FirstTokenOfWord(w: string, rest: string)
    requires w != [] && NoSpace(w)
    requires rest == [] || IsSpace(rest[0])
    ensures FirstToken(w + rest) == Some(w)
  {
    assert (w + rest)[0] == w[0];
    TokenLengthOfWord(w, rest);
    assert (w + rest)[..|w|] == w;
  }

  lemma {:induction false} TokenLengthOfWord(w: string, rest: string)
    requires NoSpace(w)
    requires rest == [] || IsSpace(rest[0])
    ensures TokenLength(w + rest) == |w|
  {
    if w != [] {
      assert (w + rest)[0] == w[0];
      assert (w + rest)[1..] == w[1..] + rest;
      TokenLengthOfWord(w[1..], rest);
    } else {
      assert w + rest == rest;
    }
  }

  /** A token has no whitespace, so the `.strip()` applied after `split()[0]` leaves it alone. */
  lemma StripToken(t: string)
    requires NoSpace(t)
    ensures Strip(t) == t
  {
  }

  // ----- digits -----

  predicate IsDigit(c: char) {
    '0' <= c <= '9'
  }

  predicate AllDigits(s: string) {
    forall i :: 0 <= i < |s| ==> IsDigit(s[i])
  }

  /** Length of the run of decimal digits that starts `s`. */
  function DigitRun(s: string): (n: nat)
    ensures n <= |s|
    ensures AllDigits(s[..n])
    ensures n == |s| || !IsDigit(s[n])
  {
    if s != [] && IsDigit(s[0]) then
      assert s[1..][..DigitRun(s[1..])] == s[1..1 + DigitRun(s[1..])];
      1 + DigitRun(s[1..])
    else 0
  }

  /** The value of a string of decimal digits, most significant first. */
  function Decimal(s: string): (n: nat)
    requires AllDigits(s)
  {
    if s == [] then 0 else 10 * Decimal(s[..|s| - 1]) + (s[|s| - 1] as int - '0' as int)
  }

  function DigitChar(n: nat): (c: char)
    requires n < 10
    ensures IsDigit(c) && c as int - '0' as int == n
  {
    (n + '0' as int) as char
  }

  /** A number below 100 written with two digits, as `%02d` (and `%d`, `%I`, `%M` in strftime) do. */
  function Pad2(n: nat): (r: string)
    requires n < 100
    ensures |r| == 2 && AllDigits(r) && Decimal(r) == n
  {
    var r := [DigitChar(n / 10), DigitChar(n % 10)];
    assert r[..1] == [DigitChar(n / 10)] && r[..1][..0] == [];
    assert Decimal(r[..1]) == n / 10;
    r
  }

  /** A number below 10000 written with four digits, as `%Y` does for years 1 to 9999. */
  function Pad4(n: nat): (r: string)
    requires n < 10000
    ensures |r| == 4 && AllDigits(r) && Decimal(r) == n
  {
    var r := [DigitChar(n / 1000), DigitChar(n / 100 % 10), DigitChar(n / 10 % 10), DigitChar(n % 10)];
    assert r[..3][..2][..1][..0] == [];
    assert Decimal(r[..3][..2][..1]) == n / 1000;
    assert Decimal(r[..3][..2]) == n / 100;
    assert Decimal(r[..3]) == n / 10;
    r
  }

  /** Two distinct numbers below 100 have distinct two-digit forms. */
  lemma Pad2Injective(m: nat, n: nat)
    requires m < 100 && n < 100
    ensures Pad2(m) == Pad2(n) ==> m == n
  {
  }

  /** Reading back the digit run at the head of `digits + rest`, where `rest` starts with a non-digit. */
  lemma DigitRunOfConcat(digits: string, rest: string)
    requires AllDigits(digits)
    requires rest == [] || !IsDigit(rest[0])
    ensures DigitRun(digits + rest) == |digits|
    ensures (digits + rest)[..|digits|] == digits
  {
  }
}
