/** Byte strings as the C code sees them: sub-strings at an offset, C strings, decimal integers.
    A byte is a `char`, a buffer is a `string` and a pointer into a buffer is an offset. */
module Text {

  // ----- sub-strings at an offset -----

  /** `w` occurs in `t` at offset `p`. */
  predicate Has(t: string, p: nat, w: string) {
    p + |w| <= |t| && t[p..p + |w|] == w
  }

  lemma HasSplit(t: string, p: nat, a: string, b: string)
    ensures Has(t, p, a + b) <==> Has(t, p, a) && Has(t, p + |a|, b)
  {
    if p + |a| + |b| <= |t| {
      assert t[p..p + |a + b|] == t[p..p + |a|] + t[p + |a|..p + |a| + |b|];
      if Has(t, p, a + b) {
        assert t[p..p + |a|] == (a + b)[..|a|] == a;
        assert t[p + |a|..p + |a| + |b|] == (a + b)[|a|..] == b;
      }
    }
  }

  lemma HasAt(t: string, p: nat, w: string, i: nat)
    requires Has(t, p, w) && i < |w|
    ensures t[p + i] == w[i]
  {
    assert t[p..p + |w|][i] == w[i];
  }

  lemma HasSelf(pre: string, w: string, post: string)
    ensures Has(pre + w + post, |pre|, w)
  {
    assert (pre + w + post)[|pre|..|pre| + |w|] == w;
  }

  // ----- C strings -----

  predicate NulFree(s: string) {
    forall i :: 0 <= i < |s| ==> s[i] != '\0'
  }

  /** What `strlen` and `%s` see of a buffer: the bytes before its first NUL. */
  function CStr(s: string): (r: string)
    ensures r <= s && NulFree(r)
    ensures |r| < |s| ==> s[|r|] == '\0'
    ensures NulFree(s) ==> r == s
  {
    if s == [] || s[0] == '\0' then []
    else
      var r := CStr(s[1..]);
      assert |r| < |s[1..]| ==> s[1..][|r|] == s[1 + |r|];
      assert NulFree(s) ==> NulFree(s[1..]);
      [s[0]] + r
  }

  lemma NulFreeConcat(a: string, b: string)
    ensures NulFree(a + b) <==> NulFree(a) && NulFree(b)
  {
    if NulFree(a + b) {
      forall i | 0 <= i < |a| ensures a[i] != '\0' { assert (a + b)[i] == a[i]; }
      forall i | 0 <= i < |b| ensures b[i] != '\0' { assert (a + b)[|a| + i] == b[i]; }
    }
  }

  /** A copy of the first `n` bytes at most, the way the fixed-size scratch buffers take them. */
  function Clip(s: string, n: nat): (r: string)
    ensures r <= s && |r| <= n
    ensures |s| <= n ==> r == s
    ensures n < |s| ==> |r| == n
  {
    if |s| <= n then s else s[..n]
  }

  /** `strstr(hay, needle) != NULL`. */
  predicate Contains(hay: string, needle: string) {
    exists p :: 0 <= p <= |hay| && Has(hay, p, needle)
  }

  // ----- decimal integers: `%lld` and `strtoll(s, NULL, 10)` -----

  const LLONG_MAX := 0x7FFF_FFFF_FFFF_FFFF
  const LLONG_MIN := -0x8000_0000_0000_0000

  predicate IsDigit(c: char) { '0' <= c <= '9' }

  predicate IsSpace(c: char) { c == ' ' || 9 <= c as int <= 13 }

  function Digits(n: nat): (s: string)
    ensures |s| > 0 && forall i :: 0 <= i < |s| ==> IsDigit(s[i])
  {
    if n < 10 then [('0' as int + n) as char] else Digits(n / 10) + [('0' as int + n % 10) as char]
  }

  /** `%lld`. */
  function Dec(n: int): (s: string)
    ensures |s| > 0 && (s[0] == '-' || IsDigit(s[0])) && forall i :: 0 < i < |s| ==> IsDigit(s[i])
  {
    if n < 0 then "-" + Digits(-n) else Digits(n)
  }

  /** The number read from the leading digits of `s`, continuing from `acc`. */
  function Accum(s: string, acc: nat): nat {
    if s == [] || !IsDigit(s[0]) then acc else Accum(s[1..], acc * 10 + (s[0] as int - '0' as int))
  }

  function SkipSpaces(s: string): string {
    if s != [] && IsSpace(s[0]) then SkipSpaces(s[1..]) else s
  }

  /** `strtoll(s, NULL, 10)`: leading spaces, a sign, digits, saturating at the 64-bit limits. */
  function Strtoll(s: string): (n: int)
    ensures LLONG_MIN <= n <= LLONG_MAX
  {
    var u := SkipSpaces(s);
    if u != [] && u[0] == '-' then
      var v := 0 - Accum(u[1..], 0);
      if v < LLONG_MIN then LLONG_MIN else v
    else
      var v := Accum(if u != [] && u[0] == '+' then u[1..] else u, 0);
      if v > LLONG_MAX then LLONG_MAX else v
  }

  lemma {:induction false} AccumSnoc(a: string, d: char, acc: nat)
    requires forall i :: 0 <= i < |a| ==> IsDigit(a[i])
    requires IsDigit(d)
    ensures Accum(a + [d], acc) == Accum(a, acc) * 10 + (d as int - '0' as int)
  {
    if a == [] {
      assert Accum([d], acc) == Accum([d][1..], acc * 10 + (d as int - '0' as int));
    } else {
      assert (a + [d])[1..] == a[1..] + [d];
      AccumSnoc(a[1..], d, acc * 10 + (a[0] as int - '0' as int));
    }
  }

  lemma {:induction false} AccumDigits(n: nat)
    ensures Accum(Digits(n), 0) == n
  {
    var d := ('0' as int + n % 10) as char;
    if n < 10 {
      assert Accum([d], 0) == Accum([d][1..], n);
    } else {
      AccumDigits(n / 10);
      AccumSnoc(Digits(n / 10), d, 0);
    }
  }

  // ----- what the digits mean -----

  predicate AllDigits(w: string) { forall i :: 0 <= i < |w| ==> '0' <= w[i] <= '9' }

  /** The number a row of decimal digits stands for: ten times what is in front of the last, and it. */
  function DecValue(w: string): nat
    requires AllDigits(w)
  {
    if w == "" then 0 else DecValue(w[..|w| - 1]) * 10 + (w[|w| - 1] as int - '0' as int)
  }

  function Clamped(n: int): int {
    if n < -9_223_372_036_854_775_808 then -9_223_372_036_854_775_808
    else if n > 9_223_372_036_854_775_807 then 9_223_372_036_854_775_807 else n
  }

  lemma {:induction false} DigitsValue(n: nat)
    ensures AllDigits(Digits(n)) && DecValue(Digits(n)) == n && (Digits(n)[0] == '0' ==> n == 0)
  {
    var w := Digits(n);
    if n < 10 {
      assert w[..|w| - 1] == "";
    } else {
      DigitsValue(n / 10);
      assert w[..|w| - 1] == Digits(n / 10);
    }
  }

  lemma {:induction false} AccumValue(w: string, rest: string)
    requires AllDigits(w) && (rest != "" ==> !('0' <= rest[0] <= '9'))
    ensures Accum(w + rest, 0) == DecValue(w)
    decreases |w|
  {
    AccumStops(w, rest, 0);
    if w != "" {
      var front := w[..|w| - 1];
      assert w == front + [w[|w| - 1]];
      AccumValue(front, "");
      assert front + "" == front;
      AccumSnoc(front, w[|w| - 1], 0);
    }
  }

  lemma {:induction false} AccumStops(w: string, rest: string, acc: nat)
    requires AllDigits(w) && (rest != "" ==> !('0' <= rest[0] <= '9'))
    ensures Accum(w + rest, acc) == Accum(w, acc)
    decreases |w|
  {
    if w == "" {
      assert w + rest == rest;
    } else {
      assert (w + rest)[1..] == w[1..] + rest;
      AccumStops(w[1..], rest, acc * 10 + (w[0] as int - '0' as int));
    }
  }

  lemma {:induction false} SpacesSkipped(spaces: string, rest: string)
    requires forall i :: 0 <= i < |spaces| ==> spaces[i] == ' ' || 9 <= spaces[i] as int <= 13
    requires rest != "" ==> rest[0] != ' ' && !(9 <= rest[0] as int <= 13)
    ensures SkipSpaces(spaces + rest) == rest
    decreases |spaces|
  {
    if spaces == "" {
      assert spaces + rest == rest;
    } else {
      assert (spaces + rest)[1..] == spaces[1..] + rest;
      SpacesSkipped(spaces[1..], rest);
    }
  }

  /** `strtoll` on any text that begins like an integer: white space, a sign or none, digits, and
      anything but a digit behind them. Numbers beyond 64 bits give the limits. */
  lemma StrtollReads(spaces: string, sign: string, w: string, rest: string)
    requires forall i :: 0 <= i < |spaces| ==> spaces[i] == ' ' || 9 <= spaces[i] as int <= 13
    requires (sign == "" || sign == "-" || sign == "+") && w != "" && AllDigits(w)
    requires rest != "" ==> !('0' <= rest[0] <= '9')
    ensures var v: int := DecValue(w); Strtoll(spaces + sign + w + rest) == Clamped(if sign == "-" then -v else v)
  {
    hide Accum, DecValue, SkipSpaces;
    var u := sign + w + rest;
    assert spaces + sign + w + rest == spaces + u;
    assert '0' <= w[0] <= '9' && u[0] == if sign == "" then w[0] else sign[0];
    SpacesSkipped(spaces, u);
    AccumValue(w, rest);
    assert (if sign == "" then u else u[1..]) == w + rest;
  }

  /** What is printed is read back, whatever follows it; more than 64 bits give the limits. */
  lemma DecimalReads(n: int, rest: string)
    requires rest != "" ==> !('0' <= rest[0] <= '9')
    ensures Strtoll(Dec(n) + rest) == Clamped(n)
  {
    hide Strtoll, Digits, DecValue;
    var sign, w := if n < 0 then "-" else "", Digits(if n < 0 then -n else n);
    DigitsValue(if n < 0 then -n else n);
    StrtollReads("", sign, w, rest);
    assert "" + sign + w + rest == Dec(n) + rest;
  }

  /** A text without a number counts as zero. */
  lemma StrtollNone(spaces: string, sign: string, rest: string)
    requires forall i :: 0 <= i < |spaces| ==> spaces[i] == ' ' || 9 <= spaces[i] as int <= 13
    requires sign == "-" || sign == "+"
             || (sign == "" && (rest != "" ==> rest[0] != ' ' && !(9 <= rest[0] as int <= 13) && rest[0] != '-' && rest[0] != '+'))
    requires rest != "" ==> !('0' <= rest[0] <= '9')
    ensures Strtoll(spaces + sign + rest) == 0
  {
    var u := sign + rest;
    assert spaces + sign + rest == spaces + u;
    SpacesSkipped(spaces, u);
    if sign != "" { assert u[1..] == rest; } else { assert u == rest; }
  }

  /** Every 64-bit integer survives printing and reading back. */
  lemma DecimalRoundTrip(n: int)
    requires LLONG_MIN <= n <= LLONG_MAX
    ensures Strtoll(Dec(n)) == n
  {
    if n < 0 {
      AccumDigits(-n);
      assert Dec(n)[1..] == Digits(-n);
    } else {
      AccumDigits(n);
    }
  }

  function Pow10(k: nat): nat { if k == 0 then 1 else 10 * Pow10(k - 1) }

  lemma {:induction false} DigitsLength(n: nat, k: nat)
    requires 0 < k && n < Pow10(k)
    ensures |Digits(n)| <= k
  {
    if n >= 10 {
      assert Pow10(k) == 10 * Pow10(k - 1);
      DigitsLength(n / 10, k - 1);
    }
  }

  /** A 64-bit integer prints in at most 20 characters, so no scratch buffer clips it. */
  lemma DecimalLength(n: int)
    requires LLONG_MIN <= n <= LLONG_MAX
    ensures |Dec(n)| <= 20
  {
    assert Pow10(4) == 10_000 && Pow10(8) == 10_000 * Pow10(4) && Pow10(12) == 10_000 * Pow10(8);
    assert Pow10(16) == 10_000 * Pow10(12) && Pow10(19) == 1_000 * Pow10(16);
    DigitsLength(if n < 0 then -n else n, 19);
  }
}
