/** Strings: decimal numerals, fixed-width fields, splitting on a separator and
    the lexicographic order Python and JavaScript use to compare strings. */
module Text {

  function Digit(d: nat): char
    requires d < 10
  {
    (48 + d) as char
  }

  predicate IsDigit(c: char) {
    '0' <= c <= '9'
  }

  predicate AllDigits(s: string) {
    forall i | 0 <= i < |s| :: IsDigit(s[i])
  }

  /** `str(n)` for a non-negative integer. */
  function Decimal(n: nat): (s: string)
    ensures s != [] && AllDigits(s)
  {
    if n < 10 then [Digit(n)] else Decimal(n / 10) + [Digit(n % 10)]
  }

  /** `int(s)` for a string of digits. */
  function Value(s: string): nat
    requires AllDigits(s)
  {
    if s == [] then 0 else 10 * Value(s[..|s| - 1]) + (s[|s| - 1] as int - 48)
  }

  lemma {:induction false} ValueOfDecimal(n: nat)
    ensures Value(Decimal(n)) == n
  {
    if n < 10 {
    } else {
      ValueOfDecimal(n / 10);
      assert Decimal(n)[..|Decimal(n)| - 1] == Decimal(n / 10);
    }
  }

  /** `str(i)` for any integer. */
  function Signed(i: int): string {
    if i < 0 then "-" + Decimal(-i) else Decimal(i)
  }

  function Magnitude(i: int): nat {
    if i < 0 then -i else i
  }

  lemma SignedInjective(i: int, j: int)
    requires Signed(i) == Signed(j)
    ensures i == j
  {
    ValueOfDecimal(Magnitude(i));
    ValueOfDecimal(Magnitude(j));
    assert IsDigit(Decimal(Magnitude(i))[0]) && IsDigit(Decimal(Magnitude(j))[0]);
    assert i < 0 ==> Signed(i)[0] == '-' && Signed(i)[1..] == Decimal(Magnitude(i));
    assert j < 0 ==> Signed(j)[0] == '-' && Signed(j)[1..] == Decimal(Magnitude(j));
  }

  lemma SignedHasNo(i: int, c: char)
    requires !IsDigit(c) && c != '-'
    ensures c !in Signed(i)
  {
    var d := Decimal(Magnitude(i));
    assert forall k | 0 <= k < |d| :: IsDigit(d[k]);
  }

  /** The text before and after the last `c` determines both parts. */
  lemma SplitLast(a: string, x: string, b: string, y: string, c: char)
    requires c !in x && c !in y
    requires a + [c] + x == b + [c] + y
    ensures a == b && x == y
  {
    var s := a + [c] + x;
    assert s[|a|] == c;
    assert s[|b|] == (b + [c] + y)[|b|] == c;
    assert forall k | |a| < k < |s| :: s[k] == x[k - |a| - 1] && s[k] != c;
    assert forall k | |b| < k < |s| :: s[k] == y[k - |b| - 1] && s[k] != c;
    assert |a| == |b|;
    assert a == s[..|a|] == b && x == s[|a| + 1..] == y;
  }

  /** The text before and after the first `c` determines both parts. */
  lemma SplitFirst(a: string, x: string, b: string, y: string, c: char)
    requires c !in a && c !in b
    requires a + [c] + x == b + [c] + y
    ensures a == b && x == y
  {
    var s := a + [c] + x;
    assert s[|a|] == c;
    assert s[|b|] == (b + [c] + y)[|b|] == c;
    assert forall k | 0 <= k < |a| :: s[k] == a[k] && s[k] != c;
    assert forall k | 0 <= k < |b| :: s[k] == b[k] && s[k] != c;
    assert |a| == |b|;
    assert a == s[..|a|] == b && x == s[|a| + 1..] == y;
  }

  /** Strict lexicographic order on strings, by code point. */
  predicate Before(a: string, b: string) {
    b != [] && (a == [] || a[0] < b[0] || (a[0] == b[0] && Before(a[1..], b[1..])))
  }

  lemma {:induction false} BeforeTotal(a: string, b: string)
    ensures Before(a, b) || a == b || Before(b, a)
    ensures !(Before(a, b) && Before(b, a)) && !Before(a, a)
  {
    if a == [] {
    } else {
      BeforeTotal(a[1..], a[1..]);
    }
    if a != [] && b != [] {
      BeforeTotal(a[1..], b[1..]);
      if a[0] == b[0] && a[1..] == b[1..] {
        assert a == [a[0]] + a[1..] && b == [b[0]] + b[1..];
      }
    }
  }

  lemma {:induction false} BeforeTransitive(a: string, b: string, c: string)
    requires Before(a, b) && Before(b, c)
    ensures Before(a, c)
  {
    if a == [] || a[0] != b[0] || b[0] != c[0] {
    } else {
      BeforeTransitive(a[1..], b[1..], c[1..]);
    }
  }

  lemma NotBeforeTransitive(a: string, b: string, c: string)
    requires !Before(b, a) && !Before(c, b)
    ensures !Before(c, a)
  {
    BeforeTotal(a, b);
    if Before(c, a) && a != b {
      BeforeTransitive(c, a, b);
    }
  }

  /** `n` printed in exactly `w` digits, zero-padded. */
  function Pad(n: nat, w: nat): string {
    if w == 0 then "" else Pad(n / 10, w - 1) + [Digit(n % 10)]
  }

  function Pow10(w: nat): nat {
    if w == 0 then 1 else 10 * Pow10(w - 1)
  }

  /** Fixed-width fields compare like the numbers they hold; equal fields leave
      the decision to what follows. */
  lemma {:induction false} PadOrder(n: nat, m: nat, w: nat, x: string, y: string)
    requires n < Pow10(w) && m < Pow10(w)
    ensures Before(Pad(n, w) + x, Pad(m, w) + y) <==> n < m || (n == m && Before(x, y))
  {
    if w == 0 {
      assert Pad(n, w) + x == x && Pad(m, w) + y == y;
    } else {
      var d, e := [Digit(n % 10)], [Digit(m % 10)];
      PadOrder(n / 10, m / 10, w - 1, d + x, e + y);
      assert Pad(n, w) + x == Pad(n / 10, w - 1) + (d + x);
      assert Pad(m, w) + y == Pad(m / 10, w - 1) + (e + y);
      assert (d + x)[1..] == x && (e + y)[1..] == y;
    }
  }

  /** A common first character does not affect the order. */
  lemma BeforeAfterSame(c: char, x: string, y: string)
    ensures Before([c] + x, [c] + y) <==> Before(x, y)
  {
    assert ([c] + x)[1..] == x && ([c] + y)[1..] == y;
  }

  // ── Trimming, searching, cutting ─────────────────────────────────────────

  /** The ASCII characters `str.strip` and `\s` treat as white space. */
  predicate IsSpace(c: char) {
    c == ' ' || '\t' <= c <= '\r' || 28 as char <= c <= 31 as char
  }

  /** Blank, tab, line feed, vertical tab, form feed, carriage return, and the
      four information separators. */
  lemma SpacesAre(c: char)
    ensures IsSpace(c) <==> c as int in {32, 9, 10, 11, 12, 13, 28, 29, 30, 31}
  {
  }

  function StripLeft(s: string): string {
    if s != [] && IsSpace(s[0]) then StripLeft(s[1..]) else s
  }

  function StripRight(s: string): string {
    if s != [] && IsSpace(s[|s| - 1]) then StripRight(s[..|s| - 1]) else s
  }

  function Strip(s: string): string {
    StripRight(StripLeft(s))
  }

  predicate StartsWith(s: string, prefix: string) {
    prefix <= s
  }

  /** `s.replace(word, "")`: every occurrence, left to right, removed. */
  function Remove(s: string, word: string): string
    requires word != ""
  {
    if |s| < |word| then s
    else if word <= s then Remove(s[|word|..], word)
    else [s[0]] + Remove(s[1..], word)
  }

  /** `s.split(" ")[0]`: the text before the first space. */
  function FirstWord(s: string): string {
    if s == [] || s[0] == ' ' then [] else [s[0]] + FirstWord(s[1..])
  }
}
