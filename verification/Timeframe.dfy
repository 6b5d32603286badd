/** Rule timeframes: parsing "10m" and printing a duration back. */
module Timeframe {
  import opened Collections
  import opened Model
  import Text

  const DEFAULT := 10 * MINUTE

  /** The length of a unit in microseconds. */
  function UnitSize(c: char): Option<int> {
    if c == 's' then Some(SECOND)
    else if c == 'm' then Some(MINUTE)
    else if c == 'h' then Some(HOUR)
    else if c == 'd' then Some(24 * HOUR)
    else None
  }

  function LowerChar(c: char): char {
    if 'A' <= c <= 'Z' then (c as int + 32) as char else c
  }

  function Lower(s: string): string {
    seq(|s|, i requires 0 <= i < |s| => LowerChar(s[i]))
  }

  /** How many leading characters are digits. */
  function DigitCount(s: string): (n: nat)
    ensures n <= |s| && Text.AllDigits(s[..n])
  {
    if s == [] || !Text.IsDigit(s[0]) then 0
    else
      assert s[1..][..DigitCount(s[1..])] == s[1..1 + DigitCount(s[1..])];
      1 + DigitCount(s[1..])
  }

  /** Digits, optional space, one unit letter; anything else is ten minutes. */
  function Parse(text: string): int {
    var t := Lower(Text.Strip(if text == "" then "10m" else text));
    var n := DigitCount(t);
    var unit := Text.StripLeft(t[n..]);
    if n > 0 && |unit| == 1 && UnitSize(unit[0]).Some? then Text.Value(t[..n]) * UnitSize(unit[0]).value
    else DEFAULT
  }

  /** The largest of d, h, m that divides the whole seconds, else s. */
  function Human(duration: int): string {
    var secs := WholeSeconds(duration);
    if secs % 86400 == 0 && secs >= 86400 then Text.Signed(secs / 86400) + "d"
    else if secs % 3600 == 0 && secs >= 3600 then Text.Signed(secs / 3600) + "h"
    else if secs % 60 == 0 && secs >= 60 then Text.Signed(secs / 60) + "m"
    else Text.Signed(secs) + "s"
  }

  // ── What the parser accepts ──────────────────────────────────────────────

  ghost predicate AllSpace(s: string) {
    forall i | 0 <= i < |s| :: Text.IsSpace(s[i])
  }

  lemma {:induction false} StripLeftSpace(w: string, s: string)
    requires AllSpace(w) && (s == [] || !Text.IsSpace(s[0]))
    ensures Text.StripLeft(w + s) == s
  {
    if w == [] {
      assert w + s == s;
    } else {
      assert (w + s)[1..] == w[1..] + s;
      StripLeftSpace(w[1..], s);
    }
  }

  lemma {:induction false} StripRightSpace(s: string, w: string)
    requires AllSpace(w) && (s == [] || !Text.IsSpace(s[|s| - 1]))
    ensures Text.StripRight(s + w) == s
  {
    if w == [] {
      assert s + w == s;
    } else {
      assert (s + w)[..|s + w| - 1] == s + w[..|w| - 1];
      StripRightSpace(s, w[..|w| - 1]);
    }
  }

  lemma StripAround(before: string, s: string, after: string)
    requires AllSpace(before) && AllSpace(after)
    requires s != [] && !Text.IsSpace(s[0]) && !Text.IsSpace(s[|s| - 1])
    ensures Text.Strip(before + s + after) == s
  {
    assert before + s + after == before + (s + after);
    StripLeftSpace(before, s + after);
    StripRightSpace(s, after);
  }

  lemma {:induction false} DigitsThen(digits: string, rest: string)
    requires Text.AllDigits(digits) && (rest == [] || !Text.IsDigit(rest[0]))
    ensures DigitCount(digits + rest) == |digits|
  {
    if digits == [] {
      assert digits + rest == rest;
    } else {
      assert (digits + rest)[1..] == digits[1..] + rest;
      DigitsThen(digits[1..], rest);
    }
  }

  /** Every written duration is understood: digits, any space, a unit letter of
      either case, and space around it all. */
  lemma ParseWritten(before: string, digits: string, gap: string, unit: char, after: string)
    requires AllSpace(before) && AllSpace(gap) && AllSpace(after)
    requires digits != "" && Text.AllDigits(digits) && UnitSize(LowerChar(unit)).Some?
    ensures Parse(before + (digits + gap + [unit]) + after) == Text.Value(digits) * UnitSize(LowerChar(unit)).value
  {
    var core := digits + gap + [unit];
    StripAround(before, core, after);
    var t := Lower(core);
    var u := LowerChar(unit);
    assert t == digits + (gap + [u]);
    DigitsThen(digits, gap + [u]);
    StripLeftSpace(gap, [u]);
    assert t[..|digits|] == digits && t[|digits|..] == gap + [u];
  }

  /** A duration as it may be written. */
  ghost predicate Written(text: string, before: string, digits: string, gap: string, unit: char, after: string) {
    && text == before + (digits + gap + [unit]) + after
    && AllSpace(before) && AllSpace(gap) && AllSpace(after)
    && digits != "" && Text.AllDigits(digits) && unit in {'s', 'm', 'h', 'd', 'S', 'M', 'H', 'D'}
  }

  ghost predicate IsWritten(text: string) {
    exists before, digits, gap, unit, after :: Written(text, before, digits, gap, unit, after)
  }

  lemma {:induction false} StripLeftIs(s: string) returns (w: string)
    ensures AllSpace(w) && s == w + Text.StripLeft(s)
  {
    if s == [] || !Text.IsSpace(s[0]) {
      w := "";
    } else {
      var rest := StripLeftIs(s[1..]);
      w := [s[0]] + rest;
    }
  }

  lemma {:induction false} StripRightIs(s: string) returns (w: string)
    ensures AllSpace(w) && s == Text.StripRight(s) + w
  {
    if s == [] || !Text.IsSpace(s[|s| - 1]) {
      w := "";
    } else {
      var rest := StripRightIs(s[..|s| - 1]);
      w := rest + [s[|s| - 1]];
    }
  }

  lemma LowerKinds(c: char)
    ensures Text.IsDigit(LowerChar(c)) <==> Text.IsDigit(c)
    ensures Text.IsSpace(LowerChar(c)) <==> Text.IsSpace(c)
    ensures Text.IsDigit(c) ==> LowerChar(c) == c
    ensures UnitSize(LowerChar(c)).Some? <==> c in {'s', 'm', 'h', 'd', 'S', 'M', 'H', 'D'}
  {
  }

  /** Lowering the letters changes no digit and no space. */
  lemma LowerParts(core: string, n: nat, w: string, u: char)
    requires n <= |core| && Text.AllDigits(Lower(core)[..n]) && n > 0
    requires Lower(core)[n..] == w + [u] && AllSpace(w) && UnitSize(u).Some?
    ensures |core| == n + |w| + 1 && core == core[..n] + core[n..|core| - 1] + [core[|core| - 1]]
    ensures Text.AllDigits(core[..n]) && AllSpace(core[n..|core| - 1])
    ensures core[|core| - 1] in {'s', 'm', 'h', 'd', 'S', 'M', 'H', 'D'}
  {
    assert |Lower(core)| == |core|;
    forall i | 0 <= i < |core|
      ensures Lower(core)[i] == LowerChar(core[i])
      ensures Text.IsDigit(Lower(core)[i]) <==> Text.IsDigit(core[i])
      ensures Text.IsSpace(Lower(core)[i]) <==> Text.IsSpace(core[i])
      ensures UnitSize(Lower(core)[i]).Some? <==> core[i] in {'s', 'm', 'h', 'd', 'S', 'M', 'H', 'D'}
    {
      LowerKinds(core[i]);
    }
    hide Text.IsSpace, Text.IsDigit, LowerChar, UnitSize;
    var k := |core| - 1;
    assert |w + [u]| == |core| - n;
    assert Lower(core)[k] == Lower(core)[n..][k - n] == (w + [u])[k - n] == u;
    forall i | n <= i < k
      ensures Text.IsSpace(core[i])
    {
      assert Lower(core)[i] == Lower(core)[n..][i - n] == w[i - n];
    }
    forall i | 0 <= i < n
      ensures Text.IsDigit(core[i])
    {
      assert Lower(core)[i] == Lower(core)[..n][i];
    }
  }

  lemma StripIs(s: string) returns (before: string, after: string)
    ensures AllSpace(before) && AllSpace(after) && s == before + Text.Strip(s) + after
  {
    before := StripLeftIs(s);
    after := StripRightIs(Text.StripLeft(s));
  }

  /** What the parser takes for a duration is written as one. */
  lemma UnderstoodIsWritten(text: string)
    ensures var t := Lower(Text.Strip(text)); var n := DigitCount(t); var unit := Text.StripLeft(t[n..]);
      n > 0 && |unit| == 1 && UnitSize(unit[0]).Some? ==> IsWritten(text)
  {
    hide Text.Strip, UnitSize, LowerChar, Text.IsSpace, Text.IsDigit, AllSpace, DigitCount, Text.StripLeft;
    var core := Text.Strip(text);
    var t := Lower(core);
    var n := DigitCount(t);
    var unit := Text.StripLeft(t[n..]);
    if n > 0 && |unit| == 1 && UnitSize(unit[0]).Some? {
      var w := StripLeftIs(t[n..]);
      assert unit == [unit[0]];
      LowerParts(core, n, w, unit[0]);
      var before, after := StripIs(text);
      assert Written(text, before, core[..n], core[n..|core| - 1], core[|core| - 1], after);
    }
  }

  lemma TenMinutes()
    ensures Parse("") == 600_000_000
  {
    ParseWritten("", "10", "", 'm', "");
    assert "" + ("10" + "" + ['m']) + "" == "10m";
    assert "10"[..1] == "1" && "1"[..0] == "";
    assert Text.Value("1") == 1 && Text.Value("10") == 10;
  }

  /** Anything else, the empty text included, is ten minutes. */
  lemma ParseElse(text: string)
    requires !IsWritten(text)
    ensures Parse(text) == 600_000_000
  {
    hide Text.Strip, UnitSize, IsWritten, DigitCount, Text.StripLeft;
    if text == "" {
      TenMinutes();
    } else {
      UnderstoodIsWritten(text);
    }
  }

  // ── Round trip ───────────────────────────────────────────────────────────

  lemma ParseNumber(n: nat, unit: char)
    requires UnitSize(unit).Some?
    ensures Parse(Text.Signed(n) + [unit]) == n * UnitSize(unit).value
  {
    var d := Text.Decimal(n);
    ParseWritten("", d, "", unit, "");
    assert "" + (d + "" + [unit]) + "" == d + [unit];
    Text.ValueOfDecimal(n);
  }

  /** A sign is not understood: the parser falls back to ten minutes. */
  lemma ParseNegative(n: int)
    requires n < 0
    ensures Parse(Text.Signed(n) + "s") == DEFAULT
  {
    var core := "-" + Text.Decimal(-n) + "s";
    StripAround("", core, "");
    assert "" + core + "" == core;
    assert Lower(core)[0] == '-';
  }

  lemma HumanSeconds(duration: int)
    ensures Parse(Human(duration)) == if WholeSeconds(duration) >= 0 then WholeSeconds(duration) * SECOND else DEFAULT
  {
    hide Parse;
    var secs := WholeSeconds(duration);
    if secs < 0 {
      ParseNegative(secs);
    } else if secs % 86400 == 0 && secs >= 86400 {
      ParseNumber(secs / 86400, 'd');
    } else if secs % 3600 == 0 && secs >= 3600 {
      ParseNumber(secs / 3600, 'h');
    } else if secs % 60 == 0 && secs >= 60 {
      ParseNumber(secs / 60, 'm');
    } else {
      ParseNumber(secs, 's');
    }
  }

  /** Parsing the printed form gives a duration back exactly when it is a whole,
      non-negative number of seconds. */
  lemma RoundTripIff(duration: int)
    ensures Parse(Human(duration)) == duration <==> duration >= 0 && duration % SECOND == 0
  {
    hide Parse, Human;
    HumanSeconds(duration);
  }

  /** Two durations print alike only if their whole seconds agree. */
  lemma HumanInjective(a: int, b: int)
    requires WholeSeconds(a) >= 0 && WholeSeconds(b) >= 0 && Human(a) == Human(b)
    ensures WholeSeconds(a) == WholeSeconds(b)
  {
    hide Parse, Human;
    HumanSeconds(a);
    HumanSeconds(b);
  }

  /** The length of a unit in seconds. */
  function UnitSeconds(c: char): nat {
    match c case 'd' => 86400 case 'h' => 3600 case 'm' => 60 case _ => 1
  }

  /** The printed unit divides the seconds and is the largest that does. */
  lemma LargestUnit(duration: int, unit: char)
    requires WholeSeconds(duration) > 0 && unit in {'s', 'm', 'h', 'd'}
    ensures Human(duration) != "" && var printed := Human(duration)[|Human(duration)| - 1];
      && printed in {'s', 'm', 'h', 'd'}
      && WholeSeconds(duration) % UnitSeconds(printed) == 0
      && (UnitSeconds(unit) > UnitSeconds(printed) ==> WholeSeconds(duration) % UnitSeconds(unit) != 0)
  {
    hide WholeSeconds, Text.Signed;
    var secs := WholeSeconds(duration);
    assert secs % 86400 == 0 ==> secs >= 86400;
    assert secs % 3600 == 0 ==> secs >= 3600;
    assert secs % 60 == 0 ==> secs >= 60;
  }
}
