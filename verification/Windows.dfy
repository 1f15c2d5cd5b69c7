/** Windows as text: `30s`, `10m`, `2h`, `1d` (crates/core/src/routing.rs). */
module Windows {
  import opened Basics
  import opened Text

  const U64_MAX: nat := 0xffff_ffff_ffff_ffff

  predicate IsDigit(c: char) {
    '0' <= c <= '9'
  }

  function Value(digits: string): nat
    requires forall c :: c in digits ==> IsDigit(c)
  {
    if digits == [] then 0
    else
      var last := digits[|digits| - 1];
      assert last in digits && IsDigit(last);
      10 * Value(digits[..|digits| - 1]) + (last as int - '0' as int)
  }

  /** A `u64` in decimal: no digits, or too many, are errors. */
  function ParseU64(digits: string): Option<nat>
    requires forall c :: c in digits ==> IsDigit(c)
  {
    if digits != [] && Value(digits) <= U64_MAX then Some(Value(digits)) else None
  }

  function DigitsEnd(s: string): (n: nat)
    ensures n <= |s| && forall c :: c in s[..n] ==> IsDigit(c)
    ensures n < |s| ==> !IsDigit(s[n])
  {
    if s == [] || !IsDigit(s[0]) then 0
    else
      var n := 1 + DigitsEnd(s[1..]);
      assert s[..n] == [s[0]] + s[1..][..n - 1];
      n
  }

  function UnitSize(unit: string): Option<nat> {
    if unit == "" || unit == "s" then Some(1)
    else if unit == "m" then Some(60)
    else if unit == "h" then Some(3600)
    else if unit == "d" then Some(86400)
    else None
  }

  function SaturatingMul(a: nat, b: nat): nat {
    if a * b <= U64_MAX then a * b else U64_MAX
  }

  /** Seconds, or none for what is not a window. */
  function Parse(text: string): Option<nat> {
    var s := Trim(text);
    var split := DigitsEnd(s);
    match ParseU64(s[..split])
    case None => None
    case Some(n) =>
      (match UnitSize(Trim(s[split..]))
       case None => None
       case Some(size) => Some(SaturatingMul(n, size)))
  }

  function Digit(d: nat): char
    requires d < 10
  {
    ('0' as int + d) as char
  }

  function Decimal(n: nat): string {
    if n < 10 then [Digit(n)] else Decimal(n / 10) + [Digit(n % 10)]
  }

  /** The count and unit a window prints with: the largest unit that divides it. */
  function Shown(secs: nat): (nat, char) {
    if secs > 0 && secs % 86400 == 0 then (secs / 86400, 'd')
    else if secs > 0 && secs % 3600 == 0 then (secs / 3600, 'h')
    else if secs > 0 && secs % 60 == 0 then (secs / 60, 'm')
    else (secs, 's')
  }

  function Print(secs: nat): string {
    Decimal(Shown(secs).0) + [Shown(secs).1]
  }

  lemma {:induction false} DecimalValue(n: nat)
    ensures Decimal(n) != [] && (forall c :: c in Decimal(n) ==> IsDigit(c)) && Value(Decimal(n)) == n
  {
    if n >= 10 {
      DecimalValue(n / 10);
      var init := Decimal(n / 10);
      assert (init + [Digit(n % 10)])[..|init|] == init;
    }
  }

  lemma {:induction false} DigitsEndAt(digits: string, c: char)
    requires (forall d :: d in digits ==> IsDigit(d)) && !IsDigit(c)
    ensures DigitsEnd(digits + [c]) == |digits|
  {
    if digits != [] {
      assert (digits + [c])[1..] == digits[1..] + [c];
      DigitsEndAt(digits[1..], c);
    }
  }

  /** Reading a printed window gives the window back: the unit divides it and the
      product never saturates, so the printed form in a route's key loses nothing. */
  lemma WindowRoundTrip(secs: nat)
    requires secs <= U64_MAX
    ensures Parse(Print(secs)) == Some(secs)
  {
    var (n, unit) := Shown(secs);
    var text := Print(secs);
    DecimalValue(n);
    DigitsEndAt(Decimal(n), unit);
    assert IsDigit(text[0]) by { assert text[0] == Decimal(n)[0]; }
    TrimTrims(text);
    assert text[..|Decimal(n)|] == Decimal(n) && text[|Decimal(n)|..] == [unit];
    TrimTrims([unit]);
  }

  /** Different windows print differently. */
  lemma PrintIsInjective(a: nat, b: nat)
    requires a <= U64_MAX && b <= U64_MAX && Print(a) == Print(b)
    ensures a == b
  {
    WindowRoundTrip(a);
    WindowRoundTrip(b);
  }

  /* ----- what is a window, and which ----- */

  predicate AllDigits(s: string) {
    forall c :: c in s ==> IsDigit(c)
  }

  predicate AllSpaces(s: string) {
    forall c :: c in s ==> IsSpace(c)
  }

  lemma {:induction false} TrimOff(front: string, core: string, back: string)
    requires AllSpaces(front) && AllSpaces(back) && Trimmed(core) && core != ""
    ensures Trim(front + core + back) == core
  {
    TrimFront(front, core + back);
    assert front + core + back == front + (core + back);
    TrimBack(core, back);
  }

  lemma {:induction false} TrimFront(front: string, rest: string)
    requires AllSpaces(front) && rest != "" && !IsSpace(rest[0])
    ensures TrimStart(front + rest) == rest
  {
    if front == [] {
      assert front + rest == rest;
    } else {
      assert front[0] in front && (front + rest)[1..] == front[1..] + rest;
      TrimFront(front[1..], rest);
    }
  }

  lemma {:induction false} TrimBack(core: string, back: string)
    requires AllSpaces(back) && core != "" && !IsSpace(core[|core| - 1])
    ensures TrimEnd(core + back) == core
  {
    if back == [] {
      assert core + back == core;
    } else {
      var init := back[..|back| - 1];
      assert back[|back| - 1] in back && (core + back)[..|core + back| - 1] == core + init;
      TrimBack(core, init);
    }
  }

  lemma {:induction false} DigitsEndBefore(digits: string, rest: string)
    requires AllDigits(digits) && (rest == "" || !IsDigit(rest[0]))
    ensures DigitsEnd(digits + rest) == |digits|
  {
    if digits == [] {
      assert digits + rest == rest;
    } else {
      assert digits[0] in digits && (digits + rest)[1..] == digits[1..] + rest;
      DigitsEndBefore(digits[1..], rest);
    }
  }

  /** The units and their seconds; no unit is seconds. */
  predicate IsUnit(unit: string, size: nat) {
    || (unit == "" && size == 1)
    || (unit == "s" && size == 1)
    || (unit == "m" && size == 60)
    || (unit == "h" && size == 60 * 60)
    || (unit == "d" && size == 24 * 60 * 60)
  }

  /** A count and a unit, with or without spaces around and between, is that many seconds, or
      the greatest number there is. */
  lemma WindowMeans(front: string, n: nat, gap: string, unit: string, size: nat, back: string)
    requires AllSpaces(front) && AllSpaces(gap) && AllSpaces(back) && IsUnit(unit, size) && n <= U64_MAX
    requires unit == "" ==> gap == ""
    ensures Parse(front + (Decimal(n) + gap + unit) + back)
         == Some(if n * size <= U64_MAX then n * size else U64_MAX)
  {
    var digits, tail := Decimal(n), gap + unit;
    DecimalValue(n);
    CountIsTrimmed(digits, gap, unit);
    assert digits + gap + unit == digits + tail;
    TrimOff(front, digits + tail, back);
    TailIsNoDigit(gap, unit);
    TrimUnit(gap, unit);
    ParsesAs(front + (digits + tail) + back, digits, tail, n, size);
  }

  lemma CountIsTrimmed(digits: string, gap: string, unit: string)
    requires digits != "" && AllDigits(digits) && exists size :: IsUnit(unit, size)
    requires unit == "" ==> gap == ""
    ensures digits + (gap + unit) != "" && Trimmed(digits + (gap + unit))
  {
    var s := digits + (gap + unit);
    assert digits[0] in digits && digits[|digits| - 1] in digits;
    assert s[0] == digits[0];
    assert s[|s| - 1] == if unit == "" then digits[|digits| - 1] else unit[|unit| - 1];
  }

  lemma TailIsNoDigit(gap: string, unit: string)
    requires AllSpaces(gap) && exists size :: IsUnit(unit, size)
    ensures gap + unit == "" || !IsDigit((gap + unit)[0])
  {
    if gap != "" {
      assert gap[0] in gap && (gap + unit)[0] == gap[0];
    } else {
      assert gap + unit == unit;
    }
  }

  lemma ParsesAs(text: string, digits: string, tail: string, n: nat, size: nat)
    requires Trim(text) == digits + tail && digits != "" && AllDigits(digits) && Value(digits) == n <= U64_MAX
    requires (tail == "" || !IsDigit(tail[0])) && IsUnit(Trim(tail), size)
    ensures Parse(text) == Some(if n * size <= U64_MAX then n * size else U64_MAX)
  {
    DigitsEndBefore(digits, tail);
    assert (digits + tail)[..|digits|] == digits && (digits + tail)[|digits|..] == tail;
  }

  lemma TrimUnit(gap: string, unit: string)
    requires AllSpaces(gap) && (unit == "" ==> gap == "") && |unit| <= 1 && (unit != "" ==> !IsSpace(unit[0]))
    ensures Trim(gap + unit) == unit
  {
    if unit != "" {
      TrimOff(gap, unit, "");
      assert gap + unit + "" == gap + unit;
    }
  }

  /** The first `k` characters are the digits of a count that fits, and the rest is a unit. */
  ghost predicate CountThenUnit(s: string, k: nat) {
    && 0 < k <= |s| && AllDigits(s[..k]) && (k < |s| ==> !IsDigit(s[k]))
    && Value(s[..k]) <= U64_MAX && exists size :: IsUnit(Trim(s[k..]), size)
  }

  /** Nothing else is a window. */
  lemma OnlyWindowsRead(text: string)
    ensures Parse(text).Some? <==> exists k :: CountThenUnit(Trim(text), k)
  {
    var s := Trim(text);
    var k := DigitsEnd(s);
    if Parse(text).Some? {
      assert IsUnit(Trim(s[k..]), UnitSize(Trim(s[k..])).value);
      assert CountThenUnit(s, k);
    }
    if m: nat :| CountThenUnit(s, m) {
      DigitsEndBefore(s[..m], s[m..]);
      assert s == s[..m] + s[m..];
    }
  }
}
