/** Instants as stored text: `YYYY-MM-DDTHH:MM:SS.ffffffZ`, the date-time format of
    section 5.6 of RFC 3339 in UTC with six fraction digits. The queries compare
    these texts; that this compares times (section 5.1 of RFC 3339) is proved here
    down to the days of the proleptic Gregorian calendar. */
module Timestamps {
  import opened TextOrder
  import opened Wrappers

  datatype Moment = Moment(year: nat, month: nat, day: nat, hour: nat, minute: nat, second: nat, micro: nat)

  // ---- Calendar ------------------------------------------------------------------

  predicate LeapYear(y: nat) { y % 4 == 0 && (y % 100 != 0 || y % 400 == 0) }

  function DaysInMonth(y: nat, m: nat): nat {
    if m == 2 then (if LeapYear(y) then 29 else 28) else if m in {4, 6, 9, 11} then 30 else 31
  }

  predicate Valid(t: Moment) {
    1 <= t.year <= 9999 && 1 <= t.month <= 12 && 1 <= t.day <= DaysInMonth(t.year, t.month)
    && t.hour < 24 && t.minute < 60 && t.second < 60 && t.micro < 1_000_000
  }

  function DaysBeforeYear(y: nat): nat
    requires y >= 1
  {
    365 * (y - 1) + (y - 1) / 4 - (y - 1) / 100 + (y - 1) / 400
  }

  function DaysBeforeMonth(y: nat, m: nat): nat {
    if m <= 1 then 0 else DaysBeforeMonth(y, m - 1) + DaysInMonth(y, m - 1)
  }

  /** Days since the first of January of year 1, which is day 1. */
  function Ordinal(t: Moment): nat
    requires t.year >= 1
  {
    DaysBeforeYear(t.year) + DaysBeforeMonth(t.year, t.month) + t.day
  }

  /** Microseconds of UTC. */
  function Micros(t: Moment): nat
    requires t.year >= 1
  {
    (((Ordinal(t) * 24 + t.hour) * 60 + t.minute) * 60 + t.second) * 1_000_000 + t.micro
  }

  // ---- Text -------------------------------------------------------------------------

  function Pow10(n: nat): nat { if n == 0 then 1 else 10 * Pow10(n - 1) }

  function Digit(d: nat): char
    requires d < 10
  {
    '0' + d as char
  }

  predicate IsDigit(c: char) { '0' <= c <= '9' }

  function DigitValue(c: char): nat
    requires IsDigit(c)
  {
    c as int - '0' as int
  }

  /** The last `width` decimal digits of n. */
  function Pad(n: nat, width: nat): (s: string)
    ensures |s| == width && forall i :: 0 <= i < width ==> IsDigit(s[i])
  {
    if width == 0 then "" else Pad(n / 10, width - 1) + [Digit(n % 10)]
  }

  function Value(s: string): nat
    requires forall i :: 0 <= i < |s| ==> IsDigit(s[i])
  {
    if s == "" then 0 else 10 * Value(s[..|s| - 1]) + DigitValue(s[|s| - 1])
  }

  /** A field of fixed width and the character that ends it. */
  datatype Field = Field(width: nat, end: char)

  const LAYOUT := [Field(4, '-'), Field(2, '-'), Field(2, 'T'), Field(2, ':'), Field(2, ':'), Field(2, '.'), Field(6, 'Z')]

  function Fields(t: Moment): seq<nat> { [t.year, t.month, t.day, t.hour, t.minute, t.second, t.micro] }

  function Render(values: seq<nat>, layout: seq<Field>): string
    requires |values| == |layout|
  {
    if values == [] then "" else Pad(values[0], layout[0].width) + [layout[0].end] + Render(values[1..], layout[1..])
  }

  function Read(text: string, layout: seq<Field>): Option<seq<nat>> {
    if layout == [] then (if text == "" then Some([]) else None)
    else
      var w := layout[0].width;
      if |text| <= w || text[w] != layout[0].end || exists i :: 0 <= i < w && !IsDigit(text[i]) then None
      else
        var rest := Read(text[w + 1..], layout[1..]);
        if rest.None? then None else Some([Value(text[..w])] + rest.value)
  }

  /** `_to_db_datetime` of an instant in UTC. */
  function ToText(t: Moment): string { Render(Fields(t), LAYOUT) }

  /** `_from_db_datetime`, on texts of the stored form. */
  function FromText(text: string): (t: Option<Moment>)
    ensures t.Some? ==> Valid(t.value)
  {
    var r := Read(text, LAYOUT);
    if r.None? || |r.value| != 7 then None else
      var v := r.value;
      var t := Moment(v[0], v[1], v[2], v[3], v[4], v[5], v[6]);
      if Valid(t) then Some(t) else None
  }

  predicate FieldsLess(a: seq<nat>, b: seq<nat>)
    requires |a| == |b|
  {
    a != [] && (a[0] < b[0] || (a[0] == b[0] && FieldsLess(a[1..], b[1..])))
  }

  // ---- Text order is field order ---------------------------------------------------------

  /** Texts that begin with parts of one length compare by these parts first. */
  lemma {:induction false} LessInParts(a: string, x: string, b: string, y: string)
    requires |a| == |b|
    ensures TextLess(a + x, b + y) <==> TextLess(a, b) || (a == b && TextLess(x, y))
  {
    if a == "" {
      assert a + x == x && b + y == y;
    } else {
      assert (a + x)[1..] == a[1..] + x && (b + y)[1..] == b[1..] + y;
      LessInParts(a[1..], x, b[1..], y);
      assert a == [a[0]] + a[1..] && b == [b[0]] + b[1..];
    }
  }

  lemma {:induction false} PadOrder(n: nat, m: nat, width: nat)
    requires n < Pow10(width) && m < Pow10(width)
    ensures TextLess(Pad(n, width), Pad(m, width)) <==> n < m
    ensures Pad(n, width) == Pad(m, width) <==> n == m
  {
    if width > 0 {
      PadOrder(n / 10, m / 10, width - 1);
      LessInParts(Pad(n / 10, width - 1), [Digit(n % 10)], Pad(m / 10, width - 1), [Digit(m % 10)]);
      var a, b := Pad(n, width), Pad(m, width);
      assert a[..width - 1] == Pad(n / 10, width - 1) && b[..width - 1] == Pad(m / 10, width - 1);
      assert a[width - 1] == Digit(n % 10) && b[width - 1] == Digit(m % 10);
      DigitOrder(n % 10, m % 10);
    }
  }

  lemma DigitOrder(d: nat, e: nat)
    requires d < 10 && e < 10
    ensures TextLess([Digit(d)], [Digit(e)]) <==> d < e
    ensures Digit(d) == Digit(e) <==> d == e
  {}

  predicate Fits(values: seq<nat>, layout: seq<Field>)
    requires |values| == |layout|
  {
    forall i :: 0 <= i < |values| ==> values[i] < Pow10(layout[i].width)
  }

  lemma {:induction false} RenderOrder(a: seq<nat>, b: seq<nat>, layout: seq<Field>)
    requires |a| == |b| == |layout| && Fits(a, layout) && Fits(b, layout)
    ensures TextLess(Render(a, layout), Render(b, layout)) <==> FieldsLess(a, b)
  {
    if a != [] {
      var w, end := layout[0].width, [layout[0].end];
      var x, y := Render(a[1..], layout[1..]), Render(b[1..], layout[1..]);
      PadOrder(a[0], b[0], w);
      RenderOrder(a[1..], b[1..], layout[1..]);
      assert Pad(a[0], w) + end + x == Pad(a[0], w) + (end + x) && Pad(b[0], w) + end + y == Pad(b[0], w) + (end + y);
      LessInParts(Pad(a[0], w), end + x, Pad(b[0], w), end + y);
      LessInParts(end, x, end, y);
      assert !TextLess(end, end);
    }
  }

  // ---- Field order is time order -----------------------------------------------------------

  lemma YearLength(y: nat)
    requires y >= 1
    ensures DaysBeforeYear(y + 1) == DaysBeforeYear(y) + 365 + if LeapYear(y) then 1 else 0
  {
    Every4(y);
    Every100(y);
    Every400(y);
  }

  lemma Every4(y: nat)
    requires y >= 1
    ensures y / 4 == (y - 1) / 4 + if y % 4 == 0 then 1 else 0
  {}

  lemma Every100(y: nat)
    requires y >= 1
    ensures y / 100 == (y - 1) / 100 + if y % 100 == 0 then 1 else 0
    ensures y % 100 == 0 ==> y % 4 == 0
  {}

  lemma Every400(y: nat)
    requires y >= 1
    ensures y / 400 == (y - 1) / 400 + if y % 400 == 0 then 1 else 0
    ensures y % 400 == 0 ==> y % 100 == 0
  {}

  lemma MonthsOfAYear(y: nat)
    ensures DaysBeforeMonth(y, 13) == 365 + if LeapYear(y) then 1 else 0
  {
    assert DaysBeforeMonth(y, 2) == 31;
    assert DaysBeforeMonth(y, 3) == 31 + DaysInMonth(y, 2);
    assert DaysBeforeMonth(y, 4) == DaysBeforeMonth(y, 3) + 31;
    assert DaysBeforeMonth(y, 5) == DaysBeforeMonth(y, 4) + 30;
    assert DaysBeforeMonth(y, 6) == DaysBeforeMonth(y, 5) + 31;
    assert DaysBeforeMonth(y, 7) == DaysBeforeMonth(y, 6) + 30;
    assert DaysBeforeMonth(y, 8) == DaysBeforeMonth(y, 7) + 31;
    assert DaysBeforeMonth(y, 9) == DaysBeforeMonth(y, 8) + 31;
    assert DaysBeforeMonth(y, 10) == DaysBeforeMonth(y, 9) + 30;
    assert DaysBeforeMonth(y, 11) == DaysBeforeMonth(y, 10) + 31;
    assert DaysBeforeMonth(y, 12) == DaysBeforeMonth(y, 11) + 30;
  }

  lemma {:induction false} LaterMonth(y: nat, m: nat, n: nat)
    requires 1 <= m < n
    ensures DaysBeforeMonth(y, m) + DaysInMonth(y, m) <= DaysBeforeMonth(y, n)
    decreases n
  {
    if m < n - 1 { LaterMonth(y, m, n - 1); }
  }

  lemma {:induction false} LaterYear(y: nat, z: nat)
    requires 1 <= y < z
    ensures DaysBeforeYear(y + 1) <= DaysBeforeYear(z)
    decreases z
  {
    if y + 1 < z {
      LaterYear(y, z - 1);
      YearLength(z - 1);
    }
  }

  /** A later date has a larger ordinal. */
  lemma LaterDate(a: Moment, b: Moment)
    requires Valid(a) && Valid(b)
    requires a.year < b.year || (a.year == b.year && (a.month < b.month || (a.month == b.month && a.day < b.day)))
    ensures Ordinal(a) < Ordinal(b)
  {
    if a.year < b.year {
      YearLength(a.year);
      MonthsOfAYear(a.year);
      LaterMonth(a.year, a.month, 13);
      LaterYear(a.year, b.year);
    } else if a.month < b.month {
      LaterMonth(a.year, a.month, b.month);
    }
  }

  lemma LaterMoment(a: Moment, b: Moment)
    requires Valid(a) && Valid(b) && FieldsLess(Fields(a), Fields(b))
    ensures Micros(a) < Micros(b)
  {
    FieldsLessUnfolds(a, b);
    if a.year != b.year || a.month != b.month || a.day != b.day {
      LaterDate(a, b);
    }
  }

  /** The comparison of seven fields, written out. */
  lemma FieldsLessUnfolds(a: Moment, b: Moment)
    ensures FieldsLess(Fields(a), Fields(b)) <==>
            || a.year < b.year || (a.year == b.year && (a.month < b.month || (a.month == b.month && (a.day < b.day || (a.day == b.day && TimeLess(a, b))))))
  {
    var x, y := Fields(a), Fields(b);
    assert x[0..] == x && y[0..] == y;
    Unrolled(x, y, 0);
    Unrolled(x, y, 1);
    Unrolled(x, y, 2);
    Unrolled(x, y, 3);
    Unrolled(x, y, 4);
    Unrolled(x, y, 5);
    Unrolled(x, y, 6);
    assert !FieldsLess(x[7..], y[7..]);
  }

  lemma Unrolled(x: seq<nat>, y: seq<nat>, i: nat)
    requires i < |x| == |y|
    ensures FieldsLess(x[i..], y[i..]) <==> x[i] < y[i] || (x[i] == y[i] && FieldsLess(x[i + 1..], y[i + 1..]))
  {
    assert x[i..][1..] == x[i + 1..] && y[i..][1..] == y[i + 1..];
  }

  predicate TimeLess(a: Moment, b: Moment) {
    a.hour < b.hour || (a.hour == b.hour && (a.minute < b.minute || (a.minute == b.minute &&
      (a.second < b.second || (a.second == b.second && a.micro < b.micro)))))
  }

  lemma FieldsFit(t: Moment)
    requires Valid(t)
    ensures |Fields(t)| == |LAYOUT| && Fits(Fields(t), LAYOUT)
  {
    assert Pow10(2) == 100 && Pow10(4) == 10_000 && Pow10(6) == 1_000_000;
  }

  /** Every comparison of stored texts is a comparison of instants. */
  lemma TextOrderIsTimeOrder(a: Moment, b: Moment)
    requires Valid(a) && Valid(b)
    ensures TextLess(ToText(a), ToText(b)) <==> Micros(a) < Micros(b)
    ensures ToText(a) == ToText(b) <==> Micros(a) == Micros(b)
  {
    FieldsFit(a);
    FieldsFit(b);
    RenderOrder(Fields(a), Fields(b), LAYOUT);
    RenderOrder(Fields(b), Fields(a), LAYOUT);
    FieldsLessUnfolds(a, b);
    FieldsLessUnfolds(b, a);
    if FieldsLess(Fields(a), Fields(b)) {
      LaterMoment(a, b);
    } else if FieldsLess(Fields(b), Fields(a)) {
      LaterMoment(b, a);
    } else {
      assert a == b;
    }
    NotBelowItself(ToText(a));
  }

  // ---- Every instant has a text ----------------------------------------------------------

  lemma NextDay(t: Moment) returns (next: Moment)
    requires Valid(t) && !(t.year == 9999 && t.month == 12 && t.day == 31)
    ensures Valid(next) && Ordinal(next) == Ordinal(t) + 1
  {
    if t.day < DaysInMonth(t.year, t.month) {
      next := t.(day := t.day + 1);
    } else if t.month < 12 {
      next := t.(month := t.month + 1, day := 1);
    } else {
      YearLength(t.year);
      MonthsOfAYear(t.year);
      next := t.(year := t.year + 1, month := 1, day := 1);
    }
  }

  lemma NextMicrosecond(t: Moment) returns (next: Moment)
    requires Valid(t) && t != Moment(9999, 12, 31, 23, 59, 59, 999_999)
    ensures Valid(next) && Micros(next) == Micros(t) + 1
  {
    if t.micro < 999_999 {
      next := t.(micro := t.micro + 1);
    } else if t.second < 59 {
      next := t.(second := t.second + 1, micro := 0);
    } else if t.minute < 59 {
      next := t.(minute := t.minute + 1, second := 0, micro := 0);
    } else if t.hour < 23 {
      next := t.(hour := t.hour + 1, minute := 0, second := 0, micro := 0);
    } else {
      next := NextDay(t);
      next := next.(hour := 0, minute := 0, second := 0, micro := 0);
    }
  }

  const DAY := 24 * 60 * 60 * 1_000_000

  /** From the first day of year 1 to the last of year 9999, day 3,652,059, every
      microsecond is the instant of some text; of one only, as the order is strict. */
  lemma {:induction false} EveryInstantHasItsText(n: nat) returns (t: Moment)
    requires DAY <= n < 3_652_060 * DAY
    ensures Valid(t) && Micros(t) == n && FromText(ToText(t)) == Some(t)
    ensures forall u :: Valid(u) && Micros(u) == n ==> ToText(u) == ToText(t)
    decreases n
  {
    if n == DAY {
      t := Moment(1, 1, 1, 0, 0, 0, 0);
    } else {
      var before := EveryInstantHasItsText(n - 1);
      LastDay();
      t := NextMicrosecond(before);
    }
    WrittenThenRead(t);
    forall u | Valid(u) && Micros(u) == n ensures ToText(u) == ToText(t) { TextOrderIsTimeOrder(u, t); }
  }

  lemma LastDay()
    ensures Micros(Moment(9999, 12, 31, 23, 59, 59, 999_999)) == 3_652_060 * DAY - 1
  {
    MonthsOfAYear(9999);
  }

  // ---- Reading is the inverse of writing -------------------------------------------------------

  lemma {:induction false} ValueOfPad(n: nat, width: nat)
    requires n < Pow10(width)
    ensures Value(Pad(n, width)) == n
  {
    if width > 0 {
      var s := Pad(n, width);
      ValueOfPad(n / 10, width - 1);
      assert s[..|s| - 1] == Pad(n / 10, width - 1) && s[|s| - 1] == Digit(n % 10);
    }
  }

  lemma {:induction false} PadOfValue(s: string)
    requires forall i :: 0 <= i < |s| ==> IsDigit(s[i])
    ensures Value(s) < Pow10(|s|) && Pad(Value(s), |s|) == s
  {
    if s != "" {
      PadOfValue(s[..|s| - 1]);
      assert s == s[..|s| - 1] + [s[|s| - 1]];
    }
  }

  lemma {:induction false} ReadOfRender(values: seq<nat>, layout: seq<Field>)
    requires |values| == |layout| && Fits(values, layout)
    ensures Read(Render(values, layout), layout) == Some(values)
  {
    if values != [] {
      var w, text := layout[0].width, Render(values, layout);
      ReadOfRender(values[1..], layout[1..]);
      ValueOfPad(values[0], w);
      assert text[..w] == Pad(values[0], w) && text[w] == layout[0].end && text[w + 1..] == Render(values[1..], layout[1..]);
      forall i | 0 <= i < w ensures IsDigit(text[i]) { assert text[i] == text[..w][i]; }
      assert [values[0]] + values[1..] == values;
    }
  }

  lemma {:induction false} RenderOfRead(text: string, layout: seq<Field>)
    requires Read(text, layout).Some?
    ensures |Read(text, layout).value| == |layout| && Render(Read(text, layout).value, layout) == text
  {
    if layout != [] {
      var w := layout[0].width;
      RenderOfRead(text[w + 1..], layout[1..]);
      PadOfValue(text[..w]);
      assert text == text[..w] + [text[w]] + text[w + 1..];
      assert Read(text, layout).value[1..] == Read(text[w + 1..], layout[1..]).value;
    }
  }

  lemma WrittenThenRead(t: Moment)
    requires Valid(t)
    ensures FromText(ToText(t)) == Some(t) && |ToText(t)| == 27
  {
    FieldsFit(t);
    ReadOfRender(Fields(t), LAYOUT);
    RenderLength(Fields(t), LAYOUT);
    assert Width(LAYOUT) == 27 by { WidthOfLayout(); }
  }

  lemma ReadThenWritten(text: string)
    ensures FromText(text).Some? ==> ToText(FromText(text).value) == text
  {
    if FromText(text).Some? {
      RenderOfRead(text, LAYOUT);
      assert Fields(FromText(text).value) == Read(text, LAYOUT).value;
    }
  }

  function Width(layout: seq<Field>): nat { if layout == [] then 0 else layout[0].width + 1 + Width(layout[1..]) }

  lemma WidthOfLayout()
    ensures Width(LAYOUT) == 27
  {
    var l := LAYOUT;
    assert Width(l[6..]) == 7 && l[5..][1..] == l[6..] && l[4..][1..] == l[5..] && l[3..][1..] == l[4..];
    assert Width(l[4..]) == 13 && l[2..][1..] == l[3..] && l[1..][1..] == l[2..];
    assert Width(l[2..]) == 19;
  }

  lemma {:induction false} RenderLength(values: seq<nat>, layout: seq<Field>)
    requires |values| == |layout|
    ensures |Render(values, layout)| == Width(layout)
  {
    if values != [] { RenderLength(values[1..], layout[1..]); }
  }
}
