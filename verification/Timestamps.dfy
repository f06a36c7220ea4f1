/**
 UTC timestamps as text, in the layout of RFC 3339 with whole seconds.  The registry sorts by this
 text, so its order has to be the order of the times (section 5.1 of RFC 3339).
 */
module Timestamps {
  import opened Strings

  datatype Time = Time(year: nat, month: nat, day: nat, hour: nat, minute: nat, second: nat)

  /** Four digits for the year, two for each other field; 60 is a leap second. */
  predicate Valid(t: Time) {
    t.year < 10000 && 1 <= t.month <= 12 && 1 <= t.day <= 31 && t.hour < 24 && t.minute < 60 && t.second <= 60
  }

  /** Later fields count only when the earlier ones agree. */
  predicate Earlier(a: Time, b: Time) {
    a.year < b.year || (a.year == b.year && (
      a.month < b.month || (a.month == b.month && (
        a.day < b.day || (a.day == b.day && (
          a.hour < b.hour || (a.hour == b.hour && (
            a.minute < b.minute || (a.minute == b.minute && a.second < b.second)))))))))
  }

  function Padded(n: nat, width: nat): (s: string)
    ensures |s| == width
  {
    if width == 0 then "" else Padded(n / 10, width - 1) + [('0' as int + n % 10) as char]
  }

  function Format(t: Time): string {
    Padded(t.year, 4) + ("-" + (Padded(t.month, 2) + ("-" + (Padded(t.day, 2) + ("T" +
      (Padded(t.hour, 2) + (":" + (Padded(t.minute, 2) + (":" + (Padded(t.second, 2) + "Z"))))))))))
  }

  /** How SQLite compares text: byte by byte. */
  predicate Less(a: string, b: string) {
    b != "" && (a == "" || a[0] < b[0] || (a[0] == b[0] && Less(a[1..], b[1..])))
  }

  function Pow10(n: nat): nat {
    if n == 0 then 1 else 10 * Pow10(n - 1)
  }

  lemma {:induction false} LessPadded(a: nat, b: nat, width: nat, s: string, t: string)
    requires a < Pow10(width) && b < Pow10(width)
    ensures Less(Padded(a, width) + s, Padded(b, width) + t) <==> a < b || (a == b && Less(s, t))
    decreases width
  {
    if width == 0 {
      assert Padded(a, 0) + s == s && Padded(b, 0) + t == t;
    } else {
      var x, y := [('0' as int + a % 10) as char], [('0' as int + b % 10) as char];
      LessPadded(a / 10, b / 10, width - 1, x + s, y + t);
      assert Padded(a, width) + s == Padded(a / 10, width - 1) + (x + s);
      assert Padded(b, width) + t == Padded(b / 10, width - 1) + (y + t);
      assert (x + s)[1..] == s && (y + t)[1..] == t;
    }
  }

  lemma LessSeparator(c: string, s: string, t: string)
    requires |c| == 1
    ensures Less(c + s, c + t) <==> Less(s, t)
  {
    assert (c + s)[1..] == s && (c + t)[1..] == t;
  }

  lemma LessField(a: nat, b: nat, c: string, s: string, t: string)
    requires a < 100 && b < 100 && |c| == 1
    ensures Less(c + (Padded(a, 2) + s), c + (Padded(b, 2) + t)) <==> a < b || (a == b && Less(s, t))
  {
    assert Pow10(2) == 100;
    LessSeparator(c, Padded(a, 2) + s, Padded(b, 2) + t);
    LessPadded(a, b, 2, s, t);
  }

  /** Text order is time order. */
  lemma TextOrderIsTimeOrder(a: Time, b: Time)
    requires Valid(a) && Valid(b)
    ensures Less(Format(a), Format(b)) <==> Earlier(a, b)
  {
    hide Padded, Less;
    var a6, b6 := ":" + (Padded(a.second, 2) + "Z"), ":" + (Padded(b.second, 2) + "Z");
    var a5, b5 := ":" + (Padded(a.minute, 2) + a6), ":" + (Padded(b.minute, 2) + b6);
    var a4, b4 := "T" + (Padded(a.hour, 2) + a5), "T" + (Padded(b.hour, 2) + b5);
    var a3, b3 := "-" + (Padded(a.day, 2) + a4), "-" + (Padded(b.day, 2) + b4);
    var a2, b2 := "-" + (Padded(a.month, 2) + a3), "-" + (Padded(b.month, 2) + b3);
    NotLess("Z");
    LessField(a.second, b.second, ":", "Z", "Z");
    LessField(a.minute, b.minute, ":", a6, b6);
    LessField(a.hour, b.hour, "T", a5, b5);
    LessField(a.day, b.day, "-", a4, b4);
    LessField(a.month, b.month, "-", a3, b3);
    assert Pow10(4) == 10000;
    LessPadded(a.year, b.year, 4, a2, b2);
  }

  lemma {:induction false} NotLess(s: string)
    ensures !Less(s, s)
    decreases |s|
  {
    if s != "" { NotLess(s[1..]); }
  }

  lemma {:induction false} PaddedValue(n: nat, width: nat)
    requires n < Pow10(width) && width > 0
    ensures IsDigits(Padded(n, width)) && Value(Padded(n, width)) == n
    decreases width
  {
    assert Padded(n, width)[..width - 1] == Padded(n / 10, width - 1);
    if width > 1 {
      PaddedValue(n / 10, width - 1);
    } else {
      assert Padded(n / 10, 0) == "";
    }
  }

  /** The digits of a field stand at its place. */
  ghost predicate Reads(text: string, from: nat, to: nat, n: nat)
    requires from <= to <= |text|
  {
    IsDigits(text[from..to]) && Value(text[from..to]) == n
  }

  /** The layout "2006-01-02T15:04:05Z". */
  lemma FormatReads(t: Time)
    requires Valid(t)
    ensures var f := Format(t);
      && |f| == 20 && f[4] == '-' && f[7] == '-' && f[10] == 'T' && f[13] == ':' && f[16] == ':' && f[19] == 'Z'
      && Reads(f, 0, 4, t.year) && Reads(f, 5, 7, t.month) && Reads(f, 8, 10, t.day)
      && Reads(f, 11, 13, t.hour) && Reads(f, 14, 16, t.minute) && Reads(f, 17, 19, t.second)
  {
    hide Padded;
    var f := Format(t);
    var y, mo, d, h, mi, s := Padded(t.year, 4), Padded(t.month, 2), Padded(t.day, 2), Padded(t.hour, 2),
                              Padded(t.minute, 2), Padded(t.second, 2);
    var r5, r4 := ":" + (s + "Z"), mi + (":" + (s + "Z"));
    var r3 := h + (":" + r4);
    var r2 := d + ("T" + r3);
    var r1 := mo + ("-" + r2);
    assert f == y + ("-" + r1);
    hide *;
    Peel(f, 0, y, "-" + r1);
    Peel(f, 4, "-", r1);
    Peel(f, 5, mo, "-" + r2);
    Peel(f, 7, "-", r2);
    Peel(f, 8, d, "T" + r3);
    Peel(f, 10, "T", r3);
    Peel(f, 11, h, ":" + r4);
    Peel(f, 13, ":", r4);
    Peel(f, 14, mi, r5);
    Peel(f, 16, ":", s + "Z");
    Peel(f, 17, s, "Z");
    LayoutReads(t, f);
  }

  /** The next piece of a text. */
  lemma Peel(text: string, from: nat, piece: string, rest: string)
    requires from <= |text| && text[from..] == piece + rest
    ensures from + |piece| + |rest| == |text| && text[from..from + |piece|] == piece
    ensures |piece| == 1 ==> text[from] == piece[0]
    ensures text[from + |piece|..] == rest
  {}

  lemma LayoutReads(t: Time, f: string)
    requires Valid(t) && |f| == 20 && f[0..4] == Padded(t.year, 4) && f[5..7] == Padded(t.month, 2)
    requires f[8..10] == Padded(t.day, 2) && f[11..13] == Padded(t.hour, 2) && f[14..16] == Padded(t.minute, 2)
    requires f[17..19] == Padded(t.second, 2)
    ensures Reads(f, 0, 4, t.year) && Reads(f, 5, 7, t.month) && Reads(f, 8, 10, t.day)
            && Reads(f, 11, 13, t.hour) && Reads(f, 14, 16, t.minute) && Reads(f, 17, 19, t.second)
  {
    assert Pow10(2) == 100 && Pow10(4) == 10000;
    PaddedValue(t.year, 4);
    PaddedValue(t.month, 2);
    PaddedValue(t.day, 2);
    PaddedValue(t.hour, 2);
    PaddedValue(t.minute, 2);
    PaddedValue(t.second, 2);
    hide Padded, IsDigits, Value, Pow10;
  }
}
