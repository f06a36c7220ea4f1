/**
 The string library the parsers and printers use: Split, Join, and decimal numbers.
 */
module Strings {
  import opened Wrappers

  /** strings.Join with a one-character separator. */
  function Join(parts: seq<string>, sep: char): string {
    if parts == [] then ""
    else if |parts| == 1 then parts[0]
    else parts[0] + [sep] + Join(parts[1..], sep)
  }

  /** strings.Split; the empty string has one part. */
  function Split(s: string, sep: char): (parts: seq<string>)
    ensures parts != []
  {
    if s == "" then [""]
    else if s[0] == sep then [""] + Split(s[1..], sep)
    else
      var parts := Split(s[1..], sep);
      [[s[0]] + parts[0]] + parts[1..]
  }

  ghost predicate Free(parts: seq<string>, sep: char) {
    forall k :: 0 <= k < |parts| ==> sep !in parts[k]
  }

  lemma {:induction false} SplitIsFree(s: string, sep: char)
    ensures Free(Split(s, sep), sep)
    decreases |s|
  {
    if s != "" { SplitIsFree(s[1..], sep); }
  }

  lemma {:induction false} JoinSplit(s: string, sep: char)
    ensures Join(Split(s, sep), sep) == s
    decreases |s|
  {
    if s != "" {
      JoinSplit(s[1..], sep);
      var rest := Split(s[1..], sep);
      if s[0] == sep {
        assert ([""] + rest)[1..] == rest;
        assert "" + [sep] + s[1..] == s;
      } else {
        assert ([[s[0]] + rest[0]] + rest[1..])[1..] == rest[1..];
        assert [s[0]] + s[1..] == s;
        if |rest| > 1 {
          assert [s[0]] + rest[0] + [sep] + Join(rest[1..], sep) == [s[0]] + (rest[0] + [sep] + Join(rest[1..], sep));
        }
      }
    }
  }

  /** Splitting off a part that has no separator. */
  lemma {:induction false} SplitPrefix(part: string, rest: string, sep: char)
    requires sep !in part
    ensures Split(part + [sep] + rest, sep) == [part] + Split(rest, sep)
    decreases |part|
  {
    var s := part + [sep] + rest;
    if part == "" {
      assert s[1..] == rest;
    } else {
      assert s[1..] == part[1..] + [sep] + rest;
      SplitPrefix(part[1..], rest, sep);
      assert [part[0]] + part[1..] == part;
    }
  }

  lemma {:induction false} SplitNone(part: string, sep: char)
    requires sep !in part
    ensures Split(part, sep) == [part]
    decreases |part|
  {
    if part != "" {
      SplitNone(part[1..], sep);
      assert [part[0]] + part[1..] == part;
    }
  }

  lemma {:induction false} SplitJoinFree(parts: seq<string>, sep: char)
    requires parts != [] && Free(parts, sep)
    ensures Split(Join(parts, sep), sep) == parts
    decreases |parts|
  {
    if |parts| == 1 {
      SplitNone(parts[0], sep);
    } else {
      SplitJoinFree(parts[1..], sep);
      SplitPrefix(parts[0], Join(parts[1..], sep), sep);
    }
  }

  /** Split undoes Join exactly on non-empty lists of parts without the separator. */
  lemma SplitJoin(parts: seq<string>, sep: char)
    ensures Split(Join(parts, sep), sep) == parts <==> parts != [] && Free(parts, sep)
  {
    SplitIsFree(Join(parts, sep), sep);
    if parts != [] && Free(parts, sep) { SplitJoinFree(parts, sep); }
  }

  lemma {:induction false} JoinEmpty(parts: seq<string>, sep: char)
    ensures Join(parts, sep) == "" <==> parts == [] || parts == [""]
  {
    if |parts| > 1 {
      assert Join(parts, sep)[|parts[0]|] == sep;
    }
  }

  // ----- decimal -----

  const INT64_MIN := -0x8000_0000_0000_0000
  const INT64_MAX := 0x7fff_ffff_ffff_ffff

  function Digits(n: nat): (s: string)
    ensures s != ""
  {
    (if n < 10 then "" else Digits(n / 10)) + [('0' as int + n % 10) as char]
  }

  /** fmt's %d. */
  function Show(n: int): string {
    if n < 0 then "-" + Digits(-n) else Digits(n)
  }

  predicate IsDigits(s: string) {
    s != "" && forall k :: 0 <= k < |s| ==> '0' <= s[k] <= '9'
  }

  function Value(s: string): nat
    requires forall k :: 0 <= k < |s| ==> '0' <= s[k] <= '9'
  {
    if s == "" then 0 else 10 * Value(s[..|s| - 1]) + (s[|s| - 1] as int - '0' as int)
  }

  /** strconv.Atoi on a 64-bit machine: an optional sign, digits, and the range of int64. */
  function Atoi(s: string): Option<int> {
    var digits := if s != "" && (s[0] == '-' || s[0] == '+') then s[1..] else s;
    if !IsDigits(digits) then None
    else
      var n: int := if s[0] == '-' then 0 - Value(digits) else Value(digits);
      if INT64_MIN <= n <= INT64_MAX then Some(n) else None
  }

  lemma {:induction false} DigitsValue(n: nat)
    ensures IsDigits(Digits(n)) && Value(Digits(n)) == n
    decreases n
  {
    if n >= 10 {
      DigitsValue(n / 10);
      assert Digits(n)[..|Digits(n)| - 1] == Digits(n / 10);
    } else {
      assert Digits(n)[..|Digits(n)| - 1] == "";
    }
  }

  lemma AtoiDigits(digits: string)
    requires IsDigits(digits)
    ensures Atoi(digits) == if Value(digits) <= INT64_MAX then Some(Value(digits)) else None
    ensures Atoi("-" + digits) == if Value(digits) <= -INT64_MIN then Some(0 - Value(digits)) else None
  {
    assert '0' <= digits[0] <= '9';
    assert ("-" + digits)[1..] == digits;
    hide Value, IsDigits;
  }

  /** Atoi reads back what %d prints, exactly for the values of an int. */
  lemma AtoiShow(n: int)
    ensures Atoi(Show(n)) == if INT64_MIN <= n <= INT64_MAX then Some(n) else None
  {
    hide Digits, Value, IsDigits, Atoi;
    if n < 0 {
      DigitsValue(-n);
      AtoiDigits(Digits(-n));
    } else {
      DigitsValue(n);
      AtoiDigits(Digits(n));
    }
  }

  /** No leading zero. */
  predicate Canonical(s: string) {
    IsDigits(s) && (|s| > 1 ==> s[0] != '0')
  }

  /** %d prints a number as its digits without a leading zero, after a minus sign if it is negative. */
  lemma {:induction false} DigitsCanonical(n: nat)
    ensures Canonical(Digits(n)) && Value(Digits(n)) == n && (n > 0 ==> Digits(n)[0] != '0')
    decreases n
  {
    DigitsValue(n);
    if n >= 10 {
      DigitsCanonical(n / 10);
      assert Digits(n)[0] == Digits(n / 10)[0];
      hide Value, IsDigits, Canonical;
    }
  }

  lemma ShowCanonical(n: int)
    ensures exists digits :: Canonical(digits) && Value(digits) == (if n < 0 then -n else n) &&
              Show(n) == (if n < 0 then "-" else "") + digits
  {
    var size: nat := if n < 0 then -n else n;
    DigitsCanonical(size);
    assert Show(n) == (if n < 0 then "-" else "") + Digits(size);
    hide Digits, Value, Canonical;
  }

  /** And there is only one such text. */
  lemma {:induction false} DigitsAreOnly(s: string)
    requires Canonical(s)
    ensures s == Digits(Value(s))
    decreases |s|
  {
    var n := |s| - 1;
    LastDigit(Value(s[..n]), s[n]);
    ValueSnoc(s);
    Snoc(s);
    if n > 0 {
      CanonicalPrefix(s);
      DigitsAreOnly(s[..n]);
      LeadsNonZero(s[..n]);
    }
    hide IsDigits, Canonical, Value;
  }

  lemma ValueSnoc(s: string)
    requires IsDigits(s)
    ensures Value(s) == 10 * Value(s[..|s| - 1]) + (s[|s| - 1] as int - '0' as int)
    ensures |s| == 1 ==> Value(s[..|s| - 1]) == 0
  {}

  lemma Snoc(s: string)
    requires s != ""
    ensures s == s[..|s| - 1] + [s[|s| - 1]] && (|s| == 1 ==> s[..|s| - 1] == "")
  {}

  lemma CanonicalPrefix(s: string)
    requires Canonical(s) && |s| > 1
    ensures Canonical(s[..|s| - 1]) && s[0] != '0' && s[..|s| - 1][0] == s[0]
  {}

  lemma LeadsNonZero(s: string)
    requires IsDigits(s) && s[0] != '0' && s == Digits(Value(s))
    ensures Value(s) > 0
  {
    assert Digits(0) == "0";
  }

  lemma LastDigit(v: nat, c: char)
    requires '0' <= c <= '9'
    ensures var n := 10 * v + (c as int - '0' as int);
      n / 10 == v && ('0' as int + n % 10) as char == c && (n < 10 <==> v == 0)
  {}

  /** What Atoi accepts, and as what: digits, with or without a sign, in the range of int64. */
  lemma AtoiExact(s: string, n: int)
    ensures Atoi(s) == Some(n) <==> INT64_MIN <= n <= INT64_MAX && Denotes(s, n)
  {
    hide Atoi, Value, IsDigits, Spells;
    if Atoi(s) == Some(n) { AtoiReads(s, n); }
    if digits :| Spells(s, n, digits) { AtoiSpelled(s, n, digits); }
  }

  lemma AtoiReads(s: string, n: int)
    requires Atoi(s) == Some(n)
    ensures INT64_MIN <= n <= INT64_MAX && Denotes(s, n)
  {
    var digits := if s[0] == '-' || s[0] == '+' then s[1..] else s;
    assert s == (if s[0] == '-' || s[0] == '+' then [s[0]] else "") + digits;
    assert Spells(s, n, digits);
  }

  lemma AtoiSpelled(s: string, n: int, digits: string)
    requires Spells(s, n, digits)
    ensures Atoi(s) == if INT64_MIN <= n <= INT64_MAX then Some(n) else None
  {
    AtoiDigits(digits);
    AtoiPlus(digits);
    hide Atoi, Value, IsDigits;
  }

  lemma AtoiPlus(digits: string)
    requires IsDigits(digits)
    ensures Atoi("+" + digits) == Atoi(digits)
  {
    assert ("+" + digits)[1..] == digits && '0' <= digits[0] <= '9';
  }

  predicate Spells(s: string, n: int, digits: string) {
    IsDigits(digits) &&
    (((s == digits || s == "+" + digits) && n == Value(digits)) || (s == "-" + digits && n == 0 - Value(digits)))
  }

  ghost predicate Denotes(s: string, n: int) {
    exists digits :: Spells(s, n, digits)
  }

  /** Leading zeros do not count. */
  lemma {:induction false} LeadingZero(s: string)
    requires forall k :: 0 <= k < |s| ==> '0' <= s[k] <= '9'
    ensures Value("0" + s) == Value(s)
    decreases |s|
  {
    if s == "" {
      assert ("0" + s)[..0] == "";
    } else {
      var n := |s| - 1;
      assert ("0" + s)[..n + 1] == "0" + s[..n];
      LeadingZero(s[..n]);
    }
  }
}
