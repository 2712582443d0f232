/** Receipt numbers (`generateReceiptNumber`,
    apps/api/src/sales/sales.service.ts): "RCP-" + the UTC date as YYYYMMDD +
    "-" + up to six upper-cased base-36 characters. The clock and
    `Math.random` are parameters: the UTC calendar date of `new Date()` and
    the string `Math.random().toString(36)`. */
module Receipt {
  import opened Wrappers

  datatype UtcDate = UtcDate(year: int, month: int, day: int)

  /** Dates whose `toISOString()` starts with a four-digit year. */
  predicate ValidDate(d: UtcDate) {
    0 <= d.year <= 9999 && 1 <= d.month <= 12 && 1 <= d.day <= 31
  }

  function Pow10(n: nat): nat {
    if n == 0 then 1 else 10 * Pow10(n - 1)
  }

  predicate IsDigit(c: char) { '0' <= c <= '9' }

  function Digit(n: int): char
    requires 0 <= n < 10
  {
    ('0' as int + n) as char
  }

  /** `n` in decimal, zero-padded to `width` digits. */
  function Pad(n: nat, width: nat): (r: string)
    requires n < Pow10(width)
    ensures |r| == width && forall k :: 0 <= k < |r| ==> IsDigit(r[k])
  {
    if width == 0 then "" else Pad(n / 10, width - 1) + [Digit(n % 10)]
  }

  /** The decimal value of a string of digits. */
  function DigitsValue(s: string): nat
    requires forall k :: 0 <= k < |s| ==> IsDigit(s[k])
  {
    if s == [] then 0
    else
      assert IsDigit(s[|s| - 1]);
      10 * DigitsValue(s[..|s| - 1]) + (s[|s| - 1] as int - '0' as int)
  }

  lemma {:induction false} DigitsValuePad(n: nat, width: nat)
    requires n < Pow10(width)
    ensures DigitsValue(Pad(n, width)) == n
  {
    if width > 0 {
      var p := Pad(n, width);
      assert p[..|p| - 1] == Pad(n / 10, width - 1);
      DigitsValuePad(n / 10, width - 1);
    }
  }

  /** `date.toISOString().slice(0, 10)`: "YYYY-MM-DD". */
  function IsoDate(d: UtcDate): string
    requires ValidDate(d)
  {
    Pad(d.year, 4) + "-" + Pad(d.month, 2) + "-" + Pad(d.day, 2)
  }

  /** `.replace(/-/g, '')`. */
  function RemoveDashes(s: string): (r: string)
    ensures forall k :: 0 <= k < |r| ==> r[k] != '-'
  {
    if s == [] then ""
    else RemoveDashes(s[..|s| - 1]) + (if s[|s| - 1] == '-' then "" else [s[|s| - 1]])
  }

  lemma {:induction false} RemoveDashesConcat(a: string, b: string)
    ensures RemoveDashes(a + b) == RemoveDashes(a) + RemoveDashes(b)
    decreases |b|
  {
    if b == [] {
      assert a + b == a;
    } else {
      assert (a + b)[..|a + b| - 1] == a + b[..|b| - 1];
      RemoveDashesConcat(a, b[..|b| - 1]);
    }
  }

  lemma {:induction false} RemoveDashesOfDigits(s: string)
    requires forall k :: 0 <= k < |s| ==> IsDigit(s[k])
    ensures RemoveDashes(s) == s
  {
    if s != [] {
      RemoveDashesOfDigits(s[..|s| - 1]);
    }
  }

  /** The eight-digit date stamp. */
  lemma DateStamp(d: UtcDate)
    requires ValidDate(d)
    ensures RemoveDashes(IsoDate(d)) == Pad(d.year, 4) + Pad(d.month, 2) + Pad(d.day, 2)
  {
    var y, m, dd := Pad(d.year, 4), Pad(d.month, 2), Pad(d.day, 2);
    RemoveDashesConcat(y + "-" + m + "-", dd);
    RemoveDashesConcat(y + "-" + m, "-");
    RemoveDashesConcat(y + "-", m);
    RemoveDashesConcat(y, "-");
    RemoveDashesOfDigits(y);
    RemoveDashesOfDigits(m);
    RemoveDashesOfDigits(dd);
    assert RemoveDashes("-") == "";
  }

  /** `String.prototype.substring(start, end)` for `start <= end`: both ends
      clamped to the string. */
  function Substring(s: string, start: nat, end: nat): (r: string)
    requires start <= end
    ensures |r| <= end - start
  {
    var a := if start < |s| then start else |s|;
    var b := if end < |s| then end else |s|;
    s[a..b]
  }

  function UpperChar(c: char): char {
    if 'a' <= c <= 'z' then (c as int - 32) as char else c
  }

  /** `toUpperCase()` on ASCII text: no small a-z is left, each becomes its
      capital, and every other character is kept in place. */
  function ToUpper(s: string): (r: string)
    ensures |r| == |s|
    ensures forall k :: 0 <= k < |r| ==> !('a' <= r[k] <= 'z')
    ensures forall k :: 0 <= k < |s| && 'a' <= s[k] <= 'z' ==> 'A' <= r[k] <= 'Z'
    ensures forall k :: 0 <= k < |s| && !('a' <= s[k] <= 'z') ==> r[k] == s[k]
  {
    seq(|s|, k requires 0 <= k < |s| => UpperChar(s[k]))
  }

  predicate IsBase36Lower(c: char) { IsDigit(c) || 'a' <= c <= 'z' }

  predicate IsBase36Upper(c: char) { IsDigit(c) || 'A' <= c <= 'Z' }

  /** `Math.random().toString(36).substring(2, 8).toUpperCase()`. */
  function RandomSuffix(base36: string): (r: string)
    ensures |r| <= 6
    ensures (forall k :: 2 <= k < |base36| ==> IsBase36Lower(base36[k])) ==>
      forall k :: 0 <= k < |r| ==> IsBase36Upper(r[k])
  {
    ToUpper(Substring(base36, 2, 8))
  }

  function GenerateReceiptNumber(d: UtcDate, base36: string): (r: string)
    requires ValidDate(d)
    ensures 13 <= |r| <= 19
    ensures r[..4] == "RCP-" && r[12] == '-'
    ensures forall k :: 4 <= k < 12 ==> IsDigit(r[k])
    ensures r[13..] == RandomSuffix(base36)
  {
    DateStamp(d);
    "RCP-" + RemoveDashes(IsoDate(d)) + "-" + RandomSuffix(base36)
  }

  /** Reads the date back out of a receipt number. */
  function ReceiptDate(r: string): Option<UtcDate> {
    if |r| >= 13 && r[..4] == "RCP-" && r[12] == '-' && forall k :: 4 <= k < 12 ==> IsDigit(r[k]) then
      Some(UtcDate(DigitsValue(r[4..8]), DigitsValue(r[8..10]), DigitsValue(r[10..12])))
    else None
  }

  /** A receipt number carries the UTC date it was generated on. */
  lemma ReceiptDateRoundTrip(d: UtcDate, base36: string)
    requires ValidDate(d)
    ensures ReceiptDate(GenerateReceiptNumber(d, base36)) == Some(d)
  {
    var r := GenerateReceiptNumber(d, base36);
    DateStamp(d);
    var y, m, dd := Pad(d.year, 4), Pad(d.month, 2), Pad(d.day, 2);
    assert r == "RCP-" + (y + m + dd) + "-" + RandomSuffix(base36);
    assert r[4..8] == y && r[8..10] == m && r[10..12] == dd;
    DigitsValuePad(d.year, 4);
    DigitsValuePad(d.month, 2);
    DigitsValuePad(d.day, 2);
  }

  /** Receipt numbers generated on the same day differ only if their random
      suffixes differ: nothing else in them can tell two sales apart. */
  lemma SameDaySameSuffixCollide(d: UtcDate, b1: string, b2: string)
    requires ValidDate(d)
    requires RandomSuffix(b1) == RandomSuffix(b2)
    ensures GenerateReceiptNumber(d, b1) == GenerateReceiptNumber(d, b2)
  {
  }
}
