/**
 * The store's `created_at` column: a timestamp without time zone, which the
 * database driver hands to the service as a naive Python `datetime`.  The
 * service turns it into text with `datetime.isoformat()`, so this module
 * models that format and proves that a parser recovers the value from the
 * text, and defines the order used by `ORDER BY created_at DESC`.
 */
module Timestamps {
  import opened Wrappers

  /** A naive date and time, to the microsecond. */
  datatype Timestamp = Timestamp(
    year: int, month: int, day: int,
    hour: int, minute: int, second: int, micro: int)

  predicate IsLeapYear(y: int)
  {
    y % 4 == 0 && (y % 100 != 0 || y % 400 == 0)
  }

  function DaysInMonth(y: int, m: int): (d: int)
    requires 1 <= m <= 12
    ensures 28 <= d <= 31
    ensures d == 29 <==> m == 2 && IsLeapYear(y)
  {
    if m == 2 then (if IsLeapYear(y) then 29 else 28)
    else if m == 4 || m == 6 || m == 9 || m == 11 then 30
    else 31
  }

  /** The values a Python `datetime` can hold. */
  predicate Valid(t: Timestamp)
  {
    && 1 <= t.year <= 9999
    && 1 <= t.month <= 12
    && 1 <= t.day <= DaysInMonth(t.year, t.month)
    && 0 <= t.hour < 24
    && 0 <= t.minute < 60
    && 0 <= t.second < 60
    && 0 <= t.micro < 1000000
  }

  /** A nullable column value is valid when it is null or a valid timestamp. */
  predicate ValidStamp(c: Option<Timestamp>)
  {
    c.Some? ==> Valid(c.value)
  }

  // ---------------------------------------------------------------------
  // Decimal digits

  function Pow10(w: nat): (p: nat)
    ensures p >= 1
  {
    if w == 0 then 1 else 10 * Pow10(w - 1)
  }

  predicate IsDigit(c: char)
  {
    '0' <= c <= '9'
  }

  predicate AllDigits(s: string)
  {
    forall i :: 0 <= i < |s| ==> IsDigit(s[i])
  }

  function DigitChar(d: nat): (c: char)
    requires d < 10
    ensures IsDigit(c) && c as int - '0' as int == d
  {
    ('0' as int + d) as char
  }

  /** `n` written with exactly `w` decimal digits, zero-padded on the left. */
  function Pad(n: nat, w: nat): (s: string)
    ensures |s| == w && AllDigits(s)
  {
    if w == 0 then [] else Pad(n / 10, w - 1) + [DigitChar(n % 10)]
  }

  /** The number a string of decimal digits denotes. */
  function DigitsValue(s: string): nat
    requires AllDigits(s)
  {
    if s == [] then 0
    else DigitsValue(s[..|s| - 1]) * 10 + (s[|s| - 1] as int - '0' as int)
  }

  /** Padding loses nothing when the number fits in the width. */
  lemma {:induction false} PadValue(n: nat, w: nat)
    requires n < Pow10(w)
    ensures DigitsValue(Pad(n, w)) == n
  {
    if w > 0 {
      var s := Pad(n, w);
      assert s[..|s| - 1] == Pad(n / 10, w - 1);
      PadValue(n / 10, w - 1);
    }
  }

  // ---------------------------------------------------------------------
  // `datetime.isoformat()` for a naive datetime and its inverse

  /** "YYYY-MM-DD" */
  function DatePart(t: Timestamp): (s: string)
    requires Valid(t)
    ensures |s| == 10
  {
    Pad(t.year, 4) + "-" + Pad(t.month, 2) + "-" + Pad(t.day, 2)
  }

  /** "HH:MM:SS" */
  function TimePart(t: Timestamp): (s: string)
    requires Valid(t)
    ensures |s| == 8
  {
    Pad(t.hour, 2) + ":" + Pad(t.minute, 2) + ":" + Pad(t.second, 2)
  }

  /** "YYYY-MM-DDTHH:MM:SS", followed by ".ffffff" only when the microsecond is not zero. */
  function IsoFormat(t: Timestamp): (s: string)
    requires Valid(t)
    ensures |s| == if t.micro == 0 then 19 else 26
  {
    DatePart(t) + "T" + TimePart(t) + (if t.micro == 0 then "" else "." + Pad(t.micro, 6))
  }

  /** Three numbers of widths `w1`, `w2`, `w3` separated by `sep`, as in "YYYY-MM-DD" or "HH:MM:SS". */
  function ParseTriple(s: string, w1: nat, w2: nat, w3: nat, sep: char): (r: Option<(nat, nat, nat)>)
  {
    if |s| != w1 + w2 + w3 + 2 || s[w1] != sep || s[w1 + 1 + w2] != sep then None
    else
      var a, b, c := s[..w1], s[w1 + 1..w1 + 1 + w2], s[w1 + 2 + w2..];
      if AllDigits(a) && AllDigits(b) && AllDigits(c)
      then Some((DigitsValue(a), DigitsValue(b), DigitsValue(c)))
      else None
  }

  /** Where each piece sits in `a`, `sep`, `b`, `sep`, `c` written one after another. */
  lemma SeparatedPieces(a: string, b: string, c: string, sep: char)
    ensures var s := a + [sep] + b + [sep] + c;
      && |s| == |a| + |b| + |c| + 2
      && s[..|a|] == a && s[|a|] == sep
      && s[|a| + 1..|a| + 1 + |b|] == b && s[|a| + 1 + |b|] == sep
      && s[|a| + 2 + |b|..] == c
  {
  }

  /** `ParseTriple` reads the values of three digit strings joined by the separator. */
  lemma TripleParse(a: string, b: string, c: string, sep: char)
    requires AllDigits(a) && AllDigits(b) && AllDigits(c)
    ensures ParseTriple(a + [sep] + b + [sep] + c, |a|, |b|, |c|, sep)
            == Some((DigitsValue(a), DigitsValue(b), DigitsValue(c)))
  {
    SeparatedPieces(a, b, c, sep);
  }

  /** The three numbers `ParseTriple` reads back from what it would be given. */
  lemma TripleRoundTrip(x: nat, y: nat, z: nat, w1: nat, w2: nat, w3: nat, sep: char)
    requires x < Pow10(w1) && y < Pow10(w2) && z < Pow10(w3)
    ensures ParseTriple(Pad(x, w1) + [sep] + Pad(y, w2) + [sep] + Pad(z, w3), w1, w2, w3, sep)
            == Some((x, y, z))
  {
    TripleParse(Pad(x, w1), Pad(y, w2), Pad(z, w3), sep);
    PadValue(x, w1);
    PadValue(y, w2);
    PadValue(z, w3);
  }

  /** Reads back the text `IsoFormat` writes; `None` for any other text or an impossible date. */
  function ParseIso(s: string): (r: Option<Timestamp>)
    ensures r.Some? ==> Valid(r.value)
  {
    if !(|s| == 19 || (|s| == 26 && s[19] == '.')) || s[10] != 'T' then None
    else if |s| == 26 && !AllDigits(s[20..]) then None
    else
      match (ParseTriple(s[..10], 4, 2, 2, '-'), ParseTriple(s[11..19], 2, 2, 2, ':'))
      case (Some((y, mo, d)), Some((h, mi, sec))) =>
        var t := Timestamp(y, mo, d, h, mi, sec, if |s| == 26 then DigitsValue(s[20..]) else 0);
        if Valid(t) then Some(t) else None
      case _ => None
  }

  /** Where each piece sits in `a`, `sep`, `b`, `c` written one after another. */
  lemma JoinedPieces(a: string, sep: char, b: string, c: string)
    ensures var s := a + [sep] + b + c;
      && s[..|a|] == a && s[|a|] == sep
      && s[|a| + 1..|a| + 1 + |b|] == b && s[|a| + 1 + |b|..] == c
  {
  }

  /** Where the date, the time and the fraction sit in the text `IsoFormat` writes. */
  lemma IsoLayout(t: Timestamp)
    requires Valid(t)
    ensures var s := IsoFormat(t);
      && s[..10] == DatePart(t) && s[10] == 'T' && s[11..19] == TimePart(t)
      && (t.micro != 0 ==> s[19] == '.' && s[20..] == Pad(t.micro, 6))
  {
    var frac := if t.micro == 0 then "" else "." + Pad(t.micro, 6);
    JoinedPieces(DatePart(t), 'T', TimePart(t), frac);
    if t.micro != 0 {
      var s := IsoFormat(t);
      assert s[19..] == frac;
      assert frac[1..] == Pad(t.micro, 6);
    }
  }

  /** Every valid timestamp survives being written as ISO text and read back. */
  lemma IsoRoundTrip(t: Timestamp)
    requires Valid(t)
    ensures ParseIso(IsoFormat(t)) == Some(t)
  {
    IsoLayout(t);
    TripleRoundTrip(t.year, t.month, t.day, 4, 2, 2, '-');
    TripleRoundTrip(t.hour, t.minute, t.second, 2, 2, 2, ':');
    PadValue(t.micro, 6);
  }

  // ---------------------------------------------------------------------
  // Order

  /** `a` is not later than `b`: chronological order, field by field. */
  predicate NotAfter(a: Timestamp, b: Timestamp)
  {
    if a.year != b.year then a.year < b.year
    else if a.month != b.month then a.month < b.month
    else if a.day != b.day then a.day < b.day
    else if a.hour != b.hour then a.hour < b.hour
    else if a.minute != b.minute then a.minute < b.minute
    else if a.second != b.second then a.second < b.second
    else a.micro <= b.micro
  }

  /**
   * A row stamped `a` may be listed before a row stamped `b` under
   * `ORDER BY created_at DESC`: later stamps first, and a null stamp, which
   * the database sorts as larger than every value, before all others.
   */
  predicate ListedBefore(a: Option<Timestamp>, b: Option<Timestamp>)
  {
    a.None? || (b.Some? && NotAfter(b.value, a.value))
  }

  lemma ListedBeforeTotal(a: Option<Timestamp>, b: Option<Timestamp>)
    ensures ListedBefore(a, b) || ListedBefore(b, a)
  {
  }

  lemma ListedBeforeTransitive(a: Option<Timestamp>, b: Option<Timestamp>, c: Option<Timestamp>)
    requires ListedBefore(a, b) && ListedBefore(b, c)
    ensures ListedBefore(a, c)
  {
  }
}
