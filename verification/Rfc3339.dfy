/** time.RFC3339Nano for UTC instants: printing with trailing-zero-trimmed fractions, and a reader. */
module Rfc3339 {
  import opened Wrappers
  import opened Decimal

  /** A civil date and time in the proleptic Gregorian calendar. */
  datatype CivilTime = CivilTime(year: int, month: nat, day: nat, hour: nat, minute: nat, second: nat, nanos: nat)

  function DaysIn(year: int, month: nat): (d: nat)
    ensures 28 <= d <= 31
  {
    if month == 2 then (if year % 4 == 0 && (year % 100 != 0 || year % 400 == 0) then 29 else 28)
    else if month in {4, 6, 9, 11} then 30
    else 31
  }

  /** A time.Time counts seconds in 64 bits, which no year of thirteen digits fits. */
  type Civil = t: CivilTime |
    -1_000_000_000_000 < t.year < 1_000_000_000_000 &&
    1 <= t.month <= 12 && 1 <= t.day <= DaysIn(t.year, t.month) &&
    t.hour < 24 && t.minute < 60 && t.second < 60 && t.nanos < 1_000_000_000
    witness CivilTime(1, 1, 1, 0, 0, 0, 0)

  /** The zero time.Time. */
  const ZERO: Civil := CivilTime(1, 1, 1, 0, 0, 0, 0)

  // ----- printing

  /** At least four digits, the sign in front of the padding. */
  function Year(y: int): (s: string)
    ensures |s| >= 4 && 'T' !in s
  {
    if y < 0 then "-" + Pad(-y, 4) else Pad(y, 4)
  }

  function TrimZeros(s: string): string {
    if s != "" && s[|s| - 1] == '0' then TrimZeros(s[..|s| - 1]) else s
  }

  /** Nothing for a whole second; else a point and nine digits without their trailing zeros. */
  function Fraction(nanos: nat): string {
    if nanos == 0 then "" else "." + TrimZeros(Pad(nanos, 9))
  }

  function Date(t: Civil): string {
    Year(t.year) + "-" + Pad(t.month, 2) + "-" + Pad(t.day, 2)
  }

  function Clock(t: Civil): string {
    Pad(t.hour, 2) + ":" + Pad(t.minute, 2) + ":" + Pad(t.second, 2)
  }

  /** t.UTC().Format(time.RFC3339Nano). */
  function Format(t: Civil): string {
    Date(t) + "T" + Clock(t) + Fraction(t.nanos) + "Z"
  }

  /** The same with the zone's offset in minutes; offset zero is UTC. */
  function FormatZoned(t: Civil, offset: int): string {
    Date(t) + "T" + Clock(t) + Fraction(t.nanos) + Zone(offset)
  }

  function Zone(offset: int): string {
    if offset == 0 then "Z"
    else
      var m := if offset < 0 then -offset else offset;
      (if offset < 0 then "-" else "+") + Pad(m / 60, 2) + ":" + Pad(m % 60, 2)
  }

  // ----- reading

  predicate IsYear(s: string) {
    |s| >= 1 && (Digits(s) || (s[0] == '-' && Digits(s[1..])))
  }

  /** The fraction's nanoseconds: digits past the ninth are dropped, missing ones taken as zeros. */
  function ReadFraction(s: string): Option<nat> {
    if s == "" then Some(0)
    else if s[0] == '.' && |s| >= 2 && Digits(s[1..]) then Some(ReadNat((s[1..] + Zeros(10 - |s|))[..9]))
    else None
  }

  /** The index of the first 'T', or the length. */
  function FindT(s: string): (i: nat)
    ensures i <= |s|
  {
    if s == "" || s[0] == 'T' then 0 else 1 + FindT(s[1..])
  }

  function ReadDate(s: string): Option<(int, nat, nat)> {
    var n := |s|;
    if n >= 7 && IsYear(s[..n - 6]) && s[n - 6] == '-' && Digits(s[n - 5..n - 3]) && s[n - 3] == '-' && Digits(s[n - 2..])
    then Some((ReadInt(s[..n - 6]), ReadNat(s[n - 5..n - 3]), ReadNat(s[n - 2..])))
    else None
  }

  function ReadClock(s: string): Option<(nat, nat, nat)> {
    if |s| == 8 && Digits(s[..2]) && s[2] == ':' && Digits(s[3..5]) && s[5] == ':' && Digits(s[6..])
    then Some((ReadNat(s[..2]), ReadNat(s[3..5]), ReadNat(s[6..])))
    else None
  }

  predicate InRange(d: (int, nat, nat), c: (nat, nat, nat), nanos: nat) {
    && -1_000_000_000_000 < d.0 < 1_000_000_000_000 && 1 <= d.1 <= 12 && 1 <= d.2 <= DaysIn(d.0, d.1)
    && c.0 < 24 && c.1 < 60 && c.2 < 60 && nanos < 1_000_000_000
  }

  /** time.Parse of a UTC RFC 3339 time. */
  function Read(s: string): Option<Civil> {
    var i := FindT(s);
    if i + 10 > |s| || s[|s| - 1] != 'Z' then None
    else
      match (ReadDate(s[..i]), ReadClock(s[i + 1..i + 9]), ReadFraction(s[i + 9..|s| - 1]))
      case (Some(d), Some(c), Some(nanos)) =>
        if InRange(d, c, nanos) then Some(CivilTime(d.0, d.1, d.2, c.0, c.1, c.2, nanos)) else None
      case _ => None
  }

  function ReadZone(s: string): Option<int> {
    if |s| == 6 && s[0] in {'+', '-'} && Digits(s[1..3]) && s[3] == ':' && Digits(s[4..]) then
      var h, m := ReadNat(s[1..3]), ReadNat(s[4..]);
      if h < 24 && m < 60 then Some(if s[0] == '-' then -(60 * h + m) else 60 * h + m) else None
    else None
  }

  /** Time.UnmarshalJSON on a string: four year digits, and "Z" or a numeric offset at the end. */
  function ReadStrict(s: string): Option<(Civil, int)> {
    if |s| < 20 || FindT(s) != 10 || s[0] == '-' then None
    else if s[|s| - 1] == 'Z' then
      match Read(s) case Some(t) => Some((t, 0)) case None => None
    else
      match (Read(s[..|s| - 6] + "Z"), ReadZone(s[|s| - 6..]))
      case (Some(t), Some(offset)) => Some((t, offset))
      case _ => None
  }

  // ----- the round trip

  lemma {:induction false} TrimZerosPads(s: string)
    ensures |TrimZeros(s)| <= |s| && TrimZeros(s) + Zeros(|s| - |TrimZeros(s)|) == s
  {
    if s != "" && s[|s| - 1] == '0' {
      TrimZerosPads(s[..|s| - 1]);
      var t := TrimZeros(s);
      var k := |s| - 1 - |t|;
      assert Zeros(k) + "0" == Zeros(k + 1);
      assert s == s[..|s| - 1] + "0";
    }
  }

  lemma {:induction false} TrimZerosToNothing(s: string)
    requires Digits(s) && TrimZeros(s) == ""
    ensures ReadNat(s) == 0
  {
    if s != "" { TrimZerosToNothing(s[..|s| - 1]); }
  }

  lemma ReadFractionBack(nanos: nat)
    requires nanos < 1_000_000_000
    ensures ReadFraction(Fraction(nanos)) == Some(nanos)
  {
    hide Pad, TrimZeros;
    if nanos != 0 {
      var p := Pad(nanos, 9);
      assert Pow10(9) == 1_000_000_000 by {
        assert Pow10(3) == 1000;
        assert Pow10(6) == 1_000_000;
      }
      PadLength(nanos, 9);
      ReadPad(nanos, 9);
      TrimZerosPads(p);
      var t := TrimZeros(p);
      if t == "" { TrimZerosToNothing(p); }
      assert Fraction(nanos)[1..] == t;
      assert (t + Zeros(9 - |t|))[..9] == p;
      assert Digits(t) by { assert forall i :: 0 <= i < |t| ==> t[i] == (t + Zeros(9 - |t|))[i]; }
    }
  }

  lemma TwoDigits(n: nat)
    requires n < 100
    ensures |Pad(n, 2)| == 2 && ReadNat(Pad(n, 2)) == n
  {
    assert Pow10(2) == 100;
    PadLength(n, 2);
    ReadPad(n, 2);
  }

  lemma ReadYear(y: int)
    ensures IsYear(Year(y)) && ReadInt(Year(y)) == y
  {
    hide Pad, ReadNat;
    if y < 0 {
      ReadPad(-y, 4);
      assert Year(y)[1..] == Pad(-y, 4);
    } else {
      ReadPad(y, 4);
      assert Year(y)[0] != '-';
    }
  }

  lemma ReadDateBack(t: Civil)
    ensures ReadDate(Date(t)) == Some((t.year, t.month, t.day)) && 'T' !in Date(t)
  {
    hide Pad, Year, ReadNat, ReadInt;
    var y, m, d := Year(t.year), Pad(t.month, 2), Pad(t.day, 2);
    ReadYear(t.year);
    TwoDigits(t.month);
    TwoDigits(t.day);
    var s := Date(t);
    var n := |s|;
    assert s[..n - 6] == y && s[n - 5..n - 3] == m && s[n - 2..] == d;
  }

  lemma ReadClockBack(t: Civil)
    ensures |Clock(t)| == 8 && ReadClock(Clock(t)) == Some((t.hour, t.minute, t.second))
  {
    TwoDigits(t.hour);
    TwoDigits(t.minute);
    TwoDigits(t.second);
    var s := Clock(t);
    assert s[..2] == Pad(t.hour, 2) && s[3..5] == Pad(t.minute, 2) && s[6..] == Pad(t.second, 2);
  }

  lemma {:induction false} FindTAt(a: string, b: string)
    requires 'T' !in a
    ensures FindT(a + "T" + b) == |a|
  {
    if a != "" {
      assert (a + "T" + b)[1..] == a[1..] + "T" + b;
      FindTAt(a[1..], b);
    }
  }

  lemma Pieces(d: string, c: string, f: string)
    requires 'T' !in d && |c| == 8
    ensures var s := d + "T" + c + f + "Z"; var i := |d|;
      FindT(s) == i && |s| >= i + 10 && s[|s| - 1] == 'Z' && s[..i] == d && s[i + 1..i + 9] == c && s[i + 9..|s| - 1] == f
  {
    hide FindT;
    var s := d + "T" + c + f + "Z";
    assert s == d + "T" + (c + f + "Z");
    FindTAt(d, c + f + "Z");
  }

  /** Reading a printed UTC time gives the time back; so the printing is injective. */
  lemma ReadBack(t: Civil)
    ensures Read(Format(t)) == Some(t)
  {
    hide Date, Clock, Fraction, ReadDate, ReadClock, ReadFraction, FindT;
    ReadDateBack(t);
    ReadClockBack(t);
    ReadFractionBack(t.nanos);
    Pieces(Date(t), Clock(t), Fraction(t.nanos));
  }

  lemma FormatInjective(a: Civil, b: Civil)
    ensures Format(a) == Format(b) <==> a == b
  {
    ReadBack(a);
    ReadBack(b);
  }

  lemma PadAtMost(n: nat, w: nat, most: nat)
    requires 0 < w <= most && n < Pow10(most)
    ensures |Pad(n, w)| <= most
  {
    FormatNatLength(n, most);
  }

  /** No printed time is longer than 39 characters. */
  lemma FormatShort(t: Civil)
    ensures |Format(t)| <= 39
  {
    hide Pad, TrimZeros, FormatNat;
    assert Pow10(12) == 1_000_000_000_000 by {
      assert Pow10(3) == 1000;
      assert Pow10(6) == 1_000_000;
      assert Pow10(9) == 1_000_000_000;
    }
    PadAtMost(if t.year < 0 then -t.year else t.year, 4, 12);
    ReadClockBack(t);
    TwoDigits(t.month);
    TwoDigits(t.day);
    assert |Fraction(t.nanos)| <= 10 by {
      assert Pow10(9) == 1_000_000_000 by {
        assert Pow10(3) == 1000;
        assert Pow10(6) == 1_000_000;
      }
      PadLength(t.nanos, 9);
      TrimZerosPads(Pad(t.nanos, 9));
    }
  }

  lemma ReadZoneBack(offset: int)
    requires -1440 < offset < 1440 && offset != 0
    ensures |Zone(offset)| == 6 && Zone(offset)[5] != 'Z' && ReadZone(Zone(offset)) == Some(offset)
  {
    hide Pad, ReadNat;
    var m := if offset < 0 then -offset else offset;
    TwoDigits(m / 60);
    TwoDigits(m % 60);
    var z := Zone(offset);
    assert z[1..3] == Pad(m / 60, 2) && z[4..] == Pad(m % 60, 2);
    assert IsDigit(Pad(m % 60, 2)[1]);
    assert z[5] == Pad(m % 60, 2)[1];
  }

  lemma DateLength(t: Civil)
    requires 0 <= t.year <= 9999
    ensures |Date(t)| == 10 && Date(t)[0] != '-'
  {
    hide Pad;
    assert Pow10(4) == 10_000;
    PadLength(t.year, 4);
    TwoDigits(t.month);
    TwoDigits(t.day);
    assert IsDigit(Pad(t.year, 4)[0]);
    assert Date(t)[0] == Pad(t.year, 4)[0];
  }

  /** Times of four-digit years survive JSON, instant and zone. */
  lemma ReadStrictBack(t: Civil, offset: int)
    requires 0 <= t.year <= 9999 && -1440 < offset < 1440
    ensures ReadStrict(FormatZoned(t, offset)) == Some((t, offset))
  {
    hide Date, Clock, Fraction, FindT, Read, Zone, ReadZone;
    var d, c, f := Date(t), Clock(t), Fraction(t.nanos);
    DateLength(t);
    ReadDateBack(t);
    ReadClockBack(t);
    ReadBack(t);
    Pieces(d, c, f);
    var s := FormatZoned(t, offset);
    if offset == 0 {
      UTCZone();
      assert s == Format(t);
    } else {
      ReadZoneBack(offset);
      var bare := d + "T" + c + f;
      assert s == bare + Zone(offset);
      assert s[..|s| - 6] == bare && s[|s| - 6..] == Zone(offset) && s[|s| - 1] == Zone(offset)[5];
      assert s == d + "T" + (c + f + Zone(offset));
      FindTAt(d, c + f + Zone(offset));
    }
  }

  lemma UTCZone()
    ensures Zone(0) == "Z"
  {}

  lemma {:induction false} ReadNatBound(s: string)
    requires Digits(s)
    ensures ReadNat(s) < Pow10(|s|)
  {
    if s != "" { ReadNatBound(s[..|s| - 1]); }
  }

  lemma {:induction false} FindTPrefix(a: string, b: string)
    requires FindT(a) < |a| && |b| > FindT(a) && a[..FindT(a) + 1] == b[..FindT(a) + 1]
    ensures FindT(b) == FindT(a)
  {
    assert a[0] == a[..FindT(a) + 1][0] && b[0] == b[..FindT(a) + 1][0];
    if a[0] != 'T' {
      assert a[1..][..FindT(a)] == a[..FindT(a) + 1][1..] && b[1..][..FindT(a)] == b[..FindT(a) + 1][1..];
      FindTPrefix(a[1..], b[1..]);
    }
  }

  lemma ReadYearBound(s: string)
    requires FindT(s) == 10 && s != "" && s[0] != '-' && Read(s).Some?
    ensures 0 <= Read(s).value.year <= 9999
  {
    hide FindT, ReadNat, ReadClock, ReadFraction, Pow10;
    var y := s[..10][..4];
    assert Pow10(4) == 10_000 by { FourDigits(); }
    assert y[0] == s[0] && Digits(y);
    ReadNatBound(y);
  }

  lemma FourDigits()
    ensures Pow10(4) == 10_000
  {}

  /** Only times with a JSON form are ever read. */
  lemma ReadStrictRange(s: string)
    requires ReadStrict(s).Some?
    ensures 0 <= ReadStrict(s).value.0.year <= 9999 && -1440 < ReadStrict(s).value.1 < 1440
  {
    hide FindT, Read;
    if s[|s| - 1] == 'Z' {
      ReadYearBound(s);
    } else {
      var u := s[..|s| - 6] + "Z";
      assert u[..11] == s[..11];
      FindTPrefix(s, u);
      ReadYearBound(u);
    }
  }
}
