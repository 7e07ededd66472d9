/** Lyrics timestamps: reading `h:m:s.f`, `m:s.f` or `s.f`, and printing `mm:ss.mmm`. */
module Timestamps {
  import opened Sequences
  import opened Text

  /** `str::split_once` on a dot, or the whole string and nothing when there is none. */
  function SplitDot(s: string): (r: (string, string))
    ensures '.' !in r.0
    ensures s == r.0 + (if '.' in s then "." + r.1 else "") && ('.' !in s ==> r.1 == "")
  {
    if s == [] then ("", "")
    else if s[0] == '.' then ("", s[1..])
    else var r := SplitDot(s[1..]); ([s[0]] + r.0, r.1)
  }

  function Min3(n: nat): nat {
    if n < 3 then n else 3
  }

  /** A decimal fraction of a second in whole milliseconds; further digits are cut off. */
  function Fraction(digits: string): Option<nat> {
    if AllDigits(digits) then Some(Value(digits[..Min3(|digits|)]) * Power10(3 - Min3(|digits|))) else None
  }

  function Number(s: string): Option<nat> {
    ParseUnsigned(s, U64)
  }

  /** 64-bit arithmetic, wrapping around. */
  function Total(hours: nat, minutes: nat, seconds: nat, milliseconds: nat): nat {
    ((hours * 3_600 + minutes * 60 + seconds) * 1_000 + milliseconds) % U64
  }

  function Assemble(hours: Option<nat>, minutes: Option<nat>, rest: string): Option<nat> {
    var (whole, digits) := SplitDot(rest);
    if hours == None || minutes == None || Number(whole) == None || Fraction(digits) == None then None
    else Some(Total(hours.value, minutes.value, Number(whole).value, Fraction(digits).value))
  }

  function ParseMillis(s: string): Option<nat> {
    var parts := Split(Trim(s), ':');
    if |parts| == 1 then Assemble(Some(0), Some(0), parts[0])
    else if |parts| == 2 then Assemble(Some(0), Number(parts[0]), parts[1])
    else if |parts| == 3 then Assemble(Number(parts[0]), Number(parts[1]), parts[2])
    else None
  }

  function Print(t: nat): string {
    Padded(t / 60_000, 2) + ":" + (Padded(t / 1_000 % 60, 2) + "." + Padded(t % 1_000, 3))
  }

  function FormatTimestamp(s: string): string {
    var t := ParseMillis(s);
    Print(if t.Some? then t.value else 0)
  }

  // ----- The loops of the fraction -----

  lemma {:induction false} DigitsAreBytes(digits: string)
    requires AllDigits(digits)
    ensures |Encode(digits)| == |digits|
    ensures forall i :: 0 <= i < |digits| ==> Encode(digits)[i] == digits[i] as int
  {
    if digits != [] {
      assert digits[0] in digits && IsDigit(digits[0]);
      DigitsAreBytes(digits[1..]);
      assert EncodeChar(digits[0]) == [digits[0] as int];
      assert Encode(digits) == [digits[0] as int] + Encode(digits[1..]);
    }
  }

  /** Folds up to three bytes, checks all of them, then scales to milliseconds. */
  method ReadFraction(digits: string) returns (r: Option<nat>)
    ensures r == Fraction(digits)
  {
    var bytes := Encode(digits);
    var milliseconds: nat := 0;
    if AllDigits(digits) {
      DigitsAreBytes(digits);
    }
    for i := 0 to Min3(|bytes|)
      invariant AllDigits(digits) ==> milliseconds == Value(digits[..i])
    {
      if AllDigits(digits) {
        assert digits[..i + 1][..i] == digits[..i];
      }
      milliseconds := milliseconds * 10 + (bytes[i] + 256 - '0' as int) % 256;
    }
    if digits != "" && !AllDigits(digits) {
      return None;
    }
    ghost var first := milliseconds;
    for i := Min3(|bytes|) to 3
      invariant milliseconds == first * Power10(i - Min3(|bytes|))
    {
      milliseconds := milliseconds * 10;
    }
    r := Some(milliseconds);
  }

  /** Dropping the last digits divides by a power of ten. */
  lemma {:induction false} PrefixValue(digits: string, k: nat)
    requires AllDigits(digits) && k <= |digits|
    ensures Value(digits[..k]) * Power10(|digits| - k) <= Value(digits)
    ensures Value(digits) < (Value(digits[..k]) + 1) * Power10(|digits| - k)
  {
    if k == |digits| {
      assert digits[..k] == digits;
    } else {
      var front := digits[..|digits| - 1];
      assert front[..k] == digits[..k];
      PrefixValue(front, k);
      Shift(Value(digits[..k]), Power10(|front| - k), Value(front), DigitValue(digits[|digits| - 1]));
    }
  }

  lemma Shift(v: nat, power: nat, front: nat, digit: nat)
    requires v * power <= front < (v + 1) * power && digit < 10
    ensures v * (10 * power) <= front * 10 + digit < (v + 1) * (10 * power)
  {
    assert v * (10 * power) == 10 * (v * power);
    assert (v + 1) * (10 * power) == 10 * ((v + 1) * power);
  }

  /** `ms` thousandths are the fraction `value / power`, rounded down. */
  predicate RoundedDown(ms: nat, value: nat, power: nat) {
    ms * power <= value * 1_000 < (ms + 1) * power
  }

  /** The fraction is the decimal fraction of a second, rounded down to milliseconds. */
  lemma FractionRoundsDown(digits: string)
    requires AllDigits(digits)
    ensures RoundedDown(Fraction(digits).value, Value(digits), Power10(|digits|))
  {
    if |digits| < 3 {
      ShortFraction(digits);
    } else {
      LongFraction(digits);
    }
  }

  lemma ShortFraction(digits: string)
    requires AllDigits(digits) && |digits| < 3
    ensures RoundedDown(Fraction(digits).value, Value(digits), Power10(|digits|))
  {
    hide RoundedDown, Value, Power10;
    assert digits[..|digits|] == digits;
    ScaleUp(Value(digits), |digits|);
  }

  lemma LongFraction(digits: string)
    requires AllDigits(digits) && |digits| >= 3
    ensures RoundedDown(Fraction(digits).value, Value(digits), Power10(|digits|))
  {
    hide RoundedDown, Fraction, Value, Power10;
    PrefixValue(digits, 3);
    PowerSum(|digits| - 3);
    Scale(Value(digits[..3]), Power10(|digits| - 3), Value(digits), Power10(|digits|));
    NoScaling(digits);
  }

  lemma NoScaling(digits: string)
    requires AllDigits(digits) && |digits| >= 3
    ensures Fraction(digits).value == Value(digits[..3])
  {
    PowersOfTen();
  }

  lemma ScaleUp(v: nat, n: nat)
    requires n < 3
    ensures RoundedDown(v * Power10(3 - n), v, Power10(n))
  {
    PowersOfTen();
  }

  lemma PowerSum(n: nat)
    ensures Power10(n + 3) == 1_000 * Power10(n)
  {
    assert Power10(n + 3) == 10 * Power10(n + 2) && Power10(n + 2) == 10 * Power10(n + 1);
  }

  lemma Scale(v: nat, power: nat, total: nat, big: nat)
    requires v * power <= total < (v + 1) * power && big == 1_000 * power
    ensures RoundedDown(v, total, big)
  {
    assert v * big == 1_000 * (v * power) && (v + 1) * big == 1_000 * ((v + 1) * power);
  }

  method ReadMillis(s: string) returns (r: Option<nat>)
    ensures r == ParseMillis(s)
  {
    hide Fraction, Split, Trim;
    var parts := Split(Trim(s), ':');
    var hours, minutes := Some(0), Some(0);
    if |parts| == 2 {
      minutes := Number(parts[0]);
    } else if |parts| == 3 {
      hours, minutes := Number(parts[0]), Number(parts[1]);
    } else if |parts| != 1 {
      return None;
    }
    if hours == None || minutes == None {
      return None;
    }
    var (whole, digits) := SplitDot(parts[|parts| - 1]);
    var seconds := Number(whole);
    if seconds == None {
      return None;
    }
    var milliseconds := ReadFraction(digits);
    if milliseconds == None {
      return None;
    }
    return Some(Total(hours.value, minutes.value, seconds.value, milliseconds.value));
  }

  // ----- Round trips -----

  lemma PaddedLength(n: nat, width: nat)
    requires width >= 1 && n < Power10(width)
    ensures |Padded(n, width)| == width
  {
    DecimalLength(n, width);
  }

  lemma {:induction false} DotSplits(whole: string, digits: string)
    requires '.' !in whole
    ensures SplitDot(whole + "." + digits) == (whole, digits)
  {
    var s := whole + "." + digits;
    if whole == [] {
      assert s[1..] == digits;
    } else {
      assert s[1..] == whole[1..] + "." + digits;
      DotSplits(whole[1..], digits);
      assert [s[0]] + whole[1..] == whole;
    }
  }

  predicate Plain(s: string) {
    s != [] && AllDigits(s)
  }

  lemma PlainIsClean(s: string)
    requires Plain(s)
    ensures ':' !in s && '.' !in s && !IsWhitespace(s[0]) && !IsWhitespace(s[|s| - 1])
  {
    assert s[0] in s && s[|s| - 1] in s;
    assert !IsDigit(':') && !IsDigit('.');
  }

  /** A spelling with a fraction, without its colons. */
  function Seconds(whole: string, digits: string): string {
    whole + "." + digits
  }

  lemma SecondsAreClean(whole: string, digits: string)
    requires Plain(whole) && Plain(digits)
    ensures var s := Seconds(whole, digits);
      s != [] && ':' !in s && !IsWhitespace(s[0]) && !IsWhitespace(s[|s| - 1])
  {
    PlainIsClean(whole);
    PlainIsClean(digits);
    var s := Seconds(whole, digits);
    assert s[0] == whole[0] && s[|s| - 1] == digits[|digits| - 1];
  }

  lemma AssembleSeconds(hours: Option<nat>, minutes: Option<nat>, whole: string, digits: string)
    requires Plain(whole) && Plain(digits)
    ensures Assemble(hours, minutes, Seconds(whole, digits)) ==
      if hours == None || minutes == None || Number(whole) == None then None
      else Some(Total(hours.value, minutes.value, Number(whole).value, Fraction(digits).value))
  {
    hide Number, Fraction, Total;
    PlainIsClean(whole);
    DotSplits(whole, digits);
    FractionOfDigits(digits);
  }

  lemma FractionOfDigits(digits: string)
    requires AllDigits(digits)
    ensures Fraction(digits).Some?
  {
  }

  /** What `m:s.f` means, for any digits. */
  lemma MinutesAndSeconds(minutes: string, whole: string, digits: string)
    requires Plain(minutes) && Plain(whole) && Plain(digits)
    ensures ParseMillis(minutes + ":" + Seconds(whole, digits))
         == Assemble(Some(0), Number(minutes), Seconds(whole, digits))
  {
    hide Assemble, Number, Plain, Seconds, Trim, Split;
    var rest := Seconds(whole, digits);
    var s := minutes + ":" + rest;
    SecondsAreClean(whole, digits);
    MinutesAreClean(minutes);
    assert s[0] == minutes[0] && s[|s| - 1] == rest[|rest| - 1];
    TrimKeeps(s);
    SplitJoin(minutes, rest, ':');
    SplitWhole(rest, ':');
  }

  lemma MinutesAreClean(minutes: string)
    requires Plain(minutes)
    ensures minutes != [] && ':' !in minutes && !IsWhitespace(minutes[0])
  {
    PlainIsClean(minutes);
  }

  /** What `h:m:s.f` means, for any digits. */
  lemma HoursMinutesAndSeconds(hours: string, minutes: string, whole: string, digits: string)
    requires Plain(hours) && Plain(minutes) && Plain(whole) && Plain(digits)
    ensures ParseMillis(hours + ":" + (minutes + ":" + Seconds(whole, digits)))
         == Assemble(Number(hours), Number(minutes), Seconds(whole, digits))
  {
    hide Assemble, Number, Plain, Seconds, Trim, Split;
    var rest := Seconds(whole, digits);
    var tail := minutes + ":" + rest;
    var s := hours + ":" + tail;
    SecondsAreClean(whole, digits);
    MinutesAreClean(hours);
    MinutesAreClean(minutes);
    assert s[0] == hours[0] && s[|s| - 1] == rest[|rest| - 1];
    TrimKeeps(s);
    SplitJoin(hours, tail, ':');
    SplitJoin(minutes, rest, ':');
    SplitWhole(rest, ':');
  }

  lemma PowersOfTen()
    ensures Power10(0) == 1 && Power10(1) == 10 && Power10(2) == 100 && Power10(3) == 1_000
  {
  }

  lemma ThreeDigits(f: nat)
    requires f < 1_000
    ensures Plain(Padded(f, 3)) && Fraction(Padded(f, 3)) == Some(f)
  {
    PowersOfTen();
    PaddedLength(f, 3);
    PaddedValue(f, 3);
    var digits := Padded(f, 3);
    assert digits[..3] == digits;
  }

  lemma TotalOfParts(t: nat)
    requires t < U64
    ensures Total(0, t / 60_000, t / 1_000 % 60, t % 1_000) == t
    ensures t / 60_000 < U64 && t / 1_000 % 60 < U64
  {
    var total := t / 1_000;
    assert total / 60 == t / 60_000;
    assert total / 60 * 60 + total % 60 == total;
    assert total * 1_000 + t % 1_000 == t;
  }

  /** Reading a printed instant gives it back. */
  lemma RoundTrip(t: nat)
    requires t < U64
    ensures ParseMillis(Print(t)) == Some(t)
  {
    hide ParseMillis, Assemble, Total, Fraction, Padded, ParseUnsigned;
    var m, s, f := t / 60_000, t / 1_000 % 60, t % 1_000;
    TotalOfParts(t);
    ThreeDigits(f);
    ParsePadded(m, 2, U64);
    ParsePadded(s, 2, U64);
    MinutesAndSeconds(Padded(m, 2), Padded(s, 2), Padded(f, 3));
    AssembleSeconds(Some(0), Number(Padded(m, 2)), Padded(s, 2), Padded(f, 3));
  }

  lemma ReadsBelow64Bits(s: string)
    ensures ParseMillis(s).Some? ==> ParseMillis(s).value < U64
  {
    hide Number, Fraction, SplitDot, Split, Trim;
  }

  /** Printing is idempotent. */
  lemma FormatIsIdempotent(s: string)
    ensures FormatTimestamp(FormatTimestamp(s)) == FormatTimestamp(s)
  {
    hide ParseMillis, Print;
    ReadsBelow64Bits(s);
    RoundTrip(if ParseMillis(s).Some? then ParseMillis(s).value else 0);
  }

  /** Two accepted spellings print the same exactly when they mean the same instant. */
  lemma SameInstantSamePrint(a: string, b: string)
    requires ParseMillis(a).Some? && ParseMillis(b).Some?
    ensures FormatTimestamp(a) == FormatTimestamp(b) <==> ParseMillis(a) == ParseMillis(b)
  {
    hide ParseMillis, Print;
    ReadsBelow64Bits(a);
    ReadsBelow64Bits(b);
    RoundTrip(ParseMillis(a).value);
    RoundTrip(ParseMillis(b).value);
  }

  /** Hours may be written as sixty minutes each, whatever the fraction. */
  lemma HoursAreSixtyMinutes(h: nat, m: nat, whole: string, digits: string)
    requires h * 60 + m < U64 && Plain(whole) && Plain(digits)
    ensures ParseMillis(Decimal(h) + ":" + (Decimal(m) + ":" + Seconds(whole, digits)))
         == ParseMillis(Decimal(h * 60 + m) + ":" + Seconds(whole, digits))
  {
    hide ParseMillis, Assemble, Fraction, ParseUnsigned, Decimal, Seconds;
    HoursMinutesAndSeconds(Decimal(h), Decimal(m), whole, digits);
    MinutesAndSeconds(Decimal(h * 60 + m), whole, digits);
    ParseDecimal(h, U64);
    ParseDecimal(m, U64);
    ParseDecimal(h * 60 + m, U64);
    AssembleSeconds(Number(Decimal(h)), Number(Decimal(m)), whole, digits);
    AssembleSeconds(Some(0), Number(Decimal(h * 60 + m)), whole, digits);
  }

  // ----- Every accepted spelling, and what it means -----

  lemma SecondsAlone(whole: string, digits: string)
    requires Plain(whole) && Plain(digits)
    ensures ParseMillis(Seconds(whole, digits)) == Assemble(Some(0), Some(0), Seconds(whole, digits))
    ensures ParseMillis(whole) == Assemble(Some(0), Some(0), whole)
  {
    hide Assemble, Number, Plain, Seconds, Trim, Split;
    SecondsAreClean(whole, digits);
    TrimKeeps(Seconds(whole, digits));
    SplitWhole(Seconds(whole, digits), ':');
    PlainIsClean(whole);
    MinutesAreClean(whole);
    TrimKeeps(whole);
    SplitWhole(whole, ':');
  }

  lemma AssembleWhole(whole: string)
    requires Plain(whole) && Number(whole).Some?
    ensures Assemble(Some(0), Some(0), whole) == Some(Total(0, 0, Number(whole).value, 0))
  {
    hide Number, Total;
    PlainIsClean(whole);
    SplitWithoutDot(whole);
    assert Fraction("") == Some(0) by {
      PowersOfTen();
    }
  }

  lemma SplitWithoutDot(s: string)
    requires '.' !in s
    ensures SplitDot(s) == (s, "")
  {
    assert SplitDot(s).0 + "" == SplitDot(s).0;
  }

  lemma TotalIs(h: nat, m: nat, w: nat, ms: nat)
    ensures Total(h, m, w, ms) == (h * 3_600_000 + m * 60_000 + w * 1_000 + ms) % U64
  {
  }

  lemma NumbersArePlain(h: nat, m: nat, w: nat)
    ensures Plain(Decimal(h)) && Plain(Decimal(m)) && Plain(Decimal(w))
  {
  }

  lemma HoursMean(h: nat, m: nat, w: nat, digits: string, ms: nat)
    requires h < U64 && m < U64 && w < U64 && Plain(digits) && Fraction(digits) == Some(ms)
    ensures ParseMillis(Decimal(h) + ":" + (Decimal(m) + ":" + Seconds(Decimal(w), digits)))
         == Some((h * 3_600_000 + m * 60_000 + w * 1_000 + ms) % U64)
  {
    hide ParseMillis, Assemble, Fraction, ParseUnsigned, Decimal, Seconds, Total, Plain;
    NumbersArePlain(h, m, w);
    HoursMinutesAndSeconds(Decimal(h), Decimal(m), Decimal(w), digits);
    ParseDecimal(h, U64);
    ParseDecimal(m, U64);
    ParseDecimal(w, U64);
    AssembleSeconds(Number(Decimal(h)), Number(Decimal(m)), Decimal(w), digits);
    TotalIs(h, m, w, ms);
  }

  lemma MinutesMean(m: nat, w: nat, digits: string, ms: nat)
    requires m < U64 && w < U64 && Plain(digits) && Fraction(digits) == Some(ms)
    ensures ParseMillis(Decimal(m) + ":" + Seconds(Decimal(w), digits)) == Some((m * 60_000 + w * 1_000 + ms) % U64)
  {
    hide ParseMillis, Assemble, Fraction, ParseUnsigned, Decimal, Seconds, Total, Plain;
    NumbersArePlain(0, m, w);
    MinutesAndSeconds(Decimal(m), Decimal(w), digits);
    ParseDecimal(m, U64);
    ParseDecimal(w, U64);
    AssembleSeconds(Some(0), Number(Decimal(m)), Decimal(w), digits);
    TotalIs(0, m, w, ms);
  }

  lemma SecondsMean(w: nat, digits: string, ms: nat)
    requires w < U64 && Plain(digits) && Fraction(digits) == Some(ms)
    ensures ParseMillis(Seconds(Decimal(w), digits)) == Some((w * 1_000 + ms) % U64)
    ensures ParseMillis(Decimal(w)) == Some(w * 1_000 % U64)
  {
    hide ParseMillis, Assemble, Fraction, ParseUnsigned, Decimal, Seconds, Total, Plain;
    NumbersArePlain(0, 0, w);
    SecondsAlone(Decimal(w), digits);
    ParseDecimal(w, U64);
    AssembleSeconds(Some(0), Some(0), Decimal(w), digits);
    AssembleWhole(Decimal(w));
    TotalIs(0, 0, w, ms);
    TotalIs(0, 0, w, 0);
  }

  /** The four ways to write an instant, in milliseconds modulo 2^64; the fraction is rounded down. */
  lemma SpellingsMean(h: nat, m: nat, w: nat, digits: string, ms: nat)
    requires h < U64 && m < U64 && w < U64 && Plain(digits) && Fraction(digits) == Some(ms)
    ensures var seconds := Seconds(Decimal(w), digits);
      && ParseMillis(Decimal(h) + ":" + (Decimal(m) + ":" + seconds))
           == Some((h * 3_600_000 + m * 60_000 + w * 1_000 + ms) % U64)
      && ParseMillis(Decimal(m) + ":" + seconds) == Some((m * 60_000 + w * 1_000 + ms) % U64)
      && ParseMillis(seconds) == Some((w * 1_000 + ms) % U64)
      && ParseMillis(Decimal(w)) == Some(w * 1_000 % U64)
    ensures RoundedDown(ms, Value(digits), Power10(|digits|))
  {
    FractionRoundsDown(digits);
    HoursMean(h, m, w, digits, ms);
    MinutesMean(m, w, digits, ms);
    SecondsMean(w, digits, ms);
    hide *;
  }

  /** The seconds with or without a fraction: everything behind the first dot is digits. */
  predicate SecondsField(field: string) {
    exists k ::
      && 0 <= k <= |field| && '.' !in field[..k] && (k < |field| ==> field[k] == '.')
      && Number(field[..k]).Some? && (k < |field| ==> AllDigits(field[k + 1..]))
  }

  lemma {:induction false} FirstDot(field: string, k: nat)
    requires k <= |field| && '.' !in field[..k] && (k < |field| ==> field[k] == '.')
    ensures SplitDot(field).0 == field[..k]
    ensures SplitDot(field).1 == if k < |field| then field[k + 1..] else ""
  {
    if k > 0 {
      var rest := field[1..];
      assert field[..k] == [field[0]] + rest[..k - 1];
      assert field[0] in field[..k];
      FirstDot(rest, k - 1);
      if k < |field| {
        assert rest[k..] == field[k + 1..];
      }
    }
  }

  lemma SecondsFieldIff(field: string)
    ensures SecondsField(field) <==> Number(SplitDot(field).0).Some? && Fraction(SplitDot(field).1).Some?
  {
    hide Number, SplitDot, Value, Power10;
    if SecondsField(field) {
      var k: nat :| k <= |field| && '.' !in field[..k] && (k < |field| ==> field[k] == '.')
        && Number(field[..k]).Some? && (k < |field| ==> AllDigits(field[k + 1..]));
      FirstDot(field, k);
    } else {
      var (whole, digits) := SplitDot(field);
      var k := |whole|;
      assert field[..k] == whole && (k < |field| ==> field[k] == '.' && field[k + 1..] == digits);
    }
  }

  /** A spelling is accepted exactly when it has up to three fields, numbers before a field of seconds. */
  lemma ReadsIff(s: string)
    ensures var parts := Split(Trim(s), ':');
      ParseMillis(s).Some? <==>
        && |parts| <= 3 && SecondsField(parts[|parts| - 1])
        && forall i :: 0 <= i < |parts| - 1 ==> Number(parts[i]).Some?
  {
    hide Number, Fraction, SplitDot, Split, Trim, SecondsField;
    var parts := Split(Trim(s), ':');
    SecondsFieldIff(parts[|parts| - 1]);
  }
}
