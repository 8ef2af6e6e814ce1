/** The run-time phrase " in H hours M minutes and S.SS seconds", over a
    duration given in whole hundredths of a second. */
module Humanize {

  /** A duration as whole hours, the whole minutes left over, and the
      hundredths of a second left over. */
  datatype Split = Split(hours: nat, minutes: nat, centis: nat)

  const CentisPerMinute: nat := 6000
  const MinutesPerHour: nat := 60

  /** The duration a split stands for, in hundredths of a second. */
  function Total(d: Split): nat {
    (d.hours * MinutesPerHour + d.minutes) * CentisPerMinute + d.centis
  }

  predicate Normal(d: Split) {
    d.minutes < MinutesPerHour && d.centis < CentisPerMinute
  }

  /** Minutes and seconds by one division by sixty seconds, then hours and
      minutes by a second division by sixty. */
  function SplitDuration(total: nat): (d: Split)
    ensures Normal(d)
    ensures Total(d) == total
  {
    var minutes, centis := total / CentisPerMinute, total % CentisPerMinute;
    Split(minutes / MinutesPerHour, minutes % MinutesPerHour, centis)
  }

  /** A normal split is the only one of its total: splitting its total gives it back. */
  lemma SplitUnique(d: Split)
    requires Normal(d)
    ensures SplitDuration(Total(d)) == d
  {
    var m := d.hours * 60 + d.minutes;
    assert Total(d) == m * 6000 + d.centis;
    assert Total(d) / 6000 == m;
    assert m / 60 == d.hours;
  }

  // ---------------------------------------------------------------------------
  // Decimal numerals

  predicate IsDigit(c: char) {
    '0' <= c <= '9'
  }

  predicate AllDigits(s: string) {
    forall i :: 0 <= i < |s| ==> IsDigit(s[i])
  }

  function Digit(d: nat): (c: char)
    requires d < 10
    ensures IsDigit(c)
  {
    ('0' as int + d) as char
  }

  function DigitValue(c: char): (d: nat)
    requires IsDigit(c)
    ensures d < 10
    ensures c == Digit(d)
  {
    c as int - '0' as int
  }

  /** The numeral of `n` with no leading zero, "0" for zero. */
  function Decimal(n: nat): (s: string)
    ensures |s| > 0 && AllDigits(s)
    ensures s[0] == '0' ==> n == 0
  {
    if n < 10 then [Digit(n)] else Decimal(n / 10) + [Digit(n % 10)]
  }

  /** The number a string of digits spells. */
  function ValueOf(s: string): nat
    requires AllDigits(s)
  {
    if s == [] then 0 else ValueOf(s[..|s| - 1]) * 10 + DigitValue(s[|s| - 1])
  }

  /** Reading a numeral back gives the number it was written from. */
  lemma {:induction false} ValueOfDecimal(n: nat)
    ensures ValueOf(Decimal(n)) == n
  {
    if n >= 10 {
      ValueOfDecimal(n / 10);
      var s := Decimal(n);
      assert s[..|s| - 1] == Decimal(n / 10);
    }
  }

  /** The two-place fraction of `.2f` formatting, hundredths given. */
  function Fraction(centis: nat): string {
    [Digit(centis / 10 % 10), Digit(centis % 10)]
  }

  /** Seconds with exactly two digits after the point. */
  function Seconds(centis: nat): string {
    Decimal(centis / 100) + "." + Fraction(centis)
  }

  /** The fixed phrase around the three numbers. */
  function Phrase(hours: string, minutes: string, seconds: string): string {
    " in " + hours + " hours " + minutes + " minutes and " + seconds + " seconds"
  }

  /** The phrase for a duration of `total` hundredths of a second: whole hours,
      the minutes left within the hour, and the seconds left within the minute. */
  function HumanizeExecutionTime(total: nat): (r: string)
    ensures r == Phrase(Decimal(total / 360000), Decimal(total / 6000 % 60), Seconds(total % 6000))
  {
    var d := SplitDuration(total);
    SplitClosedForm(total);
    Phrase(Decimal(d.hours), Decimal(d.minutes), Seconds(d.centis))
  }

  /** The two divisions of the split, each written as one division of the total. */
  lemma SplitClosedForm(total: nat)
    ensures SplitDuration(total) == Split(total / 360000, total / 6000 % 60, total % 6000)
  {
    var m := total / 6000;
    assert m / 60 == total / 360000;
  }

  /** The two digits of the fraction spell the hundredths left over after the
      whole seconds. */
  lemma FractionValue(centis: nat)
    ensures AllDigits(Fraction(centis)) && ValueOf(Fraction(centis)) == centis % 100
  {
    var hi, lo := centis / 10 % 10, centis % 10;
    var f := Fraction(centis);
    assert f[..1] == [Digit(hi)];
    assert [Digit(hi)][..0] == [];
    assert ValueOf(f) == ValueOf([Digit(hi)]) * 10 + lo;
    assert ValueOf([Digit(hi)]) == hi;
    TwoDigits(centis);
  }

  /** The last two decimal digits of `n`. */
  lemma TwoDigits(n: nat)
    ensures (n / 10 % 10) * 10 + n % 10 == n % 100
  {
    var q, r := n / 100, n % 100;
    assert n == q * 100 + r;
    assert n / 10 == q * 10 + r / 10;
    assert n / 10 % 10 == r / 10;
    assert n % 10 == r % 10;
  }

  /** Whole seconds and hundredths of the seconds field, read back, give the
      hundredths of a second left over after the minutes. */
  lemma SecondsValue(centis: nat)
    ensures var whole := Decimal(centis / 100);
      AllDigits(whole) && AllDigits(Fraction(centis)) &&
      ValueOf(whole) * 100 + ValueOf(Fraction(centis)) == centis
  {
    ValueOfDecimal(centis / 100);
    FractionValue(centis);
  }

  /** The three numerals of the phrase, read back, give the duration. */
  lemma PhraseValues(total: nat)
    ensures var d := SplitDuration(total);
      AllDigits(Decimal(d.hours)) && AllDigits(Decimal(d.minutes)) &&
      AllDigits(Decimal(d.centis / 100)) && AllDigits(Fraction(d.centis)) &&
      (ValueOf(Decimal(d.hours)) * 60 + ValueOf(Decimal(d.minutes))) * 6000 +
        ValueOf(Decimal(d.centis / 100)) * 100 + ValueOf(Fraction(d.centis)) == total
  {
    var d := SplitDuration(total);
    ValueOfDecimal(d.hours);
    ValueOfDecimal(d.minutes);
    SecondsValue(d.centis);
  }
}

/** The cases the unit tests check, stated over the model (durations in
    hundredths of a second). */
module HumanizeExamples {
  import opened Humanize

  /** 9460 seconds. */
  lemma WholeSeconds()
    ensures HumanizeExecutionTime(946000) == " in 2 hours 37 minutes and 40.00 seconds"
  {
    Split9460();
    Numerals9460();
    assert Phrase("2", "37", "40.00") == " in 2 hours 37 minutes and 40.00 seconds";
  }

  lemma Split9460()
    ensures SplitDuration(946000) == Split(2, 37, 4000)
  {
  }

  lemma Numerals9460()
    ensures Decimal(2) == "2" && Decimal(37) == "37" && Seconds(4000) == "40.00"
  {
  }

  lemma UnderAMinute(n: nat)
    requires n < 6000
    ensures SplitDuration(n) == Split(0, 0, n)
  {
  }

  /** The phrase for a duration under a minute. */
  lemma UnderAMinutePhrase(n: nat)
    requires n < 6000
    ensures HumanizeExecutionTime(n) == " in 0 hours 0 minutes and " + Seconds(n) + " seconds"
  {
    UnderAMinute(n);
    assert Decimal(0) == "0";
  }

  lemma Seconds32()
    ensures Seconds(32) == "0.32"
  {
  }

  lemma Seconds33()
    ensures Seconds(33) == "0.33"
  {
  }

  /** 0.32 seconds. */
  lemma TwoPlaces()
    ensures HumanizeExecutionTime(32) == " in 0 hours 0 minutes and 0.32 seconds"
  {
    UnderAMinutePhrase(32);
    Seconds32();
  }

  /** 0.3254 seconds, once rounded to 0.33. */
  lemma FourPlacesRounded()
    ensures HumanizeExecutionTime(33) == " in 0 hours 0 minutes and 0.33 seconds"
  {
    UnderAMinutePhrase(33);
    Seconds33();
  }
}
