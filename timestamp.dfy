/**
 * Cue timestamps: `deconstructTimestamp` and `getSecondsFromTimestamp`
 * (index.js:393-419). Decoding never fails: a missing or non-numeric
 * component counts as 0.
 */
module Timestamp {
  import opened Wrappers
  import opened Text

  /** The record `deconstructTimestamp` returns. */
  datatype TimestampParts = TimestampParts(milliseconds: nat, seconds: nat, minutes: nat, hours: nat)

  /**
   * `parseInt(parts.pop(), 10) || 0` after `k` earlier pops: the `k`-th
   * component counted from the right, 0 when there is none.
   */
  function FromRight(parts: seq<string>, k: nat): nat {
    if k < |parts| then OrZero(ParseInt(parts[|parts| - 1 - k])) else 0
  }

  /**
   * `deconstructTimestamp(timestamp)`: the milliseconds are the text between
   * the first and second `.`; the text before the first `.` is cut at `:` and
   * read from the right as seconds, minutes, hours.
   */
  function Deconstruct(timestamp: string): (parts: TimestampParts)
    ensures '.' !in timestamp ==> parts.milliseconds == 0
    ensures ':' !in timestamp ==> parts.minutes == 0 && parts.hours == 0
    ensures ':' !in timestamp && '.' !in timestamp ==> parts.seconds == OrZero(ParseInt(timestamp))
  {
    var splitStampMilliseconds := Split(timestamp, Char('.'));
    var timePartsSplit := Split(splitStampMilliseconds[0], Char(':'));
    SplitPiecesDrawFrom(timestamp, Char('.'));
    assert CharsWithin(splitStampMilliseconds[0], timestamp);
    assert '.' !in timestamp ==> splitStampMilliseconds == [timestamp] by {
      if '.' !in timestamp { SplitCharNone(timestamp, '.'); }
    }
    assert ':' !in timestamp ==> timePartsSplit == [splitStampMilliseconds[0]] by {
      if ':' !in timestamp { SplitCharNone(splitStampMilliseconds[0], ':'); }
    }
    TimestampParts(
      if |splitStampMilliseconds| > 1 then OrZero(ParseInt(splitStampMilliseconds[1])) else 0,
      FromRight(timePartsSplit, 0),
      FromRight(timePartsSplit, 1),
      FromRight(timePartsSplit, 2))
  }

  /** `parseInt(x, 10)` of a non-negative number: its integer part. */
  function Truncate(x: real): (n: nat)
    requires x >= 0.0
    ensures n as real <= x < n as real + 1.0
  {
    x.Floor
  }

  /**
   * `getSecondsFromTimestamp(timestamp)`: the components combined as a number
   * with a fractional part, then truncated to whole seconds. In integers that
   * is `h*3600 + m*60 + s + ms div 1000`.
   */
  function SecondsFromTimestamp(timestamp: string): (secs: nat)
    ensures var p := Deconstruct(timestamp);
      secs == p.hours * 3600 + p.minutes * 60 + p.seconds + p.milliseconds / 1000
  {
    var p := Deconstruct(timestamp);
    var whole := p.hours * 3600 + p.minutes * 60 + p.seconds;
    TruncateMilliseconds(whole, p.milliseconds);
    Truncate(whole as real + (p.milliseconds as real) / 1000.0)
  }

  /** Truncating whole seconds plus a millisecond fraction keeps the whole seconds in the fraction. */
  lemma TruncateMilliseconds(whole: nat, ms: nat)
    ensures Truncate(whole as real + (ms as real) / 1000.0) == whole + ms / 1000
  {
    var q, r := ms / 1000, ms % 1000;
    var x := whole as real + (ms as real) / 1000.0;
    assert ms == 1000 * q + r;
    assert (ms as real) / 1000.0 == q as real + (r as real) / 1000.0;
    assert 0.0 <= (r as real) / 1000.0 < 1.0;
    var n := Truncate(x);
    assert (whole + q) as real <= x < (whole + q) as real + 1.0;
    assert n == whole + q;
  }

  /**
   * `H:M:S.F`, with no `:` or `.` inside a component: the components are read
   * right to left, each one parsed on its own, 0 when it is not a number.
   */
  lemma ClockComponents(h: string, m: string, s: string, f: string)
    requires ':' !in h && ':' !in m && ':' !in s
    requires '.' !in h && '.' !in m && '.' !in s && '.' !in f
    ensures Deconstruct(h + ":" + m + ":" + s + "." + f)
         == TimestampParts(OrZero(ParseInt(f)), OrZero(ParseInt(s)), OrZero(ParseInt(m)), OrZero(ParseInt(h)))
  {
    ClockHasNoDot(h, m, s);
    DotSplit(h + ":" + m + ":" + s, f);
    ColonSplit(h, m, s);
  }

  lemma ClockHasNoDot(h: string, m: string, s: string)
    requires '.' !in h && '.' !in m && '.' !in s
    ensures '.' !in h + ":" + m + ":" + s
  {
    var clock := h + ":" + m + ":" + s;
    assert forall i :: 0 <= i < |clock| ==> clock[i] in h || clock[i] == ':' || clock[i] in m || clock[i] in s;
  }

  /** Splitting `clock.f` at `.` when neither part holds a `.`. */
  lemma DotSplit(clock: string, f: string)
    requires '.' !in clock && '.' !in f
    ensures Split(clock + "." + f, Char('.')) == [clock, f]
  {
    SplitCharConcat(clock, '.', f);
    SplitCharNone(f, '.');
  }

  /** Splitting `h:m:s` at `:` when no part holds a `:`. */
  lemma ColonSplit(h: string, m: string, s: string)
    requires ':' !in h && ':' !in m && ':' !in s
    ensures Split(h + ":" + m + ":" + s, Char(':')) == [h, m, s]
  {
    assert h + ":" + m + ":" + s == h + [':'] + (m + [':'] + s);
    SplitCharConcat(h, ':', m + [':'] + s);
    SplitCharConcat(m, ':', s);
    SplitCharNone(s, ':');
  }

  /** `M:S.F`: no hours component, so hours are 0. */
  lemma MinuteComponents(m: string, s: string, f: string)
    requires ':' !in m && ':' !in s
    requires '.' !in m && '.' !in s && '.' !in f
    ensures Deconstruct(m + ":" + s + "." + f)
         == TimestampParts(OrZero(ParseInt(f)), OrZero(ParseInt(s)), OrZero(ParseInt(m)), 0)
  {
    var clock := m + ":" + s;
    assert '.' !in clock by {
      assert forall i :: 0 <= i < |clock| ==> clock[i] in m || clock[i] == ':' || clock[i] in s;
    }
    DotSplit(clock, f);
    SplitCharConcat(m, ':', s);
    SplitCharNone(s, ':');
  }

  /** For digit-only `HH:MM:SS.mmm`, the seconds are `h*3600 + m*60 + s + mmm div 1000`. */
  lemma ClockSeconds(h: string, m: string, s: string, f: string)
    requires Numeral(h) && Numeral(m) && Numeral(s) && Numeral(f)
    ensures SecondsFromTimestamp(h + ":" + m + ":" + s + "." + f)
         == DecimalValue(h) * 3600 + DecimalValue(m) * 60 + DecimalValue(s) + DecimalValue(f) / 1000
  {
    NumeralClock(h, m, s, f);
    SecondsOfParts(h + ":" + m + ":" + s + "." + f, DecimalValue(h), DecimalValue(m), DecimalValue(s), DecimalValue(f));
  }

  /** The components of a digit-only `HH:MM:SS.mmm` are the values of its numerals. */
  lemma NumeralClock(h: string, m: string, s: string, f: string)
    requires Numeral(h) && Numeral(m) && Numeral(s) && Numeral(f)
    ensures Deconstruct(h + ":" + m + ":" + s + "." + f)
         == TimestampParts(DecimalValue(f), DecimalValue(s), DecimalValue(m), DecimalValue(h))
  {
    NumeralHasNoSeparator(h);
    NumeralHasNoSeparator(m);
    NumeralHasNoSeparator(s);
    NumeralHasNoSeparator(f);
    ClockComponents(h, m, s, f);
    NumeralValue(h);
    NumeralValue(m);
    NumeralValue(s);
    NumeralValue(f);
  }

  /** The seconds of a timestamp are those of its components. */
  lemma SecondsOfParts(timestamp: string, hours: nat, minutes: nat, seconds: nat, milliseconds: nat)
    requires Deconstruct(timestamp) == TimestampParts(milliseconds, seconds, minutes, hours)
    ensures SecondsFromTimestamp(timestamp) == hours * 3600 + minutes * 60 + seconds + milliseconds / 1000
  {
  }

  /** For digit-only `MM:SS.mmm`, the seconds are `m*60 + s + mmm div 1000`. */
  lemma MinuteSeconds(m: string, s: string, f: string)
    requires Numeral(m) && Numeral(s) && Numeral(f)
    ensures SecondsFromTimestamp(m + ":" + s + "." + f)
         == DecimalValue(m) * 60 + DecimalValue(s) + DecimalValue(f) / 1000
  {
    var ts := m + ":" + s + "." + f;
    assert Deconstruct(ts) == TimestampParts(DecimalValue(f), DecimalValue(s), DecimalValue(m), 0) by {
      NumeralHasNoSeparator(m);
      NumeralHasNoSeparator(s);
      NumeralHasNoSeparator(f);
      MinuteComponents(m, s, f);
      NumeralValue(m);
      NumeralValue(s);
      NumeralValue(f);
    }
    SecondsOfParts(m + ":" + s + "." + f, 0, DecimalValue(m), DecimalValue(s), DecimalValue(f));
  }

  /** `H:M:S` with no fraction: milliseconds are 0, the rest is read right to left. */
  lemma ClockNoFraction(h: string, m: string, s: string)
    requires ':' !in h && ':' !in m && ':' !in s
    requires '.' !in h && '.' !in m && '.' !in s
    ensures Deconstruct(h + ":" + m + ":" + s)
         == TimestampParts(0, OrZero(ParseInt(s)), OrZero(ParseInt(m)), OrZero(ParseInt(h)))
  {
    ClockHasNoDot(h, m, s);
    SplitCharNone(h + ":" + m + ":" + s, '.');
    ColonSplit(h, m, s);
  }

  /** `M:S` with no fraction: no hours and no milliseconds. */
  lemma MinuteNoFraction(m: string, s: string)
    requires ':' !in m && ':' !in s
    requires '.' !in m && '.' !in s
    ensures Deconstruct(m + ":" + s) == TimestampParts(0, OrZero(ParseInt(s)), OrZero(ParseInt(m)), 0)
  {
    var clock := m + ":" + s;
    assert '.' !in clock by {
      assert forall i :: 0 <= i < |clock| ==> clock[i] in m || clock[i] == ':' || clock[i] in s;
    }
    SplitCharNone(clock, '.');
    SplitCharConcat(m, ':', s);
    SplitCharNone(s, ':');
  }

  /** `S.F` with no `:`: no minutes or hours. */
  lemma SecondsFraction(s: string, f: string)
    requires ':' !in s && '.' !in s && '.' !in f
    ensures Deconstruct(s + "." + f) == TimestampParts(OrZero(ParseInt(f)), OrZero(ParseInt(s)), 0, 0)
  {
    DotSplit(s, f);
    SplitCharNone(s, ':');
  }

  /** For digit-only `HH:MM:SS`, the seconds are `h*3600 + m*60 + s`. */
  lemma ClockNoFractionSeconds(h: string, m: string, s: string)
    requires Numeral(h) && Numeral(m) && Numeral(s)
    ensures SecondsFromTimestamp(h + ":" + m + ":" + s) == DecimalValue(h) * 3600 + DecimalValue(m) * 60 + DecimalValue(s)
  {
    assert Deconstruct(h + ":" + m + ":" + s)
        == TimestampParts(0, DecimalValue(s), DecimalValue(m), DecimalValue(h)) by {
      NumeralHasNoSeparator(h);
      NumeralHasNoSeparator(m);
      NumeralHasNoSeparator(s);
      ClockNoFraction(h, m, s);
      NumeralValue(h);
      NumeralValue(m);
      NumeralValue(s);
    }
    SecondsOfParts(h + ":" + m + ":" + s, DecimalValue(h), DecimalValue(m), DecimalValue(s), 0);
  }

  /** For digit-only `MM:SS`, the seconds are `m*60 + s`. */
  lemma MinuteNoFractionSeconds(m: string, s: string)
    requires Numeral(m) && Numeral(s)
    ensures SecondsFromTimestamp(m + ":" + s) == DecimalValue(m) * 60 + DecimalValue(s)
  {
    assert Deconstruct(m + ":" + s) == TimestampParts(0, DecimalValue(s), DecimalValue(m), 0) by {
      NumeralHasNoSeparator(m);
      NumeralHasNoSeparator(s);
      MinuteNoFraction(m, s);
      NumeralValue(m);
      NumeralValue(s);
    }
    SecondsOfParts(m + ":" + s, 0, DecimalValue(m), DecimalValue(s), 0);
  }

  /** For digit-only `SS.mmm`, the seconds are `s + mmm div 1000`. */
  lemma SecondsFractionSeconds(s: string, f: string)
    requires Numeral(s) && Numeral(f)
    ensures SecondsFromTimestamp(s + "." + f) == DecimalValue(s) + DecimalValue(f) / 1000
  {
    assert Deconstruct(s + "." + f) == TimestampParts(DecimalValue(f), DecimalValue(s), 0, 0) by {
      NumeralHasNoSeparator(s);
      NumeralHasNoSeparator(f);
      SecondsFraction(s, f);
      NumeralValue(s);
      NumeralValue(f);
    }
    SecondsOfParts(s + "." + f, 0, 0, DecimalValue(s), DecimalValue(f));
  }

  /** A numeral parses to its value. */
  lemma NumeralValue(s: string)
    requires Numeral(s)
    ensures OrZero(ParseInt(s)) == DecimalValue(s)
  {
    ParseIntDigits(s);
  }

  lemma NumeralHasNoSeparator(s: string)
    requires Numeral(s)
    ensures ':' !in s && '.' !in s
  {
    forall i | 0 <= i < |s| ensures s[i] != ':' && s[i] != '.' {
      assert IsDigit(s[i]);
    }
  }

  /** The two timestamps of the cue-sheet format, decoded. */
  lemma TimestampExamples()
    ensures SecondsFromTimestamp("01" + ":" + "02" + ":" + "03" + "." + "500") == 3723
    ensures SecondsFromTimestamp("02" + ":" + "03" + "." + "000") == 123
  {
    ClockExample();
    MinuteExample();
  }

  lemma ClockExample()
    ensures SecondsFromTimestamp("01" + ":" + "02" + ":" + "03" + "." + "500") == 3723
  {
    ClockSeconds("01", "02", "03", "500");
    ExampleValues();
  }

  lemma MinuteExample()
    ensures SecondsFromTimestamp("02" + ":" + "03" + "." + "000") == 123
  {
    MinuteSeconds("02", "03", "000");
    ExampleValues();
  }

  lemma ExampleValues()
    ensures DecimalValue("01") == 1 && DecimalValue("02") == 2 && DecimalValue("03") == 3
    ensures DecimalValue("500") == 500 && DecimalValue("000") == 0
  {
  }

  /** Text that is not a timestamp decodes to 0 rather than failing. */
  lemma BogusIsZero()
    ensures SecondsFromTimestamp("bogus") == 0
  {
    SplitCharNone("bogus", '.');
    SplitCharNone("bogus", ':');
  }
}
