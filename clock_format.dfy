/** Splitting a count of seconds into hours, minutes and seconds, and the two ways the
    dashboards print it: `HH:MM:SS` with zero padding (the marketer's elapsed-time clock) and
    `<h>h <m>m <s>s` (the HR tracking table). */
module ClockFormat {
  import opened JsText

  datatype Hms = Hms(hours: nat, minutes: nat, seconds: nat)

  /** `h * 3600 + m * 60 + s` */
  function TotalSeconds(t: Hms): nat {
    t.hours * 3600 + t.minutes * 60 + t.seconds
  }

  /** `Math.floor(e / 3600)`, `Math.floor((e % 3600) / 60)`, `e % 60`: the unique split of `e`
      with minutes and seconds below 60. */
  function Decompose(elapsed: nat): (t: Hms)
    ensures TotalSeconds(t) == elapsed
    ensures t.minutes < 60 && t.seconds < 60
  {
    var h := elapsed / 3600;
    var rest := elapsed % 3600;
    var m := rest / 60;
    var s := elapsed % 60;
    assert rest == m * 60 + rest % 60;
    ModOfMod(elapsed);
    Hms(h, m, s)
  }

  lemma ModOfMod(e: nat)
    ensures (e % 3600) % 60 == e % 60
  {
    var q := e / 3600;
    assert e == q * 3600 + e % 3600;
    assert q * 3600 == (q * 60) * 60;
  }

  /** Splitting the total of a split with minutes and seconds below 60 gives it back. */
  lemma {:induction false} DecomposeTotal(t: Hms)
    requires t.minutes < 60 && t.seconds < 60
    ensures Decompose(TotalSeconds(t)) == t
  {
    var d := Decompose(TotalSeconds(t));
    var e := TotalSeconds(t);
    assert e == t.hours * 3600 + (t.minutes * 60 + t.seconds);
    assert t.minutes * 60 + t.seconds < 3600;
    DivUnique(e, 3600, t.hours, t.minutes * 60 + t.seconds);
    DivUnique(e % 3600, 60, t.minutes, t.seconds);
    assert d.seconds == (e % 3600) % 60 by { ModOfMod(e); }
  }

  lemma DivUnique(e: nat, d: nat, q: nat, r: nat)
    requires d > 0 && r < d && e == q * d + r
    ensures e / d == q && e % d == r
  {
    var q0, r0 := e / d, e % d;
    assert (q - q0) * d == r0 - r;
    if q > q0 {
      MulAtLeast(q - q0, d);
    } else if q < q0 {
      MulAtLeast(q0 - q, d);
    }
  }

  lemma MulAtLeast(a: int, d: nat)
    requires a >= 1
    ensures a * d >= d
  {
  }

  /** `String(n).padStart(2, "0")` */
  function Pad2(n: nat): (r: string)
    ensures |r| >= 2 && AllDigits(r)
    ensures DecimalValue(r) == n
  {
    DecimalRoundTrip(n);
    var d := NatToDecimal(n);
    if |d| < 2 then
      assert DecimalValue("0" + d) == DecimalValue(d) by {
        assert ("0" + d)[..1] == "0";
      }
      "0" + d
    else d
  }

  /** The marketer dashboard's `HH:MM:SS` clock text. */
  function ClockText(elapsed: nat): (r: string)
    ensures |r| >= 8 && r[|r| - 3] == ':' && r[|r| - 6] == ':'
    ensures elapsed < 360000 ==> |r| == 8
  {
    var t := Decompose(elapsed);
    PadBelowHundred(t.minutes);
    PadBelowHundred(t.seconds);
    assert elapsed < 360000 ==> |Pad2(t.hours)| == 2 by {
      if elapsed < 360000 {
        PadBelowHundred(t.hours);
      }
    }
    Pad2(t.hours) + ":" + Pad2(t.minutes) + ":" + Pad2(t.seconds)
  }

  /** The clock text splits at `:` into exactly three digit groups, and reading them back as
      hours, minutes and seconds gives the elapsed count. */
  lemma ClockTextRoundTrip(elapsed: nat)
    ensures var parts := Split(ClockText(elapsed), ':');
      |parts| == 3 && AllDigits(parts[0]) && AllDigits(parts[1]) && AllDigits(parts[2])
      && |parts[1]| == 2 && |parts[2]| == 2
      && DecimalValue(parts[0]) * 3600 + DecimalValue(parts[1]) * 60 + DecimalValue(parts[2]) == elapsed
  {
    var t := Decompose(elapsed);
    var h, m, s := Pad2(t.hours), Pad2(t.minutes), Pad2(t.seconds);
    DigitsHaveNoColon(h);
    DigitsHaveNoColon(m);
    DigitsHaveNoColon(s);
    assert ClockText(elapsed) == h + [':'] + (m + [':'] + s);
    SplitPrefix(h, ':', m + [':'] + s);
    SplitPrefix(m, ':', s);
    SplitNoSeparator(s, ':');
    assert |m| == 2 && |s| == 2 by {
      assert t.minutes < 60 && t.seconds < 60;
      PadBelowHundred(t.minutes);
      PadBelowHundred(t.seconds);
    }
  }

  lemma DigitsHaveNoColon(d: string)
    requires AllDigits(d)
    ensures ':' !in d
  {
  }

  /** Values below 100 pad to exactly two digits. */
  lemma PadBelowHundred(n: nat)
    requires n < 100
    ensures |Pad2(n)| == 2
  {
    if n >= 10 {
      assert NatToDecimal(n) == NatToDecimal(n / 10) + [('0' as int + n % 10) as char];
    }
  }

  /** The HR tracking table's `${hours}h ${minutes}m ${seconds}s` text. */
  function DurationText(elapsed: nat): string {
    var t := Decompose(elapsed);
    NatToDecimal(t.hours) + "h " + NatToDecimal(t.minutes) + "m " + NatToDecimal(t.seconds) + "s"
  }

  /** The duration text splits at its spaces into the hours, minutes and seconds of the count,
      each with its unit letter, and reading the three numbers back gives the count. */
  lemma DurationTextParts(elapsed: nat)
    ensures var t := Decompose(elapsed);
      Split(DurationText(elapsed), ' ')
        == [NatToDecimal(t.hours) + "h", NatToDecimal(t.minutes) + "m", NatToDecimal(t.seconds) + "s"]
    ensures var t := Decompose(elapsed);
      DecimalValue(NatToDecimal(t.hours)) * 3600 + DecimalValue(NatToDecimal(t.minutes)) * 60
        + DecimalValue(NatToDecimal(t.seconds)) == elapsed
  {
    var t := Decompose(elapsed);
    var h, m, s := NatToDecimal(t.hours) + "h", NatToDecimal(t.minutes) + "m", NatToDecimal(t.seconds) + "s";
    assert ' ' !in h && ' ' !in m && ' ' !in s;
    assert DurationText(elapsed) == h + [' '] + (m + [' '] + s);
    SplitPrefix(h, ' ', m + [' '] + s);
    SplitPrefix(m, ' ', s);
    SplitNoSeparator(s, ' ');
    DecimalRoundTrip(t.hours);
    DecimalRoundTrip(t.minutes);
    DecimalRoundTrip(t.seconds);
  }
}
