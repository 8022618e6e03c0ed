/**
 * The race-time codec: `timeToSeconds` (the same function is copied into the
 * gap, telemetry, degradation and lap-time charts), the two-token parse that
 * the summary panel writes inline, and the summary panel's `m:ss.xxx` formatter.
 * Times are reals; NaN is None.
 */
module TimeCodec {
  import opened Wrappers
  import opened Text

  /** `m * 60 + s`, NaN when either side is NaN. */
  function MinutesAndSeconds(m: Option<real>, s: Option<real>): (r: Option<real>)
    ensures r.Some? <==> m.Some? && s.Some?
    ensures r.Some? ==> r.value == m.value * 60.0 + s.value
  {
    if m.Some? && s.Some? then Some(m.value * 60.0 + s.value) else None
  }

  /**
   * timeToSeconds: empty input is NaN; a string without ':' is parsed as a
   * decimal; otherwise the first two ':'-separated tokens are minutes and seconds.
   */
  function TimeToSeconds(t: string): (r: Option<real>)
    ensures r.Some? ==> r.value >= 0.0
  {
    if t == "" then None
    else
      var parts := Split(t, ':');
      if |parts| == 1 then ParseDecimal(parts[0])
      else MinutesAndSeconds(ParseDecimal(parts[0]), ParseDecimal(parts[1]))
  }

  /**
   * The summary panel's inline parse, `parseFloat(p[0]) * 60 + parseFloat(p[1])`:
   * with a single token the second operand is `parseFloat(undefined)`, NaN.
   */
  function TwoTokenSeconds(t: string): (r: Option<real>)
    ensures r.Some? ==> r.value >= 0.0
  {
    var parts := Split(t, ':');
    if |parts| < 2 then None
    else MinutesAndSeconds(ParseDecimal(parts[0]), ParseDecimal(parts[1]))
  }

  /** A ':'-free input is read as plain seconds. */
  lemma TimeToSecondsSingleToken(t: string)
    requires ':' !in t
    ensures TimeToSeconds(t) == ParseDecimal(t)
    ensures TwoTokenSeconds(t) == None
  {
    SplitJoin([t], ':');
    assert Join([t], ':') == t;
  }

  /** With two or more tokens only the first two count: minutes * 60 + seconds. */
  lemma TimeToSecondsTokens(m: string, s: string, more: seq<string>)
    requires ':' !in m && ':' !in s
    requires forall i :: 0 <= i < |more| ==> ':' !in more[i]
    ensures TimeToSeconds(Join([m, s] + more, ':')) == MinutesAndSeconds(ParseDecimal(m), ParseDecimal(s))
    ensures TwoTokenSeconds(Join([m, s] + more, ':')) == TimeToSeconds(Join([m, s] + more, ':'))
  {
    var parts := [m, s] + more;
    ColonFreeParts(m, s, more);
    SplitJoin(parts, ':');
    var t := Join(parts, ':');
    assert t == m + [':'] + Join(parts[1..], ':');
    assert t != "";
    assert Split(t, ':') == parts;
  }

  lemma ColonFreeParts(m: string, s: string, more: seq<string>)
    requires ':' !in m && ':' !in s
    requires forall i :: 0 <= i < |more| ==> ':' !in more[i]
    ensures forall i :: 0 <= i < |[m, s] + more| ==> ':' !in ([m, s] + more)[i]
  {
    var parts := [m, s] + more;
    forall i | 0 <= i < |parts| ensures ':' !in parts[i] {
      if i >= 2 { assert parts[i] == more[i - 2]; }
    }
  }

  /** The two parsers agree on every input that contains ':', and the inline one is NaN otherwise. */
  lemma TwoTokenAgreesWithTimeToSeconds(t: string)
    ensures TwoTokenSeconds(t) == if ':' in t then TimeToSeconds(t) else None
  {
    var parts := Split(t, ':');
    JoinSplit(t, ':');
    if |parts| == 1 {
      assert t == parts[0];
    } else {
      assert t == parts[0] + [':'] + Join(parts[1..], ':');
      assert t[|parts[0]|] == ':';
    }
  }

  /** Math.round: the nearest integer, halves rounded up. */
  function Round(x: real): (n: int)
    ensures x - 0.5 < n as real <= x + 0.5
  {
    (x + 0.5).Floor
  }

  /** `n / 1000` written with three decimals, as `toFixed(3)` writes a value it has rounded to `n` thousandths. */
  function FixedThree(n: nat): string
  {
    NatToString(n / 1000) + "." + PadStart(NatToString(n % 1000), 3, '0')
  }

  /** `minutes:ss.xxx` for `ms` thousandths of a second after the whole minutes. */
  function MinutesText(minutes: nat, ms: nat): string
  {
    NatToString(minutes) + ":" + PadStart(FixedThree(ms), 6, '0')
  }

  /** Math.floor(t / 60) for a non-negative time. */
  function WholeMinutes(t: real): (m: nat)
    requires t >= 0.0
    ensures 0.0 <= t - 60.0 * m as real < 60.0
  {
    (t / 60.0).Floor
  }

  /** `(t % 60).toFixed(3)` as a count of thousandths: the remainder rounded to milliseconds. */
  function RemainderMillis(t: real): (ms: nat)
    requires t >= 0.0
    ensures -0.5 <= ms as real - (t - 60.0 * WholeMinutes(t) as real) * 1000.0 <= 0.5
    ensures ms <= 60000
  {
    Round((t - 60.0 * WholeMinutes(t) as real) * 1000.0)
  }

  /**
   * The summary formatter `${floor(t / 60)}:${(t % 60).toFixed(3).padStart(6, '0')}`:
   * whole minutes, then the remaining seconds rounded to milliseconds.
   */
  function FormatTime(t: real): string
    requires t >= 0.0
  {
    MinutesText(WholeMinutes(t), RemainderMillis(t))
  }

  /**
   * The formatter as evidently intended: round to milliseconds first, then
   * split into minutes and seconds, so the seconds field stays below 60.
   */
  function FormatTimeCarried(t: real): string
    requires t >= 0.0
  {
    var total: nat := Round(t * 1000.0);
    MinutesText(total / 60000, total % 60000)
  }

  lemma DecimalTextHasNoColon(w: string, f: string)
    requires AllDigits(w) && AllDigits(f)
    ensures ':' !in w + "." + f
  {
    var sec := w + "." + f;
    forall i | 0 <= i < |sec| ensures sec[i] != ':' {
      if i < |w| {
        assert sec[i] == w[i];
      } else if i > |w| {
        assert sec[i] == f[i - |w| - 1];
      }
    }
  }

  lemma DecimalPartsThousandths(w: string, f: string)
    requires AllDigits(w) && AllDigits(f) && |f| == 3
    ensures DecimalParts(w, f) == Some(DigitsValue(w) as real + DigitsValue(f) as real / 1000.0)
  {
    FractionOfThree(f);
  }

  lemma ThousandthsSplit(n: nat)
    ensures (n / 1000) as real + (n % 1000) as real / 1000.0 == n as real / 1000.0
  {
    var q, r := n / 1000, n % 1000;
    assert n == 1000 * q + r;
    assert n as real == 1000.0 * q as real + r as real;
  }

  /** The three-digit fraction field of `FixedThree(n)`. */
  lemma FractionField(r: nat)
    requires r < 1000
    ensures var f := PadStart(NatToString(r), 3, '0');
            |f| == 3 && AllDigits(f) && DigitsValue(f) == r
  {
    var rs := NatToString(r);
    NatToStringLength(r, 3);
    NatToStringValue(r);
    LeadingZeros(3 - |rs|, rs);
  }

  /** The zero-padded whole-seconds field. */
  lemma WholeField(z: nat, q: nat)
    ensures var w := Repeat('0', z) + NatToString(q);
            AllDigits(w) && DigitsValue(w) == q
  {
    LeadingZeros(z, NatToString(q));
    NatToStringValue(q);
  }

  /** The padded seconds text is zero-padded whole seconds, a point and three fraction digits. */
  lemma FixedThreeLayout(n: nat)
    ensures var fixed := FixedThree(n);
            var z := if |fixed| < 6 then 6 - |fixed| else 0;
            PadStart(fixed, 6, '0')
            == (Repeat('0', z) + NatToString(n / 1000)) + "." + PadStart(NatToString(n % 1000), 3, '0')
  {
    PadStartPrepends(FixedThree(n), 6, '0');
  }

  /** The seconds text `PadStart(FixedThree(n), 6, '0')` has no ':', and parses back to n / 1000. */
  lemma FixedThreeParses(n: nat)
    ensures ':' !in PadStart(FixedThree(n), 6, '0')
    ensures ParseDecimal(PadStart(FixedThree(n), 6, '0')) == Some(n as real / 1000.0)
  {
    var q, r := n / 1000, n % 1000;
    var f := PadStart(NatToString(r), 3, '0');
    FractionField(r);
    var fixed := FixedThree(n);
    var z := if |fixed| < 6 then 6 - |fixed| else 0;
    var w := Repeat('0', z) + NatToString(q);
    WholeField(z, q);
    FixedThreeLayout(n);
    ThousandthsText(w, f, n);
  }

  /** Digits, a point and three digits: a colon-free text for a count of thousandths. */
  lemma ThousandthsText(w: string, f: string, n: nat)
    requires AllDigits(w) && AllDigits(f) && |f| == 3
    requires DigitsValue(w) == n / 1000 && DigitsValue(f) == n % 1000
    ensures ':' !in w + "." + f
    ensures ParseDecimal(w + "." + f) == Some(n as real / 1000.0)
  {
    ParseDecimalWithPoint(w, f);
    DecimalPartsThousandths(w, f);
    ThousandthsSplit(n);
    DecimalTextHasNoColon(w, f);
  }

  /** `MinutesText` splits into the minutes digits and the seconds text. */
  lemma MinutesTextSplit(minutes: nat, n: nat)
    ensures Split(MinutesText(minutes, n), ':') == [NatToString(minutes), PadStart(FixedThree(n), 6, '0')]
  {
    var a := NatToString(minutes);
    var sec := PadStart(FixedThree(n), 6, '0');
    FixedThreeParses(n);
    assert ':' !in a by {
      forall i | 0 <= i < |a| ensures a[i] != ':' { assert IsDigit(a[i]); }
    }
    SplitJoin([a, sec], ':');
    assert Join([a, sec], ':') == MinutesText(minutes, n);
  }

  lemma FieldsCombine(a: string, sec: string, minutes: nat, n: nat)
    requires ParseDecimal(a) == Some(minutes as real) && ParseDecimal(sec) == Some(n as real / 1000.0)
    ensures MinutesAndSeconds(ParseDecimal(a), ParseDecimal(sec)) == Some(minutes as real * 60.0 + n as real / 1000.0)
  {
  }

  /** Both fields of `MinutesText` parse: the minutes and `n` thousandths. */
  lemma MinutesTextFields(minutes: nat, n: nat)
    ensures MinutesAndSeconds(ParseDecimal(NatToString(minutes)), ParseDecimal(PadStart(FixedThree(n), 6, '0')))
            == Some(minutes as real * 60.0 + n as real / 1000.0)
  {
    FixedThreeParses(n);
    ParseDecimalOfNatToString(minutes);
    FieldsCombine(NatToString(minutes), PadStart(FixedThree(n), 6, '0'), minutes, n);
  }

  /** `minutes:seconds` with `seconds` the text for `n` thousandths parses to `minutes * 60 + n / 1000`. */
  lemma MinutesTextParses(minutes: nat, n: nat)
    ensures TwoTokenSeconds(MinutesText(minutes, n)) == Some(minutes as real * 60.0 + n as real / 1000.0)
    ensures TimeToSeconds(MinutesText(minutes, n)) == Some(minutes as real * 60.0 + n as real / 1000.0)
  {
    var t := MinutesText(minutes, n);
    MinutesTextSplit(minutes, n);
    MinutesTextFields(minutes, n);
    assert t != "" by { assert |t| >= |NatToString(minutes)|; }
  }

  /** Parsing the formatted text with either parser returns the time to within half a millisecond. */
  lemma FormatTimeRoundTrip(t: real)
    requires t >= 0.0
    ensures TwoTokenSeconds(FormatTime(t)).Some?
    ensures TimeToSeconds(FormatTime(t)) == TwoTokenSeconds(FormatTime(t))
    ensures -0.0005 <= TwoTokenSeconds(FormatTime(t)).value - t <= 0.0005
  {
    MinutesTextParses(WholeMinutes(t), RemainderMillis(t));
  }

  /** The corrected formatter keeps the round trip. */
  lemma {:induction false} FormatTimeCarriedRoundTrip(t: real)
    requires t >= 0.0
    ensures TwoTokenSeconds(FormatTimeCarried(t)).Some?
    ensures -0.0005 <= TwoTokenSeconds(FormatTimeCarried(t)).value - t <= 0.0005
  {
    var total: nat := Round(t * 1000.0);
    MinutesTextParses(total / 60000, total % 60000);
    assert FormatTimeCarried(t) == MinutesText(total / 60000, total % 60000);
    assert (total / 60000) as real * 60.0 + (total % 60000) as real / 1000.0 == total as real / 1000.0;
  }

  /** The corrected formatter writes exactly two fields, and the seconds field is below 60. */
  lemma FormatTimeCarriedSecondsBelowSixty(t: real)
    requires t >= 0.0
    ensures var parts := Split(FormatTimeCarried(t), ':');
            |parts| == 2 && ParseDecimal(parts[1]).Some? && ParseDecimal(parts[1]).value < 60.0
  {
    var total: nat := Round(t * 1000.0);
    var a := NatToString(total / 60000);
    var sec := PadStart(FixedThree(total % 60000), 6, '0');
    FixedThreeParses(total % 60000);
    assert ':' !in a by {
      forall i | 0 <= i < |a| ensures a[i] != ':' { assert IsDigit(a[i]); }
    }
    SplitJoin([a, sec], ':');
    assert Join([a, sec], ':') == FormatTimeCarried(t);
  }

  lemma SixtyText()
    ensures NatToString(0) == "0" && NatToString(60) == "60"
  {
    assert NatToString(6) == "6";
  }

  lemma SixtySecondsText()
    ensures MinutesText(0, 60000) == "0:60.000"
  {
    SixtyText();
    assert PadStart("0", 3, '0') == "000" by {
      assert Repeat('0', 2) == "00";
    }
    assert FixedThree(60000) == "60" + "." + "000";
    assert PadStart("60.000", 6, '0') == "60.000";
  }

  /** As written, a remainder that rounds up to a whole minute is shown as ":60.000". */
  lemma FormatTimeShowsSixtySeconds()
    ensures FormatTime(59.9996) == "0:60.000"
  {
    assert WholeMinutes(59.9996) == 0;
    assert RemainderMillis(59.9996) == 60000;
    SixtySecondsText();
  }
}
