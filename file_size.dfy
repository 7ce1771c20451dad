/** The human-readable size stored on file records. JavaScript computes
    `(n / unit).toFixed(2)` in binary64; for byte counts below 2^53 the
    quotient by a power of two is exact, and `toFixed(2)` picks the nearest
    multiple of 0.01, the larger one on a tie, so the text is a function of
    integers: the count of hundredths. */
module FileSize {
  import opened Common

  const KB: nat := 1024
  const MB: nat := KB * 1024
  const GB: nat := MB * 1024

  datatype Unit = Kilo | Mega | Giga

  /** What the formatter shows: a plain byte count, or a count of hundredths
      of a unit. */
  datatype Reading = Bytes(count: nat) | Scaled(hundredths: nat, unit: Unit)

  function Scale(u: Unit): (r: nat)
    ensures r >= KB
  {
    match u
    case Kilo => KB
    case Mega => MB
    case Giga => GB
  }

  function UnitSuffix(u: Unit): string
  {
    match u
    case Kilo => " KB"
    case Mega => " MB"
    case Giga => " GB"
  }

  /** `(n / scale).toFixed(2)` as hundredths: the nearest multiple of
      1/100, rounding a tie up. */
  function RoundHundredths(n: nat, scale: nat): (h: nat)
    requires scale > 0
    ensures (2 * h - 1) * scale <= 200 * n < (2 * h + 1) * scale
  {
    var q := (200 * n + scale) / (2 * scale);
    assert 2 * scale * q <= 200 * n + scale < 2 * scale * (q + 1);
    q
  }

  /** The unit selection of `getFileSize`. */
  function Measure(n: nat): Reading
  {
    if n >= GB then Scaled(RoundHundredths(n, GB), Giga)
    else if n >= MB then Scaled(RoundHundredths(n, MB), Mega)
    else if n >= KB then Scaled(RoundHundredths(n, KB), Kilo)
    else Bytes(n)
  }

  function DigitChar(d: nat): (c: char)
    requires d < 10
    ensures '0' <= c <= '9'
  {
    ('0' as int + d) as char
  }

  function CharValue(c: char): (d: nat)
    requires '0' <= c <= '9'
    ensures d < 10 && DigitChar(d) == c
    ensures forall e :: 0 <= e < 10 && DigitChar(e) == c ==> e == d
  {
    c as int - '0' as int
  }

  predicate AllDigits(s: string)
  {
    forall i :: 0 <= i < |s| ==> '0' <= s[i] <= '9'
  }

  /** The decimal text of n, as `${n}` prints an integer below 10^21. */
  function Digits(n: nat): (s: string)
    ensures |s| >= 1 && AllDigits(s)
    ensures n > 0 ==> s[0] != '0'
    ensures |s| == 1 || s[0] != '0'
  {
    if n < 10 then [DigitChar(n)] else Digits(n / 10) + [DigitChar(n % 10)]
  }

  /** The number a digit string denotes. */
  function DigitsValue(s: string): nat
    requires AllDigits(s)
  {
    if s == [] then 0 else DigitsValue(s[..|s| - 1]) * 10 + CharValue(s[|s| - 1])
  }

  /** `toFixed(2)` of h hundredths: whole part, point, two decimals. */
  function Fixed2(h: nat): string
  {
    Digits(h / 100) + "." + [DigitChar(h % 100 / 10), DigitChar(h % 10)]
  }

  function Render(r: Reading): string
  {
    match r
    case Bytes(n) => Digits(n) + " bytes"
    case Scaled(h, u) => Fixed2(h) + UnitSuffix(u)
  }

  /** `getFileSize(n)`. */
  function GetFileSize(n: nat): string
  {
    Render(Measure(n))
  }

  // ---- Reading a size string back ----

  function ParseNat(s: string): Option<nat>
  {
    if |s| > 0 && AllDigits(s) then Some(DigitsValue(s)) else None
  }

  predicate EndsWith(s: string, suffix: string)
  {
    |suffix| <= |s| && s[|s| - |suffix|..] == suffix
  }

  /** Reads "<whole>.<d><d>" as a count of hundredths. */
  function ParseFixed2(t: string): Option<nat>
  {
    if |t| >= 4 && t[|t| - 3] == '.' && '0' <= t[|t| - 2] <= '9' && '0' <= t[|t| - 1] <= '9' then
      match ParseNat(t[..|t| - 3])
      case None => None
      case Some(w) => Some(w * 100 + CharValue(t[|t| - 2]) * 10 + CharValue(t[|t| - 1]))
    else None
  }

  /** Reads a size string back into the reading it shows. */
  function ParseReading(s: string): Option<Reading>
  {
    if EndsWith(s, " bytes") then
      match ParseNat(s[..|s| - 6])
      case None => None
      case Some(n) => Some(Bytes(n))
    else if EndsWith(s, " KB") then ScaledOf(ParseFixed2(s[..|s| - 3]), Kilo)
    else if EndsWith(s, " MB") then ScaledOf(ParseFixed2(s[..|s| - 3]), Mega)
    else if EndsWith(s, " GB") then ScaledOf(ParseFixed2(s[..|s| - 3]), Giga)
    else None
  }

  function ScaledOf(h: Option<nat>, u: Unit): Option<Reading>
  {
    match h
    case None => None
    case Some(v) => Some(Scaled(v, u))
  }

  // ---- Properties ----

  /** Reading the decimal text of n gives back n. */
  lemma {:induction false} DigitsRoundTrip(n: nat)
    ensures DigitsValue(Digits(n)) == n
  {
    if n >= 10 {
      DigitsRoundTrip(n / 10);
      var s := Digits(n);
      assert s[..|s| - 1] == Digits(n / 10);
    }
  }

  lemma Fixed2RoundTrip(h: nat)
    ensures ParseFixed2(Fixed2(h)) == Some(h)
  {
    var w, d1, d2 := h / 100, h % 100 / 10, h % 10;
    var t := Fixed2(h);
    assert t == Digits(w) + ['.', DigitChar(d1), DigitChar(d2)];
    assert t[..|t| - 3] == Digits(w);
    assert CharValue(t[|t| - 2]) == d1 && CharValue(t[|t| - 1]) == d2;
    DigitsRoundTrip(w);
    assert ParseNat(t[..|t| - 3]) == Some(w);
    assert w * 100 + d1 * 10 + d2 == h;
  }

  /** The formatter loses nothing: the text it renders reads back as the very
      reading it was made from, so two different readings never render alike. */
  lemma RenderRoundTrip(r: Reading)
    ensures ParseReading(Render(r)) == Some(r)
  {
    match r
    case Bytes(n) => BytesRoundTrip(n);
    case Scaled(h, u) => ScaledRoundTrip(h, u);
  }

  lemma BytesRoundTrip(n: nat)
    ensures ParseReading(Render(Bytes(n))) == Some(Bytes(n))
  {
    var s := Render(Bytes(n));
    assert s[|s| - 6..] == " bytes";
    assert s[..|s| - 6] == Digits(n);
    DigitsRoundTrip(n);
  }

  lemma ScaledRoundTrip(h: nat, u: Unit)
    ensures ParseReading(Render(Scaled(h, u))) == Some(Scaled(h, u))
  {
    var s := Render(Scaled(h, u));
    assert s[|s| - 3..] == UnitSuffix(u);
    assert s[..|s| - 3] == Fixed2(h);
    assert s[|s| - 1] == 'B';
    assert !EndsWith(s, " bytes");
    assert s[|s| - 2] == UnitSuffix(u)[1];
    Fixed2RoundTrip(h);
  }

  /** The unit is chosen by the three thresholds 2^10, 2^20 and 2^30. */
  lemma MeasureUnit(n: nat)
    ensures Measure(n).Bytes? <==> n < 1024
    ensures Measure(n).Bytes? ==> Measure(n).count == n
    ensures Measure(n).Scaled? && Measure(n).unit == Kilo <==> 1024 <= n < 1048576
    ensures Measure(n).Scaled? && Measure(n).unit == Mega <==> 1048576 <= n < 1073741824
    ensures Measure(n).Scaled? && Measure(n).unit == Giga <==> 1073741824 <= n
  {
  }

  lemma MulCancel(a: int, b: int, s: int)
    requires s > 0 && a * s < b * s
    ensures a < b
  {
    assert a * s - b * s == (a - b) * s;
  }

  /** A scaled value is nearest to n / unit (ties up), is at least 1.00, and in
      the KB and MB ranges at most 1024.00; the GB value has no upper bound. */
  lemma ScaledRange(n: nat)
    requires Measure(n).Scaled?
    ensures var h := Measure(n).hundredths; var u := Scale(Measure(n).unit);
      (2 * h - 1) * u <= 200 * n < (2 * h + 1) * u
    ensures Measure(n).hundredths >= 100
    ensures Measure(n).unit != Giga ==> Measure(n).hundredths <= 102400
  {
    var h := Measure(n).hundredths;
    var u := Scale(Measure(n).unit);
    assert n >= u;
    assert 200 * u <= 200 * n;
    MulCancel(200, 2 * h + 1, u);
    if Measure(n).unit != Giga {
      assert n < 1024 * u;
      assert 200 * n < 204800 * u;
      MulCancel(2 * h - 1, 204800, u);
    }
  }

  /** The GB value grows without bound: every whole number of gigabytes is
      shown exactly. */
  lemma GigabytesUnbounded(k: nat)
    requires k >= 1
    ensures Measure(k * GB) == Scaled(100 * k, Giga)
  {
    var n := k * GB;
    var h := RoundHundredths(n, GB);
    assert (2 * h - 1) * GB <= 200 * k * GB < (2 * h + 1) * GB;
    MulCancel(2 * h - 1, 200 * k + 1, GB);
    MulCancel(200 * k, 2 * h + 1, GB);
  }

  lemma ExampleBytes()
    ensures GetFileSize(512) == "512 bytes"
  {
    assert Digits(5) == "5";
    assert Digits(51) == "51";
    assert Digits(512) == "512";
  }

  lemma ExampleOneKilobyte()
    ensures GetFileSize(1024) == "1.00 KB"
  {
    assert RoundHundredths(1024, KB) == 100;
    assert Fixed2(100) == "1.00";
  }

  lemma ExampleKilobyteAndHalf()
    ensures GetFileSize(1536) == "1.50 KB"
  {
    assert RoundHundredths(1536, KB) == 150;
    assert Fixed2(150) == "1.50";
  }

  lemma ExampleOneGigabyte()
    ensures GetFileSize(1073741824) == "1.00 GB"
  {
    assert RoundHundredths(1073741824, GB) == 100;
    assert Fixed2(100) == "1.00";
  }

  /** Just below one megabyte the KB branch shows 1024.00. */
  lemma ExampleTopOfKilobytes()
    ensures GetFileSize(1048575) == "1024.00 KB"
  {
    assert RoundHundredths(1048575, KB) == 102400;
    assert Digits(1) == "1";
    assert Digits(10) == "10";
    assert Digits(102) == "102";
    assert Digits(1024) == "1024";
    assert Fixed2(102400) == "1024.00";
  }
}
