/** The field formatters of `formatter.py`: value-to-text conversions the
    extractors apply before results reach the coordinator. Integer
    renderings are exact; renderings through floating point keep only
    their operands and unit (see `Values.VComputed`). Every formatter
    answers "Unknown" for a missing value. */
module Formatter {
  import opened Common
  import opened PyText
  import opened Values

  const Unknown := "Unknown"
  const MapsPrefix := "https://www.google.com/maps/search/?api=1&query="

  /* ---------- Python error texts ---------- */

  /** Message of the `ValueError` from unpacking `got` values into
      `expected` names. */
  function UnpackError(expected: nat, got: nat): string {
    if got < expected then
      "not enough values to unpack (expected " + Show(expected) + ", got " + Show(got) + ")"
    else "too many values to unpack (expected " + Show(expected) + ")"
  }

  /** Message of the `ValueError` from `int(text)` on a non-integer. */
  function InvalidLiteral(text: string): string {
    "invalid literal for int() with base 10: '" + text + "'"
  }

  const DivisionByZero := "division by zero"

  /* ---------- format_gps (as written) ---------- */

  /** `format_gps`: splits the location on '+', demands exactly three parts
      and builds a maps URL from the first two. */
  function FormatGps(location: Option<string>): (r: Result<string, PyError>)
    ensures location.None? ==> r == Ok(Unknown)
    ensures location.Some? ==> (r.Ok? <==> |Split(location.value, '+')| == 3)
    ensures r.Err? ==> r.error.ValueError?
  {
    match location
    case None => Ok(Unknown)
    case Some(text) =>
      var parts := Split(text, '+');
      if |parts| != 3 then Err(ValueError(UnpackError(3, |parts|)))
      else Ok(MapsPrefix + parts[0] + "," + parts[1])
  }

  /** For any three '+'-free parts, the URL carries part 0, a comma and
      part 1; the third part is dropped. */
  lemma GpsKeepsFirstTwoParts(a: string, b: string, c: string)
    requires '+' !in a && '+' !in b && '+' !in c
    ensures FormatGps(Some(a + "+" + b + "+" + c)) == Ok(MapsPrefix + a + "," + b)
  {
    var parts := [a, b, c];
    assert Join(parts, '+') == a + "+" + b + "+" + c by {
      assert Join(parts[2..], '+') == c;
      assert Join(parts[1..], '+') == b + "+" + c;
    }
    SplitJoin(parts, '+');
  }

  /** An ISO 6709 text with a positive latitude starts with '+', so the
      first part of the split is empty: the URL loses the latitude and
      reports the whole latitude-free remainder as the "latitude". */
  lemma GpsDropsPositiveLatitude(rest: string, altitude: string)
    requires '+' !in rest && '+' !in altitude
    ensures FormatGps(Some("+" + rest + "+" + altitude)) == Ok(MapsPrefix + "," + rest)
  {
    GpsKeepsFirstTwoParts("", rest, altitude);
    assert "" + "+" + rest + "+" + altitude == "+" + rest + "+" + altitude;
    assert MapsPrefix + "" + "," + rest == MapsPrefix + "," + rest;
  }

  /** Without an altitude, a positive-latitude ISO 6709 text has only two
      '+'-parts, and `format_gps` raises. */
  lemma GpsRejectsTwoComponents(rest: string)
    requires '+' !in rest
    ensures FormatGps(Some("+" + rest)).Err?
  {
    var parts := ["", rest];
    assert Join(parts, '+') == "+" + rest by {
      assert Join(parts[1..], '+') == rest;
    }
    SplitJoin(parts, '+');
  }

  /** The concrete QuickTime location of a point in Los Angeles, with
      altitude, loses its latitude. */
  lemma GpsLosAngelesExample()
    ensures FormatGps(Some("+34.0522-118.2437+089.000/"))
         == Ok(MapsPrefix + ",34.0522-118.2437")
  {
    var rest, altitude := "34.0522-118.2437", "089.000/";
    assert '+' !in rest && '+' !in altitude;
    GpsDropsPositiveLatitude(rest, altitude);
    LosAngelesPieces();
  }

  /** The example text and its URL, assembled from their pieces. */
  lemma LosAngelesPieces()
    ensures "+" + "34.0522-118.2437" + "+" + "089.000/" == "+34.0522-118.2437+089.000/"
    ensures MapsPrefix + "," + "34.0522-118.2437" == MapsPrefix + ",34.0522-118.2437"
  {
    LosAngelesText();
  }

  lemma LosAngelesText()
    ensures "+" + "34.0522-118.2437" + "+" + "089.000/" == "+34.0522-118.2437+089.000/"
  {
  }

  /* ---------- format_gps (corrected, ISO 6709 Annex H) ---------- */

  predicate IsSign(c: char) {
    c == '+' || c == '-'
  }

  predicate IsNumberChar(c: char) {
    IsDigit(c) || c == '.'
  }

  /** A signed decimal: a sign followed by at least one digit or point. */
  predicate SignedNumber(x: string) {
    && |x| >= 2
    && IsSign(x[0])
    && forall i :: 1 <= i < |x| ==> IsNumberChar(x[i])
  }

  /** Length of the run of digits and points that starts `s`. */
  function NumberRun(s: string): (n: nat)
    ensures n <= |s|
    ensures forall i :: 0 <= i < n ==> IsNumberChar(s[i])
    ensures n == |s| || !IsNumberChar(s[n])
    decreases |s|
  {
    if |s| > 0 && IsNumberChar(s[0]) then 1 + NumberRun(s[1..]) else 0
  }

  /** Length of the signed decimal that starts `s`, or 0 if there is none. */
  function SignedNumberLength(s: string): (n: nat)
    ensures n <= |s|
    ensures n > 0 ==> SignedNumber(s[..n]) && (n == |s| || !IsNumberChar(s[n]))
  {
    if |s| >= 2 && IsSign(s[0]) && IsNumberChar(s[1]) then
      var n := 1 + NumberRun(s[1..]);
      assert forall i :: 1 <= i < n ==> s[..n][i] == s[1..][i - 1];
      n
    else 0
  }

  /** The latitude and longitude components of an ISO 6709 point string
      (section H.3 of ISO 6709:2008, Annex H): a signed latitude, a signed
      longitude, then an optional altitude and coordinate-reference part,
      terminated by '/'. */
  function ParseIso6709(s: string): (r: Option<(string, string)>)
    ensures r.Some? ==> SignedNumber(r.value.0) && SignedNumber(r.value.1)
  {
    if |s| == 0 || s[|s| - 1] != '/' then None
    else
      var n1 := SignedNumberLength(s);
      if n1 == 0 then None
      else
        var rest := s[n1..];
        var n2 := SignedNumberLength(rest);
        if n2 == 0 then None else Some((s[..n1], rest[..n2]))
  }

  /** A coordinate as the maps query wants it: an explicit '+' dropped. */
  function Coordinate(x: string): (r: string)
    requires SignedNumber(x)
    ensures x[0] == '-' ==> r == x
    ensures x[0] == '+' ==> "+" + r == x
  {
    if x[0] == '+' then x[1..] else x
  }

  /** `format_gps` as evidently intended: the URL of the point's signed
      latitude and longitude; a text that is not an ISO 6709 point raises
      `ValueError`. */
  function FormatGpsIso6709(location: Option<string>): (r: Result<string, PyError>)
    ensures location.None? ==> r == Ok(Unknown)
    ensures location.Some? ==> (r.Ok? <==> ParseIso6709(location.value).Some?)
    ensures r.Err? ==> r.error.ValueError?
  {
    match location
    case None => Ok(Unknown)
    case Some(text) =>
      match ParseIso6709(text)
      case None => Err(ValueError("not an ISO 6709 location: " + text))
      case Some((lat, lon)) => Ok(MapsPrefix + Coordinate(lat) + "," + Coordinate(lon))
  }

  lemma SignedNumberPrefix(x: string, tail: string)
    requires SignedNumber(x)
    requires tail == [] || !IsNumberChar(tail[0])
    ensures SignedNumberLength(x + tail) == |x|
  {
    var s := x + tail;
    assert s[1..] == x[1..] + tail;
    NumberRunPrefix(x[1..], tail);
  }

  lemma {:induction false} NumberRunPrefix(x: string, tail: string)
    requires forall i :: 0 <= i < |x| ==> IsNumberChar(x[i])
    requires tail == [] || !IsNumberChar(tail[0])
    ensures NumberRun(x + tail) == |x|
    decreases |x|
  {
    if |x| == 0 {
      assert x + tail == tail;
    } else {
      assert (x + tail)[1..] == x[1..] + tail;
      NumberRunPrefix(x[1..], tail);
    }
  }

  /** For every point written in ISO 6709 form (latitude, longitude, then
      any altitude or reference part not starting with a digit, then '/'),
      the corrected formatter puts exactly that latitude and longitude into
      the URL, whatever their signs. */
  lemma Iso6709RoundTrip(lat: string, lon: string, tail: string)
    requires SignedNumber(lat) && SignedNumber(lon)
    requires |tail| >= 1 && tail[|tail| - 1] == '/' && !IsNumberChar(tail[0])
    ensures FormatGpsIso6709(Some(lat + lon + tail))
         == Ok(MapsPrefix + Coordinate(lat) + "," + Coordinate(lon))
  {
    var s := lat + lon + tail;
    assert !IsNumberChar((lon + tail)[0]);
    SignedNumberPrefix(lat, lon + tail);
    assert s == lat + (lon + tail);
    assert s[|lat|..] == lon + tail;
    SignedNumberPrefix(lon, tail);
    assert s[..|lat|] == lat;
    assert (lon + tail)[..|lon|] == lon;
  }

  /* ---------- ratios: format_exposure_time and the "n/d" parsers ---------- */

  /** `numerator, denominator = map(int, text.split('/'))`: the integers are
      converted left to right while unpacking, so the first bad literal
      wins over a wrong part count. */
  function ParseRatio(text: string): (r: Result<(int, int), PyError>)
    ensures r.Ok? <==>
      var parts := Split(text, '/');
      |parts| == 2 && ParseInt(parts[0]).Some? && ParseInt(parts[1]).Some?
    ensures r.Ok? ==>
      ParseInt(Split(text, '/')[0]) == Some(r.value.0) && ParseInt(Split(text, '/')[1]) == Some(r.value.1)
    ensures r.Err? ==> r.error.ValueError?
  {
    var parts := Split(text, '/');
    if ParseInt(parts[0]).None? then Err(ValueError(InvalidLiteral(parts[0])))
    else if |parts| < 2 then Err(ValueError(UnpackError(2, |parts|)))
    else if ParseInt(parts[1]).None? then Err(ValueError(InvalidLiteral(parts[1])))
    else if |parts| > 2 then
      if ParseInt(parts[2]).None? then Err(ValueError(InvalidLiteral(parts[2])))
      else Err(ValueError(UnpackError(2, |parts|)))
    else Ok((ParseInt(parts[0]).value, ParseInt(parts[1]).value))
  }

  lemma ShowHasNoSlash(i: int)
    ensures '/' !in Show(i)
  {
  }

  /** `"n/d"` written from two integers parses back to them. */
  lemma RatioRoundTrip(n: int, d: int)
    ensures ParseRatio(Show(n) + "/" + Show(d)) == Ok((n, d))
  {
    ShowHasNoSlash(n);
    ShowHasNoSlash(d);
    var parts := [Show(n), Show(d)];
    assert Join(parts, '/') == Show(n) + "/" + Show(d) by {
      assert Join(parts[1..], '/') == Show(d);
    }
    SplitJoin(parts, '/');
    ShowParses(n);
    ShowParses(d);
  }

  /** `format_exposure_time`: whole seconds for denominator 1, the
      reciprocal of the denominator above 1 (whatever the numerator), a
      float quotient for negative denominators, and `ZeroDivisionError`
      for 0. */
  function FormatExposureTime(exposure: Option<string>): (r: Result<Value, PyError>)
    ensures exposure.None? ==> r == Ok(VStr(Unknown))
    ensures exposure.Some? && ParseRatio(exposure.value).Err? ==> r.Err? && r.error.ValueError?
    ensures exposure.Some? && ParseRatio(exposure.value).Ok? ==>
      var d := ParseRatio(exposure.value).value.1;
      (r.Err? <==> d == 0) && (r.Err? ==> r.error.ZeroDivisionError?)
  {
    match exposure
    case None => Ok(VStr(Unknown))
    case Some(text) =>
      match ParseRatio(text)
      case Err(e) => Err(e)
      case Ok((n, d)) =>
        if d == 1 then Ok(VStr(Show(n) + " sec"))
        else if d > 1 then Ok(VStr("1/" + Show(d) + " sec"))
        else if d == 0 then Err(ZeroDivisionError(DivisionByZero))
        else Ok(VComputed([Show(n), Show(d)], " sec"))
  }

  /** On a ratio written from two integers: denominator 1 gives "n sec",
      a larger denominator gives "1/d sec" whatever `n` is. */
  lemma ExposureTimeRendering(n: int, d: int)
    ensures d == 1 ==> FormatExposureTime(Some(Show(n) + "/" + Show(d))) == Ok(VStr(Show(n) + " sec"))
    ensures d > 1 ==> FormatExposureTime(Some(Show(n) + "/" + Show(d))) == Ok(VStr("1/" + Show(d) + " sec"))
    ensures d == 0 ==> FormatExposureTime(Some(Show(n) + "/" + Show(d))).Err?
  {
    RatioRoundTrip(n, d);
  }

  /** A text with no '/' (such as the "5" that a whole-second EXIF ratio
      prints as) is not a ratio: exposure formatting raises. */
  lemma ExposureTimeNeedsSlash(text: string)
    requires '/' !in text
    ensures FormatExposureTime(Some(text)).Err?
  {
    SplitWhole(text, '/');
  }

  /* ---------- size and bitrate tiers ---------- */

  const KiB := 1024

  /** `1024 ** k`. */
  function Divisor(k: nat): (p: nat)
    requires k <= 3
    ensures p >= 1
  {
    if k == 0 then 1 else if k == 1 then KiB else if k == 2 then KiB * KiB else KiB * KiB * KiB
  }

  /** The unit tier `format_size` and `format_bitrate` pick: the largest of
      the four whose divisor does not exceed the value, so that the
      rendered amount lies in [1, 1024) except in the top tier. */
  function Tier(n: int): (k: nat)
    ensures k <= 3
    ensures k == 0 <==> n < KiB
    ensures k > 0 ==> Divisor(k) <= n
    ensures k < 3 ==> n < KiB * Divisor(k)
  {
    if n < KiB then 0
    else if n < KiB * KiB then 1
    else if n < KiB * KiB * KiB then 2
    else 3
  }

  /** The text for `n` in the given units: exact below 1024, otherwise
      `n / 1024**k` to two decimals with the tier's unit. */
  function Tiered(n: int, units: seq<string>): (r: Value)
    requires |units| == 4
    ensures Tier(n) == 0 ==> r == VStr(Show(n) + " " + units[0])
    ensures Tier(n) > 0 ==> r == VComputed([Show(n), Show(Divisor(Tier(n)))], " " + units[Tier(n)])
  {
    var k := Tier(n);
    if k == 0 then VStr(Show(n) + " " + units[0])
    else VComputed([Show(n), Show(Divisor(k))], " " + units[k])
  }

  const SizeUnits := ["B", "KB", "MB", "GB"]
  const BitrateUnits := ["bps", "Kbps", "Mbps", "Gbps"]

  /** `format_size`. */
  function FormatSize(size: Option<int>): (r: Value)
    ensures size.None? ==> r == VStr(Unknown)
    ensures size.Some? && size.value < KiB ==> r == VStr(Show(size.value) + " B")
    ensures size.Some? && size.value >= KiB ==>
      r.VComputed? && r.operands == [Show(size.value), Show(Divisor(Tier(size.value)))]
      && r.shape == " " + SizeUnits[Tier(size.value)]
  {
    match size
    case None => VStr(Unknown)
    case Some(n) => Tiered(n, SizeUnits)
  }

  /** `format_bitrate`: the same tiers as sizes, in bits per second. */
  function FormatBitrate(bitrate: Option<int>): (r: Value)
    ensures bitrate.None? ==> r == VStr(Unknown)
    ensures bitrate.Some? && bitrate.value < KiB ==> r == VStr(Show(bitrate.value) + " bps")
    ensures bitrate.Some? && bitrate.value >= KiB ==>
      r.VComputed? && r.operands == [Show(bitrate.value), Show(Divisor(Tier(bitrate.value)))]
      && r.shape == " " + BitrateUnits[Tier(bitrate.value)]
  {
    match bitrate
    case None => VStr(Unknown)
    case Some(n) => Tiered(n, BitrateUnits)
  }

  /** The tier divides the value into an amount in [1, 1024), except that
      GB/Gbps amounts can be any size from 1 up; and it is the only tier
      that does so. */
  lemma TierIsUnique(n: int, k: nat)
    requires 1 <= k <= 3
    requires Divisor(k) <= n && (k < 3 ==> n < KiB * Divisor(k))
    ensures Tier(n) == k
  {
  }

  /* ---------- format_duration ---------- */

  /** `format_duration` on a whole number of seconds. */
  function FormatDuration(seconds: Option<int>): (r: string)
    ensures seconds.None? ==> r == Unknown
    ensures seconds.Some? && seconds.value < 60 ==> r == Show(seconds.value) + " sec"
  {
    match seconds
    case None => Unknown
    case Some(d) =>
      if d < 60 then Show(d) + " sec"
      else if d < 3600 then Show(d / 60) + " min " + Show(d % 60) + " sec"
      else Show(d / 3600) + " hr " + Show((d % 3600) / 60) + " min " + Show(d % 60) + " sec"
  }

  /** Every duration of `m` minutes and `s` seconds under an hour is
      rendered "m min s sec". */
  lemma DurationMinutes(m: int, s: int)
    requires 1 <= m < 60 && 0 <= s < 60
    ensures FormatDuration(Some(m * 60 + s)) == Show(m) + " min " + Show(s) + " sec"
  {
    var d := m * 60 + s;
    assert d / 60 == m && d % 60 == s;
  }

  /** Every duration of `h` hours (at least one), `m` minutes and `s`
      seconds is rendered "h hr m min s sec". */
  lemma DurationHours(h: int, m: int, s: int)
    requires h >= 1 && 0 <= m < 60 && 0 <= s < 60
    ensures FormatDuration(Some(h * 3600 + m * 60 + s))
         == Show(h) + " hr " + Show(m) + " min " + Show(s) + " sec"
  {
    var d := h * 3600 + m * 60 + s;
    assert d / 3600 == h && d % 3600 == m * 60 + s;
    assert (m * 60 + s) / 60 == m;
    assert d == (h * 60 + m) * 60 + s;
    assert d % 60 == s;
  }

  /* ---------- the float formatters, reduced to their failure points ---------- */

  /** `int(n / d)`: the quotient truncated toward zero. */
  function TruncDiv(n: int, d: int): (q: int)
    requires d != 0
    ensures n >= 0 && d > 0 ==> q == n / d
  {
    var a := (if n < 0 then -n else n) / (if d < 0 then -d else d);
    if (n < 0) == (d < 0) then a else -a
  }

  /** `format_framerate`: two decimals of the rate, then " fps". */
  function FormatFramerate(rate: Option<string>): (r: Value)
    ensures rate.None? ==> r == VStr(Unknown)
    ensures rate.Some? ==> r == VComputed([rate.value], " fps")
  {
    match rate
    case None => VStr(Unknown)
    case Some(text) => VComputed([text], " fps")
  }

  /** `format_samplerate`: the rate in kHz to two decimals. */
  function FormatSamplerate(rate: Option<int>): (r: Value)
    ensures rate.None? ==> r == VStr(Unknown)
    ensures rate.Some? ==> r == VComputed([Show(rate.value), "1000"], " KHz")
  {
    match rate
    case None => VStr(Unknown)
    case Some(n) => VComputed([Show(n), "1000"], " KHz")
  }

  /** `convert_gps`: degrees, decimal minutes and the hemisphere letter. */
  function ConvertGps(degrees: Option<string>, minutes: Option<string>,
                      seconds: Option<string>, direction: Option<string>): (r: Value)
    ensures degrees.None? || minutes.None? || seconds.None? || direction.None? ==> r == VStr(Unknown)
  {
    if degrees.None? || minutes.None? || seconds.None? || direction.None? then VStr(Unknown)
    else VComputed([degrees.value, minutes.value, seconds.value, direction.value], "'")
  }

  /** The parse and division shared by the four `"n/d"` float formatters:
      raises where `int()` or the unpacking fails or `d` is zero. */
  function RatioOperands(text: string): (r: Result<(int, int), PyError>)
    ensures r.Ok? <==> ParseRatio(text).Ok? && ParseRatio(text).value.1 != 0
    ensures r.Ok? ==> r.value == ParseRatio(text).value
  {
    match ParseRatio(text)
    case Err(e) => Err(e)
    case Ok((n, d)) => if d == 0 then Err(ZeroDivisionError(DivisionByZero)) else Ok((n, d))
  }

  /** `format_focal_length`: one decimal below 10 mm, whole millimetres
      (truncated) from 10 mm up. */
  function FormatFocalLength(focal: Option<string>): (r: Result<Value, PyError>)
    ensures focal.None? ==> r == Ok(VStr(Unknown))
    ensures focal.Some? ==> (r.Ok? <==> RatioOperands(focal.value).Ok?)
    ensures focal.Some? && r.Ok? ==>
      var (n, d) := RatioOperands(focal.value).value;
      && (r.value.VStr? <==> (if d > 0 then n >= 10 * d else n <= 10 * d))
      && (r.value.VStr? ==> r.value == VStr(Show(TruncDiv(n, d)) + " mm"))
  {
    match focal
    case None => Ok(VStr(Unknown))
    case Some(text) =>
      match RatioOperands(text)
      case Err(e) => Err(e)
      case Ok((n, d)) =>
        var belowTen := if d > 0 then n < 10 * d else n > 10 * d;
        if belowTen then Ok(VComputed([Show(n), Show(d)], " mm"))
        else Ok(VStr(Show(TruncDiv(n, d)) + " mm"))
  }

  /** For a focal length written "n/d" with a positive denominator: from
      10 mm up the text is the whole millimetres n / d, and below 10 mm
      it is the one-decimal rendering of the quotient. */
  lemma FocalLengthRendering(n: int, d: int)
    requires d > 0
    ensures n >= 10 * d ==> FormatFocalLength(Some(Show(n) + "/" + Show(d))) == Ok(VStr(Show(n / d) + " mm"))
    ensures n < 10 * d ==> FormatFocalLength(Some(Show(n) + "/" + Show(d))) == Ok(VComputed([Show(n), Show(d)], " mm"))
  {
    RatioRoundTrip(n, d);
  }

  /** `format_brightness_value`: the quotient to two decimals. */
  function FormatBrightnessValue(brightness: Option<string>): (r: Result<Value, PyError>)
    ensures brightness.None? ==> r == Ok(VStr(Unknown))
    ensures brightness.Some? ==> (r.Ok? <==> RatioOperands(brightness.value).Ok?)
  {
    match brightness
    case None => Ok(VStr(Unknown))
    case Some(text) =>
      match RatioOperands(text)
      case Err(e) => Err(e)
      case Ok((n, d)) => Ok(VComputed([Show(n), Show(d)], ""))
  }

  /** `format_aperture_value`: "f/" and the quotient to two decimals. */
  function FormatApertureValue(aperture: Option<string>): (r: Result<Value, PyError>)
    ensures aperture.None? ==> r == Ok(VStr(Unknown))
    ensures aperture.Some? ==> (r.Ok? <==> RatioOperands(aperture.value).Ok?)
  {
    match aperture
    case None => Ok(VStr(Unknown))
    case Some(text) =>
      match RatioOperands(text)
      case Err(e) => Err(e)
      case Ok((n, d)) => Ok(VComputed(["f/", Show(n), Show(d)], ""))
  }

  /** `format_shutter_speed`: whole seconds (truncated) from one second up.
      The function's text ends after that branch, so a speed below one
      second falls off the end and yields `None`. */
  function FormatShutterSpeed(shutter: Option<string>): (r: Result<Value, PyError>)
    ensures shutter.None? ==> r == Ok(VStr(Unknown))
    ensures shutter.Some? ==> (r.Ok? <==> RatioOperands(shutter.value).Ok?)
    ensures r.Ok? && shutter.Some? ==>
      var (n, d) := RatioOperands(shutter.value).value;
      var atLeastOne := if d > 0 then n >= d else n <= d;
      (r.value == VNone <==> !atLeastOne)
  {
    match shutter
    case None => Ok(VStr(Unknown))
    case Some(text) =>
      match RatioOperands(text)
      case Err(e) => Err(e)
      case Ok((n, d)) =>
        var atLeastOne := if d > 0 then n >= d else n <= d;
        if atLeastOne then Ok(VStr(Show(TruncDiv(n, d)) + " sec")) else Ok(VNone)
  }

  /** The shared guard: every formatter answers "Unknown" for `None`. */
  lemma NoneIsUnknown()
    ensures FormatGps(None) == Ok(Unknown)
    ensures FormatExposureTime(None) == Ok(VStr(Unknown))
    ensures FormatSize(None) == VStr(Unknown)
    ensures FormatDuration(None) == Unknown
    ensures FormatBitrate(None) == VStr(Unknown)
  {
  }
}
