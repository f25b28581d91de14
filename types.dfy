/** The shared records of the application (types/index.ts) and the
    small text helpers several components use. */
module Types {

  datatype Option<+T> = None | Some(value: T)

  /** A catalogued star: right ascension, declination and a brightness
      that the producer keeps in [0, 10). */
  datatype Star = Star(ra: real, dec: real, brightness: real)

  /** A named polyline over positions in the accompanying star list.
      Nothing guarantees that an index is in range. */
  datatype Constellation = Constellation(name: string, stars: seq<int>)

  datatype AnalysisResult = AnalysisResult(
    starCount: int,
    clusterCount: int,
    anomalyCount: int,
    discoveryScore: int,
    summary: string,
    timestamp: Option<string>,
    stars: Option<seq<Star>>,
    constellations: Option<seq<Constellation>>)

  datatype SavedObservation = SavedObservation(
    id: string,
    timestamp: string,
    originalImageBase64: Option<string>,
    analysis: AnalysisResult,
    starOverlayImageUrl: Option<string>,
    heatmapImageUrl: Option<string>)

  datatype User = User(id: string, email: string, loginTime: string)

  /** `props || analysis?.stars || []`: an array is truthy even when it is
      empty, so a supplied list always wins. */
  function StarsOf(props: Option<seq<Star>>, analysis: Option<AnalysisResult>): (r: seq<Star>)
    ensures props.Some? ==> r == props.value
    ensures props.None? && analysis.Some? && analysis.value.stars.Some? ==> r == analysis.value.stars.value
    ensures r == [] <== props.None? && (analysis.None? || analysis.value.stars.None?)
  {
    if props.Some? then props.value
    else if analysis.Some? && analysis.value.stars.Some? then analysis.value.stars.value
    else []
  }

  /** `props || analysis?.constellations || []`, with the same truthiness. */
  function ConstellationsOf(props: Option<seq<Constellation>>, analysis: Option<AnalysisResult>): (r: seq<Constellation>)
    ensures props.Some? ==> r == props.value
    ensures props.None? && analysis.Some? && analysis.value.constellations.Some? ==> r == analysis.value.constellations.value
    ensures r == [] <== props.None? && (analysis.None? || analysis.value.constellations.None?)
  {
    if props.Some? then props.value
    else if analysis.Some? && analysis.value.constellations.Some? then analysis.value.constellations.value
    else []
  }
}

/** String helpers: decimal rendering of naturals, prefixes and ASCII case folding. */
module Text {

  function DigitChar(d: nat): (c: char)
    requires d < 10
    ensures '0' <= c <= '9' && c as int - '0' as int == d
  {
    ('0' as int + d) as char
  }

  /** The decimal rendering of a natural number, as template literals print it. */
  function NatToDecimal(n: nat): (s: string)
    ensures |s| > 0
    ensures forall k :: 0 <= k < |s| ==> '0' <= s[k] <= '9'
    decreases n
  {
    if n < 10 then [DigitChar(n)] else NatToDecimal(n / 10) + [DigitChar(n % 10)]
  }

  /** The value of a string of decimal digits, most significant first. */
  function DecimalValue(s: string): nat
    requires forall k :: 0 <= k < |s| ==> '0' <= s[k] <= '9'
  {
    if |s| == 0 then 0 else DecimalValue(s[..|s| - 1]) * 10 + (s[|s| - 1] as int - '0' as int)
  }

  /** Reading back the decimal rendering gives the number. */
  lemma {:induction false} DecimalRoundTrip(n: nat)
    ensures DecimalValue(NatToDecimal(n)) == n
  {
    var s := NatToDecimal(n);
    if n >= 10 {
      DecimalRoundTrip(n / 10);
      assert s[..|s| - 1] == NatToDecimal(n / 10);
    }
  }

  /** The longest run of digits at the front of `s`. */
  function LeadingDigits(s: string): (d: string)
    ensures |d| <= |s| && d == s[..|d|]
    ensures forall k :: 0 <= k < |d| ==> '0' <= d[k] <= '9'
  {
    if |s| == 0 || !('0' <= s[0] <= '9') then [] else [s[0]] + LeadingDigits(s[1..])
  }

  /** The leading digits of a digit string followed by a non-digit are that string. */
  lemma {:induction false} LeadingDigitsStop(d: string, rest: string)
    requires forall k :: 0 <= k < |d| ==> '0' <= d[k] <= '9'
    requires |rest| > 0 && !('0' <= rest[0] <= '9')
    ensures LeadingDigits(d + rest) == d
  {
    if |d| > 0 {
      assert (d + rest)[1..] == d[1..] + rest;
      LeadingDigitsStop(d[1..], rest);
    } else {
      assert d + rest == rest;
    }
  }

  predicate StartsWith(s: string, prefix: string) {
    |prefix| <= |s| && s[..|prefix|] == prefix
  }

  function LowerChar(c: char): (r: char)
    ensures 'A' <= c <= 'Z' ==> r as int == c as int + 32 && 'a' <= r <= 'z'
    ensures !('A' <= c <= 'Z') ==> r == c
  {
    if 'A' <= c <= 'Z' then (c as int + 32) as char else c
  }

  /** `toLowerCase` restricted to ASCII letters. */
  function Lower(s: string): (r: string)
    ensures |r| == |s|
    ensures forall k :: 0 <= k < |s| ==> r[k] == LowerChar(s[k])
  {
    seq(|s|, k requires 0 <= k < |s| => LowerChar(s[k]))
  }

  lemma LowerIdempotent(s: string)
    ensures Lower(Lower(s)) == Lower(s)
  {
    assert forall k :: 0 <= k < |s| ==> LowerChar(LowerChar(s[k])) == LowerChar(s[k]);
  }
}
