/** The simulated analysis endpoint (app/api/analyze-image/route.ts). Every
    count is derived from the uploaded file's size modulo 1000; the star
    list is drawn from a random source, given here as `rand(k)`, the k-th
    draw of `Math.random()`. */
module AnalyzeImage {
  import opened Types
  import opened Text

  /** The uploaded file; only its size in bytes is read. */
  datatype ImageFile = ImageFile(size: nat)

  /** The parsed multipart body, or a body that could not be parsed. */
  datatype FormData = Unreadable | Form(image: Option<ImageFile>)

  datatype Body = ErrorBody(error: string) | AnalysisBody(result: AnalysisResult)

  datatype Response = Response(status: int, body: Body)

  function Seed(size: nat): (seed: nat)
    ensures seed < 1000
  {
    size % 1000
  }

  function StarCountFor(size: nat): (n: int)
    ensures 120 <= n <= 169
  {
    120 + Seed(size) % 50
  }

  function ClusterCountFor(size: nat): (n: int)
    ensures 3 <= n <= 7
  {
    3 + Seed(size) % 5
  }

  function AnomalyCountFor(size: nat): (n: int)
    ensures 0 <= n <= 2
  {
    Seed(size) % 3
  }

  function DiscoveryScoreFor(size: nat): (n: int)
    ensures 65 <= n <= 94
  {
    65 + Seed(size) % 30
  }

  const SummaryOpening := "Stellar analysis extracted "

  /** The star count a reader finds in a summary: the number written right
      after the opening words. */
  function ReportedStarCount(summary: string): Option<nat> {
    if StartsWith(summary, SummaryOpening) && |LeadingDigits(summary[|SummaryOpening|..])| > 0
    then Some(DecimalValue(LeadingDigits(summary[|SummaryOpening|..])))
    else None
  }

  const SummaryMiddle := "distinct stellar objects from the provided night-sky image. The field exhibits moderate stellar density with "
  const SummaryClosing := " distinct clustering formations. Image contrast is sufficient for reliable feature extraction."

  /** The summary text with both counts written in decimal. */
  function Summary(starCount: nat, clusterCount: nat): string {
    SummaryOpening + NatToDecimal(starCount) + " " + SummaryMiddle + NatToDecimal(clusterCount) + SummaryClosing
  }

  /** The star count can be read back from the summary. */
  lemma SummaryReportsStarCount(starCount: nat, clusterCount: nat)
    ensures ReportedStarCount(Summary(starCount, clusterCount)) == Some(starCount)
  {
    var digits := NatToDecimal(starCount);
    var rest := " " + SummaryMiddle + NatToDecimal(clusterCount) + SummaryClosing;
    var r := Summary(starCount, clusterCount);
    assert r == SummaryOpening + (digits + rest);
    assert r[|SummaryOpening|..] == digits + rest;
    LeadingDigitsStop(digits, rest);
    DecimalRoundTrip(starCount);
  }

  /** The two fixed constellations every analysis carries. */
  const SampleConstellations: seq<Constellation> := [
    Constellation("Orion", [0, 1, 2, 3, 4]),
    Constellation("Ursa Major", [10, 11, 12, 13, 14, 15])
  ]

  /** Star i of the generated field, built from draws 3i, 3i + 1 and 3i + 2. */
  function GeneratedStar(rand: nat -> real, i: nat): Star {
    Star(rand(3 * i) * 360.0, rand(3 * i + 1) * 180.0 - 90.0, rand(3 * i + 2) * 10.0)
  }

  /** `generateStarField`: exactly `count` stars, star i from its three draws. */
  method GenerateStarField(count: nat, rand: nat -> real) returns (stars: seq<Star>)
    ensures |stars| == count
    ensures forall i :: 0 <= i < count ==> stars[i] == GeneratedStar(rand, i)
  {
    stars := [];
    var i := 0;
    while i < count
      invariant 0 <= i <= count && |stars| == i
      invariant forall k :: 0 <= k < i ==> stars[k] == GeneratedStar(rand, k)
    {
      stars := stars + [Star(rand(3 * i) * 360.0, rand(3 * i + 1) * 180.0 - 90.0, rand(3 * i + 2) * 10.0)];
      i := i + 1;
    }
  }

  /** With draws in [0, 1), a generated star lies in the catalogue ranges:
      ra in [0, 360), dec in [-90, 90), brightness in [0, 10). */
  lemma GeneratedStarInRange(rand: nat -> real, i: nat)
    requires forall k :: 3 * i <= k < 3 * i + 3 ==> 0.0 <= rand(k) < 1.0
    ensures var s := GeneratedStar(rand, i);
      0.0 <= s.ra < 360.0 && -90.0 <= s.dec < 90.0 && 0.0 <= s.brightness < 10.0
  {
    assert 0.0 <= rand(3 * i) < 1.0;
    assert 0.0 <= rand(3 * i + 1) < 1.0;
    assert 0.0 <= rand(3 * i + 2) < 1.0;
  }

  /** The analysis built for a file of the given size. */
  predicate IsAnalysisFor(r: AnalysisResult, size: nat, now: string, rand: nat -> real) {
    r.starCount == StarCountFor(size) &&
    r.clusterCount == ClusterCountFor(size) &&
    r.anomalyCount == AnomalyCountFor(size) &&
    r.discoveryScore == DiscoveryScoreFor(size) &&
    r.summary == Summary(StarCountFor(size), ClusterCountFor(size)) &&
    r.timestamp == Some(now) &&
    r.stars.Some? && |r.stars.value| == StarCountFor(size) &&
    (forall i :: 0 <= i < |r.stars.value| ==> r.stars.value[i] == GeneratedStar(rand, i)) &&
    r.constellations == Some(SampleConstellations)
  }

  /** `POST`: 500 when the body cannot be read, 400 without an `image`
      field, otherwise the simulated analysis with status 200. */
  method Post(form: FormData, now: string, rand: nat -> real) returns (response: Response)
    ensures form.Unreadable? ==> response == Response(500, ErrorBody("Analysis failed"))
    ensures form.Form? && form.image.None? ==> response == Response(400, ErrorBody("No image provided"))
    ensures form.Form? && form.image.Some? ==>
      response.status == 200 && response.body.AnalysisBody? &&
      IsAnalysisFor(response.body.result, form.image.value.size, now, rand)
  {
    if form.Unreadable? {
      return Response(500, ErrorBody("Analysis failed"));
    }
    if form.image.None? {
      return Response(400, ErrorBody("No image provided"));
    }
    var fileSize := form.image.value.size;
    var starCount := StarCountFor(fileSize);
    var clusterCount := ClusterCountFor(fileSize);
    var stars := GenerateStarField(starCount, rand);
    var analysis := AnalysisResult(
      starCount,
      clusterCount,
      AnomalyCountFor(fileSize),
      DiscoveryScoreFor(fileSize),
      Summary(starCount, clusterCount),
      Some(now),
      Some(stars),
      Some(SampleConstellations));
    response := Response(200, AnalysisBody(analysis));
  }

  /** Two files whose sizes agree modulo 1000 get the same counts. */
  lemma CongruentSizesSameCounts(size1: nat, size2: nat)
    requires size1 % 1000 == size2 % 1000
    ensures StarCountFor(size1) == StarCountFor(size2)
    ensures ClusterCountFor(size1) == ClusterCountFor(size2)
    ensures AnomalyCountFor(size1) == AnomalyCountFor(size2)
    ensures DiscoveryScoreFor(size1) == DiscoveryScoreFor(size2)
  {
  }

  /** Every index of the fixed constellations is below the star count, so
      all of them resolve against the generated field. */
  lemma SampleIndicesResolve(size: nat)
    ensures forall c :: c in SampleConstellations ==>
      forall k :: 0 <= k < |c.stars| ==> 0 <= c.stars[k] < StarCountFor(size)
  {
    forall c | c in SampleConstellations
      ensures forall k :: 0 <= k < |c.stars| ==> 0 <= c.stars[k] < StarCountFor(size)
    {
      assert c == SampleConstellations[0] || c == SampleConstellations[1];
    }
  }
}
