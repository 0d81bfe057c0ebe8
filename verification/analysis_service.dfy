/** Result shaping of `AnalysisService`: the remote detection response is
    renamed into the display record, and when the remote call fails a
    mock result is synthesised from random draws. Confidences are exact
    reals; each `Math.random()` draw is a parameter in [0, 1). */
module AnalysisService {
  import opened Outcomes
  import opened PhotoUploadService

  /** The overall verdict, `'intact' | 'damaged'` in the source. */
  datatype CarCondition = Intact | Damaged

  /** The four damage classes the detector knows. */
  datatype DamageType = Scratch | Dent | Rust | Crack

  datatype BBox = BBox(x1: real, y1: real, x2: real, y2: real, width: real, height: real)

  /** Per-class counts; the four keys are always present. */
  datatype DamageStats = DamageStats(scratch: int, dent: int, rust: int, crack: int)

  /** One detection as the remote service returns it. */
  datatype ApiDetection = ApiDetection(className: DamageType, classId: int, confidence: real, bbox: BBox)

  /** The body of a successful `POST /detect`. */
  datatype ApiResponse = ApiResponse(
    imagePath: string,
    carCondition: CarCondition,
    hasDamages: bool,
    totalDamages: int,
    damageStats: DamageStats,
    detections: seq<ApiDetection>,
    filename: string,
    fileSize: int,
    confThreshold: real,
    visualization: Option<string>)

  /** One detection as the display layer sees it. */
  datatype Detection = Detection(damageType: DamageType, confidence: real, bbox: BBox, displayText: string)

  /** The display record. `timestamp` is an opaque clock reading. */
  datatype AnalysisResult = AnalysisResult(
    carCondition: CarCondition,
    totalDamages: int,
    damageStats: DamageStats,
    detections: seq<Detection>,
    timestamp: int,
    imageUrl: string,
    visualization: Option<string>,
    confidence: real)

  /** How the `POST /detect` call ended: a body the mapper can read, or
      any error on the way (transport, non-2xx status, a body whose mapping
      throws). */
  datatype DetectReply = Detected(response: ApiResponse) | DetectFailed

  /** The classes in the order the mock generator indexes them. */
  const DamageTypes: seq<DamageType> := [Scratch, Dent, Rust, Crack]
  const MinProcessingTime: int := 2000
  const MaxProcessingTime: int := 3000

  /** Number of draws the mock generator can consume: the damaged coin, the
      count, and six per detection for at most three detections. */
  const MockDrawCount: nat := 20

  // ----- Display helpers -----

  /** `getDamageDisplayText`: the Russian label of a damage class; any
      other text is returned as it is. */
  function GetDamageDisplayText(damageType: string): (r: string)
    ensures damageType == "scratch" ==> r == "Царапина"
    ensures damageType == "dent" ==> r == "Вмятина"
    ensures damageType == "rust" ==> r == "Ржавчина"
    ensures damageType == "crack" ==> r == "Трещина"
    ensures damageType !in ClassNames ==> r == damageType
  {
    if damageType == "scratch" then "Царапина"
    else if damageType == "dent" then "Вмятина"
    else if damageType == "rust" then "Ржавчина"
    else if damageType == "crack" then "Трещина"
    else damageType
  }

  /** The wire name of a class, as it appears in the JSON. */
  function ClassName(t: DamageType): string {
    match t
    case Scratch => "scratch"
    case Dent => "dent"
    case Rust => "rust"
    case Crack => "crack"
  }

  const ClassNames: seq<string> := ["scratch", "dent", "rust", "crack"]

  /** The label shown for a detected class. */
  function Label(t: DamageType): string {
    GetDamageDisplayText(ClassName(t))
  }

  /** `isPositiveResult`. */
  function IsPositiveResult(result: AnalysisResult): (r: bool)
    ensures r <==> result.carCondition == Intact && result.totalDamages == 0
    ensures r ==> GetResultCssClass(result.carCondition) == "success"
    ensures r ==> GetCarConditionText(result.carCondition) == "Целый"
    ensures Consistent(result) ==> (r <==> |result.detections| == 0)
  {
    result.carCondition == Intact && result.totalDamages == 0
  }

  /** `getResultCssClass`. */
  function GetResultCssClass(carCondition: CarCondition): (r: string)
    ensures r == "success" <==> carCondition == Intact
    ensures r != "success" ==> r == "error"
  {
    if carCondition == Intact then "success" else "error"
  }

  /** `getCarConditionText`: every condition other than "intact" reads as damaged. */
  function GetCarConditionText(carCondition: CarCondition): (r: string)
    ensures r == "Целый" <==> carCondition == Intact
    ensures r != "Целый" ==> r == "Поврежден"
  {
    if carCondition == Intact then "Целый" else "Поврежден"
  }

  // ----- Aggregates over detections -----

  /** Sum of the confidences (the `reduce` of the source; exact reals make
      the order of addition irrelevant). */
  function SumConfidence(detections: seq<Detection>): real {
    if |detections| == 0 then 0.0
    else detections[0].confidence + SumConfidence(detections[1..])
  }

  /** Arithmetic mean of the confidences, 0 for no detections. */
  function MeanConfidence(detections: seq<Detection>): real {
    if |detections| > 0 then SumConfidence(detections) / (|detections| as real) else 0.0
  }

  /** Number of detections of class `damageType`. */
  function CountOfType(detections: seq<Detection>, damageType: DamageType): nat {
    if |detections| == 0 then 0
    else (if detections[0].damageType == damageType then 1 else 0) + CountOfType(detections[1..], damageType)
  }

  function StatsOf(detections: seq<Detection>): DamageStats {
    DamageStats(CountOfType(detections, Scratch), CountOfType(detections, Dent),
                CountOfType(detections, Rust), CountOfType(detections, Crack))
  }

  function StatsTotal(stats: DamageStats): int {
    stats.scratch + stats.dent + stats.rust + stats.crack
  }

  /** The invariant a display record ought to satisfy: the condition agrees
      with the count, and the count agrees with the stats and detections. */
  predicate Consistent(result: AnalysisResult) {
    && result.totalDamages == |result.detections|
    && result.damageStats == StatsOf(result.detections)
    && result.carCondition == (if result.totalDamages > 0 then Damaged else Intact)
  }

  // ----- Mapping the remote response -----

  function MapDetection(det: ApiDetection): (r: Detection)
    ensures r.damageType == det.className && r.confidence == det.confidence && r.bbox == det.bbox
    ensures r.displayText == Label(det.className)
  {
    Detection(det.className, det.confidence, det.bbox, Label(det.className))
  }

  function MapDetections(dets: seq<ApiDetection>): (r: seq<Detection>)
    ensures |r| == |dets|
    ensures forall i :: 0 <= i < |dets| ==> r[i] == MapDetection(dets[i])
  {
    seq(|dets|, i requires 0 <= i < |dets| => MapDetection(dets[i]))
  }

  /** `mapApiResponseToAnalysisResult`. The counts and the condition are
      copied as received, never reconciled with the detections. */
  function MapApiResponseToAnalysisResult(response: ApiResponse, imageUrl: string, now: int): (r: AnalysisResult)
    ensures |r.detections| == |response.detections|
    ensures forall i :: 0 <= i < |response.detections| ==>
              && r.detections[i].damageType == response.detections[i].className
              && r.detections[i].confidence == response.detections[i].confidence
              && r.detections[i].bbox == response.detections[i].bbox
              && r.detections[i].displayText == Label(response.detections[i].className)
    ensures r.carCondition == response.carCondition && r.totalDamages == response.totalDamages
    ensures r.damageStats == response.damageStats && r.visualization == response.visualization
    ensures r.imageUrl == imageUrl && r.timestamp == now
    ensures r.confidence * (|response.detections| as real) == SumConfidence(r.detections)
    ensures |response.detections| == 0 ==> r.confidence == 0.0
  {
    var detections := MapDetections(response.detections);
    AnalysisResult(response.carCondition, response.totalDamages, response.damageStats, detections,
                   now, imageUrl, response.visualization, MeanConfidence(detections))
  }

  // ----- Randomised helpers -----

  /** One `Math.random()` result. */
  predicate IsDraw(u: real) {
    0.0 <= u < 1.0
  }

  /** `getRandomProcessingTime` for the draw `u`. */
  function GetRandomProcessingTime(u: real): (r: int)
    requires IsDraw(u)
    ensures MinProcessingTime <= r <= MaxProcessingTime
  {
    (u * (MaxProcessingTime - MinProcessingTime + 1) as real).Floor + MinProcessingTime
  }

  /** The ranges a synthetic detection keeps. */
  predicate MockDetectionInRange(d: Detection) {
    && d.displayText == Label(d.damageType)
    && 0.7 <= d.confidence < 1.0
    && 0.0 <= d.bbox.x1 <= 299.0 && d.bbox.x1 == d.bbox.x1.Floor as real
    && 0.0 <= d.bbox.y1 <= 299.0 && d.bbox.y1 == d.bbox.y1.Floor as real
    && 350.0 <= d.bbox.x2 <= 449.0 && d.bbox.x2 == d.bbox.x2.Floor as real
    && 350.0 <= d.bbox.y2 <= 449.0 && d.bbox.y2 == d.bbox.y2.Floor as real
    && d.bbox.width == 100.0 && d.bbox.height == 100.0
  }

  /** One synthetic detection from six draws: class, confidence, x1, y1, x2, y2. */
  function MockDetection(uType: real, uConf: real, uX1: real, uY1: real, uX2: real, uY2: real): (r: Detection)
    requires IsDraw(uType) && IsDraw(uConf) && IsDraw(uX1) && IsDraw(uY1) && IsDraw(uX2) && IsDraw(uY2)
    ensures MockDetectionInRange(r)
  {
    var damageType := DamageTypes[(uType * 4.0).Floor];
    Detection(damageType, uConf * 0.3 + 0.7,
              BBox((uX1 * 300.0).Floor as real, (uY1 * 300.0).Floor as real,
                   ((uX2 * 100.0).Floor + 350) as real, ((uY2 * 100.0).Floor + 350) as real,
                   100.0, 100.0),
              Label(damageType))
  }

  /** The record `generateMockResult` builds around its synthetic detections. */
  function AssembleMockResult(hasDamages: bool, totalDamages: int, detections: seq<Detection>,
                              imageUrl: string, now: int): (r: AnalysisResult)
    requires |detections| == totalDamages
    requires hasDamages <==> totalDamages > 0
    requires forall i :: 0 <= i < |detections| ==> 0.7 <= detections[i].confidence < 1.0
    ensures Consistent(r)
    ensures r.detections == detections
    ensures r.confidence == MeanConfidence(r.detections)
    ensures r.totalDamages > 0 ==> 0.7 <= r.confidence < 1.0
    ensures r.totalDamages == 0 ==> r.confidence == 0.0
    ensures r.imageUrl == imageUrl && r.timestamp == now && r.visualization == None
  {
    var r := AnalysisResult(if hasDamages then Damaged else Intact, totalDamages, StatsOf(detections), detections, now, imageUrl, None,
                            MeanConfidence(detections));
    assert r.damageStats == StatsOf(r.detections);
    assert r.carCondition == (if r.totalDamages > 0 then Damaged else Intact);
    assert |detections| > 0 ==> 0.7 <= r.confidence < 1.0 by {
      if |detections| > 0 {
        MeanConfidenceWithin(detections, 0.7, 1.0);
      }
    }
    r
  }

  /** What every record `generateMockResult` builds satisfies: one to
      three detections when damaged, each within the synthetic ranges, the
      record consistent, its confidence the mean (in [0.7, 1.0), or 0 with
      no detections), the given handle and clock, and no visualization. */
  predicate IsMockResult(r: AnalysisResult, imageUrl: string, now: int) {
    && r.totalDamages >= 0 && |r.detections| == r.totalDamages
    && (r.totalDamages > 0 ==> 1 <= r.totalDamages <= 3)
    && (forall i :: 0 <= i < |r.detections| ==> MockDetectionInRange(r.detections[i]))
    && Consistent(r)
    && r.confidence == MeanConfidence(r.detections)
    && (r.totalDamages > 0 ==> 0.7 <= r.confidence < 1.0)
    && (r.totalDamages == 0 ==> r.confidence == 0.0)
    && r.imageUrl == imageUrl && r.timestamp == now && r.visualization == None
  }

  /** `generateMockResult`. `draws` lists the successive `Math.random()`
      results; those past the ones the generator needs are ignored. */
  method GenerateMockResult(draws: seq<real>, imageUrl: string, now: int) returns (r: AnalysisResult)
    requires |draws| >= MockDrawCount
    requires forall i :: 0 <= i < |draws| ==> IsDraw(draws[i])
    ensures r.totalDamages > 0 <==> draws[0] > 0.5
    ensures r.totalDamages > 0 ==> 1 <= r.totalDamages <= 3
    ensures r.totalDamages >= 0 && |r.detections| == r.totalDamages
    ensures forall i :: 0 <= i < |r.detections| ==> MockDetectionInRange(r.detections[i])
    ensures Consistent(r)
    ensures r.confidence == MeanConfidence(r.detections)
    ensures r.totalDamages > 0 ==> 0.7 <= r.confidence < 1.0
    ensures r.totalDamages == 0 ==> r.confidence == 0.0
    ensures r.imageUrl == imageUrl && r.timestamp == now && r.visualization == None
    ensures IsMockResult(r, imageUrl, now)
  {
    var hasDamages := draws[0] > 0.5;
    var totalDamages := if hasDamages then (draws[1] * 3.0).Floor + 1 else 0;
    var detections: seq<Detection> := [];
    if hasDamages {
      var i := 0;
      while i < totalDamages
        invariant 0 <= i <= totalDamages
        invariant |detections| == i
        invariant forall k :: 0 <= k < i ==> MockDetectionInRange(detections[k])
      {
        var base := 2 + 6 * i;
        var d := MockDetection(draws[base], draws[base + 1], draws[base + 2],
                               draws[base + 3], draws[base + 4], draws[base + 5]);
        detections := detections + [d];
        i := i + 1;
      }
    }
    r := AssembleMockResult(hasDamages, totalDamages, detections, imageUrl, now);
  }

  /** `analyzeImageFile` followed by its fallback. `mapUrl` and `fallbackUrl`
      are the `URL.createObjectURL` calls made on the mapping path and in the
      error handler; a throw on the mapping path falls back to the mock, and a
      throw in the error handler leaves the request failed (`None`). The mock
      path (`analyzeImageMock`) takes its delay from the first draw and hands
      the remaining draws to `generateMockResult`; `delayMs` is that delay,
      and 0 on the paths without one. */
  method AnalyzeImage(reply: DetectReply, mapUrl: PreviewOutcome, fallbackUrl: PreviewOutcome,
                      draws: seq<real>, now: int) returns (r: Option<AnalysisResult>, delayMs: int)
    requires |draws| >= MockDrawCount + 1
    requires forall i :: 0 <= i < |draws| ==> IsDraw(draws[i])
    ensures r.None? <==> (reply.DetectFailed? || mapUrl.CreationFailed?) && fallbackUrl.CreationFailed?
    ensures reply.Detected? && mapUrl.Created? ==>
              r == Some(MapApiResponseToAnalysisResult(reply.response, mapUrl.url, now)) && delayMs == 0
    ensures (reply.DetectFailed? || mapUrl.CreationFailed?) && fallbackUrl.Created? ==>
              && r.Some? && IsMockResult(r.value, fallbackUrl.url, now)
              && (r.value.totalDamages > 0 <==> draws[1] > 0.5)
              && delayMs == GetRandomProcessingTime(draws[0])
              && MinProcessingTime <= delayMs <= MaxProcessingTime
    ensures r.None? ==> delayMs == 0
  {
    if reply.Detected? && mapUrl.Created? {
      return Some(MapApiResponseToAnalysisResult(reply.response, mapUrl.url, now)), 0;
    }
    match fallbackUrl
    case CreationFailed =>
      r, delayMs := None, 0;
    case Created(url) =>
      delayMs := GetRandomProcessingTime(draws[0]);
      var mock := GenerateMockResult(draws[1..], url, now);
      r := Some(mock);
  }

  // ----- Properties -----

  /** Bounds on each confidence bound their sum. */
  lemma {:induction false} SumConfidenceWithin(detections: seq<Detection>, lo: real, hi: real)
    requires forall i :: 0 <= i < |detections| ==> lo <= detections[i].confidence < hi
    ensures lo * (|detections| as real) <= SumConfidence(detections)
    ensures |detections| > 0 ==> SumConfidence(detections) < hi * (|detections| as real)
  {
    if |detections| > 0 {
      SumConfidenceWithin(detections[1..], lo, hi);
    }
  }

  /** The mean lies within the bounds of every confidence. */
  lemma MeanConfidenceWithin(detections: seq<Detection>, lo: real, hi: real)
    requires |detections| > 0
    requires forall i :: 0 <= i < |detections| ==> lo <= detections[i].confidence < hi
    ensures lo <= MeanConfidence(detections) < hi
  {
    SumConfidenceWithin(detections, lo, hi);
    var n := |detections| as real;
    var m := MeanConfidence(detections);
    assert m * n == SumConfidence(detections);
    assert lo * n <= m * n < hi * n;
  }

  /** The four per-class counts add up to the number of detections. */
  lemma {:induction false} StatsSumToLength(detections: seq<Detection>)
    ensures StatsTotal(StatsOf(detections)) == |detections|
  {
    if |detections| > 0 {
      StatsSumToLength(detections[1..]);
    }
  }

  /** In a consistent record the four per-class counts add up to the total. */
  lemma ConsistentStatsSumToTotal(result: AnalysisResult)
    requires Consistent(result)
    ensures StatsTotal(result.damageStats) == result.totalDamages
  {
    StatsSumToLength(result.detections);
  }

  /** Two detections with confidences 0.8 and 0.6 average to 0.7, whatever
      the counts in the response say. */
  lemma MappedAverageExample(a: ApiDetection, b: ApiDetection, response: ApiResponse, url: string, now: int)
    requires a.confidence == 0.8 && b.confidence == 0.6
    requires response.detections == [a, b]
    ensures MapApiResponseToAnalysisResult(response, url, now).confidence == 0.7
  {
    var r := MapApiResponseToAnalysisResult(response, url, now);
    var tail := r.detections[1..];
    assert tail[1..] == [];
    assert SumConfidence(tail) == 0.6 + SumConfidence(tail[1..]);
    assert SumConfidence(r.detections) == 0.8 + SumConfidence(tail);
  }

  /** The mapper does not reconcile the fields: a response that says
      "intact" while listing a detection is displayed as such. */
  lemma MapperKeepsContradictoryResponse(det: ApiDetection, url: string, now: int)
    ensures var response := ApiResponse("p", Intact, false, 0, DamageStats(0, 0, 0, 0), [det],
                                        "f.jpg", 1, 0.25, None);
            !Consistent(MapApiResponseToAnalysisResult(response, url, now))
  {
  }

  /** On a consistent record the three views of the outcome agree: positive,
      styled "success", and labelled intact exactly when nothing was found. */
  lemma ConsistentViewsAgree(result: AnalysisResult)
    requires Consistent(result)
    ensures IsPositiveResult(result) <==> result.totalDamages == 0
    ensures IsPositiveResult(result) <==> GetResultCssClass(result.carCondition) == "success"
    ensures IsPositiveResult(result) <==> GetCarConditionText(result.carCondition) == "Целый"
  {
    var positive := IsPositiveResult(result);
    assert positive <==> result.totalDamages == 0 by {
      assert result.totalDamages == |result.detections|;
    }
    var css := GetResultCssClass(result.carCondition);
    var text := GetCarConditionText(result.carCondition);
    assert css == "success" <==> result.carCondition == Intact;
    assert text == "Целый" <==> result.carCondition == Intact;
  }

  /** Each of the four classes gets a label different from its key, so a
      label differs from its input exactly for the four classes. */
  lemma DisplayTextChangesExactlyKnownTypes(damageType: string)
    ensures GetDamageDisplayText(damageType) != damageType <==> damageType in ClassNames
  {
  }

  /** Every whole number of milliseconds in [2000, 3000] is a possible
      processing time. */
  lemma ProcessingTimeCoversRange(t: int)
    requires MinProcessingTime <= t <= MaxProcessingTime
    ensures GetRandomProcessingTime((t - MinProcessingTime) as real / 1001.0) == t
  {
    var u := (t - MinProcessingTime) as real / 1001.0;
    assert u * 1001.0 == (t - MinProcessingTime) as real;
  }
}
