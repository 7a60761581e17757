/**
  Extractor signals and the unified document built from them
  (src/zataone/schemas/document.py and the attributes its readers use).
 */
module Signals {
  import opened Options
  import opened Text

  // A bounding box is a dictionary of optional coordinates or a list of numbers;
  // BoxList([]) also stands for the empty dictionary, which Python finds just as false.
  datatype Box =
    | BoxDict(y: Option<real>, top: Option<real>, x: Option<real>, left: Option<real>)
    | BoxList(coordinates: seq<real>)

  // The raw_data dictionary. A missing string key reads as "".
  datatype RawData = RawData(
    kind: string,                     // raw_data["type"]
    text: Option<string>,
    value: Option<string>,
    source: string,
    bbox: Option<Box>,
    objectLabel: string,
    shownConfidence: Option<string>,  // the label's confidence with two decimals
    timestamp: real,
    regulation: string)

  // An enumeration value together with the way str() shows it.
  datatype SignalType = SignalType(value: string, shown: string)

  datatype Signal = Signal(
    id: Option<string>,
    signalType: Option<SignalType>,
    confidence: real,
    boundingBox: Option<Box>,
    rawData: RawData)

  datatype SourceType = FromText | FromOcr | FromAsr

  datatype Span = Span(
    start: nat, end: nat, text: string, signalId: string, source: SourceType, bbox: Option<Box>)

  datatype TimelineEntry = TimelineEntry(timestamp: real, text: string, signalIds: seq<string>)

  datatype Document = Document(
    text: string,
    sourceSignalIds: seq<string>,
    spans: seq<Span>,
    sceneDescriptions: seq<string>,
    timeline: seq<TimelineEntry>)

  // `a or b or ""` over optional strings: None and "" are both passed over.
  function FirstText(a: Option<string>, b: Option<string>): string {
    if a.Some? && a.value != "" then a.value else b.GetOr("")
  }

  function SignalId(s: Signal): string {
    s.id.GetOr("")
  }

  predicate IsOcr(s: Signal) {
    || s.rawData.kind == "ocr_text"
    || (&& s.signalType.Some?
        && Lower(s.signalType.value.value)
           in ["text", "ocr_keyword", "ocr_percentage_claim", "ocr_time_claim"]
        && FirstText(s.rawData.text, s.rawData.value) != ""
        && (s.rawData.source == "image" || s.rawData.bbox.Some?))
  }

  predicate IsAsr(s: Signal) {
    s.rawData.kind == "asr_text"
  }

  predicate IsVisionObject(s: Signal) {
    s.rawData.kind == "vision_object"
  }

  predicate IsTimeline(s: Signal) {
    s.rawData.kind == "timeline_text" || s.rawData.kind == "video_timeline"
  }
}
