/** The two pieces of logic the dashboard component holds outside its markup:
    one ingestion pass (mock metrics fed to signal detection) and the rendering
    rules for generated text (body lines classified as bullet, heading or
    paragraph; the narrative excerpt on the dashboard). */
module App {
  import opened Types
  import opened JsText
  import DataService

  /** The outcome of one ingestion pass: the week of metrics and the flags
      detected from them. */
  datatype Ingestion = Ingestion(metrics: seq<MarketMetrics>, signals: seq<SignalFlag>)

  /** One ingestion pass: a mock week is generated from the first draws of the
      random stream, then the signals are detected, the risk rule taking the
      next draw. `today` dates the snapshots, `detectedAt` stamps the flags. */
  function RunIngestion(today: int, detectedAt: int, rand: nat -> real): (r: Ingestion)
    ensures |r.metrics| == DataService.MockDays
    ensures r.metrics[|r.metrics| - 1].timestamp == today
    ensures |r.signals| <= 4
    ensures DataService.InRuleOrder(r.signals)
    ensures forall i :: 0 <= i < |r.signals| ==> DataService.MatchesRuleTable(r.signals[i])
    ensures forall i :: 0 <= i < |r.signals| ==> r.signals[i].timestamp == detectedAt
    ensures HasType(r.signals, Rotation) <==> rand(50) < rand(42) - 0.2
    ensures HasType(r.signals, LiquidityShift) <==> rand(54) > 0.8
    ensures HasType(r.signals, RiskEvent) <==> rand(56) > 0.7
    ensures HasType(r.signals, SocialVelocity) <==> rand(55) > 0.8
  {
    var metrics := DataService.GenerateMockMetrics(today, rand);
    var detected := DataService.DetectSignals(metrics, rand(DataService.MockDrawCount), detectedAt);
    Ingestion(metrics, detected)
  }

  /** How a line of a generated body is displayed. */
  datatype LineClass = Bullet | Heading | Paragraph

  const HyphenMinus: CodeUnit := 0x2D
  const BulletSign: CodeUnit := 0x2022
  const FullStop: CodeUnit := 0x2E

  /** Lines shorter than this (in code units) that are not bullets are headings. */
  const HeadingLimit: nat := 50

  /** Code units of narrative text shown on the dashboard before the ellipsis. */
  const ExcerptLength: nat := 180

  const Ellipsis: JsString := [FullStop, FullStop, FullStop]

  /** A match of the regular expression class `\d`: an ASCII digit. */
  predicate IsAsciiDigit(c: CodeUnit)
  {
    0x30 <= c <= 0x39
  }

  /** `s.startsWith(p)`. */
  predicate StartsWith(s: JsString, p: JsString)
  {
    |p| <= |s| && s[..|p|] == p
  }

  /** The line opens with a list marker: a hyphen or a bullet sign. */
  predicate HasListMarker(line: JsString)
  {
    StartsWith(line, [HyphenMinus]) || StartsWith(line, [BulletSign])
  }

  /** The line matches `/^\d\./`: a digit and a full stop open it. */
  predicate IsNumbered(line: JsString)
  {
    exists d: CodeUnit :: IsAsciiDigit(d) && StartsWith(line, [d, FullStop])
  }

  /** The display class of one body line: bullets by prefix first, then
      headings and paragraphs by length. */
  function Classify(line: JsString): (c: LineClass)
    ensures c == Bullet <==> HasListMarker(line) || IsNumbered(line)
    ensures c == Heading <==> !HasListMarker(line) && !IsNumbered(line) && |line| < HeadingLimit
    ensures c == Paragraph <==> !HasListMarker(line) && !IsNumbered(line) && |line| >= HeadingLimit
  {
    assert |line| >= 2 ==> (IsNumbered(line) <==> IsAsciiDigit(line[0]) && line[1] == FullStop) by {
      if |line| >= 2 && IsAsciiDigit(line[0]) && line[1] == FullStop {
        assert StartsWith(line, [line[0], FullStop]);
      }
    }
    if |line| >= 1 && (line[0] == HyphenMinus || line[0] == BulletSign) then Bullet
    else if |line| >= 2 && IsAsciiDigit(line[0]) && line[1] == FullStop then Bullet
    else if |line| < HeadingLimit then Heading
    else Paragraph
  }

  /** The text shown for one body line: a hyphen or bullet sign is dropped and
      the rest trimmed; any other line, numbered ones included, is shown as is. */
  function DisplayText(line: JsString): (text: JsString)
    ensures HasListMarker(line) ==> |line| >= 1 && IsTrimOf(text, line[1..])
    ensures !HasListMarker(line) ==> text == line
    ensures |text| <= |line|
  {
    if |line| >= 1 && (line[0] == HyphenMinus || line[0] == BulletSign) then
      assert StartsWith(line, [line[0]]);
      Trim(line[1..])
    else
      line
  }

  /** One rendered paragraph element: its display class and its text. */
  datatype RenderedLine = RenderedLine(kind: LineClass, text: JsString)

  /** A generated body rendered as one element per line-feed-separated piece. */
  function RenderBody(body: JsString): (r: seq<RenderedLine>)
    ensures |r| == Count(body, LineFeed) + 1
    ensures forall i :: 0 <= i < |r| ==> LineFeed !in r[i].text
    ensures forall i :: 0 <= i < |r| ==>
              var line := Split(body, LineFeed)[i];
              r[i].kind == Classify(line) && r[i].text == DisplayText(line)
  {
    var lines := Split(body, LineFeed);
    var r := seq(|lines|, i requires 0 <= i < |lines| => RenderedLine(Classify(lines[i]), DisplayText(lines[i])));
    assert forall i :: 0 <= i < |r| ==> LineFeed !in r[i].text by {
      forall i | 0 <= i < |r|
        ensures LineFeed !in r[i].text
      {
        if HasListMarker(lines[i]) {
          assert LineFeed !in lines[i][1..];
          TrimSubset(lines[i][1..], LineFeed);
        }
      }
    }
    r
  }

  /** The dashboard's narrative excerpt: `content.substring(0, 180)` followed
      by an ellipsis, whether or not anything was cut. */
  function Excerpt(content: JsString): (e: JsString)
    ensures |e| <= ExcerptLength + |Ellipsis|
    ensures |content| <= ExcerptLength ==> e == content + Ellipsis
    ensures |content| > ExcerptLength ==> |e| == ExcerptLength + |Ellipsis|
    ensures e[..|e| - |Ellipsis|] <= content
    ensures e[|e| - |Ellipsis|..] == Ellipsis
  {
    Prefix(content, ExcerptLength) + Ellipsis
  }
}
