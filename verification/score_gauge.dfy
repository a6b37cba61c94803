/**
 * The match-score gauge: a colour band, a caption band, the one-row chart
 * data and the unclamped number and bar width shown beside it.
 */
module ScoreGauge {

  const RED: string := "#ef4444"
  const YELLOW: string := "#eab308"
  const EMERALD: string := "#10b981"

  const EXCELLENT: string := "Excellent fit. Minor tweaks needed."
  const GOOD: string := "Good potential. Focus on gaps."
  const SIGNIFICANT: string := "Significant gaps identified."

  /**
   * The colour starts red and is overwritten by each threshold the score
   * reaches, in order: the three bands split the scores at 50 and 75.
   */
  function GaugeColor(score: int): (color: string)
    ensures color == RED <==> score < 50
    ensures color == YELLOW <==> 50 <= score < 75
    ensures color == EMERALD <==> 75 <= score
  {
    var red := RED;
    var afterFifty := if score >= 50 then YELLOW else red;
    if score >= 75 then EMERALD else afterFifty
  }

  /** The caption: a nested conditional that splits the scores above 80 and above 50. */
  function Caption(score: int): (caption: string)
    ensures caption == EXCELLENT <==> 80 < score
    ensures caption == GOOD <==> 50 < score <= 80
    ensures caption == SIGNIFICANT <==> score <= 50
  {
    if score > 80 then EXCELLENT
    else if score > 50 then GOOD
    else SIGNIFICANT
  }

  /** The colour and the caption use different thresholds and disagree at the edges. */
  lemma ColorAndCaptionDisagree(score: int)
    ensures score == 50 ==> GaugeColor(score) == YELLOW && Caption(score) == SIGNIFICANT
    ensures 75 <= score <= 80 ==> GaugeColor(score) == EMERALD && Caption(score) == GOOD
  {
  }

  /** One row of the radial chart. */
  datatype GaugeRow = GaugeRow(name: string, value: int, fill: string)

  /** What the gauge shows for a score. */
  datatype GaugeView = GaugeView(
    data: seq<GaugeRow>,
    barWidthPercent: int,
    barColor: string,
    displayed: int,
    caption: string)

  /**
   * The gauge: one chart row carrying the score and its colour; the number
   * and the top bar use the score as given, with no clamping to 0..100.
   */
  function Gauge(score: int): (view: GaugeView)
    ensures |view.data| == 1 && view.data[0].value == score
    ensures view.data[0].fill == GaugeColor(score) && view.barColor == GaugeColor(score)
    ensures view.barWidthPercent == score && view.displayed == score
    ensures view.caption == Caption(score)
  {
    var color := GaugeColor(score);
    GaugeView([GaugeRow("Score", score, color)], score, color, score, Caption(score))
  }
}
