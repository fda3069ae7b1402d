/** The real-time feedback card: the connection indicator, the score badge
    and the conditions under which each banner is shown. */
module RealtimeFeedback {
  import opened Wrappers
  import WebSocketClient

  /** `getStatusColor` */
  function StatusColor(status: WebSocketClient.Status): (r: string)
    ensures status == WebSocketClient.Connected <==> r == "bg-green-500"
    ensures status == WebSocketClient.Connecting <==> r == "bg-yellow-500"
    ensures status == WebSocketClient.Error <==> r == "bg-red-500"
    ensures status == WebSocketClient.Disconnected <==> r == "bg-gray-500"
  {
    match status
    case Connected => "bg-green-500"
    case Connecting => "bg-yellow-500"
    case Error => "bg-red-500"
    case _ => "bg-gray-500"
  }

  /** `getStatusText` */
  function StatusText(status: WebSocketClient.Status): (r: string)
    ensures status == WebSocketClient.Connected <==> r == "AI 助手已连接"
    ensures status == WebSocketClient.Connecting <==> r == "正在连接..."
    ensures status == WebSocketClient.Error <==> r == "连接错误"
    ensures status == WebSocketClient.Disconnected <==> r == "未连接"
  {
    match status
    case Connected => "AI 助手已连接"
    case Connecting => "正在连接..."
    case Error => "连接错误"
    case _ => "未连接"
  }

  /** Colour and text always describe the same status. */
  lemma StatusColorMatchesText(a: WebSocketClient.Status, b: WebSocketClient.Status)
    ensures StatusColor(a) == StatusColor(b) <==> StatusText(a) == StatusText(b)
  {
  }

  /** `getScoreColor` */
  function ScoreColor(score: real): (r: string)
    ensures r == "text-green-600 bg-green-50" <==> score >= 0.9
    ensures r == "text-blue-600 bg-blue-50" <==> 0.7 <= score < 0.9
    ensures r == "text-yellow-600 bg-yellow-50" <==> 0.5 <= score < 0.7
    ensures r == "text-red-600 bg-red-50" <==> score < 0.5
  {
    if score >= 0.9 then "text-green-600 bg-green-50"
    else if score >= 0.7 then "text-blue-600 bg-blue-50"
    else if score >= 0.5 then "text-yellow-600 bg-yellow-50"
    else "text-red-600 bg-red-50"
  }

  /** `getScoreLabel` */
  function ScoreLabel(score: real): (r: string)
    ensures r == "优秀" <==> score >= 0.9
    ensures r == "良好" <==> 0.7 <= score < 0.9
    ensures r == "一般" <==> 0.5 <= score < 0.7
    ensures r == "需要改进" <==> score < 0.5
  {
    if score >= 0.9 then "优秀"
    else if score >= 0.7 then "良好"
    else if score >= 0.5 then "一般"
    else "需要改进"
  }

  /** The four bands, from best to worst. */
  datatype Band = Excellent | Good | Fair | NeedsWork

  /** The band a score falls in: [0.9, ∞), [0.7, 0.9), [0.5, 0.7) and below 0.5. */
  function BandOf(score: real): (b: Band)
    ensures b == Excellent <==> score >= 0.9
    ensures b == Good <==> 0.7 <= score < 0.9
    ensures b == Fair <==> 0.5 <= score < 0.7
    ensures b == NeedsWork <==> score < 0.5
  {
    if score >= 0.9 then Excellent
    else if score >= 0.7 then Good
    else if score >= 0.5 then Fair
    else NeedsWork
  }

  function Rank(b: Band): nat {
    match b
    case Excellent => 3
    case Good => 2
    case Fair => 1
    case NeedsWork => 0
  }

  /** The colour and the label of a score are those of its band, so the two
      never disagree. */
  lemma ScoreBadgeAgrees(score: real)
    ensures ScoreLabel(score) == ["优秀", "良好", "一般", "需要改进"][3 - Rank(BandOf(score))]
    ensures ScoreColor(score) == ["text-green-600 bg-green-50", "text-blue-600 bg-blue-50",
                                  "text-yellow-600 bg-yellow-50", "text-red-600 bg-red-50"][3 - Rank(BandOf(score))]
  {
  }

  /** Two scores with the same label have the same colour. */
  lemma SameLabelSameColor(a: real, b: real)
    requires ScoreLabel(a) == ScoreLabel(b)
    ensures ScoreColor(a) == ScoreColor(b)
  {
  }

  /** A higher score never gets a lower band. */
  lemma BandMonotone(a: real, b: real)
    requires a <= b
    ensures Rank(BandOf(a)) <= Rank(BandOf(b))
  {
  }

  /** The feedback message last received (`lastFeedback`), when there is one. */
  datatype Feedback = Feedback(sentence: Option<string>, issues: Option<seq<string>>,
                               suggestions: Option<seq<string>>, score: Option<real>,
                               explanation: Option<string>)

  predicate EmptyOrMissing<T>(xs: Option<seq<T>>) {
    xs.None? || |xs.value| == 0
  }

  /** The "well written" banner: inside the feedback card, with no issues,
      no suggestions and a truthy score of at least 0.9. */
  predicate ShowsPraise(fb: Option<Feedback>) {
    fb.Some? && EmptyOrMissing(fb.value.issues) && EmptyOrMissing(fb.value.suggestions) &&
    fb.value.score.Some? && fb.value.score.value != 0.0 && fb.value.score.value >= 0.9
  }

  /** The usage hint. */
  predicate ShowsHint(isConnected: bool, fb: Option<Feedback>, isAnalyzing: bool) {
    isConnected && fb.None? && !isAnalyzing
  }

  /** The "analysing" banner. */
  predicate ShowsAnalyzing(fb: Option<Feedback>, isAnalyzing: bool) {
    isAnalyzing && fb.None?
  }

  /** Praise is shown exactly for feedback without issues or suggestions
      scoring in the top band. */
  lemma PraiseIsTopBand(fb: Option<Feedback>)
    ensures ShowsPraise(fb) <==>
      fb.Some? && EmptyOrMissing(fb.value.issues) && EmptyOrMissing(fb.value.suggestions) &&
      fb.value.score.Some? && BandOf(fb.value.score.value) == Excellent
  {
  }

  /** The hint and the analysing banner never show together, and neither
      shows beside a feedback card. */
  lemma BannersExclusive(isConnected: bool, fb: Option<Feedback>, isAnalyzing: bool)
    ensures !(ShowsHint(isConnected, fb, isAnalyzing) && ShowsAnalyzing(fb, isAnalyzing))
    ensures ShowsPraise(fb) ==> !ShowsHint(isConnected, fb, isAnalyzing) && !ShowsAnalyzing(fb, isAnalyzing)
  {
  }
}
