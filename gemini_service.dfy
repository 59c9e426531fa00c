/** The logic of services/geminiService.ts around its three model calls: the
    credential check, the cleaning and normalising of responses, the
    extraction of search sources and the mapping of failures to messages.
    The calls themselves are not modelled: what a call produced is a
    parameter (`Returned(response)` or `Threw(message)`), and so is the
    behaviour of `JSON.parse`. */
module GeminiService {
  import opened Wrappers
  import opened Types
  import JsonText

  const MissingKeyMessage: string := "API Keyが設定されていません。環境変数 API_KEY を確認してください。"
  const MalformedResponseMessage: string := "AIからの応答が不正な形式でした。"
  const QuickFailureDefault: string := "解析中にエラーが発生しました。"
  const DeepFailureDefault: string := "詳細解析中にエラーが発生しました。"
  const SearchFallbackText: string := "検索による裏付け情報を取得できませんでした。"

  /** What an awaited SDK call did. */
  datatype CallOutcome<T> = Returned(value: T) | Threw(message: string)

  /** The SDK client, reduced to the key it was built with. */
  datatype Client = Client(apiKey: string)

  /** `getAiClient`: an absent or empty `API_KEY` (both falsy) is a
      configuration error; any other key yields a client. */
  function GetAiClient(apiKey: Option<string>): (r: Result<Client>)
    ensures r.Ok? <==> apiKey.Some? && apiKey.value != ""
    ensures r.Ok? ==> r.value.apiKey == apiKey.value
    ensures r.Err? ==> r.message == MissingKeyMessage
  {
    if apiKey.None? || apiKey.value == "" then Err(MissingKeyMessage) else Ok(Client(apiKey.value))
  }

  /** `new Error(error.message || fallback)`: the caught message when it is
      non-empty, the stage's fixed message otherwise. */
  function Rethrown(message: string, fallback: string): (r: string)
    ensures message != "" ==> r == message
    ensures message == "" ==> r == fallback
  {
    if message != "" then message else fallback
  }

  /** `response.text || "{}"`: an absent or empty text reads as an empty object. */
  function ResponseText(text: Option<string>): (r: string)
    ensures r != ""
    ensures text.None? || text.value == "" ==> r == "{}"
    ensures text.Some? && text.value != "" ==> r == text.value
  {
    if text.None? || text.value == "" then "{}" else text.value
  }

  /** `visualEvidence` as `JSON.parse` left it: an array or anything else
      (absent, an object, a string ...). */
  datatype RawEvidence = EvidenceArray(clues: seq<VisualClue>) | NotAnArray

  /** The parsed quick response before normalisation: the source casts every
      field without checking it, except `visualEvidence`. */
  datatype RawAnalysis = RawAnalysis(
    locationName: string,
    region: string,
    addressGuess: string,
    latitude: Option<real>,
    longitude: Option<real>,
    confidenceScore: int,
    visualEvidence: RawEvidence,
    environmentContext: string,
    description: string,
    detailedContext: Option<DetailedContext>)

  /** `{ ...parsed, visualEvidence: Array.isArray(parsed.visualEvidence) ? parsed.visualEvidence : [] }`:
      every parsed field passes through; a non-array evidence becomes empty. */
  function Normalize(p: RawAnalysis): (r: AnalysisResult)
    ensures r.locationName == p.locationName && r.region == p.region && r.addressGuess == p.addressGuess
    ensures r.latitude == p.latitude && r.longitude == p.longitude && r.confidenceScore == p.confidenceScore
    ensures r.environmentContext == p.environmentContext && r.description == p.description
    ensures r.detailedContext == p.detailedContext
    ensures p.visualEvidence.EvidenceArray? ==> r.visualEvidence == p.visualEvidence.clues
    ensures p.visualEvidence.NotAnArray? ==> r.visualEvidence == []
  {
    AnalysisResult(
      p.locationName, p.region, p.addressGuess, p.latitude, p.longitude, p.confidenceScore,
      match p.visualEvidence
      case EvidenceArray(clues) => clues
      case NotAnArray => [],
      p.environmentContext, p.description, p.detailedContext)
  }

  /** `analyzeLocationImage` after the call: `parse` is `JSON.parse` followed by
      the cast, `None` when it throws. */
  function AnalyzeLocationImage(
    apiKey: Option<string>,
    response: CallOutcome<Option<string>>,
    parse: string -> Option<RawAnalysis>): (r: Result<AnalysisResult>)
    ensures GetAiClient(apiKey).Err? ==> r == Err(MissingKeyMessage)
    ensures GetAiClient(apiKey).Ok? && response.Threw? ==> r == Err(Rethrown(response.message, QuickFailureDefault))
    ensures GetAiClient(apiKey).Ok? && response.Returned? ==>
      var parsed := parse(JsonText.CleanJsonText(ResponseText(response.value)));
      r == if parsed.Some? then Ok(Normalize(parsed.value)) else Err(MalformedResponseMessage)
    ensures r.Err? ==> r.message != ""
  {
    match GetAiClient(apiKey)
    case Err(m) => Err(m)
    case Ok(_) =>
      match response
      case Threw(m) => Err(Rethrown(m, QuickFailureDefault))
      case Returned(text) =>
        match parse(JsonText.CleanJsonText(ResponseText(text)))
        case None => Err(Rethrown(MalformedResponseMessage, QuickFailureDefault))
        case Some(p) => Ok(Normalize(p))
  }

  /** `analyzeDetailedContext` after the call: `parse` is `JSON.parse` with the
      unchecked cast, `Err(m)` when it throws with message `m`. */
  function AnalyzeDetailedContext(
    apiKey: Option<string>,
    response: CallOutcome<Option<string>>,
    parse: string -> Result<DetailedContext>): (r: Result<DetailedContext>)
    ensures GetAiClient(apiKey).Err? ==> r == Err(MissingKeyMessage)
    ensures GetAiClient(apiKey).Ok? && response.Threw? ==> r == Err(Rethrown(response.message, DeepFailureDefault))
    ensures GetAiClient(apiKey).Ok? && response.Returned? ==>
      var parsed := parse(JsonText.CleanJsonText(ResponseText(response.value)));
      r == if parsed.Ok? then parsed else Err(Rethrown(parsed.message, DeepFailureDefault))
    ensures r.Err? ==> r.message != ""
  {
    match GetAiClient(apiKey)
    case Err(m) => Err(m)
    case Ok(_) =>
      match response
      case Threw(m) => Err(Rethrown(m, DeepFailureDefault))
      case Returned(text) =>
        match parse(JsonText.CleanJsonText(ResponseText(text)))
        case Err(m) => Err(Rethrown(m, DeepFailureDefault))
        case Ok(ctx) => Ok(ctx)
  }

  datatype WebSource = WebSource(title: string, uri: string)
  datatype GroundingChunk = GroundingChunk(web: Option<WebSource>)

  /** The search response: its text and
      `candidates?.[0]?.groundingMetadata?.groundingChunks` (`None` when any
      link of that chain is missing). */
  datatype SearchResponse = SearchResponse(text: Option<string>, groundingChunks: Option<seq<GroundingChunk>>)

  /** The value `fetchLocationDetails` resolves to. */
  datatype Corroboration = Corroboration(text: string, sources: seq<GroundingSource>)

  function SourceOf(w: WebSource): GroundingSource {
    GroundingSource(w.title, w.uri)
  }

  /** `chunks.filter(c => c.web).map(c => ({ title: c.web.title, uri: c.web.uri }))`. */
  function WebSources(chunks: seq<GroundingChunk>): (r: seq<GroundingSource>)
    ensures |r| <= |chunks|
    ensures forall c :: c in chunks && c.web.Some? ==> SourceOf(c.web.value) in r
    ensures forall s :: s in r ==> exists c :: c in chunks && c.web == Some(WebSource(s.title, s.uri))
    ensures (forall c :: c in chunks ==> c.web.Some?) ==> |r| == |chunks|
    decreases |chunks|
  {
    if chunks == [] then []
    else
      var rest := WebSources(chunks[1..]);
      match chunks[0].web
      case Some(w) => [SourceOf(w)] + rest
      case None => rest
  }

  /** The sources keep the chunks' order: extraction acts on each part separately. */
  lemma {:induction false} WebSourcesAppend(a: seq<GroundingChunk>, b: seq<GroundingChunk>)
    ensures WebSources(a + b) == WebSources(a) + WebSources(b)
    decreases |a|
  {
    if a == [] {
      assert a + b == b;
    } else {
      assert (a + b)[0] == a[0];
      assert (a + b)[1..] == a[1..] + b;
      WebSourcesAppend(a[1..], b);
    }
  }

  /** `...?.map(...) || []`: a missing chunk list gives no sources. */
  function ExtractSources(chunks: Option<seq<GroundingChunk>>): (r: seq<GroundingSource>)
    ensures chunks.None? ==> r == []
    ensures chunks.Some? ==> r == WebSources(chunks.value) && |r| <= |chunks.value|
  {
    match chunks
    case None => []
    case Some(cs) => WebSources(cs)
  }

  /** `fetchLocationDetails` after the call. The credential check sits outside
      the `try`, so a missing key still throws; once the client exists the
      function never fails: a failed search degrades to the fixed fallback
      text and no sources. */
  function FetchLocationDetails(apiKey: Option<string>, response: CallOutcome<SearchResponse>): (r: Result<Corroboration>)
    ensures r.Err? <==> GetAiClient(apiKey).Err?
    ensures r.Err? ==> r.message == MissingKeyMessage
    ensures r.Ok? && response.Threw? ==> r.value == Corroboration(SearchFallbackText, [])
    ensures r.Ok? && response.Returned? ==>
      r.value.text == response.value.text.GetOr("")
      && r.value.sources == ExtractSources(response.value.groundingChunks)
  {
    match GetAiClient(apiKey)
    case Err(m) => Err(m)
    case Ok(_) =>
      match response
      case Threw(_) => Ok(Corroboration(SearchFallbackText, []))
      case Returned(resp) => Ok(Corroboration(resp.text.GetOr(""), ExtractSources(resp.groundingChunks)))
  }
}
