/** The record shapes of `types.ts`. Numbers that are floating point in the
    source (coordinates, percentages) are kept as `real` and never computed with. */
module Types {
  import opened Wrappers

  /** One piece of visual evidence; `x` and `y` are independently optional. */
  datatype VisualClue = VisualClue(
    element: string,
    area: string,
    x: Option<real>,
    y: Option<real>,
    observation: string,
    significance: string)

  /** The five fields produced by the deep pass. */
  datatype DetailedContext = DetailedContext(
    architecture: string,
    infrastructure: string,
    vegetation: string,
    signage: string,
    forensicConclusion: string)

  datatype AnalysisResult = AnalysisResult(
    locationName: string,
    region: string,
    addressGuess: string,
    latitude: Option<real>,
    longitude: Option<real>,
    confidenceScore: int,
    visualEvidence: seq<VisualClue>,
    environmentContext: string,
    description: string,
    detailedContext: Option<DetailedContext>)

  datatype GroundingSource = GroundingSource(title: string, uri: string)

  datatype HistoryItem = HistoryItem(
    id: string,
    timestamp: int,
    image: string,
    result: AnalysisResult,
    searchSources: seq<GroundingSource>,
    searchText: string)

  /** The one mutable session record; `image`, `result` and `error` are nullable
      and the two busy flags are independent booleans. */
  datatype AppState = AppState(
    image: Option<string>,
    isAnalyzing: bool,
    isDetailedAnalyzing: bool,
    result: Option<AnalysisResult>,
    searchSources: seq<GroundingSource>,
    error: Option<string>,
    history: seq<HistoryItem>)

  /** The state `App` starts with. */
  const InitialState := AppState(None, false, false, None, [], None, [])
}
