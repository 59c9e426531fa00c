/** The `App` component of App.tsx as a state machine: the React state
    (`state`, `progress`, `statusMessage`, `searchText`, `viewMode`), the
    interval installed by the progress effect, and the text last written to
    storage. Each handler is one method; an async handler is split at its
    `await`s into a method per event, and the values its closure captured
    when it started are handed back to the later events. After each event
    the effects whose dependencies changed have run. */
module AppModel {
  import opened Wrappers
  import opened Types
  import History
  import Ticker
  import GeminiService

  const QuickErrorMessage: string := "解析エンジンとの通信に失敗しました。画像サイズを縮小して再試行してください。"
  const DeepErrorMessage: string := "詳細鑑定に失敗しました。リソース制限の可能性があります。"
  const StartProgress: int := 5
  const DoneProgress: int := 100
  const ImageTypePrefix: string := "image/"

  datatype ViewMode = MainView | HistoryView

  /** JavaScript's truth value of `state.image`: both null and the empty
      string are falsy, so `!state.image` holds for either. */
  predicate ImagePresent(image: Option<string>)
  {
    image.Some? && image.value != ""
  }

  /** What `runDetailedAnalysis` captured from `state` when it started. */
  datatype DeepRequest = DeepRequest(image: string, result: AnalysisResult)

  class App {
    var state: AppState
    var progress: int
    var statusMessage: string
    var searchText: string
    var viewMode: ViewMode
    /** An interval of the progress effect is installed. */
    var ticking: bool
    /** The installed interval cycles through the deep messages. */
    var deepMessages: bool
    /** The installed interval's `currentMsgIndex`. */
    var msgIndex: nat
    /** The history last written to storage. */
    var stored: seq<HistoryItem>

    predicate Busy()
      reads this
    {
      state.isAnalyzing || state.isDetailedAnalyzing
    }

    /** What holds of the session between events, whatever the ticker does:
        the two stages are never busy together (a quick run clears the result,
        and the deep trigger exists only for a result without a detailed
        context, so while the quick stage is busy the result is absent or
        already deep); storage holds the capped history. */
    ghost predicate SessionValid()
      reads this
    {
      !(state.isAnalyzing && state.isDetailedAnalyzing)
      && (state.isAnalyzing ==> state.result.None? || state.result.value.detailedContext.Some?)
      && stored == History.Persist(state.history)
      && 0 <= progress <= DoneProgress
      && msgIndex < Ticker.MessageCount
    }

    /** What the progress effect guarantees between events: an interval runs
        exactly while a stage is busy, with the list of the running stage and
        the message it last showed; without one the progress is 0, or 100 when
        a response arrived after its flag had already been cleared (no flag
        changed, so the effect did not run). */
    ghost predicate TickerValid()
      reads this
    {
      (ticking <==> Busy())
      && (!ticking ==> progress == 0 || progress == DoneProgress)
      && msgIndex < Ticker.MessageCount
      && (ticking ==> deepMessages == state.isDetailedAnalyzing
                      && statusMessage == Ticker.Messages(deepMessages)[msgIndex])
    }

    ghost predicate Valid()
      reads this
    {
      SessionValid() && TickerValid()
    }

    /** The progress, the interval and its message are as they were. */
    twostate predicate TickerUnchanged()
      reads this
    {
      progress == old(progress) && ticking == old(ticking) && deepMessages == old(deepMessages)
      && msgIndex == old(msgIndex) && statusMessage == old(statusMessage)
    }

    /** The ticker after an event whose handler set the progress to
        `setProgress`, the busy flags having been `wasAnalyzing` and
        `wasDetailed` before it. With no flag changed the effect does not run
        and the interval, its index and message are as they were. With a flag
        changed and a stage still busy, a fresh interval of that stage's list
        starts at message 0 and the progress stays as set. With no stage busy
        the interval is gone and the progress is 0. */
    twostate predicate Rendered(wasAnalyzing: bool, wasDetailed: bool, setProgress: int)
      reads this
    {
      if (wasAnalyzing, wasDetailed) == (state.isAnalyzing, state.isDetailedAnalyzing) then
        progress == setProgress && ticking == old(ticking) && deepMessages == old(deepMessages)
        && msgIndex == old(msgIndex) && statusMessage == old(statusMessage)
      else if Busy() then
        progress == setProgress && ticking && deepMessages == state.isDetailedAnalyzing
        && msgIndex == 0 && statusMessage == Ticker.Messages(deepMessages)[0]
      else
        progress == 0 && !ticking && deepMessages == old(deepMessages)
        && msgIndex == old(msgIndex) && statusMessage == old(statusMessage)
    }

    /** Mounting: the load effect reads the stored text, then the persist
        effect writes the (possibly loaded) history back. */
    constructor (saved: Option<string>, parse: string -> History.Parsed)
      ensures Valid()
      ensures state == InitialState.(history := History.Load(saved, parse, []))
      ensures progress == 0 && statusMessage == "" && searchText == "" && viewMode == MainView
      ensures stored == History.Persist(state.history)
    {
      var loaded := History.Load(saved, parse, []);
      state := InitialState.(history := loaded);
      progress := 0;
      statusMessage := "";
      searchText := "";
      viewMode := MainView;
      ticking := false;
      deepMessages := false;
      msgIndex := 0;
      stored := History.Persist(loaded);
    }

    /** The progress effect, run when a busy flag changed: the old interval is
        cleared; if a stage is busy a new one starts at message 0 of that
        stage's list, otherwise the progress returns to 0. */
    method ProgressEffect()
      modifies this
      ensures state == old(state) && searchText == old(searchText) && viewMode == old(viewMode)
      ensures stored == old(stored)
      ensures ticking == Busy()
      ensures Busy() ==> deepMessages == state.isDetailedAnalyzing && msgIndex == 0
                         && statusMessage == Ticker.Messages(deepMessages)[0] && progress == old(progress)
      ensures !Busy() ==> progress == 0 && statusMessage == old(statusMessage)
                          && msgIndex == old(msgIndex) && deepMessages == old(deepMessages)
    {
      if Busy() {
        ticking := true;
        deepMessages := state.isDetailedAnalyzing;
        msgIndex := 0;
        statusMessage := Ticker.Messages(deepMessages)[0];
      } else {
        ticking := false;
        progress := 0;
      }
    }

    /** Runs the progress effect exactly when the busy flags differ from the
        given old ones. */
    method AfterRender(wasAnalyzing: bool, wasDetailed: bool)
      requires SessionValid()
      requires (wasAnalyzing, wasDetailed) == (state.isAnalyzing, state.isDetailedAnalyzing) ==> TickerValid()
      modifies this
      ensures Valid()
      ensures state == old(state) && searchText == old(searchText) && viewMode == old(viewMode)
      ensures stored == old(stored)
      ensures Rendered(wasAnalyzing, wasDetailed, old(progress))
    {
      if (wasAnalyzing, wasDetailed) != (state.isAnalyzing, state.isDetailedAnalyzing) {
        ProgressEffect();
      }
    }

    /** One firing of the interval: the next message of the list and four more
        percent, never above 98. */
    method Tick()
      requires Valid() && ticking
      modifies this
      ensures Valid()
      ensures state == old(state) && searchText == old(searchText) && viewMode == old(viewMode)
      ensures ticking && deepMessages == old(deepMessages)
      ensures msgIndex == Ticker.NextIndex(old(msgIndex))
      ensures statusMessage == Ticker.Messages(deepMessages)[msgIndex]
      ensures progress == Ticker.NextProgress(old(progress)) && progress <= Ticker.ProgressCap
    {
      msgIndex := Ticker.NextIndex(msgIndex);
      statusMessage := Ticker.Messages(deepMessages)[msgIndex];
      progress := Ticker.NextProgress(progress);
    }

    /** `handleFile` once the reader has produced the data URL: only image
        types are taken; the session's image is replaced and its result,
        error and sources cleared. Busy flags and history are kept. */
    method HandleFile(fileType: string, dataUrl: string)
      requires Valid()
      modifies this
      ensures Valid()
      ensures !(ImageTypePrefix <= fileType) ==>
        state == old(state) && searchText == old(searchText) && viewMode == old(viewMode)
      ensures ImageTypePrefix <= fileType ==>
        state == old(state).(image := Some(dataUrl), result := None, error := None, searchSources := [])
        && searchText == "" && viewMode == MainView
      ensures TickerUnchanged()
    {
      if ImageTypePrefix <= fileType {
        state := state.(image := Some(dataUrl), result := None, error := None, searchSources := []);
        searchText := "";
        viewMode := MainView;
      }
    }

    /** `runAnalysis` up to its first `await`. Without an image nothing happens
        and nothing is captured. Otherwise the quick stage becomes busy with a
        clean error and result, the progress is 5, and the image is captured
        for the history entry. Callable only while no stage is busy: the
        button exists only then. */
    method RunAnalysisStart() returns (captured: Option<string>)
      requires Valid() && !Busy()
      modifies this
      ensures Valid()
      ensures captured.Some? <==> ImagePresent(old(state.image))
      ensures captured.Some? ==> captured == old(state.image)
      ensures captured.None? ==> unchanged(this)
      ensures captured.Some? ==>
        state == old(state).(isAnalyzing := true, error := None, result := None)
        && progress == StartProgress && ticking && !deepMessages && msgIndex == 0
        && statusMessage == Ticker.QuickMessages[0]
      ensures searchText == old(searchText) && viewMode == old(viewMode)
    {
      if ImagePresent(state.image) {
        captured := state.image;
        var was := (state.isAnalyzing, state.isDetailedAnalyzing);
        state := state.(isAnalyzing := true, error := None, result := None);
        progress := StartProgress;
        AfterRender(was.0, was.1);
      } else {
        captured := None;
      }
    }

    /** The quick call resolved: its result is shown unconditionally (there is
        no check that it still belongs to the current image), the quick flag
        is cleared and the progress set to 100 before the effect runs. */
    method RunAnalysisSucceeded(analysisResult: AnalysisResult)
      requires Valid()
      modifies this
      ensures Valid()
      ensures state == old(state).(result := Some(analysisResult), isAnalyzing := false)
      ensures searchText == old(searchText) && viewMode == old(viewMode)
      ensures Rendered(old(state.isAnalyzing), old(state.isDetailedAnalyzing), DoneProgress)
    {
      var was := (state.isAnalyzing, state.isDetailedAnalyzing);
      state := state.(result := Some(analysisResult), isAnalyzing := false);
      progress := DoneProgress;
      AfterRender(was.0, was.1);
    }

    /** The corroboration resolved: its text and sources are shown and a history
        entry with the image captured at the start, the quick result and the
        corroboration is inserted at the head; storage is rewritten. */
    method RunAnalysisCorroborated(image: string, analysisResult: AnalysisResult,
                                   detail: GeminiService.Corroboration, id: string, timestamp: int)
      requires Valid()
      modifies this
      ensures Valid()
      ensures var item := HistoryItem(id, timestamp, image, analysisResult, detail.sources, detail.text);
        state == old(state).(searchSources := detail.sources, history := History.Insert(old(state.history), item))
      ensures searchText == detail.text && viewMode == old(viewMode)
      ensures TickerUnchanged()
      ensures |state.history| == History.Min(|old(state.history)| + 1, History.Capacity)
      ensures stored == History.Persist(state.history)
    {
      searchText := detail.text;
      var item := HistoryItem(id, timestamp, image, analysisResult, detail.sources, detail.text);
      state := state.(searchSources := detail.sources, history := History.Insert(state.history, item));
      stored := History.Persist(state.history);
    }

    /** Anything in `runAnalysis` threw: the quick flag is cleared and the fixed
        message shown; the result is left as it is (none, when the quick call
        itself failed). */
    method RunAnalysisFailed()
      requires Valid()
      modifies this
      ensures Valid()
      ensures state == old(state).(isAnalyzing := false, error := Some(QuickErrorMessage))
      ensures searchText == old(searchText) && viewMode == old(viewMode)
      ensures Rendered(old(state.isAnalyzing), old(state.isDetailedAnalyzing), old(progress))
    {
      var was := (state.isAnalyzing, state.isDetailedAnalyzing);
      state := state.(isAnalyzing := false, error := Some(QuickErrorMessage));
      AfterRender(was.0, was.1);
    }

    /** `runDetailedAnalysis` up to its `await`. Without an image and a result
        nothing happens. Otherwise the deep stage becomes busy, the error is
        cleared, the progress is 5, and image and result are captured.
        Callable only while the deep stage is idle and the result has no
        detailed context yet: its trigger is inside the result card, which is
        shown only while the deep stage is idle, and the card offers it only
        for a result without a detailed context. */
    method RunDetailedAnalysisStart() returns (captured: Option<DeepRequest>)
      requires Valid() && !state.isDetailedAnalyzing
      requires state.result.Some? ==> state.result.value.detailedContext.None?
      modifies this
      ensures Valid()
      ensures captured.Some? <==> ImagePresent(old(state.image)) && old(state.result).Some?
      ensures captured.Some? ==> captured.value == DeepRequest(old(state.image).value, old(state.result).value)
      ensures captured.None? ==> unchanged(this)
      ensures captured.Some? ==>
        state == old(state).(isDetailedAnalyzing := true, error := None)
        && progress == StartProgress && ticking && deepMessages && msgIndex == 0
        && statusMessage == Ticker.DeepMessages[0]
      ensures searchText == old(searchText) && viewMode == old(viewMode)
    {
      if ImagePresent(state.image) && state.result.Some? {
        captured := Some(DeepRequest(state.image.value, state.result.value));
        var was := (state.isAnalyzing, state.isDetailedAnalyzing);
        state := state.(isDetailedAnalyzing := true, error := None);
        progress := StartProgress;
        AfterRender(was.0, was.1);
      } else {
        captured := None;
      }
    }

    /** The deep call resolved: the captured result with the new context
        becomes the session's result, the deep flag is cleared, and every
        history entry whose image is the captured image takes the new result;
        no entry is added or removed. */
    method RunDetailedAnalysisSucceeded(request: DeepRequest, context: DetailedContext)
      requires Valid()
      modifies this
      ensures Valid()
      ensures var updated := request.result.(detailedContext := Some(context));
        state == old(state).(result := Some(updated), isDetailedAnalyzing := false,
                             history := History.UpdateByImage(old(state.history), request.image, updated))
      ensures |state.history| == |old(state.history)|
      ensures searchText == old(searchText) && viewMode == old(viewMode)
      ensures Rendered(old(state.isAnalyzing), old(state.isDetailedAnalyzing), DoneProgress)
    {
      var updated := request.result.(detailedContext := Some(context));
      var was := (state.isAnalyzing, state.isDetailedAnalyzing);
      state := state.(result := Some(updated), isDetailedAnalyzing := false,
                      history := History.UpdateByImage(state.history, request.image, updated));
      stored := History.Persist(state.history);
      progress := DoneProgress;
      AfterRender(was.0, was.1);
    }

    /** The deep call threw: the deep flag is cleared and the fixed message
        shown; result and history are untouched. */
    method RunDetailedAnalysisFailed()
      requires Valid()
      modifies this
      ensures Valid()
      ensures state == old(state).(isDetailedAnalyzing := false, error := Some(DeepErrorMessage))
      ensures state.result == old(state.result) && state.history == old(state.history)
      ensures searchText == old(searchText) && viewMode == old(viewMode)
      ensures Rendered(old(state.isAnalyzing), old(state.isDetailedAnalyzing), old(progress))
    {
      var was := (state.isAnalyzing, state.isDetailedAnalyzing);
      state := state.(isDetailedAnalyzing := false, error := Some(DeepErrorMessage));
      AfterRender(was.0, was.1);
    }

    /** `loadFromHistory`: the entry's image, result, sources and text become
        the session's; error and both flags are cleared. */
    method LoadFromHistory(item: HistoryItem)
      requires Valid()
      modifies this
      ensures Valid()
      ensures state == old(state).(image := Some(item.image), result := Some(item.result),
                                   searchSources := item.searchSources, error := None,
                                   isAnalyzing := false, isDetailedAnalyzing := false)
      ensures searchText == item.searchText && viewMode == MainView
      ensures !ticking && Rendered(old(state.isAnalyzing), old(state.isDetailedAnalyzing), old(progress))
    {
      var was := (state.isAnalyzing, state.isDetailedAnalyzing);
      state := state.(image := Some(item.image), result := Some(item.result),
                      searchSources := item.searchSources, error := None,
                      isAnalyzing := false, isDetailedAnalyzing := false);
      searchText := item.searchText;
      viewMode := MainView;
      AfterRender(was.0, was.1);
    }

    /** `reset`: back to an empty session; history is untouched. */
    method Reset()
      requires Valid()
      modifies this
      ensures Valid()
      ensures state == old(state).(image := None, isAnalyzing := false, isDetailedAnalyzing := false,
                                   result := None, searchSources := [], error := None)
      ensures state.history == old(state.history)
      ensures searchText == "" && progress == 0 && viewMode == MainView && !ticking
      ensures Rendered(old(state.isAnalyzing), old(state.isDetailedAnalyzing), 0)
    {
      var was := (state.isAnalyzing, state.isDetailedAnalyzing);
      state := state.(image := None, isAnalyzing := false, isDetailedAnalyzing := false,
                      result := None, searchSources := [], error := None);
      searchText := "";
      progress := 0;
      viewMode := MainView;
      AfterRender(was.0, was.1);
    }

    /** The history view's "clear" button (after confirmation). */
    method ClearHistory()
      requires Valid()
      modifies this
      ensures Valid()
      ensures state == old(state).(history := []) && stored == []
      ensures searchText == old(searchText) && viewMode == old(viewMode)
      ensures TickerUnchanged()
    {
      state := state.(history := []);
      stored := History.Persist(state.history);
    }

    /** A history card's delete button: every entry with that id goes, the
        others stay in order; an unknown id changes nothing. */
    method DeleteHistoryItem(id: string)
      requires Valid()
      modifies this
      ensures Valid()
      ensures state == old(state).(history := History.Delete(old(state.history), id))
      ensures forall x :: x in state.history <==> x in old(state.history) && x.id != id
      ensures (forall x :: x in old(state.history) ==> x.id != id) ==> state == old(state)
      ensures searchText == old(searchText) && viewMode == old(viewMode)
      ensures TickerUnchanged()
    {
      state := state.(history := History.Delete(state.history, id));
      stored := History.Persist(state.history);
    }
  }

  /** A quick run that settles either way leaves the quick stage idle, and a
      failure straight after the start leaves no result behind. */
  method QuickRunSettles(app: App, succeeds: bool, analysisResult: AnalysisResult)
    requires app.Valid() && !app.Busy() && ImagePresent(app.state.image)
    modifies app
    ensures app.Valid() && !app.state.isAnalyzing && !app.Busy() && app.progress == 0
    ensures succeeds ==> app.state.result == Some(analysisResult) && app.state.error.None?
    ensures !succeeds ==> app.state.result.None? && app.state.error == Some(QuickErrorMessage)
  {
    var captured := app.RunAnalysisStart();
    if succeeds {
      app.RunAnalysisSucceeded(analysisResult);
    } else {
      app.RunAnalysisFailed();
    }
  }

  /** No stale-response guard: a quick result for image `a` that arrives after
      the user dropped image `b` onto the page becomes the result shown for `b`. */
  method StaleQuickResultIsApplied(app: App, a: string, b: string, fileType: string, resultForA: AnalysisResult)
    requires app.Valid() && !app.Busy() && ImageTypePrefix <= fileType
    modifies app
    ensures app.Valid()
    ensures app.state.image == Some(b) && app.state.result == Some(resultForA)
  {
    app.HandleFile(fileType, a);
    var captured := app.RunAnalysisStart();
    app.HandleFile(fileType, b);
    app.RunAnalysisSucceeded(resultForA);
  }

  /** A click on a history card's delete button. The button's handler takes
      the click event but does not stop its propagation, so the click goes on
      to the card, whose handler loads the entry. The entry is removed from the
      history and is shown as the session at the same time: its image, result,
      sources and text are on screen, both stages are idle, and the view is
      the main one. */
  method DeleteClickAlsoLoads(app: App, item: HistoryItem)
    requires app.Valid() && item in app.state.history
    modifies app
    ensures app.Valid()
    ensures item !in app.state.history
    ensures app.state.image == Some(item.image) && app.state.result == Some(item.result)
    ensures app.state.searchSources == item.searchSources && app.searchText == item.searchText
    ensures !app.Busy() && !app.ticking && app.viewMode == MainView
  {
    app.DeleteHistoryItem(item.id);
    app.LoadFromHistory(item);
  }
}
