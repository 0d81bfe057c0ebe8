/** The session state machine of `CarPhotoAnalyzerComponent`. The state is
    an immutable record replaced on every transition; platform side effects
    (revoking a preview handle, issuing an analysis request) are returned as
    an effect trace next to the new state. */
module CarPhotoAnalyzer {
  import opened Outcomes
  import opened PhotoUploadService
  import opened AnalysisService

  datatype State = State(
    uploadedFile: Option<UploadedFile>,
    isAnalyzing: bool,
    analysisResult: Option<AnalysisResult>,
    error: Option<string>)

  /** Side effects a transition performs: `URL.revokeObjectURL(url)`, or one
      analysis request for the held record. */
  datatype Effect = RevokePreview(url: string) | RequestAnalysis(file: UploadedFile)

  datatype Step = Step(state: State, effects: seq<Effect>)

  /** The inputs the component reacts to: the upload widget's outputs, the
      buttons of the page, and the two callbacks of the analysis request. */
  datatype Event =
    | FileUploaded(file: UploadedFile)
    | UploadError(message: string)
    | RemovePhoto
    | ReplacePhoto
    | Reset
    | StartAnalysis
    | AnalysisCompleted(result: AnalysisResult)
    | AnalysisFailed
    | ClearError

  const AnalysisErrorMessage: string := "Ошибка при анализе изображения. Попробуйте еще раз."

  /** No file, not analysing, no result, no error. */
  function InitialState(): (s: State)
    ensures s.uploadedFile.None? && !s.isAnalyzing && s.analysisResult.None? && s.error.None?
  {
    State(None, false, None, None)
  }

  /** What the session can always rely on: an analysis in flight belongs to
      a held file and has no result yet. */
  predicate Wellformed(s: State) {
    s.isAnalyzing ==> s.uploadedFile.Some? && s.analysisResult.None?
  }

  // ----- Transitions -----

  /** `onFileUploaded`: install the record and clear everything else. The
      handle of a record already held is not revoked. */
  function OnFileUploaded(s: State, file: UploadedFile): (r: Step)
    ensures r.state.uploadedFile == Some(file)
    ensures !r.state.isAnalyzing && r.state.analysisResult.None? && r.state.error.None?
    ensures r.effects == []
  {
    Step(s.(uploadedFile := Some(file), isAnalyzing := false, analysisResult := None, error := None), [])
  }

  /** `onUploadError`: record the message; nothing else changes. */
  function OnUploadError(s: State, message: string): (r: Step)
    ensures r.state.error == Some(message)
    ensures r.state.uploadedFile == s.uploadedFile && r.state.isAnalyzing == s.isAnalyzing
    ensures r.state.analysisResult == s.analysisResult
    ensures r.effects == []
  {
    Step(s.(error := Some(message)), [])
  }

  /** `onRemovePhoto`: revoke the held handle (if any) once, then return to
      the initial state. */
  function OnRemovePhoto(s: State): (r: Step)
    ensures r.state == InitialState()
    ensures s.uploadedFile.None? ==> r.effects == []
    ensures s.uploadedFile.Some? ==> r.effects == [RevokePreview(s.uploadedFile.value.previewUrl)]
  {
    var effects := match s.uploadedFile
      case Some(file) => [RevokePreview(file.previewUrl)]
      case None => [];
    Step(InitialState(), effects)
  }

  /** `onReplacePhoto`: an alias of `onRemovePhoto`. */
  function OnReplacePhoto(s: State): (r: Step)
    ensures r == OnRemovePhoto(s)
  {
    OnRemovePhoto(s)
  }

  /** `onReset`: an alias of `onRemovePhoto`. */
  function OnReset(s: State): (r: Step)
    ensures r == OnRemovePhoto(s)
  {
    OnRemovePhoto(s)
  }

  /** `onStartAnalysis`: single-flight. Without a file, or while analysing,
      nothing happens; otherwise the session starts analysing and issues one
      request for the held record. */
  function OnStartAnalysis(s: State): (r: Step)
    ensures s.uploadedFile.None? || s.isAnalyzing ==> r == Step(s, [])
    ensures s.uploadedFile.Some? && !s.isAnalyzing ==>
              && r.state == State(s.uploadedFile, true, None, None)
              && r.effects == [RequestAnalysis(s.uploadedFile.value)]
  {
    if s.uploadedFile.None? || s.isAnalyzing then Step(s, [])
    else Step(s.(isAnalyzing := true, analysisResult := None, error := None),
              [RequestAnalysis(s.uploadedFile.value)])
  }

  /** The `next` callback of the analysis request. It applies to whatever
      state is current when the result arrives. */
  function OnAnalysisCompleted(s: State, result: AnalysisResult): (r: Step)
    ensures !r.state.isAnalyzing && r.state.analysisResult == Some(result)
    ensures r.state.uploadedFile == s.uploadedFile && r.state.error == s.error
    ensures r.effects == []
  {
    Step(s.(isAnalyzing := false, analysisResult := Some(result)), [])
  }

  /** The `error` callback of the analysis request: a fixed message. */
  function OnAnalysisFailed(s: State): (r: Step)
    ensures !r.state.isAnalyzing && r.state.error == Some(AnalysisErrorMessage)
    ensures r.state.uploadedFile == s.uploadedFile && r.state.analysisResult == s.analysisResult
    ensures r.effects == []
  {
    Step(s.(isAnalyzing := false, error := Some(AnalysisErrorMessage)), [])
  }

  /** `clearError`: only the error is cleared. */
  function OnClearError(s: State): (r: Step)
    ensures r.state.error.None?
    ensures r.state.uploadedFile == s.uploadedFile && r.state.isAnalyzing == s.isAnalyzing
    ensures r.state.analysisResult == s.analysisResult
    ensures r.effects == []
  {
    Step(s.(error := None), [])
  }

  /** `hasUploadedFile`. */
  function HasUploadedFile(s: State): (r: bool)
    ensures r <==> s.uploadedFile != None
    ensures !r ==> OnRemovePhoto(s).effects == []
    ensures Wellformed(s) && s.isAnalyzing ==> r
  {
    s.uploadedFile.Some?
  }

  /** `canStartAnalysis`: true exactly when starting would issue a request. */
  function CanStartAnalysis(s: State): (r: bool)
    ensures r <==> HasUploadedFile(s) && !s.isAnalyzing
    ensures r <==> OnStartAnalysis(s).effects != []
  {
    HasUploadedFile(s) && !s.isAnalyzing
  }

  /** One event applied to the session. */
  function Apply(s: State, e: Event): (r: Step)
    ensures Wellformed(s) ==> Wellformed(r.state)
  {
    match e
    case FileUploaded(file) => OnFileUploaded(s, file)
    case UploadError(message) => OnUploadError(s, message)
    case RemovePhoto => OnRemovePhoto(s)
    case ReplacePhoto => OnReplacePhoto(s)
    case Reset => OnReset(s)
    case StartAnalysis => OnStartAnalysis(s)
    case AnalysisCompleted(result) => OnAnalysisCompleted(s, result)
    case AnalysisFailed => OnAnalysisFailed(s)
    case ClearError => OnClearError(s)
  }

  /** A sequence of events applied in order; the effects are concatenated. */
  function Run(s: State, events: seq<Event>): Step
    decreases |events|
  {
    if |events| == 0 then Step(s, [])
    else
      var first := Apply(s, events[0]);
      var rest := Run(first.state, events[1..]);
      Step(rest.state, first.effects + rest.effects)
  }

  function CountRequests(effects: seq<Effect>): nat {
    if |effects| == 0 then 0
    else (if effects[0].RequestAnalysis? then 1 else 0) + CountRequests(effects[1..])
  }

  /** Events that neither settle nor discard an analysis. */
  predicate KeepsAnalysisOpen(e: Event) {
    e.StartAnalysis? || e.UploadError? || e.ClearError?
  }

  // ----- Properties -----

  /** Every session reachable from a well-formed state stays well-formed. */
  lemma {:induction false} RunPreservesWellformed(s: State, events: seq<Event>)
    requires Wellformed(s)
    ensures Wellformed(Run(s, events).state)
    decreases |events|
  {
    if |events| > 0 {
      RunPreservesWellformed(Apply(s, events[0]).state, events[1..]);
    }
  }

  lemma {:induction false} CountRequestsAppend(a: seq<Effect>, b: seq<Effect>)
    ensures CountRequests(a + b) == CountRequests(a) + CountRequests(b)
  {
    if |a| == 0 {
      assert a + b == b;
    } else {
      assert (a + b)[0] == a[0];
      assert (a + b)[1..] == a[1..] + b;
      CountRequestsAppend(a[1..], b);
    }
  }

  /** Single flight: as long as no result, failure, removal or new upload
      intervenes, repeated starts issue at most one request, and none while
      an analysis is already running. */
  lemma {:induction false} AtMostOneRequestInFlight(s: State, events: seq<Event>)
    requires forall i :: 0 <= i < |events| ==> KeepsAnalysisOpen(events[i])
    ensures CountRequests(Run(s, events).effects) <= 1
    ensures s.isAnalyzing ==> CountRequests(Run(s, events).effects) == 0
    decreases |events|
  {
    if |events| > 0 {
      var first := Apply(s, events[0]);
      var rest := Run(first.state, events[1..]);
      AtMostOneRequestInFlight(first.state, events[1..]);
      CountRequestsAppend(first.effects, rest.effects);
      assert first.effects == [] || first.state.isAnalyzing;
      assert s.isAnalyzing ==> first.state.isAnalyzing && first.effects == [];
    }
  }

  /** Removing a held photo revokes exactly its handle, once; the empty
      session revokes nothing. Replace and reset behave identically. */
  lemma RemoveRevokesHeldHandleOnce(s: State, e: Event)
    requires e.RemovePhoto? || e.ReplacePhoto? || e.Reset?
    ensures Apply(s, e).state == InitialState()
    ensures |Apply(s, e).effects| == (if s.uploadedFile.Some? then 1 else 0)
    ensures forall i :: 0 <= i < |Apply(s, e).effects| ==>
              Apply(s, e).effects[i] == RevokePreview(s.uploadedFile.value.previewUrl)
  {
  }

  /** After either callback of the request the session is no longer
      analysing and still holds the file it held. */
  lemma CallbacksSettleAnalysis(s: State, result: AnalysisResult)
    ensures !Apply(s, AnalysisCompleted(result)).state.isAnalyzing
    ensures !Apply(s, AnalysisFailed).state.isAnalyzing
    ensures Apply(s, AnalysisCompleted(result)).state.uploadedFile == s.uploadedFile
    ensures Apply(s, AnalysisFailed).state.uploadedFile == s.uploadedFile
  {
  }

  /** `Run` of a non-empty trace: the first event, then the rest. */
  lemma RunCons(s: State, e: Event, rest: seq<Event>)
    ensures Run(s, [e] + rest)
            == Step(Run(Apply(s, e).state, rest).state, Apply(s, e).effects + Run(Apply(s, e).state, rest).effects)
  {
    assert ([e] + rest)[0] == e;
    assert ([e] + rest)[1..] == rest;
  }

  /** Upload, analyse, complete: the session ends holding the file and the
      result, with no error, after exactly one request. */
  lemma HappyPath(file: UploadedFile, result: AnalysisResult)
    ensures Run(InitialState(), [FileUploaded(file), StartAnalysis, AnalysisCompleted(result)])
            == Step(State(Some(file), false, Some(result), None), [RequestAnalysis(file)])
  {
    var s0 := InitialState();
    var s1 := Apply(s0, FileUploaded(file)).state;
    var s2 := Apply(s1, StartAnalysis).state;
    RunCons(s2, AnalysisCompleted(result), []);
    RunCons(s1, StartAnalysis, [AnalysisCompleted(result)]);
    RunCons(s0, FileUploaded(file), [StartAnalysis, AnalysisCompleted(result)]);
  }

  /** A failed upload on an empty session only sets the error; clearing it
      gives the initial state back. */
  lemma UploadErrorThenClear(message: string)
    ensures Run(InitialState(), [UploadError(message), ClearError]) == Step(InitialState(), [])
  {
    var s0 := InitialState();
    var s1 := Apply(s0, UploadError(message)).state;
    RunCons(s1, ClearError, []);
    RunCons(s0, UploadError(message), [ClearError]);
  }

  /** The callbacks are not tied to the file they were issued for: a result
      arriving after the photo was removed is stored in an empty session. */
  lemma LateResultLandsAfterRemoval(file: UploadedFile, result: AnalysisResult)
    ensures var s := Run(InitialState(), [FileUploaded(file), StartAnalysis, RemovePhoto, AnalysisCompleted(result)]).state;
            s.uploadedFile.None? && s.analysisResult == Some(result)
  {
    var s0 := InitialState();
    var s1 := Apply(s0, FileUploaded(file)).state;
    var s2 := Apply(s1, StartAnalysis).state;
    var s3 := Apply(s2, RemovePhoto).state;
    RunCons(s3, AnalysisCompleted(result), []);
    RunCons(s2, RemovePhoto, [AnalysisCompleted(result)]);
    RunCons(s1, StartAnalysis, [RemovePhoto, AnalysisCompleted(result)]);
    RunCons(s0, FileUploaded(file), [StartAnalysis, RemovePhoto, AnalysisCompleted(result)]);
  }

  /** Installing a new record over a held one does not revoke the old
      handle. */
  lemma UploadOverHeldFileRevokesNothing(first: UploadedFile, second: UploadedFile)
    ensures Run(InitialState(), [FileUploaded(first), FileUploaded(second)]).effects == []
    ensures Run(InitialState(), [FileUploaded(first), FileUploaded(second)]).state.uploadedFile == Some(second)
  {
    var s0 := InitialState();
    var s1 := Apply(s0, FileUploaded(first)).state;
    RunCons(s1, FileUploaded(second), []);
    RunCons(s0, FileUploaded(first), [FileUploaded(second)]);
  }
}
