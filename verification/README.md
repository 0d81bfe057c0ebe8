# Car photo analyzer — a Dafny model of its orchestration core

The application lets a user submit one photo of a car. It checks the photo
against three client-side rules and creates a local preview handle for it.
The photo is then sent to a remote damage-detection service. Its answer is
normalised into one display record; if the service fails, a synthetic
(mock) result is produced instead. A small monitor keeps the last known
health of the service.

This project models that core as pure Dafny functions over immutable
records:

- `PhotoUploadService` (`photo_upload_service.dfy`): the file validator and
  the upload pipeline.
- `AnalysisService` (`analysis_service.dfy`): the response mapper, the mock
  generator, the fallback chain and the display helpers.
- `ApiHealthService` (`api_health_service.dfy`): the health monitor.
- `CarPhotoAnalyzer` (`car_photo_analyzer.dfy`): the session state machine
  of the page.
- `PhotoUploadWidget` (`photo_upload_widget.dfy`): the drop zone and file
  picker.
- `PhotoPreview` (`photo_preview.dfy`): the preview card's helpers.
- `Outcomes` and `Text` hold the option and result types, and the string
  operations the source borrows from JavaScript (`toLowerCase`,
  `toUpperCase`, `endsWith`, `join`, the last piece of `split('.')`).

The platform is never called. Each outside answer comes in as a value:
- `URL.createObjectURL` is a `PreviewOutcome`, either a handle or a thrown
  error.
- HTTP replies are reply datatypes: `DetectReply`, `HealthReply`.
- `Math.random()` is a sequence of draws in `[0, 1)`.
- `new Date()` is an integer clock reading `now`.

Side effects come back as traces next to the new state:
- revoking a preview handle and issuing an analysis request, in the session;
- emitting on the widget's outputs, scheduling the delayed delivery of an
  accepted file, and resetting the file input, in the widget.

## Model

| member | source | states |
|---|---|---|
| `PhotoUploadService.ValidateFile` | src/app/car-photo-analyzer/services/photo-upload.service.ts:28-55 | Each of the three messages is reported exactly when its rule fails: media type, size, extension. Messages come in rule order with none repeated. The file is valid iff no message is reported. |
| `PhotoUploadService.ProcessUpload` | src/app/car-photo-analyzer/services/photo-upload.service.ts:71-91 | The platform is asked for a preview handle only for a valid file. An invalid file fails with its messages joined by ", ". A failed handle creation gives the fixed load-failed message. Otherwise the record holds the same file, the handle and the clock reading, and a failure message is never empty. |
| `PhotoUploadService.GetAllowedTypes` | src/app/car-photo-analyzer/services/photo-upload.service.ts:105-107 | The list holds exactly the three image types, and a media type is accepted iff its lower-case form is in the list. |
| `PhotoUploadService.GetMaxFileSize` | src/app/car-photo-analyzer/services/photo-upload.service.ts:113-115 | The ceiling is 10485760 bytes, and the size rule accepts exactly the sizes up to it. |
| `PhotoUploadService.AllViolationsReportedInOrder` | src/app/car-photo-analyzer/services/photo-upload.service.ts:31-54 | A file breaking all three rules gets all three messages, in order type, size, extension, and is invalid. |
| `PhotoUploadService.SizeBoundaryIsInclusive` | src/app/car-photo-analyzer/services/photo-upload.service.ts:37-39 | Exactly 10 MiB passes the size rule; one byte more fails it. |
| `PhotoUploadService.UpperCaseNamesAreValid` | src/app/car-photo-analyzer/services/photo-upload.service.ts:32-45 | Type and extension are compared case-insensitively: "test.JPG" and "CAR.PNG" with an upper-case type are valid. |
| `PhotoUploadService.LargeGifReportsAllViolations` | src/app/car-photo-analyzer/services/photo-upload.service.ts:28-55 | An 11 MiB "large.gif" of type image/gif gets the type, size and extension messages in that order. |
| `PhotoUploadService.SingleViolationMessage` | src/app/car-photo-analyzer/services/photo-upload.service.ts:72-76 | A file failing only the size rule is rejected with exactly the size message, and no preview handle is requested. |
| `PhotoUploadService.UploadedFilesAreValid` | src/app/car-photo-analyzer/services/photo-upload.service.ts:71-85 | Every record the pipeline produces holds a file that satisfies all three rules. |
| `AnalysisService.GetDamageDisplayText` | src/app/car-photo-analyzer/services/analysis.service.ts:176-184 | The four class names map to their Russian labels. Any other text comes back unchanged. |
| `AnalysisService.DisplayTextChangesExactlyKnownTypes` | src/app/car-photo-analyzer/services/analysis.service.ts:176-184 | The label lookup changes its input iff the input is one of the four class names. |
| `AnalysisService.GetResultCssClass` | src/app/car-photo-analyzer/services/analysis.service.ts:280-282 | "success" iff the condition is intact, otherwise "error". |
| `AnalysisService.GetCarConditionText` | src/app/car-photo-analyzer/services/analysis.service.ts:287-289 | "Целый" iff the condition is intact, otherwise "Поврежден". |
| `AnalysisService.MapDetection` | src/app/car-photo-analyzer/services/analysis.service.ts:160-165 | A detection keeps its class, confidence and box, and gets the label of its class. |
| `AnalysisService.MapDetections` | src/app/car-photo-analyzer/services/analysis.service.ts:160-165 | The mapped list has the same length, and each entry is the mapping of the entry at the same index. |
| `AnalysisService.MapApiResponseToAnalysisResult` | src/app/car-photo-analyzer/services/analysis.service.ts:151-171 | Condition, total, statistics and visualization are copied unchanged, and detections are mapped index by index. The overall confidence times the detection count equals the sum of the confidences, so it is their mean. It is 0 when there are no detections. |
| `AnalysisService.MappedAverageExample` | src/app/car-photo-analyzer/services/analysis.service.ts:152-154 | Two detections at 0.8 and 0.6 give an overall confidence of 0.7. |
| `AnalysisService.MapperKeepsContradictoryResponse` | src/app/car-photo-analyzer/services/analysis.service.ts:156-159 | The mapper does not reconcile the response: an "intact" response with zero total but a detection is passed through as it is. |
| `AnalysisService.GetRandomProcessingTime` | src/app/car-photo-analyzer/services/analysis.service.ts:190-194 | Any draw in [0, 1) gives a delay between 2000 and 3000 ms, inclusive. |
| `AnalysisService.ProcessingTimeCoversRange` | src/app/car-photo-analyzer/services/analysis.service.ts:190-194 | Every whole delay from 2000 to 3000 ms is reached by some draw, so the range is covered without gaps. |
| `AnalysisService.MockDetection` | src/app/car-photo-analyzer/services/analysis.service.ts:209-222 | A synthetic detection has confidence in [0.7, 1.0), whole top-left corners in 0..299, whole bottom-right corners in 350..449, a 100 × 100 box and the label of its class. |
| `AnalysisService.AssembleMockResult` | src/app/car-photo-analyzer/services/analysis.service.ts:226-241 | The assembled mock is consistent: total equals the detection count, statistics are the per-class counts, and the condition is damaged iff the total is positive. Its confidence is the mean, in [0.7, 1.0) when there are detections and 0 otherwise. It has no visualization. |
| `AnalysisService.GenerateMockResult` | src/app/car-photo-analyzer/services/analysis.service.ts:201-242 | The mock is damaged iff the first draw exceeds 0.5, and then holds 1 to 3 detections. Every detection is in the synthetic ranges and the result is consistent. Its confidence is the mean of the detections, within [0.7, 1.0). |
| `AnalysisService.AnalyzeImage` | src/app/car-photo-analyzer/services/analysis.service.ts:98-135 | A readable reply with a handle is mapped, with no delay. An error on the remote path, or a failed handle there, falls back to the mock. The mock carries the fallback handle and satisfies everything `GenerateMockResult` promises: ranges, 1 to 3 detections when damaged, consistency, mean confidence, clock, no visualization. The first draw sets its delay in [2000, 3000] ms, and the second is the damage coin. The request errors only when the fallback handle cannot be created either. |
| `AnalysisService.IsPositiveResult` | src/app/car-photo-analyzer/services/analysis.service.ts:273-275 | Positive iff intact with zero damages. A positive record shows the "success" class and the "Целый" text. On a consistent record it is positive iff there are no detections. |
| `AnalysisService.SumConfidenceWithin` | src/app/car-photo-analyzer/services/analysis.service.ts:238-240 | If every confidence lies in [lo, hi), the sum lies between lo and hi times the count. |
| `AnalysisService.MeanConfidenceWithin` | src/app/car-photo-analyzer/services/analysis.service.ts:238-240 | The mean of a non-empty list of confidences in [lo, hi) is in [lo, hi). |
| `AnalysisService.StatsSumToLength` | src/app/car-photo-analyzer/services/analysis.service.ts:229-234 | The four per-class counts add up to the number of detections. |
| `AnalysisService.ConsistentStatsSumToTotal` | src/app/car-photo-analyzer/services/analysis.service.ts:226-235 | In a consistent result, such as every mock, the statistics add up to the total. |
| `AnalysisService.ConsistentViewsAgree` | src/app/car-photo-analyzer/services/analysis.service.ts:273-289 | For a consistent result these all agree: "positive", "no damages", the "success" CSS class, and the "Целый" text. |
| `ApiHealthService.InitialStatus` | src/app/car-photo-analyzer/services/api-health.service.ts:20-24 | Before any check answers, the status is offline with text "unknown" and no details. |
| `ApiHealthService.NewMonitor` | src/app/car-photo-analyzer/services/api-health.service.ts:20-29 | A new monitor holds the initial status and reports the service as not online. |
| `ApiHealthService.StatusFor` | src/app/car-photo-analyzer/services/api-health.service.ts:42-54 | A reply with a body is online. Its text is the body's status when non-empty, "healthy" otherwise, and device and classes are copied. A failed request or a null body is offline with text "offline" and no details. The text is never empty. |
| `ApiHealthService.CheckHealth` | src/app/car-photo-analyzer/services/api-health.service.ts:41-56 | The returned status is the one published, and the monitor is online iff the reply carried a body. |
| `ApiHealthService.IsApiOnline` | src/app/car-photo-analyzer/services/api-health.service.ts:71-73 | Reads the online flag of the current status. It is never true of the initial "unknown" status; `LastCheckWins` ties it to the last reply. |
| `ApiHealthService.LastCheckWins` | src/app/car-photo-analyzer/services/api-health.service.ts:50-73 | After any series of checks the monitor holds exactly the status of the last reply, so `isApiOnline` reflects only that reply. |
| `ApiHealthService.StatusTextExamples` | src/app/car-photo-analyzer/services/api-health.service.ts:43-54 | "ok" is kept, and an empty status becomes "healthy". A device is reported. A null body and an unreachable service are offline. |
| `CarPhotoAnalyzer.InitialState` | src/app/car-photo-analyzer/car-photo-analyzer.component.ts:24-29 | The session starts empty: no file, not analysing, no result, no error. |
| `CarPhotoAnalyzer.OnFileUploaded` | src/app/car-photo-analyzer/car-photo-analyzer.component.ts:33-42 | The new record is held. Analysis, result and error are cleared, and nothing is revoked. |
| `CarPhotoAnalyzer.OnUploadError` | src/app/car-photo-analyzer/car-photo-analyzer.component.ts:44-50 | Only the error changes: file, analysis flag and result stay. |
| `CarPhotoAnalyzer.OnRemovePhoto` | src/app/car-photo-analyzer/car-photo-analyzer.component.ts:52-64 | The session returns to its initial state. The held handle, if any, is revoked exactly once; an empty session revokes nothing. |
| `CarPhotoAnalyzer.OnReplacePhoto` | src/app/car-photo-analyzer/car-photo-analyzer.component.ts:66-69 | Replacing behaves exactly as removing. |
| `CarPhotoAnalyzer.OnReset` | src/app/car-photo-analyzer/car-photo-analyzer.component.ts:106-108 | Resetting behaves exactly as removing. |
| `CarPhotoAnalyzer.OnStartAnalysis` | src/app/car-photo-analyzer/car-photo-analyzer.component.ts:71-85 | With no file, or while analysing, nothing changes and no request is issued. Otherwise the session starts analysing, clears result and error, and issues one request for the held record. |
| `CarPhotoAnalyzer.OnAnalysisCompleted` | src/app/car-photo-analyzer/car-photo-analyzer.component.ts:86-93 | The result is stored and analysing ends; file and error are untouched. |
| `CarPhotoAnalyzer.OnAnalysisFailed` | src/app/car-photo-analyzer/car-photo-analyzer.component.ts:94-101 | Analysing ends with the fixed analysis-failed message; file and result are untouched. |
| `CarPhotoAnalyzer.OnClearError` | src/app/car-photo-analyzer/car-photo-analyzer.component.ts:110-115 | Only the error is cleared. |
| `CarPhotoAnalyzer.HasUploadedFile` | src/app/car-photo-analyzer/car-photo-analyzer.component.ts:117-119 | True iff a record is held. Without one, removing revokes nothing. In a well-formed session, analysing implies a held file. |
| `CarPhotoAnalyzer.CanStartAnalysis` | src/app/car-photo-analyzer/car-photo-analyzer.component.ts:117-123 | True iff a file is held and no analysis runs. Equivalently, true iff starting would issue a request. |
| `CarPhotoAnalyzer.Apply` | src/app/car-photo-analyzer/car-photo-analyzer.component.ts:33-115 | Every transition keeps the session well-formed: an analysis in flight always belongs to a held file and has no result yet. |
| `CarPhotoAnalyzer.RunPreservesWellformed` | src/app/car-photo-analyzer/car-photo-analyzer.component.ts:33-115 | Every sequence of events keeps a well-formed session well-formed. |
| `CarPhotoAnalyzer.AtMostOneRequestInFlight` | src/app/car-photo-analyzer/car-photo-analyzer.component.ts:71-85 | Single flight: until a callback, removal or new upload intervenes, any number of starts issues at most one request. None is issued if an analysis is already running. |
| `CarPhotoAnalyzer.RemoveRevokesHeldHandleOnce` | src/app/car-photo-analyzer/car-photo-analyzer.component.ts:52-69 | Remove, replace and reset each empty the session and revoke exactly the held handle, once. |
| `CarPhotoAnalyzer.CallbacksSettleAnalysis` | src/app/car-photo-analyzer/car-photo-analyzer.component.ts:86-101 | Either callback ends analysing and keeps the held file. |
| `CarPhotoAnalyzer.HappyPath` | src/app/car-photo-analyzer/car-photo-analyzer.component.ts:33-93 | Upload, start, complete: the session holds the file and the result with no error, after exactly one request. |
| `CarPhotoAnalyzer.UploadErrorThenClear` | src/app/car-photo-analyzer/car-photo-analyzer.component.ts:110-115 | An upload error on an empty session, once cleared, leaves the initial state and no effects. |
| `CarPhotoAnalyzer.LateResultLandsAfterRemoval` | src/app/car-photo-analyzer/car-photo-analyzer.component.ts:85-93 | Callbacks are not tied to the file they were issued for. A result arriving after removal is stored in the now empty session. |
| `CarPhotoAnalyzer.UploadOverHeldFileRevokesNothing` | src/app/car-photo-analyzer/car-photo-analyzer.component.ts:33-42 | A second upload replaces the held record without revoking the first record's handle. |
| `PhotoUploadWidget.NewWidget` | src/app/car-photo-analyzer/components/photo-upload/photo-upload.component.ts:15-18 | A new widget is neither highlighted nor processing. |
| `PhotoUploadWidget.OnDragOver` | src/app/car-photo-analyzer/components/photo-upload/photo-upload.component.ts:22-28 | The zone is highlighted iff it already was or the widget is enabled. |
| `PhotoUploadWidget.OnDragLeave` | src/app/car-photo-analyzer/components/photo-upload/photo-upload.component.ts:30-34 | The highlight goes; nothing else changes. |
| `PhotoUploadWidget.HandleFile` | src/app/car-photo-analyzer/components/photo-upload/photo-upload.component.ts:65-82 | A disabled or processing widget ignores the file. Otherwise a rejection is emitted at once with the pipeline's message and processing ends. An accepted record is scheduled for delivery while processing continues. |
| `PhotoUploadWidget.OnDelivered` | src/app/car-photo-analyzer/components/photo-upload/photo-upload.component.ts:73-76 | Delivery ends processing and emits the record on `fileUploaded`. |
| `PhotoUploadWidget.OnDrop` | src/app/car-photo-analyzer/components/photo-upload/photo-upload.component.ts:36-49 | A drop always removes the highlight. A busy widget or an empty drop does nothing more. Otherwise the first dropped file is handled. |
| `PhotoUploadWidget.OnFileSelected` | src/app/car-photo-analyzer/components/photo-upload/photo-upload.component.ts:51-58 | The first picked file, if any, is handled. The input is always reset afterwards. |
| `PhotoUploadWidget.HandledFileEmitsExactlyOnce` | src/app/car-photo-analyzer/components/photo-upload/photo-upload.component.ts:65-82 | A file handled by an idle widget leads to exactly one emission: the pipeline's message verbatim, or its record. Processing is then over. |
| `PhotoUploadWidget.BusyWidgetIgnoresFiles` | src/app/car-photo-analyzer/components/photo-upload/photo-upload.component.ts:41-68 | While disabled or processing, neither a drop nor a pick emits anything. A pick only resets the input. |
| `PhotoUploadWidget.InvalidFileSettlesAtOnce` | src/app/car-photo-analyzer/components/photo-upload/photo-upload.component.ts:65-81 | An invalid file never leaves the widget processing. Its joined validation messages are emitted at once. |
| `PhotoPreview.HasPhoto` | src/app/car-photo-analyzer/components/photo-preview/photo-preview.component.ts:42-44 | True iff a record is bound. |
| `PhotoPreview.GetFileExtension` | src/app/car-photo-analyzer/components/photo-preview/photo-preview.component.ts:76-78 | The result is the upper-cased longest dot-free suffix of the name. It holds no '.', and when shorter than the name it is preceded by a '.'. |
| `PhotoPreview.NoDotGivesWholeName` | src/app/car-photo-analyzer/components/photo-preview/photo-preview.component.ts:76-78 | A name without a '.' is shown whole, upper-cased. |
| `PhotoPreview.TrailingDotGivesEmpty` | src/app/car-photo-analyzer/components/photo-preview/photo-preview.component.ts:76-78 | A name ending in '.' has an empty extension. |
| `PhotoPreview.ExtensionRoundTrip` | src/app/car-photo-analyzer/components/photo-preview/photo-preview.component.ts:76-78 | Stem + "." + a dot-free extension gives back the extension, upper-cased, whatever the stem holds. |
| `PhotoPreview.OrdinaryNameExample` | src/app/car-photo-analyzer/components/photo-preview/photo-preview.component.ts:76-78 | "car.jpg" shows "JPG". |
| `PhotoPreview.DoubleExtensionExample` | src/app/car-photo-analyzer/components/photo-preview/photo-preview.component.ts:76-78 | "a.tar.png" shows only "PNG". |
| `PhotoPreview.NoExtensionExample` | src/app/car-photo-analyzer/components/photo-preview/photo-preview.component.ts:76-78 | "photo" shows "PHOTO". |

## Left out

- Text case mapping (`ToLower`, `ToUpper`) covers the ASCII letters only. JavaScript's full Unicode case mapping is not modelled. Every literal the rules compare against is ASCII.
- `formatFileSize` in both the upload service and the preview card is not modelled. It needs floating-point logarithms and `toFixed` rounding. `formatUploadTime` (locale date formatting) and `getMaxFileSizeFormatted` are left out for the same reason.
- The HTTP client, `FormData`, the `delay` operator, `console` logging and `Date` are not modelled. Replies, preview handles, random draws and clock readings come in as parameters, and a delayed delivery is a separate event.
- `getModelInfo`, `checkApiHealth` of the analysis service, `getDamageIcon`, `getDamageColor`, `getCarConditionIcon`, `getAllowedTypesText` and `onUploadButtonClick` are left out. They are constant tables of icons and colours, a best-effort metadata fetch, or DOM plumbing, with no logic beyond a lookup.
- `results-display.component.ts` is not part of this model. It is presentation code written against an older result shape.
- The preview card's `onRemovePhoto` and `onReplacePhoto` only re-emit an event; the session's `RemovePhoto` and `ReplacePhoto` events stand for them.
- `AnalysisService.GetDamageDisplayText` models the label table as four string comparisons. A JavaScript object lookup would also find inherited keys such as "constructor"; that is not modelled.
- The class of an API detection and the car condition are enums with the literal values their TypeScript types declare. A response carrying other strings is not modelled.
- Confidences, box coordinates and averages are exact reals. Floating-point rounding of the sums and of `Math.random() * 0.3 + 0.7` is not modelled.
- `AnalysisService.GenerateMockResult` requires 20 draws, the most one mock can consume (one for the damage flag, one for the count, six per detection). `AnalysisService.AnalyzeImage` requires one more, for the delay. A shorter supply is not modelled.
- `AnalysisService.AnalyzeImage` models a 2xx body as either readable (`Detected`) or one whose mapping throws (`DetectFailed`). A body lacking `damage_stats`, `total_damages` or `car_condition` does not throw in the source; it is mapped and shown with undefined fields. Such responses with missing fields are not modelled.
- `AnalysisService.Consistent` does not include "statistics add up to the total". That fact is proved separately, by `StatsSumToLength` and `ConsistentStatsSumToTotal`.
- The page hands the preview handle string, not the `File`, to `analyzeImage`. The session therefore models the analysis request as an opaque request for the held record, completed or failed by a later event. `AnalysisService.AnalyzeImage` models the service's own chain for whatever argument reaches it: the two `URL.createObjectURL` calls are separate oracles.
- The code neither discards the result of a superseded request nor revokes the held handle when a new upload replaces it. The model follows the code; `LateResultLandsAfterRemoval` and `UploadOverHeldFileRevokesNothing` state this.
- `ApiHealthService.StatusFor` takes the body's `status` as an optional string. A non-string status value, which JavaScript's `||` would pass through, is not modelled.
- Subscribers of the health subject are not modelled; the monitor's current value is what they would read.
