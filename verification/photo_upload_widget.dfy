/** `PhotoUploadComponent`: the drop zone and file picker. It forwards one
    file at a time to the upload pipeline and re-emits the outcome on one of
    its two outputs. A rejected file is reported at once (the pipeline's
    error is raised while subscribing); an accepted record is delivered
    after the pipeline's short delay, which is modelled as a separate
    `OnDelivered` event. */
module PhotoUploadWidget {
  import opened Outcomes
  import opened Text
  import opened PhotoUploadService

  datatype Widget = Widget(disabled: bool, isDragActive: bool, isProcessing: bool)

  /** What the widget emits or asks of the platform: the `fileUploaded` and
      `uploadError` outputs, the delayed delivery of an accepted record, and
      the reset of the file input's value. */
  datatype Output =
    | FileUploadedOut(file: UploadedFile)
    | UploadErrorOut(message: string)
    | DeliveryScheduled(file: UploadedFile)
    | ClearInput

  datatype WidgetStep = WidgetStep(widget: Widget, outputs: seq<Output>)

  function NewWidget(disabled: bool): (w: Widget)
    ensures w.disabled == disabled && !w.isDragActive && !w.isProcessing
  {
    Widget(disabled, false, false)
  }

  /** `onDragOver`: highlight the zone unless the widget is disabled. */
  function OnDragOver(w: Widget): (r: Widget)
    ensures r.isDragActive <==> w.isDragActive || !w.disabled
    ensures r.disabled == w.disabled && r.isProcessing == w.isProcessing
  {
    if !w.disabled then w.(isDragActive := true) else w
  }

  /** `onDragLeave`: drop the highlight. */
  function OnDragLeave(w: Widget): (r: Widget)
    ensures !r.isDragActive
    ensures r.disabled == w.disabled && r.isProcessing == w.isProcessing
  {
    w.(isDragActive := false)
  }

  /** Whether a file offered now would be ignored. */
  predicate Busy(w: Widget) {
    w.disabled || w.isProcessing
  }

  /** `handleFile`: ignored while disabled or processing. Otherwise the
      pipeline runs with the given preview oracle and clock: a rejection is
      emitted at once and processing ends; an accepted record is scheduled
      for delivery and processing continues until it arrives. */
  function HandleFile(w: Widget, file: FileInfo, preview: PreviewOutcome, now: int): (r: WidgetStep)
    ensures Busy(w) ==> r == WidgetStep(w, [])
    ensures !Busy(w) ==>
              var attempt := ProcessUpload(file, preview, now).result;
              && |r.outputs| == 1
              && (attempt.Failure? ==> r.outputs[0] == UploadErrorOut(attempt.error) && !r.widget.isProcessing)
              && (attempt.Success? ==> r.outputs[0] == DeliveryScheduled(attempt.value) && r.widget.isProcessing)
    ensures r.widget.disabled == w.disabled && r.widget.isDragActive == w.isDragActive
  {
    if Busy(w) then WidgetStep(w, [])
    else
      match ProcessUpload(file, preview, now).result
      case Failure(message) => WidgetStep(w.(isProcessing := false), [UploadErrorOut(message)])
      case Success(uploaded) => WidgetStep(w.(isProcessing := true), [DeliveryScheduled(uploaded)])
  }

  /** The delayed `next` of the pipeline: processing ends and the record is
      emitted on `fileUploaded`. */
  function OnDelivered(w: Widget, uploaded: UploadedFile): (r: WidgetStep)
    ensures !r.widget.isProcessing
    ensures r.outputs == [FileUploadedOut(uploaded)]
    ensures r.widget.disabled == w.disabled && r.widget.isDragActive == w.isDragActive
  {
    WidgetStep(w.(isProcessing := false), [FileUploadedOut(uploaded)])
  }

  /** `onDrop`: the highlight always goes; a busy widget ignores the drop;
      otherwise the first dropped file, if any, is handled. A drop without a
      file list is `None`. */
  function OnDrop(w: Widget, files: Option<seq<FileInfo>>, preview: PreviewOutcome, now: int): (r: WidgetStep)
    ensures !r.widget.isDragActive
    ensures Busy(w) || files.None? || |files.value| == 0 ==>
              r == WidgetStep(w.(isDragActive := false), [])
    ensures !Busy(w) && files.Some? && |files.value| > 0 ==>
              r == HandleFile(w.(isDragActive := false), files.value[0], preview, now)
  {
    var settled := w.(isDragActive := false);
    if Busy(settled) then WidgetStep(settled, [])
    else if files.Some? && |files.value| > 0 then HandleFile(settled, files.value[0], preview, now)
    else WidgetStep(settled, [])
  }

  /** `onFileSelected`: the first chosen file, if any, is handled (subject
      to the same guard), and the input's value is always reset so the same
      file can be chosen again. */
  function OnFileSelected(w: Widget, files: Option<seq<FileInfo>>, preview: PreviewOutcome, now: int): (r: WidgetStep)
    ensures |r.outputs| > 0 && r.outputs[|r.outputs| - 1] == ClearInput
    ensures files.None? || |files.value| == 0 ==> r == WidgetStep(w, [ClearInput])
    ensures files.Some? && |files.value| > 0 ==>
              var handled := HandleFile(w, files.value[0], preview, now);
              r == WidgetStep(handled.widget, handled.outputs + [ClearInput])
  {
    var handled := if files.Some? && |files.value| > 0 then HandleFile(w, files.value[0], preview, now)
                   else WidgetStep(w, []);
    WidgetStep(handled.widget, handled.outputs + [ClearInput])
  }

  /** The outputs a handled file eventually produces on the component's two
      outputs: the immediate ones, plus the delivery of a scheduled record. */
  function Emitted(outputs: seq<Output>): seq<Output> {
    if |outputs| == 0 then []
    else
      var head := match outputs[0]
        case DeliveryScheduled(file) => [FileUploadedOut(file)]
        case ClearInput => []
        case other => [other];
      head + Emitted(outputs[1..])
  }

  // ----- Properties -----

  /** A file handled by an idle widget ends, once any scheduled delivery
      has arrived, with exactly one emission: the pipeline's error message
      verbatim, or the record it produced. Processing is then over. */
  lemma HandledFileEmitsExactlyOnce(w: Widget, file: FileInfo, preview: PreviewOutcome, now: int)
    requires !Busy(w)
    ensures var step := HandleFile(w, file, preview, now);
            var attempt := ProcessUpload(file, preview, now).result;
            var final := if attempt.Success? then OnDelivered(step.widget, attempt.value).widget else step.widget;
            && !final.isProcessing
            && Emitted(step.outputs) == [match attempt
                                         case Success(u) => FileUploadedOut(u)
                                         case Failure(m) => UploadErrorOut(m)]
  {
    var step := HandleFile(w, file, preview, now);
    assert |step.outputs| == 1;
    assert step.outputs[1..] == [];
  }

  /** A busy widget ignores every offered file: dropped or picked, nothing
      is emitted and the pipeline is not consulted. */
  lemma BusyWidgetIgnoresFiles(w: Widget, files: Option<seq<FileInfo>>, preview: PreviewOutcome, now: int)
    requires Busy(w)
    ensures OnDrop(w, files, preview, now).outputs == []
    ensures OnFileSelected(w, files, preview, now).outputs == [ClearInput]
    ensures OnFileSelected(w, files, preview, now).widget == w
  {
  }

  /** An invalid file never leaves the widget processing, whatever the
      preview oracle would have answered. */
  lemma InvalidFileSettlesAtOnce(w: Widget, file: FileInfo, preview: PreviewOutcome, now: int)
    requires !Busy(w) && !ValidateFile(file).isValid
    ensures !HandleFile(w, file, preview, now).widget.isProcessing
    ensures HandleFile(w, file, preview, now).outputs
            == [UploadErrorOut(Join(ValidateFile(file).errors, ", "))]
  {
  }
}
