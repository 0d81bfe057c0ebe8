/** The file validator and the upload pipeline of `PhotoUploadService`.
    A candidate file is checked against three rules (media type, size,
    name extension); a valid file is turned into an `UploadedFile` record
    holding a preview handle obtained from the platform. */
module PhotoUploadService {
  import opened Outcomes
  import opened Text

  /** The browser's `File`: name, size in bytes and declared media type. */
  datatype FileInfo = FileInfo(name: string, size: int, mimeType: string)

  /** What the validator reports: every violated rule, in rule order. */
  datatype ValidationResult = ValidationResult(isValid: bool, errors: seq<string>)

  /** A file accepted for analysis with its preview handle and the time it
      was accepted (an opaque clock reading). */
  datatype UploadedFile = UploadedFile(file: FileInfo, previewUrl: string, uploadTimestamp: int)

  /** The outcome of one call of `URL.createObjectURL`: an opaque handle, or
      an exception thrown by the platform. */
  datatype PreviewOutcome = Created(url: string) | CreationFailed

  /** `processUpload` seen from outside: what it delivers, and whether it
      asked the platform for a preview handle on the way. */
  datatype UploadAttempt = UploadAttempt(result: Result<UploadedFile>, previewRequested: bool)

  const AllowedTypes: seq<string> := ["image/jpeg", "image/jpg", "image/png"]
  const MaxFileSize: int := 10 * 1024 * 1024

  const TypeError: string := "Поддерживаются только файлы .jpg, .jpeg, .png"
  const SizeError: string := "Размер файла не должен превышать 10MB"
  const ExtensionError: string := "Файл должен иметь расширение .jpg, .jpeg или .png"
  const LoadFailedError: string := "Не удалось загрузить файл. Попробуйте другой."

  /** Rule 1: the declared type, lower-cased, is one of the allowed types. */
  predicate TypeAccepted(mimeType: string) {
    ToLower(mimeType) in AllowedTypes
  }

  /** Rule 2: the size does not exceed the ceiling. */
  predicate SizeAccepted(size: int) {
    size <= MaxFileSize
  }

  /** Rule 3: the name, lower-cased, ends in one of the image extensions. */
  predicate ExtensionAccepted(name: string) {
    var lower := ToLower(name);
    EndsWith(lower, ".jpg") || EndsWith(lower, ".jpeg") || EndsWith(lower, ".png")
  }

  /** Position of a violation message in the fixed report order; 3 for any
      other text. */
  function Rank(message: string): nat {
    if message == TypeError then 0
    else if message == SizeError then 1
    else if message == ExtensionError then 2
    else 3
  }

  function ValidateFile(file: FileInfo): (r: ValidationResult)
    ensures r.isValid <==> r.errors == []
    ensures TypeError in r.errors <==> !TypeAccepted(file.mimeType)
    ensures SizeError in r.errors <==> !SizeAccepted(file.size)
    ensures ExtensionError in r.errors <==> !ExtensionAccepted(file.name)
    ensures forall i :: 0 <= i < |r.errors| ==> Rank(r.errors[i]) < 3
    ensures forall i, j :: 0 <= i < j < |r.errors| ==> Rank(r.errors[i]) < Rank(r.errors[j])
    ensures |r.errors| <= 3
  {
    var typeErrors := if TypeAccepted(file.mimeType) then [] else [TypeError];
    var sizeErrors := if SizeAccepted(file.size) then [] else [SizeError];
    var extensionErrors := if ExtensionAccepted(file.name) then [] else [ExtensionError];
    var errors := typeErrors + sizeErrors + extensionErrors;
    ValidationResult(|errors| == 0, errors)
  }

  /** `processUpload`: validation first; only a valid file reaches the
      preview oracle, whose failure becomes a fixed message. */
  function ProcessUpload(file: FileInfo, preview: PreviewOutcome, now: int): (r: UploadAttempt)
    ensures r.previewRequested <==> ValidateFile(file).isValid
    ensures !ValidateFile(file).isValid ==> r.result == Failure(Join(ValidateFile(file).errors, ", "))
    ensures ValidateFile(file).isValid && preview.CreationFailed? ==> r.result == Failure(LoadFailedError)
    ensures r.result.Success? <==> ValidateFile(file).isValid && preview.Created?
    ensures r.result.Success? ==>
              r.result.value.file == file && r.result.value.previewUrl == preview.url
              && r.result.value.uploadTimestamp == now
    ensures r.result.Failure? ==> r.result.error != ""
  {
    var validation := ValidateFile(file);
    if !validation.isValid then
      UploadAttempt(Failure(Join(validation.errors, ", ")), false)
    else
      match preview
      case Created(url) => UploadAttempt(Success(UploadedFile(file, url, now)), true)
      case CreationFailed => UploadAttempt(Failure(LoadFailedError), true)
  }

  /** `getAllowedTypes`: a fresh list (a value here) of the accepted types. */
  function GetAllowedTypes(): (r: seq<string>)
    ensures r == ["image/jpeg", "image/jpg", "image/png"]
    ensures forall t :: TypeAccepted(t) <==> ToLower(t) in r
  {
    AllowedTypes
  }

  /** `getMaxFileSize`: the size ceiling in bytes. */
  function GetMaxFileSize(): (r: int)
    ensures r == 10485760
    ensures forall size :: SizeAccepted(size) <==> size <= r
  {
    MaxFileSize
  }

  // ----- Properties -----

  /** A file breaking all three rules reports all three messages, in order. */
  lemma AllViolationsReportedInOrder(file: FileInfo)
    requires !TypeAccepted(file.mimeType) && !SizeAccepted(file.size) && !ExtensionAccepted(file.name)
    ensures ValidateFile(file).errors == [TypeError, SizeError, ExtensionError]
    ensures !ValidateFile(file).isValid
  {
    var r := ValidateFile(file);
    assert |r.errors| == 3;
    assert Rank(r.errors[0]) < Rank(r.errors[1]) < Rank(r.errors[2]) < 3;
  }

  /** The size ceiling is inclusive: exactly 10 MiB passes, one byte more fails. */
  lemma SizeBoundaryIsInclusive(name: string, mimeType: string)
    ensures SizeError !in ValidateFile(FileInfo(name, 10485760, mimeType)).errors
    ensures SizeError in ValidateFile(FileInfo(name, 10485761, mimeType)).errors
  {
  }

  /** An upper-case extension and an upper-case media type are accepted. */
  lemma UpperCaseNamesAreValid()
    ensures ValidateFile(FileInfo("test.JPG", 4, "image/jpeg")).isValid
    ensures ValidateFile(FileInfo("CAR.PNG", 4, "IMAGE/PNG")).isValid
  {
    var lower := ToLower("test.JPG");
    assert lower == "test.jpg";
    assert EndsWith(lower, ".jpg");
    assert ToLower("image/jpeg") == "image/jpeg";
    assert ToLower("CAR.PNG") == "car.png";
    assert EndsWith(ToLower("CAR.PNG"), ".png");
    assert ToLower("IMAGE/PNG") == "image/png";
  }

  /** A GIF larger than 10 MiB breaks all three rules and reports all
      three messages, in rule order. */
  lemma LargeGifReportsAllViolations()
    ensures ValidateFile(FileInfo("large.gif", 11 * 1024 * 1024, "image/gif")).errors
            == [TypeError, SizeError, ExtensionError]
  {
    assert ToLower("image/gif") == "image/gif";
    assert ToLower("large.gif") == "large.gif";
    AllViolationsReportedInOrder(FileInfo("large.gif", 11 * 1024 * 1024, "image/gif"));
  }

  /** A file failing only the size rule is rejected with exactly the size
      message; the preview oracle is never consulted for it. */
  lemma SingleViolationMessage(file: FileInfo, preview: PreviewOutcome, now: int)
    requires TypeAccepted(file.mimeType) && ExtensionAccepted(file.name) && !SizeAccepted(file.size)
    ensures ProcessUpload(file, preview, now) == UploadAttempt(Failure(SizeError), false)
  {
    var r := ValidateFile(file);
    assert |r.errors| == 1 && r.errors[0] == SizeError;
  }

  /** Every record the pipeline produces holds a file that passes validation. */
  lemma UploadedFilesAreValid(file: FileInfo, preview: PreviewOutcome, now: int)
    requires ProcessUpload(file, preview, now).result.Success?
    ensures var u := ProcessUpload(file, preview, now).result.value;
            TypeAccepted(u.file.mimeType) && SizeAccepted(u.file.size) && ExtensionAccepted(u.file.name)
  {
  }
}
