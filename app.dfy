/**
 * The top-level component: five pieces of state, the three handlers that
 * change them, the data URL built from a result, and the upscale button's
 * disabled flag and label. `handleUpscale` is one atomic transition whose
 * inputs are how the file read ended and how the remote model answers.
 */
module App {
  import opened Types
  import opened ImageUtils
  import opened GeminiService

  const NoImageMessage := "The AI model did not return an image. Please try again."
  const UnknownErrorMessage := "An unknown error occurred during upscaling."
  const UpscalingLabel := "Upscaling..."
  const UpscaledLabel := "Upscaled Successfully!"
  const UpscaleLabel := "Upscale to 2K"

  /** A snapshot of the component's state. */
  datatype AppModel = AppModel(
    originalFile: Option<File>,
    originalImageUrl: Option<string>,
    upscaledImageUrl: Option<string>,
    isLoading: bool,
    error: Option<string>)

  /** The state on first render, and after a reset. */
  const Initial := AppModel(None, None, None, false, None)

  /** `data:${mimeType};base64,${base64}`. */
  function DataUrl(mimeType: string, base64: string): (url: string)
    ensures |url| == |mimeType| + |base64| + 13
    ensures url[..5] == "data:"
    ensures url[5..5 + |mimeType|] == mimeType
    ensures url[5 + |mimeType|..13 + |mimeType|] == ";base64,"
    ensures url[|url| - |base64|..] == base64
  {
    "data:" + mimeType + ";base64," + base64
  }

  /** `err instanceof Error ? err.message : …`. */
  function ErrorMessage(e: Thrown): string {
    match e
    case Error(message) => message
    case NonError => UnknownErrorMessage
  }

  /** The body of the `try` together with its `catch`: the result URL, or the message shown. */
  function UpscaleAttempt(file: File, read: ReaderOutcome, generate: Request -> CallOutcome): (r: Result<string, string>)
    ensures read.ReadFailed? ==> r == Failure(ErrorMessage(read.cause))
    ensures read == Loaded(OtherResult) ==> r == Failure(ReadAsStringFailedMessage)
    ensures read.Loaded? && read.result.StringResult? && !Truthy(SecondField(read.result.text))
        ==> r == Failure(ExtractFailedMessage)
    ensures FileToGenerativePart(file, read).Success? ==>
      var outcome := UpscaleOutcome(generate(BuildRequest(FileToGenerativePart(file, read).value)));
      && (outcome.Failure? ==> r == Failure(UpscaleFailedMessage))
      && (outcome == Success(None) ==> r == Failure(NoImageMessage))
      && (outcome.Success? && outcome.value.Some? ==> r == Success(DataUrl(file.fileType, outcome.value.value)))
  {
    match FileToGenerativePart(file, read)
    case Failure(e) => Failure(ErrorMessage(e))
    case Success(imagePart) =>
      match UpscaleOutcome(generate(BuildRequest(imagePart)))
      case Failure(e) => Failure(ErrorMessage(e))
      case Success(resultBase64) =>
        if Truthy(resultBase64) then Success(DataUrl(imagePart.inlineData.mimeType, resultBase64.value))
        else Failure(ErrorMessage(Error(NoImageMessage)))
  }

  /** `handleImageUpload`, with `objectUrl` standing for `URL.createObjectURL(file)`. */
  function UploadNext(s: AppModel, file: File, objectUrl: string): AppModel {
    s.(originalFile := Some(file), originalImageUrl := Some(objectUrl), upscaledImageUrl := None, error := None)
  }

  /** `handleUpscale`, from the early return to the `finally`. */
  function UpscaleNext(s: AppModel, read: ReaderOutcome, generate: Request -> CallOutcome): AppModel {
    if s.originalFile.None? then s
    else
      var attempt := UpscaleAttempt(s.originalFile.value, read, generate);
      s.(isLoading := false,
         upscaledImageUrl := if attempt.Success? then Some(attempt.value) else None,
         error := if attempt.Failure? then Some(attempt.error) else None)
  }

  /** `isLoading || !!upscaledImageUrl`. */
  predicate UpscaleButtonDisabled(s: AppModel) {
    s.isLoading || Truthy(s.upscaledImageUrl)
  }

  /** `isLoading ? 'Upscaling...' : upscaledImageUrl ? 'Upscaled Successfully!' : 'Upscale to 2K'`. */
  function UpscaleButtonLabel(s: AppModel): string {
    if s.isLoading then UpscalingLabel
    else if Truthy(s.upscaledImageUrl) then UpscaledLabel
    else UpscaleLabel
  }

  /**
   * The states the handlers leave behind: nothing is loading, a file and its
   * preview URL come together, a result and an error never coexist, and a
   * result or an error belongs to the current file, the result URL carrying
   * that file's declared type.
   */
  ghost predicate Consistent(s: AppModel) {
    && !s.isLoading
    && (s.originalFile.Some? <==> s.originalImageUrl.Some?)
    && !(s.error.Some? && s.upscaledImageUrl.Some?)
    && (s.error.Some? ==> s.originalFile.Some?)
    && (s.upscaledImageUrl.Some? ==>
          s.originalFile.Some? &&
          exists payload :: payload != "" && s.upscaledImageUrl.value == DataUrl(s.originalFile.value.fileType, payload))
  }

  // ---------------------------------------------------------------------------
  // The component

  class AppState {
    var originalFile: Option<File>
    var originalImageUrl: Option<string>
    var upscaledImageUrl: Option<string>
    var isLoading: bool
    var error: Option<string>

    function Model(): AppModel
      reads this
    {
      AppModel(originalFile, originalImageUrl, upscaledImageUrl, isLoading, error)
    }

    ghost predicate Valid()
      reads this
    {
      Consistent(Model())
    }

    constructor ()
      ensures Model() == Initial && Valid()
    {
      originalFile := None;
      originalImageUrl := None;
      upscaledImageUrl := None;
      isLoading := false;
      error := None;
    }

    method HandleImageUpload(file: File, objectUrl: string)
      modifies this
      ensures Model() == UploadNext(old(Model()), file, objectUrl)
      ensures old(Valid()) ==> Valid()
    {
      originalFile := Some(file);
      originalImageUrl := Some(objectUrl);
      upscaledImageUrl := None;
      error := None;
    }

    method HandleReset()
      modifies this
      ensures Model() == Initial
      ensures Valid()
    {
      originalFile := None;
      originalImageUrl := None;
      upscaledImageUrl := None;
      error := None;
      isLoading := false;
    }

    method HandleUpscale(read: ReaderOutcome, generate: Request -> CallOutcome)
      modifies this
      ensures Model() == UpscaleNext(old(Model()), read, generate)
      ensures old(Valid()) ==> Valid()
    {
      if originalFile.None? {
        return;
      }
      ghost var before := Model();
      isLoading := true;
      error := None;
      upscaledImageUrl := None;

      var imagePart := FileToGenerativePart(originalFile.value, read);
      if imagePart.Failure? {
        error := Some(ErrorMessage(imagePart.error));
      } else {
        var resultBase64 := UpscaleImage(imagePart.value, generate);
        if resultBase64.Failure? {
          error := Some(ErrorMessage(resultBase64.error));
        } else if Truthy(resultBase64.value) {
          upscaledImageUrl := Some(DataUrl(imagePart.value.inlineData.mimeType, resultBase64.value.value));
        } else {
          error := Some(ErrorMessage(Error(NoImageMessage)));
        }
      }
      isLoading := false;
      if Consistent(before) {
        UpscaleKeepsConsistent(before, read, generate);
      }
    }
  }

  // ---------------------------------------------------------------------------
  // Properties of the transitions

  lemma InitialConsistent()
    ensures Consistent(Initial)
  {
  }

  /** An upload installs the file, clears the result and the error, and leaves `isLoading` alone. */
  lemma UploadKeepsConsistent(s: AppModel, file: File, objectUrl: string)
    requires Consistent(s)
    ensures Consistent(UploadNext(s, file, objectUrl))
    ensures UploadNext(s, file, objectUrl).isLoading == s.isLoading
  {
  }

  lemma UpscaleKeepsConsistent(s: AppModel, read: ReaderOutcome, generate: Request -> CallOutcome)
    requires Consistent(s)
    ensures Consistent(UpscaleNext(s, read, generate))
  {
  }

  /** Without a file, an upscale changes nothing. */
  lemma UpscaleWithoutFile(s: AppModel, read: ReaderOutcome, generate: Request -> CallOutcome)
    requires s.originalFile.None?
    ensures UpscaleNext(s, read, generate) == s
  {
  }

  /**
   * After an upscale attempt nothing is loading, exactly one of the error and
   * the result is set, and the file and its preview are kept.
   */
  lemma UpscaleSettles(s: AppModel, read: ReaderOutcome, generate: Request -> CallOutcome)
    requires s.originalFile.Some?
    ensures var t := UpscaleNext(s, read, generate);
      && !t.isLoading
      && (t.error.Some? <==> t.upscaledImageUrl.None?)
      && t.originalFile == s.originalFile
      && t.originalImageUrl == s.originalImageUrl
  {
  }

  /** In every state the handlers leave, the button is disabled iff a result exists, and its label says so. */
  lemma ButtonReflectsResult(s: AppModel)
    requires Consistent(s)
    ensures UpscaleButtonDisabled(s) <==> s.upscaledImageUrl.Some?
    ensures UpscaleButtonLabel(s) == (if s.upscaledImageUrl.Some? then UpscaledLabel else UpscaleLabel)
  {
  }

  /** While a call is pending the label says so and the button is disabled, whatever the result. */
  lemma LoadingLabel(s: AppModel)
    requires s.isLoading
    ensures UpscaleButtonLabel(s) == UpscalingLabel && UpscaleButtonDisabled(s)
  {
  }

  /** The label offers an upscale exactly when the button is enabled. */
  lemma LabelMatchesButton(s: AppModel)
    ensures UpscaleButtonLabel(s) == UpscaleLabel <==> !UpscaleButtonDisabled(s)
  {
  }

  // ---------------------------------------------------------------------------
  // End to end

  /** A result URL with a comma-free type and payload splits into its header and its payload. */
  lemma {:induction false} DataUrlFields(mimeType: string, base64: string)
    requires ',' !in mimeType && ',' !in base64
    ensures Split(DataUrl(mimeType, base64)) == ["data:" + mimeType + ";base64", base64]
  {
    var header := "data:" + mimeType + ";base64";
    assert DataUrl(mimeType, base64) == header + "," + base64;
    SplitAfterField(header, base64);
    SplitCommaFree(base64);
  }

  /** The payload written into a result URL is the payload the encoder extracts from it again. */
  lemma DataUrlRoundTrip(file: File, base64: string)
    requires ',' !in file.fileType && ',' !in base64 && base64 != ""
    ensures FileToGenerativePart(file, Loaded(StringResult(DataUrl(file.fileType, base64))))
         == Success(GenerativePart(InlineData(base64, file.fileType)))
  {
    var header := "data:" + file.fileType + ";base64";
    assert DataUrl(file.fileType, base64) == header + "," + base64;
    ExtractRoundTrip(file, header, base64);
  }

  /**
   * Upload a file whose read yields a data URL, have the model answer with an
   * image in its first candidate, and the result URL is that image with the
   * file's type; the preview stays.
   */
  lemma UploadThenUpscale(
    s: AppModel, file: File, objectUrl: string, base64: string,
    generate: Request -> CallOutcome, parts: seq<Part>, i: int, others: seq<Candidate>)
    requires ',' !in file.fileType && ',' !in base64 && base64 != ""
    requires generate(BuildRequest(GenerativePart(InlineData(base64, file.fileType))))
          == Responded(Response(Some([Candidate(Some(Content(Some(parts))))] + others)))
    requires IsFirstImage(parts, i)
    ensures var t := UpscaleNext(UploadNext(s, file, objectUrl), Loaded(StringResult(DataUrl(file.fileType, base64))), generate);
      && t.upscaledImageUrl == Some(DataUrl(file.fileType, ImageData(parts[i])))
      && t.error == None
      && t.originalImageUrl == Some(objectUrl)
  {
    DataUrlRoundTrip(file, base64);
    FirstImageDataAt(parts, i);
  }

  /** If the model answers with no image, the no-image message is shown and the preview stays. */
  lemma UploadThenNoImage(
    s: AppModel, file: File, objectUrl: string, base64: string,
    generate: Request -> CallOutcome, parts: seq<Part>, others: seq<Candidate>)
    requires ',' !in file.fileType && ',' !in base64 && base64 != ""
    requires generate(BuildRequest(GenerativePart(InlineData(base64, file.fileType))))
          == Responded(Response(Some([Candidate(Some(Content(Some(parts))))] + others)))
    requires forall k | 0 <= k < |parts| :: !HasImage(parts[k])
    ensures var t := UpscaleNext(UploadNext(s, file, objectUrl), Loaded(StringResult(DataUrl(file.fileType, base64))), generate);
      && t.error == Some(NoImageMessage)
      && t.upscaledImageUrl == None
      && t.originalImageUrl == Some(objectUrl)
  {
    DataUrlRoundTrip(file, base64);
    NoImageIsAbsence(parts, others);
  }
}
