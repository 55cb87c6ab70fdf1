/**
 * The remote enhancer client: `upscaleImage` builds a two-part request, hands
 * it to the generative model, and scans the first candidate of the response
 * for inline image data. The SDK client and the network are not modelled: the
 * model is a function from the request to the outcome of the call.
 */
module GeminiService {
  import opened Types

  const UpscalePrompt := "Upscale this image to 2K resolution (2048x1080). Enhance details, reduce noise, and improve overall clarity and sharpness. Do not add, remove, or change any objects in the image. Maintain the original aspect ratio as closely as possible within the 2K frame."
  const UpscaleFailedMessage := "Failed to upscale image with AI. Please check the console for more details."

  datatype Modality = ImageModality | TextModality

  /** A content part as the SDK sees it: every field may be absent (`undefined`). */
  datatype Blob = Blob(data: Option<string>, mimeType: Option<string>)
  datatype Part = Part(inlineData: Option<Blob>, text: Option<string>)
  datatype Content = Content(parts: Option<seq<Part>>)
  datatype Candidate = Candidate(content: Option<Content>)
  datatype Response = Response(candidates: Option<seq<Candidate>>)

  /** How `generateContent` ended: with a response, or by throwing. */
  datatype CallOutcome = Responded(response: Response) | CallFailed(cause: Thrown)

  datatype Request = Request(parts: seq<Part>, responseModalities: seq<Modality>)

  /** `contents.parts` and `config.responseModalities` of the call. */
  function BuildRequest(imagePart: GenerativePart): (req: Request)
    ensures req.parts == [Part(Some(Blob(Some(imagePart.inlineData.data), Some(imagePart.inlineData.mimeType))), None),
                          Part(None, Some(UpscalePrompt))]
    ensures req.responseModalities == [ImageModality, TextModality]
  {
    var image := Part(Some(Blob(Some(imagePart.inlineData.data), Some(imagePart.inlineData.mimeType))), None);
    Request([image, Part(None, Some(UpscalePrompt))], [ImageModality, TextModality])
  }

  /** `part.inlineData && part.inlineData.data`: the part carries non-empty inline data. */
  predicate HasImage(p: Part) {
    p.inlineData.Some? && Truthy(p.inlineData.value.data)
  }

  /** `part.inlineData.data`, which the guard has found truthy. */
  function ImageData(p: Part): (data: string)
    requires HasImage(p)
    ensures data != ""
    ensures p.inlineData.value.data == Some(data)
  {
    p.inlineData.value.data.value
  }

  /** Index `i` holds the first part that carries image data. */
  ghost predicate IsFirstImage(parts: seq<Part>, i: int) {
    && 0 <= i < |parts|
    && HasImage(parts[i])
    && forall j | 0 <= j < i :: !HasImage(parts[j])
  }

  /** The data of the first image-bearing part, if there is one. */
  function FirstImageData(parts: seq<Part>): (r: Option<string>)
    ensures r.Some? ==> r.value != ""
    decreases |parts|
  {
    if parts == [] then None
    else if HasImage(parts[0]) then Some(ImageData(parts[0]))
    else FirstImageData(parts[1..])
  }

  /** The `for … of` scan with its early return. */
  method FindFirstImage(parts: seq<Part>) returns (r: Option<string>)
    ensures r == FirstImageData(parts)
  {
    for i := 0 to |parts|
      invariant FirstImageData(parts[i..]) == FirstImageData(parts)
    {
      assert parts[i..][1..] == parts[i + 1..];
      if HasImage(parts[i]) {
        return Some(ImageData(parts[i]));
      }
    }
    assert parts[|parts|..] == [];
    return None;
  }

  /** `response.candidates[0].content.parts`; `None` where that expression throws a `TypeError`. */
  function FirstCandidateParts(response: Response): (parts: Option<seq<Part>>)
    ensures parts.None? <==>
      || response.candidates.None?
      || response.candidates.value == []
      || response.candidates.value[0].content.None?
      || response.candidates.value[0].content.value.parts.None?
    ensures parts.Some? ==> parts == response.candidates.value[0].content.value.parts
  {
    match response.candidates
    case None => None
    case Some(candidates) =>
      if candidates == [] then None
      else match candidates[0].content
        case None => None
        case Some(content) => content.parts
  }

  /** What `upscaleImage` resolves or rejects with, given how the call ended. */
  function UpscaleOutcome(call: CallOutcome): (r: Result<Option<string>, Thrown>)
    ensures r.Failure? ==> r.error == Error(UpscaleFailedMessage)
    ensures call.CallFailed? ==> r.Failure?
    ensures call.Responded? && call.response.candidates == Some([]) ==> r.Failure?
    ensures r.Failure? <==> call.CallFailed? || FirstCandidateParts(call.response).None?
    ensures r.Success? && r.value.Some? ==> r.value.value != ""
  {
    match call
    case CallFailed(_) => Failure(Error(UpscaleFailedMessage))
    case Responded(response) =>
      match FirstCandidateParts(response)
      case None => Failure(Error(UpscaleFailedMessage))
      case Some(parts) => Success(FirstImageData(parts))
  }

  /** The whole call: build the request, ask the model, scan the first candidate, map any failure. */
  method UpscaleImage(imagePart: GenerativePart, generate: Request -> CallOutcome) returns (r: Result<Option<string>, Thrown>)
    ensures r == UpscaleOutcome(generate(BuildRequest(imagePart)))
  {
    var call := generate(BuildRequest(imagePart));
    if call.CallFailed? {
      return Failure(Error(UpscaleFailedMessage));
    }
    var parts := FirstCandidateParts(call.response);
    if parts.None? {
      return Failure(Error(UpscaleFailedMessage));
    }
    var found := FindFirstImage(parts.value);
    return Success(found);
  }

  // ---------------------------------------------------------------------------
  // Properties of the scan

  /** A result is the data of the first image-bearing part: no earlier part carries usable image data. */
  lemma {:induction false} FirstImageDataIsFirst(parts: seq<Part>)
    requires FirstImageData(parts).Some?
    ensures exists i :: IsFirstImage(parts, i) && ImageData(parts[i]) == FirstImageData(parts).value
    decreases |parts|
  {
    if HasImage(parts[0]) {
      assert IsFirstImage(parts, 0);
    } else {
      FirstImageDataIsFirst(parts[1..]);
      var i :| IsFirstImage(parts[1..], i) && ImageData(parts[1..][i]) == FirstImageData(parts[1..]).value;
      assert IsFirstImage(parts, i + 1) by {
        forall j | 0 <= j < i + 1 ensures !HasImage(parts[j]) {
          if j > 0 { assert parts[j] == parts[1..][j - 1]; }
        }
      }
    }
  }

  /** Wherever the first image-bearing part stands, its data is the result. */
  lemma {:induction false} FirstImageDataAt(parts: seq<Part>, i: int)
    requires IsFirstImage(parts, i)
    ensures FirstImageData(parts) == Some(ImageData(parts[i]))
    decreases |parts|
  {
    if i > 0 {
      assert !HasImage(parts[0]);
      assert IsFirstImage(parts[1..], i - 1) by {
        forall j | 0 <= j < i - 1 ensures !HasImage(parts[1..][j]) { assert parts[1..][j] == parts[j + 1]; }
      }
      FirstImageDataAt(parts[1..], i - 1);
    }
  }

  /** No result exactly when no part carries image data; parts with empty or absent data are skipped. */
  lemma {:induction false} FirstImageDataAbsent(parts: seq<Part>)
    ensures FirstImageData(parts).None? <==> forall i | 0 <= i < |parts| :: !HasImage(parts[i])
    decreases |parts|
  {
    if parts != [] {
      FirstImageDataAbsent(parts[1..]);
      if !HasImage(parts[0]) {
        forall i | 0 < i < |parts| ensures parts[i] == parts[1..][i - 1] { }
      }
    }
  }

  // ---------------------------------------------------------------------------
  // Properties of the call

  /** A first candidate whose parts carry no image yields `null`, which is not an error. */
  lemma NoImageIsAbsence(parts: seq<Part>, others: seq<Candidate>)
    requires forall i | 0 <= i < |parts| :: !HasImage(parts[i])
    ensures UpscaleOutcome(Responded(Response(Some([Candidate(Some(Content(Some(parts))))] + others)))) == Success(None)
  {
    FirstImageDataAbsent(parts);
  }

  /**
   * The call fails exactly when it throws or `candidates[0].content.parts`
   * throws a `TypeError`: no candidates, an empty list, a first candidate
   * without content, or content without parts.
   */
  lemma UpscaleFailsExactly(call: CallOutcome)
    ensures UpscaleOutcome(call).Failure? <==>
      || call.CallFailed?
      || call.response.candidates.None?
      || call.response.candidates.value == []
      || call.response.candidates.value[0].content.None?
      || call.response.candidates.value[0].content.value.parts.None?
  {
  }

  /** A first candidate with parts succeeds with whatever the scan of those parts finds. */
  lemma FirstCandidateScanned(parts: seq<Part>, others: seq<Candidate>)
    ensures UpscaleOutcome(Responded(Response(Some([Candidate(Some(Content(Some(parts))))] + others))))
         == Success(FirstImageData(parts))
  {
  }

  /** Candidates after the first never affect the outcome. */
  lemma LaterCandidatesIgnored(first: Candidate, others1: seq<Candidate>, others2: seq<Candidate>)
    ensures UpscaleOutcome(Responded(Response(Some([first] + others1))))
         == UpscaleOutcome(Responded(Response(Some([first] + others2))))
  {
  }
}
