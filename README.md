# Photo upscaler core, modelled in Dafny

This project models the logic of a small browser app. The user uploads a JPG or
PNG photo. The app reads the photo as a data URL and keeps the base64 payload.
It sends the payload with a fixed prompt to a remote generative model. Then it
shows the first inline image of the model's first candidate, or an error.

The model has five modules, one per source file plus one for shared types:

- `Types` (`types.dfy`) holds `Option`, `Result`, `Thrown` and `File`. `Thrown`
  is what a `throw` or `reject` carries: an `Error` with its message, or some
  other value. `File` is a browser file, reduced to its name and `file.type`.
  `GenerativePart` is `{ inlineData: { data, mimeType } }`. `Truthy` is
  JavaScript truthiness for an optional string. The repository's `types`
  module is not part of this model.
- `ImageUtils` (`image_utils.dfy`, pure) models `fileToGenerativePart`.
  `ReaderOutcome` is how the `FileReader` ended: `onloadend` with a string or a
  non-string result, or `onerror` with the value it was given. `Split` is
  JavaScript's `split(',')` and `Join` is its inverse. `SecondField` is
  `split(',')[1]`, with `None` for `undefined`.
- `GeminiService` (`gemini_service.dfy`, mixed) models `upscaleImage`. The SDK
  response is a datatype. Each field the code reaches through
  (`candidates`, `content`, `parts`) is optional, because reading a missing one
  throws a `TypeError` inside the `try`. The remote model is a parameter
  `generate: Request -> CallOutcome`. `FindFirstImage` is the `for … of` loop.
  It is proved against the recursive `FirstImageData`.
- `ImageUploader` (`image_uploader.dfy`, imperative) models the upload
  component as a class `Uploader`. Its fields are `isDragging` and `error`,
  plus `uploads`: the files handed to the `onImageUpload` callback, in order.
- `App` (`app.dfy`, imperative) models the top-level component as a class
  `AppState` with the five state fields. `Model()` is a snapshot `AppModel` of
  those fields. Each handler's new snapshot is given by a function
  (`UploadNext`, `UpscaleNext`, or the constant `Initial` for reset).
  `Consistent` is the invariant that every handler keeps.
  `handleUpscale` is one atomic transition. Its inputs are the reader's outcome
  for the current file and the remote model.

Three behaviours of the code worth knowing:

- A reader failure rejects with the value `onerror` receives, unchanged. In a
  browser that value is a `ProgressEvent`, not an `Error`, so the app shows
  "An unknown error occurred during upscaling." rather than an encoding
  message (`ErrorMessage`, `UpscaleAttempt`).
- The client does not look at every candidate. It scans only the first
  candidate's parts. A response with no candidates, or a first candidate with
  no content or no parts, is an error, not an absence (`UpscaleOutcome`).
- The result URL takes its media type from the uploaded file's declared type.
  It ignores any `mimeType` the model returns (`DataUrl`, `UpscaleAttempt`).

## Model

| member | source | states |
|---|---|---|
| `ImageUtils.Split` | utils/imageUtils.ts:11 | `split(',')` gives at least one field. No field contains a comma. Joining the fields with commas gives back the input. |
| `ImageUtils.SplitJoin` | utils/imageUtils.ts:11 | For a non-empty list of comma-free fields, splitting their join gives the same fields back. |
| `ImageUtils.SecondField` | utils/imageUtils.ts:11 | `split(',')[1]`. When present it holds no comma. The lemmas below characterise it. |
| `ImageUtils.SecondFieldAbsent` | utils/imageUtils.ts:11-13 | `split(',')[1]` is `undefined` exactly when the text has no comma. |
| `ImageUtils.SecondFieldDecomposes` | utils/imageUtils.ts:11 | A second field is the whole text between the first comma and the next comma or the end. |
| `ImageUtils.SecondFieldOfDecomposition` | utils/imageUtils.ts:11 | The converse: whatever stands between the first comma and the next comma (or the end) is `split(',')[1]`. |
| `ImageUtils.FileToGenerativePart` | utils/imageUtils.ts:7-22 | A reader error rejects with the same value. A non-string result fails with "Failed to read file as string.". A success has the file's declared type as `mimeType`, and its payload is non-empty and comma-free. |
| `ImageUtils.PayloadBetweenCommas` | utils/imageUtils.ts:8-20 | Success implies the reader gave a string. The payload is exactly the text between that string's first comma and the next one, or the end. |
| `ImageUtils.ExtractFailsWithoutPayload` | utils/imageUtils.ts:11-13 | For a string result, the operation fails with "Failed to extract base64 data from file." exactly when there is no comma or nothing follows the first comma. |
| `ImageUtils.ExtractRoundTrip` | utils/imageUtils.ts:11-19 | Reading `header + "," + body` yields `{data: body, mimeType: file.type}`, for a comma-free header and a non-empty, comma-free body. |
| `GeminiService.BuildRequest` | services/geminiService.ts:20-28 | The request's parts are exactly the image part (payload and type unchanged, no text), then a part holding only the fixed prompt text. The response modalities are exactly `[IMAGE, TEXT]`, in that order. |
| `GeminiService.HasImage` | services/geminiService.ts:33 | `part.inlineData && part.inlineData.data`: inline data is present and non-empty. Its use is stated in `GeminiService.FirstImageDataIsFirst` and `GeminiService.FirstImageDataAbsent`. |
| `GeminiService.ImageData` | services/geminiService.ts:34 | `part.inlineData.data` of a part that passed the guard: the part's own data, and non-empty. |
| `GeminiService.FirstCandidateParts` | services/geminiService.ts:32 | `candidates[0].content.parts`. It is absent exactly on the paths where that expression throws: no candidates, an empty list, a first candidate without content, or content without parts. Otherwise it is the first candidate's parts. |
| `GeminiService.FirstImageData` | services/geminiService.ts:32-36 | Any data the scan returns is non-empty. |
| `GeminiService.FindFirstImage` | services/geminiService.ts:32-39 | The loop with its early return computes `FirstImageData` of the parts. |
| `GeminiService.FirstImageDataIsFirst` | services/geminiService.ts:32-35 | A result is the data of a part with non-empty inline data, and no earlier part has any. |
| `GeminiService.FirstImageDataAt` | services/geminiService.ts:32-35 | Wherever the first image-bearing part stands in the list, its data is the result. |
| `GeminiService.FirstImageDataAbsent` | services/geminiService.ts:32-39 | The scan finds nothing exactly when no part has non-empty inline data. Parts with empty or absent data are skipped. |
| `GeminiService.UpscaleOutcome` | services/geminiService.ts:14-44 | Every failure is the one fixed message "Failed to upscale image with AI. …", whatever the cause. The outcome is a failure exactly when the call throws or `FirstCandidateParts` is absent. A failed call fails. An empty candidate list fails. Returned data is non-empty. |
| `GeminiService.UpscaleFailsExactly` | services/geminiService.ts:18-44 | The call fails exactly when it throws, or the response has no candidates, an empty candidate list, a first candidate without content, or content without parts. |
| `GeminiService.UpscaleImage` | services/geminiService.ts:14-44 | The call sends `BuildRequest(imagePart)` to the model and returns `UpscaleOutcome` of the answer. |
| `GeminiService.FirstCandidateScanned` | services/geminiService.ts:32-39 | When the first candidate has parts, the call succeeds with the scan of those parts: the first image's data, or `null`. |
| `GeminiService.NoImageIsAbsence` | services/geminiService.ts:38-39 | A first candidate whose parts carry no image data yields `null` (`Success(None)`), not an error. |
| `GeminiService.LaterCandidatesIgnored` | services/geminiService.ts:32 | Candidates after index 0 never change the outcome. |
| `ImageUploader.IsAcceptedType` | components/ImageUploader.tsx:16 | The allow-list accepts exactly `image/jpeg` and `image/png`. |
| `ImageUploader.FirstFile` | components/ImageUploader.tsx:45-46 | A file is chosen exactly when the list is present and non-empty, and it is the first one. |
| `ImageUploader.ErrorAfter` | components/ImageUploader.tsx:14-20 | A message remains exactly for a present file of a type outside the allow-list. It is "Invalid file type. Please upload a JPG or PNG image.". |
| `ImageUploader.Accepted` | components/ImageUploader.tsx:15-17 | At most one file reaches the callback. One does exactly when a present file has an allowed type, and it is that file. |
| `ImageUploader.UploadOrError` | components/ImageUploader.tsx:15-20 | For a present file, exactly one happens: the callback gets it, or the error is set. |
| `ImageUploader.Uploader.constructor` | components/ImageUploader.tsx:10-11 | Not dragging, no error, nothing uploaded yet. |
| `ImageUploader.Uploader.HandleFile` | components/ImageUploader.tsx:13-22 | The new error depends only on this file, because the old one is cleared first. An accepted file is appended to the uploads. `isDragging` is not touched. |
| `ImageUploader.Uploader.HandleDragEnter` | components/ImageUploader.tsx:24-28 | Sets `isDragging`. Nothing else changes. |
| `ImageUploader.Uploader.HandleDragLeave` | components/ImageUploader.tsx:30-34 | Clears `isDragging`. Nothing else changes. |
| `ImageUploader.Uploader.HandleDrop` | components/ImageUploader.tsx:41-48 | Clears `isDragging`. Then it handles only the first dropped file. An empty or missing list changes neither the error nor the uploads. |
| `ImageUploader.Uploader.HandleFileChange` | components/ImageUploader.tsx:54-58 | Handles only the first chosen file. An empty or missing list changes nothing. |
| `App.DataUrl` | App.tsx:44 | The result URL is `data:`, then the MIME type, then `;base64,`, then the payload, at those exact positions, and nothing else. |
| `App.DataUrlFields` | App.tsx:44 | For a comma-free type and a comma-free payload, the URL splits on commas into exactly two fields: `data:<type>;base64` and the payload. |
| `App.ErrorMessage` | App.tsx:52 | The message shown for a caught value: an `Error`'s own message, otherwise "An unknown error occurred during upscaling.". Its properties are stated through `App.UpscaleAttempt`. |
| `App.UpscaleAttempt` | App.tsx:39-52 | A reader error shows `ErrorMessage` of the value `onerror` received. That is the value's own message if it is an `Error`, otherwise "An unknown error occurred during upscaling.", as for a browser `ProgressEvent`. A non-string result shows "Failed to read file as string.". A missing payload shows "Failed to extract base64 data from file.". A remote failure shows the service's fixed message. A `null` result shows "The AI model did not return an image. Please try again.". An image gives `DataUrl(file.type, data)`. |
| `App.UploadNext` | App.tsx:17-22 | The state after `handleImageUpload`. Its properties are stated in `App.UploadKeepsConsistent` and `App.AppState.HandleImageUpload`. |
| `App.UpscaleNext` | App.tsx:32-56 | The state after `handleUpscale`. Its properties are stated in `App.UpscaleWithoutFile`, `App.UpscaleSettles` and `App.UpscaleKeepsConsistent`. |
| `App.UpscaleButtonDisabled` | App.tsx:76 | Disabled while `isLoading` is set or `upscaledImageUrl` is truthy in JavaScript's sense. Its meaning is stated in `App.ButtonReflectsResult` and `App.LabelMatchesButton`. |
| `App.UpscaleButtonLabel` | App.tsx:79 | "Upscaling...", then "Upscaled Successfully!", then "Upscale to 2K", in that priority. Its meaning is stated in `App.LoadingLabel`, `App.ButtonReflectsResult` and `App.LabelMatchesButton`. |
| `App.AppState.constructor` | App.tsx:11-15 | All four nullable fields start null and `isLoading` starts false. This state is consistent. |
| `App.AppState.HandleImageUpload` | App.tsx:17-22 | Installs the file and its preview URL. Clears the result and the error. Leaves `isLoading` unchanged. A consistent state stays consistent. |
| `App.AppState.HandleReset` | App.tsx:24-30 | Ends in the initial state whatever the prior state, so reset is idempotent. |
| `App.AppState.HandleUpscale` | App.tsx:32-56 | The new state is `UpscaleNext` of the old one. A consistent state stays consistent. |
| `App.InitialConsistent` | App.tsx:11-15 | The initial state satisfies the invariant. |
| `App.UploadKeepsConsistent` | App.tsx:17-22 | An upload keeps the invariant and leaves `isLoading` unchanged. |
| `App.UpscaleKeepsConsistent` | App.tsx:32-56 | An upscale keeps the invariant. In particular, a result URL carries the current file's type and a non-empty payload. |
| `App.UpscaleWithoutFile` | App.tsx:33 | Without a file, an upscale changes nothing. |
| `App.UpscaleSettles` | App.tsx:35-55 | After an attempt `isLoading` is false, and exactly one of `error` and `upscaledImageUrl` is set. The file and its preview are kept. |
| `App.ButtonReflectsResult` | App.tsx:76-79 | In a consistent state, the button is disabled exactly when a result exists. The label is then "Upscaled Successfully!", otherwise "Upscale to 2K". |
| `App.LoadingLabel` | App.tsx:76-79 | While `isLoading` is set, the label is "Upscaling..." and the button is disabled, whatever the result. |
| `App.LabelMatchesButton` | App.tsx:76-79 | In any state, the label reads "Upscale to 2K" exactly when the button is enabled. |
| `App.DataUrlRoundTrip` | App.tsx:44 | The payload written into a result URL is exactly the payload the encoder extracts from that URL. |
| `App.UploadThenUpscale` | App.tsx:17-45 | Upload a file and read it as a data URL. If the model's first candidate holds an image part, the result URL is that image with the file's type, with no error, and the preview remains. |
| `App.UploadThenNoImage` | App.tsx:17-52 | If the first candidate holds no image part, the error is the no-image message, there is no result, and the preview remains. |

## Left out

- The `FileReader` callback and promise machinery, and the browser's base64
  encoding (utils/imageUtils.ts:5-7, 23). The reader's outcome is an input.
  So nothing is proved about the decoded length of the payload.
- The SDK client, the network call and the model name
  (services/geminiService.ts:2, 11-12). The model is the parameter `generate`.
- The `API_KEY` check when the module loads (services/geminiService.ts:5-9).
  It is startup configuration, not per-call logic.
- The `console.error` logging (App.tsx:51, services/geminiService.ts:42). It is
  a side effect only.
- `URL.createObjectURL` (App.tsx:19). The preview URL is the opaque
  `objectUrl` parameter of `HandleImageUpload`.
- The async interleaving inside `handleUpscale`. The model treats it as one
  transition, so the `isLoading = true` state between its first and last step
  is never observed. In the source, only the upscale button is disabled
  during a call. The "Upload New Image" button (App.tsx:81-86) stays enabled.
  So a user can reset, upload a new file and start a second upscale while the
  first call is still pending (App.tsx:29, 63-64). The runs then overlap. A late
  first run's `setUpscaledImageUrl`, `setError` and `setIsLoading(false)`
  (App.tsx:45, 52, 54) land on the reset state or on the new file's state. A
  result or error can then be attached to the wrong file, or `isLoading` can be
  cleared while the second call is still running. `Consistent`, and the lemmas
  that it is preserved, describe the atomic model only.
- `handleDragOver` and `handleClick` (components/ImageUploader.tsx:36-39,
  50-52). They only call `preventDefault`/`stopPropagation` or forward a click
  to the hidden input.
- All JSX rendering: ImagePreview, Button, Header, and the view tree of App and
  ImageUploader. These are presentation only.
- How React batches `setState` calls. Each handler's setters are applied in
  program order, and the final values are the same.
- The uploader's `onImageUpload` callback is recorded in `uploads` and is not
  wired to `App.AppState.HandleImageUpload`. The app's upload handler is
  modelled on its own.
