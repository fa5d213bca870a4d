# FoodLess core, modelled in Dafny

FoodLess (饭缩力) is a web application that helps people resist food
cravings. The user photographs a dish, and the application runs a
deterministic "oily" filter over the photo to make it look unappetising. An
AI then writes dissuasive or motivating text about it, and the conversation
is kept as a session.

This project models the parts of the application that have rules worth
stating:

- **The image filter of the `useFoodLessApp` hook** (`ImageFilter`, `Pixels`).
  The hook turns the configured parameters into numbers, reading each one as
  `value || default`. `processImageData` then works on the RGBA byte buffer
  (length 4·w·h) of the downscaled canvas in two passes:
  - pass 1 fills a separate edge buffer with a Sobel-style gradient
    magnitude of the luma, for every interior pixel;
  - pass 2 rewrites R, G and B of every pixel in place: desaturate, then a
    highlight or shadow tone shift, contrast around 128, brightness, an
    edge-only sharpness factor, and finally a clamp.

  `DetectEdges` and `RemapColours` are the two loops, kept as loops over an
  `array`. They are proved equal to `EdgeMap` and `RemappedImage`, which are
  functions of the original buffer.
- **The rest of the hook** (`FoodLessApp`): the fit-to-box resize ratio, the
  `AppState` updaters of `handleBack`, `handleResume` and
  `handleImageUpload`, and the decision `checkAndProceed` makes on each
  100 ms poll.
- **`src/utils/index.ts`** (`Utils`): the second in-place filter
  `applyOilyFilter`, the class-name combiner `cn`, the two length validators
  and `parseAPIError`.
- **`src/utils/migration.ts`** (`Migration`): the grouping of local messages
  into sessions at gaps of more than one hour, the reason extraction, the
  counting in `migrateConversations`, `migrateToCloud` and the estimate of
  `getMigrationStats`.
- **The components' rules**:
  - message selection and the view toggles of the result page
    (`ResultDisplay`);
  - the two input fields, modelled as classes whose methods update the
    field state and record what was handed to `onSubmit` (`DialogueInput`,
    `FoodInput`);
  - the record page's checks before sending and its last-15 context window
    (`RecordPage`);
  - the day labels and the session restore of the history page
    (`VictoryLog`).

Shared records are in `Types`:
- `ChatMessage` and `AppState` (the interface at `src/types/index.ts:49-55`,
  extended with the upload, the reason and the session id the hook keeps);
- the JavaScript string operations `trim`, `join`, `substring` and `includes`
  are in `Strings`.

Modelling choices:
- Arithmetic is exact over `real`. IEEE-754 rounding is not modelled.
- Storing into a `Uint8ClampedArray` is modelled exactly as ECMAScript
  ToUint8Clamp: clamp to [0, 255], then round half to even (`Pixels.ToByte`).
- `Math.sqrt` is never needed. The stored byte of `sqrt(m)` is found from
  `m` by comparing it with the squares (n + 0.5)², and `Pixels.SqrtByteIsStoreOfRoot`
  proves that this is the store of the exact root.
- A JavaScript value that may be `undefined` is an `Option`. A number read
  with `|| d` falls back to `d` when it is missing or 0.
- Database, network and timer results are parameters:
  - whether each session or row was created;
  - whether the awaited `onSubmit` resolved;
  - the elapsed time and whether the AI has finished.
- Dates are epoch milliseconds.
- String lengths count UTF-16 code units in the source. Here they count
  `char`s. The two agree for the Chinese text the application handles.

Notes on the filter's behaviour:
- The code rewrites the canvas buffer in place; it does not return a new
  buffer.
- The code checks no parameter: a zero falls back to its default, and any
  other value is used as given.
- The resize ratio `min(800/w, 800/h)` also enlarges images smaller than
  800 pixels. It does not only shrink them.
- A black/white boundary is detected: the centre of a 3×3 image whose left
  column is black and the rest white has edge entry 128, above the default
  threshold 30, and is remapped on the sharpened path
  (`ImageFilter.BoundaryIsEdge`, `ImageFilter.BoundaryIsSharpened`).
- A near-black pixel (10, 10, 10) is stored as (0, 0, 0) with the default
  parameters. Without the shadow cast it would be stored the same way:
  every channel is negative after contrast and brightness. So the shift
  towards blue is not visible in the stored bytes
  (`ImageFilter.NearBlackClampsToBlack`).
- A mid-grey 4×4 image becomes (96, 96, 96) everywhere
  (`ImageFilter.MidGreyWithDefaults`, `ImageFilter.UniformImage`).
- White becomes (255, 255, 208). Contrast and brightness alone would give
  (229, 229, 229) (`ImageFilter.WhiteTurnsYellowGreen`).
- The configuration endpoint (`src/app/api/[[...route]]/routes/misc.ts:73-74`)
  serves the client filter block. That block is the same set of values as
  the exception fallback at `src/hooks/useFoodLessApp.ts:111-119`
  (`ImageFilter.ExceptionFallbackSettings`), not the literal defaults
  30 / 180 / 80 / 0.9 / 1.4 / 0.75 / 1.2.

## Model

| member | source | states |
|---|---|---|
| Strings.Trim | src/components/DialogueInput.tsx:30 | `String.prototype.trim`: the result has no leading or trailing whitespace and is no longer than the input |
| Strings.JoinAppend | src/utils/index.ts:32 | `join(' ')` of two non-empty lists is their joins with one separator between them |
| Pixels.Luma | src/hooks/useFoodLessApp.ts:371-377 | the grey value 0.299R + 0.587G + 0.114B lies in [0, 255] and equals the channel value for a grey pixel |
| Pixels.Clamp | src/hooks/useFoodLessApp.ts:481-483 | `Math.max(0, Math.min(255, v))` lies in [0, 255], is `v` inside the range, 0 below it and 255 above it |
| Pixels.ToByte | src/hooks/useFoodLessApp.ts:481-483 | defines the Uint8ClampedArray store (ToUint8Clamp): 0 at or below 0, 255 at or above 255, otherwise the nearest byte with ties to even; its properties are the lemmas below |
| Pixels.ToByteIsNearest | src/hooks/useFoodLessApp.ts:481-483 | the Uint8ClampedArray store sends everything at or below 0 to 0, at or above 255 to 255, and rounds the rest to within one half |
| Pixels.ToByteOfByte | src/hooks/useFoodLessApp.ts:481-483 | a whole number in [0, 255] is stored unchanged |
| Pixels.ToByteMonotone | src/hooks/useFoodLessApp.ts:481-483 | the store never gives a smaller byte for a larger value |
| Pixels.ToByteOfClamp | src/hooks/useFoodLessApp.ts:481-483 | the explicit clamp before the store changes nothing, because the store clamps by itself |
| Pixels.StoreInsideInterval | src/hooks/useFoodLessApp.ts:481-483 | a value strictly within half a unit of byte `n` is stored as `n` |
| Pixels.StoreAtHalf | src/hooks/useFoodLessApp.ts:481-483 | a value exactly half-way between `n` and `n + 1` is stored as the even one |
| Pixels.SqrtByte | src/hooks/useFoodLessApp.ts:414-415 | defines the stored byte of `Math.sqrt(m)` as the first n whose (n + 0.5)² bounds m, with the tie rule; SqrtByteIsStoreOfRoot ties it to ToByte of the root |
| Pixels.SqrtByteFromIsStore | src/hooks/useFoodLessApp.ts:414-415 | from byte `n` on, the scan over squares makes the same decision as storing the root |
| Pixels.SqrtByteIsStoreOfRoot | src/hooks/useFoodLessApp.ts:414-415 | the byte computed from gx² + gy² is exactly the store of Math.sqrt of it |
| Pixels.SquareOrder | src/hooks/useFoodLessApp.ts:414-415 | for non-negative reals, squaring preserves and reflects `<` and `==` |
| Pixels.SqrtByteOfZero | src/hooks/useFoodLessApp.ts:414-415 | a zero gradient stores magnitude 0 |
| ImageFilter.Resolve | src/hooks/useFoodLessApp.ts:427-474 | without a filter block every parameter is its literal default |
| ImageFilter.ResolveFallsBackFieldByField | src/hooks/useFoodLessApp.ts:427-474 | each parameter is its default (30, 180, 80, 0.9, 1.4, 0.75, 1.2) exactly when missing or 0, and is used as given otherwise |
| ImageFilter.ExceptionFallbackDiffersFromDefaults | src/hooks/useFoodLessApp.ts:111-119 | the block installed when loading the configuration throws resolves to (25, 200, 60, 0.7, 1.2, 0.8, 1.1), which differs from the defaults |
| ImageFilter.GrayValue | src/hooks/useFoodLessApp.ts:371-377 | `getGrayValue` of pixel `index` reads its R, G, B bytes and lies in [0, 255] |
| ImageFilter.EdgeMapAt | src/hooks/useFoodLessApp.ts:388-417 | the edge entry of pixel (x, y) is its gradient magnitude when 1 ≤ x ≤ w-2 and 1 ≤ y ≤ h-2, and 0 on the border |
| ImageFilter.EdgeMapEntry | src/hooks/useFoodLessApp.ts:388-417 | the edge entry of pixel `p` is its magnitude exactly when `p` is interior, and 0 otherwise |
| ImageFilter.EdgeMap | src/hooks/useFoodLessApp.ts:386-417 | the edge buffer has the length of the pixel buffer, entry by entry as EdgeMapEntry states |
| ImageFilter.BorderIsNeverEdge | src/hooks/useFoodLessApp.ts:388-427 | a border pixel has edge entry 0 and is never an edge for a non-negative threshold |
| ImageFilter.NarrowImageHasNoEdges | src/hooks/useFoodLessApp.ts:388-417 | an image under 3 pixels wide or tall has an all-zero edge buffer |
| ImageFilter.BoundaryIsEdge | src/hooks/useFoodLessApp.ts:391-416 | at a black/white boundary (3×3, left column black) the centre's gradient is (127.5, 0) and its edge entry is 128, above the default threshold 30 |
| ImageFilter.BoundaryGradient | src/hooks/useFoodLessApp.ts:395-411 | the Sobel sums at the centre of that image are gx = 127.5 and gy = 0 |
| ImageFilter.BoundaryStrength | src/hooks/useFoodLessApp.ts:414-415 | the stored magnitude there is `Math.sqrt(127.5²)` = 127.5 stored as the even byte 128 |
| ImageFilter.BoundaryIsSharpened | src/hooks/useFoodLessApp.ts:427-478 | for any threshold below 128 the white centre of that image is remapped with `isEdge` true, so its channels are multiplied by the sharpness |
| ImageFilter.UniformStrength | src/hooks/useFoodLessApp.ts:393-415 | an interior pixel of a one-colour image has gradient magnitude 0 |
| ImageFilter.FlatGradients | src/hooks/useFoodLessApp.ts:393-411 | where all eight neighbours have equal luma, both Sobel sums are 0 |
| ImageFilter.DesaturateKeepsAverage | src/hooks/useFoodLessApp.ts:430-435 | desaturation keeps the sum of the channels, gives a grey at factor 1 and changes nothing at factor 0 |
| ImageFilter.Desaturate | src/hooks/useFoodLessApp.ts:430-434 | defines each channel as `c·(1 − d) + avg·d`; DesaturateKeepsAverage states what it keeps |
| ImageFilter.Oiliness | src/hooks/useFoodLessApp.ts:438-445 | for a highlight the oiliness lies in (0, 1], so its division is never by zero |
| ImageFilter.Coldness | src/hooks/useFoodLessApp.ts:446-452 | for a shadow the coldness lies in (0, 1], so its division is never by zero |
| ImageFilter.ToneBranches | src/hooks/useFoodLessApp.ts:438-458 | the highlight test comes first; the two branches are exclusive and strict; a pixel at either threshold, or between them, is not shifted |
| ImageFilter.ToneShift | src/hooks/useFoodLessApp.ts:438-458 | defines the casts: highlight +40·oiliness, +35·oiliness, −20·oiliness; shadow −15·coldness, +10·coldness, +25·coldness; a midtone is left alone |
| ImageFilter.TonedReadsToneFields | src/hooks/useFoodLessApp.ts:426-458 | desaturation and tone shift read only the desaturation factor and the two tone thresholds |
| ImageFilter.NonEdgeIgnoresSharpness | src/hooks/useFoodLessApp.ts:472-478 | a non-edge pixel's output does not depend on the sharpness parameter |
| ImageFilter.SharpenScales | src/hooks/useFoodLessApp.ts:460-478 | on an edge, a channel after contrast and brightness is multiplied by the sharpness, and by nothing else |
| ImageFilter.Finish | src/hooks/useFoodLessApp.ts:460-478 | defines the post-tone channel: contrast around 128, then brightness, then the sharpness factor on an edge only |
| ImageFilter.RemapPixel | src/hooks/useFoodLessApp.ts:426-483 | defines a pixel's new R, G, B as the store of Finish applied to its toned channels; the lemmas around it state its behaviour |
| ImageFilter.SharpenedChannelNotDarker | src/hooks/useFoodLessApp.ts:472-483 | with sharpness ≥ 1, a channel is stored at least as bright on an edge as off one |
| ImageFilter.ScaledNotSmaller | src/hooks/useFoodLessApp.ts:472-483 | scaling by a factor ≥ 1 never lowers the clamped store |
| ImageFilter.StoreMonotone | src/hooks/useFoodLessApp.ts:481-483 | the clamped store is monotone |
| ImageFilter.EdgeIsNeverDarker | src/hooks/useFoodLessApp.ts:472-483 | with sharpness ≥ 1, an edge pixel is at least as bright in every channel as the same pixel off an edge |
| ImageFilter.WriteColoursPixel | src/hooks/useFoodLessApp.ts:420-485 | after the first `n` pixels are written, each pixel holds its new colour if it is below `n` and its old one otherwise; alpha is never changed |
| ImageFilter.NewColoursAt | src/hooks/useFoodLessApp.ts:420-480 | colour number `p` is computed from pixel `p`'s own bytes and edge entry |
| ImageFilter.RemappedPixel | src/hooks/useFoodLessApp.ts:420-485 | in the remapped buffer every pixel holds the new colour of its own bytes and keeps its alpha |
| ImageFilter.FilteredPixel | src/hooks/useFoodLessApp.ts:382-488 | each output pixel is the remap of its original R, G, B, classified by the edge map of the original image, with alpha unchanged |
| ImageFilter.FilteredImage | src/hooks/useFoodLessApp.ts:382-488 | the buffer processImageData leaves behind has the original length; its pixels are described by FilteredPixel |
| ImageFilter.UniformPixel | src/hooks/useFoodLessApp.ts:388-417 | every pixel of a one-colour image has that colour and edge entry 0 |
| ImageFilter.NonEdgePixel | src/hooks/useFoodLessApp.ts:420-485 | a pixel with edge entry 0 gets the non-edge remap under a non-negative threshold |
| ImageFilter.UniformImage | src/hooks/useFoodLessApp.ts:382-488 | a one-colour image has no edges, so every pixel gets the same non-edge remap of the common colour |
| ImageFilter.MidGreyToned | src/hooks/useFoodLessApp.ts:426-458 | mid-grey with the defaults is a midtone that stays at 128 after desaturation |
| ImageFilter.MidGreyWithDefaults | src/hooks/useFoodLessApp.ts:420-485 | mid-grey (128, 128, 128) off an edge is stored as (96, 96, 96) with the defaults |
| ImageFilter.MidGreyFinished | src/hooks/useFoodLessApp.ts:460-483 | 128 after contrast 1.4 and brightness 0.75 is stored as 96 |
| ImageFilter.WhiteToned | src/hooks/useFoodLessApp.ts:426-446 | white is a highlight with oiliness 1 and gets the full cast (+40, +35, −20) |
| ImageFilter.WhiteTurnsYellowGreen | src/hooks/useFoodLessApp.ts:420-485 | white off an edge is stored as (255, 255, 208), whereas contrast and brightness alone give 229 per channel |
| ImageFilter.WhiteFinished | src/hooks/useFoodLessApp.ts:460-483 | the stored values of white's channels after contrast and brightness |
| ImageFilter.NearBlackToned | src/hooks/useFoodLessApp.ts:426-454 | (10, 10, 10) is a shadow with coldness 7/8 and becomes (−3.125, 18.75, 31.875) |
| ImageFilter.NearBlackClampsToBlack | src/hooks/useFoodLessApp.ts:420-485 | (10, 10, 10) off an edge is stored as (0, 0, 0), the same as without the shadow cast |
| ImageFilter.NearBlackFinished | src/hooks/useFoodLessApp.ts:460-483 | every channel of the near-black pixel is negative after contrast and brightness and stores 0 |
| ImageFilter.ProcessImageData | src/hooks/useFoodLessApp.ts:382-488 | the buffer after both passes equals `FilteredImage` of the original buffer under the resolved parameters |
| ImageFilter.DetectEdges | src/hooks/useFoodLessApp.ts:388-417 | the nested y/x loops leave a fresh buffer equal to the edge map of the original pixels |
| ImageFilter.InteriorMagnitude | src/hooks/useFoodLessApp.ts:393-415 | the loop body's two Sobel sums, divided by 8, give the stored gradient magnitude of pixel (x, y) |
| ImageFilter.RemapColours | src/hooks/useFoodLessApp.ts:420-485 | the loop stepping by 4 leaves every pixel remapped from its original bytes and its edge entry |
| ImageFilter.RemapPixelInPlace | src/hooks/useFoodLessApp.ts:421-483 | one iteration writes the new R, G, B at i, i+1, i+2 and changes nothing else |
| ImageFilter.AdjustPixel | src/hooks/useFoodLessApp.ts:424-478 | the loop body's channel values equal tone step then contrast, brightness and sharpening |
| ImageFilter.FinishStep | src/hooks/useFoodLessApp.ts:460-478 | contrast `(c − 128)·k + 128`, then brightness, then sharpness on edges only |
| ImageFilter.ToneStep | src/hooks/useFoodLessApp.ts:426-458 | luminance, desaturation and tone shift in that order |
| ImageFilter.DesaturateStep | src/hooks/useFoodLessApp.ts:430-435 | each channel is blended towards the channel average by the desaturation factor |
| ImageFilter.ShiftStep | src/hooks/useFoodLessApp.ts:438-458 | the highlight cast, else the shadow cast, else nothing |
| ImageFilter.RowMajor | src/hooks/useFoodLessApp.ts:391-393 | the row and column of pixel y·w + x are recovered by division by w |
| ImageFilter.InteriorNeighbours | src/hooks/useFoodLessApp.ts:393-411 | all eight neighbours of an interior pixel lie inside the buffer |
| ImageFilter.SobelNeighbours | src/hooks/useFoodLessApp.ts:393-411 | the neighbour indices of the loop body are the pixel index ± w ± 1 and lie in the buffer |
| ImageFilter.StoredMagnitudeIsEntry | src/hooks/useFoodLessApp.ts:392-415 | the magnitude stored at `idx` is the edge-map entry of that interior pixel |
| ImageFilter.EdgeStep | src/hooks/useFoodLessApp.ts:414-415 | storing one magnitude extends the finished part of the edge buffer by one pixel |
| ImageFilter.InitialPixelsAreBorder | src/hooks/useFoodLessApp.ts:391-392 | row 0 and the first pixel of row 1, which the loops skip, have edge entry 0 |
| ImageFilter.RowGapIsBorder | src/hooks/useFoodLessApp.ts:391-392 | the last column of a row and the first of the next, which the loops skip, have edge entry 0 |
| ImageFilter.FinalPixelsAreBorder | src/hooks/useFoodLessApp.ts:391-392 | every pixel of the last row, which the loops skip, has edge entry 0 |
| ImageFilter.DoneIsEdgeMap | src/hooks/useFoodLessApp.ts:388-417 | once every pixel is finished the buffer is the edge map |
| FoodLessApp.FitRatio | src/hooks/useFoodLessApp.ts:525-526 | the ratio `min(max/w, max/h)` is positive |
| FoodLessApp.FittedSize | src/hooks/useFoodLessApp.ts:525-528 | defines the canvas size as the image size times the ratio, truncated on assignment to an integer canvas dimension; FittedSizeFillsBox states its bounds |
| FoodLessApp.FitRatioFillsBox | src/hooks/useFoodLessApp.ts:525-528 | both scaled sides are at most `maxImageSize`, and the larger side equals it exactly |
| FoodLessApp.FitRatioEnlargesSmallImages | src/hooks/useFoodLessApp.ts:525-528 | the ratio is ≥ 1, i.e. the image is enlarged, exactly when both sides already fit |
| FoodLessApp.FittedSizeFillsBox | src/hooks/useFoodLessApp.ts:525-528 | the truncated canvas size is within the box on both sides and fills it on the larger side |
| FoodLessApp.Back | src/hooks/useFoodLessApp.ts:1007-1014 | `handleBack` sets step 'input', not loading, no error, and keeps the image, chat, upload, reason and session |
| FoodLessApp.Resume | src/hooks/useFoodLessApp.ts:1019-1024 | `handleResume` sets step 'result' and changes no other field |
| FoodLessApp.UploadSucceeded | src/hooks/useFoodLessApp.ts:581-589 | a successful upload stores the file and its result, clears the error, the chat and the session id, and keeps the rest |
| FoodLessApp.UploadFailed | src/hooks/useFoodLessApp.ts:590-596 | a failed upload shows the Error's message (or a fixed text for a non-Error), stops loading and keeps the rest |
| FoodLessApp.FailedUploadKeepsResult | src/hooks/useFoodLessApp.ts:574-596 | after a failed upload the previous result, chat and session can still be resumed |
| FoodLessApp.ResumeUndoesBack | src/hooks/useFoodLessApp.ts:1007-1024 | going back from a settled result and resuming restores the state exactly |
| FoodLessApp.ResumeKeepsTheSession | src/hooks/useFoodLessApp.ts:1007-1024 | back then resume keeps chat, image and session |
| FoodLessApp.UploadAfterBackForgetsChat | src/hooks/useFoodLessApp.ts:581-589 | a new upload after going back starts with an empty chat and no session |
| FoodLessApp.WarningBounds | src/hooks/useFoodLessApp.ts:750-753 | before the configuration loads the defaults 6000/12000 apply; a loaded timing object is used as it is |
| FoodLessApp.Proceed | src/hooks/useFoodLessApp.ts:818-834 | proceeding sets step 'result' and not loading, and keeps the rest |
| FoodLessApp.Poll | src/hooks/useFoodLessApp.ts:813-841 | a poll moves to the result page exactly when the decision says so, and otherwise changes nothing |
| FoodLessApp.PollWaitsForMinimum | src/hooks/useFoodLessApp.ts:813-841 | before the minimum warning time a poll changes nothing |
| FoodLessApp.NeverBeforeMinimum | src/hooks/useFoodLessApp.ts:813-841 | the decision is never to proceed before the minimum warning time |
| FoodLessApp.ProceedsWithBounds | src/hooks/useFoodLessApp.ts:813-841 | with both bounds, a poll proceeds iff elapsed ≥ min and (the AI is done or elapsed ≥ max) |
| FoodLessApp.ShouldProceed | src/hooks/useFoodLessApp.ts:813-841 | defines the poll decision: elapsed has reached the minimum, and the AI is done or elapsed has reached the maximum |
| FoodLessApp.DefaultsProceed | src/hooks/useFoodLessApp.ts:750-753 | with the default bounds, it proceeds iff elapsed ≥ 6000 and (the AI is done or elapsed ≥ 12000) |
| FoodLessApp.FailedTimingFetchNeverProceeds | src/hooks/useFoodLessApp.ts:88-91 | as written, a failed timing fetch yields `{}`, both comparisons are with undefined, and no poll ever proceeds |
| FoodLessApp.WarningBoundsFilled | src/hooks/useFoodLessApp.ts:750-753 | corrected bounds: each missing bound takes its default, and present ones are kept |
| FoodLessApp.FilledBoundsAlwaysProceed | src/hooks/useFoodLessApp.ts:813-841 | with corrected bounds, every poll past both bounds proceeds |
| FoodLessApp.FilledBoundsAgreeWhenComplete | src/hooks/useFoodLessApp.ts:750-753 | the corrected bounds equal the written ones whenever those are complete |
| Utils.AtMost255 | src/utils/index.ts:260-262 | `Math.min(255, v)` is at most 255 and at most `v`, and equals `v` when `v` ≤ 255 |
| Utils.ApplyOilyFilter | src/utils/index.ts:244-266 | every pixel takes R = min(255, 0.8g+30), G = min(255, 1.1g+20), B = min(255, 0.6g+10) of its own grey `g`, stored as bytes; alpha is unchanged |
| Utils.OilyPixelInPlace | src/utils/index.ts:252-262 | one iteration writes the oily colour of the pixel's grey value at i, i+1, i+2 and nothing else |
| Utils.OilyStep | src/utils/index.ts:250-263 | one iteration keeps the earlier pixels done and the later bytes untouched |
| Utils.OilyPixelFloors | src/utils/index.ts:260-262 | R ≥ 30, G ≥ 20, B ≥ 10 for every grey value |
| Utils.OilyPixel | src/utils/index.ts:257-262 | defines the oily colour of a grey value: `min(255, 0.8g + 30)`, `min(255, 1.1g + 20)`, `min(255, 0.6g + 10)`, each stored as a byte |
| Utils.OilyPixelMonotone | src/utils/index.ts:257-262 | a lighter grey never gives a darker channel |
| Utils.OilyPixelLeansYellowGreen | src/utils/index.ts:260-262 | blue is always strictly below red and green |
| Utils.OilyPixelOfBlackAndWhite | src/utils/index.ts:257-262 | black becomes (30, 20, 10) and white (234, 255, 163) |
| Utils.TrueKeys | src/utils/index.ts:26-29 | a key is kept exactly when its entry's value is true: every kept key has value true, and every entry with value true has its key kept |
| Utils.TrueKeysAppend | src/utils/index.ts:26-29 | the true keys of a concatenation are the true keys of each part, in order, so the object's entry order is kept |
| Utils.Segments | src/utils/index.ts:21-32 | no more segments than inputs; TruthyContributesItsSegment and CnDropsFalsy say what each input contributes |
| Utils.Cn | src/utils/index.ts:20-35 | the result of `cn` has no leading or trailing whitespace |
| Utils.SegmentsAppend | src/utils/index.ts:21-32 | the segments of a concatenation are the concatenated segments |
| Utils.TruthyContributesItsSegment | src/utils/index.ts:21-32 | a truthy input, wherever it stands, contributes exactly its own segment in its place |
| Utils.CnDropsFalsy | src/utils/index.ts:22 | a falsy input, wherever it stands, contributes nothing |
| Utils.CnOfOneString | src/utils/index.ts:24 | a single string comes back trimmed, and unchanged when it has no outer whitespace |
| Utils.CnTrueLeavesDoubleSpace | src/utils/index.ts:21-33 | for any inputs around it, `true` or a non-zero number contributes an empty segment in its place, so the join has a double space between the segments on either side; `cn('a', true, 'b')` is 'a  b' |
| Utils.CnOfObject | src/utils/index.ts:25-30 | for any inputs around it, an object contributes in its place one segment: its true keys in order joined by single spaces; `cn({a: true, b: false, c: true})` is 'a c' |
| Utils.ValidateLength | src/utils/index.ts:308-341 | valid iff min ≤ trimmed length ≤ max; a message exactly when invalid, chosen in the order empty, too short, too long |
| Utils.ValidateFoodName | src/utils/index.ts:308-322 | valid iff 2 ≤ trimmed length ≤ 50, with the three messages in order |
| Utils.ValidateDialogueInput | src/utils/index.ts:327-341 | valid iff 3 ≤ trimmed length ≤ 200, with the three messages in order |
| Utils.ValidationIgnoresPadding | src/utils/index.ts:308-341 | surrounding whitespace changes neither the verdict nor the message |
| Utils.BlankInputIsEmpty | src/utils/index.ts:309-311 | whitespace-only input is reported as empty, not as too short |
| Utils.ParseAPIError | src/utils/index.ts:400-410 | a truthy message first, then the value itself if it is a string (even ''), else the fixed text |
| Utils.ParseAPIErrorEmptyOnlyForEmptyString | src/utils/index.ts:400-410 | the result is empty exactly when the empty string was thrown |
| Migration.Reason | src/utils/migration.ts:218-230 | the reason is non-empty, at most 50 characters, and never the session fallback text |
| Migration.StatesReason | src/utils/migration.ts:221-223 | defines a qualifying message: a user message longer than 10 characters that mentions 减肥, 瘦身, 健康, 体重 or 身材 |
| Migration.ExtractWeightLossReason | src/utils/migration.ts:218-230 | the loop with early return computes `Reason` |
| Migration.ReasonIsFirstStated | src/utils/migration.ts:220-225 | the first user message longer than 10 that names a keyword gives the reason, truncated to 50 |
| Migration.ReasonDefaultsWithoutStatement | src/utils/migration.ts:229 | without such a message the reason is '历史数据迁移' |
| Migration.GroupConversationsBySession | src/utils/migration.ts:176-209 | the groups concatenate back to the input; none is empty; gaps inside are ≤ 1 h and gaps between are > 1 h; empty input gives no groups |
| Migration.GroupStep | src/utils/migration.ts:189-200 | one iteration keeps the grouping invariant with the message added |
| Migration.PushGroup | src/utils/migration.ts:192-195 | closing a group appends one group holding exactly the current messages and their extracted reason, keeping the groups well formed and separated |
| Migration.CloseGroup | src/utils/migration.ts:192-195 | a group that starts after a gap of more than one hour can be appended, keeping both gap properties |
| Migration.ExtendGroup | src/utils/migration.ts:198-199 | a message at most one hour after the last keeps the group's gap bound |
| Migration.FlattenAppend | src/utils/migration.ts:192-195 | appending a group appends its messages |
| Migration.FlattenIsLonger | src/utils/migration.ts:176-209 | non-empty groups are no more numerous than their messages |
| Migration.FallbackReasonUnused | src/utils/migration.ts:145 | every group has a non-empty reason, so '数据迁移导入' is never used |
| Migration.SessionReason | src/utils/migration.ts:145 | defines the stored reason: the group's reason, or '数据迁移导入' when it is empty |
| Migration.ToStored | src/utils/migration.ts:155-160 | a migrated message is negative unless `isNegative` is exactly false |
| Migration.MigrationKeepsTheView | src/utils/migration.ts:159 | the stored flag is negative exactly when the message counted as negative; unmarked messages become negative |
| Migration.CreatedSessions | src/utils/migration.ts:147-149 | the number of sessions created is at most the number of groups |
| Migration.CreatedIn | src/utils/migration.ts:153-166 | the rows created in one group are at most its messages |
| Migration.CreatedConversationsBound | src/utils/migration.ts:139-169 | the rows counted never outnumber the messages of the groups processed |
| Migration.RowsOnlyInCreatedSessions | src/utils/migration.ts:148-166 | rows are counted only inside created sessions: the count is at most the messages of the groups whose session was created, and 0 when no session was created |
| Migration.MigrateConversations | src/utils/migration.ts:131-172 | sessions ≤ groups ≤ messages, and migrated rows ≤ messages |
| Migration.CountMigrated | src/utils/migration.ts:139-169 | the nested counting loops compute the created sessions and rows |
| Migration.MigrateToCloud | src/utils/migration.ts:73-124 | with nothing stored it succeeds with 0/0 before any write; otherwise it updates the profile iff a goal is stored, migrates iff there are messages, and backs up last |
| Migration.EstimatedSessions | src/utils/migration.ts:270 | ⌈n/10⌉ for n > 0 and 0 for n = 0 |
| Migration.MigrationStats | src/utils/migration.ts:259-272 | the count is the stored message count and the estimate never exceeds it |
| ResultDisplay.LastOfKind | src/components/ResultDisplay.tsx:40 | the message found has the kind and is in the list; none is found iff no message has the kind |
| ResultDisplay.LastOfKindIsLast | src/components/ResultDisplay.tsx:40 | the message found is the last one of its kind |
| ResultDisplay.LastOfKindAt | src/components/ResultDisplay.tsx:65 | the message found sits at a position with no message of that kind after it |
| ResultDisplay.MessagesForType | src/components/ResultDisplay.tsx:61-63 | the filtered view is no longer than the history |
| ResultDisplay.MessagesForTypeMembers | src/components/ResultDisplay.tsx:61-63 | the view holds exactly the history's messages with `isNegative !== false` (negative) or `=== false` (positive) |
| ResultDisplay.ViewOfItsOwnMessages | src/components/ResultDisplay.tsx:61-63 | a history entirely in one view is shown whole and in order |
| ResultDisplay.ViewsPartitionHistory | src/components/ResultDisplay.tsx:61-63 | the negative and positive views together are a permutation of the history |
| ResultDisplay.ConversationModeShowsLastAiAnswer | src/components/ResultDisplay.tsx:65-74 | with a user message in the negative view at most one message is shown; when one is shown it is the LAST AI message of the negative view (no AI message of the view follows it), and none is shown only if the view has no AI message |
| ResultDisplay.MessagesToRender | src/components/ResultDisplay.tsx:61-78 | every message shown is from the history and belongs to the current view |
| ResultDisplay.OtherwiseShowsWholeView | src/components/ResultDisplay.tsx:75-78 | otherwise the whole filtered view is shown in order |
| ResultDisplay.UserQuestion | src/components/ResultDisplay.tsx:70 | the user question is the last user message in the negative view and absent in the positive one |
| ResultDisplay.ResultView.constructor | src/components/ResultDisplay.tsx:37-38 | the page starts in the negative view with no motivating request |
| ResultDisplay.ResultView.HandleShowMotivating | src/components/ResultDisplay.tsx:45-51 | `onGenerateMotivating` runs on the first call only, and the view is always positive afterwards |
| ResultDisplay.ResultView.HandleShowNegative | src/components/ResultDisplay.tsx:56-58 | only the view changes, to negative |
| DialogueInput.SubmitDecision | src/components/DialogueInput.tsx:29-44 | blank input is ignored, one character alerts, and anything longer is sent trimmed |
| DialogueInput.SubmitIgnoresPadding | src/components/DialogueInput.tsx:30 | surrounding whitespace does not change the outcome |
| DialogueInput.DialogueField.constructor | src/components/DialogueInput.tsx:23-24 | the field starts empty and not loading |
| DialogueInput.DialogueField.HandleInputChange | src/components/DialogueInput.tsx:68-75 | a value over 200 characters is ignored, so the input never exceeds 200 |
| DialogueInput.DialogueField.HandleSubmit | src/components/DialogueInput.tsx:29-51 | `onSubmit` receives only the trimmed text of ≥ 2 characters; the field is cleared only on success; loading is off after either outcome |
| DialogueInput.DialogueField.HandleKeyPress | src/components/DialogueInput.tsx:57-62 | Enter without Shift has exactly the effect of handleSubmit in each of its outcomes (ignored, alerted, sent and cleared on success); any other key, and Shift+Enter, changes nothing |
| FoodInput.Submission | src/components/FoodInput.tsx:65-68 | a value is submitted iff its trimmed form has ≥ 2 characters, and then it is submitted trimmed |
| FoodInput.SubmissionIgnoresPadding | src/components/FoodInput.tsx:66-67 | surrounding whitespace does not change what is submitted |
| FoodInput.BlankIsNeverSubmitted | src/components/FoodInput.tsx:31-33 | a blank value is never submitted |
| FoodInput.ReasonField.constructor | src/components/FoodInput.tsx:23 | the field starts empty |
| FoodInput.ReasonField.HandleInputChange | src/components/FoodInput.tsx:58-69 | a value over 50 characters is ignored; an accepted value is stored and, when valid, submitted at once |
| FoodInput.ReasonField.HandleSubmit | src/components/FoodInput.tsx:28-41 | a trimmed reason under 2 characters is ignored silently; the field is never cleared |
| FoodInput.ReasonField.HandleKeyPress | src/components/FoodInput.tsx:47-52 | any Enter, with or without Shift, submits the trimmed reason when it is valid and submits nothing otherwise; the reason is never changed |
| RecordPage.AllContext | src/app/record/page.tsx:71-80 | the app's chat in order, followed by the mapped database rows in order |
| RecordPage.LastN | src/app/record/page.tsx:81 | `slice(-n)` is the suffix of length min(n, length) |
| RecordPage.ConversationContext | src/app/record/page.tsx:71-81 | the context is the suffix of the concatenation of length min(15, total) |
| RecordPage.ManyRowsCrowdOutChat | src/app/record/page.tsx:71-81 | with 15 rows or more, no chat message of the app remains in the context |
| RecordPage.HandleSubmit | src/app/record/page.tsx:53-101 | blank content is an error with no request; a missing token is an error before any fetch; the request carries the trimmed content, the session id, the last-15 ConversationContext (absent when empty), and the stored reason when non-empty, else '健康生活' |
| RecordPage.SendsOnlyWhenValid | src/app/record/page.tsx:53-101 | a request is sent iff the content is not blank and a token is present |
| RecordPage.RequestShape | src/app/record/page.tsx:71-101 | the reason is never empty: a stored non-empty one is sent unchanged, a missing or empty one becomes '健康生活'; the context is undefined iff there is nothing to send, and otherwise is the last min(15, total) entries of the chat followed by the rows |
| VictoryLog.DiffDays | src/components/mark/VictoryLog.tsx:129-132 | ⌊(now − date)/86 400 000⌋ is the whole number of days elapsed, rounded down |
| VictoryLog.FormatTime | src/components/mark/VictoryLog.tsx:126-141 | 0 gives '今天', 1 '昨天', any other value below 7 (negative ones too) `n天前`, and 7 or more the locale date |
| VictoryLog.TodayIsWithinADay | src/components/mark/VictoryLog.tsx:129-135 | '今天' iff less than 24 h ago and not in the future; '昨天' iff 24 h to 48 h ago |
| VictoryLog.FutureDateCountsBackwards | src/components/mark/VictoryLog.tsx:129-138 | a future date gets a negative day count, shown as `n天前` |
| VictoryLog.OldDateShowsCalendarDate | src/components/mark/VictoryLog.tsx:136-140 | a date a week or more ago shows the locale date |
| VictoryLog.ToChatMessage | src/components/mark/VictoryLog.tsx:92-98 | `message_type` and `is_negative` are copied unchanged, as are id and content |
| VictoryLog.ToChatHistory | src/components/mark/VictoryLog.tsx:92-98 | one message per row, same length, same order |
| VictoryLog.RestoredState | src/components/mark/VictoryLog.tsx:101-113 | step 'result', not loading, no error, no upload; session id and reason from the session; the processed image is absent iff its URL is falsy, and the original URL defaults to '' |
| VictoryLog.RestoredSessionSurvivesBack | src/components/mark/VictoryLog.tsx:101-113 | going back from a restored session and resuming shows that session again |
| VictoryLog.MigratedMessageKeepsItsView | src/components/mark/VictoryLog.tsx:92-98 | a message migrated to the cloud and restored lands in the same view as before |

## Findings

| source | as written | input that shows it | evidently intended | confidence | as-written member | corrected member |
|---|---|---|---|---|---|---|
| src/hooks/useFoodLessApp.ts:88-91 | when the timing fetch fails (or answers with an error status), `timing` is `{}`; the fallback at lines 750-753 keeps `{}` because an object is truthy, so `minWarningTime` and `maxWarningTime` are undefined; `elapsed >= undefined` is always false, and `checkAndProceed` polls forever without leaving the processing page | timing response with status 500, AI finished, elapsed = 60 000 ms | a missing bound falls back to 6000 / 12000 ms, so the page moves on after the maximum warning time | high (not executed) | FoodLessApp.FailedTimingFetchNeverProceeds | FoodLessApp.FilledBoundsAlwaysProceed |

## Left out

- I/O is not modelled. This covers `fetch`, Supabase authentication and
  database calls, `localStorage`, `setTimeout` and `setInterval`, canvas
  decoding and drawing, JPEG encoding, `FileReader` and object URLs. Their
  results are parameters where a rule depends on them.
- The asynchronous orchestration of the hook is not modelled, because it is
  network and timer plumbing:
  - configuration loading, authenticated fetch and retries;
  - the migration check and data loading;
  - AI text generation, the dialogue continuation and the motivating text;
  - the session creation inside `handleInjectPower`.
- The `handleInjectPower` guard and its session creation are not modelled.
  Only the `checkAndProceed` decision is.
- Floating point is not modelled:
  - arithmetic is exact over `real`, so no IEEE-754 double rounding;
  - `NaN` parameters are not modelled; `NaN || d` would also fall back to `d`.
- ImageFilter.ProcessImageData: the input buffer has exactly
  4 · width · height bytes, as a canvas `ImageData` always has. It is not an
  arbitrary `Uint8ClampedArray`.
- FoodLessApp.FittedSize: the canvas assignment of a fractional size
  truncates, and the model truncates with `Floor`. Drawing into that canvas
  is left out.
- Utils.Cn: a `NaN` input is falsy in JavaScript and is not modelled. The
  object values of the ClassValue type are booleans, as declared.
- Utils.ParseAPIError: a truthy `message` that is not a string (a number,
  say) is not modelled. The message is a string or missing.
- Migration.MigrateToCloud: a database call that throws, rather than
  returning null, is not modelled, so the `catch` branch with
  `success: false` is not modelled.
- Migration.MigrateToCloud: the storage backup itself is recorded only as
  the last step.
- Migration.MigrationStats: `hasLocalData` probes `localStorage` and is
  left out.
- Migration.Reason: the keyword test is a substring test for each of the
  five words, which is what the regular expression
  `/减肥|瘦身|健康|体重|身材/` matches.
- VictoryLog.FormatTime: `toLocaleDateString('zh-CN')` is shown as the
  epoch time it formats. The formatting itself is locale data.
- VictoryLog: `loadSessions` and the fetches of `restoreSession` are left
  out. They only set loading and error state around network calls.
- RecordPage.HandleSubmit: only the checks and the request body before the
  fetch are modelled. The response handling and navigation are left out.
- DialogueInput.DialogueField.HandleSubmit: `isLoading` is true only while
  `onSubmit` is awaited. The model records the outcome of the await as a
  parameter, so that intermediate state is not observable.
- Only the IDs, types, contents and flags of messages are modelled. UI
  composition (JSX, styling, the loading overlay's text rotation), the vow
  editor and the authentication pages are left out, as are `generateId`,
  `debounce`, `formatDate` and `measurePerformance`, which depend on the
  clock, randomness and locale.
