// The pure parts of the useFoodLessApp hook other than the image filter: the
// fit-to-box resize ratio of processImage, the AppState updaters of
// handleBack, handleResume and handleImageUpload, and the decision that
// checkAndProceed takes on each 100 ms poll.

module FoodLessApp {
  import opened Types

  // ---------------------------------------------------------------------
  // Resize
  // ---------------------------------------------------------------------

  /** CLIENT_CONFIG.image.maxImageSize. */
  const MaxImageSize: nat := 800

  /** Math.min(maxSize / width, maxSize / height). */
  function FitRatio(maxSize: real, w: real, h: real): (ratio: real)
    requires maxSize > 0.0 && w > 0.0 && h > 0.0
    ensures ratio > 0.0
  {
    var rw := maxSize / w;
    var rh := maxSize / h;
    if rw <= rh then rw else rh
  }

  /**
   * The scaled image fits the box, and its larger side fills it exactly:
   * width * ratio and height * ratio are both at most maxSize, and the one
   * belonging to the larger side equals it.
   */
  lemma FitRatioFillsBox(maxSize: real, w: real, h: real)
    requires maxSize > 0.0 && w > 0.0 && h > 0.0
    ensures w * FitRatio(maxSize, w, h) <= maxSize
    ensures h * FitRatio(maxSize, w, h) <= maxSize
    ensures w >= h ==> w * FitRatio(maxSize, w, h) == maxSize
    ensures h >= w ==> h * FitRatio(maxSize, w, h) == maxSize
  {
    var rw := maxSize / w;
    var rh := maxSize / h;
    assert w * rw == maxSize;
    assert h * rh == maxSize;
    if w >= h {
      assert rw <= rh by { DivideByLarger(maxSize, h, w); }
      assert h * rw <= h * rh;
    } else {
      assert rh <= rw by { DivideByLarger(maxSize, w, h); }
      assert w * rh <= w * rw;
    }
  }

  lemma DivideByLarger(m: real, a: real, b: real)
    requires m > 0.0 && 0.0 < a <= b
    ensures m / b <= m / a
  {
    assert (m / b) * b == m;
    assert (m / a) * a == m;
  }

  /**
   * Small images are enlarged, not only shrunk: the ratio is at least 1
   * exactly when both sides already fit the box.
   */
  lemma FitRatioEnlargesSmallImages(maxSize: real, w: real, h: real)
    requires maxSize > 0.0 && w > 0.0 && h > 0.0
    ensures FitRatio(maxSize, w, h) >= 1.0 <==> w <= maxSize && h <= maxSize
  {
    DivisionAtLeastOne(maxSize, w);
    DivisionAtLeastOne(maxSize, h);
  }

  lemma DivisionAtLeastOne(m: real, a: real)
    requires m > 0.0 && a > 0.0
    ensures m / a >= 1.0 <==> a <= m
  {
    assert (m / a) * a == m;
  }

  /**
   * canvas.width and canvas.height: the scaled sides, truncated to whole
   * pixels by the assignment to the canvas.
   */
  function FittedSize(maxSize: nat, w: nat, h: nat): (size: (int, int))
    requires maxSize > 0 && w > 0 && h > 0
  {
    var ratio := FitRatio(maxSize as real, w as real, h as real);
    (((w as real) * ratio).Floor, ((h as real) * ratio).Floor)
  }

  /** The canvas is at most maxSize on each side, and exactly maxSize on the larger one. */
  lemma FittedSizeFillsBox(maxSize: nat, w: nat, h: nat)
    requires maxSize > 0 && w > 0 && h > 0
    ensures var (cw, ch) := FittedSize(maxSize, w, h);
      0 <= cw <= maxSize && 0 <= ch <= maxSize
      && (w >= h ==> cw == maxSize) && (h >= w ==> ch == maxSize)
  {
    FitRatioFillsBox(maxSize as real, w as real, h as real);
  }

  // ---------------------------------------------------------------------
  // AppState updaters
  // ---------------------------------------------------------------------

  /** handleBack: back to the input step, keeping the result for a later resume. */
  function Back(s: AppState): (r: AppState)
    ensures r.currentStep == Input && !r.isLoading && r.error == None
    ensures r.processedImage == s.processedImage && r.chatHistory == s.chatHistory
    ensures r.uploadedImage == s.uploadedImage && r.weightLossReason == s.weightLossReason
    ensures r.currentSessionId == s.currentSessionId
  {
    s.(currentStep := Input, isLoading := false, error := None)
  }

  /** handleResume: back to the result step; nothing else changes. */
  function Resume(s: AppState): (r: AppState)
    ensures r.currentStep == Result
    ensures r.isLoading == s.isLoading && r.error == s.error
    ensures r.processedImage == s.processedImage && r.chatHistory == s.chatHistory
    ensures r.uploadedImage == s.uploadedImage && r.weightLossReason == s.weightLossReason
    ensures r.currentSessionId == s.currentSessionId
  {
    s.(currentStep := Result)
  }

  /**
   * The success path of handleImageUpload: the new file and its processed
   * image are kept, the error is cleared, and a new session starts with an
   * empty chat and no session id.
   */
  function UploadSucceeded(s: AppState, file: UploadedFile, processed: ImageProcessResult): (r: AppState)
    ensures r.uploadedImage == Some(file) && r.processedImage == Some(processed) && r.error == None
    ensures r.chatHistory == [] && r.currentSessionId == None
    ensures r.currentStep == s.currentStep && r.isLoading == s.isLoading
    ensures r.weightLossReason == s.weightLossReason
  {
    s.(uploadedImage := Some(file), processedImage := Some(processed), error := None,
       currentSessionId := None, chatHistory := [])
  }

  /**
   * The failure path of handleImageUpload. `errorMessage` is the message of
   * the thrown value when it is an Error (possibly empty) and None for
   * anything else, which gets a fixed text.
   */
  function UploadFailed(s: AppState, errorMessage: Option<string>): (r: AppState)
    ensures errorMessage.Some? ==> r.error == errorMessage
    ensures errorMessage.None? ==> r.error == Some("图片处理失败")
    ensures !r.isLoading
    ensures r.currentStep == s.currentStep && r.chatHistory == s.chatHistory
    ensures r.processedImage == s.processedImage && r.currentSessionId == s.currentSessionId
    ensures r.uploadedImage == s.uploadedImage && r.weightLossReason == s.weightLossReason
  {
    var text := if errorMessage.Some? then errorMessage.value else "图片处理失败";
    s.(error := Some(text), isLoading := false)
  }

  /** A failed upload keeps the previous photo, result and chat, so the old result can still be resumed. */
  lemma FailedUploadKeepsResult(s: AppState, errorMessage: Option<string>)
    ensures var r := Resume(UploadFailed(s, errorMessage));
      r.processedImage == s.processedImage && r.chatHistory == s.chatHistory
      && r.currentSessionId == s.currentSessionId && r.error.Some?
  {
  }

  /**
   * Back and then Resume returns to the very same result page: a state showing
   * a result without loading or error is restored exactly.
   */
  lemma ResumeUndoesBack(s: AppState)
    requires s.currentStep == Result && !s.isLoading && s.error == None
    ensures Resume(Back(s)) == s
  {
  }

  /** Resume changes only the step: the chat, the image and the session survive a round trip. */
  lemma ResumeKeepsTheSession(s: AppState)
    ensures var r := Resume(Back(s));
      r.currentStep == Result && r.chatHistory == s.chatHistory
      && r.processedImage == s.processedImage && r.currentSessionId == s.currentSessionId
  {
  }

  /** Uploading a new photo after going back discards the old chat: resuming shows none of it. */
  lemma UploadAfterBackForgetsChat(s: AppState, file: UploadedFile, processed: ImageProcessResult)
    ensures var r := Resume(UploadSucceeded(Back(s), file, processed));
      r.chatHistory == [] && r.currentSessionId == None && r.processedImage == Some(processed)
  {
  }

  // ---------------------------------------------------------------------
  // checkAndProceed
  // ---------------------------------------------------------------------

  /**
   * The warning-time bounds of `dynamicConfig.timing`, in milliseconds; a
   * missing field (undefined) is None.
   */
  datatype Timing = Timing(minWarningTime: Option<int>, maxWarningTime: Option<int>)

  /** The bounds handleInjectPower uses when `dynamicConfig.timing` is undefined. */
  const DefaultTiming: Timing := Timing(Some(6000), Some(12000))

  /**
   * The timing of the dynamic configuration when the fetch of the timing
   * configuration failed: an empty object.
   */
  const FailedFetchTiming: Timing := Timing(None, None)

  /**
   * `dynamicConfig.timing || { minWarningTime: 6000, maxWarningTime: 12000 }`:
   * `timing` is None before the configuration is loaded. Any object is
   * truthy, so a loaded timing is used as it is, even with fields missing.
   */
  function WarningBounds(timing: Option<Timing>): (t: Timing)
    ensures timing.None? ==> t == DefaultTiming
    ensures timing.Some? ==> t == timing.value
  {
    if timing.None? then DefaultTiming else timing.value
  }

  /** `elapsed >= bound`: a comparison with undefined is false. */
  predicate Reached(elapsed: int, bound: Option<int>)
  {
    bound.Some? && elapsed >= bound.value
  }

  /**
   * One poll of checkAndProceed: move to the result page once the minimum
   * warning time has passed and either the AI text is ready or the maximum
   * warning time has passed too.
   */
  predicate ShouldProceed(elapsed: int, aiCompleted: bool, bounds: Timing)
  {
    Reached(elapsed, bounds.minWarningTime)
    && (aiCompleted || Reached(elapsed, bounds.maxWarningTime))
  }

  /** The update checkAndProceed makes when it proceeds: the result page, no longer loading. */
  function Proceed(s: AppState): (r: AppState)
    ensures r.currentStep == Result && !r.isLoading
    ensures r.error == s.error && r.processedImage == s.processedImage && r.chatHistory == s.chatHistory
    ensures r.uploadedImage == s.uploadedImage && r.weightLossReason == s.weightLossReason
    ensures r.currentSessionId == s.currentSessionId
  {
    s.(currentStep := Result, isLoading := false)
  }

  /**
   * One poll of checkAndProceed on the state: the result page when the
   * decision is to proceed, the unchanged state (and another poll) otherwise.
   */
  function Poll(s: AppState, elapsed: int, aiCompleted: bool, bounds: Timing): (r: AppState)
    ensures ShouldProceed(elapsed, aiCompleted, bounds) ==> r.currentStep == Result && !r.isLoading
    ensures !ShouldProceed(elapsed, aiCompleted, bounds) ==> r == s
  {
    if ShouldProceed(elapsed, aiCompleted, bounds) then Proceed(s) else s
  }

  /** While the minimum warning time has not passed, a poll leaves the processing page untouched. */
  lemma PollWaitsForMinimum(s: AppState, elapsed: int, aiCompleted: bool, bounds: Timing)
    requires bounds.minWarningTime.Some? && elapsed < bounds.minWarningTime.value
    ensures Poll(s, elapsed, aiCompleted, bounds) == s
  {
  }

  /** The page never changes before the minimum warning time has passed. */
  lemma NeverBeforeMinimum(elapsed: int, aiCompleted: bool, bounds: Timing)
    requires bounds.minWarningTime.Some? && elapsed < bounds.minWarningTime.value
    ensures !ShouldProceed(elapsed, aiCompleted, bounds)
  {
  }

  /**
   * With both bounds present, a poll proceeds exactly when the minimum has
   * passed and either the AI is done or the maximum has passed.
   */
  lemma ProceedsWithBounds(elapsed: int, aiCompleted: bool, minT: int, maxT: int)
    ensures ShouldProceed(elapsed, aiCompleted, Timing(Some(minT), Some(maxT)))
        <==> elapsed >= minT && (aiCompleted || elapsed >= maxT)
  {
  }

  /**
   * Before the configuration is loaded the defaults apply: the page moves on
   * after 6 s if the AI is done, and after 12 s in any case.
   */
  lemma DefaultsProceed(elapsed: int, aiCompleted: bool)
    ensures ShouldProceed(elapsed, aiCompleted, WarningBounds(None))
        <==> elapsed >= 6000 && (aiCompleted || elapsed >= 12000)
  {
  }

  /**
   * As written: when the timing fetch failed, the bounds are undefined, both
   * comparisons are false, and no poll ever proceeds, however long it waits
   * and whether or not the AI has finished.
   */
  lemma FailedTimingFetchNeverProceeds(elapsed: int, aiCompleted: bool)
    ensures !ShouldProceed(elapsed, aiCompleted, WarningBounds(Some(FailedFetchTiming)))
  {
  }

  /** Corrected: each missing bound falls back to its own default. */
  function WarningBoundsFilled(timing: Option<Timing>): (t: Timing)
    ensures t.minWarningTime.Some? && t.maxWarningTime.Some?
    ensures timing.Some? && timing.value.minWarningTime.Some? ==> t.minWarningTime == timing.value.minWarningTime
    ensures timing.Some? && timing.value.maxWarningTime.Some? ==> t.maxWarningTime == timing.value.maxWarningTime
  {
    var given := if timing.None? then FailedFetchTiming else timing.value;
    Timing(
      if given.minWarningTime.Some? then given.minWarningTime else DefaultTiming.minWarningTime,
      if given.maxWarningTime.Some? then given.maxWarningTime else DefaultTiming.maxWarningTime)
  }

  /**
   * With the corrected bounds every configuration eventually proceeds: once
   * the elapsed time has passed both bounds, the poll moves on even if the AI
   * has not finished.
   */
  lemma FilledBoundsAlwaysProceed(timing: Option<Timing>, elapsed: int, aiCompleted: bool)
    requires var t := WarningBoundsFilled(timing);
      elapsed >= t.minWarningTime.value && elapsed >= t.maxWarningTime.value
    ensures ShouldProceed(elapsed, aiCompleted, WarningBoundsFilled(timing))
  {
  }

  /** The corrected bounds agree with the written ones whenever the written ones are complete. */
  lemma FilledBoundsAgreeWhenComplete(timing: Option<Timing>)
    requires WarningBounds(timing).minWarningTime.Some? && WarningBounds(timing).maxWarningTime.Some?
    ensures WarningBoundsFilled(timing) == WarningBounds(timing)
  {
  }
}
