// Shared records of the application: chat messages, the processed-image pair
// and the persisted application state (AppState extended with the upload,
// the weight-loss reason and the current session id).

module Types {

  datatype Option<T> = None | Some(value: T)

  /** The message kinds the application writes; the database may hold others. */
  const UserKind: string := "user"
  const AiKind: string := "ai"

  /** A chat message; `isNegative` is optional (undefined or null is None). */
  datatype ChatMessage = ChatMessage(
    id: string,
    kind: string,
    content: string,
    timestamp: int,
    isNegative: Option<bool>)

  /**
   * A message counts as negative unless it is explicitly marked `false`
   * (`isNegative !== false`): an unmarked message is negative.
   */
  predicate CountsAsNegative(m: ChatMessage)
  {
    m.isNegative != Some(false)
  }

  datatype ImageProcessResult = ImageProcessResult(processedImageUrl: string, originalImageUrl: string)

  /** The uploaded File object, known here only by its name. */
  datatype UploadedFile = UploadedFile(name: string)

  datatype Step = Input | Processing | Result | Chat

  datatype AppState = AppState(
    currentStep: Step,
    isLoading: bool,
    error: Option<string>,
    processedImage: Option<ImageProcessResult>,
    chatHistory: seq<ChatMessage>,
    uploadedImage: Option<UploadedFile>,
    weightLossReason: Option<string>,
    currentSessionId: Option<string>)

  /** The state the application starts from before anything is persisted. */
  const InitialState: AppState :=
    AppState(Input, false, None, None, [], None, None, None)
}
