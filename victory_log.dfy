// The history page: the day label of a session's date, the mapping of the
// stored conversation rows back to chat messages, and the application state
// a restored session starts from.

module VictoryLog {
  import opened Types
  import FoodLessApp
  import Migration

  /** 1000 * 60 * 60 * 24. */
  const MsPerDay: int := 1000 * 60 * 60 * 24

  /** The label formatTime shows; a number of days is shown as `${days}天前`. */
  datatype TimeLabel = Today | Yesterday | DaysAgo(days: int) | LocaleDate(epochMs: int)

  /** Math.floor((now - date) / 86400000): whole days elapsed, rounded down. */
  function DiffDays(nowMs: int, dateMs: int): (d: int)
    ensures MsPerDay * d <= nowMs - dateMs < MsPerDay * (d + 1)
  {
    (nowMs - dateMs) / MsPerDay
  }

  /** formatTime for a date given as milliseconds since the epoch. */
  function FormatTime(nowMs: int, dateMs: int): (shown: TimeLabel)
    ensures shown == Today <==> DiffDays(nowMs, dateMs) == 0
    ensures shown == Yesterday <==> DiffDays(nowMs, dateMs) == 1
    ensures shown.DaysAgo? <==> DiffDays(nowMs, dateMs) < 7 && DiffDays(nowMs, dateMs) != 0 && DiffDays(nowMs, dateMs) != 1
    ensures shown.DaysAgo? ==> shown.days == DiffDays(nowMs, dateMs)
    ensures shown.LocaleDate? <==> DiffDays(nowMs, dateMs) >= 7
  {
    var diffDays := DiffDays(nowMs, dateMs);
    if diffDays == 0 then Today
    else if diffDays == 1 then Yesterday
    else if diffDays < 7 then DaysAgo(diffDays)
    else LocaleDate(dateMs)
  }

  /** "Today" means less than 24 hours ago (and not in the future); "yesterday" 24 to 48 hours ago. */
  lemma TodayIsWithinADay(nowMs: int, dateMs: int)
    ensures FormatTime(nowMs, dateMs) == Today <==> 0 <= nowMs - dateMs < MsPerDay
    ensures FormatTime(nowMs, dateMs) == Yesterday <==> MsPerDay <= nowMs - dateMs < 2 * MsPerDay
  {
    var d := DiffDays(nowMs, dateMs);
    if d < 0 {
      assert MsPerDay * (d + 1) <= 0;
    } else if d >= 2 {
      assert MsPerDay * d >= 2 * MsPerDay;
    }
  }

  /** A date in the future gets a negative day count, shown as "-n天前". */
  lemma FutureDateCountsBackwards(nowMs: int, dateMs: int)
    requires dateMs > nowMs
    ensures FormatTime(nowMs, dateMs).DaysAgo? && FormatTime(nowMs, dateMs).days < 0
  {
    var d := DiffDays(nowMs, dateMs);
    assert MsPerDay * d < 0;
  }

  /** A date a week or more ago is shown as a calendar date. */
  lemma OldDateShowsCalendarDate(nowMs: int, dateMs: int)
    requires nowMs - dateMs >= 7 * MsPerDay
    ensures FormatTime(nowMs, dateMs).LocaleDate?
  {
    var d := DiffDays(nowMs, dateMs);
    assert MsPerDay * (d + 1) > MsPerDay * 7;
  }

  /** A stored conversation row; `createdAt` is `created_at` as epoch milliseconds. */
  datatype ConversationRow = ConversationRow(
    id: string,
    messageType: string,
    content: string,
    createdAt: int,
    isNegative: Option<bool>)

  /** A stored session row. */
  datatype SessionRow = SessionRow(
    id: string,
    weightLossReason: string,
    originalImageUrl: Option<string>,
    processedImageUrl: Option<string>)

  /** The chat message for a row: `message_type` and `is_negative` copied unchanged. */
  function ToChatMessage(row: ConversationRow): (m: ChatMessage)
    ensures m.id == row.id && m.kind == row.messageType && m.content == row.content
    ensures m.timestamp == row.createdAt && m.isNegative == row.isNegative
  {
    ChatMessage(row.id, row.messageType, row.content, row.createdAt, row.isNegative)
  }

  /** `conversations.map(...)`: one message per row, in the same order. */
  function ToChatHistory(rows: seq<ConversationRow>): (ms: seq<ChatMessage>)
    ensures |ms| == |rows|
    ensures forall i :: 0 <= i < |rows| ==> ms[i] == ToChatMessage(rows[i])
  {
    if rows == [] then [] else [ToChatMessage(rows[0])] + ToChatHistory(rows[1..])
  }

  /**
   * The state restoreSession installs: the result step, no loading, no
   * error, no uploaded file, the session's id and reason, and its processed
   * image if the row has a non-empty URL (the original URL defaulting to '').
   */
  function RestoredState(session: SessionRow, rows: seq<ConversationRow>): (s: AppState)
    ensures s.currentStep == Result && !s.isLoading && s.error == None && s.uploadedImage == None
    ensures s.currentSessionId == Some(session.id) && s.weightLossReason == Some(session.weightLossReason)
    ensures s.chatHistory == ToChatHistory(rows)
    ensures s.processedImage.None? <==> session.processedImageUrl.None? || session.processedImageUrl.value == []
    ensures s.processedImage.Some? ==>
      s.processedImage.value.processedImageUrl == session.processedImageUrl.value
      && s.processedImage.value.originalImageUrl
         == (if session.originalImageUrl.Some? then session.originalImageUrl.value else [])
  {
    var processed :=
      if session.processedImageUrl.Some? && session.processedImageUrl.value != [] then
        Some(ImageProcessResult(
          session.processedImageUrl.value,
          if session.originalImageUrl.Some? && session.originalImageUrl.value != [] then session.originalImageUrl.value else []))
      else None;
    AppState(Result, false, None, processed, ToChatHistory(rows), None, Some(session.weightLossReason), Some(session.id))
  }

  /** Going back from a restored session and resuming it shows the same session again. */
  lemma RestoredSessionSurvivesBack(session: SessionRow, rows: seq<ConversationRow>)
    ensures FoodLessApp.Resume(FoodLessApp.Back(RestoredState(session, rows))) == RestoredState(session, rows)
  {
    FoodLessApp.ResumeUndoesBack(RestoredState(session, rows));
  }

  /**
   * A message migrated to the cloud and restored from it lands in the view
   * it was shown in before: negative exactly when it counted as negative.
   */
  lemma MigratedMessageKeepsItsView(m: ChatMessage, id: string, createdAt: int)
    ensures var stored := Migration.ToStored(m);
      var row := ConversationRow(id, stored.kind, stored.content, createdAt, Some(stored.isNegative));
      var back := ToChatMessage(row);
      CountsAsNegative(back) == CountsAsNegative(m) && back.kind == m.kind && back.content == m.content
  {
  }
}
