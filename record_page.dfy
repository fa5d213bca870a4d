// The record page's submit: the checks made before any request, and the
// conversation context sent with it (the last 15 of the app's chat followed
// by the recent stored conversations).

module RecordPage {
  import opened Types
  import opened Strings

  /** The number of context messages sent with a request. */
  const ContextSize: nat := 15

  /** The reason sent when the app state has none. */
  const DefaultReason: string := "健康生活"

  /** A recent conversation row; `createdAt` is `created_at` as epoch milliseconds. */
  datatype RecentRow = RecentRow(messageType: string, content: string, createdAt: int, isNegative: Option<bool>)

  /** One context message; the mapped rows carry no id. */
  datatype ContextEntry = ContextEntry(id: Option<string>, kind: string, content: string, timestamp: int, isNegative: Option<bool>)

  function FromChat(m: ChatMessage): ContextEntry
  {
    ContextEntry(Some(m.id), m.kind, m.content, m.timestamp, m.isNegative)
  }

  function FromRow(r: RecentRow): ContextEntry
  {
    ContextEntry(None, r.messageType, r.content, r.createdAt, r.isNegative)
  }

  /** The chat messages followed by the mapped rows, in order. */
  function AllContext(chat: seq<ChatMessage>, rows: seq<RecentRow>): (all: seq<ContextEntry>)
    ensures |all| == |chat| + |rows|
    ensures forall i :: 0 <= i < |chat| ==> all[i] == FromChat(chat[i])
    ensures forall j :: 0 <= j < |rows| ==> all[|chat| + j] == FromRow(rows[j])
  {
    if chat != [] then [FromChat(chat[0])] + AllContext(chat[1..], rows)
    else if rows != [] then [FromRow(rows[0])] + AllContext([], rows[1..])
    else []
  }

  /** `slice(-n)`: the last `n` elements, or all of them when there are fewer. */
  function LastN<T>(s: seq<T>, n: nat): (r: seq<T>)
    ensures |r| == if |s| < n then |s| else n
    ensures r == s[|s| - |r|..]
  {
    if |s| <= n then s else s[|s| - n..]
  }

  /**
   * conversationHistory: a suffix of the chat followed by the rows, at most
   * 15 long, and as long as possible.
   */
  function ConversationContext(chat: seq<ChatMessage>, rows: seq<RecentRow>): (ctx: seq<ContextEntry>)
    ensures |ctx| <= ContextSize
    ensures |ctx| == if |chat| + |rows| < ContextSize then |chat| + |rows| else ContextSize
    ensures ctx == AllContext(chat, rows)[|chat| + |rows| - |ctx|..]
  {
    LastN(AllContext(chat, rows), ContextSize)
  }

  /** With 15 rows or more, the app's own chat drops out of the context entirely. */
  lemma ManyRowsCrowdOutChat(chat: seq<ChatMessage>, rows: seq<RecentRow>)
    requires |rows| >= ContextSize
    ensures forall k :: 0 <= k < |ConversationContext(chat, rows)| ==> ConversationContext(chat, rows)[k].id.None?
  {
    var all := AllContext(chat, rows);
    var ctx := ConversationContext(chat, rows);
    assert |ctx| == ContextSize;
    forall k | 0 <= k < |ctx|
      ensures ctx[k].id.None?
    {
      var j := |rows| - ContextSize + k;
      assert 0 <= j < |rows|;
      assert ctx[k] == all[|chat| + j];
      assert all[|chat| + j] == FromRow(rows[j]);
    }
  }

  /** The request body fields the model checks. */
  datatype Request = Request(
    userInput: string,
    weightLossReason: string,
    conversationHistory: Option<seq<ContextEntry>>,
    sessionId: Option<string>)

  /** The outcome of handleSubmit up to the request: an error shown, or the request sent. */
  datatype SubmitResult = ShowError(message: string) | Send(request: Request)

  const EmptyContentError: string := "请输入您的感受"
  const NotLoggedInError: string := "用户未登录，请刷新页面重新登录"

  /**
   * handleSubmit up to the fetch: blank content shows an error; a missing
   * access token shows the not-logged-in error; otherwise the request
   * carries the trimmed content, the reason (or '健康生活'), the context
   * (absent when empty) and the session id.
   */
  function HandleSubmit(content: string, accessToken: Option<string>, state: AppState, rows: seq<RecentRow>): (r: SubmitResult)
    ensures AllSpace(content) ==> r == ShowError(EmptyContentError)
    ensures !AllSpace(content) && (accessToken.None? || accessToken.value == []) ==> r == ShowError(NotLoggedInError)
    ensures r.Send? ==> r.request.userInput == Trim(content) && r.request.userInput != []
    ensures r.Send? ==> r.request.sessionId == state.currentSessionId
    ensures r.Send? ==>
      r.request.conversationHistory
        == (if ConversationContext(state.chatHistory, rows) == [] then None else Some(ConversationContext(state.chatHistory, rows)))
    ensures r.Send? && state.weightLossReason.Some? && state.weightLossReason.value != [] ==>
      r.request.weightLossReason == state.weightLossReason.value
    ensures r.Send? && (state.weightLossReason.None? || state.weightLossReason == Some([])) ==>
      r.request.weightLossReason == DefaultReason
  {
    TrimEmptyIffAllSpace(content);
    if Trim(content) == [] then ShowError(EmptyContentError)
    else if accessToken.None? || accessToken.value == [] then ShowError(NotLoggedInError)
    else
      var ctx := ConversationContext(state.chatHistory, rows);
      Send(Request(
        Trim(content),
        if state.weightLossReason.Some? && state.weightLossReason.value != [] then state.weightLossReason.value else DefaultReason,
        if |ctx| > 0 then Some(ctx) else None,
        state.currentSessionId))
  }

  /** A request is sent exactly when the content is not blank and a token is present. */
  lemma SendsOnlyWhenValid(content: string, accessToken: Option<string>, state: AppState, rows: seq<RecentRow>)
    ensures HandleSubmit(content, accessToken, state, rows).Send?
        <==> !AllSpace(content) && accessToken.Some? && accessToken.value != []
  {
    TrimEmptyIffAllSpace(content);
  }

  /**
   * The reason is never empty: a stored non-empty reason is sent unchanged,
   * a missing or empty one becomes '健康生活'. The context is absent exactly
   * when there is nothing to send, and otherwise it is the last
   * min(15, total) entries of the chat followed by the rows.
   */
  lemma RequestShape(content: string, token: string, state: AppState, rows: seq<RecentRow>)
    requires !AllSpace(content) && token != []
    ensures var r := HandleSubmit(content, Some(token), state, rows);
      r.Send? && r.request.weightLossReason != []
      && (r.request.conversationHistory.None? <==> state.chatHistory == [] && rows == [])
      && (state.weightLossReason.None? || state.weightLossReason == Some([]) ==> r.request.weightLossReason == DefaultReason)
      && (state.weightLossReason.Some? && state.weightLossReason.value != [] ==>
            r.request.weightLossReason == state.weightLossReason.value)
    ensures var r := HandleSubmit(content, Some(token), state, rows);
      var total := |state.chatHistory| + |rows|;
      r.request.conversationHistory.Some? ==>
        |r.request.conversationHistory.value| == (if total < ContextSize then total else ContextSize)
        && r.request.conversationHistory.value
           == AllContext(state.chatHistory, rows)[total - |r.request.conversationHistory.value|..]
  {
    TrimEmptyIffAllSpace(content);
  }
}
