// The message selection of the result page: which messages the AI text area
// shows for the negative (analysis) and the positive (motivating) view, the
// user question shown with them, and the view state flipped by the two
// toggle buttons.

module ResultDisplay {
  import opened Types

  datatype TextType = Negative | Positive

  /** `[...ms].reverse().find(m => m.type === kind)`: the last message of the kind. */
  function LastOfKind(ms: seq<ChatMessage>, kind: string): (r: Option<ChatMessage>)
    ensures r.Some? ==> r.value in ms && r.value.kind == kind
    ensures r.None? <==> forall i :: 0 <= i < |ms| ==> ms[i].kind != kind
  {
    if ms == [] then None
    else if ms[|ms| - 1].kind == kind then Some(ms[|ms| - 1])
    else LastOfKind(ms[..|ms| - 1], kind)
  }

  /** A message of the kind with none of that kind after it is the one found. */
  lemma {:induction false} LastOfKindIsLast(ms: seq<ChatMessage>, kind: string, i: nat)
    requires i < |ms| && ms[i].kind == kind
    requires forall j :: i < j < |ms| ==> ms[j].kind != kind
    ensures LastOfKind(ms, kind) == Some(ms[i])
    decreases |ms|
  {
    if i < |ms| - 1 {
      var init := ms[..|ms| - 1];
      assert init[i] == ms[i];
      forall j | i < j < |init|
        ensures init[j].kind != kind
      {
        assert init[j] == ms[j];
      }
      LastOfKindIsLast(init, kind, i);
    }
  }

  /** `ms[i]` is of the kind and no message of that kind follows it. */
  predicate IsLastOfKindAt(ms: seq<ChatMessage>, kind: string, i: int)
  {
    0 <= i < |ms| && ms[i].kind == kind && forall j :: i < j < |ms| ==> ms[j].kind != kind
  }

  /** The message found sits at a position with no message of the kind after it. */
  lemma {:induction false} LastOfKindAt(ms: seq<ChatMessage>, kind: string)
    requires LastOfKind(ms, kind).Some?
    ensures exists i :: IsLastOfKindAt(ms, kind, i) && ms[i] == LastOfKind(ms, kind).value
    decreases |ms|
  {
    var n := |ms| - 1;
    if ms[n].kind == kind {
      assert IsLastOfKindAt(ms, kind, n);
    } else {
      var init := ms[..n];
      LastOfKindAt(init, kind);
      var i :| IsLastOfKindAt(init, kind, i) && init[i] == LastOfKind(init, kind).value;
      assert ms[i] == init[i];
      forall j | i < j < |ms|
        ensures ms[j].kind != kind
      {
        if j < n { assert ms[j] == init[j]; }
      }
      assert IsLastOfKindAt(ms, kind, i);
    }
  }

  /**
   * The view a message belongs to: the negative view holds every message not
   * marked `false` (`isNegative !== false`, so unmarked ones too), the
   * positive view the ones marked `false` (`isNegative === false`).
   */
  predicate InView(m: ChatMessage, t: TextType)
  {
    if t == Negative then CountsAsNegative(m) else m.isNegative == Some(false)
  }

  /** `chatHistory.filter(...)` for the current view, in the original order. */
  function MessagesForType(ms: seq<ChatMessage>, t: TextType): (r: seq<ChatMessage>)
    ensures |r| <= |ms|
  {
    if ms == [] then []
    else MessagesForType(ms[..|ms| - 1], t) + (if InView(ms[|ms| - 1], t) then [ms[|ms| - 1]] else [])
  }

  /** The view holds exactly the messages of the history that belong to it. */
  lemma {:induction false} MessagesForTypeMembers(ms: seq<ChatMessage>, t: TextType)
    ensures forall m :: m in MessagesForType(ms, t) <==> m in ms && InView(m, t)
  {
    if ms != [] {
      var init, last := ms[..|ms| - 1], ms[|ms| - 1];
      MessagesForTypeMembers(init, t);
      assert ms == init + [last];
    }
  }

  /** A history all in one view is shown whole, in order. */
  lemma {:induction false} ViewOfItsOwnMessages(ms: seq<ChatMessage>, t: TextType)
    requires forall i :: 0 <= i < |ms| ==> InView(ms[i], t)
    ensures MessagesForType(ms, t) == ms
  {
    if ms != [] {
      var init, last := ms[..|ms| - 1], ms[|ms| - 1];
      forall i | 0 <= i < |init|
        ensures InView(init[i], t)
      {
        assert init[i] == ms[i];
      }
      ViewOfItsOwnMessages(init, t);
      assert InView(last, t);
      calc {
        MessagesForType(ms, t);
        MessagesForType(init, t) + [last];
        init + [last];
        { assert init + [last] == ms; }
        ms;
      }
    }
  }

  /** The two views partition the history: each message is in exactly one of them. */
  lemma {:induction false} ViewsPartitionHistory(ms: seq<ChatMessage>)
    ensures multiset(MessagesForType(ms, Negative)) + multiset(MessagesForType(ms, Positive)) == multiset(ms)
    ensures |MessagesForType(ms, Negative)| + |MessagesForType(ms, Positive)| == |ms|
  {
    if ms != [] {
      var init, last := ms[..|ms| - 1], ms[|ms| - 1];
      ViewsPartitionHistory(init);
      assert init + [last] == ms;
    }
  }

  /**
   * messagesToRenderInAiArea: in the negative view, once the user has asked
   * something, only the last AI message of the view (or nothing); otherwise
   * the whole view.
   */
  function MessagesToRender(history: seq<ChatMessage>, t: TextType): (r: seq<ChatMessage>)
    ensures forall m :: m in r ==> m in history && InView(m, t)
  {
    MessagesForTypeMembers(history, t);
    var inView := MessagesForType(history, t);
    if LastOfKind(history, UserKind).Some? && t == Negative then
      var lastAi := LastOfKind(inView, AiKind);
      if lastAi.Some? then [lastAi.value] else []
    else inView
  }

  /**
   * In conversation mode at most one message is shown: an AI message of the
   * negative view, with no AI message of that view after it; nothing is
   * shown only when the negative view holds no AI message.
   */
  lemma ConversationModeShowsLastAiAnswer(history: seq<ChatMessage>)
    requires LastOfKind(history, UserKind).Some?
    ensures var r := MessagesToRender(history, Negative);
      |r| <= 1
      && (forall m :: m in r ==> m in history && m.kind == AiKind && CountsAsNegative(m))
      && (r == [] <==> forall m :: m in history && CountsAsNegative(m) ==> m.kind != AiKind)
    ensures MessagesToRender(history, Negative) != [] ==>
      exists i :: IsLastOfKindAt(MessagesForType(history, Negative), AiKind, i)
        && MessagesForType(history, Negative)[i] == MessagesToRender(history, Negative)[0]
  {
    var inView := MessagesForType(history, Negative);
    var lastAi := LastOfKind(inView, AiKind);
    MessagesForTypeMembers(history, Negative);
    if lastAi.Some? {
      assert MessagesToRender(history, Negative) == [lastAi.value];
      LastOfKindAt(inView, AiKind);
      var i :| IsLastOfKindAt(inView, AiKind, i) && inView[i] == lastAi.value;
      assert inView[i] == MessagesToRender(history, Negative)[0];
    } else {
      assert MessagesToRender(history, Negative) == [];
      forall m | m in history && CountsAsNegative(m)
        ensures m.kind != AiKind
      {
        assert m in inView;
        var i :| 0 <= i < |inView| && inView[i] == m;
      }
    }
  }

  /** Without a user message, or in the positive view, the whole view is shown in order. */
  lemma OtherwiseShowsWholeView(history: seq<ChatMessage>, t: TextType)
    requires LastOfKind(history, UserKind).None? || t == Positive
    ensures MessagesToRender(history, t) == MessagesForType(history, t)
  {
  }

  /** userQuestionToShow: the last user message, in the negative view only. */
  function UserQuestion(history: seq<ChatMessage>, t: TextType): (r: Option<ChatMessage>)
    ensures t == Positive ==> r.None?
    ensures t == Negative ==> r == LastOfKind(history, UserKind)
  {
    if t == Negative then LastOfKind(history, UserKind) else None
  }

  /**
   * The view state of the result page: the current view, whether the
   * motivating text was already requested, and how many times
   * onGenerateMotivating was called.
   */
  class ResultView {
    var currentTextType: TextType
    var showMotivating: bool
    var generateRequests: nat

    /** onGenerateMotivating has run exactly once when the motivating text has been shown. */
    predicate Valid()
      reads this
    {
      generateRequests == if showMotivating then 1 else 0
    }

    constructor()
      ensures currentTextType == Negative && !showMotivating && generateRequests == 0
      ensures Valid()
    {
      currentTextType := Negative;
      showMotivating := false;
      generateRequests := 0;
    }

    /** The messages shown for `history` in the current view. */
    function Rendered(history: seq<ChatMessage>): seq<ChatMessage>
      reads this
    {
      MessagesToRender(history, currentTextType)
    }

    /**
     * handleShowMotivating: requests the motivating text the first time only,
     * and always switches to the positive view.
     */
    method HandleShowMotivating()
      requires Valid()
      modifies this
      ensures Valid()
      ensures currentTextType == Positive && showMotivating
      ensures generateRequests == if old(showMotivating) then old(generateRequests) else old(generateRequests) + 1
      ensures generateRequests == 1
      ensures forall history :: Rendered(history) == MessagesForType(history, Positive)
    {
      if !showMotivating {
        generateRequests := generateRequests + 1;
        showMotivating := true;
      }
      currentTextType := Positive;
    }

    /** handleShowNegative: switches to the negative view and changes nothing else. */
    method HandleShowNegative()
      requires Valid()
      modifies this
      ensures Valid()
      ensures currentTextType == Negative
      ensures showMotivating == old(showMotivating) && generateRequests == old(generateRequests)
    {
      currentTextType := Negative;
    }
  }
}
