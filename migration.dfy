// The local-to-cloud migration service: splitting the stored messages into
// sessions at gaps of more than an hour, picking a weight-loss reason for
// each session, counting what the database accepted, the early exit when
// there is nothing to migrate, and the session estimate of getMigrationStats.
// The database answers are parameters: `sessionCreated(g)` says whether the
// session of group g was created, `conversationCreated(g, c)` whether
// message c of that group was.

module Migration {
  import opened Types
  import opened Strings

  /** SESSION_GAP: one hour in milliseconds. */
  const SessionGap: int := 60 * 60 * 1000

  /** The reason used when no message of a group states one. */
  const DefaultReason: string := "历史数据迁移"

  /** The reason createSession receives for a group whose reason is empty. */
  const FallbackSessionReason: string := "数据迁移导入"

  datatype SessionGroup = SessionGroup(weightLossReason: string, conversations: seq<ChatMessage>)

  // ---------------------------------------------------------------------
  // extractWeightLossReason
  // ---------------------------------------------------------------------

  /** The test /减肥|瘦身|健康|体重|身材/: the text names one of the weight-loss words. */
  predicate MentionsWeightLoss(s: string)
  {
    Contains(s, "减肥") || Contains(s, "瘦身") || Contains(s, "健康")
    || Contains(s, "体重") || Contains(s, "身材")
  }

  /** A user message longer than 10 characters that mentions weight loss. */
  predicate StatesReason(m: ChatMessage)
  {
    m.kind == UserKind && |m.content| > 10 && MentionsWeightLoss(m.content)
  }

  /**
   * The reason of a group: the first 50 characters of its first message that
   * states one, or the default text. It is never empty.
   */
  function Reason(ms: seq<ChatMessage>): (r: string)
    ensures 0 < |r| <= 50
    ensures r != FallbackSessionReason
  {
    if ms == [] then DefaultReason
    else if StatesReason(ms[0]) then Prefix(ms[0].content, 50)
    else Reason(ms[1..])
  }

  /** extractWeightLossReason: a scan that returns at the first message stating a reason. */
  method ExtractWeightLossReason(conversations: seq<ChatMessage>) returns (reason: string)
    ensures reason == Reason(conversations)
  {
    var i := 0;
    while i < |conversations|
      invariant 0 <= i <= |conversations|
      invariant Reason(conversations) == Reason(conversations[i..])
    {
      var conv := conversations[i];
      assert conversations[i..][1..] == conversations[i + 1..];
      if conv.kind == UserKind && |conv.content| > 10 {
        if MentionsWeightLoss(conv.content) {
          return Prefix(conv.content, 50);
        }
      }
      i := i + 1;
    }
    return DefaultReason;
  }

  /** The reason is taken from the first message that states one, whatever follows it. */
  lemma {:induction false} ReasonIsFirstStated(ms: seq<ChatMessage>, i: nat)
    requires i < |ms| && StatesReason(ms[i])
    requires forall j :: 0 <= j < i ==> !StatesReason(ms[j])
    ensures Reason(ms) == Prefix(ms[i].content, 50)
  {
    if i > 0 {
      assert !StatesReason(ms[0]);
      assert ms[1..][i - 1] == ms[i];
      ReasonIsFirstStated(ms[1..], i - 1);
    }
  }

  /** Without any message stating a reason, the default text is used. */
  lemma {:induction false} ReasonDefaultsWithoutStatement(ms: seq<ChatMessage>)
    requires forall j :: 0 <= j < |ms| ==> !StatesReason(ms[j])
    ensures Reason(ms) == DefaultReason
  {
    if ms != [] {
      assert !StatesReason(ms[0]);
      ReasonDefaultsWithoutStatement(ms[1..]);
    }
  }

  // ---------------------------------------------------------------------
  // groupConversationsBySession
  // ---------------------------------------------------------------------

  /** The messages of the groups, one group after another. */
  function Flatten(groups: seq<SessionGroup>): seq<ChatMessage>
  {
    if groups == [] then []
    else Flatten(groups[..|groups| - 1]) + groups[|groups| - 1].conversations
  }

  /** Consecutive messages are at most an hour apart. */
  predicate WithinGap(ms: seq<ChatMessage>)
  {
    forall k :: 0 < k < |ms| ==> ms[k].timestamp - ms[k - 1].timestamp <= SessionGap
  }

  /** Every group is non-empty, has no gap of more than an hour inside, and carries its reason. */
  predicate GroupsWellFormed(groups: seq<SessionGroup>)
  {
    forall g :: 0 <= g < |groups| ==>
      groups[g].conversations != [] && WithinGap(groups[g].conversations)
      && groups[g].weightLossReason == Reason(groups[g].conversations)
  }

  /** `next` starts more than an hour after `prev` ends. */
  predicate Separated(prev: seq<ChatMessage>, next: seq<ChatMessage>)
  {
    prev != [] && next != [] && next[0].timestamp - prev[|prev| - 1].timestamp > SessionGap
  }

  /** Between one group and the next lies a gap of more than an hour. */
  predicate GroupsSeparated(groups: seq<SessionGroup>)
  {
    forall g :: 0 < g < |groups| ==> Separated(groups[g - 1].conversations, groups[g].conversations)
  }

  /** The group being collected starts more than an hour after the last closed group. */
  predicate StartsAfterGap(groups: seq<SessionGroup>, current: seq<ChatMessage>)
  {
    groups == [] || current == [] || Separated(groups[|groups| - 1].conversations, current)
  }

  /** Closing a well-formed group that starts after a gap keeps the grouping well formed and separated. */
  lemma CloseGroup(groups: seq<SessionGroup>, current: seq<ChatMessage>, reason: string)
    requires GroupsWellFormed(groups) && GroupsSeparated(groups)
    requires current != [] && WithinGap(current) && reason == Reason(current)
    requires StartsAfterGap(groups, current)
    ensures var closed := groups + [SessionGroup(reason, current)];
      GroupsWellFormed(closed) && GroupsSeparated(closed)
      && Flatten(closed) == Flatten(groups) + current
  {
    var closed := groups + [SessionGroup(reason, current)];
    FlattenAppend(groups, SessionGroup(reason, current));
    forall g | 0 <= g < |closed|
      ensures closed[g].conversations != [] && WithinGap(closed[g].conversations)
        && closed[g].weightLossReason == Reason(closed[g].conversations)
    {
      if g < |groups| {
        assert closed[g] == groups[g];
      }
    }
    forall g | 0 < g < |closed|
      ensures Separated(closed[g - 1].conversations, closed[g].conversations)
    {
      if g < |groups| {
        assert closed[g] == groups[g] && closed[g - 1] == groups[g - 1];
      }
    }
  }

  /** A message at most an hour after the last one of the current group joins it without breaking the gap bound. */
  lemma ExtendGroup(current: seq<ChatMessage>, conv: ChatMessage)
    requires WithinGap(current)
    requires current != [] ==> conv.timestamp - current[|current| - 1].timestamp <= SessionGap
    ensures WithinGap(current + [conv])
  {
    var next := current + [conv];
    forall k | 0 < k < |next|
      ensures next[k].timestamp - next[k - 1].timestamp <= SessionGap
    {
      if k < |current| {
        assert next[k] == current[k] && next[k - 1] == current[k - 1];
      }
    }
  }

  lemma FlattenAppend(groups: seq<SessionGroup>, g: SessionGroup)
    ensures Flatten(groups + [g]) == Flatten(groups) + g.conversations
  {
    assert (groups + [g])[..|groups|] == groups;
  }

  /** Non-empty groups are no more numerous than their messages. */
  lemma {:induction false} FlattenIsLonger(groups: seq<SessionGroup>)
    requires GroupsWellFormed(groups)
    ensures |groups| <= |Flatten(groups)|
  {
    if groups != [] {
      var init := groups[..|groups| - 1];
      assert GroupsWellFormed(init) by {
        forall g | 0 <= g < |init|
          ensures init[g].conversations != [] && WithinGap(init[g].conversations)
            && init[g].weightLossReason == Reason(init[g].conversations)
        {
          assert init[g] == groups[g];
        }
      }
      FlattenIsLonger(init);
    }
  }

  /**
   * groupConversationsBySession: a new group starts at every message more
   * than an hour after the previous one. The groups, read one after another,
   * give back the input in order; no group is empty; inside a group no gap
   * exceeds an hour, and between groups every gap does.
   */
  method GroupConversationsBySession(conversations: seq<ChatMessage>) returns (groups: seq<SessionGroup>)
    ensures Flatten(groups) == conversations
    ensures GroupsWellFormed(groups) && GroupsSeparated(groups)
    ensures conversations == [] <==> groups == []
    ensures |groups| <= |conversations|
  {
    groups := [];
    var currentGroup: seq<ChatMessage> := [];
    var lastTimestamp := 0;
    var i := 0;
    while i < |conversations|
      invariant 0 <= i <= |conversations|
      invariant Collecting(conversations[..i], groups, currentGroup, lastTimestamp)
    {
      var conv := conversations[i];
      groups, currentGroup, lastTimestamp := GroupStep(conversations[..i], groups, currentGroup, lastTimestamp, conv);
      assert conversations[..i + 1] == conversations[..i] + [conv];
      i := i + 1;
    }
    assert conversations[..i] == conversations;
    if |currentGroup| > 0 {
      groups := PushGroup(groups, currentGroup);
    }
    FlattenIsLonger(groups);
  }

  /**
   * The state of the grouping loop after reading `prefix`: the closed groups
   * and the current one together hold `prefix`, and `lastTimestamp` is the
   * timestamp of the last message read.
   */
  ghost predicate Collecting(prefix: seq<ChatMessage>, groups: seq<SessionGroup>,
                             current: seq<ChatMessage>, lastTimestamp: int)
  {
    Flatten(groups) + current == prefix
    && GroupsWellFormed(groups) && GroupsSeparated(groups)
    && WithinGap(current) && StartsAfterGap(groups, current)
    && (current == [] <==> prefix == [])
    && (prefix == [] ==> groups == [])
    && (current != [] ==> lastTimestamp == current[|current| - 1].timestamp)
  }

  /** One iteration of the grouping loop: close the current group at a gap, then add the message. */
  method GroupStep(ghost prefix: seq<ChatMessage>, groups: seq<SessionGroup>, currentGroup: seq<ChatMessage>,
                   lastTimestamp: int, conv: ChatMessage)
    returns (groups': seq<SessionGroup>, currentGroup': seq<ChatMessage>, lastTimestamp': int)
    requires Collecting(prefix, groups, currentGroup, lastTimestamp)
    ensures Collecting(prefix + [conv], groups', currentGroup', lastTimestamp')
  {
    groups', currentGroup' := groups, currentGroup;
    if conv.timestamp - lastTimestamp > SessionGap && |currentGroup| > 0 {
      groups' := PushGroup(groups, currentGroup);
      currentGroup' := [];
      assert Separated(groups'[|groups'| - 1].conversations, [conv]);
    }
    ExtendGroup(currentGroup', conv);
    currentGroup' := currentGroup' + [conv];
    lastTimestamp' := conv.timestamp;
  }

  /** `groups.push({ weightLossReason: extractWeightLossReason(current), conversations: current })`. */
  method PushGroup(groups: seq<SessionGroup>, current: seq<ChatMessage>) returns (closed: seq<SessionGroup>)
    requires GroupsWellFormed(groups) && GroupsSeparated(groups)
    requires current != [] && WithinGap(current) && StartsAfterGap(groups, current)
    ensures GroupsWellFormed(closed) && GroupsSeparated(closed)
    ensures Flatten(closed) == Flatten(groups) + current
    ensures closed != [] && closed[|closed| - 1].conversations == current
    ensures closed == groups + [SessionGroup(Reason(current), current)]
  {
    var reason := ExtractWeightLossReason(current);
    CloseGroup(groups, current, reason);
    closed := groups + [SessionGroup(reason, current)];
  }

  /** `group.weightLossReason || '数据迁移导入'`: the reason the session is created with. */
  function SessionReason(group: SessionGroup): string
  {
    if group.weightLossReason != [] then group.weightLossReason else FallbackSessionReason
  }

  /** The fallback reason is never used: every group from the grouping has a non-empty reason. */
  lemma FallbackReasonUnused(groups: seq<SessionGroup>, g: nat)
    requires GroupsWellFormed(groups) && g < |groups|
    ensures SessionReason(groups[g]) == groups[g].weightLossReason
    ensures SessionReason(groups[g]) != FallbackSessionReason
  {
  }

  // ---------------------------------------------------------------------
  // migrateConversations
  // ---------------------------------------------------------------------

  /** A conversation row as createConversation writes it. */
  datatype StoredConversation = StoredConversation(kind: string, content: string, isNegative: bool)

  /** The row written for a message: negative unless marked `false`. */
  function ToStored(m: ChatMessage): (row: StoredConversation)
    ensures row.kind == m.kind && row.content == m.content
    ensures !row.isNegative <==> m.isNegative == Some(false)
  {
    StoredConversation(m.kind, m.content, m.isNegative != Some(false))
  }

  /** A migrated message lands in the same view it was shown in: negative exactly when it counted as negative. */
  lemma MigrationKeepsTheView(m: ChatMessage)
    ensures ToStored(m).isNegative <==> CountsAsNegative(m)
    ensures m.isNegative == None ==> ToStored(m).isNegative
  {
  }

  /** The number of the first `n` sessions that were created. */
  function CreatedSessions(sessionCreated: nat -> bool, n: nat): (c: nat)
    ensures c <= n
  {
    if n == 0 then 0
    else CreatedSessions(sessionCreated, n - 1) + (if sessionCreated(n - 1) then 1 else 0)
  }

  /** The number of the first `k` messages of group `g` that were written. */
  function CreatedIn(conversationCreated: (nat, nat) -> bool, g: nat, k: nat): (c: nat)
    ensures c <= k
  {
    if k == 0 then 0
    else CreatedIn(conversationCreated, g, k - 1) + (if conversationCreated(g, k - 1) then 1 else 0)
  }

  /**
   * The messages written among the first `n` groups: only groups whose
   * session was created contribute, so the count never exceeds their messages.
   */
  function CreatedConversations(groups: seq<SessionGroup>, sessionCreated: nat -> bool,
                                conversationCreated: (nat, nat) -> bool, n: nat): nat
    requires n <= |groups|
  {
    if n == 0 then 0
    else
      CreatedConversations(groups, sessionCreated, conversationCreated, n - 1)
      + (if sessionCreated(n - 1)
         then CreatedIn(conversationCreated, n - 1, |groups[n - 1].conversations|) else 0)
  }

  /** The rows counted never outnumber the messages of the first `n` groups. */
  lemma {:induction false} CreatedConversationsBound(groups: seq<SessionGroup>, sessionCreated: nat -> bool,
                                                     conversationCreated: (nat, nat) -> bool, n: nat)
    requires n <= |groups|
    ensures CreatedConversations(groups, sessionCreated, conversationCreated, n) <= |Flatten(groups[..n])|
  {
    if n > 0 {
      assert groups[..n][..n - 1] == groups[..n - 1];
      CreatedConversationsBound(groups, sessionCreated, conversationCreated, n - 1);
    }
  }

  /** The number of messages in those of the first `n` groups whose session was created. */
  function MessagesOfCreatedSessions(groups: seq<SessionGroup>, sessionCreated: nat -> bool, n: nat): nat
    requires n <= |groups|
  {
    if n == 0 then 0
    else
      MessagesOfCreatedSessions(groups, sessionCreated, n - 1)
      + (if sessionCreated(n - 1) then |groups[n - 1].conversations| else 0)
  }

  /**
   * Rows are written only inside sessions that were created: the count never
   * exceeds the messages of the created sessions, and it is 0 when no session
   * was created.
   */
  lemma {:induction false} RowsOnlyInCreatedSessions(groups: seq<SessionGroup>, sessionCreated: nat -> bool,
                                                     conversationCreated: (nat, nat) -> bool, n: nat)
    requires n <= |groups|
    ensures CreatedConversations(groups, sessionCreated, conversationCreated, n)
            <= MessagesOfCreatedSessions(groups, sessionCreated, n)
    ensures (forall g: nat :: g < n ==> !sessionCreated(g)) ==>
            CreatedConversations(groups, sessionCreated, conversationCreated, n) == 0
  {
    if n > 0 {
      RowsOnlyInCreatedSessions(groups, sessionCreated, conversationCreated, n - 1);
    }
  }

  /**
   * migrateConversations: one session per group and one row per message of
   * a created session; the counts are the sessions and the rows the database
   * accepted. There are never more sessions than groups, nor more rows than
   * messages. `groups` is the grouping the counts refer to.
   */
  method MigrateConversations(conversations: seq<ChatMessage>, sessionCreated: nat -> bool,
                              conversationCreated: (nat, nat) -> bool)
    returns (sessions: nat, migrated: nat, ghost groups: seq<SessionGroup>)
    ensures Flatten(groups) == conversations && GroupsWellFormed(groups) && GroupsSeparated(groups)
    ensures sessions == CreatedSessions(sessionCreated, |groups|)
    ensures migrated == CreatedConversations(groups, sessionCreated, conversationCreated, |groups|)
    ensures sessions <= |groups| <= |conversations|
    ensures migrated <= |conversations|
  {
    var sessionGroups := GroupConversationsBySession(conversations);
    groups := sessionGroups;
    sessions, migrated := CountMigrated(sessionGroups, sessionCreated, conversationCreated);
    CreatedConversationsBound(sessionGroups, sessionCreated, conversationCreated, |sessionGroups|);
    assert sessionGroups[..|sessionGroups|] == sessionGroups;
  }

  /** The counting loops of migrateConversations over the given groups. */
  method CountMigrated(groups: seq<SessionGroup>, sessionCreated: nat -> bool,
                       conversationCreated: (nat, nat) -> bool)
    returns (sessions: nat, migrated: nat)
    ensures sessions == CreatedSessions(sessionCreated, |groups|)
    ensures migrated == CreatedConversations(groups, sessionCreated, conversationCreated, |groups|)
  {
    sessions := 0;
    migrated := 0;
    var g := 0;
    while g < |groups|
      invariant 0 <= g <= |groups|
      invariant sessions == CreatedSessions(sessionCreated, g)
      invariant migrated == CreatedConversations(groups, sessionCreated, conversationCreated, g)
    {
      var group := groups[g];
      if sessionCreated(g) {
        sessions := sessions + 1;
        var c := 0;
        while c < |group.conversations|
          invariant 0 <= c <= |group.conversations|
          invariant migrated == CreatedConversations(groups, sessionCreated, conversationCreated, g)
                                + CreatedIn(conversationCreated, g, c)
        {
          if conversationCreated(g, c) {
            migrated := migrated + 1;
          }
          c := c + 1;
        }
      }
      g := g + 1;
    }
  }

  // ---------------------------------------------------------------------
  // migrateToCloud and getMigrationStats
  // ---------------------------------------------------------------------

  datatype Preferences = Preferences(weightLossReason: Option<string>)

  /** What getLocalData found in storage; a missing key is None. */
  datatype LocalData = LocalData(conversations: Option<seq<ChatMessage>>, userPreferences: Option<Preferences>)

  datatype MigrationResult = MigrationResult(
    success: bool,
    migratedSessions: nat,
    migratedConversations: nat,
    error: Option<string>)

  /** The writes migrateToCloud performs, in order. */
  datatype MigrationStep = UpdateProfile(goal: string) | CreateSessions | BackupAndClear

  /** `conversations?.length || 0`. */
  function LocalCount(local: LocalData): nat
  {
    if local.conversations.Some? then |local.conversations.value| else 0
  }

  /** `!conversations?.length && !userPreferences`: nothing to migrate. */
  predicate NothingToMigrate(local: LocalData)
  {
    LocalCount(local) == 0 && local.userPreferences.None?
  }

  /** The stored preferences carry a non-empty weight-loss reason. */
  predicate HasGoal(local: LocalData)
  {
    local.userPreferences.Some? && local.userPreferences.value.weightLossReason.Some?
    && local.userPreferences.value.weightLossReason.value != []
  }

  function Goal(local: LocalData): string
    requires HasGoal(local)
  {
    local.userPreferences.value.weightLossReason.value
  }

  /**
   * migrateToCloud: with nothing stored it succeeds at once with zero counts
   * and writes nothing. Otherwise it updates the profile when a goal is
   * stored, migrates the messages when there are any, and backs up and
   * clears the local data last. The database calls report failure by
   * returning null, so the migration itself always succeeds.
   */
  method MigrateToCloud(local: LocalData, sessionCreated: nat -> bool, conversationCreated: (nat, nat) -> bool)
    returns (result: MigrationResult, steps: seq<MigrationStep>)
    ensures result.success && result.error == None
    ensures NothingToMigrate(local) <==> steps == []
    ensures NothingToMigrate(local) ==> result.migratedSessions == 0 && result.migratedConversations == 0
    ensures steps != [] ==> steps[|steps| - 1] == BackupAndClear
    ensures HasGoal(local) ==> UpdateProfile(Goal(local)) in steps
    ensures forall step :: step in steps && step.UpdateProfile? ==> HasGoal(local) && step.goal == Goal(local)
    ensures CreateSessions in steps <==> LocalCount(local) > 0
    ensures result.migratedSessions <= LocalCount(local) && result.migratedConversations <= LocalCount(local)
  {
    if LocalCount(local) == 0 && local.userPreferences.None? {
      return MigrationResult(true, 0, 0, None), [];
    }
    steps := [];
    if HasGoal(local) {
      steps := steps + [UpdateProfile(Goal(local))];
    }
    var sessions, migrated := 0, 0;
    if LocalCount(local) > 0 {
      ghost var groups;
      sessions, migrated, groups := MigrateConversations(local.conversations.value, sessionCreated, conversationCreated);
      steps := steps + [CreateSessions];
    }
    result := MigrationResult(true, sessions, migrated, None);
    steps := steps + [BackupAndClear];
  }

  /** estimatedSessions: one session per ten messages, rounded up; none without messages. */
  function EstimatedSessions(count: nat): (n: nat)
    ensures count == 0 <==> n == 0
    ensures count > 0 ==> 10 * (n - 1) < count <= 10 * n
  {
    if count > 0 then (count + 9) / 10 else 0
  }

  /** getMigrationStats without the storage probe: the message count and the estimate. */
  function MigrationStats(local: LocalData): (stats: (nat, nat))
    ensures stats.0 == LocalCount(local)
    ensures stats.1 <= stats.0
  {
    (LocalCount(local), EstimatedSessions(LocalCount(local)))
  }
}
