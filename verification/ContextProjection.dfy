/** The greedy context budget: `project_chat_context` of
    src/legal_chatbot/conversation/policy.py and the `ConversationContext`
    validator of src/legal_chatbot/chat/models.py. */
module ContextProjection {
  import opened Wrappers
  import opened Sequences
  import opened ChatModels
  import opened ConversationModels

  datatype ContextTurn = ContextTurn(role: Role, text: string, ordinal: nat)

  datatype Context = Context(rollingSummary: Option<string>, activeTopic: Option<string>, recentTurns: seq<ContextTurn>)
  {
    predicate Valid() {
      && (rollingSummary.Some? ==> rollingSummary.value != "" && |rollingSummary.value| <= ROLLING_SUMMARY_MAX_CHARS)
      && (activeTopic.Some? ==> activeTopic.value != "" && |activeTopic.value| <= ACTIVE_TOPIC_MAX_CHARS)
      && ContextTurnsValid(recentTurns)
      && CombinedLength() <= CONTEXT_MAX_CHARS
    }

    function CombinedLength(): nat {
      OptionLength(rollingSummary) + OptionLength(activeTopic) + TurnsLength(recentTurns)
    }
  }

  predicate ContextTurnsValid(turns: seq<ContextTurn>) {
    && |turns| <= CONTEXT_TURN_LIMIT
    && (forall t :: t in turns ==> t.text != "" && |t.text| <= USER_TEXT_MAX_CHARS && t.ordinal >= 1)
    && (forall i, j :: 0 <= i < j < |turns| ==> turns[i].ordinal < turns[j].ordinal)
  }

  /** Every turn has text, as its own validator demands. */
  predicate Worded(turns: seq<Turn>) {
    forall t :: t in turns ==> t.text != ""
  }

  function OptionLength(text: Option<string>): nat {
    if text.Some? then |text.value| else 0
  }

  function TurnsLength(turns: seq<ContextTurn>): nat {
    if turns == [] then 0 else TurnsLength(turns[1..]) + |turns[0].text|
  }

  function Whole(turn: Turn): ContextTurn {
    ContextTurn(turn.role, turn.text, turn.ordinal)
  }

  /** Specification: the longest suffix of turns that fits, its oldest member cut
      to a prefix of what is left of the budget. */
  function KeepTurns(turns: seq<Turn>, budget: nat): seq<ContextTurn>
    requires Worded(turns)
  {
    if turns == [] || budget == 0 then []
    else
      var newest := turns[|turns| - 1];
      var kept := Take(newest.text, budget);
      KeepTurns(turns[..|turns| - 1], budget - |kept|) + [ContextTurn(newest.role, kept, newest.ordinal)]
  }

  function Project(snapshot: Snapshot, summary: Option<string>, limit: nat): Option<Context>
    requires Worded(snapshot.recentTurns)
  {
    var topicLength := OptionLength(snapshot.activeTopic);
    if topicLength > limit then None
    else
      Assemble(snapshot.activeTopic, KeepTurns(snapshot.recentTurns, limit - topicLength), summary, limit)
  }

  /** The summary takes what topic and turns leave; nothing at all is no context. */
  function Assemble(topic: Option<string>, turns: seq<ContextTurn>, summary: Option<string>, limit: nat): Option<Context> {
    var room := limit - OptionLength(topic) - TurnsLength(turns);
    var kept := if room > 0 && summary.Some? then Some(Last(summary.value, room)) else None;
    if topic.None? && turns == [] && kept.None? then None
    else Some(Context(kept, topic, turns))
  }

  lemma TurnsLengthAppend(turns: seq<ContextTurn>, last: ContextTurn)
    ensures TurnsLength(turns + [last]) == TurnsLength(turns) + |last.text|
  {
    if turns != [] {
      TurnsLengthAppend(turns[1..], last);
      assert (turns + [last])[1..] == turns[1..] + [last];
    }
  }

  /** A turn kept for the context: verbatim, unless it is the oldest one kept,
      which may be a nonempty prefix. */
  predicate KeptAs(kept: ContextTurn, original: Turn, oldest: bool) {
    && kept.ordinal == original.ordinal && kept.role == original.role
    && kept.text != "" && kept.text <= original.text
    && (oldest || kept.text == original.text)
  }

  predicate IsKeptSuffix(kept: seq<ContextTurn>, turns: seq<Turn>) {
    && |kept| <= |turns|
    && forall i :: 0 <= i < |kept| ==> KeptAs(kept[i], turns[|turns| - |kept| + i], i == 0)
  }

  lemma SuffixExtends(rest: seq<ContextTurn>, front: seq<Turn>, picked: ContextTurn, newest: Turn)
    requires IsKeptSuffix(rest, front) && KeptAs(picked, newest, rest == [])
    ensures IsKeptSuffix(rest + [picked], front + [newest])
  {
    hide KeptAs;
    var all, turns := rest + [picked], front + [newest];
    forall i | 0 <= i < |all| ensures KeptAs(all[i], turns[|turns| - |all| + i], i == 0) {
      if i < |rest| {
        assert KeptAs(rest[i], front[|front| - |rest| + i], i == 0);
      }
    }
  }

  lemma {:induction false} KeptTurnsAreASuffix(turns: seq<Turn>, budget: nat)
    requires Worded(turns)
    ensures IsKeptSuffix(KeepTurns(turns, budget), turns)
  {
    if turns != [] && budget != 0 {
      var front, newest := turns[..|turns| - 1], turns[|turns| - 1];
      var kept := Take(newest.text, budget);
      var picked := ContextTurn(newest.role, kept, newest.ordinal);
      KeptTurnsAreASuffix(front, budget - |kept|);
      var rest := KeepTurns(front, budget - |kept|);
      assert KeptAs(picked, newest, rest == []) by {
        assert newest in turns && newest.text != "";
      }
      hide IsKeptSuffix, KeptAs;
      SuffixExtends(rest, front, picked, newest);
      assert turns == front + [newest];
    }
  }

  lemma {:induction false} KeptTurnsFillTheBudget(turns: seq<Turn>, budget: nat)
    requires Worded(turns)
    ensures TurnsLength(KeepTurns(turns, budget)) <= budget
    ensures TurnsLength(KeepTurns(turns, budget)) < budget ==> KeepTurns(turns, budget) == Map(Whole, turns)
  {
    if turns != [] && budget != 0 {
      var front, newest := turns[..|turns| - 1], turns[|turns| - 1];
      var kept := Take(newest.text, budget);
      KeptTurnsFillTheBudget(front, budget - |kept|);
      TurnsLengthAppend(KeepTurns(front, budget - |kept|), ContextTurn(newest.role, kept, newest.ordinal));
      if TurnsLength(KeepTurns(turns, budget)) < budget {
        assert Map(Whole, turns) == Map(Whole, front) + [Whole(newest)];
      }
    }
  }

  /** What the projection drops or shortens. */
  predicate Cut(snapshot: Snapshot, summary: Option<string>, context: Context) {
    context.recentTurns != Map(Whole, snapshot.recentTurns) || context.rollingSummary != summary
  }

  lemma ProjectionIsAbsentIff(snapshot: Snapshot, summary: Option<string>, limit: nat)
    requires Worded(snapshot.recentTurns) && limit > 0
    ensures Project(snapshot, summary, limit).None? <==>
      || OptionLength(snapshot.activeTopic) > limit
      || (snapshot.activeTopic.None? && snapshot.recentTurns == [] && summary.None?)
  {
    var topicLength := OptionLength(snapshot.activeTopic);
    if topicLength <= limit && snapshot.activeTopic.None? && snapshot.recentTurns != [] {
      KeptTurnsFillTheBudget(snapshot.recentTurns, limit);
      assert KeepTurns(snapshot.recentTurns, limit) != [];
    }
  }

  lemma ProjectionIsWithin(snapshot: Snapshot, summary: Option<string>, limit: nat)
    requires Worded(snapshot.recentTurns) && Project(snapshot, summary, limit).Some?
    ensures Project(snapshot, summary, limit).value.CombinedLength() <= limit
    ensures Project(snapshot, summary, limit).value.activeTopic == snapshot.activeTopic
    ensures limit >= OptionLength(snapshot.activeTopic)
    ensures Project(snapshot, summary, limit).value.recentTurns
         == KeepTurns(snapshot.recentTurns, limit - OptionLength(snapshot.activeTopic))
  {
    KeptTurnsFillTheBudget(snapshot.recentTurns, limit - OptionLength(snapshot.activeTopic));
  }

  lemma ProjectionIsValid(snapshot: Snapshot, summary: Option<string>, limit: nat)
    requires snapshot.Valid() && OptionalSafe(summary, ROLLING_SUMMARY_MAX_CHARS) && limit <= CONTEXT_MAX_CHARS
    requires Project(snapshot, summary, limit).Some?
    ensures Project(snapshot, summary, limit).value.Valid()
  {
    var context := Project(snapshot, summary, limit).value;
    KeptTurnsAreValid(snapshot, limit - OptionLength(snapshot.activeTopic));
    ProjectionIsWithin(snapshot, summary, limit);
    assert ContextTurnsValid(context.recentTurns);
  }

  lemma CuttingFillsTheLimit(snapshot: Snapshot, summary: Option<string>, limit: nat)
    requires Worded(snapshot.recentTurns) && Project(snapshot, summary, limit).Some?
    requires Cut(snapshot, summary, Project(snapshot, summary, limit).value)
    ensures Project(snapshot, summary, limit).value.CombinedLength() == limit
  {
    var budget := limit - OptionLength(snapshot.activeTopic);
    KeptTurnsFillTheBudget(snapshot.recentTurns, budget);
    var context := Project(snapshot, summary, limit).value;
    var room := budget - TurnsLength(context.recentTurns);
    if context.recentTurns == Map(Whole, snapshot.recentTurns) && room > 0 && summary.Some? {
      assert Last(summary.value, room) != summary.value ==> |Last(summary.value, room)| == room;
    }
  }

  /** The budget law: a result is absent only for a topic longer than the whole limit
      or for an empty state; otherwise it is a valid context within the limit, and it
      fills the limit exactly whenever anything had to be cut. */
  lemma ProjectionUsesTheBudget(snapshot: Snapshot, summary: Option<string>, limit: nat)
    requires snapshot.Valid() && OptionalSafe(summary, ROLLING_SUMMARY_MAX_CHARS)
    requires 1 <= limit <= CONTEXT_MAX_CHARS
    ensures Project(snapshot, summary, limit).None? <==>
      || OptionLength(snapshot.activeTopic) > limit
      || (snapshot.activeTopic.None? && snapshot.recentTurns == [] && summary.None?)
    ensures Project(snapshot, summary, limit).Some? ==>
      var context := Project(snapshot, summary, limit).value;
      && context.Valid()
      && context.activeTopic == snapshot.activeTopic
      && IsKeptSuffix(context.recentTurns, snapshot.recentTurns)
      && context.CombinedLength() <= limit
      && (Cut(snapshot, summary, context) ==> context.CombinedLength() == limit)
  {
    hide Project, KeepTurns, IsKeptSuffix, Cut, Context.CombinedLength, Context.Valid, ReferencesValid;
    ProjectionIsAbsentIff(snapshot, summary, limit);
    if Project(snapshot, summary, limit).Some? {
      ProjectionIsValid(snapshot, summary, limit);
      ProjectionIsWithin(snapshot, summary, limit);
      KeptTurnsAreASuffix(snapshot.recentTurns, limit - OptionLength(snapshot.activeTopic));
      if Cut(snapshot, summary, Project(snapshot, summary, limit).value) {
        CuttingFillsTheLimit(snapshot, summary, limit);
      }
    }
  }

  function TextOrNothing(text: Option<string>): string {
    if text.Some? then text.value else ""
  }

  function TurnText(turn: ContextTurn): string { turn.text }

  lemma {:induction false} TurnsLengthIsTheText(turns: seq<ContextTurn>)
    ensures TurnsLength(turns) == |Flatten(Map(TurnText, turns))|
  {
    if turns != [] {
      var front, last := turns[..|turns| - 1], turns[|turns| - 1];
      TurnsLengthIsTheText(front);
      TurnsLengthAppend(front, last);
      assert turns == front + [last];
      assert Map(TurnText, turns) == Map(TurnText, front) + [last.text];
      FlattenSnoc(Map(TurnText, front), last.text);
    }
  }

  /** The length of a context counts every character of its texts, and nothing else. */
  lemma CombinedLengthIsTheText(context: Context)
    ensures context.CombinedLength()
         == |TextOrNothing(context.rollingSummary) + TextOrNothing(context.activeTopic) + Flatten(Map(TurnText, context.recentTurns))|
  {
    TurnsLengthIsTheText(context.recentTurns);
  }

  /** What the topic and the turns of a context leave of the limit. */
  function Room(context: Context, limit: nat): int {
    limit - |TextOrNothing(context.activeTopic) + Flatten(Map(TurnText, context.recentTurns))|
  }

  /** The newest end of `whole`, `n` characters long. */
  predicate IsNewestEnd(kept: string, whole: string, n: nat) {
    |kept| == n <= |whole| && forall i :: 0 <= i < n ==> kept[i] == whole[|whole| - n + i]
  }

  /** The summary of a context is there exactly when one is given and topic and turns leave
      room. It is the whole summary when that fits into the room, and otherwise the newest
      end of it that fills the room. */
  lemma KeptSummaryIsTheNewestEnd(snapshot: Snapshot, summary: Option<string>, limit: nat)
    requires Worded(snapshot.recentTurns) && Project(snapshot, summary, limit).Some?
    ensures var context := Project(snapshot, summary, limit).value;
      var room := Room(context, limit);
      && room >= 0
      && (context.rollingSummary.Some? <==> summary.Some? && room > 0)
      && (summary.Some? && room > 0 ==>
            && (|summary.value| <= room ==> context.rollingSummary == summary)
            && (|summary.value| > room ==> IsNewestEnd(context.rollingSummary.value, summary.value, room)))
  {
    hide KeepTurns, Flatten, IsNewestEnd, TurnsLength, Map;
    var turns := KeepTurns(snapshot.recentTurns, limit - OptionLength(snapshot.activeTopic));
    KeptTurnsFillTheBudget(snapshot.recentTurns, limit - OptionLength(snapshot.activeTopic));
    TurnsLengthIsTheText(turns);
    var room := limit - OptionLength(snapshot.activeTopic) - TurnsLength(turns);
    if summary.Some? && room > 0 {
      LastIsNewestEnd(summary.value, room);
    }
  }

  lemma LastIsNewestEnd(whole: string, n: nat)
    ensures if |whole| <= n then Last(whole, n) == whole else IsNewestEnd(Last(whole, n), whole, n)
  {
  }

  lemma ValidIsWorded(snapshot: Snapshot)
    requires snapshot.Valid()
    ensures Worded(snapshot.recentTurns)
  {
    hide ReferencesValid, NoControls;
  }

  lemma KeptTurnsAreValid(snapshot: Snapshot, budget: nat)
    requires snapshot.Valid()
    ensures ContextTurnsValid(KeepTurns(snapshot.recentTurns, budget))
  {
    var turns := KeepTurns(snapshot.recentTurns, budget);
    KeptTurnsAreASuffix(snapshot.recentTurns, budget);
    hide KeepTurns, ReferencesValid, SafeText, OptionalSafe;
    var gap := |snapshot.recentTurns| - |turns|;
    forall i | 0 <= i < |turns|
      ensures turns[i].text != "" && |turns[i].text| <= USER_TEXT_MAX_CHARS && turns[i].ordinal >= 1
    {
      assert KeptAs(turns[i], snapshot.recentTurns[gap + i], i == 0);
      assert snapshot.recentTurns[gap + i].Valid();
    }
    forall i, j | 0 <= i < j < |turns| ensures turns[i].ordinal < turns[j].ordinal {
      assert KeptAs(turns[i], snapshot.recentTurns[gap + i], i == 0);
      assert KeptAs(turns[j], snapshot.recentTurns[gap + j], j == 0);
    }
  }

  lemma ProjectionIsSound(snapshot: Snapshot, summary: Option<string>, limit: nat)
    requires snapshot.Valid() && OptionalSafe(summary, ROLLING_SUMMARY_MAX_CHARS) && limit <= CONTEXT_MAX_CHARS
    ensures Project(snapshot, summary, limit).None? || Project(snapshot, summary, limit).value.Valid()
  {
    if Project(snapshot, summary, limit).Some? {
      ProjectionIsValid(snapshot, summary, limit);
    }
  }

  /** The loop of project_chat_context: newest turn first, a shrinking budget. */
  method SelectTurns(turns: seq<Turn>, budget: nat) returns (selected: seq<ContextTurn>)
    requires Worded(turns)
    ensures selected == KeepTurns(turns, budget)
  {
    selected := [];   // oldest first
    var remaining, next := budget, |turns|;
    assert turns[..next] == turns;
    while next > 0 && remaining > 0
      invariant 0 <= next <= |turns| && 0 <= remaining
      invariant KeepTurns(turns[..next], remaining) + selected == KeepTurns(turns, budget)
    {
      var turn := turns[next - 1];
      assert turns[..next][..next - 1] == turns[..next - 1];
      var text := if |turn.text| <= remaining then turn.text else turn.text[..remaining];
      assert text == Take(turn.text, remaining) && turn in turns;
      var picked := ContextTurn(turn.role, text, turn.ordinal);
      ghost var before := KeepTurns(turns[..next - 1], remaining - |text|);
      assert (before + [picked]) + selected == before + ([picked] + selected);
      selected := [picked] + selected;
      remaining := remaining - |text|;
      next := next - 1;
    }
  }

  /** project_chat_context, with the contract checks of the source. */
  method ProjectChatContext(snapshot: Snapshot, rollingSummary: Option<string>, settings: Settings)
    returns (result: Result<Option<Context>, ErrorCode>)
    requires snapshot.Valid()
    ensures result == if OptionLength(snapshot.activeTopic) <= settings.contextMaxChars
                         && !OptionalSafe(rollingSummary, ROLLING_SUMMARY_MAX_CHARS)
                      then Err(StateInvalid)
                      else Ok(Project(snapshot, rollingSummary, settings.contextMaxChars))
  {
    hide KeepTurns, Context.Valid, SafeText, Assemble, Worded, Snapshot.Valid;
    ValidIsWorded(snapshot);
    var topic := snapshot.activeTopic;
    if topic.Some? && |topic.value| > settings.contextMaxChars {
      return Ok(None);
    }
    var selected := SelectTurns(snapshot.recentTurns, settings.contextMaxChars - OptionLength(topic));
    if !OptionalSafe(rollingSummary, ROLLING_SUMMARY_MAX_CHARS) {
      return Err(StateInvalid);
    }
    var context := Assemble(topic, selected, rollingSummary, settings.contextMaxChars);
    ProjectionIsSound(snapshot, rollingSummary, settings.contextMaxChars);
    if context.Some? && !context.value.Valid() {
      return Err(StateInvalid);
    }
    return Ok(context);
  }
}
