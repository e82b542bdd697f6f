/** The bounded prompt over untrusted data: `build_grounded_prompt` of
    src/legal_chatbot/chat/prompt.py.

    The wording of the policy and of the context notice is a parameter; all that matters
    of it here is that it holds no markup. */
module Prompt {
  import opened Wrappers
  import opened Sequences
  import opened ConversationModels
  import opened ContextProjection
  import opened Json

  const POLICY_START := "<GROUNDING_POLICY>"
  const POLICY_END := "</GROUNDING_POLICY>"
  const QUESTION_START := "<UNTRUSTED_QUESTION>"
  const QUESTION_END := "</UNTRUSTED_QUESTION>"
  const EVIDENCE_START := "<UNTRUSTED_EVIDENCE>"
  const EVIDENCE_END := "</UNTRUSTED_EVIDENCE>"
  const CONTEXT_START := "<UNTRUSTED_CONVERSATION_CONTEXT>"
  const CONTEXT_END := "</UNTRUSTED_CONVERSATION_CONTEXT>"
  const NEWLINE := "\n"

  datatype PromptSettings = PromptSettings(
    questionMax: nat,
    maxCitations: nat,
    excerptMax: nat,
    totalEvidenceMax: nat,
    promptMax: nat,
    contextMax: nat)

  datatype WordingData = WordingData(policy: string, notice: string)
  {
    predicate Valid() { NoMarkup(policy) && NoMarkup(notice) }
  }

  type Wording = w: WordingData | w.Valid() witness WordingData("", "")

  datatype PromptError = UngroundedPrompt

  // ----- the sections as JSON; keys in sorted order -----

  function QuestionValue(question: string): Value {
    Object([Field("question", Text(question))])
  }

  function ExcerptValue(i: nat, text: string): Value {
    Object([Field("id", Text("E" + PrintNumber(i + 1))), Field("text", Text(text))])
  }

  function EvidenceValue(texts: seq<string>): Value {
    List(seq(|texts|, i requires 0 <= i < |texts| => ExcerptValue(i, texts[i])))
  }

  function OptionalValue(text: Option<string>): Value {
    match text
    case None => Null
    case Some(t) => Text(t)
  }

  function RoleValue(role: Role): Value {
    Text(if role.UserRole? then "USER" else "ASSISTANT")
  }

  function TurnValue(turn: ContextTurn): Value {
    Object([Field("ordinal", Number(turn.ordinal)), Field("role", RoleValue(turn.role)), Field("text", Text(turn.text))])
  }

  /** _conversation_context_json */
  function ContextValue(context: Context): Value {
    Object([
      Field("active_topic", OptionalValue(context.activeTopic)),
      Field("recent_turns", List(Map(TurnValue, context.recentTurns))),
      Field("rolling_summary", OptionalValue(context.rollingSummary))])
  }

  // ----- building -----

  function TotalLength(texts: seq<string>): nat {
    if texts == [] then 0 else TotalLength(texts[..|texts| - 1]) + |texts[|texts| - 1]|
  }

  predicate WithinBounds(question: string, texts: seq<string>, settings: PromptSettings) {
    && |question| <= settings.questionMax
    && |texts| <= settings.maxCitations
    && (forall i :: 0 <= i < |texts| ==> |texts[i]| <= settings.excerptMax)
    && TotalLength(texts) <= settings.totalEvidenceMax
  }

  function BaseLines(question: string, texts: seq<string>, wording: Wording): seq<string> {
    [POLICY_START, wording.policy, POLICY_END,
     QUESTION_START, Compact(QuestionValue(question)), QUESTION_END,
     EVIDENCE_START, Compact(EvidenceValue(texts)), EVIDENCE_END]
  }

  function ContextLines(context: Context, wording: Wording): seq<string> {
    [CONTEXT_START, wording.notice, Compact(ContextValue(context)), CONTEXT_END]
  }

  function BasePrompt(question: string, texts: seq<string>, wording: Wording): string {
    Join(NEWLINE, BaseLines(question, texts, wording))
  }

  function ContextSection(context: Context, wording: Wording): string {
    Join(NEWLINE, ContextLines(context, wording))
  }

  /** The optional context fits: by itself, as JSON, and in what the prompt leaves. */
  predicate ContextFits(question: string, texts: seq<string>, context: Context, wording: Wording, settings: PromptSettings) {
    && context.CombinedLength() <= settings.contextMax
    && |Compact(ContextValue(context))| <= settings.contextMax
    && |BasePrompt(question, texts, wording)| + 1 + |ContextSection(context, wording)| <= settings.promptMax
  }

  function BuildGroundedPrompt(question: string, texts: seq<string>, context: Option<Context>, wording: Wording, settings: PromptSettings)
    : Result<string, PromptError>
  {
    var base := BasePrompt(question, texts, wording);
    if !WithinBounds(question, texts, settings) || |base| > settings.promptMax then Err(UngroundedPrompt)
    else if context.Some? && ContextFits(question, texts, context.value, wording, settings)
    then Ok(base + NEWLINE + ContextSection(context.value, wording))
    else Ok(base)
  }

  /** The lines of the prompt that is built. */
  function PromptLines(question: string, texts: seq<string>, context: Option<Context>, wording: Wording, settings: PromptSettings): seq<string> {
    BaseLines(question, texts, wording)
    + (if context.Some? && ContextFits(question, texts, context.value, wording, settings) then ContextLines(context.value, wording) else [])
  }

  lemma PromptIsLines(question: string, texts: seq<string>, context: Option<Context>, wording: Wording, settings: PromptSettings)
    requires BuildGroundedPrompt(question, texts, context, wording, settings).Ok?
    ensures BuildGroundedPrompt(question, texts, context, wording, settings).value
      == Join(NEWLINE, PromptLines(question, texts, context, wording, settings))
  {
    hide ContextFits, Join, Compact;
    var base := BaseLines(question, texts, wording);
    if context.Some? && ContextFits(question, texts, context.value, wording, settings) {
      JoinConcat(NEWLINE, base, ContextLines(context.value, wording));
    } else {
      assert base + [] == base;
    }
  }

  // ----- delimiters -----

  /** A delimiter: markup at both ends and nowhere in between. */
  predicate IsTag(d: string) {
    && |d| >= 2 && d[0] == '<' && d[|d| - 1] == '>'
    && forall i :: 0 < i < |d| - 1 ==> !IsMarkup(d[i])
  }

  /** Two delimiters at one place are the same delimiter. */
  lemma TagsAgree(s: string, i: nat, a: string, b: string)
    requires StandsAt(s, i, a) && StandsAt(s, i, b) && IsTag(a) && IsTag(b)
    ensures a == b
  {
    if |a| < |b| {
      StandsAtEach(s, i, a, |a| - 1);
      StandsAtEach(s, i, b, |a| - 1);
    } else if |b| < |a| {
      StandsAtEach(s, i, b, |b| - 1);
      StandsAtEach(s, i, a, |b| - 1);
    }
  }

  /** Lines that are delimiters or hold no markup at all. */
  predicate TagsAndText(lines: seq<string>) {
    forall k :: 0 <= k < |lines| ==> IsTag(lines[k]) || NoMarkup(lines[k])
  }

  /** Where line `k` starts. */
  function Offset(lines: seq<string>, k: nat): nat
    requires k <= |lines|
  {
    if k == 0 then 0 else |Join(NEWLINE, lines[..k])| + 1
  }

  lemma JoinOne(line: string)
    ensures Join(NEWLINE, [line]) == line
  {
  }

  lemma AroundLine(a: seq<string>, line: string, b: seq<string>)
    ensures var before := if a == [] then "" else Join(NEWLINE, a) + NEWLINE;
      var after := if b == [] then "" else NEWLINE + Join(NEWLINE, b);
      Join(NEWLINE, a + [line] + b) == before + line + after
  {
    JoinOne(line);
    hide Join;
    if a != [] {
      JoinConcat(NEWLINE, a, [line]);
    } else {
      assert a + [line] == [line];
    }
    if b != [] {
      JoinConcat(NEWLINE, a + [line], b);
      assert Join(NEWLINE, a + [line]) + NEWLINE + Join(NEWLINE, b) == Join(NEWLINE, a + [line]) + (NEWLINE + Join(NEWLINE, b));
    } else {
      assert a + [line] + b == a + [line];
    }
  }

  lemma MiddleStands(before: string, text: string, after: string)
    ensures StandsAt(before + text + after, |before|, text)
  {
    assert (before + text + after)[|before|..|before| + |text|] == text;
  }

  lemma SplitAt(lines: seq<string>, k: nat)
    requires k < |lines|
    ensures lines == lines[..k] + [lines[k]] + lines[k + 1..]
  {
  }

  lemma LineStands(lines: seq<string>, k: nat)
    requires k < |lines|
    ensures StandsAt(Join(NEWLINE, lines), Offset(lines, k), lines[k])
  {
    hide Join, StandsAt;
    var a, b := lines[..k], lines[k + 1..];
    SplitAt(lines, k);
    AroundLine(a, lines[k], b);
    var before := if a == [] then "" else Join(NEWLINE, a) + NEWLINE;
    var after := if b == [] then "" else NEWLINE + Join(NEWLINE, b);
    MiddleStands(before, lines[k], after);
  }

  lemma OpensOnlyTag(line: string, i: nat)
    requires (IsTag(line) || NoMarkup(line)) && i < |line| && line[i] == '<'
    ensures IsTag(line) && i == 0
  {
    assert IsMarkup(line[i]);
  }

  predicate OpensLine(lines: seq<string>, i: nat, k: nat) {
    k < |lines| && IsTag(lines[k]) && Offset(lines, k) == i
  }

  /** The only places where '<' stands are the beginnings of delimiter lines. */
  lemma {:induction false} MarkupOpensLine(lines: seq<string>, i: nat) returns (k: nat)
    requires TagsAndText(lines) && i < |Join(NEWLINE, lines)| && Join(NEWLINE, lines)[i] == '<'
    ensures OpensLine(lines, i, k)
    decreases |lines|
  {
    hide IsTag, NoMarkup;
    var front, last := lines[..|lines| - 1], lines[|lines| - 1];
    assert lines == front + [last];
    AroundLine(front, last, []);
    assert front + [last] + [] == front + [last];
    var before := if front == [] then "" else Join(NEWLINE, front) + NEWLINE;
    assert Join(NEWLINE, lines) == before + last;
    hide Join;
    if i >= |before| {
      OpensOnlyTag(last, i - |before|);
      k := |lines| - 1;
      assert lines[..k] == front;
    } else {
      k := MarkupOpensLine(front, i);
      assert lines[..k] == front[..k];
    }
  }

  /** A delimiter occurs exactly where a line is that delimiter. */
  lemma OccursAsLine(lines: seq<string>, d: string, i: nat)
    requires TagsAndText(lines) && IsTag(d)
    ensures StandsAt(Join(NEWLINE, lines), i, d) <==> exists k :: 0 <= k < |lines| && lines[k] == d && Offset(lines, k) == i
  {
    hide Join, TagsAndText;
    var s := Join(NEWLINE, lines);
    if StandsAt(s, i, d) {
      StandsAtEach(s, i, d, 0);
      var k := MarkupOpensLine(lines, i);
      LineStands(lines, k);
      TagsAgree(s, i, d, lines[k]);
    }
    forall k | 0 <= k < |lines| && lines[k] == d && Offset(lines, k) == i ensures StandsAt(s, i, d) {
      LineStands(lines, k);
    }
  }

  ghost predicate OccursOnce(s: string, d: string) {
    exists i: nat :: StandsAt(s, i, d) && forall j: nat :: StandsAt(s, j, d) ==> j == i
  }

  lemma LineOccursOnce(lines: seq<string>, k: nat)
    requires TagsAndText(lines) && k < |lines| && IsTag(lines[k])
    requires forall m :: 0 <= m < |lines| && m != k ==> lines[m] != lines[k]
    ensures OccursOnce(Join(NEWLINE, lines), lines[k])
    ensures forall j: nat :: StandsAt(Join(NEWLINE, lines), j, lines[k]) ==> j == Offset(lines, k)
  {
    hide Join, TagsAndText, IsTag;
    LineStands(lines, k);
    forall j: nat | StandsAt(Join(NEWLINE, lines), j, lines[k]) ensures j == Offset(lines, k) {
      OccursAsLine(lines, lines[k], j);
    }
  }

  // ----- finding the sections again -----

  /** The first place from `i` on where the text stands, or the length. */
  function Find(s: string, d: string, i: nat): (r: nat)
    requires i <= |s|
    ensures i <= r <= |s|
    decreases |s| - i
  {
    if i == |s| || StandsAt(s, i, d) then i else Find(s, d, i + 1)
  }

  lemma {:induction false} FindIs(s: string, d: string, i: nat, place: nat)
    requires i <= place <= |s| && d != "" && StandsAt(s, place, d) && forall j: nat :: StandsAt(s, j, d) ==> j == place
    ensures Find(s, d, i) == place
    decreases place - i
  {
    if i < place {
      FindIs(s, d, i + 1, place);
    }
  }

  /** The text of the lines between two delimiters. */
  function Section(s: string, open: string, close: string): string {
    var i, j := Find(s, open, 0) + |open| + 1, Find(s, close, 0) - 1;
    if 0 <= i <= j <= |s| then s[i..j] else ""
  }

  lemma SectionIs(lines: seq<string>, k: nat, m: nat)
    requires TagsAndText(lines) && k + 1 < m < |lines| && IsTag(lines[k]) && IsTag(lines[m])
    requires forall n :: 0 <= n < |lines| && n != k ==> lines[n] != lines[k]
    requires forall n :: 0 <= n < |lines| && n != m ==> lines[n] != lines[m]
    ensures Section(Join(NEWLINE, lines), lines[k], lines[m]) == Join(NEWLINE, lines[k + 1..m])
  {
    hide Join, TagsAndText, IsTag, StandsAt, Offset;
    var s := Join(NEWLINE, lines);
    TagNotEmpty(lines[k]);
    TagNotEmpty(lines[m]);
    LineOccursOnce(lines, k);
    LineOccursOnce(lines, m);
    LineStands(lines, k);
    LineStands(lines, m);
    StandsInside(s, Offset(lines, k), lines[k]);
    StandsInside(s, Offset(lines, m), lines[m]);
    FindIs(s, lines[k], 0, Offset(lines, k));
    FindIs(s, lines[m], 0, Offset(lines, m));
    BetweenLines(lines, k, m);
  }

  lemma TagNotEmpty(d: string)
    requires IsTag(d)
    ensures d != ""
  {
  }

  lemma StandsInside(s: string, i: nat, text: string)
    requires StandsAt(s, i, text)
    ensures i + |text| <= |s|
  {
  }

  lemma OffsetAfter(lines: seq<string>, k: nat)
    requires k < |lines|
    ensures Offset(lines, k + 1) == Offset(lines, k) + |lines[k]| + 1
  {
    assert lines[..k + 1] == lines[..k] + [lines[k]] + [];
    AroundLine(lines[..k], lines[k], []);
    hide Join;
  }

  lemma BetweenLines(lines: seq<string>, k: nat, m: nat)
    requires k + 1 < m < |lines|
    ensures Offset(lines, k) + |lines[k]| + 1 <= Offset(lines, m) - 1 <= |Join(NEWLINE, lines)|
    ensures Join(NEWLINE, lines)[Offset(lines, k) + |lines[k]| + 1..Offset(lines, m) - 1] == Join(NEWLINE, lines[k + 1..m])
  {
    hide Join;
    OffsetAfter(lines, k);
    var a, b, c := lines[..k + 1], lines[k + 1..m], lines[m..];
    assert lines == a + b + c && lines[..m] == a + b;
    JoinConcat(NEWLINE, a, b);
    JoinConcat(NEWLINE, a + b, c);
    var s, x, y := Join(NEWLINE, lines), Join(NEWLINE, a), Join(NEWLINE, b);
    assert s == (x + NEWLINE + y) + (NEWLINE + Join(NEWLINE, c));
    assert Offset(lines, k + 1) == |x| + 1 && Offset(lines, m) == |x + NEWLINE + y| + 1;
    assert (x + NEWLINE + y)[|x| + 1..] == y;
    assert s[|x| + 1..|x| + 1 + |y|] == y;
  }

  // ----- the prompt's own lines -----

  lemma DelimitersAreTags()
    ensures IsTag(POLICY_START) && IsTag(POLICY_END) && IsTag(QUESTION_START) && IsTag(QUESTION_END)
    ensures IsTag(EVIDENCE_START) && IsTag(EVIDENCE_END)
  {
  }

  lemma ContextDelimitersAreTags()
    ensures IsTag(CONTEXT_START) && IsTag(CONTEXT_END)
  {
  }

  /** Delimiters differ in length or in the letter after UNTRUSTED_. */
  lemma DelimiterShapes()
    ensures |POLICY_START| == 18 && |POLICY_END| == 19 && |QUESTION_START| == 20 && |QUESTION_END| == 21
    ensures |EVIDENCE_START| == 20 && |EVIDENCE_END| == 21 && |CONTEXT_START| == 32 && |CONTEXT_END| == 33
    ensures QUESTION_START[11] != EVIDENCE_START[11] && QUESTION_END[12] != EVIDENCE_END[12]
  {
  }

  predicate IsDelimiter(line: string) {
    line == POLICY_START || line == POLICY_END || line == QUESTION_START || line == QUESTION_END
    || line == EVIDENCE_START || line == EVIDENCE_END || line == CONTEXT_START || line == CONTEXT_END
  }

  lemma DelimiterIsTag(line: string)
    requires IsDelimiter(line)
    ensures IsTag(line)
  {
    hide IsTag;
    DelimitersAreTags();
    ContextDelimitersAreTags();
  }

  lemma TextIsNoDelimiter(line: string)
    requires NoMarkup(line)
    ensures !IsDelimiter(line)
  {
    if IsDelimiter(line) {
      DelimiterIsTag(line);
      assert IsMarkup(line[0]);
    }
  }

  /** Which lines of a prompt are delimiters, and which text. */
  predicate Laid(lines: seq<string>) {
    && (|lines| == 9 || |lines| == 13)
    && lines[0] == POLICY_START && NoMarkup(lines[1]) && lines[2] == POLICY_END
    && lines[3] == QUESTION_START && NoMarkup(lines[4]) && lines[5] == QUESTION_END
    && lines[6] == EVIDENCE_START && NoMarkup(lines[7]) && lines[8] == EVIDENCE_END
    && (|lines| == 13 ==>
          lines[9] == CONTEXT_START && NoMarkup(lines[10]) && NoMarkup(lines[11]) && lines[12] == CONTEXT_END)
  }

  predicate AtMostOnce(lines: seq<string>) {
    forall k, n :: 0 <= k < |lines| && 0 <= n < |lines| && n != k && IsDelimiter(lines[k]) ==> lines[n] != lines[k]
  }

  /** The place of a delimiter among the lines. */
  function PlaceOf(line: string): nat {
    if line == POLICY_START then 0 else if line == POLICY_END then 2
    else if line == QUESTION_START then 3 else if line == QUESTION_END then 5
    else if line == EVIDENCE_START then 6 else if line == EVIDENCE_END then 8
    else if line == CONTEXT_START then 9 else 12
  }

  lemma PlacesOfDelimiters()
    ensures PlaceOf(POLICY_START) == 0 && PlaceOf(POLICY_END) == 2 && PlaceOf(QUESTION_START) == 3 && PlaceOf(QUESTION_END) == 5
    ensures PlaceOf(EVIDENCE_START) == 6 && PlaceOf(EVIDENCE_END) == 8 && PlaceOf(CONTEXT_START) == 9 && PlaceOf(CONTEXT_END) == 12
  {
    DelimiterShapes();
  }

  lemma LaidLine(lines: seq<string>, k: nat)
    requires Laid(lines) && k < |lines|
    ensures NoMarkup(lines[k]) || (IsDelimiter(lines[k]) && PlaceOf(lines[k]) == k)
  {
    hide NoMarkup, PlaceOf;
    PlacesOfDelimiters();
  }

  lemma LaidLines(lines: seq<string>)
    requires Laid(lines)
    ensures TagsAndText(lines) && AtMostOnce(lines)
  {
    hide Laid, IsTag, NoMarkup, IsDelimiter, PlaceOf;
    forall k | 0 <= k < |lines| ensures IsTag(lines[k]) || NoMarkup(lines[k]) {
      LaidLine(lines, k);
      if IsDelimiter(lines[k]) { DelimiterIsTag(lines[k]); }
    }
    forall k, n | 0 <= k < |lines| && 0 <= n < |lines| && n != k && IsDelimiter(lines[k]) ensures lines[n] != lines[k] {
      LaidLine(lines, k);
      LaidLine(lines, n);
      if NoMarkup(lines[k]) { TextIsNoDelimiter(lines[k]); }
    }
  }

  lemma PromptIsLaid(question: string, texts: seq<string>, context: Option<Context>, wording: Wording, settings: PromptSettings)
    ensures Laid(PromptLines(question, texts, context, wording, settings))
  {
    hide ContextFits, Compact, NoMarkup, QuestionValue, EvidenceValue, ContextValue;
    CompactRoundTrip(QuestionValue(question));
    CompactRoundTrip(EvidenceValue(texts));
    if context.Some? {
      CompactRoundTrip(ContextValue(context.value));
    }
  }

  // ----- decoding the sections -----

  function QuestionOf(v: Value): Option<string> {
    match v
    case Object(fields) =>
      if |fields| == 1 && fields[0].name == "question" && fields[0].value.Text? then Some(fields[0].value.text) else None
    case _ => None
  }

  /** The identifier of the n-th excerpt: E and its number. */
  predicate Numbers(id: string, n: nat) {
    |id| >= 2 && id[0] == 'E' && ReadNumber(id[1..], 0) == (n, "")
  }

  function ExcerptOf(v: Value, n: nat): Option<string> {
    match v
    case Object(fields) =>
      if |fields| == 2 && fields[0].name == "id" && fields[0].value.Text? && Numbers(fields[0].value.text, n)
         && fields[1].name == "text" && fields[1].value.Text?
      then Some(fields[1].value.text)
      else None
    case _ => None
  }

  function ExcerptsOf(items: seq<Value>): Option<seq<string>> {
    if items == [] then Some([])
    else match (ExcerptsOf(items[..|items| - 1]), ExcerptOf(items[|items| - 1], |items|))
      case (Some(texts), Some(text)) => Some(texts + [text])
      case _ => None
  }

  function EvidenceOf(v: Value): Option<seq<string>> {
    match v
    case List(items) => ExcerptsOf(items)
    case _ => None
  }

  function OptionalOf(v: Value): Option<Option<string>> {
    match v
    case Null => Some(None)
    case Text(t) => Some(Some(t))
    case _ => None
  }

  function RoleOf(name: string): Option<Role> {
    if name == "USER" then Some(UserRole) else if name == "ASSISTANT" then Some(AssistantRole) else None
  }

  function TurnOf(v: Value): Option<ContextTurn> {
    match v
    case Object(fields) =>
      if |fields| == 3 && fields[0].name == "ordinal" && fields[0].value.Number? && fields[1].name == "role"
         && fields[1].value.Text? && RoleOf(fields[1].value.text).Some? && fields[2].name == "text" && fields[2].value.Text?
      then Some(ContextTurn(RoleOf(fields[1].value.text).value, fields[2].value.text, fields[0].value.n))
      else None
    case _ => None
  }

  function TurnsFrom(items: seq<Value>): Option<seq<ContextTurn>> {
    if items == [] then Some([])
    else match (TurnsFrom(items[..|items| - 1]), TurnOf(items[|items| - 1]))
      case (Some(turns), Some(turn)) => Some(turns + [turn])
      case _ => None
  }

  function ContextOf(v: Value): Option<Context> {
    match v
    case Object(fields) =>
      if |fields| == 3 && fields[0].name == "active_topic" && fields[1].name == "recent_turns" && fields[1].value.List?
         && fields[2].name == "rolling_summary" then
        (match (OptionalOf(fields[0].value), TurnsFrom(fields[1].value.items), OptionalOf(fields[2].value))
         case (Some(topic), Some(turns), Some(summary)) => Some(Context(summary, topic, turns))
         case _ => None)
      else None
    case _ => None
  }

  lemma NumberedBack(n: nat)
    ensures Numbers("E" + PrintNumber(n), n)
  {
    NumbersHaveNoMarkup(n);
    assert ("E" + PrintNumber(n))[1..] == PrintNumber(n) && PrintNumber(n) + "" == PrintNumber(n);
    hide PrintNumber;
    ReadPrintedNumber(n, "");
  }

  lemma ExcerptRoundTrip(i: nat, text: string)
    ensures ExcerptOf(ExcerptValue(i, text), i + 1) == Some(text)
  {
    hide Numbers, PrintNumber;
    NumberedBack(i + 1);
  }

  lemma {:induction false} ExcerptsRoundTrip(texts: seq<string>, n: nat)
    requires n <= |texts|
    ensures ExcerptsOf(EvidenceValue(texts).items[..n]) == Some(texts[..n])
  {
    if n > 0 {
      ExcerptsRoundTrip(texts, n - 1);
      var items := EvidenceValue(texts).items;
      ExcerptRoundTrip(n - 1, texts[n - 1]);
      hide ExcerptOf, ExcerptValue;
      assert items[..n][..n - 1] == items[..n - 1];
      assert texts[..n] == texts[..n - 1] + [texts[n - 1]];
    }
  }

  lemma EvidenceRoundTrip(texts: seq<string>)
    ensures EvidenceOf(EvidenceValue(texts)) == Some(texts)
  {
    ExcerptsRoundTrip(texts, |texts|);
    assert texts[..|texts|] == texts;
    assert EvidenceValue(texts).items[..|texts|] == EvidenceValue(texts).items;
  }

  lemma TurnRoundTrip(turn: ContextTurn)
    ensures TurnOf(TurnValue(turn)) == Some(turn)
  {
  }

  lemma {:induction false} TurnsRoundTrip(turns: seq<ContextTurn>)
    ensures TurnsFrom(Map(TurnValue, turns)) == Some(turns)
  {
    hide TurnValue, TurnOf;
    if turns != [] {
      TurnsRoundTrip(turns[..|turns| - 1]);
      TurnRoundTrip(turns[|turns| - 1]);
      assert Map(TurnValue, turns)[..|turns| - 1] == Map(TurnValue, turns[..|turns| - 1]);
      assert turns == turns[..|turns| - 1] + [turns[|turns| - 1]];
    }
  }

  lemma ContextRoundTrip(context: Context)
    ensures ContextOf(ContextValue(context)) == Some(context)
  {
    hide TurnValue, TurnsFrom;
    TurnsRoundTrip(context.recentTurns);
  }

  /** The value a section's text holds. */
  function Held(text: string): Value {
    match Decode(text)
    case Some(v) => v
    case None => Null
  }

  lemma SectionBetween(lines: seq<string>, k: nat, m: nat)
    requires Laid(lines) && k + 1 < m < |lines| && IsDelimiter(lines[k]) && IsDelimiter(lines[m])
    ensures Section(Join(NEWLINE, lines), lines[k], lines[m]) == Join(NEWLINE, lines[k + 1..m])
  {
    hide Laid, TagsAndText, IsTag, IsDelimiter, Section, Join;
    LaidLines(lines);
    DelimiterIsTag(lines[k]);
    DelimiterIsTag(lines[m]);
    SectionIs(lines, k, m);
  }

  lemma SectionOfLine(lines: seq<string>, k: nat)
    requires Laid(lines) && k + 2 < |lines| && (k == 0 || k == 3 || k == 6)
    ensures Section(Join(NEWLINE, lines), lines[k], lines[k + 2]) == lines[k + 1]
  {
    assert IsDelimiter(lines[k]) && IsDelimiter(lines[k + 2]);
    hide Laid, IsDelimiter, Section, Join;
    SectionBetween(lines, k, k + 2);
    assert lines[k + 1..k + 2] == [lines[k + 1]];
    JoinOne(lines[k + 1]);
  }

  /** Prompt round trip: whatever the question and the excerpts say, the text between their
      delimiters decodes to exactly the question and the excerpts, in order and numbered from
      one; and the policy stands alone between its own. */
  lemma PromptRoundTrip(question: string, texts: seq<string>, context: Option<Context>, wording: Wording, settings: PromptSettings)
    requires BuildGroundedPrompt(question, texts, context, wording, settings).Ok?
    ensures var prompt := BuildGroundedPrompt(question, texts, context, wording, settings).value;
      && Section(prompt, POLICY_START, POLICY_END) == wording.policy
      && QuestionOf(Held(Section(prompt, QUESTION_START, QUESTION_END))) == Some(question)
      && EvidenceOf(Held(Section(prompt, EVIDENCE_START, EVIDENCE_END))) == Some(texts)
  {
    hide BuildGroundedPrompt, ContextFits, Join, Compact, Decode, Section, EvidenceValue, Laid, ContextLines;
    PromptIsLines(question, texts, context, wording, settings);
    PromptIsLaid(question, texts, context, wording, settings);
    var lines := PromptLines(question, texts, context, wording, settings);
    SectionOfLine(lines, 0);
    SectionOfLine(lines, 3);
    SectionOfLine(lines, 6);
    CompactRoundTrip(QuestionValue(question));
    CompactRoundTrip(EvidenceValue(texts));
    EvidenceRoundTrip(texts);
  }

  lemma JoinTwo(first: string, second: string)
    ensures Join(NEWLINE, [first, second]) == first + NEWLINE + second
  {
    hide Join;
    assert [first, second] == [first] + [second];
    JoinConcat(NEWLINE, [first], [second]);
    JoinOne(first);
    JoinOne(second);
  }

  lemma SectionOfContext(lines: seq<string>)
    requires Laid(lines) && |lines| == 13
    ensures Section(Join(NEWLINE, lines), CONTEXT_START, CONTEXT_END) == lines[10] + NEWLINE + lines[11]
  {
    assert IsDelimiter(lines[9]) && IsDelimiter(lines[12]);
    hide IsDelimiter, Section, Join;
    SectionBetween(lines, 9, 12);
    assert lines[10..12] == [lines[10], lines[11]];
    JoinTwo(lines[10], lines[11]);
  }

  /** The optional context only extends the base prompt, never pushes it over its bound,
      and, when it is there, decodes to the same summary, topic and turns after the notice;
      it is there exactly when it fits. */
  lemma ContextOnlyExtends(question: string, texts: seq<string>, context: Context, wording: Wording, settings: PromptSettings)
    requires BuildGroundedPrompt(question, texts, None, wording, settings).Ok?
    ensures var base := BuildGroundedPrompt(question, texts, None, wording, settings).value;
      var r := BuildGroundedPrompt(question, texts, Some(context), wording, settings);
      && r.Ok? && base <= r.value && |r.value| <= settings.promptMax
      && (r.value == base <==> !ContextFits(question, texts, context, wording, settings))
      && (r.value != base ==>
            var section := Section(r.value, CONTEXT_START, CONTEXT_END);
            && |wording.notice| + 1 <= |section|
            && section[..|wording.notice|] == wording.notice
            && ContextOf(Held(section[|wording.notice| + 1..])) == Some(context))
  {
    hide Join, Compact, Decode, Section, Laid, ContextValue, ContextOf, QuestionValue, EvidenceValue, TotalLength;
    if ContextFits(question, texts, context, wording, settings) {
      PromptIsLines(question, texts, Some(context), wording, settings);
      PromptIsLaid(question, texts, Some(context), wording, settings);
      var lines := PromptLines(question, texts, Some(context), wording, settings);
      SectionOfContext(lines);
      var json := Compact(ContextValue(context));
      assert lines[10] == wording.notice && lines[11] == json;
      NoticeThenRest(wording.notice, json);
      CompactRoundTrip(ContextValue(context));
      ContextRoundTrip(context);
    }
  }

  // ----- when there is a prompt -----

  lemma {:induction false} TotalLengthIsTheText(texts: seq<string>)
    ensures TotalLength(texts) == |Flatten(texts)|
  {
    if texts != [] {
      TotalLengthIsTheText(texts[..|texts| - 1]);
    }
  }

  lemma {:induction false} JoinLength(lines: seq<string>)
    requires lines != []
    ensures |Join(NEWLINE, lines)| == TotalLength(lines) + |lines| - 1
  {
    if |lines| > 1 {
      JoinLength(lines[..|lines| - 1]);
    } else {
      assert lines[..0] == [];
      assert TotalLength([]) == 0;
    }
  }

  lemma TotalOf3(a: string, b: string, c: string)
    ensures TotalLength([a, b, c]) == |a| + |b| + |c|
  {
    assert [a, b, c][..2] == [a, b] && [a, b][..1] == [a] && [a][..0] == [];
    assert TotalLength([]) == 0 && TotalLength([a]) == |a| && TotalLength([a, b]) == |a| + |b|;
  }

  lemma {:induction false} TotalConcat(a: seq<string>, b: seq<string>)
    ensures TotalLength(a + b) == TotalLength(a) + TotalLength(b)
  {
    if b == [] {
      assert a + b == a;
    } else {
      assert (a + b)[..|a + b| - 1] == a + b[..|b| - 1];
      TotalConcat(a, b[..|b| - 1]);
    }
  }

  /** The lengths of a section's three lines with their line breaks, the last excepted. */
  function Framed(open: string, text: string, close: string): nat {
    |open| + 1 + |text| + 1 + |close|
  }

  lemma BaseLength(question: string, texts: seq<string>, wording: Wording)
    ensures |BasePrompt(question, texts, wording)|
      == Framed(POLICY_START, wording.policy, POLICY_END) + 1
       + Framed(QUESTION_START, Compact(QuestionValue(question)), QUESTION_END) + 1
       + Framed(EVIDENCE_START, Compact(EvidenceValue(texts)), EVIDENCE_END)
  {
    hide Compact, Join;
    var p, q, e := [POLICY_START, wording.policy, POLICY_END],
      [QUESTION_START, Compact(QuestionValue(question)), QUESTION_END],
      [EVIDENCE_START, Compact(EvidenceValue(texts)), EVIDENCE_END];
    assert BaseLines(question, texts, wording) == (p + q) + e;
    JoinLength(BaseLines(question, texts, wording));
    TotalConcat(p + q, e);
    TotalConcat(p, q);
    TotalOf3(POLICY_START, wording.policy, POLICY_END);
    TotalOf3(QUESTION_START, Compact(QuestionValue(question)), QUESTION_END);
    TotalOf3(EVIDENCE_START, Compact(EvidenceValue(texts)), EVIDENCE_END);
  }

  lemma ContextLength(context: Context, wording: Wording)
    ensures |ContextSection(context, wording)|
      == |CONTEXT_START| + 1 + |wording.notice| + 1 + |Compact(ContextValue(context))| + 1 + |CONTEXT_END|
  {
    hide Compact, Join;
    var json := Compact(ContextValue(context));
    var rest := [wording.notice, json, CONTEXT_END];
    assert ContextLines(context, wording) == [CONTEXT_START] + rest;
    JoinLength(ContextLines(context, wording));
    TotalConcat([CONTEXT_START], rest);
    TotalOf3(wording.notice, json, CONTEXT_END);
    TotalOfOne(CONTEXT_START);
  }

  lemma TotalOfOne(line: string)
    ensures TotalLength([line]) == |line|
  {
    assert [line][..0] == [];
    assert TotalLength([]) == 0;
  }

  /** There is a prompt exactly when the question, the number of the excerpts, each excerpt and
      all of them together are within their bounds, and the sections are within the prompt's. */
  lemma PromptExistsIff(question: string, texts: seq<string>, context: Option<Context>, wording: Wording, settings: PromptSettings)
    ensures BuildGroundedPrompt(question, texts, context, wording, settings).Ok? <==>
      && |question| <= settings.questionMax && |texts| <= settings.maxCitations
      && (forall text :: text in texts ==> |text| <= settings.excerptMax)
      && |Flatten(texts)| <= settings.totalEvidenceMax
      && Framed(POLICY_START, wording.policy, POLICY_END) + 1
         + Framed(QUESTION_START, Compact(QuestionValue(question)), QUESTION_END) + 1
         + Framed(EVIDENCE_START, Compact(EvidenceValue(texts)), EVIDENCE_END) <= settings.promptMax
  {
    hide BasePrompt, ContextSection, Compact, ContextFits, Flatten, TotalLength, Framed;
    TotalLengthIsTheText(texts);
    BaseLength(question, texts, wording);
    if forall i :: 0 <= i < |texts| ==> |texts[i]| <= settings.excerptMax {
      forall text | text in texts ensures |text| <= settings.excerptMax {
        var i :| 0 <= i < |texts| && texts[i] == text;
      }
    } else {
      var i :| 0 <= i < |texts| && |texts[i]| > settings.excerptMax;
      assert texts[i] in texts;
    }
  }

  /** The context is included exactly when its texts, its JSON and the whole prompt with it
      are within their bounds. */
  lemma ContextFitsIff(question: string, texts: seq<string>, context: Context, wording: Wording, settings: PromptSettings)
    ensures ContextFits(question, texts, context, wording, settings) <==>
      && |TextOrNothing(context.rollingSummary) + TextOrNothing(context.activeTopic) + Flatten(Map(TurnText, context.recentTurns))|
         <= settings.contextMax
      && |Compact(ContextValue(context))| <= settings.contextMax
      && |BasePrompt(question, texts, wording)| + 1
         + |CONTEXT_START| + 1 + |wording.notice| + 1 + |Compact(ContextValue(context))| + 1 + |CONTEXT_END| <= settings.promptMax
  {
    hide BasePrompt, ContextSection, Compact, Flatten, Map, Context.CombinedLength;
    CombinedLengthIsTheText(context);
    ContextLength(context, wording);
  }

  lemma NoticeThenRest(notice: string, rest: string)
    ensures var s := notice + NEWLINE + rest;
      s[..|notice|] == notice && s[|notice| + 1..] == rest
  {
  }

  /** Each delimiter occurs exactly once in the prompt: the six of the base prompt always,
      those of the context exactly when it is included, whatever the untrusted texts hold. */
  lemma DelimitersOccurOnce(question: string, texts: seq<string>, context: Option<Context>, wording: Wording, settings: PromptSettings, d: string)
    requires BuildGroundedPrompt(question, texts, context, wording, settings).Ok? && IsDelimiter(d)
    ensures var prompt := BuildGroundedPrompt(question, texts, context, wording, settings).value;
      var included := context.Some? && ContextFits(question, texts, context.value, wording, settings);
      if (d == CONTEXT_START || d == CONTEXT_END) && !included
      then forall i: nat :: !StandsAt(prompt, i, d)
      else OccursOnce(prompt, d)
  {
    hide BuildGroundedPrompt, ContextFits, Join, Compact, StandsAt, TagsAndText, IsTag;
    PromptIsLines(question, texts, context, wording, settings);
    PromptIsLaid(question, texts, context, wording, settings);
    var lines := PromptLines(question, texts, context, wording, settings);
    LaidLines(lines);
    DelimiterIsTag(d);
    var included := context.Some? && ContextFits(question, texts, context.value, wording, settings);
    if (d == CONTEXT_START || d == CONTEXT_END) && !included {
      NoContextLine(lines, d);
      forall i: nat ensures !StandsAt(Join(NEWLINE, lines), i, d) {
        OccursAsLine(lines, d, i);
      }
    } else {
      var k := LineOf(lines, d);
      LineOccursOnce(lines, k);
    }
  }

  lemma NoContextLine(lines: seq<string>, d: string)
    requires Laid(lines) && |lines| == 9 && (d == CONTEXT_START || d == CONTEXT_END)
    ensures forall k :: 0 <= k < |lines| ==> lines[k] != d
  {
    forall k | 0 <= k < |lines| ensures lines[k] != d {
      hide Laid, NoMarkup, PlaceOf;
      LaidLine(lines, k);
      PlacesOfDelimiters();
      if NoMarkup(lines[k]) { TextIsNoDelimiter(lines[k]); }
    }
  }

  lemma LineOf(lines: seq<string>, d: string) returns (k: nat)
    requires Laid(lines) && IsDelimiter(d) && (|lines| == 13 || (d != CONTEXT_START && d != CONTEXT_END))
    ensures k < |lines| && lines[k] == d
  {
    hide NoMarkup;
    k := PlaceOf(d);
  }

  /** With or without context, a prompt never exceeds its bound. */
  lemma PromptIsBounded(question: string, texts: seq<string>, context: Option<Context>, wording: Wording, settings: PromptSettings)
    ensures var r := BuildGroundedPrompt(question, texts, context, wording, settings);
      r.Ok? ==> |r.value| <= settings.promptMax
  {
    hide BasePrompt, ContextSection, WithinBounds, Compact;
  }
}
